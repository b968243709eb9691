/**
 Space reservation in the log: begin_op() admits an operation only while the
 log can hold MAXOPBLOCKS more blocks for it and for every operation under way.
 */
module LogSpace {
  import opened Common
  import opened LogFormat
  import opened LogProtocol

  /** Every operation so far added at most MAXOPBLOCKS blocks. */
  predicate InBudget(c: Config, s: State) {
    forall o :: 0 <= o < |s.ops| ==> s.ops[o].used <= c.maxOp
  }

  /** The unused budgets of the operations under way. */
  function Reserved(ops: seq<Op>, m: nat): (r: int)
    decreases |ops|
  {
    if ops == [] then 0 else
      var x := ops[|ops| - 1];
      Reserved(ops[..|ops| - 1], m) + if x.active then m - x.used else 0
  }

  lemma {:induction false} ReservedSet(ops: seq<Op>, m: nat, o: nat, x: Op)
    requires o < |ops|
    ensures Reserved(ops[o := x], m) ==
            Reserved(ops, m) - (if ops[o].active then m - ops[o].used else 0) + (if x.active then m - x.used else 0)
    decreases |ops|
  {
    var n := |ops| - 1;
    if o < n {
      ReservedSet(ops[..n], m, o, x);
      assert ops[o := x][..n] == ops[..n][o := x];
    } else {
      assert ops[o := x][..n] == ops[..n];
    }
  }

  lemma {:induction false} ReservedAtMost(ops: seq<Op>, m: nat)
    ensures Reserved(ops, m) <= Count(ops) * m
    decreases |ops|
  {
    if ops != [] { ReservedAtMost(ops[..|ops| - 1], m); }
  }

  lemma {:induction false} ReservedOne(ops: seq<Op>, m: nat, o: nat)
    requires o < |ops| && ops[o].active && forall i :: 0 <= i < |ops| ==> ops[i].used <= m
    ensures Reserved(ops, m) >= m - ops[o].used
    decreases |ops|
  {
    var n := |ops| - 1;
    assert forall i :: 0 <= i < n ==> ops[..n][i] == ops[i];
    if o < n { ReservedOne(ops[..n], m, o); } else { ReservedNonnegative(ops[..n], m); }
  }

  lemma {:induction false} ReservedNonnegative(ops: seq<Op>, m: nat)
    requires forall i :: 0 <= i < |ops| ==> ops[i].used <= m
    ensures Reserved(ops, m) >= 0
    decreases |ops|
  {
    if ops != [] {
      var n := |ops| - 1;
      assert forall i :: 0 <= i < n ==> ops[..n][i] == ops[i];
      ReservedNonnegative(ops[..n], m);
    }
  }

  lemma {:induction false} ReservedIdle(ops: seq<Op>, m: nat)
    requires forall i :: 0 <= i < |ops| ==> !ops[i].active
    ensures Reserved(ops, m) == 0
    decreases |ops|
  {
    if ops != [] {
      var n := |ops| - 1;
      assert forall i :: 0 <= i < n ==> ops[..n][i] == ops[i];
      ReservedIdle(ops[..n], m);
    }
  }

  ghost predicate Fits(c: Config, s: State) {
    |s.lh| + Reserved(s.ops, c.maxOp) <= c.g.logSize
  }

  lemma FitsStep(c: Config, d0: Disk, s: State, t: State, e: Step)
    requires Inv(c, d0, s) && NextStep(c, s, t, e) && Inv(c, d0, t)
    requires InBudget(c, t) && Fits(c, s)
    ensures Fits(c, t)
  {
    hide Inv, NextStep, Reserved, Count;
    UsedGrows(c, s, t, e);
    match e
    case SBeginOp => FitsBegin(c, d0, s, t);
    case SLogWrite(p, o, b, data) => FitsLogWrite(c, s, t, p, o, b, data);
    case SEndOp(o) => FitsEnd(c, s, t, o);
    case SCrash => FitsCrash(c, s, t);
    case SReadHead(p) => FitsReadHead(c, d0, t);
    case SEraseHead(p) => assert EraseHead(c, s, t, p) by { StepIs(c, s, t, e); }
    case _ => FitsOther(c, s, t, e);
  }

  lemma StepIs(c: Config, s: State, t: State, e: Step)
    requires NextStep(c, s, t, e)
    ensures e.SEraseHead? ==> EraseHead(c, s, t, e.p)
    ensures e.SReadHead? ==> ReadHead(c, s, t, e.p)
  {
  }

  lemma UsedGrows(c: Config, s: State, t: State, e: Step)
    requires NextStep(c, s, t, e) && InBudget(c, t)
    ensures InBudget(c, s)
    ensures e.SBeginOp? ==> BeginOp(c, s, t)
    ensures e.SLogWrite? ==> LogWrite(c, s, t, e.p, e.o, e.b, e.data)
    ensures e.SEndOp? ==> EndOp(s, t, e.o)
    ensures e.SCrash? ==> Crash(s, t)
    ensures e.SReadHead? ==> ReadHead(c, s, t, e.p)
  {
    assert |s.ops| <= |t.ops|;
    forall o | 0 <= o < |s.ops| ensures s.ops[o].used <= c.maxOp {
      assert s.ops[o].used <= t.ops[o].used;
    }
  }

  lemma FitsOther(c: Config, s: State, t: State, e: Step)
    requires NextStep(c, s, t, e) && Fits(c, s)
    requires !e.SBeginOp? && !e.SLogWrite? && !e.SEndOp? && !e.SCrash? && !e.SReadHead? && !e.SEraseHead?
    ensures Fits(c, t)
  {
    assert t.lh == s.lh && t.ops == s.ops;
  }

  lemma FitsBegin(c: Config, d0: Disk, s: State, t: State)
    requires BeginOp(c, s, t) && Inv(c, d0, s)
    ensures Fits(c, t)
  {
    hide DiskInv, CacheInv, Hist;
    assert t.ops[..|s.ops|] == s.ops;
    ReservedAtMost(s.ops, c.maxOp);
    assert (s.outstanding + 1) * c.maxOp == s.outstanding * c.maxOp + c.maxOp;
  }

  lemma FitsLogWrite(c: Config, s: State, t: State, p: nat, o: nat, b: int, data: Block)
    requires LogWrite(c, s, t, p, o, b, data) && Fits(c, s)
    ensures Fits(c, t)
  {
    if b !in s.lh { ReservedSet(s.ops, c.maxOp, o, t.ops[o]); }
  }

  lemma FitsEnd(c: Config, s: State, t: State, o: nat)
    requires EndOp(s, t, o) && Fits(c, s) && s.ops[o].used <= c.maxOp
    ensures Fits(c, t)
  {
    ReservedSet(s.ops, c.maxOp, o, t.ops[o]);
  }

  lemma FitsCrash(c: Config, s: State, t: State)
    requires Crash(s, t)
    ensures Fits(c, t)
  {
    ReservedIdle(t.ops, c.maxOp);
  }

  lemma FitsReadHead(c: Config, d0: Disk, t: State)
    requires Inv(c, d0, t) && !t.phase.Running?
    ensures Fits(c, t)
  {
    hide CacheInv, Hist;
    CountZero(t.ops);
    ReservedIdle(t.ops, c.maxOp);
  }

  /** lh.n plus the unused budgets never exceeds LOGSIZE, in any interleaving. */
  lemma {:induction false} SpaceReserved(c: Config, tr: seq<State>, es: seq<Step>, i: nat)
    requires IsRun(c, tr, es) && i < |tr| && InBudget(c, tr[i])
    ensures |tr[i].lh| + Reserved(tr[i].ops, c.maxOp) <= c.g.logSize
    decreases i
  {
    hide NextStep, Init, Inv;
    RunInv(c, tr, es, i);
    if i == 0 {
      InitFits(c, tr[0]);
    } else {
      RunInv(c, tr, es, i - 1);
      UsedGrows(c, tr[i - 1], tr[i], es[i - 1]);
      SpaceReserved(c, tr, es, i - 1);
      FitsStep(c, Recovered(c.g, tr[0].disk), tr[i - 1], tr[i], es[i - 1]);
    }
  }

  lemma InitFits(c: Config, s: State)
    requires Init(c, s)
    ensures Fits(c, s)
  {
  }

  /** end_op()'s panic cannot happen: no commit runs while an operation is under way. */
  lemma NoCommitDuringOps(c: Config, tr: seq<State>, es: seq<Step>, i: nat, o: nat)
    requires IsRun(c, tr, es) && i < |tr| && o < |tr[i].ops| && tr[i].ops[o].active
    ensures tr[i].phase.Running? && !tr[i].committing && tr[i].outstanding > 0
  {
    RunInv(c, tr, es, i);
    CountZero(tr[i].ops);
  }

  /** An operation with budget left finds room in lh.block; log_write() tests log.size as well. */
  lemma BudgetLeavesRoom(c: Config, tr: seq<State>, es: seq<Step>, i: nat, o: nat)
    requires IsRun(c, tr, es) && i < |tr| && InBudget(c, tr[i])
    requires o < |tr[i].ops| && tr[i].ops[o].active && tr[i].ops[o].used < c.maxOp
    ensures |tr[i].lh| < c.g.logSize
    ensures GuardPasses(c, tr[i]) <==> |tr[i].lh| < c.g.size - 1
    ensures c.g.size > c.g.logSize ==> GuardPasses(c, tr[i])
  {
    SpaceReserved(c, tr, es, i);
    ReservedOne(tr[i].ops, c.maxOp, o);
  }

  // ---------- when the guard of log_write() is never in the way ----------

  ghost predicate Reaches(c: Config, s: State) {
    exists tr, es :: IsRun(c, tr, es) && tr[|es|] == s
  }

  lemma ReachNext(c: Config, s: State, t: State, e: Step)
    requires Reaches(c, s) && NextStep(c, s, t, e)
    ensures Reaches(c, t)
  {
    hide NextStep, Init;
    var tr, es :| IsRun(c, tr, es) && tr[|es|] == s;
    var tr', es' := tr + [t], es + [e];
    forall i | 0 <= i < |es'| ensures NextStep(c, tr'[i], tr'[i + 1], es'[i]) {
      if i < |es| { assert NextStep(c, tr[i], tr[i + 1], es[i]); }
    }
    assert IsRun(c, tr', es') && tr'[|es'|] == t;
  }

  /** A reachable state in which an operation within its budget would make log_write() panic. */
  ghost predicate Stuck(c: Config, s: State, o: nat) {
    && Reaches(c, s) && InBudget(c, s)
    && o < |s.ops| && s.ops[o].active && s.ops[o].used < c.maxOp
    && !GuardPasses(c, s)
  }

  /** A system that boots from the zeroed log mkfs writes and has not cached any home block. */
  ghost predicate Filling(c: Config, s: State, j: nat) {
    && Reaches(c, s) && s.phase == Running && InBudget(c, s) && |s.lh| == j && !s.committing
    && |s.disk| == c.g.start + 2 * c.g.size && ValidDisk(c.g, s.disk)
    && |s.cache| <= j + 1
    && (forall b :: b in s.cache ==> b < c.g.start + c.g.size + j)
    && (forall i :: 0 <= i < j ==> s.lh[i] < c.g.start + c.g.size + j)
  }

  lemma ReadNew(c: Config, s: State, b: int) returns (t: State)
    requires Reaches(c, s) && b !in s.cache && 0 <= b < |s.disk| && |s.cache| < c.nbuf
    ensures Reaches(c, t)
    ensures t == s.(cache := s.cache[b := Buf(true, s.disk[b], 1, {0}, Some(0))])
  {
    hide Reaches;
    var s1 := s.(cache := s.cache[b := Buf(false, [], 1, {0}, None)]);
    ReachNext(c, s, s1, SBGet(0, b));
    var s2 := s1.(cache := s1.cache[b := s1.cache[b].(locker := Some(0))]);
    ReachNext(c, s1, s2, SLock(0, b));
    t := s2.(cache := s2.cache[b := s2.cache[b].(valid := true, data := s.disk[b])]);
    ReachNext(c, s2, t, SFill(0, b));
    assert t.cache == s.cache[b := Buf(true, s.disk[b], 1, {0}, Some(0))];
  }

  lemma Zeroed(c: Config, z: Block) returns (s: State)
    requires GoodGeometry(c.g) && z == seq(c.g.words, _ => 0)
    ensures s == State(seq(c.g.start + 2 * c.g.size, _ => z), map[], [], 0, false, Booting, [], [], [])
    ensures Reaches(c, s)
  {
    s := State(seq(c.g.start + 2 * c.g.size, _ => z), map[], [], 0, false, Booting, [], [], []);
    assert HeaderOf(s.disk[c.g.start]) == [];
    var none: seq<Step> := [];
    assert IsRun(c, [s], none) && [s][|none|] == s;
  }

  lemma BootEmpty(c: Config) returns (s: State)
    requires GoodGeometry(c.g) && c.nbuf >= 1
    ensures Filling(c, s, 0) && s.ops == [] && s.outstanding == 0
  {
    hide Reaches, Init;
    var z: Block := seq(c.g.words, _ => 0);
    var b := c.g.start;
    var s0 := Zeroed(c, z);
    var s3 := ReadNew(c, s0, b);
    var s4 := s3.(lh := HeaderOf(z), phase := RecInstall(0));
    ReachNext(c, s3, s4, SReadHead(0));
    var x := Stamp(z, []);
    s := s4.(cache := s4.cache[b := s4.cache[b].(data := x)], disk := s4.disk[b := x], lh := [], phase := Running);
    ReachNext(c, s4, s, SEraseHead(0));
  }

  lemma {:induction false} BeginMany(c: Config, s: State, k: nat) returns (t: State)
    requires Filling(c, s, 0) && s.ops == [] && s.outstanding == 0 && k * c.maxOp <= c.g.logSize
    ensures Filling(c, t, 0) && t.outstanding == k && Reserved(t.ops, c.maxOp) == k * c.maxOp
    decreases k
  {
    if k == 0 {
      t := s;
    } else {
      assert (k - 1) * c.maxOp + c.maxOp == k * c.maxOp;
      var u := BeginMany(c, s, k - 1);
      t := u.(outstanding := u.outstanding + 1, ops := u.ops + [Op(true, 0)]);
      assert t.ops[..|u.ops|] == u.ops;
      ReachNext(c, u, t, SBeginOp);
    }
  }

  lemma {:induction false} SomeBudgetLeft(ops: seq<Op>, m: nat) returns (o: nat)
    requires Reserved(ops, m) > 0 && forall i :: 0 <= i < |ops| ==> ops[i].used <= m
    ensures o < |ops| && ops[o].active && ops[o].used < m
    decreases |ops|
  {
    var n := |ops| - 1;
    if ops[n].active && ops[n].used < m {
      o := n;
    } else {
      assert forall i :: 0 <= i < n ==> ops[..n][i] == ops[i];
      o := SomeBudgetLeft(ops[..n], m);
    }
  }

  /** One more block: get, lock and fill its buffer, then log it. */
  lemma WriteOneMore(c: Config, s: State, j: nat) returns (t: State)
    requires Filling(c, s, j) && j + 1 < c.g.size <= c.g.logSize && c.nbuf >= c.g.size
    requires s.outstanding > 0 && Reserved(s.ops, c.maxOp) == c.g.logSize - j
    ensures Filling(c, t, j + 1) && t.outstanding > 0 && Reserved(t.ops, c.maxOp) == c.g.logSize - (j + 1)
  {
    hide Reaches;
    var b := c.g.start + c.g.size + j;
    var o := SomeBudgetLeft(s.ops, c.maxOp);
    assert b !in s.cache && b !in s.lh;
    var s3 := ReadNew(c, s, b);
    t := s3.(current := s3.current + [Update(o, b, s.disk[b])], lh := s3.lh + [b],
             cache := s3.cache[b := s3.cache[b].(refcnt := 2)],
             ops := s3.ops[o := s3.ops[o].(used := s3.ops[o].used + 1)]);
    ReachNext(c, s3, t, SLogWrite(0, o, b, s.disk[b]));
    ReservedSet(s.ops, c.maxOp, o, t.ops[o]);
    assert t.cache.Keys == s.cache.Keys + {b};
  }

  lemma {:induction false} WriteMany(c: Config, s: State, j: nat) returns (t: State)
    requires Filling(c, s, 0) && j < c.g.size <= c.g.logSize && c.nbuf >= c.g.size
    requires s.outstanding > 0 && Reserved(s.ops, c.maxOp) == c.g.logSize
    ensures Filling(c, t, j) && Reserved(t.ops, c.maxOp) == c.g.logSize - j && t.outstanding > 0
    decreases j
  {
    if j == 0 {
      t := s;
    } else {
      var u := WriteMany(c, s, j - 1);
      t := WriteOneMore(c, u, j - 1);
    }
  }

  /**
   When exactly "too big a transaction" cannot hit an operation within its budget:
   the log area must be larger than LOGSIZE.  (LOGSIZE is a multiple of MAXOPBLOCKS;
   mkfs makes the area exactly LOGSIZE blocks, header included, so it can be hit.)
   */
  lemma GuardNeverHitIffLogIsLarger(c: Config, k: nat)
    requires GoodGeometry(c.g) && c.maxOp > 0 && k > 0 && c.g.logSize == k * c.maxOp && c.nbuf >= c.g.size
    ensures (forall s, o: nat :: !Stuck(c, s, o)) <==> c.g.size > c.g.logSize
  {
    if c.g.size > c.g.logSize {
      forall s, o: nat ensures !Stuck(c, s, o) {
        if Reaches(c, s) && InBudget(c, s) && o < |s.ops| && s.ops[o].active && s.ops[o].used < c.maxOp {
          var tr, es :| IsRun(c, tr, es) && tr[|es|] == s;
          BudgetLeavesRoom(c, tr, es, |es|, o);
        }
      }
    } else {
      var s0 := BootEmpty(c);
      var s1 := BeginMany(c, s0, k);
      var s2 := WriteMany(c, s1, c.g.size - 1);
      var o := SomeBudgetLeft(s2.ops, c.maxOp);
      assert Stuck(c, s2, o);
    }
  }
}
