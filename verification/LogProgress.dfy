/**
 What the log has done when it is at rest, and that it gets there: the last end_op()
 commits, and commit() and recovery go on as long as they get their buffers.
 */
module LogProgress {
  import opened Common
  import opened LogFormat
  import opened LogProtocol

  // ---------- at rest, everything is committed ----------

  /** No operation is under way, and no commit. */
  predicate AtRest(s: State) { s.phase.Running? && s.outstanding == 0 }

  predicate RestInv(s: State) { AtRest(s) ==> s.current == [] && s.lh == [] }

  lemma RestStep(c: Config, d0: Disk, s: State, t: State, e: Step)
    requires Inv(c, d0, s) && RestInv(s) && NextStep(c, s, t, e)
    ensures RestInv(t)
  {
    hide CacheInv, Hist, Apply, ApplyGroups, Count, RecoversTo;
  }

  lemma {:induction false} RestIsEmpty(c: Config, tr: seq<State>, es: seq<Step>, i: nat)
    requires IsRun(c, tr, es) && i < |tr|
    ensures RestInv(tr[i])
  {
    hide Inv, NextStep, RestInv;
    if i == 0 {
      StartsEmpty(c, tr[0]);
    } else {
      RestIsEmpty(c, tr, es, i - 1);
      RunInv(c, tr, es, i - 1);
      RestStep(c, Recovered(c.g, tr[0].disk), tr[i - 1], tr[i], es[i - 1]);
    }
  }

  lemma StartsEmpty(c: Config, s: State)
    requires Init(c, s)
    ensures RestInv(s)
  {
  }

  predicate IsCommitted(s: State, u: Update) {
    exists k :: 0 <= k < |s.groups| && u in s.groups[k]
  }

  lemma Stays(c: Config, s: State, t: State, e: Step, u: Update)
    requires NextStep(c, s, t, e) && !e.SCrash? && (u in s.current || IsCommitted(s, u))
    ensures u in t.current || IsCommitted(t, u)
  {
    GroupsGrow(c, s, t, e);
    if IsCommitted(s, u) {
      var k :| 0 <= k < |s.groups| && u in s.groups[k];
      assert t.groups[k] == s.groups[k];
    } else if e.SCommitHead? {
      assert t.groups[|s.groups|] == s.current;
    }
  }

  /** What a log_write() logged is in the current group, or committed, until a crash. */
  lemma {:induction false} LoggedStays(c: Config, tr: seq<State>, es: seq<Step>, j: nat, i: nat)
    requires IsRun(c, tr, es) && j < i < |tr| && es[j].SLogWrite?
    requires forall k :: j <= k < i ==> !es[k].SCrash?
    ensures var u := Update(es[j].o, es[j].b, es[j].data); u in tr[i].current || IsCommitted(tr[i], u)
    decreases i
  {
    hide Init, NextStep;
    if i == j + 1 {
      WriteLogs(c, tr[j], tr[i], es[j]);
    } else {
      LoggedStays(c, tr, es, j, i - 1);
      Stays(c, tr[i - 1], tr[i], es[i - 1], Update(es[j].o, es[j].b, es[j].data));
    }
  }

  lemma WriteLogs(c: Config, s: State, t: State, e: Step)
    requires NextStep(c, s, t, e) && e.SLogWrite?
    ensures Update(e.o, e.b, e.data) in t.current
  {
  }

  /**
   Whenever no operation is under way and no commit, every update that was logged since the last
   crash is in a committed group: so the operations that have ended are there in full.
   */
  lemma EndedIsCommitted(c: Config, tr: seq<State>, es: seq<Step>, j: nat, i: nat)
    requires IsRun(c, tr, es) && j < i < |tr| && es[j].SLogWrite? && AtRest(tr[i])
    requires forall k :: j <= k < i ==> !es[k].SCrash?
    ensures tr[i].current == [] && tr[i].lh == [] && IsCommitted(tr[i], Update(es[j].o, es[j].b, es[j].data))
  {
    hide IsRun;
    LoggedStays(c, tr, es, j, i);
    RestIsEmpty(c, tr, es, i);
  }

  // ---------- ... and it comes to rest ----------

  /** The buffers that the next step of commit() or of recovery works on are p's. */
  predicate HasBuffers(c: Config, s: State, p: nat) {
    match s.phase
    case CopyLog(i) => if i < |s.lh| then HeldBy(s, LogBlock(c.g, i), p) && HeldBy(s, s.lh[i], p)
        else HeldBy(s, c.g.start, p)
    case InstallHome(i) => if i < |s.lh| then HeldBy(s, LogBlock(c.g, i), p) && HeldBy(s, s.lh[i], p)
        else HeldBy(s, c.g.start, p)
    case RecInstall(i) => if i < |s.lh| then HeldBy(s, LogBlock(c.g, i), p) && HeldBy(s, s.lh[i], p)
        else HeldBy(s, c.g.start, p)
    case Booting => HeldBy(s, c.g.start, p)
    case _ => true
  }

  /** The steps of a commit or a recovery that are left, for headers of at most n blocks. */
  function Left(s: State, n: nat): int {
    match s.phase
    case Running => 0
    case Committed => 1
    case InstallHome(i) => 2 + n - i
    case CopyLog(i) => 3 + 2 * n - i
    case CommitStart => 4 + 2 * n
    case RecInstall(i) => 1 + n - i
    case Booting => 2 + n
  }

  /** A step of s that leaves less to do. */
  ghost predicate Nearer(c: Config, s: State, t: State, e: Step) {
    NextStep(c, s, t, e) && !e.SCrash? && Left(t, c.g.logSize) < Left(s, c.g.logSize)
  }

  lemma StartGoes(c: Config, s: State) returns (t: State, e: Step)
    requires s.phase == CommitStart || s.phase == Committed
    ensures Nearer(c, s, t, e)
  {
    if s.phase == CommitStart {
      t, e := s.(phase := if |s.lh| > 0 then CopyLog(0) else Committed), SStartCommit;
    } else {
      t, e := s.(phase := Running, committing := false), SFinishCommit;
    }
  }

  lemma CopyGoes(c: Config, d0: Disk, s: State, p: nat) returns (t: State, e: Step)
    requires DiskInv(c, d0, s) && CacheInv(c, d0, s) && s.phase.CopyLog? && HasBuffers(c, s, p)
    ensures Nearer(c, s, t, e)
  {
    hide Apply, ApplyGroups, RecoversTo;
    var i := s.phase.i;
    if i < |s.lh| {
      var lb: int, x := LogBlock(c.g, i), s.cache[s.lh[i]].data;
      t, e := s.(cache := s.cache[lb := s.cache[lb].(data := x)], disk := s.disk[lb := x], phase := CopyLog(i + 1)),
          SCopyOne(p, i);
    } else {
      assert BufOk(c, s, View(d0, s), c.g.start);
      var x := Stamp(s.cache[c.g.start].data, s.lh);
      t, e := s.(cache := s.cache[c.g.start := s.cache[c.g.start].(data := x)], disk := s.disk[c.g.start := x],
                 phase := InstallHome(0), groups := s.groups + [s.current], current := []), SCommitHead(p);
    }
  }

  lemma InstallGoes(c: Config, d0: Disk, s: State, p: nat) returns (t: State, e: Step)
    requires DiskInv(c, d0, s) && CacheInv(c, d0, s) && (s.phase.InstallHome? || s.phase.RecInstall?)
        && HasBuffers(c, s, p)
    ensures Nearer(c, s, t, e)
  {
    hide Apply, ApplyGroups, RecoversTo;
    var i := s.phase.i;
    if i < |s.lh| {
      var b, x := s.lh[i], s.cache[LogBlock(c.g, i)].data;
      assert BufOk(c, s, View(d0, s), b);
      if s.phase.InstallHome? {
        assert b in s.lh[i..] by { assert s.lh[i..][0] == b; }
        t, e := s.(cache := s.cache[b := s.cache[b].(data := x, refcnt := s.cache[b].refcnt - 1)],
                   disk := s.disk[b := x], phase := InstallHome(i + 1)), SInstallOne(p, i);
      } else {
        t, e := s.(cache := s.cache[b := s.cache[b].(data := x)], disk := s.disk[b := x], phase := RecInstall(i + 1)),
                SRecInstallOne(p, i);
      }
    } else {
      assert BufOk(c, s, View(d0, s), c.g.start);
      var x := Stamp(s.cache[c.g.start].data, []);
      t, e := s.(cache := s.cache[c.g.start := s.cache[c.g.start].(data := x)], disk := s.disk[c.g.start := x],
                 lh := [], phase := if s.phase.InstallHome? then Committed else Running), SEraseHead(p);
    }
  }

  lemma BootGoes(c: Config, d0: Disk, s: State, p: nat) returns (t: State, e: Step)
    requires DiskInv(c, d0, s) && CacheInv(c, d0, s) && s.phase == Booting && HasBuffers(c, s, p)
    ensures Nearer(c, s, t, e)
  {
    hide Apply, ApplyGroups;
    assert BufOk(c, s, View(d0, s), c.g.start);
    t, e := s.(lh := HeaderOf(s.cache[c.g.start].data), phase := RecInstall(0)), SReadHead(p);
  }

  /** A commit or a recovery that has its buffers takes a step, and there are at most 2 * LOGSIZE + 4 of them. */
  lemma GoesOn(c: Config, tr: seq<State>, es: seq<Step>, i: nat, p: nat) returns (t: State, e: Step)
    requires IsRun(c, tr, es) && i < |tr| && !tr[i].phase.Running? && HasBuffers(c, tr[i], p)
    ensures 0 < Left(tr[i], c.g.logSize) <= 2 * c.g.logSize + 4
    ensures Nearer(c, tr[i], t, e)
  {
    hide IsRun, HasBuffers, Nearer, CacheInv, OpsInv, Hist;
    RunInv(c, tr, es, i);
    var s, d0 := tr[i], Recovered(c.g, tr[0].disk);
    match s.phase {
      case CommitStart => t, e := StartGoes(c, s);
      case Committed => t, e := StartGoes(c, s);
      case CopyLog(_) => t, e := CopyGoes(c, d0, s, p);
      case InstallHome(_) => t, e := InstallGoes(c, d0, s, p);
      case RecInstall(_) => t, e := InstallGoes(c, d0, s, p);
      case Booting => t, e := BootGoes(c, d0, s, p);
    }
  }

  /** At rest, begin_op() is always admitted, if the log is large enough for one operation at all. */
  lemma RestAdmits(c: Config, tr: seq<State>, es: seq<Step>, i: nat) returns (t: State)
    requires IsRun(c, tr, es) && i < |tr| && AtRest(tr[i]) && c.maxOp <= c.g.logSize
    ensures NextStep(c, tr[i], t, SBeginOp)
  {
    hide IsRun;
    RunInv(c, tr, es, i);
    RestIsEmpty(c, tr, es, i);
    t := tr[i].(outstanding := tr[i].outstanding + 1, ops := tr[i].ops + [Op(true, 0)]);
  }

  /** An operation under way can end, and log what it has changed unless the guard of log_write() is in its way. */
  lemma OpGoes(c: Config, tr: seq<State>, es: seq<Step>, i: nat, o: nat) returns (t: State)
    requires IsRun(c, tr, es) && i < |tr| && o < |tr[i].ops| && tr[i].ops[o].active
    ensures NextStep(c, tr[i], t, SEndOp(o))
    ensures forall p, b, data ::
              HeldBy(tr[i], b, p) && IsHome(c.g, tr[i].disk, b) && |data| == c.g.words && GuardPasses(c, tr[i]) ==>
              exists u :: NextStep(c, tr[i], u, SLogWrite(p, o, b, data))
  {
    hide IsRun, DiskInv, CacheInv, Hist;
    RunInv(c, tr, es, i);
    var s := tr[i];
    CountZero(s.ops);
    t := s.(outstanding := s.outstanding - 1, ops := s.ops[o := s.ops[o].(active := false)],
            committing := s.outstanding == 1, phase := if s.outstanding == 1 then CommitStart else s.phase);
    forall p, b, data |
      HeldBy(s, b, p) && IsHome(c.g, s.disk, b) && |data| == c.g.words && GuardPasses(c, s)
      ensures exists u :: NextStep(c, s, u, SLogWrite(p, o, b, data))
    {
      var buf := s.cache[b];
      var u := s.(current := s.current + [Update(o, b, data)], lh := if b in s.lh then s.lh else s.lh + [b],
                  cache := s.cache[b := if b in s.lh then buf.(data := data)
                                        else buf.(data := data, refcnt := buf.refcnt + 1)],
                  ops := if b in s.lh then s.ops else s.ops[o := s.ops[o].(used := s.ops[o].used + 1)]);
      assert NextStep(c, s, u, SLogWrite(p, o, b, data));
    }
  }

  // ---------- buffers can be had ----------

  /** Nobody has b locked, p is not waiting for it, and it is in the cache or there is a slot for it. */
  ghost predicate Available(c: Config, s: State, p: nat, b: int) {
    && 0 <= b < |s.disk|
    && (b in s.cache ==> s.cache[b].locker == None && p !in s.cache[b].users)
    && (b !in s.cache ==> |s.cache| < c.nbuf || exists x :: x in s.cache && s.cache[x].refcnt == 0)
  }

  lemma MoreRun(c: Config, tr: seq<State>, es: seq<Step>, t: State, e: Step)
    requires IsRun(c, tr, es) && NextStep(c, tr[|es|], t, e)
    ensures IsRun(c, tr + [t], es + [e])
  {
    hide NextStep, Init;
    var us, fs := tr + [t], es + [e];
    forall i | 0 <= i < |fs| ensures NextStep(c, us[i], us[i + 1], fs[i]) {
      if i < |es| { assert us[i] == tr[i] && us[i + 1] == tr[i + 1] && fs[i] == es[i]; }
    }
  }

  /** bget() makes room for b if there is none. */
  lemma EvictGoes(c: Config, s: State, p: nat, b: int) returns (t: State, e: Step)
    requires Available(c, s, p, b) && b !in s.cache && |s.cache| == c.nbuf
    ensures NextStep(c, s, t, e) && Available(c, t, p, b) && t == s.(cache := t.cache)
    ensures b !in t.cache && |t.cache| < c.nbuf
  {
    var x :| x in s.cache && s.cache[x].refcnt == 0;
    Shorter(s.cache, x);
    t, e := s.(cache := s.cache - {x}), SEvict(x);
  }

  lemma GetGoes(c: Config, s: State, p: nat, b: int) returns (t: State, e: Step)
    requires Available(c, s, p, b) && (b in s.cache || |s.cache| < c.nbuf)
    ensures NextStep(c, s, t, e) && t == s.(cache := t.cache)
    ensures b in t.cache && p in t.cache[b].users && t.cache[b].locker == None
  {
    t := s.(cache := s.cache[b :=
      if b in s.cache then s.cache[b].(users := s.cache[b].users + {p}, refcnt := s.cache[b].refcnt + 1)
      else Buf(false, [], 1, {p}, None)]);
    e := SBGet(p, b);
  }

  lemma LockGoes(c: Config, s: State, p: nat, b: int) returns (t: State, e: Step)
    requires b in s.cache && p in s.cache[b].users && s.cache[b].locker == None
    ensures NextStep(c, s, t, e) && t == s.(cache := t.cache) && b in t.cache && t.cache[b].locker == Some(p)
  {
    t, e := s.(cache := s.cache[b := s.cache[b].(locker := Some(p))]), SLock(p, b);
  }

  lemma FillGoes(c: Config, s: State, p: nat, b: int) returns (t: State, e: Step)
    requires 0 <= b < |s.disk| && b in s.cache && s.cache[b].locker == Some(p) && !s.cache[b].valid
    ensures NextStep(c, s, t, e) && t == s.(cache := t.cache) && HeldBy(t, b, p)
  {
    t, e := s.(cache := s.cache[b := s.cache[b].(valid := true, data := s.disk[b])]), SFill(p, b);
  }

  /** A buffer that is available is recycled for, looked up, locked and filled: at most four steps, all in the cache. */
  lemma GetsBuffer(c: Config, tr: seq<State>, es: seq<Step>, p: nat, b: int) returns (us: seq<State>, fs: seq<Step>)
    requires IsRun(c, tr, es) && |tr| == |es| + 1 && Available(c, tr[|es|], p, b)
    ensures IsRun(c, us, fs) && |us| == |fs| + 1 && tr <= us && es <= fs && |fs| <= |es| + 4
    ensures HeldBy(us[|fs|], b, p) && us[|fs|] == tr[|es|].(cache := us[|fs|].cache)
  {
    hide IsRun, NextStep, HeldBy;
    CacheFits(c, tr, es);
    us, fs := tr, es;
    var s, t, e := tr[|es|], tr[|es|], SFinishCommit;
    if b !in s.cache && |s.cache| == c.nbuf {
      t, e := EvictGoes(c, s, p, b);
      MoreRun(c, us, fs, t, e);
      us, fs := us + [t], fs + [e];
    }
    s := t;
    t, e := GetGoes(c, s, p, b);
    MoreRun(c, us, fs, t, e);
    us, fs, s := us + [t], fs + [e], t;
    t, e := LockGoes(c, s, p, b);
    MoreRun(c, us, fs, t, e);
    us, fs, s := us + [t], fs + [e], t;
    if !s.cache[b].valid {
      t, e := FillGoes(c, s, p, b);
      MoreRun(c, us, fs, t, e);
      us, fs, s := us + [t], fs + [e], t;
    }
    assert HeldBy(s, b, p) by { HeldIf(s, b, p); }
  }

  lemma HeldIf(s: State, b: int, p: nat)
    ensures b in s.cache && s.cache[b].valid && s.cache[b].locker == Some(p) ==> HeldBy(s, b, p)
  {
  }

  lemma CacheFits(c: Config, tr: seq<State>, es: seq<Step>)
    requires IsRun(c, tr, es) && |tr| == |es| + 1
    ensures |tr[|es|].cache| <= c.nbuf
  {
    hide IsRun, DiskInv, OpsInv, Hist, BufOk;
    RunInv(c, tr, es, |es|);
  }

  lemma Shorter(cache: map<int, Buf>, x: int)
    requires x in cache
    ensures |cache - {x}| == |cache| - 1
  {
    assert (cache - {x}).Keys == cache.Keys - {x};
  }

  /** Whoever holds a buffer can release it. */
  lemma HolderReleases(c: Config, tr: seq<State>, es: seq<Step>, i: nat, p: nat, b: int) returns (t: State)
    requires IsRun(c, tr, es) && i < |tr| && HeldBy(tr[i], b, p)
    ensures NextStep(c, tr[i], t, SBRelse(p, b))
  {
    hide IsRun, DiskInv, OpsInv, Hist, Apply, ApplyGroups;
    RunInv(c, tr, es, i);
    var s, buf := tr[i], tr[i].cache[b];
    assert BufOk(c, s, View(Recovered(c.g, tr[0].disk), s), b);
    t := s.(cache := s.cache[b := buf.(locker := None, users := buf.users - {p}, refcnt := buf.refcnt - 1)]);
  }
}
