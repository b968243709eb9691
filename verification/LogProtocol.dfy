/**
 The log as concurrent processes and crashes see it: a state machine whose steps
 are the critical sections of log.c and bio.c and the single disk writes of
 commit() and recover_from_log().  Any process may take a step at any time, and
 the machine may crash between any two steps, recovery included.

 groups and current are history: the log_write()s of the committed groups, and
 of the group being collected.  No step reads them.
 */
module LogProtocol {
  import opened Common
  import opened LogFormat

  /** A cached block: users are the processes holding a reference, locker the sleep-lock owner. */
  datatype Buf = Buf(valid: bool, data: Block, refcnt: nat, users: set<nat>, locker: Option<nat>)

  /** An operation between begin_op() and end_op(); used counts the blocks it added to the log. */
  datatype Op = Op(active: bool, used: nat)

  datatype Update = Update(op: nat, blk: int, data: Block)

  datatype Phase =
    | Running
    | CommitStart | CopyLog(i: nat) | InstallHome(i: nat) | Committed
    | Booting | RecInstall(i: nat)

  datatype Config = Config(g: Geometry, maxOp: nat, nbuf: nat)

  datatype State = State(
    disk: Disk, cache: map<int, Buf>,
    lh: seq<int>, outstanding: nat, committing: bool, phase: Phase,
    ops: seq<Op>, groups: seq<seq<Update>>, current: seq<Update>)

  // ---------- what the updates mean ----------

  function Apply(d: Disk, us: seq<Update>): (r: Disk)
    ensures |r| == |d|
    decreases |us|
  {
    if us == [] then d else
      var u := us[|us| - 1];
      var r := Apply(d, us[..|us| - 1]);
      if 0 <= u.blk < |r| then r[u.blk := u.data] else r
  }

  function ApplyGroups(d: Disk, gs: seq<seq<Update>>): (r: Disk)
    ensures |r| == |d|
    decreases |gs|
  {
    if gs == [] then d else Apply(ApplyGroups(d, gs[..|gs| - 1]), gs[|gs| - 1])
  }

  /** The disk after the committed groups. */
  function Base(d0: Disk, s: State): Disk { ApplyGroups(d0, s.groups) }

  /** What processes must read: the committed groups and the current one. */
  function View(d0: Disk, s: State): Disk { Apply(Base(d0, s), s.current) }

  // ---------- steps of the buffer cache ----------

  predicate HeldBy(s: State, b: int, p: nat) {
    b in s.cache && s.cache[b].valid && s.cache[b].locker == Some(p)
  }

  /** bget() up to acquiresleep(); recycling a slot is Evict followed by this. */
  ghost predicate BGet(c: Config, s: State, t: State, p: nat, b: int) {
    && 0 <= b < |s.disk|
    && (b in s.cache ==> p !in s.cache[b].users)
    && (b !in s.cache ==> |s.cache| < c.nbuf)
    && t == s.(cache := s.cache[b :=
                 if b in s.cache then s.cache[b].(users := s.cache[b].users + {p}, refcnt := s.cache[b].refcnt + 1)
                 else Buf(false, [], 1, {p}, None)])
  }

  ghost predicate Lock(s: State, t: State, p: nat, b: int) {
    && b in s.cache && p in s.cache[b].users && s.cache[b].locker == None
    && t == s.(cache := s.cache[b := s.cache[b].(locker := Some(p))])
  }

  /** bread() of a buffer that is not valid yet. */
  ghost predicate Fill(s: State, t: State, p: nat, b: int) {
    && b in s.cache && s.cache[b].locker == Some(p) && !s.cache[b].valid && 0 <= b < |s.disk|
    && t == s.(cache := s.cache[b := s.cache[b].(valid := true, data := s.disk[b])])
  }

  ghost predicate BRelse(s: State, t: State, p: nat, b: int) {
    && b in s.cache && s.cache[b].locker == Some(p) && s.cache[b].refcnt > 0
    && t == s.(cache := s.cache[b := s.cache[b].(locker := None, users := s.cache[b].users - {p},
                                                 refcnt := s.cache[b].refcnt - 1)])
  }

  /** bget() recycles a buffer nobody references. */
  ghost predicate Evict(s: State, t: State, b: int) {
    && b in s.cache && s.cache[b].refcnt == 0
    && t == s.(cache := s.cache - {b})
  }

  // ---------- steps of the log ----------

  predicate Up(s: State) { !s.phase.Booting? && !s.phase.RecInstall? }

  ghost predicate BeginOp(c: Config, s: State, t: State) {
    && Up(s) && !s.committing
    && |s.lh| + (s.outstanding + 1) * c.maxOp <= c.g.logSize
    && t == s.(outstanding := s.outstanding + 1, ops := s.ops + [Op(true, 0)])
  }

  /** log_write() does not panic for lack of log space. */
  predicate GuardPasses(c: Config, s: State) {
    |s.lh| < c.g.logSize && |s.lh| < c.g.size - 1
  }

  /** Operation o, run by the buffer's holder p, changes block b and calls log_write(). */
  ghost predicate LogWrite(c: Config, s: State, t: State, p: nat, o: nat, b: int, data: Block) {
    && Up(s) && HeldBy(s, b, p) && o < |s.ops| && s.ops[o].active
    && IsHome(c.g, s.disk, b) && |data| == c.g.words
    && GuardPasses(c, s) && s.outstanding >= 1
    && var old_ := s.cache[b];
       t == s.(current := s.current + [Update(o, b, data)],
               lh := if b in s.lh then s.lh else s.lh + [b],
               cache := s.cache[b := if b in s.lh then old_.(data := data)
                                     else old_.(data := data, refcnt := old_.refcnt + 1)],
               ops := if b in s.lh then s.ops else s.ops[o := s.ops[o].(used := s.ops[o].used + 1)])
  }

  ghost predicate EndOp(s: State, t: State, o: nat) {
    && o < |s.ops| && s.ops[o].active && s.outstanding > 0 && !s.committing
    && t == s.(outstanding := s.outstanding - 1, ops := s.ops[o := s.ops[o].(active := false)],
               committing := s.outstanding == 1,
               phase := if s.outstanding == 1 then CommitStart else s.phase)
  }

  ghost predicate StartCommit(s: State, t: State) {
    s.phase == CommitStart && t == s.(phase := if |s.lh| > 0 then CopyLog(0) else Committed)
  }

  ghost predicate CopyOne(c: Config, s: State, t: State, p: nat, i: nat) {
    && s.phase == CopyLog(i) && i < |s.lh| && 0 <= LogBlock(c.g, i) < |s.disk|
    && HeldBy(s, LogBlock(c.g, i), p) && HeldBy(s, s.lh[i], p)
    && var lb: int, x := LogBlock(c.g, i), s.cache[s.lh[i]].data;
       t == s.(cache := s.cache[lb := s.cache[lb].(data := x)], disk := s.disk[lb := x], phase := CopyLog(i + 1))
  }

  /** write_head() of a full header: the commit point. */
  ghost predicate CommitHead(c: Config, s: State, t: State, p: nat) {
    && s.phase == CopyLog(|s.lh|) && c.g.start < |s.disk|
    && HeldBy(s, c.g.start, p) && |s.lh| < |s.cache[c.g.start].data|
    && var x := Stamp(s.cache[c.g.start].data, s.lh);
       t == s.(cache := s.cache[c.g.start := s.cache[c.g.start].(data := x)], disk := s.disk[c.g.start := x],
               phase := InstallHome(0), groups := s.groups + [s.current], current := [])
  }

  ghost predicate InstallOne(c: Config, s: State, t: State, p: nat, i: nat) {
    && s.phase == InstallHome(i) && i < |s.lh| && 0 <= s.lh[i] < |s.disk|
    && HeldBy(s, LogBlock(c.g, i), p) && HeldBy(s, s.lh[i], p) && s.cache[s.lh[i]].refcnt > 0
    && var b, x := s.lh[i], s.cache[LogBlock(c.g, i)].data;
       t == s.(cache := s.cache[b := s.cache[b].(data := x, refcnt := s.cache[b].refcnt - 1)],
               disk := s.disk[b := x], phase := InstallHome(i + 1))
  }

  /** log.lh.n = 0 and write_head(): after commit, or at the end of recovery. */
  ghost predicate EraseHead(c: Config, s: State, t: State, p: nat) {
    && (s.phase == InstallHome(|s.lh|) || s.phase == RecInstall(|s.lh|)) && c.g.start < |s.disk|
    && HeldBy(s, c.g.start, p) && 0 < |s.cache[c.g.start].data|
    && var x := Stamp(s.cache[c.g.start].data, []);
       t == s.(cache := s.cache[c.g.start := s.cache[c.g.start].(data := x)], disk := s.disk[c.g.start := x],
               lh := [], phase := if s.phase.InstallHome? then Committed else Running)
  }

  ghost predicate FinishCommit(s: State, t: State) {
    s.phase == Committed && t == s.(phase := Running, committing := false)
  }

  /** A crash keeps nothing but the disk. */
  ghost predicate Crash(s: State, t: State) {
    && |t.ops| == |s.ops| && (forall o :: 0 <= o < |t.ops| ==> t.ops[o] == s.ops[o].(active := false))
    && t == s.(cache := map[], lh := [], outstanding := 0, committing := false, phase := Booting,
               current := [], ops := t.ops)
  }

  ghost predicate ReadHead(c: Config, s: State, t: State, p: nat) {
    && s.phase == Booting && HeldBy(s, c.g.start, p)
    && var x := s.cache[c.g.start].data;
       |x| > 0 && 0 <= x[0] < |x| && t == s.(lh := HeaderOf(x), phase := RecInstall(0))
  }

  ghost predicate RecInstallOne(c: Config, s: State, t: State, p: nat, i: nat) {
    && s.phase == RecInstall(i) && i < |s.lh| && 0 <= s.lh[i] < |s.disk|
    && HeldBy(s, LogBlock(c.g, i), p) && HeldBy(s, s.lh[i], p)
    && var b, x := s.lh[i], s.cache[LogBlock(c.g, i)].data;
       t == s.(cache := s.cache[b := s.cache[b].(data := x)], disk := s.disk[b := x], phase := RecInstall(i + 1))
  }

  datatype Step =
    | SBGet(p: nat, b: int) | SLock(p: nat, b: int) | SFill(p: nat, b: int) | SBRelse(p: nat, b: int) | SEvict(b: int)
    | SBeginOp | SLogWrite(p: nat, o: nat, b: int, data: Block) | SEndOp(o: nat)
    | SStartCommit | SCopyOne(p: nat, i: nat) | SCommitHead(p: nat) | SInstallOne(p: nat, i: nat)
    | SEraseHead(p: nat) | SFinishCommit
    | SCrash | SReadHead(p: nat) | SRecInstallOne(p: nat, i: nat)

  ghost predicate NextStep(c: Config, s: State, t: State, e: Step) {
    match e
    case SBGet(p, b) => BGet(c, s, t, p, b)
    case SLock(p, b) => Lock(s, t, p, b)
    case SFill(p, b) => Fill(s, t, p, b)
    case SBRelse(p, b) => BRelse(s, t, p, b)
    case SEvict(b) => Evict(s, t, b)
    case SBeginOp => BeginOp(c, s, t)
    case SLogWrite(p, o, b, data) => LogWrite(c, s, t, p, o, b, data)
    case SEndOp(o) => EndOp(s, t, o)
    case SStartCommit => StartCommit(s, t)
    case SCopyOne(p, i) => CopyOne(c, s, t, p, i)
    case SCommitHead(p) => CommitHead(c, s, t, p)
    case SInstallOne(p, i) => InstallOne(c, s, t, p, i)
    case SEraseHead(p) => EraseHead(c, s, t, p)
    case SFinishCommit => FinishCommit(s, t)
    case SCrash => Crash(s, t)
    case SReadHead(p) => ReadHead(c, s, t, p)
    case SRecInstallOne(p, i) => RecInstallOne(c, s, t, p, i)
  }

  ghost predicate Init(c: Config, s: State) {
    && GoodGeometry(c.g) && Recoverable(c.g, s.disk)
    && s == State(s.disk, map[], [], 0, false, Booting, [], [], [])
  }

  /** A run: tr[0] is initial and es[i] leads from tr[i] to tr[i + 1]. */
  ghost predicate IsRun(c: Config, tr: seq<State>, es: seq<Step>) {
    && |tr| == |es| + 1 && Init(c, tr[0])
    && forall i :: 0 <= i < |es| ==> NextStep(c, tr[i], tr[i + 1], es[i])
  }

  // ---------- the invariant ----------

  function Count(ops: seq<Op>): nat
    decreases |ops|
  {
    if ops == [] then 0 else Count(ops[..|ops| - 1]) + if ops[|ops| - 1].active then 1 else 0
  }

  /** Blocks whose buffer is pinned by the log. */
  predicate Pinned(s: State, b: int) {
    match s.phase
    case InstallHome(i) => i <= |s.lh| && b in s.lh[i..]
    case Booting => false
    case RecInstall(_) => false
    case _ => b in s.lh
  }

  /** Recovery from disk d would end in the home blocks of base. */
  ghost predicate RecoversTo(g: Geometry, d: Disk, base: Disk) {
    && Recoverable(g, d) && |base| == |d|
    && var h := HeaderOf(d[g.start]);
       && (forall j :: 0 <= j < |h| ==> d[LogBlock(g, j)] == base[h[j]])
       && (forall b :: IsHome(g, d, b) && b !in h ==> d[b] == base[b])
  }

  ghost predicate HeaderEmpty(g: Geometry, d: Disk) {
    HasHeader(g, d) && HeaderOf(d[g.start]) == []
  }

  ghost predicate InstalledUpTo(g: Geometry, s: State, base: Disk, i: nat)
    requires |base| == |s.disk|
  {
    && HasHeader(g, s.disk) && HeaderOf(s.disk[g.start]) == s.lh && i <= |s.lh|
    && GoodHeader(g, s.disk, s.lh)
    && forall j :: 0 <= j < i ==> s.disk[s.lh[j]] == base[s.lh[j]]
  }

  ghost predicate CopiedUpTo(g: Geometry, s: State, view: Disk, i: nat)
    requires |view| == |s.disk|
  {
    && i <= |s.lh| && GoodHeader(g, s.disk, s.lh) && g.start + g.size <= |s.disk|
    && forall j :: 0 <= j < i ==> s.disk[LogBlock(g, j)] == view[s.lh[j]]
  }

  ghost predicate DiskInv(c: Config, d0: Disk, s: State) {
    && GoodGeometry(c.g) && |d0| == |s.disk|
    && RecoversTo(c.g, s.disk, Base(d0, s))
    && GoodHeader(c.g, s.disk, s.lh)
    && (forall b :: IsHome(c.g, s.disk, b) && b !in s.lh ==> View(d0, s)[b] == Base(d0, s)[b])
    && (forall b :: IsHome(c.g, s.disk, b) ==> |View(d0, s)[b]| == c.g.words)
    && (forall k :: 0 <= k < |s.current| ==> s.current[k].blk in s.lh)
    && match s.phase
       case Running => HeaderEmpty(c.g, s.disk)
       case CommitStart => HeaderEmpty(c.g, s.disk)
       case CopyLog(i) => HeaderEmpty(c.g, s.disk) && CopiedUpTo(c.g, s, View(d0, s), i)
       case InstallHome(i) => s.current == [] && InstalledUpTo(c.g, s, Base(d0, s), i)
       case Committed => HeaderEmpty(c.g, s.disk) && s.lh == [] && s.current == []
       case Booting => s.lh == [] && s.current == []
       case RecInstall(i) => s.current == [] && InstalledUpTo(c.g, s, Base(d0, s), i)
  }

  /** One buffer agrees with the disk, or with the view when pinned; its count is its users plus its pin. */
  predicate BufOk(c: Config, s: State, view: Disk, b: int)
    requires b in s.cache && |view| == |s.disk|
  {
    var buf := s.cache[b];
    && 0 <= b < |s.disk|
    && buf.refcnt == |buf.users| + (if Pinned(s, b) then 1 else 0)
    && (buf.locker.Some? ==> buf.locker.value in buf.users)
    && (buf.valid ==> buf.data == if Pinned(s, b) then view[b] else s.disk[b])
    && (Pinned(s, b) ==> buf.valid)
  }

  ghost predicate CacheInv(c: Config, d0: Disk, s: State) {
    && |d0| == |s.disk|
    && (forall b :: b in s.cache ==> BufOk(c, s, View(d0, s), b))
    && (forall b :: Pinned(s, b) ==> b in s.cache)
    && |s.cache| <= c.nbuf
  }

  ghost predicate OpsInv(s: State) {
    && s.outstanding == Count(s.ops)
    && (s.committing <==> (s.phase.CommitStart? || s.phase.CopyLog? || s.phase.InstallHome? || s.phase.Committed?))
    && (!s.phase.Running? ==> s.outstanding == 0)
  }

  predicate InGroup(us: seq<Update>, o: nat) {
    exists k :: 0 <= k < |us| && us[k].op == o
  }

  /** No operation has updates in two groups, and only finished ones are in committed groups. */
  ghost predicate Hist(groups: seq<seq<Update>>, current: seq<Update>, ops: seq<Op>) {
    && (forall o: nat :: InGroup(current, o) ==> o < |ops|)
    && (forall i, o: nat :: 0 <= i < |groups| && InGroup(groups[i], o) ==> Finished(current, ops, o))
    && (forall i, j, o: nat ::
        0 <= i < |groups| && 0 <= j < |groups| && InGroup(groups[i], o) && InGroup(groups[j], o) ==> i == j)
  }

  ghost predicate Finished(current: seq<Update>, ops: seq<Op>, o: nat) {
    o < |ops| && !ops[o].active && !InGroup(current, o)
  }

  ghost predicate HistInv(s: State) {
    Hist(s.groups, s.current, s.ops)
  }

  ghost predicate Inv(c: Config, d0: Disk, s: State) {
    DiskInv(c, d0, s) && CacheInv(c, d0, s) && OpsInv(s) && HistInv(s)
  }

  // ---------- every step keeps the invariant ----------

  lemma InitInv(c: Config, s: State)
    requires Init(c, s)
    ensures Inv(c, Recovered(c.g, s.disk), s)
  {
    RecoveredAt(c.g, s.disk);
  }

  /** What DiskInv, OpsInv and HistInv look at. */
  predicate SameButCache(s: State, t: State) {
    t == s.(cache := t.cache)
  }

  lemma CacheOnlyStep(c: Config, d0: Disk, s: State, t: State)
    requires DiskInv(c, d0, s) && OpsInv(s) && HistInv(s) && SameButCache(s, t)
    ensures DiskInv(c, d0, t) && OpsInv(t) && HistInv(t)
    ensures View(d0, t) == View(d0, s) && forall b :: Pinned(t, b) == Pinned(s, b)
  {
  }

  /** A step that rewrites one buffer and at most that one disk block. */
  lemma OneBufferStep(c: Config, d0: Disk, s: State, t: State, b: int)
    requires CacheInv(c, d0, s) && |t.disk| == |s.disk|
    requires b in t.cache && t.cache == s.cache[b := t.cache[b]]
    requires b in s.cache || |s.cache| < c.nbuf
    requires forall x :: 0 <= x < |s.disk| && x != b ==> t.disk[x] == s.disk[x]
    requires forall x :: x != b ==>
        Pinned(t, x) == Pinned(s, x) && (Pinned(s, x) && 0 <= x < |s.disk| ==> View(d0, t)[x] == View(d0, s)[x])
    requires BufOk(c, t, View(d0, t), b)
    ensures CacheInv(c, d0, t)
  {
    forall x | x in t.cache ensures BufOk(c, t, View(d0, t), x) {
      if x != b { assert BufOk(c, s, View(d0, s), x); }
    }
    if b in s.cache { assert t.cache.Keys == s.cache.Keys; } else { assert t.cache.Keys == s.cache.Keys + {b}; }
    assert |t.cache| == |t.cache.Keys| && |s.cache| == |s.cache.Keys|;
  }

  lemma UserStep(c: Config, d0: Disk, s: State, t: State, p: nat, b: int)
    requires Inv(c, d0, s)
    requires BGet(c, s, t, p, b) || Lock(s, t, p, b) || Fill(s, t, p, b) || BRelse(s, t, p, b)
    ensures Inv(c, d0, t)
  {
    hide DiskInv, OpsInv, Hist;
    CacheOnlyStep(c, d0, s, t);
    if b in s.cache {
      assert BufOk(c, s, View(d0, s), b);
    }
    assert BufOk(c, t, View(d0, t), b);
    OneBufferStep(c, d0, s, t, b);
  }

  lemma EvictStep(c: Config, d0: Disk, s: State, t: State, b: int)
    requires Inv(c, d0, s) && Evict(s, t, b)
    ensures Inv(c, d0, t)
  {
    hide DiskInv, OpsInv, Hist;
    CacheOnlyStep(c, d0, s, t);
    assert BufOk(c, s, View(d0, s), b);
    forall x | x in t.cache ensures BufOk(c, t, View(d0, t), x) {
      assert BufOk(c, s, View(d0, s), x);
    }
    assert t.cache.Keys == s.cache.Keys - {b};
    assert |t.cache| == |t.cache.Keys| && |s.cache| == |s.cache.Keys|;
  }

  lemma {:induction false} CountSet(ops: seq<Op>, o: nat, x: Op)
    requires o < |ops|
    ensures Count(ops[o := x]) == Count(ops) - (if ops[o].active then 1 else 0) + (if x.active then 1 else 0)
    decreases |ops|
  {
    var n := |ops| - 1;
    if o < n {
      CountSet(ops[..n], o, x);
      assert ops[o := x][..n] == ops[..n][o := x];
    } else {
      assert ops[o := x][..n] == ops[..n];
    }
  }

  lemma {:induction false} CountZero(ops: seq<Op>)
    ensures Count(ops) == 0 <==> forall o :: 0 <= o < |ops| ==> !ops[o].active
    decreases |ops|
  {
    if ops != [] {
      var n := |ops| - 1;
      CountZero(ops[..n]);
      assert forall o :: 0 <= o < n ==> ops[..n][o] == ops[o];
    }
  }

  lemma ApplyOne(d: Disk, us: seq<Update>, u: Update)
    requires 0 <= u.blk < |d|
    ensures Apply(d, us + [u]) == Apply(d, us)[u.blk := u.data]
  {
    assert (us + [u])[..|us|] == us;
  }

  lemma ApplyNothing(d: Disk)
    ensures Apply(d, []) == d
  {
  }

  lemma ApplyGroup(d: Disk, gs: seq<seq<Update>>, us: seq<Update>)
    ensures ApplyGroups(d, gs + [us]) == Apply(ApplyGroups(d, gs), us)
  {
    assert (gs + [us])[..|gs|] == gs;
  }

  /** Operations begin and end; groups and current stay. */
  lemma HistOps(groups: seq<seq<Update>>, current: seq<Update>, ops: seq<Op>, now: seq<Op>)
    requires Hist(groups, current, ops) && |ops| <= |now|
    requires forall o :: 0 <= o < |ops| && !ops[o].active ==> !now[o].active
    ensures Hist(groups, current, now)
  {
    hide InGroup;
    forall i, o: nat | 0 <= i < |groups| && InGroup(groups[i], o) ensures Finished(current, now, o) {
      assert Finished(current, ops, o);
    }
  }

  /** An active operation logs one more update. */
  lemma HistLog(groups: seq<seq<Update>>, current: seq<Update>, ops: seq<Op>, u: Update)
    requires Hist(groups, current, ops) && u.op < |ops| && ops[u.op].active
    ensures Hist(groups, current + [u], ops)
  {
    forall o: nat { InGroupAppend(current, u, o); }
    hide InGroup;
    forall i, o: nat | 0 <= i < |groups| && InGroup(groups[i], o) ensures Finished(current + [u], ops, o) {
      assert Finished(current, ops, o);
    }
  }

  lemma InGroupAppend(us: seq<Update>, u: Update, o: nat)
    ensures InGroup(us + [u], o) <==> InGroup(us, o) || u.op == o
  {
    if InGroup(us, o) {
      var k :| 0 <= k < |us| && us[k].op == o;
      assert (us + [u])[k].op == o;
    }
    assert (us + [u])[|us|] == u;
  }

  /** The current group is committed once none of its operations is active. */
  lemma HistCommit(groups: seq<seq<Update>>, current: seq<Update>, ops: seq<Op>)
    requires Hist(groups, current, ops)
    requires forall o :: 0 <= o < |ops| ==> !ops[o].active
    ensures Hist(groups + [current], [], ops)
  {
    var gs := groups + [current];
    assert forall o: nat :: !InGroup([], o);
    hide InGroup;
    forall i, o: nat | 0 <= i < |gs| && InGroup(gs[i], o) ensures Finished([], ops, o) {
      if i < |groups| { assert Finished(current, ops, o); }
    }
    forall i, j, o: nat | 0 <= i < |gs| && 0 <= j < |gs| && InGroup(gs[i], o) && InGroup(gs[j], o) ensures i == j {
      if i < |groups| { assert Finished(current, ops, o); }
      if j < |groups| { assert Finished(current, ops, o); }
    }
  }

  /** A crash forgets the current group. */
  lemma HistCrash(groups: seq<seq<Update>>, current: seq<Update>, ops: seq<Op>)
    requires Hist(groups, current, ops)
    ensures Hist(groups, [], ops)
  {
    assert forall o: nat :: !InGroup([], o);
    hide InGroup;
    forall i, o: nat | 0 <= i < |groups| && InGroup(groups[i], o) ensures Finished([], ops, o) {
      assert Finished(current, ops, o);
    }
  }

  lemma BeginOpStep(c: Config, d0: Disk, s: State, t: State)
    requires Inv(c, d0, s) && BeginOp(c, s, t)
    ensures Inv(c, d0, t)
  {
    BeginOpDisk(c, d0, s, t);
    BeginOpOps(c, s, t);
  }

  lemma BeginOpOps(c: Config, s: State, t: State)
    requires OpsInv(s) && HistInv(s) && BeginOp(c, s, t)
    ensures OpsInv(t) && HistInv(t)
  {
    hide Hist;
    assert t.ops[..|s.ops|] == s.ops;
    HistOps(s.groups, s.current, s.ops, t.ops);
  }

  lemma BeginOpDisk(c: Config, d0: Disk, s: State, t: State)
    requires Inv(c, d0, s) && BeginOp(c, s, t)
    ensures DiskInv(c, d0, t) && CacheInv(c, d0, t)
  {
    hide OpsInv, Hist;
    forall x | x in t.cache ensures BufOk(c, t, View(d0, t), x) {
      assert BufOk(c, s, View(d0, s), x);
    }
  }

  lemma LogWriteDisk(c: Config, d0: Disk, s: State, t: State, p: nat, o: nat, b: int, data: Block)
    requires Inv(c, d0, s) && LogWrite(c, s, t, p, o, b, data)
    ensures s.phase == Running && View(d0, t) == View(d0, s)[b := data] && Base(d0, t) == Base(d0, s)
    ensures DiskInv(c, d0, t)
  {
    hide Hist, CacheInv;
    ApplyOne(Base(d0, s), s.current, Update(o, b, data));
    if b !in s.lh {
      forall i, j | 0 <= i < j < |t.lh| ensures t.lh[i] != t.lh[j] {
        assert t.lh[i] == s.lh[i];
      }
    }
    forall k | 0 <= k < |t.current| ensures t.current[k].blk in t.lh {
      if k < |s.current| {
        assert s.current[k].blk in s.lh;
      } else if b !in s.lh {
        assert t.lh[|s.lh|] == b;
      }
    }
  }

  lemma LogWriteCache(c: Config, d0: Disk, s: State, t: State, p: nat, o: nat, b: int, data: Block)
    requires CacheInv(c, d0, s) && LogWrite(c, s, t, p, o, b, data) && s.phase == Running
    requires View(d0, t) == View(d0, s)[b := data]
    ensures CacheInv(c, d0, t)
  {
    assert BufOk(c, s, View(d0, s), b);
    assert b in t.lh by { if b !in s.lh { assert t.lh[|s.lh|] == b; } }
    forall x | x != b ensures Pinned(t, x) == Pinned(s, x) {
      if x in s.lh { assert x in t.lh; }
    }
    OneBufferStep(c, d0, s, t, b);
  }

  lemma LogWriteHist(c: Config, s: State, t: State, p: nat, o: nat, b: int, data: Block)
    requires OpsInv(s) && HistInv(s) && LogWrite(c, s, t, p, o, b, data)
    ensures OpsInv(t) && HistInv(t)
  {
    hide Hist;
    HistLog(s.groups, s.current, s.ops, Update(o, b, data));
    if b !in s.lh {
      CountSet(s.ops, o, t.ops[o]);
      HistOps(s.groups, t.current, s.ops, t.ops);
    }
  }

  lemma LogWriteStep(c: Config, d0: Disk, s: State, t: State, p: nat, o: nat, b: int, data: Block)
    requires Inv(c, d0, s) && LogWrite(c, s, t, p, o, b, data)
    ensures Inv(c, d0, t)
  {
    LogWriteDisk(c, d0, s, t, p, o, b, data);
    LogWriteCache(c, d0, s, t, p, o, b, data);
    LogWriteHist(c, s, t, p, o, b, data);
  }

  /** Steps that move only the counters and, forwards, the phase. */
  lemma BookkeepingStep(c: Config, d0: Disk, s: State, t: State)
    requires Inv(c, d0, s)
    requires (exists o :: EndOp(s, t, o)) || StartCommit(s, t) || FinishCommit(s, t)
    ensures DiskInv(c, d0, t) && CacheInv(c, d0, t)
  {
    hide Hist;
    assert Pinned(t, 0) == Pinned(s, 0);
    forall x | x in t.cache ensures BufOk(c, t, View(d0, t), x) {
      assert BufOk(c, s, View(d0, s), x);
    }
  }

  lemma EndOpStep(c: Config, d0: Disk, s: State, t: State, o: nat)
    requires Inv(c, d0, s) && EndOp(s, t, o)
    ensures Inv(c, d0, t)
  {
    BookkeepingStep(c, d0, s, t);
    EndOpOps(s, t, o);
  }

  lemma EndOpOps(s: State, t: State, o: nat)
    requires OpsInv(s) && HistInv(s) && EndOp(s, t, o)
    ensures OpsInv(t) && HistInv(t)
  {
    hide Hist;
    CountSet(s.ops, o, t.ops[o]);
    HistOps(s.groups, s.current, s.ops, t.ops);
  }

  lemma CopyOneStep(c: Config, d0: Disk, s: State, t: State, p: nat, i: nat)
    requires Inv(c, d0, s) && CopyOne(c, s, t, p, i)
    ensures Inv(c, d0, t)
  {
    hide Hist, Recoverable, HasHeader, Apply, ApplyGroups;
    var lb := LogBlock(c.g, i);
    assert BufOk(c, s, View(d0, s), lb);
    assert BufOk(c, s, View(d0, s), s.lh[i]);
    assert IsHome(c.g, s.disk, s.lh[i]) && !IsHome(c.g, s.disk, lb);
    CopyOneDisk(c, d0, s, t, p, i);
    OneBufferStep(c, d0, s, t, lb);
  }

  lemma CopyOneDisk(c: Config, d0: Disk, s: State, t: State, p: nat, i: nat)
    requires DiskInv(c, d0, s) && CopyOne(c, s, t, p, i)
    requires s.cache[s.lh[i]].data == View(d0, s)[s.lh[i]] && |s.cache[s.lh[i]].data| == c.g.words
    ensures DiskInv(c, d0, t)
  {
  }

  lemma CommitHeadDisk(c: Config, d0: Disk, s: State, t: State, p: nat)
    requires DiskInv(c, d0, s) && CommitHead(c, s, t, p)
    requires s.cache[c.g.start].data == s.disk[c.g.start]
    ensures Base(d0, t) == View(d0, s) == View(d0, t)
    ensures DiskInv(c, d0, t)
  {
    hide Apply, ApplyGroups;
    ApplyNothing(View(d0, s));
    ApplyGroup(d0, s.groups, s.current);
    HeaderRoundTrip(s.disk[c.g.start], s.lh);
    var h := HeaderOf(t.disk[c.g.start]);
    assert h == s.lh;
    assert ValidDisk(c.g, t.disk);
    forall j | 0 <= j < |h| ensures t.disk[LogBlock(c.g, j)] == View(d0, s)[h[j]] {
      assert s.disk[LogBlock(c.g, j)] == View(d0, s)[s.lh[j]];
    }
    assert RecoversTo(c.g, t.disk, Base(d0, t));
  }

  lemma CommitHeadHist(c: Config, s: State, t: State, p: nat)
    requires OpsInv(s) && HistInv(s) && CommitHead(c, s, t, p)
    ensures OpsInv(t) && HistInv(t)
  {
    hide Hist;
    CountZero(s.ops);
    HistCommit(s.groups, s.current, s.ops);
  }

  lemma CommitHeadStep(c: Config, d0: Disk, s: State, t: State, p: nat)
    requires Inv(c, d0, s) && CommitHead(c, s, t, p)
    ensures Inv(c, d0, t)
  {
    hide Hist, Recoverable, Apply, ApplyGroups;
    assert BufOk(c, s, View(d0, s), c.g.start);
    assert !IsHome(c.g, s.disk, c.g.start);
    CommitHeadDisk(c, d0, s, t, p);
    CommitHeadHist(c, s, t, p);
    assert t.lh[0..] == s.lh;
    OneBufferStep(c, d0, s, t, c.g.start);
  }

  /** Shared by commit and recovery: home block lh[i] receives log block i. */
  lemma InstallDisk(c: Config, d0: Disk, s: State, t: State, i: nat)
    requires DiskInv(c, d0, s) && i < |s.lh|
    requires s.phase == InstallHome(i) || s.phase == RecInstall(i)
    requires t.disk == s.disk[s.lh[i] := s.disk[LogBlock(c.g, i)]]
    requires t.lh == s.lh && t.groups == s.groups && t.current == s.current
    requires t.phase == if s.phase.InstallHome? then InstallHome(i + 1) else RecInstall(i + 1)
    ensures DiskInv(c, d0, t) && View(d0, t) == View(d0, s)
  {
    hide GoodHeader, HasHeader, RecoversTo, Apply, ApplyGroups;
    assert View(d0, t) == View(d0, s) && Base(d0, t) == Base(d0, s);
    RecoversToRecoverable(c.g, s.disk, Base(d0, s));
    InstallRecovers(c.g, s.disk, Base(d0, s), s.lh, i);
    InstallKeeps(c.g, s.disk, Base(d0, s), s.lh, i);
    GoodHeaderBySize(c.g, s.disk, t.disk, s.lh);
    RecoversToRecoverable(c.g, t.disk, Base(d0, s));
  }

  lemma RecoversToRecoverable(g: Geometry, d: Disk, base: Disk)
    requires RecoversTo(g, d, base)
    ensures Recoverable(g, d) && HasHeader(g, d) && |base| == |d|
  {
  }

  lemma InstallRecovers(g: Geometry, d: Disk, base: Disk, h: seq<int>, i: nat)
    requires RecoversTo(g, d, base) && HeaderOf(d[g.start]) == h && i < |h|
    ensures IsHome(g, d, h[i]) && 0 <= LogBlock(g, i) < |d|
    ensures RecoversTo(g, d[h[i] := d[LogBlock(g, i)]], base)
    ensures d[h[i] := d[LogBlock(g, i)]][g.start] == d[g.start]
  {
    var e := d[h[i] := d[LogBlock(g, i)]];
    assert IsHome(g, d, h[i]) && !IsHome(g, d, g.start);
    forall j | 0 <= j < |h| ensures e[LogBlock(g, j)] == base[h[j]] {
      assert !IsHome(g, d, LogBlock(g, j));
    }
  }

  lemma InstallKeeps(g: Geometry, d: Disk, base: Disk, h: seq<int>, i: nat)
    requires RecoversTo(g, d, base) && HeaderOf(d[g.start]) == h && i < |h|
    requires GoodHeader(g, d, h)
    requires forall j :: 0 <= j < i ==> d[h[j]] == base[h[j]]
    requires 0 <= LogBlock(g, i) < |d| && 0 <= h[i] < |d|
    ensures forall j :: 0 <= j < i + 1 ==> 0 <= h[j] < |d| && d[h[i] := d[LogBlock(g, i)]][h[j]] == base[h[j]]
  {
    assert d[LogBlock(g, i)] == base[h[i]];
  }

  lemma InstallOneStep(c: Config, d0: Disk, s: State, t: State, p: nat, i: nat)
    requires Inv(c, d0, s) && InstallOne(c, s, t, p, i)
    ensures Inv(c, d0, t)
  {
    hide Hist, Recoverable, HasHeader, Apply, ApplyGroups, RecoversTo;
    InstallSource(c, d0, s, p, i);
    InstallDisk(c, d0, s, t, i);
    NextPinned(c.g, s.disk, s.lh, i);
    assert BufOk(c, s, View(d0, s), s.lh[i]);
    OneBufferStep(c, d0, s, t, s.lh[i]);
  }

  lemma RecInstallOneStep(c: Config, d0: Disk, s: State, t: State, p: nat, i: nat)
    requires Inv(c, d0, s) && RecInstallOne(c, s, t, p, i)
    ensures Inv(c, d0, t)
  {
    hide Hist, Recoverable, HasHeader, Apply, ApplyGroups, RecoversTo;
    InstallSource(c, d0, s, p, i);
    InstallDisk(c, d0, s, t, i);
    assert BufOk(c, s, View(d0, s), s.lh[i]);
    OneBufferStep(c, d0, s, t, s.lh[i]);
  }

  /** The log block's buffer is clean, because log blocks are never pinned. */
  lemma InstallSource(c: Config, d0: Disk, s: State, p: nat, i: nat)
    requires DiskInv(c, d0, s) && CacheInv(c, d0, s) && i < |s.lh| && HeldBy(s, LogBlock(c.g, i), p)
    ensures s.cache[LogBlock(c.g, i)].data == s.disk[LogBlock(c.g, i)]
  {
    assert !IsHome(c.g, s.disk, LogBlock(c.g, i));
    assert BufOk(c, s, View(d0, s), LogBlock(c.g, i));
  }

  lemma NextPinned(g: Geometry, d: Disk, h: seq<int>, i: nat)
    requires GoodHeader(g, d, h) && i < |h|
    ensures h[i] in h[i..] && h[i] !in h[i + 1..]
    ensures forall x :: x != h[i] ==> (x in h[i..] <==> x in h[i + 1..])
  {
    assert h[i..] == [h[i]] + h[i + 1..];
  }

  lemma EraseHeadDisk(c: Config, d0: Disk, s: State, t: State, p: nat)
    requires DiskInv(c, d0, s) && EraseHead(c, s, t, p)
    requires s.cache[c.g.start].data == s.disk[c.g.start]
    ensures DiskInv(c, d0, t) && View(d0, t) == View(d0, s)
  {
    HeaderRoundTrip(s.disk[c.g.start], []);
    var base := Base(d0, s);
    forall b | IsHome(c.g, t.disk, b) ensures t.disk[b] == base[b] {
      if b in s.lh {
        var j :| 0 <= j < |s.lh| && s.lh[j] == b;
        assert s.disk[s.lh[j]] == base[s.lh[j]];
      }
    }
    assert ValidDisk(c.g, t.disk);
  }

  lemma EraseHeadStep(c: Config, d0: Disk, s: State, t: State, p: nat)
    requires Inv(c, d0, s) && EraseHead(c, s, t, p)
    ensures Inv(c, d0, t)
  {
    hide Hist, Apply, ApplyGroups;
    assert BufOk(c, s, View(d0, s), c.g.start);
    assert !IsHome(c.g, s.disk, c.g.start);
    EraseHeadDisk(c, d0, s, t, p);
    EraseHeadCache(c, d0, s, t, p);
  }

  lemma EraseHeadCache(c: Config, d0: Disk, s: State, t: State, p: nat)
    requires CacheInv(c, d0, s) && EraseHead(c, s, t, p) && View(d0, t) == View(d0, s)
    ensures CacheInv(c, d0, t)
  {
    assert BufOk(c, s, View(d0, s), c.g.start);
    assert s.lh[|s.lh|..] == [];
    OneBufferStep(c, d0, s, t, c.g.start);
  }

  lemma ReadHeadStep(c: Config, d0: Disk, s: State, t: State, p: nat)
    requires Inv(c, d0, s) && ReadHead(c, s, t, p)
    ensures Inv(c, d0, t)
  {
    hide Hist, Apply, ApplyGroups;
    assert BufOk(c, s, View(d0, s), c.g.start);
    forall x | x in t.cache ensures BufOk(c, t, View(d0, t), x) {
      assert BufOk(c, s, View(d0, s), x);
    }
  }

  lemma CrashStep(c: Config, d0: Disk, s: State, t: State)
    requires Inv(c, d0, s) && Crash(s, t)
    ensures Inv(c, d0, t)
  {
    hide Hist, DiskInv;
    CountZero(t.ops);
    CrashDisk(c, d0, s, t);
    HistCrash(s.groups, s.current, s.ops);
    HistOps(s.groups, [], s.ops, t.ops);
  }

  lemma CrashDisk(c: Config, d0: Disk, s: State, t: State)
    requires DiskInv(c, d0, s) && Crash(s, t)
    ensures DiskInv(c, d0, t)
  {
    var base := Base(d0, s);
    forall b | IsHome(c.g, s.disk, b) ensures |base[b]| == c.g.words {
      var h := HeaderOf(s.disk[c.g.start]);
      if b in h {
        var j :| 0 <= j < |h| && h[j] == b;
        assert s.disk[LogBlock(c.g, j)] == base[h[j]];
      }
    }
  }

  lemma NextInv(c: Config, d0: Disk, s: State, t: State, e: Step)
    requires Inv(c, d0, s) && NextStep(c, s, t, e)
    ensures Inv(c, d0, t)
  {
    hide Inv, BGet, Lock, Fill, BRelse, Evict, BeginOp, LogWrite, EndOp, CopyOne, CommitHead, InstallOne,
         EraseHead, Crash, ReadHead, RecInstallOne, StartCommit, FinishCommit;
    match e
    case SBGet(p, b) => UserStep(c, d0, s, t, p, b);
    case SLock(p, b) => UserStep(c, d0, s, t, p, b);
    case SFill(p, b) => UserStep(c, d0, s, t, p, b);
    case SBRelse(p, b) => UserStep(c, d0, s, t, p, b);
    case SEvict(b) => EvictStep(c, d0, s, t, b);
    case SBeginOp => BeginOpStep(c, d0, s, t);
    case SLogWrite(p, o, b, data) => LogWriteStep(c, d0, s, t, p, o, b, data);
    case SEndOp(o) => EndOpStep(c, d0, s, t, o);
    case SStartCommit => PhaseStep(c, d0, s, t);
    case SCopyOne(p, i) => CopyOneStep(c, d0, s, t, p, i);
    case SCommitHead(p) => CommitHeadStep(c, d0, s, t, p);
    case SInstallOne(p, i) => InstallOneStep(c, d0, s, t, p, i);
    case SEraseHead(p) => EraseHeadStep(c, d0, s, t, p);
    case SFinishCommit => PhaseStep(c, d0, s, t);
    case SCrash => CrashStep(c, d0, s, t);
    case SReadHead(p) => ReadHeadStep(c, d0, s, t, p);
    case SRecInstallOne(p, i) => RecInstallOneStep(c, d0, s, t, p, i);
  }

  lemma PhaseStep(c: Config, d0: Disk, s: State, t: State)
    requires Inv(c, d0, s) && (StartCommit(s, t) || FinishCommit(s, t))
    ensures Inv(c, d0, t)
  {
    hide Hist;
    BookkeepingStep(c, d0, s, t);
  }

  /** The invariant holds in every state of every run. */
  lemma {:induction false} RunInv(c: Config, tr: seq<State>, es: seq<Step>, i: nat)
    requires IsRun(c, tr, es) && i < |tr|
    ensures GoodGeometry(c.g) && Recoverable(c.g, tr[0].disk)
    ensures Inv(c, Recovered(c.g, tr[0].disk), tr[i])
  {
    hide Inv, NextStep;
    if i == 0 {
      InitInv(c, tr[0]);
    } else {
      RunInv(c, tr, es, i - 1);
      NextInv(c, Recovered(c.g, tr[0].disk), tr[i - 1], tr[i], es[i - 1]);
    }
  }

  // ---------- what the invariant means ----------

  /**
   Crash safety of all interleavings: stop any run anywhere, recovery included, and
   recover.  The home blocks are those of the committed groups, each in full.
   */
  lemma CrashSafe(c: Config, tr: seq<State>, es: seq<Step>, i: nat)
    requires IsRun(c, tr, es) && i < |tr|
    ensures GoodGeometry(c.g) && Recoverable(c.g, tr[0].disk) && Recoverable(c.g, tr[i].disk)
    ensures SameHome(c.g, Recovered(c.g, tr[i].disk), ApplyGroups(Recovered(c.g, tr[0].disk), tr[i].groups))
  {
    RunInv(c, tr, es, i);
    RecoveredAt(c.g, tr[i].disk);
    var base := ApplyGroups(Recovered(c.g, tr[0].disk), tr[i].groups);
    var h, r := HeaderOf(tr[i].disk[c.g.start]), Recovered(c.g, tr[i].disk);
    forall b | IsHome(c.g, r, b) ensures r[b] == base[b] {
      if b in h {
        var j :| 0 <= j < |h| && h[j] == b;
        assert r[h[j]] == base[h[j]];
      }
    }
  }

  /** Outside commit and recovery the disk itself holds exactly the committed groups. */
  lemma DiskIsCommitted(c: Config, tr: seq<State>, es: seq<Step>, i: nat)
    requires IsRun(c, tr, es) && i < |tr| && tr[i].phase.Running?
    ensures GoodGeometry(c.g) && Recoverable(c.g, tr[0].disk)
    ensures SameHome(c.g, tr[i].disk, ApplyGroups(Recovered(c.g, tr[0].disk), tr[i].groups))
  {
    RunInv(c, tr, es, i);
  }

  /** Commits are durable: no later step or crash takes a committed group back. */
  lemma {:induction false} CommittedForever(c: Config, tr: seq<State>, es: seq<Step>, i: nat, j: nat)
    requires IsRun(c, tr, es) && i <= j < |tr|
    ensures tr[i].groups <= tr[j].groups
    decreases j
  {
    hide NextStep, Init;
    if i < j {
      CommittedForever(c, tr, es, i, j - 1);
      GroupsGrow(c, tr[j - 1], tr[j], es[j - 1]);
    }
  }

  lemma GroupsGrow(c: Config, s: State, t: State, e: Step)
    requires NextStep(c, s, t, e)
    ensures s.groups <= t.groups
  {
  }

  /** No operation's updates are split between two groups, nor committed before it ended. */
  lemma OpsNotSplit(c: Config, tr: seq<State>, es: seq<Step>, i: nat, o: nat, k: nat)
    requires IsRun(c, tr, es) && i < |tr|
    requires k < |tr[i].groups| && InGroup(tr[i].groups[k], o)
    ensures o < |tr[i].ops| && !tr[i].ops[o].active && !InGroup(tr[i].current, o)
    ensures forall j :: 0 <= j < |tr[i].groups| && j != k ==> !InGroup(tr[i].groups[j], o)
  {
    hide InGroup;
    RunInv(c, tr, es, i);
    assert Finished(tr[i].current, tr[i].ops, o);
  }

  function Flatten(gs: seq<seq<Update>>): (us: seq<Update>)
    decreases |gs|
  {
    if gs == [] then [] else Flatten(gs[..|gs| - 1]) + gs[|gs| - 1]
  }

  /** The data of the last log_write() of block b, or what the disk held at boot. */
  function LastWritten(d: Disk, us: seq<Update>, b: int): Block
    requires 0 <= b < |d|
    decreases |us|
  {
    if us == [] then d[b]
    else if us[|us| - 1].blk == b then us[|us| - 1].data
    else LastWritten(d, us[..|us| - 1], b)
  }

  lemma {:induction false} ApplyIsLastWritten(d: Disk, us: seq<Update>, b: int)
    requires 0 <= b < |d|
    ensures Apply(d, us)[b] == LastWritten(d, us, b)
    decreases |us|
  {
    if us != [] { ApplyIsLastWritten(d, us[..|us| - 1], b); }
  }

  lemma {:induction false} ApplyAppend(d: Disk, us: seq<Update>, vs: seq<Update>)
    ensures Apply(d, us + vs) == Apply(Apply(d, us), vs)
    decreases |vs|
  {
    if vs == [] {
      assert us + vs == us;
    } else {
      var n := |vs| - 1;
      ApplyAppend(d, us, vs[..n]);
      assert (us + vs)[..|us| + n] == us + vs[..n];
    }
  }

  lemma {:induction false} ApplyGroupsFlattens(d: Disk, gs: seq<seq<Update>>)
    ensures ApplyGroups(d, gs) == Apply(d, Flatten(gs))
    decreases |gs|
  {
    if gs != [] {
      var n := |gs| - 1;
      ApplyGroupsFlattens(d, gs[..n]);
      ApplyAppend(d, Flatten(gs[..n]), gs[n]);
    }
  }

  /**
   Cache plus log refine a map of blocks: a process that holds the buffer of a home
   block sees the last data any operation logged for it, whatever was evicted,
   committed or lost with a crash since.
   */
  lemma ReadsLastWrite(c: Config, tr: seq<State>, es: seq<Step>, i: nat, p: nat, b: int)
    requires IsRun(c, tr, es) && i < |tr| && Up(tr[i]) && HeldBy(tr[i], b, p)
    requires IsHome(c.g, tr[i].disk, b)
    ensures GoodGeometry(c.g) && Recoverable(c.g, tr[0].disk) && |tr[0].disk| == |tr[i].disk|
    ensures tr[i].cache[b].data ==
            LastWritten(Recovered(c.g, tr[0].disk), Flatten(tr[i].groups) + tr[i].current, b)
  {
    RunInv(c, tr, es, i);
    var s, d0 := tr[i], Recovered(c.g, tr[0].disk);
    assert BufOk(c, s, View(d0, s), b);
    if !Pinned(s, b) { CleanIsCurrent(c, d0, s, b); }
    ApplyGroupsFlattens(d0, s.groups);
    ApplyAppend(d0, Flatten(s.groups), s.current);
    ApplyIsLastWritten(d0, Flatten(s.groups) + s.current, b);
  }

  lemma CleanIsCurrent(c: Config, d0: Disk, s: State, b: int)
    requires DiskInv(c, d0, s) && Up(s) && IsHome(c.g, s.disk, b) && !Pinned(s, b)
    ensures s.disk[b] == View(d0, s)[b]
  {
    if s.phase.InstallHome? && b in s.lh {
      var j :| 0 <= j < |s.lh| && s.lh[j] == b;
      assert s.disk[s.lh[j]] == Base(d0, s)[s.lh[j]];
    }
  }
}
