/**
 virtio_disk_rw() and virtio_disk_intr() (virtio_disk.c) as an interleaving of any
 number of drivers, the interrupt handler and the device.  The device conforms to
 sections 2.6 and 5.2 of the Virtio 1.1 specification: it takes available heads in
 the order of the ring and completes them in any order, with status 0.  Ring
 indices are 16-bit numbers and wrap; the number of descriptors divides 2^16.

 own, pending and unseen are history: who was given a descriptor, and which heads
 are between being made available and taken, and between used and seen.
 */
module VirtioProtocol {
  import opened Arithmetic
  import opened Common
  import opened VirtioDescriptors

  const WRAP: nat := 0x1_0000

  predicate Divides(n: nat, m: nat) { n > 0 && m % n == 0 }

  datatype Triple = Triple(i0: nat, i1: nat, i2: nat)

  /** Where a driver with its three descriptors is; in Freeing, free_chain() has freed k of them. */
  datatype Phase = Format | Put | Bump | Test | Asleep | Clear | Freeing(k: nat)

  /** b is the driver's buffer, t its descriptors; in NoDesc it is asleep because there were none. */
  datatype Pc = Outside | Alloc(b: nat) | NoDesc(b: nat) | Busy(b: nat, t: Triple, phase: Phase)

  datatype Owner = Driver(p: nat) | Interrupt

  datatype State = State(
    desc: seq<Desc>, free: seq<bool>, avail: seq<nat>, availIdx: nat, used: seq<nat>, usedIdx: nat, usedSeen: nat,
    infoB: seq<Option<nat>>, status: seq<nat>, disk: seq<bool>,
    pc: seq<Pc>, lock: Option<Owner>,
    devIdx: nat, busy: set<nat>, devPut: Option<nat>,
    own: seq<Option<nat>>, pending: seq<nat>, unseen: seq<nat>)
  {
    /** NUM */
    function Num(): nat { |desc| }

    predicate Sized() {
      && 0 < Num() && Divides(Num(), WRAP)
      && |free| == |avail| == |used| == |infoB| == |status| == |own| == Num()
      && availIdx < WRAP && usedIdx < WRAP && usedSeen < WRAP && devIdx < WRAP
    }
  }

  /** idx += 1 on a 16-bit number. */
  function Inc(x: nat): (r: nat)
    ensures r < WRAP
  {
    (x + 1) % WRAP
  }

  /** The ring slot of an index. */
  function Slot(s: State, x: nat): (r: nat)
    requires s.Sized()
    ensures r < s.Num()
  {
    x % s.Num()
  }

  // ---------- virtio_disk_rw() ----------

  function BufOf(pc: Pc): Option<nat> { if pc.Outside? then None else Some(pc.b) }

  /** The caller holds the sleep-lock of the buffer, so no other driver has it. */
  ghost predicate Enter(s: State, t: State, p: nat, b: nat) requires s.Sized() {
    && p < |s.pc| && s.pc[p] == Outside && s.lock == None && b < |s.disk|
    && (forall q :: 0 <= q < |s.pc| ==> BufOf(s.pc[q]) != Some(b))
    && t == s.(pc := s.pc[p := Alloc(b)], lock := Some(Driver(p)))
  }

  ghost predicate Allocated(s: State, t: State, p: nat, idx: seq<nat>) requires s.Sized() {
    && p < |s.pc| && s.pc[p].Alloc? && |idx| == 3 && Lowest(s.free, idx)
    && t == s.(pc := s.pc[p := Busy(s.pc[p].b, Triple(idx[0], idx[1], idx[2]), Format)], free := Taken(s.free, idx),
               own := s.own[idx[0] := Some(p)][idx[1] := Some(p)][idx[2] := Some(p)])
  }

  /** alloc3_desc() fails, which may clear free descriptors, and sleep() releases the lock. */
  ghost predicate NotAllocated(s: State, t: State, p: nat) requires s.Sized() {
    && p < |s.pc| && s.pc[p].Alloc? && Short(s.free) && |t.desc| == |s.desc|
    && (forall i {:trigger t.desc[i]} :: 0 <= i < s.Num() && !s.free[i] ==> t.desc[i] == s.desc[i])
    && t == s.(pc := s.pc[p := NoDesc(s.pc[p].b)], lock := None, desc := t.desc)
  }

  ghost predicate TryAgain(s: State, t: State, p: nat) requires s.Sized() {
    && p < |s.pc| && s.pc[p].NoDesc? && s.lock == None
    && t == s.(pc := s.pc[p := Alloc(s.pc[p].b)], lock := Some(Driver(p)))
  }

  /** Driver p is in the given phase. */
  predicate At(s: State, p: nat, phase: Phase) { p < |s.pc| && s.pc[p].Busy? && s.pc[p].phase == phase }

  function Goto(s: State, p: nat, phase: Phase): seq<Pc>
    requires p < |s.pc| && s.pc[p].Busy?
  {
    s.pc[p := Busy(s.pc[p].b, s.pc[p].t, phase)]
  }

  /** The three descriptors, info and b->disk; where the data is does not matter here. */
  ghost predicate Formatted(s: State, t: State, p: nat, x: Desc, y: Desc, z: Desc) requires s.Sized() {
    && At(s, p, Format)
    && var c, b := s.pc[p].t, s.pc[p].b;
       && c.i0 < s.Num() && c.i1 < s.Num() && c.i2 < s.Num() && b < |s.disk|
       && x.chained && x.next == c.i1 && y.chained && y.next == c.i2 && !z.chained
       && t == s.(pc := Goto(s, p, Put), desc := s.desc[c.i0 := x][c.i1 := y][c.i2 := z],
                  status := s.status[c.i0 := 255], disk := s.disk[b := true], infoB := s.infoB[c.i0 := Some(b)])
  }

  /** avail->ring[avail->idx % NUM] = idx[0] */
  ghost predicate PutRing(s: State, t: State, p: nat) requires s.Sized() {
    At(s, p, Put) && t == s.(pc := Goto(s, p, Bump), avail := s.avail[Slot(s, s.availIdx) := s.pc[p].t.i0])
  }

  /** avail->idx += 1 */
  ghost predicate BumpIdx(s: State, t: State, p: nat) requires s.Sized() {
    && At(s, p, Bump)
    && t == s.(pc := Goto(s, p, Test), availIdx := Inc(s.availIdx), pending := s.pending + [s.pc[p].t.i0])
  }

  /** while(b->disk == 1) sleep(b, &vdisk_lock) */
  ghost predicate WaitTest(s: State, t: State, p: nat) requires s.Sized() {
    && At(s, p, Test) && s.pc[p].b < |s.disk|
    && t == if s.disk[s.pc[p].b] then s.(pc := Goto(s, p, Asleep), lock := None) else s.(pc := Goto(s, p, Clear))
  }

  ghost predicate Woken(s: State, t: State, p: nat) requires s.Sized() {
    At(s, p, Asleep) && s.lock == None && t == s.(pc := Goto(s, p, Test), lock := Some(Driver(p)))
  }

  /** info[idx[0]].b = 0 */
  ghost predicate Cleared(s: State, t: State, p: nat) requires s.Sized() {
    && At(s, p, Clear) && s.pc[p].t.i0 < s.Num()
    && t == s.(pc := Goto(s, p, Freeing(0)), infoB := s.infoB[s.pc[p].t.i0 := None])
  }

  function Nth(t: Triple, k: nat): nat { if k == 0 then t.i0 else if k == 1 then t.i1 else t.i2 }

  /** A round of free_chain() that does not panic; the last one is followed by release(). */
  ghost predicate FreeOne(s: State, t: State, p: nat, k: nat) requires s.Sized() {
    && At(s, p, Freeing(k))
    && var i := Nth(s.pc[p].t, k);
       && i < s.Num() && !s.free[i]
       && t == s.(desc := s.desc[i := CLEARED], free := s.free[i := true], own := s.own[i := None],
                  pc := if s.desc[i].chained then Goto(s, p, Freeing(k + 1)) else s.pc[p := Outside],
                  lock := if s.desc[i].chained then s.lock else None)
  }

  // ---------- virtio_disk_intr() ----------

  ghost predicate IntrEnter(s: State, t: State) requires s.Sized() {
    s.lock == None && t == s.(lock := Some(Interrupt))
  }

  /** A round of the loop that does not panic. */
  ghost predicate IntrHandle(s: State, t: State) requires s.Sized() {
    && s.lock == Some(Interrupt) && s.usedSeen != s.usedIdx
    && var id := s.used[Slot(s, s.usedSeen)];
       && id < s.Num() && s.status[id] == 0 && s.infoB[id].Some? && s.infoB[id].value < |s.disk|
       && t == s.(disk := s.disk[s.infoB[id].value := false], usedSeen := Inc(s.usedSeen),
                  unseen := if s.unseen == [] then [] else s.unseen[1..])
  }

  ghost predicate IntrLeave(s: State, t: State) requires s.Sized() {
    s.lock == Some(Interrupt) && s.usedSeen == s.usedIdx && t == s.(lock := None)
  }

  // ---------- the device ----------

  ghost predicate DevTake(s: State, t: State) requires s.Sized() {
    && s.devIdx != s.availIdx
    && t == s.(devIdx := Inc(s.devIdx), busy := s.busy + {s.avail[Slot(s, s.devIdx)]},
               pending := if s.pending == [] then [] else s.pending[1..])
  }

  /** The status byte and the used ring's entry are written, then used->idx. */
  ghost predicate DevDone(s: State, t: State, h: nat) requires s.Sized() {
    && h in s.busy && s.devPut == None && h < s.Num()
    && t == s.(busy := s.busy - {h}, devPut := Some(h), status := s.status[h := 0], used :=
        s.used[Slot(s, s.usedIdx) := h])
  }

  ghost predicate DevBump(s: State, t: State) requires s.Sized() {
    && s.devPut.Some?
    && t == s.(usedIdx := Inc(s.usedIdx), devPut := None, unseen := s.unseen + [s.devPut.value])
  }

  // ---------- what every step keeps ----------

  /** Descriptor i belongs to this driver. */
  predicate Holds(pc: Pc, i: nat) {
    pc.Busy? &&
    var k := if pc.phase.Freeing? then pc.phase.k else 0;
    (k <= 0 && i == pc.t.i0) || (k <= 1 && i == pc.t.i1) || (k <= 2 && i == pc.t.i2)
  }

  predicate TripleOk(t: Triple, n: nat)
      { t.i0 < n && t.i1 < n && t.i2 < n && t.i0 != t.i1 && t.i0 != t.i2 && t.i1 != t.i2 }

  /** Descriptors are free, or belong to one driver. */
  ghost predicate OwnOk(s: State) requires s.Sized() {
    && (forall i {:trigger s.own[i]} :: 0 <= i < s.Num() ==>
          (s.free[i] <==> s.own[i] == None)
              && (s.own[i].Some? ==> s.own[i].value < |s.pc| && Holds(s.pc[s.own[i].value], i)))
    && (forall p {:trigger s.pc[p]} :: 0 <= p < |s.pc| && s.pc[p].Busy? ==>
          && TripleOk(s.pc[p].t, s.Num())
          && (Holds(s.pc[p], s.pc[p].t.i0) ==> s.own[s.pc[p].t.i0] == Some(p))
          && (Holds(s.pc[p], s.pc[p].t.i1) ==> s.own[s.pc[p].t.i1] == Some(p))
          && (Holds(s.pc[p], s.pc[p].t.i2) ==> s.own[s.pc[p].t.i2] == Some(p)))
  }

  /** The descriptors that are still to be freed, or read by the device, are linked as they should be. */
  predicate LinksOk(desc: seq<Desc>, pc: Pc) {
    pc.Busy? && TripleOk(pc.t, |desc|) ==>
      match pc.phase
      case Format => true
      case Freeing(k) =>
        && k <= 2 && (k <= 0 ==> desc[pc.t.i0].chained && desc[pc.t.i0].next == pc.t.i1)
        && (k <= 1 ==> desc[pc.t.i1].chained && desc[pc.t.i1].next == pc.t.i2) && !desc[pc.t.i2].chained
      case _ => IsChain(desc, pc.t.i0, pc.t.i1, pc.t.i2)
  }

  predicate InFlight(s: State, h: nat) {
    h in s.pending || h in s.busy || s.devPut == Some(h) || h in s.unseen
  }

  /** The driver has submitted the chain, and may wait for it. */
  predicate Waiting(pc: Pc) { pc.Busy? && (pc.phase == Test || pc.phase == Asleep) }

  predicate Submitting(pc: Pc) { pc.Busy? && (pc.phase == Put || pc.phase == Bump) }

  /** The driver's chain is linked, its buffer exists, and info[].b is that buffer. */
  predicate ChainOk(s: State, p: nat) requires s.Sized() {
    p < |s.pc|
    && LinksOk(s.desc, s.pc[p]) && (!s.pc[p].Outside? ==> s.pc[p].b < |s.disk|)
    && (Submitting(s.pc[p]) || Waiting(s.pc[p]) ==> s.pc[p].t.i0 < s.Num() && s.infoB[s.pc[p].t.i0] == Some(s.pc[p].b))
  }

  ghost predicate ChainsOk(s: State) requires s.Sized() {
    forall p: nat {:trigger ChainOk(s, p)} {:trigger s.pc[p]} :: p < |s.pc| ==> ChainOk(s, p)
  }

  /** No two drivers have one buffer: its sleep-lock. */
  ghost predicate BufsOk(s: State) {
    forall p, q {:trigger s.pc[p], s.pc[q]} :: 0 <= p < q < |s.pc| && !s.pc[p].Outside? && !s.pc[q].Outside? ==>
        s.pc[p].b != s.pc[q].b
  }

  /** A head in flight is that of a chain whose driver waits; once completed its status is 0. */
  ghost predicate FlightOk(s: State) requires s.Sized() {
    forall h: nat {:trigger InFlight(s, h)} :: InFlight(s, h) ==>
      && h < s.Num() && s.own[h].Some? && s.own[h].value < |s.pc|
      && Waiting(s.pc[s.own[h].value]) && s.pc[s.own[h].value].t.i0 == h
      && (s.devPut == Some(h) || h in s.unseen ==> s.status[h] == 0)
  }

  /** b->disk is 1 exactly while the chain is being submitted or in flight. */
  predicate FlagOk(s: State, p: nat) {
    p < |s.pc| && s.pc[p].Busy? && s.pc[p].b < |s.disk| ==>
      && (Submitting(s.pc[p]) ==> s.disk[s.pc[p].b])
      && (Waiting(s.pc[p]) ==> (s.disk[s.pc[p].b] <==> InFlight(s, s.pc[p].t.i0)))
  }

  ghost predicate FlagsOk(s: State) requires s.Sized() {
    forall p: nat {:trigger FlagOk(s, p)} {:trigger s.pc[p]} :: p < |s.pc| ==> FlagOk(s, p)
  }

  ghost predicate Nodup(q: seq<nat>) { forall i, j {:trigger q[i], q[j]} :: 0 <= i < j < |q| ==> q[i] != q[j] }

  /** A head is in one place at a time. */
  ghost predicate OncesOk(s: State) {
    && Nodup(s.pending) && Nodup(s.unseen)
    && (forall h :: h in s.pending ==> h !in s.busy && s.devPut != Some(h) && h !in s.unseen)
    && (forall h :: h in s.busy ==> s.devPut != Some(h) && h !in s.unseen)
    && (s.devPut.Some? ==> s.devPut.value !in s.unseen)
  }

  /** The rings hold what history says, and the wrapping indices are as far apart as there are entries. */
  ghost predicate RingsOk(s: State) requires s.Sized() {
    && s.availIdx == (s.devIdx + |s.pending|) % WRAP
    && (forall k {:trigger s.pending[k]} :: 0 <= k < |s.pending| ==> s.avail[Slot(s, s.devIdx + k)] == s.pending[k])
    && s.usedIdx == (s.usedSeen + |s.unseen|) % WRAP
    && (forall k {:trigger s.unseen[k]} :: 0 <= k < |s.unseen| ==> s.used[Slot(s, s.usedSeen + k)] == s.unseen[k])
    && (s.devPut.Some? ==> s.used[Slot(s, s.usedIdx)] == s.devPut.value)
    && (forall p {:trigger s.pc[p]} :: 0 <= p < |s.pc| && s.pc[p].Busy? && s.pc[p].phase == Bump ==>
          s.avail[Slot(s, s.availIdx)] == s.pc[p].t.i0)
  }

  predicate Locked(pc: Pc) { pc.Alloc? || (pc.Busy? && pc.phase != Asleep) }

  ghost predicate LockOk(s: State) {
    forall p {:trigger s.pc[p]} :: 0 <= p < |s.pc| ==> (s.lock == Some(Driver(p)) <==> Locked(s.pc[p]))
  }

  ghost predicate Inv(s: State) {
    s.Sized() && OwnOk(s) && ChainsOk(s) && BufsOk(s) && FlightOk(s) && FlagsOk(s) && OncesOk(s) && RingsOk(s)
        && LockOk(s)
  }

  // ---------- steps ----------

  /** A driver's steps that neither take nor give back descriptors. */
  ghost predicate DriverStep(s: State, t: State, p: nat, b: nat) requires s.Sized() {
    || Enter(s, t, p, b) || NotAllocated(s, t, p) || TryAgain(s, t, p) || PutRing(s, t, p) || WaitTest(s, t, p)
    || Woken(s, t, p) || Cleared(s, t, p)
  }

  ghost predicate IntrStep(s: State, t: State) requires s.Sized() { IntrEnter(s, t) || IntrLeave(s, t) }

  datatype Event =
    | Driving(p: nat, b: nat) | Allocating(p: nat, idx: seq<nat>) | Formatting(p: nat, x: Desc, y: Desc, z: Desc)
    | Bumping(p: nat) | FreeingOne(p: nat, k: nat) | Interrupting | Handling | Taking | Completing(h: nat) | Reporting

  ghost predicate Next(s: State, t: State, e: Event) requires s.Sized() {
    match e
    case Driving(p, b) => DriverStep(s, t, p, b)
    case Allocating(p, idx) => Allocated(s, t, p, idx)
    case Formatting(p, x, y, z) => Formatted(s, t, p, x, y, z)
    case Bumping(p) => BumpIdx(s, t, p)
    case FreeingOne(p, k) => FreeOne(s, t, p, k)
    case Interrupting => IntrStep(s, t)
    case Handling => IntrHandle(s, t)
    case Taking => DevTake(s, t)
    case Completing(h) => DevDone(s, t, h)
    case Reporting => DevBump(s, t)
  }

  ghost predicate Init(s: State) {
    && s.Sized() && s.availIdx == s.usedIdx == s.usedSeen == s.devIdx && s.lock == None
    && s.busy == {} && s.devPut == None && s.pending == [] && s.unseen == []
    && (forall i :: 0 <= i < s.Num() ==> s.free[i] && s.own[i] == None && s.infoB[i] == None)
    && (forall p :: 0 <= p < |s.pc| ==> s.pc[p] == Outside)
  }

  ghost predicate IsRun(tr: seq<State>, es: seq<Event>) {
    && |tr| == |es| + 1 && Init(tr[0])
    && forall i :: 0 <= i < |es| ==> tr[i].Sized() && Next(tr[i], tr[i + 1], es[i])
  }

  // ---------- descriptors keep their owners ----------

  lemma OwnSame(s: State, t: State)
    requires s.Sized() && OwnOk(s) && t.Sized() && t.Num() == s.Num() && t.own == s.own && t.free == s.free
        && |t.pc| == |s.pc|
    requires forall q {:trigger t.pc[q]} :: 0 <= q < |s.pc| ==>
               && (t.pc[q].Busy? ==> s.pc[q].Busy? && t.pc[q].t == s.pc[q].t)
               && forall i: nat {:trigger Holds(t.pc[q], i)} :: Holds(t.pc[q], i) <==> Holds(s.pc[q], i)
    ensures OwnOk(t)
  {
    hide Holds, TripleOk;
  }

  lemma DriverOwn(s: State, t: State, p: nat, b: nat)
    requires s.Sized() && OwnOk(s) && DriverStep(s, t, p, b)
    ensures t.Sized() && OwnOk(t)
  {
    hide OwnOk;
    OwnSame(s, t);
  }

  lemma AllocatedOwn(s: State, t: State, p: nat, idx: seq<nat>)
    requires s.Sized() && OwnOk(s) && Allocated(s, t, p, idx)
    ensures t.Sized() && OwnOk(t)
  {
    assert idx[0] < idx[1] < idx[2] && s.free[idx[0]] && s.free[idx[1]] && s.free[idx[2]];
    assert forall j :: j in idx <==> j == idx[0] || j == idx[1] || j == idx[2];
    OwnTaken(s, t, p, idx[0], idx[1], idx[2]);
  }

  lemma OwnTaken(s: State, t: State, p: nat, i0: nat, i1: nat, i2: nat)
    requires s.Sized() && OwnOk(s) && t.Sized() && t.Num() == s.Num() && TripleOk(Triple(i0, i1, i2), s.Num())
    requires p < |s.pc| == |t.pc| && !s.pc[p].Busy? && t.pc == s.pc[p := t.pc[p]] && t.pc[p].Busy?
    requires t.pc[p].t == Triple(i0, i1, i2) && t.pc[p].phase == Format
    requires s.free[i0] && s.free[i1] && s.free[i2] && t.own == s.own[i0 := Some(p)][i1 := Some(p)][i2 := Some(p)]
    requires forall j :: 0 <= j < s.Num() ==> t.free[j] == (s.free[j] && j != i0 && j != i1 && j != i2)
    ensures OwnOk(t)
  {
  }

  lemma FreedOwn(s: State, t: State, p: nat, k: nat)
    requires s.Sized() && OwnOk(s) && ChainsOk(s) && FreeOne(s, t, p, k)
    ensures t.Sized() && OwnOk(t)
  {
    assert LinksOk(s.desc, s.pc[p]) && k <= 2;
    var i := Nth(s.pc[p].t, k);
    assert Holds(s.pc[p], i) && s.own[i] == Some(p);
    OwnFreed(s, t, p, k);
  }

  lemma OwnFreed(s: State, t: State, p: nat, k: nat)
    requires s.Sized() && OwnOk(s) && t.Sized() && t.Num() == s.Num() && At(s, p, Freeing(k)) && k <= 2
    requires var i := Nth(s.pc[p].t, k);
             i < s.Num() && s.own[i] == Some(p) && t.own == s.own[i := None] && t.free == s.free[i := true]
    requires t.pc == Goto(s, p, Freeing(k + 1)) || (k == 2 && t.pc == s.pc[p := Outside])
    ensures OwnOk(t)
  {
  }

  lemma OtherOwn(s: State, t: State, e: Event)
    requires s.Sized() && OwnOk(s) && Next(s, t, e) && !e.Driving? && !e.Allocating? && !e.FreeingOne?
    ensures t.Sized() && OwnOk(t)
  {
    hide OwnOk;
    OwnSame(s, t);
  }

  // ---------- chains, buffers and the lock ----------

  /** Two drivers that both still have it have different descriptors. */
  lemma OwnApart(s: State, p: nat, q: nat, i: nat)
    requires s.Sized() && OwnOk(s) && p < |s.pc| && q < |s.pc| && Holds(s.pc[p], i) && Holds(s.pc[q], i)
    ensures p == q
  {
  }

  /** The chain of a driver that wrote no descriptor and no info of its own is as it was. */
  lemma ChainStays(s: State, t: State, q: nat)
    requires s.Sized() && OwnOk(s) && ChainOk(s, q) && t.Sized() && t.Num() == s.Num() && |t.disk| == |s.disk|
    requires q < |s.pc| == |t.pc| && t.pc[q] == s.pc[q]
    requires forall i: nat {:trigger t.desc[i]} {:trigger t.infoB[i]} :: i < s.Num() && Holds(s.pc[q], i) ==>
               t.desc[i] == s.desc[i] && t.infoB[i] == s.infoB[i]
    ensures ChainOk(t, q)
  {
    if s.pc[q].Busy? {
      var c := s.pc[q].t;
      var x, y, z := t.desc[c.i0], t.desc[c.i1], t.desc[c.i2];
    }
  }

  lemma DriverChains(s: State, t: State, p: nat, b: nat)
    requires s.Sized() && OwnOk(s) && ChainsOk(s) && DriverStep(s, t, p, b)
    ensures t.Sized() && ChainsOk(t)
  {
    hide ChainOk, OwnOk;
    forall q: nat | q < |t.pc| ensures ChainOk(t, q) {
      if q != p { DriverElse(s, t, p, b, q); } else { DriverSelf(s, t, p, b); }
    }
  }

  lemma DriverElse(s: State, t: State, p: nat, b: nat, q: nat)
    requires s.Sized() && OwnOk(s) && ChainsOk(s) && DriverStep(s, t, p, b) && q < |s.pc| && q != p
    ensures t.Sized() && ChainOk(t, q)
  {
    hide ChainOk, LinksOk, Divides, Short;
    if Cleared(s, t, p) && Holds(s.pc[q], s.pc[p].t.i0) { OwnApart(s, p, q, s.pc[p].t.i0); }
    forall i: nat | i < s.Num() && Holds(s.pc[q], i) ensures t.desc[i] == s.desc[i] && t.infoB[i] == s.infoB[i] {
      var o := s.own[s.pc[q].t.i0];
      assert !s.free[i];
    }
    ChainStays(s, t, q);
  }

  lemma DriverSelf(s: State, t: State, p: nat, b: nat)
    requires s.Sized() && ChainsOk(s) && DriverStep(s, t, p, b)
    ensures t.Sized() && ChainOk(t, p)
  {
    hide OwnOk, ChainsOk, Divides;
    OneChain(s, p);
  }

  lemma OneChain(s: State, p: nat)
    requires s.Sized() && ChainsOk(s) && p < |s.pc|
    ensures ChainOk(s, p)
  {
    hide ChainOk;
  }

  lemma AllocatedChains(s: State, t: State, p: nat, idx: seq<nat>)
    requires s.Sized() && ChainsOk(s) && Allocated(s, t, p, idx)
    ensures t.Sized() && ChainsOk(t)
  {
    hide IsChain;
  }

  lemma FormattedChains(s: State, t: State, p: nat, x: Desc, y: Desc, z: Desc)
    requires s.Sized() && OwnOk(s) && ChainsOk(s) && Formatted(s, t, p, x, y, z)
    ensures t.Sized() && ChainsOk(t)
  {
    hide ChainOk, OwnOk;
    BusyTriple(s, p);
    forall q: nat | q < |t.pc| ensures ChainOk(t, q) {
      if q != p {
        assert ChainOk(s, q);
        FormattedElse(s, t, p, q, x, y, z);
      } else {
        FormattedSelf(s, t, p, x, y, z);
      }
    }
  }

  lemma BusyTriple(s: State, p: nat)
    requires s.Sized() && OwnOk(s) && p < |s.pc| && s.pc[p].Busy?
    ensures TripleOk(s.pc[p].t, s.Num())
    ensures Holds(s.pc[p], s.pc[p].t.i0) ==> s.own[s.pc[p].t.i0] == Some(p)
  {
  }

  lemma FormattedSelf(s: State, t: State, p: nat, x: Desc, y: Desc, z: Desc)
    requires s.Sized() && Formatted(s, t, p, x, y, z) && TripleOk(s.pc[p].t, s.Num())
    ensures t.Sized() && ChainOk(t, p)
  {
  }

  lemma FormattedElse(s: State, t: State, p: nat, q: nat, x: Desc, y: Desc, z: Desc)
    requires s.Sized() && OwnOk(s) && ChainOk(s, q) && Formatted(s, t, p, x, y, z) && q != p
        && TripleOk(s.pc[p].t, s.Num())
    ensures t.Sized() && ChainOk(t, q)
  {
    hide ChainOk, OwnOk;
    assert q < |s.pc| by { assert ChainOk(s, q); InRange(s, q); }
    forall i: nat | i < s.Num() && Holds(s.pc[q], i) ensures t.desc[i] == s.desc[i] && t.infoB[i] == s.infoB[i] {
      if Holds(s.pc[p], i) { OwnApart(s, p, q, i); }
    }
    ChainStays(s, t, q);
  }

  lemma InRange(s: State, q: nat)
    requires s.Sized() && ChainOk(s, q)
    ensures q < |s.pc|
  {
  }

  lemma FreedChains(s: State, t: State, p: nat, k: nat)
    requires s.Sized() && OwnOk(s) && ChainsOk(s) && FreeOne(s, t, p, k)
    ensures t.Sized() && ChainsOk(t)
  {
    hide ChainOk, OwnOk;
    BusyTriple(s, p);
    assert ChainOk(s, p);
    FreeingBound(s, p, k);
    forall q: nat | q < |t.pc| ensures ChainOk(t, q) {
      if q != p {
        assert ChainOk(s, q);
        FreedElse(s, t, p, k, q);
      } else {
        FreedSelf(s, t, p, k);
      }
    }
  }

  lemma FreeingBound(s: State, p: nat, k: nat)
    requires s.Sized() && ChainOk(s, p) && At(s, p, Freeing(k)) && TripleOk(s.pc[p].t, s.Num())
    ensures k <= 2 && Holds(s.pc[p], Nth(s.pc[p].t, k)) && (s.desc[Nth(s.pc[p].t, k)].chained <==> k < 2)
  {
  }

  lemma FreedElse(s: State, t: State, p: nat, k: nat, q: nat)
    requires s.Sized() && OwnOk(s) && ChainOk(s, q) && FreeOne(s, t, p, k) && q != p
        && Holds(s.pc[p], Nth(s.pc[p].t, k))
    ensures t.Sized() && ChainOk(t, q)
  {
    hide ChainOk, OwnOk;
    InRange(s, q);
    if Holds(s.pc[q], Nth(s.pc[p].t, k)) { OwnApart(s, p, q, Nth(s.pc[p].t, k)); }
    ChainStays(s, t, q);
  }

  lemma FreedSelf(s: State, t: State, p: nat, k: nat)
    requires s.Sized() && ChainOk(s, p) && FreeOne(s, t, p, k) && TripleOk(s.pc[p].t, s.Num()) && k <= 2
    ensures t.Sized() && ChainOk(t, p)
  {
  }

  lemma OtherChains(s: State, t: State, e: Event)
    requires s.Sized() && ChainsOk(s) && Next(s, t, e)
        && (e.Bumping? || e.Interrupting? || e.Handling? || e.Taking? || e.Completing? || e.Reporting?)
    ensures t.Sized() && ChainsOk(t)
  {
    hide IsChain;
  }

  lemma DriverBufs(s: State, t: State, p: nat, b: nat)
    requires s.Sized() && BufsOk(s) && LockOk(s) && DriverStep(s, t, p, b)
    ensures t.Sized() && BufsOk(t) && LockOk(t)
  {
    hide Short, Divides;
  }

  lemma AllocatedBufs(s: State, t: State, p: nat, idx: seq<nat>)
    requires s.Sized() && BufsOk(s) && LockOk(s) && Allocated(s, t, p, idx)
    ensures t.Sized() && BufsOk(t) && LockOk(t)
  {
  }

  lemma BusyBufs(s: State, t: State, p: nat, k: nat, x: Desc, y: Desc, z: Desc)
    requires s.Sized() && BufsOk(s) && LockOk(s)
    requires Formatted(s, t, p, x, y, z) || BumpIdx(s, t, p) || FreeOne(s, t, p, k)
    ensures t.Sized() && BufsOk(t) && LockOk(t)
  {
  }

  lemma IntrBufs(s: State, t: State)
    requires s.Sized() && BufsOk(s) && LockOk(s) && (IntrStep(s, t) || IntrHandle(s, t))
    ensures t.Sized() && BufsOk(t) && LockOk(t)
  {
  }

  lemma DevBufs(s: State, t: State, h: nat)
    requires s.Sized() && BufsOk(s) && LockOk(s) && (DevTake(s, t) || DevDone(s, t, h) || DevBump(s, t))
    ensures t.Sized() && BufsOk(t) && LockOk(t)
  {
  }

  // ---------- what is in flight ----------

  /** A head's driver waits, and its status is 0 once it is completed. */
  predicate HeadOk(s: State, h: nat) requires s.Sized() {
    && h < s.Num() && s.own[h].Some? && s.own[h].value < |s.pc|
    && Waiting(s.pc[s.own[h].value]) && s.pc[s.own[h].value].t.i0 == h
    && (s.devPut == Some(h) || h in s.unseen ==> s.status[h] == 0)
  }

  /** The driver of a head. */
  lemma DriverOf(s: State, p: nat)
    requires s.Sized() && OwnOk(s) && p < |s.pc| && s.pc[p].Busy? && !s.pc[p].phase.Freeing?
    ensures s.pc[p].t.i0 < s.Num() && s.own[s.pc[p].t.i0] == Some(p)
  {
  }

  /** Steps that leave the flight as it is and let waiting drivers wait. */
  lemma FlightSame(s: State, t: State)
    requires s.Sized() && FlightOk(s) && t.Sized() && t.Num() == s.Num() && |t.pc| == |s.pc|
    requires t.pending == s.pending && t.busy == s.busy && t.devPut == s.devPut && t.unseen == s.unseen
    requires forall h: nat {:trigger InFlight(s, h)} :: h < s.Num() && InFlight(s, h) && HeadOk(s, h) ==>
               t.own[h] == s.own[h] && t.status[h] == s.status[h]
               && Waiting(t.pc[s.own[h].value]) && t.pc[s.own[h].value].t == s.pc[s.own[h].value].t
    ensures FlightOk(t)
  {
    forall h: nat | InFlight(t, h) ensures HeadOk(t, h) { assert InFlight(s, h); }
  }

  /** Not in flight: a head whose driver does not wait. */
  lemma NotInFlight(s: State, p: nat)
    requires s.Sized() && OwnOk(s) && FlightOk(s) && p < |s.pc| && s.pc[p].Busy? && !s.pc[p].phase.Freeing?
        && !Waiting(s.pc[p])
    ensures !InFlight(s, s.pc[p].t.i0)
  {
    DriverOf(s, p);
  }

  /** A driver that is not waiting can go where it likes. */
  lemma DriverFlight(s: State, t: State, p: nat, b: nat)
    requires s.Sized() && FlightOk(s) && FlagsOk(s) && ChainsOk(s) && DriverStep(s, t, p, b)
    ensures t.Sized() && FlightOk(t)
  {
    hide OwnOk, LinksOk, Short, FlightOk;
    assert p < |s.pc|;
    if At(s, p, Test) && s.pc[p].b < |s.disk| && !s.disk[s.pc[p].b] { assert !InFlight(s, s.pc[p].t.i0); }
    forall h: nat | h < s.Num() && InFlight(s, h) && HeadOk(s, h)
      ensures Waiting(t.pc[s.own[h].value]) && t.pc[s.own[h].value].t == s.pc[s.own[h].value].t
    {
    }
    FlightSame(s, t);
  }

  lemma AllocatedFlight(s: State, t: State, p: nat, idx: seq<nat>)
    requires s.Sized() && OwnOk(s) && FlightOk(s) && Allocated(s, t, p, idx)
    ensures t.Sized() && FlightOk(t)
  {
    hide LinksOk, Taken, FlightOk;
    assert s.free[idx[0]] && s.free[idx[1]] && s.free[idx[2]];
    assert s.own[idx[0]] == None && s.own[idx[1]] == None && s.own[idx[2]] == None;
    FlightSame(s, t);
  }

  lemma FormattedFlight(s: State, t: State, p: nat, x: Desc, y: Desc, z: Desc)
    requires s.Sized() && OwnOk(s) && FlightOk(s) && Formatted(s, t, p, x, y, z)
    ensures t.Sized() && FlightOk(t)
  {
    hide FlightOk, OwnOk;
    NotInFlight(s, p);
    FlightSame(s, t);
  }

  lemma FreedFlight(s: State, t: State, p: nat, k: nat)
    requires s.Sized() && OwnOk(s) && ChainsOk(s) && FlightOk(s) && FreeOne(s, t, p, k)
    ensures t.Sized() && FlightOk(t)
  {
    hide FlightOk, OwnOk, ChainOk;
    BusyTriple(s, p);
    assert ChainOk(s, p);
    FreeingBound(s, p, k);
    Owned(s, p, Nth(s.pc[p].t, k));
    FlightSame(s, t);
  }

  lemma Owned(s: State, p: nat, i: nat)
    requires s.Sized() && OwnOk(s) && p < |s.pc| && Holds(s.pc[p], i)
    ensures i < s.Num() && s.own[i] == Some(p)
  {
  }

  lemma BumpedFlight(s: State, t: State, p: nat)
    requires s.Sized() && OwnOk(s) && FlightOk(s) && BumpIdx(s, t, p)
    ensures t.Sized() && FlightOk(t)
  {
    hide FlightOk, OwnOk;
    NotInFlight(s, p);
    DriverOf(s, p);
    var h0 := s.pc[p].t.i0;
    forall h: nat | InFlight(t, h) ensures HeadOk(t, h) {
      if h != h0 {
        assert InFlight(s, h);
        HeadIs(s, h);
      }
    }
    FlightIf(t);
  }

  lemma HeadIs(s: State, h: nat)
    requires s.Sized() && FlightOk(s) && InFlight(s, h)
    ensures HeadOk(s, h)
  {
  }

  lemma FlightIf(s: State)
    requires s.Sized() && forall h: nat {:trigger InFlight(s, h)} :: InFlight(s, h) ==> HeadOk(s, h)
    ensures FlightOk(s)
  {
    forall h: nat | InFlight(s, h) ensures HeadOk(s, h) { }
  }

  /** The device and the interrupt handler move heads on, one place at a time. */
  lemma MovedFlight(s: State, t: State)
    requires s.Sized() && FlightOk(s) && t.Sized() && t.Num() == s.Num() && t.own == s.own && t.pc == s.pc
    requires forall h: nat {:trigger InFlight(t, h)} :: InFlight(t, h) ==> InFlight(s, h)
    requires forall h: nat {:trigger InFlight(t, h)} :: h < s.Num() && (t.devPut == Some(h) || h in t.unseen) ==>
               t.status[h] == 0 || ((s.devPut == Some(h) || h in s.unseen) && t.status[h] == s.status[h])
    ensures FlightOk(t)
  {
    hide FlightOk;
    forall h: nat | InFlight(t, h) ensures HeadOk(t, h) { HeadIs(s, h); }
    FlightIf(t);
  }

  // ---------- how much can be in flight ----------

  /** The descriptors of the chains with the given heads. */
  ghost function ChainOf(s: State, h: nat): set<nat> requires s.Sized() {
    if h < s.Num() && s.own[h].Some? && s.own[h].value < |s.pc| && s.pc[s.own[h].value].Busy? then
      var c := s.pc[s.own[h].value].t;
      {c.i0, c.i1, c.i2}
    else {}
  }

  lemma ChainOwned(s: State, h: nat)
    requires s.Sized() && OwnOk(s) && HeadOk(s, h)
    ensures |ChainOf(s, h)| == 3 && forall i :: i in ChainOf(s, h) ==> i < s.Num() && s.own[i] == s.own[h]
  {
    var p := s.own[h].value;
    var c := s.pc[p].t;
    assert Holds(s.pc[p], c.i0) && Holds(s.pc[p], c.i1) && Holds(s.pc[p], c.i2);
  }

  ghost function Union(s: State, hs: seq<nat>): set<nat> requires s.Sized() {
    if hs == [] then {} else Union(s, hs[..|hs| - 1]) + ChainOf(s, hs[|hs| - 1])
  }

  /** Descriptor i is owned by the driver of one of the heads. */
  ghost predicate FromHeads(s: State, hs: seq<nat>, i: nat) requires s.Sized() {
    i < s.Num() && s.own[i].Some? && exists h :: h in hs && h < s.Num() && s.own[h] == s.own[i]
  }

  /** Chains of different heads share no descriptor, so there are three descriptors for each head. */
  lemma {:induction false} ThreeEach(s: State, hs: seq<nat>)
    requires s.Sized() && OwnOk(s) && Nodup(hs) && forall h :: h in hs ==> HeadOk(s, h)
    ensures |Union(s, hs)| == 3 * |hs| && forall i :: i in Union(s, hs) ==> FromHeads(s, hs, i)
  {
    hide OwnOk, HeadOk, ChainOf, FromHeads;
    if hs != [] {
      var rest, h := hs[..|hs| - 1], hs[|hs| - 1];
      assert hs == rest + [h];
      ThreeEach(s, rest);
      ChainOwned(s, h);
      forall i | i in Union(s, rest) ensures i !in ChainOf(s, h) && FromHeads(s, hs, i) {
        OtherChain(s, rest, h, i);
      }
      forall i | i in ChainOf(s, h) ensures FromHeads(s, hs, i) { OwnChain(s, rest, h, i); }
      assert Union(s, rest) * ChainOf(s, h) == {};
    }
  }

  lemma OtherChain(s: State, rest: seq<nat>, h: nat, i: nat)
    requires s.Sized() && OwnOk(s) && Nodup(rest + [h]) && (forall g :: g in rest + [h] ==> HeadOk(s, g))
        && FromHeads(s, rest, i)
    ensures i !in ChainOf(s, h) && FromHeads(s, rest + [h], i)
  {
    hide OwnOk, HeadOk, ChainOf;
    var g :| g in rest && g < s.Num() && s.own[g] == s.own[i];
    assert g in rest + [h] && h in rest + [h];
    var k :| 0 <= k < |rest| && rest[k] == g;
    assert (rest + [h])[k] != (rest + [h])[|rest|];
    ChainOwned(s, h);
    OwnedHead(s, h);
    if s.own[i] == s.own[h] { SameHead(s, g, h); }
  }

  lemma OwnChain(s: State, rest: seq<nat>, h: nat, i: nat)
    requires s.Sized() && OwnOk(s) && HeadOk(s, h) && i in ChainOf(s, h)
    ensures FromHeads(s, rest + [h], i)
  {
    hide OwnOk, ChainOf;
    ChainOwned(s, h);
    assert h in rest + [h];
  }

  lemma OwnedHead(s: State, h: nat)
    requires s.Sized() && HeadOk(s, h)
    ensures h < s.Num() && s.own[h].Some?
  {
  }

  lemma SameHead(s: State, g: nat, h: nat)
    requires s.Sized() && HeadOk(s, g) && HeadOk(s, h) && s.own[g] == s.own[h]
    ensures g == h
  {
  }

  lemma {:induction false} BelowCount(x: set<nat>, n: nat)
    requires forall i :: i in x ==> i < n
    ensures |x| <= n
  {
    if n > 0 {
      BelowCount(x - {n - 1}, n - 1);
      assert n - 1 !in x ==> x - {n - 1} == x;
    } else {
      assert x == {};
    }
  }

  /** Any heads in flight, each once, have three descriptors each. */
  lemma AtMostThird(s: State, hs: seq<nat>)
    requires s.Sized() && OwnOk(s) && FlightOk(s) && Nodup(hs) && forall h :: h in hs ==> InFlight(s, h)
    ensures 3 * |hs| <= s.Num()
  {
    hide OwnOk, FlightOk, InFlight, HeadOk;
    forall h | h in hs ensures HeadOk(s, h) { HeadIs(s, h); }
    ThreeEach(s, hs);
    BelowCount(Union(s, hs), s.Num());
  }

  lemma QueuesShort(s: State)
    requires s.Sized() && OwnOk(s) && FlightOk(s) && OncesOk(s)
    ensures 3 * |s.pending| <= s.Num() && 3 * |s.unseen| <= s.Num()
    ensures s.devPut.Some? ==> |s.unseen| + 1 < s.Num()
  {
    hide OwnOk, FlightOk;
    AtMostThird(s, s.pending);
    AtMostThird(s, s.unseen);
    if s.devPut.Some? {
      var hs := s.unseen + [s.devPut.value];
      forall i, j | 0 <= i < j < |hs| ensures hs[i] != hs[j] { if j == |s.unseen| { assert s.unseen[i] in s.unseen; } }
      AtMostThird(s, hs);
    }
  }

  // ---------- wrapping indices ----------

  lemma ModSum(a: nat, k: nat, n: nat)
    requires Divides(n, WRAP)
    ensures ((a + k) % WRAP) % n == (a + k) % n
  {
    var x := a + k;
    var q, c := x / WRAP, WRAP / n;
    assert x == q * WRAP + x % WRAP && WRAP == c * n;
    assert q * WRAP == (q * c) * n by { assert q * (c * n) == (q * c) * n; }
    ModAdd(x % WRAP, q * c, n);
  }

  lemma ModAdd(x: nat, q: nat, n: nat)
    requires n > 0
    ensures (q * n + x) % n == x % n
  {
    var y := q * n + x;
    assert y == y / n * n + y % n && x == x / n * n + x % n;
    var d := y / n - q - x / n;
    assert d * n == x % n - y % n;
    if d > 0 { Times(1, d, n); } else if d < 0 { Times(1, -d, n); }
  }

  /** Slots of indices less than NUM apart are different. */
  lemma SlotsApart(a: nat, b: nat, n: nat)
    requires n > 0 && a < b < a + n
    ensures a % n != b % n
  {
    assert a == a / n * n + a % n && b == b / n * n + b % n;
    var d := b / n - a / n;
    if a % n == b % n {
      assert d * n == b - a;
      if d <= 0 { Times(d, 0, n); } else { Times(1, d, n); }
    }
  }

  /** Two 16-bit indices are equal exactly if nothing lies between them, as long as that is less than 2^16. */
  lemma IndexTest(a: nat, k: nat)
    requires a < WRAP && k < WRAP
    ensures (a + k) % WRAP == a <==> k == 0
  {
  }

  // ---------- rings, flags and places ----------

  /** What the rings and indices hold, without the pcs. */
  ghost predicate QueuesOk(s: State) requires s.Sized() {
    && s.availIdx == (s.devIdx + |s.pending|) % WRAP
    && (forall k {:trigger s.pending[k]} :: 0 <= k < |s.pending| ==> s.avail[Slot(s, s.devIdx + k)] == s.pending[k])
    && s.usedIdx == (s.usedSeen + |s.unseen|) % WRAP
    && (forall k {:trigger s.unseen[k]} :: 0 <= k < |s.unseen| ==> s.used[Slot(s, s.usedSeen + k)] == s.unseen[k])
    && (s.devPut.Some? ==> s.used[Slot(s, s.usedIdx)] == s.devPut.value)
  }

  ghost predicate BumpOk(s: State) requires s.Sized() {
    forall p {:trigger s.pc[p]} :: 0 <= p < |s.pc| && s.pc[p].Busy? && s.pc[p].phase == Bump ==>
      s.avail[Slot(s, s.availIdx)] == s.pc[p].t.i0
  }

  lemma RingsParts(s: State)
    requires s.Sized()
    ensures RingsOk(s) <==> QueuesOk(s) && BumpOk(s)
  {
  }

  /** The slot avail->idx names holds no head that the device has yet to take. */
  lemma AvailSlotFree(s: State, k: nat)
    requires s.Sized() && QueuesOk(s) && k < |s.pending| && 3 * |s.pending| <= s.Num()
    ensures Slot(s, s.devIdx + k) != Slot(s, s.availIdx)
  {
    ModSum(s.devIdx, |s.pending|, s.Num());
    SlotsApart(s.devIdx + k, s.devIdx + |s.pending|, s.Num());
  }

  lemma UsedSlotFree(s: State, k: nat)
    requires s.Sized() && QueuesOk(s) && k < |s.unseen| && 3 * |s.unseen| <= s.Num()
    ensures Slot(s, s.usedSeen + k) != Slot(s, s.usedIdx)
  {
    ModSum(s.usedSeen, |s.unseen|, s.Num());
    SlotsApart(s.usedSeen + k, s.usedSeen + |s.unseen|, s.Num());
  }

  lemma PutQueues(s: State, t: State, p: nat)
    requires s.Sized() && QueuesOk(s) && 3 * |s.pending| <= s.Num() && PutRing(s, t, p)
    ensures t.Sized() && QueuesOk(t)
  {
    hide Slot;
    forall k | 0 <= k < |s.pending| ensures t.avail[Slot(t, t.devIdx + k)] == t.pending[k] {
      AvailSlotFree(s, k);
      SlotSame(s, t, s.devIdx + k);
    }
    forall k | 0 <= k < |s.unseen| ensures t.used[Slot(t, t.usedSeen + k)] == t.unseen[k]
        { SlotSame(s, t, s.usedSeen + k); }
    SlotSame(s, t, s.usedIdx);
  }

  lemma SlotSame(s: State, t: State, x: nat)
    requires s.Sized() && t.Sized() && t.Num() == s.Num()
    ensures Slot(t, x) == Slot(s, x)
  {
  }

  lemma IncSum(a: nat, k: nat)
    ensures Inc((a + k) % WRAP) == (a + k + 1) % WRAP && (Inc(a) + k) % WRAP == (a + 1 + k) % WRAP
  {
  }

  lemma SlotInc(s: State, a: nat, k: nat)
    requires s.Sized() && a < WRAP
    ensures Slot(s, Inc(a) + k) == Slot(s, a + 1 + k)
  {
    var n := s.Num();
    if a + 1 == WRAP {
      var c := WRAP / n;
      assert WRAP == c * n by { assert WRAP == c * n + WRAP % n; }
      ModAdd(k, c, n);
      assert a + 1 + k == c * n + k;
    }
  }

  lemma BumpedQueues(s: State, t: State, p: nat)
    requires s.Sized() && QueuesOk(s) && BumpOk(s) && BumpIdx(s, t, p)
    ensures t.Sized() && QueuesOk(t)
  {
    hide Slot;
    IncSum(s.devIdx, |s.pending|);
    IndexSlot(s, s.devIdx, |s.pending|);
    forall k | 0 <= k < |t.pending| ensures t.avail[Slot(t, t.devIdx + k)] == t.pending[k]
        { SlotSame(s, t, s.devIdx + k); }
    forall k | 0 <= k < |s.unseen| ensures t.used[Slot(t, t.usedSeen + k)] == t.unseen[k]
        { SlotSame(s, t, s.usedSeen + k); }
    SlotSame(s, t, s.usedIdx);
  }

  lemma IndexSlot(s: State, a: nat, k: nat)
    requires s.Sized()
    ensures Slot(s, (a + k) % WRAP) == Slot(s, a + k)
  {
    ModSum(a, k, s.Num());
  }

  /** The device finds the first pending head where it looks. */
  lemma TakenHead(s: State)
    requires s.Sized() && QueuesOk(s) && 3 * |s.pending| <= s.Num() && s.Num() <= WRAP
    ensures s.devIdx != s.availIdx <==> s.pending != []
    ensures s.pending != [] ==> s.avail[Slot(s, s.devIdx)] == s.pending[0]
  {
    IndexTest(s.devIdx, |s.pending|);
    if s.pending != [] { assert s.avail[Slot(s, s.devIdx + 0)] == s.pending[0]; }
  }

  lemma SeenHead(s: State)
    requires s.Sized() && QueuesOk(s) && 3 * |s.unseen| <= s.Num() && s.Num() <= WRAP
    ensures s.usedSeen != s.usedIdx <==> s.unseen != []
    ensures s.unseen != [] ==> s.used[Slot(s, s.usedSeen)] == s.unseen[0]
  {
    IndexTest(s.usedSeen, |s.unseen|);
    if s.unseen != [] { assert s.used[Slot(s, s.usedSeen + 0)] == s.unseen[0]; }
  }

  lemma NumFits(s: State)
    requires s.Sized()
    ensures s.Num() <= WRAP
  {
    if s.Num() > WRAP { assert WRAP % s.Num() == WRAP by { DivModSmall(WRAP, s.Num()); } }
  }

  lemma DivModSmall(a: nat, n: nat)
    requires a < n
    ensures a % n == a
  {
  }

  lemma TakenQueues(s: State, t: State)
    requires s.Sized() && QueuesOk(s) && s.pending != [] && DevTake(s, t)
    ensures t.Sized() && QueuesOk(t)
  {
    hide Slot, Divides;
    IncSum(s.devIdx, |s.pending| - 1);
    forall k | 0 <= k < |t.pending| ensures t.avail[Slot(t, t.devIdx + k)] == t.pending[k] {
      SlotSame(s, t, t.devIdx + k);
      SlotInc(s, s.devIdx, k);
      assert t.pending[k] == s.pending[k + 1];
      assert s.devIdx + (k + 1) == s.devIdx + 1 + k;
    }
    forall k | 0 <= k < |s.unseen| ensures t.used[Slot(t, t.usedSeen + k)] == t.unseen[k]
        { SlotSame(s, t, s.usedSeen + k); }
    SlotSame(s, t, s.usedIdx);
  }

  lemma HandledQueues(s: State, t: State)
    requires s.Sized() && QueuesOk(s) && s.unseen != [] && IntrHandle(s, t)
    ensures t.Sized() && QueuesOk(t)
  {
    hide Slot, Divides;
    IncSum(s.usedSeen, |s.unseen| - 1);
    forall k | 0 <= k < |t.unseen| ensures t.used[Slot(t, t.usedSeen + k)] == t.unseen[k] {
      SlotSame(s, t, t.usedSeen + k);
      SlotInc(s, s.usedSeen, k);
      assert t.unseen[k] == s.unseen[k + 1];
      assert s.usedSeen + (k + 1) == s.usedSeen + 1 + k;
    }
    forall k | 0 <= k < |s.pending| ensures t.avail[Slot(t, t.devIdx + k)] == t.pending[k]
        { SlotSame(s, t, s.devIdx + k); }
    SlotSame(s, t, s.usedIdx);
  }

  lemma DoneQueues(s: State, t: State, h: nat)
    requires s.Sized() && QueuesOk(s) && 3 * |s.unseen| <= s.Num() && DevDone(s, t, h)
    ensures t.Sized() && QueuesOk(t)
  {
    hide Slot;
    forall k | 0 <= k < |s.unseen| ensures t.used[Slot(t, t.usedSeen + k)] == t.unseen[k] {
      UsedSlotFree(s, k);
      SlotSame(s, t, s.usedSeen + k);
    }
    forall k | 0 <= k < |s.pending| ensures t.avail[Slot(t, t.devIdx + k)] == t.pending[k]
        { SlotSame(s, t, s.devIdx + k); }
    SlotSame(s, t, s.usedIdx);
  }

  lemma ReportedQueues(s: State, t: State)
    requires s.Sized() && QueuesOk(s) && DevBump(s, t)
    ensures t.Sized() && QueuesOk(t)
  {
    hide Slot;
    IncSum(s.usedSeen, |s.unseen|);
    IndexSlot(s, s.usedSeen, |s.unseen|);
    forall k | 0 <= k < |t.unseen| ensures t.used[Slot(t, t.usedSeen + k)] == t.unseen[k]
        { SlotSame(s, t, s.usedSeen + k); }
    forall k | 0 <= k < |s.pending| ensures t.avail[Slot(t, t.devIdx + k)] == t.pending[k]
        { SlotSame(s, t, s.devIdx + k); }
  }

  /** All other steps leave rings and indices alone. */
  lemma OtherQueues(s: State, t: State)
    requires s.Sized() && QueuesOk(s) && t.Sized() && t.Num() == s.Num()
    requires t.avail == s.avail && t.used == s.used && t.availIdx == s.availIdx && t.devIdx == s.devIdx
    requires t.usedIdx == s.usedIdx && t.usedSeen == s.usedSeen && t.pending == s.pending && t.unseen == s.unseen
        && t.devPut == s.devPut
    ensures QueuesOk(t)
  {
    hide Slot;
    forall k | 0 <= k < |s.unseen| ensures t.used[Slot(t, t.usedSeen + k)] == t.unseen[k]
        { SlotSame(s, t, s.usedSeen + k); }
    forall k | 0 <= k < |s.pending| ensures t.avail[Slot(t, t.devIdx + k)] == t.pending[k]
        { SlotSame(s, t, s.devIdx + k); }
    SlotSame(s, t, s.usedIdx);
  }

  lemma OneBumps(s: State, p: nat, q: nat)
    requires LockOk(s) && p < |s.pc| && q < |s.pc| && Locked(s.pc[p]) && Locked(s.pc[q])
    ensures p == q
  {
  }

  lemma DriverBump(s: State, t: State, p: nat, b: nat)
    requires s.Sized() && BumpOk(s) && LockOk(s) && DriverStep(s, t, p, b)
    ensures t.Sized() && BumpOk(t)
  {
    hide LockOk, Slot, Short;
    forall q {:trigger t.pc[q]} | 0 <= q < |t.pc| && t.pc[q].Busy? && t.pc[q].phase == Bump
      ensures t.avail[Slot(t, t.availIdx)] == t.pc[q].t.i0
    {
      SlotSame(s, t, s.availIdx);
      if PutRing(s, t, p) && q != p { OneBumps(s, p, q); }
    }
  }

  lemma BumpedBump(s: State, t: State, p: nat)
    requires s.Sized() && BumpOk(s) && LockOk(s) && BumpIdx(s, t, p)
    ensures t.Sized() && BumpOk(t)
  {
    hide Slot;
    forall q {:trigger t.pc[q]} | 0 <= q < |t.pc| && q != p ensures !At(t, q, Bump) {
      if At(s, q, Bump) { OneBumps(s, p, q); }
    }
  }

  lemma OtherBump(s: State, t: State)
    requires s.Sized() && BumpOk(s) && t.Sized() && t.Num() == s.Num() && t.avail == s.avail
        && t.availIdx == s.availIdx && |t.pc| == |s.pc|
    requires forall q {:trigger t.pc[q]} :: 0 <= q < |t.pc| && t.pc[q].Busy? && t.pc[q].phase == Bump ==>
        t.pc[q] == s.pc[q]
    ensures BumpOk(t)
  {
    hide Slot;
    SlotSame(s, t, s.availIdx);
  }

  // ---------- b->disk ----------

  lemma FlagOf(s: State, p: nat)
    requires s.Sized() && FlagsOk(s) && p < |s.pc|
    ensures FlagOk(s, p)
  {
  }

  lemma FlagsIf(s: State)
    requires s.Sized() && forall p: nat {:trigger FlagOk(s, p)} :: p < |s.pc| ==> FlagOk(s, p)
    ensures FlagsOk(s)
  {
    hide FlagOk;
  }

  lemma DriverFlags(s: State, t: State, p: nat, b: nat)
    requires s.Sized() && FlagsOk(s) && DriverStep(s, t, p, b)
    ensures t.Sized() && FlagsOk(t)
  {
    hide FlagsOk, InFlight, Short;
    SameFlight(s, t);
    forall q: nat | q < |t.pc| ensures FlagOk(t, q) { FlagOf(s, q); }
    FlagsIf(t);
  }

  lemma SameFlight(s: State, t: State)
    ensures t.pending == s.pending && t.busy == s.busy && t.devPut == s.devPut && t.unseen == s.unseen ==>
              forall h: nat :: InFlight(t, h) <==> InFlight(s, h)
  {
  }

  lemma AllocatedFlags(s: State, t: State, p: nat, idx: seq<nat>)
    requires s.Sized() && FlagsOk(s) && Allocated(s, t, p, idx)
    ensures t.Sized() && FlagsOk(t)
  {
    hide FlagsOk, InFlight;
    SameFlight(s, t);
    forall q: nat | q < |t.pc| ensures FlagOk(t, q) { FlagOf(s, q); }
    FlagsIf(t);
  }

  lemma BufApart(s: State, p: nat, q: nat)
    requires BufsOk(s) && p < |s.pc| && q < |s.pc| && p != q && !s.pc[p].Outside? && !s.pc[q].Outside?
    ensures s.pc[p].b != s.pc[q].b
  {
    if p < q { assert s.pc[p].b != s.pc[q].b; } else { assert s.pc[q].b != s.pc[p].b; }
  }

  lemma FormattedFlags(s: State, t: State, p: nat, x: Desc, y: Desc, z: Desc)
    requires s.Sized() && FlagsOk(s) && BufsOk(s) && Formatted(s, t, p, x, y, z)
    ensures t.Sized() && FlagsOk(t)
  {
    hide FlagsOk, InFlight, BufsOk;
    SameFlight(s, t);
    forall q: nat | q < |t.pc| ensures FlagOk(t, q) {
      FlagOf(s, q);
      if q != p && s.pc[q].Busy? { BufApart(s, p, q); }
    }
    FlagsIf(t);
  }

  lemma FreedFlags(s: State, t: State, p: nat, k: nat)
    requires s.Sized() && FlagsOk(s) && FreeOne(s, t, p, k)
    ensures t.Sized() && FlagsOk(t)
  {
    hide FlagsOk, InFlight;
    SameFlight(s, t);
    forall q: nat | q < |t.pc| ensures FlagOk(t, q) { FlagOf(s, q); }
    FlagsIf(t);
  }

  /** Two drivers before free_chain() have different heads. */
  lemma HeadsApart(s: State, p: nat, q: nat)
    requires s.Sized() && OwnOk(s) && p < |s.pc| && q < |s.pc| && p != q && s.pc[p].Busy? && s.pc[q].Busy?
    requires !s.pc[p].phase.Freeing? && !s.pc[q].phase.Freeing?
    ensures s.pc[p].t.i0 != s.pc[q].t.i0
  {
    DriverOf(s, p);
    DriverOf(s, q);
  }

  lemma BumpedFlags(s: State, t: State, p: nat)
    requires s.Sized() && OwnOk(s) && FlagsOk(s) && BumpIdx(s, t, p)
    ensures t.Sized() && FlagsOk(t)
  {
    hide FlagsOk, OwnOk;
    forall q: nat | q < |t.pc| ensures FlagOk(t, q) {
      FlagOf(s, q);
      if q != p && Waiting(s.pc[q]) { HeadsApart(s, p, q); }
    }
    FlagsIf(t);
  }

  lemma IntrFlags(s: State, t: State)
    requires s.Sized() && FlagsOk(s) && t.Sized() && t.pc == s.pc && t.disk == s.disk
    requires forall h: nat :: InFlight(t, h) <==> InFlight(s, h)
    ensures FlagsOk(t)
  {
    hide FlagsOk, InFlight;
    forall q: nat | q < |t.pc| ensures FlagOk(t, q) { FlagOf(s, q); }
    FlagsIf(t);
  }

  /** The interrupt clears the flag of the driver whose chain it is, which is in flight no more. */
  lemma HandledFlags(s: State, t: State)
    requires s.Sized() && OwnOk(s) && ChainsOk(s) && BufsOk(s) && FlightOk(s) && FlagsOk(s) && OncesOk(s)
    requires IntrHandle(s, t) && s.unseen != [] && s.used[Slot(s, s.usedSeen)] == s.unseen[0]
    ensures t.Sized() && FlagsOk(t)
  {
    hide FlagsOk, OwnOk, ChainsOk, BufsOk, FlightOk;
    var id := s.unseen[0];
    assert InFlight(s, id);
    HeadIs(s, id);
    var p := s.own[id].value;
    Submitter(s, id);
    HandledFlight(s, t);
    forall q: nat | q < |t.pc| ensures FlagOk(t, q) {
      FlagOf(s, q);
      if q != p && s.pc[q].Busy? {
        BufApart(s, p, q);
        if Waiting(s.pc[q]) { HeadsApart(s, p, q); }
      }
    }
    FlagsIf(t);
  }

  /** info[].b of a head in flight is the buffer of the driver that submitted it. */
  lemma Submitter(s: State, id: nat)
    requires s.Sized() && ChainsOk(s) && HeadOk(s, id)
    ensures var p := s.own[id].value; s.infoB[id] == Some(s.pc[p].b) && s.pc[p].b < |s.disk|
  {
    hide LinksOk;
    assert ChainOk(s, s.own[id].value);
  }

  lemma HandledFlight(s: State, t: State)
    requires s.Sized() && OncesOk(s) && IntrHandle(s, t) && s.unseen != []
    ensures forall h: nat :: InFlight(t, h) <==> InFlight(s, h) && h != s.unseen[0]
    ensures forall h :: h in t.unseen ==> h in s.unseen
  {
    assert s.unseen == [s.unseen[0]] + s.unseen[1..];
    forall h | h in s.unseen[1..] ensures h != s.unseen[0] {
      var k :| 0 <= k < |s.unseen| - 1 && s.unseen[1..][k] == h;
      assert s.unseen[k + 1] == h;
    }
  }

  // ---------- one place at a time ----------

  lemma TakenOnces(s: State, t: State)
    requires s.Sized() && OncesOk(s) && DevTake(s, t) && s.pending != [] && s.avail[Slot(s, s.devIdx)] == s.pending[0]
    ensures t.Sized() && OncesOk(t) && forall h: nat :: InFlight(t, h) <==> InFlight(s, h)
  {
    var x := s.pending[0];
    assert s.pending == [x] + s.pending[1..];
    forall h | h in s.pending[1..] ensures h != x {
      var k :| 0 <= k < |s.pending| - 1 && s.pending[1..][k] == h;
      assert s.pending[k + 1] == h;
    }
    forall i, j | 0 <= i < j < |t.pending| ensures t.pending[i] != t.pending[j]
        { assert s.pending[i + 1] != s.pending[j + 1]; }
  }

  lemma DoneOnces(s: State, t: State, h: nat)
    requires s.Sized() && OncesOk(s) && DevDone(s, t, h)
    ensures t.Sized() && OncesOk(t) && forall g: nat :: InFlight(t, g) <==> InFlight(s, g)
  {
  }

  lemma ReportedOnces(s: State, t: State)
    requires s.Sized() && OncesOk(s) && DevBump(s, t)
    ensures t.Sized() && OncesOk(t) && forall g: nat :: InFlight(t, g) <==> InFlight(s, g)
  {
    var x := s.devPut.value;
    forall i, j | 0 <= i < j < |t.unseen| ensures t.unseen[i] != t.unseen[j] {
      if j == |s.unseen| { assert s.unseen[i] in s.unseen; }
    }
  }

  lemma BumpedOnces(s: State, t: State, p: nat)
    requires s.Sized() && OncesOk(s) && BumpIdx(s, t, p) && !InFlight(s, s.pc[p].t.i0)
    ensures t.Sized() && OncesOk(t)
  {
    forall i, j | 0 <= i < j < |t.pending| ensures t.pending[i] != t.pending[j] {
      if j == |s.pending| { assert s.pending[i] in s.pending; }
    }
  }

  lemma HandledOnces(s: State, t: State)
    requires s.Sized() && OncesOk(s) && IntrHandle(s, t) && s.unseen != []
    ensures t.Sized() && OncesOk(t)
  {
    HandledFlight(s, t);
    forall i, j | 0 <= i < j < |t.unseen| ensures t.unseen[i] != t.unseen[j]
        { assert s.unseen[i + 1] != s.unseen[j + 1]; }
  }

  // ---------- whole runs ----------

  lemma InitInv(s: State)
    requires Init(s)
    ensures Inv(s)
  {
    forall h: nat ensures !InFlight(s, h) { }
  }

  lemma DriverInv(s: State, t: State, p: nat, b: nat)
    requires Inv(s) && DriverStep(s, t, p, b)
    ensures Inv(t)
  {
    hide OwnOk, ChainsOk, BufsOk, LockOk, FlightOk, FlagsOk, OncesOk, RingsOk, QueuesOk, BumpOk, Short, BufOf;
    RingsParts(s);
    DriverOwn(s, t, p, b); DriverChains(s, t, p, b); DriverBufs(s, t, p, b); DriverFlight(s, t, p, b); DriverFlags(s,
        t, p, b);
    DriverBump(s, t, p, b);
    SameOnces(s, t);
    if PutRing(s, t, p) {
      QueuesShort(s);
      PutQueues(s, t, p);
    } else {
      OtherQueues(s, t);
    }
    RingsParts(t);
  }

  lemma SameOnces(s: State, t: State)
    requires OncesOk(s) && t.pending == s.pending && t.busy == s.busy && t.devPut == s.devPut && t.unseen == s.unseen
    ensures OncesOk(t)
  {
  }

  lemma ChainInv(s: State, t: State, e: Event)
    requires Inv(s) && Next(s, t, e) && (e.Allocating? || e.Formatting? || e.FreeingOne?)
    ensures Inv(t)
  {
    hide OwnOk, ChainsOk, BufsOk, LockOk, FlightOk, FlagsOk, OncesOk, RingsOk, QueuesOk, BumpOk, Lowest, Taken;
    RingsParts(s);
    match e {
      case Allocating(p, idx) =>
        AllocatedOwn(s, t, p, idx); AllocatedChains(s, t, p, idx); AllocatedBufs(s, t, p, idx);
        AllocatedFlight(s, t, p, idx); AllocatedFlags(s, t, p, idx);
      case Formatting(p, x, y, z) =>
        OtherOwn(s, t, e); FormattedChains(s, t, p, x, y, z); BusyBufs(s, t, p, 0, x, y, z);
        FormattedFlight(s, t, p, x, y, z); FormattedFlags(s, t, p, x, y, z);
      case FreeingOne(p, k) =>
        FreedOwn(s, t, p, k); FreedChains(s, t, p, k); BusyBufs(s, t, p, k, CLEARED, CLEARED, CLEARED);
        FreedFlight(s, t, p, k); FreedFlags(s, t, p, k);
    }
    SameOnces(s, t);
    OtherBump(s, t);
    OtherQueues(s, t);
    RingsParts(t);
  }

  lemma BumpInv(s: State, t: State, p: nat)
    requires Inv(s) && BumpIdx(s, t, p)
    ensures Inv(t)
  {
    hide OwnOk, ChainsOk, BufsOk, LockOk, FlightOk, FlagsOk, OncesOk, RingsOk, QueuesOk, BumpOk, InFlight;
    RingsParts(s);
    OtherOwn(s, t, Bumping(p)); OtherChains(s, t, Bumping(p)); BusyBufs(s, t, p, 0, CLEARED, CLEARED, CLEARED);
    BumpedFlight(s, t, p); BumpedFlags(s, t, p);
    NotInFlight(s, p);
    BumpedOnces(s, t, p);
    BumpedBump(s, t, p); BumpedQueues(s, t, p);
    RingsParts(t);
  }

  lemma HandleInv(s: State, t: State)
    requires Inv(s) && IntrHandle(s, t)
    ensures Inv(t)
  {
    hide OwnOk, ChainsOk, BufsOk, LockOk, FlightOk, FlagsOk, OncesOk, RingsOk, QueuesOk, BumpOk;
    RingsParts(s);
    QueuesShort(s);
    NumFits(s);
    SeenHead(s);
    OtherOwn(s, t, Handling); OtherChains(s, t, Handling); IntrBufs(s, t);
    HandledFlight(s, t);
    MovedFlight(s, t);
    HandledFlags(s, t); HandledOnces(s, t); HandledQueues(s, t);
    OtherBump(s, t);
    RingsParts(t);
  }

  lemma DeviceInv(s: State, t: State, e: Event)
    requires Inv(s) && Next(s, t, e) && (e.Taking? || e.Completing? || e.Reporting?)
    ensures Inv(t)
  {
    hide OwnOk, ChainsOk, BufsOk, LockOk, FlightOk, FlagsOk, OncesOk, RingsOk, QueuesOk, BumpOk;
    RingsParts(s);
    QueuesShort(s);
    NumFits(s);
    TakenHead(s);
    OtherOwn(s, t, e); OtherChains(s, t, e); DevBufs(s, t, if e.Completing? then e.h else 0);
    match e {
      case Taking => TakenOnces(s, t); TakenQueues(s, t);
      case Completing(h) => DoneOnces(s, t, h); DoneQueues(s, t, h);
      case Reporting => ReportedOnces(s, t); ReportedQueues(s, t);
    }
    MovedFlight(s, t);
    IntrFlags(s, t);
    OtherBump(s, t);
    RingsParts(t);
  }

  lemma IntrInv(s: State, t: State)
    requires Inv(s) && IntrStep(s, t)
    ensures Inv(t)
  {
    hide OwnOk, ChainsOk, BufsOk, LockOk, FlightOk, FlagsOk, OncesOk, RingsOk, QueuesOk, BumpOk;
    RingsParts(s);
    OtherOwn(s, t, Interrupting); OtherChains(s, t, Interrupting); IntrBufs(s, t);
    FlightSame(s, t);
    SameFlight(s, t);
    IntrFlags(s, t);
    SameOnces(s, t);
    OtherBump(s, t); OtherQueues(s, t);
    RingsParts(t);
  }

  lemma {:induction false} RunInv(tr: seq<State>, es: seq<Event>, i: nat)
    requires IsRun(tr, es) && i < |tr|
    ensures Inv(tr[i])
  {
    hide Inv, Init, DriverStep, Allocated, Formatted, BumpIdx, FreeOne, IntrStep, IntrHandle, DevTake, DevDone, DevBump;
    if i == 0 {
      InitInv(tr[0]);
    } else {
      RunInv(tr, es, i - 1);
      var s, t, e := tr[i - 1], tr[i], es[i - 1];
      match e {
        case Driving(p, b) => DriverInv(s, t, p, b);
        case Bumping(p) => BumpInv(s, t, p);
        case Interrupting => IntrInv(s, t);
        case Handling => HandleInv(s, t);
        case Allocating(_, _) => ChainInv(s, t, e);
        case Formatting(_, _, _, _) => ChainInv(s, t, e);
        case FreeingOne(_, _) => ChainInv(s, t, e);
        case Taking => DeviceInv(s, t, e);
        case Completing(_) => DeviceInv(s, t, e);
        case Reporting => DeviceInv(s, t, e);
      }
    }
  }

  /** Every head in flight leads the device through three descriptors that are linked, in use, and no other head's. */
  lemma ChainsInFlight(tr: seq<State>, es: seq<Event>, i: nat, h: nat, g: nat)
    requires IsRun(tr, es) && i < |tr| && InFlight(tr[i], h) && InFlight(tr[i], g)
    ensures tr[i].Sized() && h < tr[i].Num() && tr[i].own[h].Some? && tr[i].own[h].value < |tr[i].pc|
        && tr[i].pc[tr[i].own[h].value].Busy?
    ensures var c := tr[i].pc[tr[i].own[h].value].t; c.i0 == h && IsChain(tr[i].desc, h, c.i1, c.i2)
    ensures forall d :: d in ChainOf(tr[i], h) ==> d < tr[i].Num() && !tr[i].free[d]
    ensures h != g ==> ChainOf(tr[i], h) !! ChainOf(tr[i], g)
  {
    hide IsRun, OwnOk, BufsOk, FlagsOk, OncesOk, RingsOk, LockOk, FlightOk, ChainOf, InFlight;
    RunInv(tr, es, i);
    var s := tr[i];
    HeadIs(s, h);
    HeadIs(s, g);
    ChainOwned(s, h);
    ChainOwned(s, g);
    BusyTriple(s, s.own[h].value);
    assert ChainOk(s, s.own[h].value);
    forall d | d in ChainOf(s, h) ensures !s.free[d] { UsedIfOwned(s, d); }
    if h != g && s.own[h] == s.own[g] { SameHead(s, h, g); }
  }

  lemma UsedIfOwned(s: State, d: nat)
    requires s.Sized() && OwnOk(s) && d < s.Num() && s.own[d].Some?
    ensures !s.free[d]
  {
  }

  /** At most NUM / 3 chains are in flight. */
  lemma ThirdInFlight(tr: seq<State>, es: seq<Event>, i: nat, hs: seq<nat>)
    requires IsRun(tr, es) && i < |tr| && Nodup(hs) && forall h :: h in hs ==> InFlight(tr[i], h)
    ensures 3 * |hs| <= tr[i].Num()
  {
    hide IsRun, OwnOk, ChainsOk, BufsOk, FlagsOk, OncesOk, RingsOk, LockOk, FlightOk, InFlight;
    RunInv(tr, es, i);
    AtMostThird(tr[i], hs);
  }

  /**
   The slot written in the available ring holds no head the device has yet to take,
   and the device's test of the 16-bit indices tells rightly whether there is one, which it finds.
   */
  lemma AvailRingSafe(tr: seq<State>, es: seq<Event>, i: nat, k: nat)
    requires IsRun(tr, es) && i < |tr|
    ensures tr[i].Sized()
    ensures k < |tr[i].pending| ==>
              Slot(tr[i], tr[i].devIdx + k) != Slot(tr[i], tr[i].availIdx)
                  && tr[i].avail[Slot(tr[i], tr[i].devIdx + k)] == tr[i].pending[k]
    ensures tr[i].devIdx != tr[i].availIdx <==> tr[i].pending != []
  {
    hide IsRun, OwnOk, ChainsOk, BufsOk, FlagsOk, OncesOk, RingsOk, LockOk, FlightOk, Slot;
    RunInv(tr, es, i);
    RingsParts(tr[i]);
    QueuesShort(tr[i]);
    NumFits(tr[i]);
    TakenHead(tr[i]);
    if k < |tr[i].pending| { AvailSlotFree(tr[i], k); }
  }

  /** Each completion has status 0 and clears the buffer of the driver that submitted the chain, which waits for it. */
  lemma CompletionReachesSubmitter(tr: seq<State>, es: seq<Event>, i: nat)
    requires IsRun(tr, es) && i < |tr| && tr[i].Sized() && tr[i].usedSeen != tr[i].usedIdx
    ensures var id := tr[i].used[Slot(tr[i], tr[i].usedSeen)];
            && id < tr[i].Num() && tr[i].status[id] == 0
            && tr[i].own[id].Some? && tr[i].own[id].value < |tr[i].pc| && Waiting(tr[i].pc[tr[i].own[id].value])
            && tr[i].pc[tr[i].own[id].value].t.i0 == id
            && tr[i].infoB[id] == Some(tr[i].pc[tr[i].own[id].value].b)
            && tr[i].pc[tr[i].own[id].value].b < |tr[i].disk| && tr[i].disk[tr[i].pc[tr[i].own[id].value].b]
  {
    hide IsRun, OwnOk, ChainsOk, BufsOk, FlagsOk, OncesOk, RingsOk, LockOk, FlightOk, Slot;
    RunInv(tr, es, i);
    var s := tr[i];
    RingsParts(s);
    QueuesShort(s);
    NumFits(s);
    SeenHead(s);
    var id := s.unseen[0];
    assert InFlight(s, id);
    HeadIs(s, id);
    Submitter(s, id);
    FlagOf(s, s.own[id].value);
  }

  /** free_chain() never panics, and ends after freeing each of the three descriptors once. */
  lemma NoFreePanic(tr: seq<State>, es: seq<Event>, i: nat, p: nat, k: nat)
    requires IsRun(tr, es) && i < |tr| && At(tr[i], p, Freeing(k))
    ensures tr[i].Sized() && k <= 2
    ensures var d := Nth(tr[i].pc[p].t, k); d < tr[i].Num() && !tr[i].free[d] && (tr[i].desc[d].chained <==> k < 2)
  {
    hide IsRun, OwnOk, BufsOk, FlagsOk, OncesOk, RingsOk, LockOk, FlightOk, ChainOk;
    RunInv(tr, es, i);
    BusyTriple(tr[i], p);
    assert ChainOk(tr[i], p);
    FreeingBound(tr[i], p, k);
    Owned(tr[i], p, Nth(tr[i].pc[p].t, k));
    UsedIfOwned(tr[i], Nth(tr[i].pc[p].t, k));
  }
}
