/**
 Requests come to their end (virtio_disk.c): from every state that the interleavings
 of VirtioProtocol reach, the drivers, the device and the interrupt handler can go on
 until every request is done, in a bounded number of steps.
 */
module VirtioProgress {
  import opened Common
  import opened VirtioDescriptors
  import opened VirtioProtocol

  // ---------- the end of the wait ----------

  /** A waiting driver that tests b->disk goes on if its chain has come back, and sleeps if it has not. */
  lemma TestsRightly(tr: seq<State>, es: seq<Event>, i: nat, p: nat)
    requires IsRun(tr, es) && i < |es| && At(tr[i], p, Test)
    requires p < |tr[i + 1].pc| && tr[i + 1].pc[p] != tr[i].pc[p]
    ensures if InFlight(tr[i], tr[i].pc[p].t.i0) then At(tr[i + 1], p, Asleep) && tr[i + 1].lock == None
            else At(tr[i + 1], p, Clear)
  {
    hide IsRun, OwnOk, ChainsOk, BufsOk, FlightOk, OncesOk, RingsOk, LockOk, InFlight, Next, WaitTest;
    NextOf(tr, es, i);
    RunInv(tr, es, i);
    FlagOf(tr[i], p);
    OneChain(tr[i], p);
    InRange(tr[i], p);
    TestStep(tr[i], tr[i + 1], es[i], p);
    TestEnds(tr[i], tr[i + 1], p);
  }

  lemma NextOf(tr: seq<State>, es: seq<Event>, i: nat)
    requires IsRun(tr, es) && i < |es|
    ensures |tr| == |es| + 1 && tr[i].Sized() && Next(tr[i], tr[i + 1], es[i])
  {
    hide Next, Init;
  }

  /** Only its own test moves a driver on from there. */
  lemma TestStep(s: State, t: State, e: Event, p: nat)
    requires s.Sized() && Next(s, t, e) && At(s, p, Test) && p < |t.pc| && t.pc[p] != s.pc[p]
    ensures WaitTest(s, t, p)
  {
    if e.Driving? { assert p == e.p; }
  }

  lemma TestEnds(s: State, t: State, p: nat)
    requires s.Sized() && WaitTest(s, t, p) && s.pc[p].b < |s.disk|
    ensures if s.disk[s.pc[p].b] then At(t, p, Asleep) && t.lock == None else At(t, p, Clear)
  {
  }

  // ---------- how much is left to do ----------

  /** How far the chain of a head is from coming back. */
  function Stage(s: State, h: nat): (n: nat)
    ensures n <= 4 && (n > 0 <==> InFlight(s, h))
  {
    if h in s.pending then 4 else if h in s.busy then 3 else if s.devPut == Some(h) then 2
    else if h in s.unseen then 1 else 0
  }

  function Weight(s: State, p: nat): nat
    requires p < |s.pc|
  {
    match s.pc[p]
    case Outside => 0
    case Alloc(_) => if Short(s.free) then 17 else 15
    case NoDesc(_) => 16
    case Busy(_, t, phase) =>
      match phase
      case Format => 14
      case Put => 13
      case Bump => 12
      case Test => if Stage(s, t.i0) == 0 then 5 else 7 + Stage(s, t.i0)
      case Asleep => 6 + Stage(s, t.i0)
      case Clear => 4
      case Freeing(k) => if k <= 2 then 3 - k else 1
  }

  function Weights(s: State, n: nat): nat
    requires n <= |s.pc|
  {
    if n == 0 then 0 else Weights(s, n - 1) + Weight(s, n - 1)
  }

  /** What the interrupt handler has to do besides: to come for what is unseen, and to leave. */
  function Handler(s: State): nat { if (s.lock == Some(Interrupt)) == (s.unseen == []) then 1 else 0 }

  function Left(s: State): nat { 3 * Weights(s, |s.pc|) + Handler(s) }

  lemma {:induction false} LighterBy(s: State, t: State, p: nat, n: nat)
    requires |t.pc| == |s.pc| && n <= |s.pc| && p < |s.pc|
    requires forall q: nat {:trigger Weight(s, q)} :: q < |s.pc| ==> Weight(t, q) <= Weight(s, q)
    requires Weight(t, p) < Weight(s, p)
    ensures Weights(t, n) + (if p < n then 1 else 0) <= Weights(s, n)
  {
    hide Weight;
    if n > 0 {
      LighterBy(s, t, p, n - 1);
      assert Weight(t, n - 1) <= Weight(s, n - 1);
    }
  }

  /** A step after which one driver weighs less and none more. */
  lemma Lighter(s: State, t: State, p: nat)
    requires |t.pc| == |s.pc| && p < |s.pc| && Weight(t, p) < Weight(s, p)
    requires forall q: nat {:trigger Weight(s, q)} :: q < |s.pc| ==> Weight(t, q) <= Weight(s, q)
    ensures Left(t) < Left(s)
  {
    hide Weight;
    LighterBy(s, t, p, |s.pc|);
  }

  ghost predicate Nearer(s: State, t: State, e: Event) requires s.Sized() { Next(s, t, e) && Left(t) < Left(s) }

  // ---------- the holder of the lock ----------

  lemma OnlyHolder(s: State, p: nat, q: nat)
    requires LockOk(s) && s.lock == Some(Driver(p)) && q < |s.pc| && q != p
    ensures !Locked(s.pc[q])
  {
  }

  /** What the holder of the lock does, other than making its chain available, changes no other driver's weight. */
  lemma OthersAlike(s: State, t: State, p: nat)
    requires LockOk(s) && s.lock == Some(Driver(p)) && p < |s.pc| == |t.pc|
    requires t.pc == s.pc[p := t.pc[p]] && t.busy == s.busy && t.devPut == s.devPut && t.unseen == s.unseen
    requires forall q {:trigger s.pc[q]} :: 0 <= q < |s.pc| && q != p && s.pc[q].Busy? && s.pc[q].phase == Asleep ==>
               Stage(t, s.pc[q].t.i0) == Stage(s, s.pc[q].t.i0)
    ensures forall q: nat {:trigger Weight(s, q)} :: q < |s.pc| && q != p ==> Weight(t, q) == Weight(s, q)
  {
    hide Stage, LockOk;
    forall q: nat | q < |s.pc| && q != p ensures Weight(t, q) == Weight(s, q) { OnlyHolder(s, p, q); }
  }

  lemma ThreeLowest(free: seq<bool>) returns (idx: seq<nat>)
    requires !Short(free)
    ensures |idx| == 3 && Lowest(free, idx)
  {
    var i, j, k :| 0 <= i < j < k < |free| && free[i] && free[j] && free[k];
    idx := [];
    assert Taken(free, idx) == free;
    var x := OneMore(free, idx, i);
    idx := idx + [x];
    var y := OneMore(free, idx, j);
    idx := idx + [y];
    var z := OneMore(free, idx, k);
    idx := idx + [z];
  }

  /** Beyond those taken, a free descriptor i is left, or one below it. */
  lemma OneMore(free: seq<bool>, idx: seq<nat>, i: nat) returns (x: nat)
    requires Lowest(free, idx) && i < |free| && free[i] && i !in idx
    ensures x <= i && x !in idx && Lowest(free, idx + [x])
  {
    hide Lowest;
    x := FirstFree(Taken(free, idx), 0);
    assert Taken(free, idx)[i];
    LowestMore(free, idx);
  }

  lemma AllocGoes(s: State, p: nat) returns (t: State, e: Event)
    requires Inv(s) && s.lock == Some(Driver(p)) && p < |s.pc| && s.pc[p].Alloc?
    ensures Nearer(s, t, e)
  {
    hide OwnOk, ChainsOk, BufsOk, FlightOk, FlagsOk, OncesOk, RingsOk, LockOk, Stage;
    if Short(s.free) {
      t, e := s.(pc := s.pc[p := NoDesc(s.pc[p].b)], lock := None), Driving(p, 0);
      assert NotAllocated(s, t, p);
    } else {
      var idx := ThreeLowest(s.free);
      t, e := s.(pc := s.pc[p := Busy(s.pc[p].b, Triple(idx[0], idx[1], idx[2]), Format)],
                 free := Taken(s.free, idx), own := s.own[idx[0] := Some(p)][idx[1] := Some(p)][idx[2] := Some(p)]),
              Allocating(p, idx);
    }
    StagesSame(s, t);
    OthersAlike(s, t, p);
    Lighter(s, t, p);
  }

  lemma StagesSame(s: State, t: State)
    requires t.pending == s.pending && t.busy == s.busy && t.devPut == s.devPut && t.unseen == s.unseen
    ensures forall h: nat :: Stage(t, h) == Stage(s, h)
  {
  }

  /** Formatting the chain and making it available. */
  lemma SubmitGoes(s: State, p: nat) returns (t: State, e: Event)
    requires Inv(s) && s.lock == Some(Driver(p)) && p < |s.pc| && s.pc[p].Busy?
    requires s.pc[p].phase == Format || s.pc[p].phase == Put || s.pc[p].phase == Bump
    ensures Nearer(s, t, e)
  {
    hide OwnOk, ChainsOk, BufsOk, FlightOk, FlagsOk, OncesOk, RingsOk, LockOk, Stage;
    BusyTriple(s, p);
    OneChain(s, p);
    InRange(s, p);
    var c, b := s.pc[p].t, s.pc[p].b;
    if s.pc[p].phase == Format {
      var x, y, z := CLEARED.(chained := true, next := c.i1), CLEARED.(chained := true, next := c.i2), CLEARED;
      t := s.(pc := Goto(s, p, Put), desc := s.desc[c.i0 := x][c.i1 := y][c.i2 := z],
              status := s.status[c.i0 := 255], disk := s.disk[b := true], infoB := s.infoB[c.i0 := Some(b)]);
      e := Formatting(p, x, y, z);
    } else if s.pc[p].phase == Put {
      t, e := s.(pc := Goto(s, p, Bump), avail := s.avail[Slot(s, s.availIdx) := c.i0]), Driving(p, 0);
    } else {
      t := s.(pc := Goto(s, p, Test), availIdx := Inc(s.availIdx), pending := s.pending + [c.i0]);
      e := Bumping(p);
    }
    forall q {:trigger s.pc[q]} | 0 <= q < |s.pc| && q != p && s.pc[q].Busy? && s.pc[q].phase == Asleep
      ensures Stage(t, s.pc[q].t.i0) == Stage(s, s.pc[q].t.i0)
    {
      if s.pc[p].phase == Bump {
        HeadsApart(s, p, q);
        StageMore(s, t, c.i0, s.pc[q].t.i0);
      } else {
        StagesSame(s, t);
      }
    }
    OthersAlike(s, t, p);
    Lighter(s, t, p);
  }

  lemma StageMore(s: State, t: State, h: nat, g: nat)
    requires t.pending == s.pending + [h] && t.busy == s.busy && t.devPut == s.devPut && t.unseen == s.unseen && g != h
    ensures Stage(t, g) == Stage(s, g)
  {
  }

  /** The test of b->disk and what follows it. */
  lemma FinishGoes(s: State, p: nat) returns (t: State, e: Event)
    requires Inv(s) && s.lock == Some(Driver(p)) && p < |s.pc| && s.pc[p].Busy?
    requires s.pc[p].phase == Test || s.pc[p].phase == Clear || s.pc[p].phase.Freeing?
    ensures Nearer(s, t, e)
  {
    hide OwnOk, ChainsOk, BufsOk, FlightOk, FlagsOk, OncesOk, RingsOk, LockOk, Stage;
    BusyTriple(s, p);
    OneChain(s, p);
    InRange(s, p);
    var c, b := s.pc[p].t, s.pc[p].b;
    if s.pc[p].phase == Test {
      FlagOf(s, p);
      t := if s.disk[b] then s.(pc := Goto(s, p, Asleep), lock := None) else s.(pc := Goto(s, p, Clear));
      e := Driving(p, 0);
      assert WaitTest(s, t, p);
    } else if s.pc[p].phase == Clear {
      t, e := s.(pc := Goto(s, p, Freeing(0)), infoB := s.infoB[c.i0 := None]), Driving(p, 0);
      assert Cleared(s, t, p);
    } else {
      var k := s.pc[p].phase.k;
      FreeingBound(s, p, k);
      Owned(s, p, Nth(c, k));
      UsedIfOwned(s, Nth(c, k));
      var i := Nth(c, k);
      t := s.(desc := s.desc[i := CLEARED], free := s.free[i := true], own := s.own[i := None],
              pc := if s.desc[i].chained then Goto(s, p, Freeing(k + 1)) else s.pc[p := Outside],
              lock := if s.desc[i].chained then s.lock else None);
      e := FreeingOne(p, k);
    }
    StagesSame(s, t);
    OthersAlike(s, t, p);
    Lighter(s, t, p);
  }

  // ---------- chains on their way ----------

  /** A head that has moved on makes the driver that waits for it lighter. */
  lemma HeadMoved(s: State, t: State, h: nat)
    requires s.Sized() && FlightOk(s) && InFlight(s, h) && t.pc == s.pc && t.free == s.free
    requires Stage(t, h) < Stage(s, h) && forall g: nat :: g != h ==> Stage(t, g) == Stage(s, g)
    ensures 3 * Weights(t, |t.pc|) + 3 <= 3 * Weights(s, |s.pc|)
  {
    hide Stage, FlightOk;
    HeadIs(s, h);
    LighterBy(s, t, s.own[h].value, |s.pc|);
  }

  lemma DeviceGoes(s: State) returns (t: State, e: Event)
    requires Inv(s) && (s.devPut.Some? || s.busy != {} || s.pending != [])
    ensures Nearer(s, t, e)
  {
    hide OwnOk, ChainsOk, BufsOk, FlightOk, FlagsOk, RingsOk, LockOk, Weights;
    var h: nat;
    if s.devPut.Some? {
      h := s.devPut.value;
      t, e := s.(usedIdx := Inc(s.usedIdx), devPut := None, unseen := s.unseen + [h]), Reporting;
    } else if s.busy != {} {
      h :| h in s.busy;
      assert InFlight(s, h);
      HeadIs(s, h);
      t := s.(busy := s.busy - {h}, devPut := Some(h), status := s.status[h := 0],
              used := s.used[Slot(s, s.usedIdx) := h]);
      e := Completing(h);
    } else {
      RingsParts(s);
      QueuesShort(s);
      NumFits(s);
      TakenHead(s);
      h := s.pending[0];
      t := s.(devIdx := Inc(s.devIdx), busy := s.busy + {s.avail[Slot(s, s.devIdx)]}, pending := s.pending[1..]);
      e := Taking;
    }
    assert InFlight(s, h);
    HeadMoved(s, t, h);
  }

  lemma HandlerGoes(s: State) returns (t: State, e: Event)
    requires Inv(s) && (s.lock == Some(Interrupt) || (s.lock == None && s.unseen != []))
    ensures Nearer(s, t, e)
  {
    hide OwnOk, ChainsOk, BufsOk, FlightOk, FlagsOk, RingsOk, LockOk, Weights;
    RingsParts(s);
    QueuesShort(s);
    NumFits(s);
    SeenHead(s);
    if s.lock == None {
      t, e := s.(lock := Some(Interrupt)), Interrupting;
      StagesSame(s, t);
      SameWeights(s, t, |s.pc|);
    } else if s.unseen == [] {
      t, e := s.(lock := None), Interrupting;
      StagesSame(s, t);
      SameWeights(s, t, |s.pc|);
    } else {
      var h := s.unseen[0];
      assert InFlight(s, h);
      HeadIs(s, h);
      Submitter(s, h);
      t := s.(disk := s.disk[s.infoB[h].value := false], usedSeen := Inc(s.usedSeen), unseen := s.unseen[1..]);
      e := Handling;
      HeadMoved(s, t, h);
    }
  }

  lemma {:induction false} SameWeights(s: State, t: State, n: nat)
    requires n <= |s.pc| && t.pc == s.pc && t.free == s.free && forall h: nat :: Stage(t, h) == Stage(s, h)
    ensures Weights(t, n) == Weights(s, n)
  {
    hide Stage;
    if n > 0 { SameWeights(s, t, n - 1); }
  }

  // ---------- when the lock is free ----------

  /** With nothing in flight and the lock free, a sleeper wakes up to find its chain back, or three descriptors free. */
  lemma SleeperGoes(s: State, p: nat) returns (t: State, e: Event)
    requires Inv(s) && s.lock == None && s.Num() >= 3
    requires s.devPut == None && s.busy == {} && s.pending == [] && s.unseen == []
    requires p < |s.pc| && s.pc[p] != Outside && (s.pc[p].Busy? || forall q :: 0 <= q < |s.pc| ==> !s.pc[q].Busy?)
    ensures Nearer(s, t, e)
  {
    hide ChainsOk, BufsOk, FlightOk, FlagsOk, OncesOk, RingsOk;
    assert !Locked(s.pc[p]);
    if s.pc[p].Busy? {
      t := s.(pc := Goto(s, p, Test), lock := Some(Driver(p)));
      assert Woken(s, t, p);
    } else {
      forall i | 0 <= i < s.Num() ensures s.free[i] { var o := s.own[i]; }
      NotShort(s.free);
      t := s.(pc := s.pc[p := Alloc(s.pc[p].b)], lock := Some(Driver(p)));
      assert TryAgain(s, t, p);
    }
    e := Driving(p, 0);
    StagesSame(s, t);
    forall q: nat | q < |s.pc| ensures Weight(t, q) <= Weight(s, q) { assert q != p ==> t.pc[q] == s.pc[q]; }
    Lighter(s, t, p);
  }

  lemma NotShort(free: seq<bool>)
    requires |free| >= 3 && forall i :: 0 <= i < |free| ==> free[i]
    ensures !Short(free)
  {
    assert free[0] && free[1] && free[2];
  }

  // ---------- every request can come to its end ----------

  ghost predicate Quiet(s: State) { s.lock == None && forall p :: 0 <= p < |s.pc| ==> s.pc[p] == Outside }

  /** The holder of the lock is a driver that there is. */
  lemma {:induction false} HolderIs(tr: seq<State>, es: seq<Event>, i: nat)
    requires IsRun(tr, es) && i < |tr|
    ensures tr[i].lock.Some? && tr[i].lock.value.Driver? ==> tr[i].lock.value.p < |tr[i].pc|
  {
    hide Next;
    if i > 0 {
      HolderIs(tr, es, i - 1);
      HolderStep(tr[i - 1], tr[i], es[i - 1]);
    }
  }

  lemma HolderStep(s: State, t: State, e: Event)
    requires s.Sized() && Next(s, t, e)
    ensures |t.pc| == |s.pc| && (t.lock == s.lock || t.lock == None || t.lock == Some(Interrupt)
                                 || (t.lock.value.Driver? && t.lock.value.p < |s.pc|))
  {
    hide LinksOk, Lowest, Short, Taken;
  }

  lemma NumIs(tr: seq<State>, es: seq<Event>, i: nat)
    requires IsRun(tr, es) && i < |tr|
    ensures tr[i].Sized()
  {
    hide IsRun;
    RunInv(tr, es, i);
  }

  /** Unless all is quiet, some step brings the end nearer. */
  lemma GoesOn(tr: seq<State>, es: seq<Event>, i: nat) returns (t: State, e: Event)
    requires IsRun(tr, es) && i < |tr| && tr[i].Num() >= 3 && !Quiet(tr[i])
    ensures tr[i].Sized() && Nearer(tr[i], t, e)
  {
    hide IsRun, OwnOk, ChainsOk, BufsOk, FlightOk, FlagsOk, OncesOk, RingsOk, Nearer;
    RunInv(tr, es, i);
    HolderIs(tr, es, i);
    var s := tr[i];
    if s.lock == Some(Interrupt) {
      t, e := HandlerGoes(s);
    } else if s.lock.Some? {
      var p := s.lock.value.p;
      assert Locked(s.pc[p]);
      if s.pc[p].Alloc? {
        t, e := AllocGoes(s, p);
      } else if s.pc[p].phase == Format || s.pc[p].phase == Put || s.pc[p].phase == Bump {
        t, e := SubmitGoes(s, p);
      } else {
        t, e := FinishGoes(s, p);
      }
    } else if s.devPut.Some? || s.busy != {} || s.pending != [] {
      t, e := DeviceGoes(s);
    } else if s.unseen != [] {
      t, e := HandlerGoes(s);
    } else {
      var p: nat :| p < |s.pc| && s.pc[p] != Outside;
      if q :| 0 <= q < |s.pc| && s.pc[q].Busy? { p := q; }
      t, e := SleeperGoes(s, p);
    }
  }

  lemma LongerRun(tr: seq<State>, es: seq<Event>, t: State, e: Event)
    requires IsRun(tr, es) && tr[|tr| - 1].Sized() && Next(tr[|tr| - 1], t, e)
    ensures IsRun(tr + [t], es + [e])
  {
    hide Next, Init;
    var us, fs := tr + [t], es + [e];
    forall i | 0 <= i < |fs| ensures us[i].Sized() && Next(us[i], us[i + 1], fs[i]) {
      if i < |es| { assert us[i] == tr[i] && us[i + 1] == tr[i + 1] && fs[i] == es[i]; }
    }
  }

  /** Any run goes on to a quiet state, in no more steps than there is left to do, and no driver need enter for it. */
  lemma {:induction false} Completes(tr: seq<State>, es: seq<Event>) returns (us: seq<State>, fs: seq<Event>)
    requires IsRun(tr, es) && tr[|tr| - 1].Num() >= 3
    ensures IsRun(us, fs) && |tr| <= |us| && us[..|tr|] == tr && fs[..|es|] == es
    ensures Quiet(us[|us| - 1]) && |us| - |tr| <= Left(tr[|tr| - 1])
    ensures forall i :: |es| <= i < |fs| ==> Left(us[i + 1]) < Left(us[i])
    decreases Left(tr[|tr| - 1])
  {
    hide Quiet, Next, Left, Init;
    us, fs := tr, es;
    if !Quiet(tr[|tr| - 1]) {
      var t, e := GoesOn(tr, es, |tr| - 1);
      LongerRun(tr, es, t, e);
      SameNum(tr[|tr| - 1], t, e);
      us, fs := Completes(tr + [t], es + [e]);
      forall i | |es| <= i < |fs| ensures Left(us[i + 1]) < Left(us[i]) {
        assert us[..|tr| + 1] == tr + [t];
        if i == |es| { assert us[i] == us[..|tr| + 1][i] && us[i + 1] == us[..|tr| + 1][i + 1]; }
      }
      assert us[..|tr|] == us[..|tr| + 1][..|tr|] && fs[..|es|] == fs[..|es| + 1][..|es|];
    }
  }

  lemma SameNum(s: State, t: State, e: Event)
    requires s.Sized() && Next(s, t, e)
    ensures t.Num() == s.Num()
  {
  }
}
