/**
 The semaphores of proc.c: sem_up() and sem_down() over sleep() and wakeup(), as
 an interleaving of the processes' steps.  A step takes or gives up at most one
 lock.  Every semaphore used is open, and stays open.

 The process table is kept field by field, as are the semaphores.  ups and downs
 are history: how often each semaphore was raised and lowered.
 */
module Semaphore {
  import opened Common

  datatype Life = SLEEPING | RUNNABLE | RUNNING

  /** p->chan: 0, the address of a semaphore, or any other address. */
  datatype Chan = Nowhere | On(m: nat) | Elsewhere

  datatype Pc =
    | User
      // sem_up(m): before acquire(), before value++, in wakeup()
    | UWant(m: nat) | UAdd(m: nat) | UWake(m: nat, j: nat)
      // sem_down(m): before acquire(), at the test of the loop, before value--, before release()
    | DWant(m: nat) | DTest(m: nat) | DTake(m: nat) | DOut(m: nat)
      // its sleep(s, &s->locked): before and after each lock operation
    | DSleep(m: nat) | DDrop(m: nat) | DMark(m: nat) | DGone(m: nat) | DAsleep(m: nat) | DBack(m: nat)

  datatype State = State(
    value: seq<int>, owner: seq<Option<nat>>, ups: seq<nat>, downs: seq<nat>,
    life: seq<Life>, chan: seq<Chan>, lock: seq<Option<nat>>, pc: seq<Pc>)
  {
    /** NPROC */
    function N(): nat { |pc| }

    /** NSEM */
    function M(): nat { |value| }

    predicate Sized() {
      |life| == |chan| == |lock| == |pc| && |owner| == |ups| == |downs| == |value|
    }
  }

  predicate At(s: State, p: nat, pc: Pc)
    requires s.Sized()
  {
    p < s.N() && s.life[p] == RUNNING && s.pc[p] == pc
  }

  predicate Unlocked(s: State, k: nat)
    requires s.Sized()
  {
    k < s.N() && s.lock[k] == None
  }

  // ---------- sem_up() ----------

  ghost predicate UpCall(s: State, t: State, p: nat, m: nat) requires s.Sized() {
    At(s, p, User) && m < s.M() && t == s.(pc := s.pc[p := UWant(m)])
  }

  ghost predicate UpLock(s: State, t: State, p: nat, m: nat) requires s.Sized() {
    && At(s, p, UWant(m)) && m < s.M() && s.owner[m] == None
    && t == s.(pc := s.pc[p := UAdd(m)], owner := s.owner[m := Some(p)])
  }

  ghost predicate UpAdd(s: State, t: State, p: nat, m: nat) requires s.Sized() {
    && At(s, p, UAdd(m)) && m < s.M()
    && t == s.(pc := s.pc[p := UWake(m, 0)], value := s.value[m := s.value[m] + 1], ups := s.ups[m := s.ups[m] + 1])
  }

  /** A round of wakeup(s). */
  ghost predicate UpWake(s: State, t: State, p: nat, m: nat, j: nat) requires s.Sized() {
    && At(s, p, UWake(m, j)) && j < s.N() && (j == p || Unlocked(s, j))
    && t == s.(pc := s.pc[p := UWake(m, j + 1)],
               life := if j != p && s.life[j] == SLEEPING && s.chan[j] == On(m) then s.life[j := RUNNABLE] else s.life)
  }

  ghost predicate UpRelease(s: State, t: State, p: nat, m: nat) requires s.Sized() {
    At(s, p, UWake(m, s.N())) && m < s.M() && t == s.(pc := s.pc[p := User], owner := s.owner[m := None])
  }

  // ---------- sem_down() ----------

  ghost predicate DownCall(s: State, t: State, p: nat, m: nat) requires s.Sized() {
    At(s, p, User) && m < s.M() && t == s.(pc := s.pc[p := DWant(m)])
  }

  /** acquire(&s->locked), at the start and at the end of sleep(). */
  ghost predicate DownLock(s: State, t: State, p: nat, m: nat) requires s.Sized() {
    && At(s, p, DWant(m)) && m < s.M() && s.owner[m] == None
    && t == s.(pc := s.pc[p := DTest(m)], owner := s.owner[m := Some(p)])
  }

  ghost predicate DownTest(s: State, t: State, p: nat, m: nat) requires s.Sized() {
    At(s, p, DTest(m)) && m < s.M() && t == s.(pc := s.pc[p := if s.value[m] <= 0 then DSleep(m) else DTake(m)])
  }

  ghost predicate DownTake(s: State, t: State, p: nat, m: nat) requires s.Sized() {
    && At(s, p, DTake(m)) && m < s.M()
    && t == s.(pc := s.pc[p := DOut(m)], value := s.value[m := s.value[m] - 1], downs := s.downs[m := s.downs[m] + 1])
  }

  ghost predicate DownRelease(s: State, t: State, p: nat, m: nat) requires s.Sized() {
    At(s, p, DOut(m)) && m < s.M() && t == s.(pc := s.pc[p := User], owner := s.owner[m := None])
  }

  // ---------- sleep() in sem_down() ----------

  ghost predicate SleepLock(s: State, t: State, p: nat, m: nat) requires s.Sized() {
    At(s, p, DSleep(m)) && Unlocked(s, p) && t == s.(pc := s.pc[p := DDrop(m)], lock := s.lock[p := Some(p)])
  }

  ghost predicate SleepRelease(s: State, t: State, p: nat, m: nat) requires s.Sized() {
    At(s, p, DDrop(m)) && m < s.M() && t == s.(pc := s.pc[p := DMark(m)], owner := s.owner[m := None])
  }

  ghost predicate SleepMark(s: State, t: State, p: nat, m: nat) requires s.Sized() {
    && At(s, p, DMark(m))
    && t == s.(pc := s.pc[p := DGone(m)], chan := s.chan[p := On(m)], life := s.life[p := SLEEPING])
  }

  /** The scheduler, switched to from sched(), releases the lock. */
  ghost predicate SleepOff(s: State, t: State, p: nat, m: nat) requires s.Sized() {
    p < s.N() && s.pc[p] == DGone(m) && t == s.(pc := s.pc[p := DAsleep(m)], lock := s.lock[p := None])
  }

  /** The scheduler runs the process, which goes on holding its lock. */
  ghost predicate SleepOn(s: State, t: State, p: nat, m: nat) requires s.Sized() {
    && Unlocked(s, p) && s.life[p] == RUNNABLE && s.pc[p] == DAsleep(m)
    && t == s.(life := s.life[p := RUNNING], pc := s.pc[p := DBack(m)], lock := s.lock[p := Some(p)])
  }

  ghost predicate SleepTidy(s: State, t: State, p: nat, m: nat) requires s.Sized() {
    At(s, p, DBack(m)) && t == s.(pc := s.pc[p := DWant(m)], chan := s.chan[p := Nowhere], lock := s.lock[p := None])
  }

  // ---------- everything else ----------

  /** No spinlock is held here, so the clock may take the CPU away. */
  predicate Preemptible(pc: Pc) { pc.User? || pc.UWant? || pc.DWant? }

  ghost predicate Yield(s: State, t: State, p: nat) requires s.Sized() {
    Unlocked(s, p) && s.life[p] == RUNNING && Preemptible(s.pc[p]) && t == s.(life := s.life[p := RUNNABLE])
  }

  ghost predicate Resume(s: State, t: State, p: nat) requires s.Sized() {
    && Unlocked(s, p) && s.life[p] == RUNNABLE && Preemptible(s.pc[p])
    && t == s.(life := s.life[p := RUNNING], chan := s.chan[p := Nowhere])
  }

  ghost predicate SleepElsewhere(s: State, t: State, p: nat) requires s.Sized() {
    && At(s, p, User) && Unlocked(s, p)
    && t == s.(life := s.life[p := SLEEPING], chan := s.chan[p := Elsewhere])
  }

  ghost predicate WakeElsewhere(s: State, t: State, p: nat) requires s.Sized() {
    && Unlocked(s, p) && s.life[p] == SLEEPING && s.chan[p] == Elsewhere
    && t == s.(life := s.life[p := RUNNABLE])
  }

  /** kill() wakes a sleeper, which tests the semaphore again. */
  ghost predicate Kill(s: State, t: State, p: nat) requires s.Sized() {
    && Unlocked(s, p) && t == s.(life := if s.life[p] == SLEEPING then s.life[p := RUNNABLE] else s.life)
  }

  // ---------- runs ----------

  ghost predicate UpStep(s: State, t: State, p: nat, m: nat, j: nat) requires s.Sized() {
    UpLock(s, t, p, m) || UpAdd(s, t, p, m) || UpWake(s, t, p, m, j) || UpRelease(s, t, p, m)
  }

  ghost predicate DownStep(s: State, t: State, p: nat, m: nat) requires s.Sized() {
    DownLock(s, t, p, m) || DownTest(s, t, p, m) || DownTake(s, t, p, m) || DownRelease(s, t, p, m)
  }

  ghost predicate SleepStep(s: State, t: State, p: nat, m: nat) requires s.Sized() {
    || SleepLock(s, t, p, m) || SleepRelease(s, t, p, m) || SleepMark(s, t, p, m)
    || SleepOff(s, t, p, m) || SleepOn(s, t, p, m) || SleepTidy(s, t, p, m)
  }

  ghost predicate CallStep(s: State, t: State, p: nat, m: nat) requires s.Sized() {
    UpCall(s, t, p, m) || DownCall(s, t, p, m)
  }

  ghost predicate OtherStep(s: State, t: State, p: nat) requires s.Sized() {
    Yield(s, t, p) || Resume(s, t, p) || SleepElsewhere(s, t, p) || WakeElsewhere(s, t, p) || Kill(s, t, p)
  }

  /** A step by process p, or done to it; j is the loop variable of wakeup(). */
  datatype Step = Step(p: nat, m: nat, j: nat)

  ghost predicate Next(s: State, t: State, e: Step) requires s.Sized() {
    || UpStep(s, t, e.p, e.m, e.j) || DownStep(s, t, e.p, e.m) || SleepStep(s, t, e.p, e.m)
    || CallStep(s, t, e.p, e.m) || OtherStep(s, t, e.p)
  }

  /** After sem_open(m, init[m]) of every semaphore. */
  ghost predicate Init(s: State, init: seq<int>) {
    && s.Sized() && s.value == init
    && (forall m :: 0 <= m < s.M() ==> s.owner[m] == None && s.ups[m] == s.downs[m] == 0 && init[m] >= 0)
    && (forall p :: 0 <= p < s.N() ==>
        s.life[p] == RUNNABLE && s.chan[p] == Nowhere && s.lock[p] == None && s.pc[p] == User)
  }

  ghost predicate IsRun(tr: seq<State>, es: seq<Step>, init: seq<int>) {
    && |tr| == |es| + 1 && Init(tr[0], init)
    && forall i :: 0 <= i < |es| ==> tr[i].Sized() && Next(tr[i], tr[i + 1], es[i])
  }

  // ---------- what every step keeps ----------

  /** The semaphore whose lock a process holds. */
  function HeldSem(pc: Pc): Option<nat> {
    match pc
    case UAdd(m) => Some(m)
    case UWake(m, _) => Some(m)
    case DTest(m) => Some(m)
    case DTake(m) => Some(m)
    case DOut(m) => Some(m)
    case DSleep(m) => Some(m)
    case DDrop(m) => Some(m)
    case _ => None
  }

  /** A process in sleep() holds its own lock, and nobody ever keeps another's. */
  predicate HoldsOwn(pc: Pc) { pc.DDrop? || pc.DMark? || pc.DGone? || pc.DBack? }

  predicate LifeOk(life: Life, chan: Chan, pc: Pc) {
    match pc
    case User => life == SLEEPING ==> chan == Elsewhere
    case DGone(m) => life == SLEEPING && chan == On(m)
    case DAsleep(m) => life == RUNNABLE || (life == SLEEPING && chan == On(m))
    case _ => life == RUNNING || (Preemptible(pc) && life == RUNNABLE)
  }

  predicate ProcOk(s: State, p: nat)
    requires s.Sized() && p < s.N()
  {
    && LifeOk(s.life[p], s.chan[p], s.pc[p])
    && s.lock[p] == (if HoldsOwn(s.pc[p]) then Some(p) else None)
    && (HeldSem(s.pc[p]).Some? ==> HeldSem(s.pc[p]).value < s.M() && s.owner[HeldSem(s.pc[p]).value] == Some(p))
  }

  ghost predicate ProcsOk(s: State)
    requires s.Sized()
  {
    forall p {:trigger s.pc[p]} {:trigger ProcOk(s, p)} :: 0 <= p < s.N() ==> ProcOk(s, p)
  }

  ghost predicate OwnersOk(s: State)
    requires s.Sized()
  {
    forall m {:trigger s.owner[m]} :: 0 <= m < s.M() && s.owner[m].Some? ==>
      s.owner[m].value < s.N() && HeldSem(s.pc[s.owner[m].value]) == Some(m)
  }

  /** Conservation, and the reason that value-- does not go below zero. */
  ghost predicate ValuesOk(s: State, init: seq<int>)
    requires s.Sized()
  {
    && |init| == s.M()
    && (forall m {:trigger s.value[m]} :: 0 <= m < s.M() ==>
          s.value[m] == init[m] + s.ups[m] - s.downs[m] && 0 <= s.value[m])
    && (forall p {:trigger s.pc[p]} :: 0 <= p < s.N() ==>
          match s.pc[p]
          case DTake(m) => m < s.M() && 0 < s.value[m]
          case DSleep(m) => m < s.M() && s.value[m] == 0
          case DDrop(m) => m < s.M() && s.value[m] == 0
          case _ => true)
  }

  /** Process p is in sem_down()'s sleep(): past the release of the semaphore and not yet woken. */
  predicate Asleep(s: State, p: nat, m: nat)
    requires s.Sized() && p < s.N()
  {
    s.pc[p] == DMark(m) || s.pc[p] == DGone(m) || (s.pc[p] == DAsleep(m) && s.life[p] == SLEEPING)
  }

  /** A wakeup(s) is under way and has yet to reach p. */
  predicate WakePending(s: State, p: nat, m: nat)
    requires s.Sized() && m < s.M()
  {
    s.owner[m].Some? && s.owner[m].value < s.N()
    && match s.pc[s.owner[m].value] case UWake(m', j) => m' == m && j <= p case _ => false
  }

  ghost predicate WakesOk(s: State)
    requires s.Sized()
  {
    forall p, m {:trigger Asleep(s, p, m)} :: 0 <= p < s.N() && 0 <= m < s.M() && Asleep(s, p, m) && s.value[m] > 0 ==>
      WakePending(s, p, m)
  }

  ghost predicate Inv(s: State, init: seq<int>) {
    s.Sized() && ProcsOk(s) && OwnersOk(s) && ValuesOk(s, init) && WakesOk(s)
  }

  // ---------- processes and owners ----------

  lemma ProcsTurn(s: State, t: State, p: nat, j: nat)
    requires s.Sized() && ProcsOk(s) && t.Sized() && t.N() == s.N() && t.M() == s.M() && p < s.N() && j < s.N()
    requires ProcOk(t, p) && ProcOk(t, j)
    requires forall q {:trigger t.pc[q]} :: 0 <= q < s.N() && q != p && q != j ==>
               t.pc[q] == s.pc[q] && t.life[q] == s.life[q] && t.chan[q] == s.chan[q] && t.lock[q] == s.lock[q]
    requires forall m {:trigger t.owner[m]} :: 0 <= m < s.M() ==>
               t.owner[m] == s.owner[m] || s.owner[m] == None || s.owner[m] == Some(p)
    ensures ProcsOk(t)
  {
    hide LifeOk, HoldsOwn, HeldSem;
    forall q {:trigger t.pc[q]} | 0 <= q < s.N() && q != p && q != j ensures ProcOk(t, q) {
      assert ProcOk(s, q);
    }
  }

  lemma ProcOf(s: State, p: nat)
    requires s.Sized() && ProcsOk(s) && p < s.N()
    ensures ProcOk(s, p)
  {
  }

  lemma UpProcs(s: State, t: State, p: nat, m: nat, j: nat)
    requires s.Sized() && ProcsOk(s) && UpStep(s, t, p, m, j)
    ensures t.Sized() && ProcsOk(t)
  {
    hide ProcsOk;
    ProcOf(s, p);
    if UpWake(s, t, p, m, j) {
      ProcOf(s, j);
      ProcsTurn(s, t, p, j);
    } else {
      ProcsTurn(s, t, p, p);
    }
  }

  lemma DownProcs(s: State, t: State, p: nat, m: nat)
    requires s.Sized() && ProcsOk(s) && DownStep(s, t, p, m)
    ensures t.Sized() && ProcsOk(t)
  {
    hide ProcsOk;
    ProcOf(s, p);
    ProcsTurn(s, t, p, p);
  }

  lemma SleepProcs(s: State, t: State, p: nat, m: nat)
    requires s.Sized() && ProcsOk(s) && SleepStep(s, t, p, m)
    ensures t.Sized() && ProcsOk(t)
  {
    hide ProcsOk;
    ProcOf(s, p);
    ProcsTurn(s, t, p, p);
  }

  lemma OtherProcs(s: State, t: State, p: nat, m: nat)
    requires s.Sized() && ProcsOk(s) && (CallStep(s, t, p, m) || OtherStep(s, t, p))
    ensures t.Sized() && ProcsOk(t)
  {
    hide ProcsOk;
    ProcOf(s, p);
    ProcsTurn(s, t, p, p);
  }

  lemma UpOwners(s: State, t: State, p: nat, m: nat, j: nat)
    requires s.Sized() && OwnersOk(s) && UpStep(s, t, p, m, j)
    ensures t.Sized() && OwnersOk(t)
  {
  }

  lemma DownOwners(s: State, t: State, p: nat, m: nat)
    requires s.Sized() && OwnersOk(s) && DownStep(s, t, p, m)
    ensures t.Sized() && OwnersOk(t)
  {
  }

  lemma SleepOwners(s: State, t: State, p: nat, m: nat)
    requires s.Sized() && OwnersOk(s) && SleepStep(s, t, p, m)
    ensures t.Sized() && OwnersOk(t)
  {
  }

  lemma OtherOwners(s: State, t: State, p: nat, m: nat)
    requires s.Sized() && OwnersOk(s) && (CallStep(s, t, p, m) || OtherStep(s, t, p))
    ensures t.Sized() && OwnersOk(t)
  {
  }

  // ---------- values ----------

  /** While p holds the semaphore, nobody else is past its test. */
  lemma OthersOut(s: State, p: nat, m: nat, q: nat)
    requires s.Sized() && ProcsOk(s) && p < s.N() && q < s.N() && q != p && HeldSem(s.pc[p]) == Some(m)
    ensures HeldSem(s.pc[q]) != Some(m)
  {
    ProcOf(s, p);
    ProcOf(s, q);
  }

  lemma UpValues(s: State, t: State, p: nat, m: nat, j: nat, init: seq<int>)
    requires s.Sized() && ProcsOk(s) && ValuesOk(s, init) && UpStep(s, t, p, m, j)
    ensures t.Sized() && ValuesOk(t, init)
  {
    hide ProcsOk;
    if UpAdd(s, t, p, m) {
      forall q | 0 <= q < s.N() && q != p ensures HeldSem(s.pc[q]) != Some(m) { OthersOut(s, p, m, q); }
    }
  }

  lemma DownValues(s: State, t: State, p: nat, m: nat, init: seq<int>)
    requires s.Sized() && ProcsOk(s) && ValuesOk(s, init) && DownStep(s, t, p, m)
    ensures t.Sized() && ValuesOk(t, init)
  {
    hide ProcsOk;
    if DownTake(s, t, p, m) {
      forall q | 0 <= q < s.N() && q != p ensures HeldSem(s.pc[q]) != Some(m) { OthersOut(s, p, m, q); }
    }
  }

  /** The values, and what is known between the test of a value and its use, are untouched. */
  lemma ValuesSame(s: State, t: State, p: nat, init: seq<int>)
    requires s.Sized() && ValuesOk(s, init) && t.Sized() && t.N() == s.N() && p < s.N() && t.pc == s.pc[p := t.pc[p]]
    requires t.value == s.value && t.ups == s.ups && t.downs == s.downs
    requires t.pc[p].DTake? || t.pc[p].DSleep? ==> t.pc[p] == s.pc[p]
    requires t.pc[p].DDrop? ==> t.pc[p] == s.pc[p] || s.pc[p] == DSleep(t.pc[p].m)
    ensures ValuesOk(t, init)
  {
    forall q {:trigger t.pc[q]} | 0 <= q < s.N()
      ensures match t.pc[q]
              case DTake(m) => m < s.M() && 0 < s.value[m]
              case DSleep(m) => m < s.M() && s.value[m] == 0
              case DDrop(m) => m < s.M() && s.value[m] == 0
              case _ => true
    {
      var was := s.pc[q];
    }
  }

  lemma SleepValues(s: State, t: State, p: nat, m: nat, init: seq<int>)
    requires s.Sized() && ValuesOk(s, init) && SleepStep(s, t, p, m)
    ensures t.Sized() && ValuesOk(t, init)
  {
    hide ValuesOk;
    ValuesSame(s, t, p, init);
  }

  lemma OtherValues(s: State, t: State, p: nat, m: nat, init: seq<int>)
    requires s.Sized() && ValuesOk(s, init) && (CallStep(s, t, p, m) || OtherStep(s, t, p))
    ensures t.Sized() && ValuesOk(t, init)
  {
    hide ValuesOk;
    ValuesSame(s, t, p, init);
  }

  // ---------- wakeups ----------

  /** A step that puts nobody to sleep, raises nothing and ends no wakeup keeps the promise. */
  lemma WakesSame(s: State, t: State)
    requires s.Sized() && WakesOk(s) && t.Sized() && t.N() == s.N() && t.M() == s.M()
    requires forall p, m {:trigger Asleep(t, p, m)} ::
        0 <= p < s.N() && 0 <= m < s.M() && Asleep(t, p, m) && t.value[m] > 0 ==>
               (Asleep(s, p, m) && s.value[m] > 0 && (WakePending(s, p, m) ==> WakePending(t, p, m)))
                   || WakePending(t, p, m)
    ensures WakesOk(t)
  {
    hide Asleep, WakePending;
  }

  lemma UpWakes(s: State, t: State, p: nat, m: nat, j: nat)
    requires s.Sized() && ProcsOk(s) && OwnersOk(s) && WakesOk(s) && UpStep(s, t, p, m, j)
    ensures t.Sized() && WakesOk(t)
  {
    hide WakesOk;
    WakesSame(s, t);
  }

  lemma DownWakes(s: State, t: State, p: nat, m: nat)
    requires s.Sized() && ProcsOk(s) && OwnersOk(s) && WakesOk(s) && DownStep(s, t, p, m)
    ensures t.Sized() && WakesOk(t)
  {
    hide WakesOk;
    WakesSame(s, t);
  }

  /** sem_down() goes to sleep on a semaphore that is zero. */
  lemma SleepWakes(s: State, t: State, p: nat, m: nat, init: seq<int>)
    requires s.Sized() && ProcsOk(s) && OwnersOk(s) && WakesOk(s) && ValuesOk(s, init) && SleepStep(s, t, p, m)
    ensures t.Sized() && WakesOk(t)
  {
    hide WakesOk, ValuesOk;
    if SleepRelease(s, t, p, m) { ZeroAtSleep(s, p, m, init); }
    WakesSame(s, t);
  }

  lemma ZeroAtSleep(s: State, p: nat, m: nat, init: seq<int>)
    requires s.Sized() && ValuesOk(s, init) && p < s.N() && s.pc[p] == DDrop(m) && m < s.M()
    ensures s.value[m] == 0
  {
  }

  lemma OtherWakes(s: State, t: State, p: nat, m: nat)
    requires s.Sized() && ProcsOk(s) && OwnersOk(s) && WakesOk(s) && (CallStep(s, t, p, m) || OtherStep(s, t, p))
    ensures t.Sized() && WakesOk(t)
  {
    hide WakesOk;
    WakesSame(s, t);
  }

  // ---------- whole runs ----------

  lemma InitInv(s: State, init: seq<int>)
    requires Init(s, init)
    ensures Inv(s, init)
  {
  }

  lemma NextInv(s: State, t: State, e: Step, init: seq<int>)
    requires Inv(s, init) && Next(s, t, e)
    ensures Inv(t, init)
  {
    hide ProcsOk, OwnersOk, ValuesOk, WakesOk, UpStep, DownStep, SleepStep, CallStep, OtherStep;
    var p, m, j := e.p, e.m, e.j;
    if UpStep(s, t, p, m, j) {
      UpProcs(s, t, p, m, j); UpOwners(s, t, p, m, j); UpValues(s, t, p, m, j, init); UpWakes(s, t, p, m, j);
    } else if DownStep(s, t, p, m) {
      DownProcs(s, t, p, m); DownOwners(s, t, p, m); DownValues(s, t, p, m, init); DownWakes(s, t, p, m);
    } else if SleepStep(s, t, p, m) {
      SleepProcs(s, t, p, m); SleepOwners(s, t, p, m); SleepValues(s, t, p, m, init); SleepWakes(s, t, p, m, init);
    } else {
      OtherProcs(s, t, p, m); OtherOwners(s, t, p, m); OtherValues(s, t, p, m, init); OtherWakes(s, t, p, m);
    }
  }

  lemma {:induction false} RunInv(tr: seq<State>, es: seq<Step>, init: seq<int>, k: nat)
    requires IsRun(tr, es, init) && k < |tr|
    ensures Inv(tr[k], init)
  {
    hide Inv, Init, Next;
    if k == 0 {
      InitInv(tr[0], init);
    } else {
      RunInv(tr, es, init, k - 1);
      NextInv(tr[k - 1], tr[k], es[k - 1], init);
    }
  }

  /** The value is the initial one plus the ups minus the downs, and never negative. */
  lemma ValueIsBalance(tr: seq<State>, es: seq<Step>, init: seq<int>, k: nat, m: nat)
    requires IsRun(tr, es, init) && k < |tr| && tr[k].Sized() && m < tr[k].M()
    ensures |init| == tr[k].M() && tr[k].value[m] == init[m] + tr[k].ups[m] - tr[k].downs[m] && tr[k].value[m] >= 0
  {
    hide IsRun, ProcsOk, OwnersOk, WakesOk;
    RunInv(tr, es, init, k);
  }

  /** Nobody stays asleep on a positive semaphore unless a wakeup() that has not reached him yet is under way. */
  lemma NoSleepOnPositive(tr: seq<State>, es: seq<Step>, init: seq<int>, k: nat, p: nat, m: nat)
    requires IsRun(tr, es, init) && k < |tr| && tr[k].Sized() && p < tr[k].N() && m < tr[k].M()
    requires Asleep(tr[k], p, m) && tr[k].value[m] > 0
    ensures tr[k].owner[m] != None && WakePending(tr[k], p, m)
  {
    hide IsRun, ProcsOk, OwnersOk, ValuesOk;
    RunInv(tr, es, init, k);
  }

  // ---------- nobody is stuck ----------

  /** A step of p's own sem_up(), sem_down() or sleep(), or the scheduler running p again. */
  ghost predicate OwnStep(s: State, t: State, p: nat, m: nat, j: nat) requires s.Sized() {
    UpStep(s, t, p, m, j) || DownStep(s, t, p, m) || SleepStep(s, t, p, m) || Resume(s, t, p)
  }

  ghost predicate CanMove(s: State, p: nat) requires s.Sized() { exists t, m, j :: OwnStep(s, t, p, m, j) }

  lemma Moves(s: State, t: State, p: nat, m: nat, j: nat)
    requires s.Sized() && OwnStep(s, t, p, m, j)
    ensures CanMove(s, p)
  {
    hide OwnStep;
  }

  /** A process is at a semaphore that there is, and its wakeup() within the process table. */
  predicate InTable(s: State, p: nat) {
    p < |s.pc| && !s.pc[p].User? ==> s.pc[p].m < |s.value| && (s.pc[p].UWake? ==> s.pc[p].j <= |s.pc|)
  }

  lemma TableStep(s: State, t: State, e: Step, p: nat)
    requires s.Sized() && InTable(s, p) && Next(s, t, e)
    ensures t.Sized() && t.N() == s.N() && InTable(t, p)
  {
    hide UpStep, DownStep, SleepStep, CallStep, OtherStep, InTable;
    if UpStep(s, t, e.p, e.m, e.j) || DownStep(s, t, e.p, e.m) { UpTable(s, t, e.p, e.m, e.j, p); }
    else if SleepStep(s, t, e.p, e.m) || CallStep(s, t, e.p, e.m) { SleepTable(s, t, e.p, e.m, p); }
    else { OtherTable(s, t, e.p, p); }
  }

  lemma UpTable(s: State, t: State, q: nat, m: nat, j: nat, p: nat)
    requires s.Sized() && InTable(s, p) && (UpStep(s, t, q, m, j) || DownStep(s, t, q, m))
    ensures t.Sized() && t.N() == s.N() && InTable(t, p)
  {
    if p < |s.pc| && p != q { assert t.pc[p] == s.pc[p]; }
  }

  lemma SleepTable(s: State, t: State, q: nat, m: nat, p: nat)
    requires s.Sized() && InTable(s, p) && (SleepStep(s, t, q, m) || CallStep(s, t, q, m))
    ensures t.Sized() && t.N() == s.N() && InTable(t, p)
  {
    if p < |s.pc| && p != q { assert t.pc[p] == s.pc[p]; }
  }

  lemma OtherTable(s: State, t: State, q: nat, p: nat)
    requires s.Sized() && InTable(s, p) && OtherStep(s, t, q)
    ensures t.Sized() && t.N() == s.N() && InTable(t, p)
  {
    assert t.pc == s.pc;
  }

  lemma {:induction false} StaysInTable(tr: seq<State>, es: seq<Step>, init: seq<int>, k: nat, p: nat)
    requires IsRun(tr, es, init) && k < |tr|
    ensures InTable(tr[k], p)
  {
    hide Next;
    if k > 0 {
      StaysInTable(tr, es, init, k - 1, p);
      TableStep(tr[k - 1], tr[k], es[k - 1], p);
    }
  }

  /** Between two lock operations of sleep() nothing is in the way. */
  lemma SleeperMoves(s: State, p: nat)
    requires s.Sized() && p < s.N() && ProcOk(s, p) && HoldsOwn(s.pc[p])
    ensures CanMove(s, p)
  {
    hide CanMove;
    var m, t := s.pc[p].m, s;
    match s.pc[p] {
      case DDrop(_) => t := s.(pc := s.pc[p := DMark(m)], owner := s.owner[m := None]);
      case DMark(_) => t := s.(pc := s.pc[p := DGone(m)], chan := s.chan[p := On(m)], life := s.life[p := SLEEPING]);
      case DGone(_) => t := s.(pc := s.pc[p := DAsleep(m)], lock := s.lock[p := None]);
      case DBack(_) => t := s.(pc := s.pc[p := DWant(m)], chan := s.chan[p := Nowhere], lock := s.lock[p := None]);
    }
    Moves(s, t, p, m, 0);
  }

  /** The holder of a semaphore moves, or its wakeup() waits for the lock of a process in sleep(), which moves. */
  lemma HolderMoves(s: State, p: nat, m: nat) returns (q: nat)
    requires s.Sized() && p < s.N() && ProcsOk(s) && InTable(s, p) && HeldSem(s.pc[p]) == Some(m)
    ensures q < s.N() && CanMove(s, q)
  {
    hide CanMove, ProcsOk;
    if s.pc[p].UAdd? || s.pc[p].UWake? {
      q := UpperMoves(s, p, m);
    } else {
      ProcOf(s, p);
      DownerMoves(s, p, m);
      q := p;
    }
  }

  lemma UpperMoves(s: State, p: nat, m: nat) returns (q: nat)
    requires s.Sized() && p < s.N() && ProcsOk(s) && InTable(s, p) && HeldSem(s.pc[p]) == Some(m)
    requires s.pc[p].UAdd? || s.pc[p].UWake?
    ensures q < s.N() && CanMove(s, q)
  {
    hide CanMove, ProcsOk, DownStep, SleepStep, Resume;
    ProcOf(s, p);
    q := p;
    var t, j := s, 0;
    match s.pc[p] {
      case UAdd(_) =>
        t := s.(pc := s.pc[p := UWake(m, 0)], value := s.value[m := s.value[m] + 1],
                ups := s.ups[m := s.ups[m] + 1]);
      case UWake(_, i) =>
        j := i;
        if i == s.N() {
          t := s.(pc := s.pc[p := User], owner := s.owner[m := None]);
        } else if i != p && s.lock[i] != None {
          ProcOf(s, i);
          SleeperMoves(s, i);
          q := i;
          return;
        } else {
          t := s.(pc := s.pc[p := UWake(m, i + 1)],
                  life := if i != p && s.life[i] == SLEEPING && s.chan[i] == On(m) then s.life[i := RUNNABLE]
                          else s.life);
        }
    }
    Moves(s, t, p, m, j);
  }

  lemma DownerMoves(s: State, p: nat, m: nat)
    requires s.Sized() && p < s.N() && ProcOk(s, p) && HeldSem(s.pc[p]) == Some(m)
    requires !s.pc[p].UAdd? && !s.pc[p].UWake?
    ensures CanMove(s, p)
  {
    hide CanMove, UpStep, Resume;
    var t := s;
    match s.pc[p] {
      case DTest(_) => t := s.(pc := s.pc[p := if s.value[m] <= 0 then DSleep(m) else DTake(m)]);
      case DTake(_) =>
        t := s.(pc := s.pc[p := DOut(m)], value := s.value[m := s.value[m] - 1],
                downs := s.downs[m := s.downs[m] + 1]);
      case DOut(_) => t := s.(pc := s.pc[p := User], owner := s.owner[m := None]);
      case DSleep(_) => t := s.(pc := s.pc[p := DDrop(m)], lock := s.lock[p := Some(p)]);
      case DDrop(_) => t := s.(pc := s.pc[p := DMark(m)], owner := s.owner[m := None]);
    }
    Moves(s, t, p, m, 0);
  }

  /** A process that wants a semaphore's lock gets it, or its holder has a way to go. */
  lemma WanterMoves(s: State, p: nat, m: nat) returns (q: nat)
    requires s.Sized() && p < s.N() && ProcsOk(s) && OwnersOk(s) && (s.pc[p] == UWant(m) || s.pc[p] == DWant(m))
    requires forall r: nat {:trigger InTable(s, r)} :: InTable(s, r)
    ensures q < s.N() && CanMove(s, q)
  {
    hide CanMove, ProcsOk, OwnersOk;
    ProcOf(s, p);
    assert InTable(s, p);
    q := p;
    if s.life[p] == RUNNABLE {
      Moves(s, s.(life := s.life[p := RUNNING], chan := s.chan[p := Nowhere]), p, m, 0);
    } else if s.owner[m] == None {
      Moves(s, s.(pc := s.pc[p := if s.pc[p].UWant? then UAdd(m) else DTest(m)], owner := s.owner[m := Some(p)]),
            p, m, 0);
    } else {
      q := OwnerMoves(s, m);
    }
  }

  lemma OwnerMoves(s: State, m: nat) returns (q: nat)
    requires s.Sized() && ProcsOk(s) && OwnersOk(s) && m < s.M() && s.owner[m] != None
    requires forall r: nat {:trigger InTable(s, r)} :: InTable(s, r)
    ensures q < s.N() && CanMove(s, q)
  {
    hide CanMove, ProcsOk;
    assert InTable(s, s.owner[m].value);
    q := HolderMoves(s, s.owner[m].value, m);
  }

  /**
   Whoever is in sem_up() or sem_down() sleeps on a semaphore that is 0, or some process
   on which that depends has a step of its own.
   */
  lemma NobodyStuck(tr: seq<State>, es: seq<Step>, init: seq<int>, k: nat, p: nat) returns (q: nat)
    requires IsRun(tr, es, init) && k < |tr| && tr[k].Sized() && p < tr[k].N() && tr[k].pc[p] != User
    ensures q < tr[k].N()
    ensures tr[k].pc[p].m < tr[k].M()
    ensures CanMove(tr[k], q) || (tr[k].pc[p].DAsleep? && tr[k].life[p] == SLEEPING && tr[k].value[tr[k].pc[p].m] == 0)
  {
    hide IsRun, ProcsOk, OwnersOk, WakesOk, ValuesOk, CanMove, InTable;
    RunInv(tr, es, init, k);
    forall r: nat ensures InTable(tr[k], r) { StaysInTable(tr, es, init, k, r); }
    var s := tr[k];
    q := StuckOn(s, init, p);
  }

  lemma StuckOn(s: State, init: seq<int>, p: nat) returns (q: nat)
    requires Inv(s, init) && p < s.N() && s.pc[p] != User
    requires forall r: nat {:trigger InTable(s, r)} :: InTable(s, r)
    ensures q < s.N() && s.pc[p].m < s.M()
    ensures CanMove(s, q) || (s.pc[p].DAsleep? && s.life[p] == SLEEPING && s.value[s.pc[p].m] == 0)
  {
    hide ProcsOk, OwnersOk, ValuesOk, CanMove;
    assert InTable(s, p);
    ProcOf(s, p);
    var m := s.pc[p].m;
    q := p;
    if HeldSem(s.pc[p]).Some? {
      q := HolderMoves(s, p, m);
    } else if s.pc[p].UWant? || s.pc[p].DWant? {
      q := WanterMoves(s, p, m);
    } else if HoldsOwn(s.pc[p]) {
      SleeperMoves(s, p);
    } else if s.life[p] == RUNNABLE {
      Moves(s, s.(life := s.life[p := RUNNING], pc := s.pc[p := DBack(m)], lock := s.lock[p := Some(p)]), p, m, 0);
    } else {
      ValueOf(s, init, m);
      if s.value[m] > 0 {
        assert Asleep(s, p, m);
        q := OwnerMoves(s, m);
      }
    }
  }

  lemma ValueOf(s: State, init: seq<int>, m: nat)
    requires s.Sized() && ValuesOk(s, init) && m < s.M()
    ensures s.value[m] >= 0
  {
  }
}
