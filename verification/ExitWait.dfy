/**
 exit(), wait(), fork() and the sleep() and wakeup() under them (proc.c) as an
 interleaving of the processes' steps.  Any process may take a step at any time;
 a step is a stretch of code in which at most one lock is taken or given up, so
 every scan of the process table can be overtaken between two of its rounds.

 The process table is kept field by field: life[p] is proc[p].state, and lock[p]
 the owner of proc[p].lock.  exited and reaped are history: the pids of the
 processes that became zombies, and of those wait() collected.  No step reads
 them.
 */
module ExitWait {
  import opened Common

  datatype Life = UNUSED | USED | SLEEPING | RUNNABLE | RUNNING | ZOMBIE

  /** p->chan: 0, the address of a process (used by wait()), or any other address. */
  datatype Chan = Nowhere | Of(p: nat) | Elsewhere

  /** Where a process is in the kernel. */
  datatype Pc =
    | User
      // wait(): scanning, holding a child's lock, leaving
    | WScan(i: nat, kids: bool) | WChild(i: nat) | WFound(i: nat) | WOut
      // sleep(p, &wait_lock): before and after each lock operation
    | WSleep | WDrop | WMark | WGone | WAsleep | WBack | WAgain
      // fork(), with the new process
    | FNew(np: nat) | FLink(np: nat) | FSet(np: nat) | FUnlink(np: nat) | FRun(np: nat)
      // exit(): reparent(), its wakeup(initproc), wakeup(p->parent), the end
    | EScan(i: nat) | EWakeInit(i: nat, j: nat) | EWakeParent(j: nat) | EZombie | EDrop | EGone | EDead

  datatype State = State(
    life: seq<Life>, parent: seq<Option<nat>>, chan: seq<Chan>, killed: seq<bool>, pid: seq<nat>,
    pc: seq<Pc>, lock: seq<Option<nat>>,
    initproc: nat, waitLock: Option<nat>, nextPid: nat, exited: seq<nat>, reaped: seq<nat>)
  {
    /** NPROC */
    function N(): nat { |pc| }

    predicate Sized() { |life| == |parent| == |chan| == |killed| == |pid| == |lock| == |pc| && initproc < |pc| }
  }

  // ---------- parts of steps ----------

  /** Process p is running, at pc. */
  predicate At(s: State, p: nat, pc: Pc)
    requires s.Sized()
  {
    p < s.N() && s.life[p] == RUNNING && s.pc[p] == pc
  }

  predicate Unlocked(s: State, k: nat)
    requires s.Sized()
  {
    k < s.N() && s.lock[k] == None
  }

  /** One round of wakeup(ch), run by e. */
  function Woken(s: State, e: nat, j: nat, ch: Chan): State
    requires s.Sized() && j < s.N()
  {
    if j != e && s.life[j] == SLEEPING && s.chan[j] == ch then s.(life := s.life[j := RUNNABLE]) else s
  }

  predicate CanWake(s: State, e: nat, j: nat)
    requires s.Sized()
  {
    j < s.N() && (j == e || Unlocked(s, j))
  }

  // ---------- wait() ----------

  /** acquire(&wait_lock) at the start of wait() and at the end of sleep(). */
  ghost predicate WaitEnter(s: State, t: State, p: nat) requires s.Sized() {
    && (At(s, p, User) || At(s, p, WAgain)) && s.waitLock == None
    && t == s.(pc := s.pc[p := WScan(0, false)], waitLock := Some(p))
  }

  /** A slot that is not a child is passed over; a child is locked. */
  ghost predicate WaitScan(s: State, t: State, p: nat, i: nat, kids: bool) requires s.Sized() {
    && At(s, p, WScan(i, kids)) && i < s.N()
    && if s.parent[i] == Some(p)
        then Unlocked(s, i) && t == s.(pc := s.pc[p := WChild(i)], lock := s.lock[i := Some(p)])
       else t == s.(pc := s.pc[p := WScan(i + 1, kids)])
  }

  ghost predicate WaitPass(s: State, t: State, p: nat, i: nat) requires s.Sized() {
    && At(s, p, WChild(i)) && i < s.N() && s.life[i] != ZOMBIE
    && t == s.(pc := s.pc[p := WScan(i + 1, true)], lock := s.lock[i := None])
  }

  /** freeproc(pp), with pp's thread gone for good. */
  ghost predicate WaitReap(s: State, t: State, p: nat, i: nat) requires s.Sized() {
    && At(s, p, WChild(i)) && i < s.N() && i != p && s.life[i] == ZOMBIE
    && t == s.(life := s.life[i := UNUSED], pid := s.pid[i := 0], parent := s.parent[i := None],
               chan := s.chan[i := Nowhere], killed := s.killed[i := false],
               reaped := s.reaped + [s.pid[i]], pc := s.pc[i := User][p := WFound(i)])
  }

  /** copyout() of the status failed. */
  ghost predicate WaitFault(s: State, t: State, p: nat, i: nat) requires s.Sized() {
    At(s, p, WChild(i)) && i < s.N() && s.life[i] == ZOMBIE && t == s.(pc := s.pc[p := WFound(i)])
  }

  ghost predicate WaitFound(s: State, t: State, p: nat, i: nat) requires s.Sized() {
    At(s, p, WFound(i)) && i < s.N() && t == s.(pc := s.pc[p := WOut], lock := s.lock[i := None])
  }

  /** !havekids || killed(p), and killed() takes p->lock. */
  ghost predicate WaitDecide(s: State, t: State, p: nat, kids: bool) requires s.Sized() {
    && At(s, p, WScan(s.N(), kids)) && (kids ==> Unlocked(s, p))
    && t == s.(pc := s.pc[p := if !kids || s.killed[p] then WOut else WSleep])
  }

  ghost predicate WaitOut(s: State, t: State, p: nat) requires s.Sized() {
    At(s, p, WOut) && t == s.(pc := s.pc[p := User], waitLock := None)
  }

  /** acquire(&p->lock) in sleep() */
  ghost predicate SleepLock(s: State, t: State, p: nat) requires s.Sized() {
    At(s, p, WSleep) && Unlocked(s, p) && t == s.(pc := s.pc[p := WDrop], lock := s.lock[p := Some(p)])
  }

  /** release(lk) */
  ghost predicate SleepRelease(s: State, t: State, p: nat) requires s.Sized() {
    At(s, p, WDrop) && t == s.(pc := s.pc[p := WMark], waitLock := None)
  }

  ghost predicate SleepMark(s: State, t: State, p: nat) requires s.Sized() {
    && At(s, p, WMark)
    && t == s.(pc := s.pc[p := WGone], chan := s.chan[p := Of(p)], life := s.life[p := SLEEPING])
  }

  /** The end of sleep(): p->chan = 0 and release(&p->lock). */
  ghost predicate SleepTidy(s: State, t: State, p: nat) requires s.Sized() {
    && At(s, p, WBack)
    && t == s.(pc := s.pc[p := WAgain], chan := s.chan[p := Nowhere], lock := s.lock[p := None])
  }

  // ---------- fork() ----------

  /** allocproc() finds np unused and returns with its lock. */
  ghost predicate ForkAlloc(s: State, t: State, p: nat, np: nat) requires s.Sized() {
    && At(s, p, User) && Unlocked(s, np) && s.life[np] == UNUSED
    && t == s.(life := s.life[np := USED], pid := s.pid[np := s.nextPid], lock := s.lock[np := Some(p)],
               nextPid := s.nextPid + 1, pc := s.pc[p := FNew(np)])
  }

  /** No memory for the new process: freeproc() and release(). */
  ghost predicate ForkFail(s: State, t: State, p: nat, np: nat) requires s.Sized() {
    && At(s, p, FNew(np)) && np < s.N()
    && t == s.(life := s.life[np := UNUSED], pid := s.pid[np := 0], parent := s.parent[np := None],
               chan := s.chan[np := Nowhere], killed := s.killed[np := false],
               lock := s.lock[np := None], pc := s.pc[p := User])
  }

  ghost predicate ForkBuilt(s: State, t: State, p: nat, np: nat) requires s.Sized() {
    At(s, p, FNew(np)) && np < s.N() && t == s.(pc := s.pc[p := FLink(np)], lock := s.lock[np := None])
  }

  ghost predicate ForkLink(s: State, t: State, p: nat, np: nat) requires s.Sized() {
    At(s, p, FLink(np)) && s.waitLock == None && t == s.(pc := s.pc[p := FSet(np)], waitLock := Some(p))
  }

  ghost predicate ForkSet(s: State, t: State, p: nat, np: nat) requires s.Sized() {
    At(s, p, FSet(np)) && np < s.N() && t == s.(pc := s.pc[p := FUnlink(np)], parent := s.parent[np := Some(p)])
  }

  ghost predicate ForkUnlink(s: State, t: State, p: nat, np: nat) requires s.Sized() {
    At(s, p, FUnlink(np)) && t == s.(pc := s.pc[p := FRun(np)], waitLock := None)
  }

  ghost predicate ForkRun(s: State, t: State, p: nat, np: nat) requires s.Sized() {
    At(s, p, FRun(np)) && Unlocked(s, np) && t == s.(pc := s.pc[p := User], life := s.life[np := RUNNABLE])
  }

  // ---------- exit() ----------

  /** exit() up to acquire(&wait_lock); init panics instead. */
  ghost predicate ExitEnter(s: State, t: State, p: nat) requires s.Sized() {
    && At(s, p, User) && p != s.initproc && s.waitLock == None
    && t == s.(pc := s.pc[p := EScan(0)], waitLock := Some(p))
  }

  /** A round of reparent(). */
  ghost predicate ExitScan(s: State, t: State, p: nat, i: nat) requires s.Sized() {
    && At(s, p, EScan(i)) && i < s.N()
    && t == if s.parent[i] == Some(p)
        then s.(parent := s.parent[i := Some(s.initproc)], pc := s.pc[p := EWakeInit(i, 0)])
            else s.(pc := s.pc[p := EScan(i + 1)])
  }

  /** A round of wakeup(initproc). */
  ghost predicate ExitWakeInit(s: State, t: State, p: nat, i: nat, j: nat) requires s.Sized() {
    && At(s, p, EWakeInit(i, j)) && CanWake(s, p, j)
    && t == Woken(s, p, j, Of(s.initproc)).(pc := s.pc[p := EWakeInit(i, j + 1)])
  }

  ghost predicate ExitWokeInit(s: State, t: State, p: nat, i: nat) requires s.Sized() {
    At(s, p, EWakeInit(i, s.N())) && t == s.(pc := s.pc[p := EScan(i + 1)])
  }

  ghost predicate ExitScanned(s: State, t: State, p: nat) requires s.Sized() {
    At(s, p, EScan(s.N())) && t == s.(pc := s.pc[p := EWakeParent(0)])
  }

  /** A round of wakeup(p->parent). */
  ghost predicate ExitWakeParent(s: State, t: State, p: nat, j: nat) requires s.Sized() {
    && At(s, p, EWakeParent(j)) && CanWake(s, p, j)
    && t == (if s.parent[p].Some? then Woken(s, p, j, Of(s.parent[p].value))
        else s).(pc := s.pc[p := EWakeParent(j + 1)])
  }

  /** acquire(&p->lock) */
  ghost predicate ExitLock(s: State, t: State, p: nat) requires s.Sized() {
    && At(s, p, EWakeParent(s.N())) && Unlocked(s, p)
    && t == s.(pc := s.pc[p := EZombie], lock := s.lock[p := Some(p)])
  }

  ghost predicate ExitMark(s: State, t: State, p: nat) requires s.Sized() {
    && At(s, p, EZombie)
    && t == s.(pc := s.pc[p := EDrop], life := s.life[p := ZOMBIE], exited := s.exited + [s.pid[p]])
  }

  /** release(&wait_lock), by the zombie */
  ghost predicate ExitRelease(s: State, t: State, p: nat) requires s.Sized() {
    p < s.N() && s.pc[p] == EDrop && t == s.(pc := s.pc[p := EGone], waitLock := None)
  }

  // ---------- the scheduler and everybody else ----------

  /** No spinlock is held here, so the clock may take the CPU away. */
  predicate Preemptible(pc: Pc) { pc.User? || pc.WAgain? || pc.FLink? || pc.FRun? }

  /** The scheduler, switched to from sched(), releases the lock of the process. */
  ghost predicate SwitchedOff(s: State, t: State, p: nat) requires s.Sized() {
    && p < s.N() && (s.pc[p] == WGone || s.pc[p] == EGone)
    && t == s.(pc := s.pc[p := if s.pc[p] == WGone then WAsleep else EDead], lock := s.lock[p := None])
  }

  /** The scheduler runs a process that slept in wait(), which goes on holding its lock. */
  ghost predicate ResumeWait(s: State, t: State, p: nat) requires s.Sized() {
    && Unlocked(s, p) && s.life[p] == RUNNABLE && s.pc[p] == WAsleep
    && t == s.(life := s.life[p := RUNNING], pc := s.pc[p := WBack], lock := s.lock[p := Some(p)])
  }

  ghost predicate Resume(s: State, t: State, p: nat) requires s.Sized() {
    && Unlocked(s, p) && s.life[p] == RUNNABLE && s.pc[p] != WAsleep
    && t == s.(life := s.life[p := RUNNING], chan := s.chan[p := Nowhere])
  }

  ghost predicate Yield(s: State, t: State, p: nat) requires s.Sized() {
    Unlocked(s, p) && s.life[p] == RUNNING && Preemptible(s.pc[p]) && t == s.(life := s.life[p := RUNNABLE])
  }

  /** sleep() outside wait(). */
  ghost predicate SleepElsewhere(s: State, t: State, p: nat) requires s.Sized() {
    && At(s, p, User) && Unlocked(s, p)
    && t == s.(life := s.life[p := SLEEPING], chan := s.chan[p := Elsewhere])
  }

  ghost predicate WakeElsewhere(s: State, t: State, p: nat) requires s.Sized() {
    && Unlocked(s, p) && s.life[p] == SLEEPING && s.chan[p] == Elsewhere
    && t == s.(life := s.life[p := RUNNABLE])
  }

  /** kill(), or setkilled(), reaches slot p. */
  ghost predicate Kill(s: State, t: State, p: nat) requires s.Sized() {
    && Unlocked(s, p)
    && t == s.(killed := s.killed[p := true], life := if s.life[p] == SLEEPING then s.life[p := RUNNABLE] else s.life)
  }

  // ---------- runs ----------

  ghost predicate WaitStep(s: State, t: State, p: nat, i: nat, kids: bool) requires s.Sized() {
    WaitEnter(s, t, p) || WaitScan(s, t, p, i, kids) || WaitDecide(s, t, p, kids) || WaitOut(s, t, p)
  }

  ghost predicate ChildStep(s: State, t: State, p: nat, i: nat) requires s.Sized() {
    WaitPass(s, t, p, i) || WaitReap(s, t, p, i) || WaitFault(s, t, p, i) || WaitFound(s, t, p, i)
  }

  ghost predicate SleepStep(s: State, t: State, p: nat) requires s.Sized() {
    SleepLock(s, t, p) || SleepRelease(s, t, p) || SleepMark(s, t, p) || SleepTidy(s, t, p) || ResumeWait(s, t, p)
  }

  ghost predicate ForkStep(s: State, t: State, p: nat, np: nat) requires s.Sized() {
    || ForkAlloc(s, t, p, np) || ForkFail(s, t, p, np) || ForkBuilt(s, t, p, np) || ForkLink(s, t, p, np)
    || ForkSet(s, t, p, np) || ForkUnlink(s, t, p, np) || ForkRun(s, t, p, np)
  }

  ghost predicate AdoptStep(s: State, t: State, p: nat, i: nat, j: nat) requires s.Sized() {
    ExitEnter(s, t, p) || ExitScan(s, t, p, i) || ExitWakeInit(s, t, p, i, j) || ExitWokeInit(s, t, p, i)
  }

  ghost predicate ExitStep(s: State, t: State, p: nat, j: nat) requires s.Sized() {
    ExitScanned(s, t, p) || ExitWakeParent(s, t, p, j)
  }

  ghost predicate EndStep(s: State, t: State, p: nat) requires s.Sized() {
    ExitLock(s, t, p) || ExitMark(s, t, p) || ExitRelease(s, t, p)
  }

  ghost predicate OtherStep(s: State, t: State, p: nat) requires s.Sized() {
    || SwitchedOff(s, t, p) || Resume(s, t, p) || Yield(s, t, p) || SleepElsewhere(s, t, p)
    || WakeElsewhere(s, t, p) || Kill(s, t, p)
  }

  /** A step by process p, or done to it; i, j and kids are the loop variables at that point. */
  datatype Step = Step(p: nat, i: nat, j: nat, kids: bool)

  ghost predicate Next(s: State, t: State, e: Step) requires s.Sized() {
    || WaitStep(s, t, e.p, e.i, e.kids) || ChildStep(s, t, e.p, e.i) || SleepStep(s, t, e.p)
    || ForkStep(s, t, e.p, e.i) || AdoptStep(s, t, e.p, e.i, e.j) || ExitStep(s, t, e.p, e.j)
    || EndStep(s, t, e.p) || OtherStep(s, t, e.p)
  }

  /** After userinit(): one process, init, and otherwise empty slots. */
  ghost predicate Init(s: State) {
    && s.Sized() && s.waitLock == None && s.exited == [] && s.reaped == [] && s.nextPid == 2
    && forall p :: 0 <= p < s.N() ==>
         && s.life[p] == (if p == s.initproc then RUNNABLE else UNUSED)
             && s.pid[p] == (if p == s.initproc then 1 else 0)
         && s.parent[p] == None && s.chan[p] == Nowhere && !s.killed[p] && s.pc[p] == User && s.lock[p] == None
  }

  ghost predicate IsRun(tr: seq<State>, es: seq<Step>) {
    && |tr| == |es| + 1 && Init(tr[0])
    && forall i :: 0 <= i < |es| ==> tr[i].Sized() && Next(tr[i], tr[i + 1], es[i])
  }

  // ---------- locks ----------

  predicate HoldsWait(pc: Pc) {
    match pc
    case WScan(_, _) => true
    case WChild(_) => true
    case WFound(_) => true
    case WOut => true
    case WSleep => true
    case WDrop => true
    case FSet(_) => true
    case FUnlink(_) => true
    case EScan(_) => true
    case EWakeInit(_, _) => true
    case EWakeParent(_) => true
    case EZombie => true
    case EDrop => true
    case _ => false
  }

  /** The slot whose lock a process holds. */
  function Held(p: nat, pc: Pc): Option<nat> {
    match pc
    case WChild(i) => Some(i)
    case WFound(i) => Some(i)
    case FNew(np) => Some(np)
    case WDrop => Some(p)
    case WMark => Some(p)
    case WGone => Some(p)
    case WBack => Some(p)
    case EZombie => Some(p)
    case EDrop => Some(p)
    case EGone => Some(p)
    case _ => None
  }

  ghost predicate LocksOk(s: State)
    requires s.Sized()
  {
    && (forall p {:trigger s.pc[p]} :: 0 <= p < s.N() ==> (s.waitLock == Some(p) <==> HoldsWait(s.pc[p])))
    && (s.waitLock.Some? ==> s.waitLock.value < s.N())
    && (forall k {:trigger s.lock[k]} :: 0 <= k < s.N() && s.lock[k].Some? ==>
          s.lock[k].value < s.N() && Held(s.lock[k].value, s.pc[s.lock[k].value]) == Some(k))
    && (forall p {:trigger s.pc[p]} :: 0 <= p < s.N() && Held(p, s.pc[p]).Some? ==>
          Held(p, s.pc[p]).value < s.N() && s.lock[Held(p, s.pc[p]).value] == Some(p))
  }

  // ---------- states of life ----------

  predicate Exiting(pc: Pc) {
    pc.EScan? || pc.EWakeInit? || pc.EWakeParent? || pc.EZombie? || pc.EDrop? || pc.EGone? || pc.EDead?
  }

  predicate LifeOk(p: nat, life: Life, chan: Chan, pc: Pc) {
    match pc
    case User => life != ZOMBIE && (life == SLEEPING ==> chan == Elsewhere)
    case WGone => life == SLEEPING && chan == Of(p)
    case WAsleep => life == RUNNABLE || (life == SLEEPING && chan == Of(p))
    case EDrop => life == ZOMBIE
    case EGone => life == ZOMBIE
    case EDead => life == ZOMBIE
    case _ => life == RUNNING || (Preemptible(pc) && life == RUNNABLE)
  }

  ghost predicate LivesOk(s: State)
    requires s.Sized()
  {
    && !Exiting(s.pc[s.initproc]) && s.life[s.initproc] != UNUSED && s.life[s.initproc] != USED
    && (forall p {:trigger s.pc[p]} {:trigger s.life[p]} :: 0 <= p < s.N() ==> LifeOk(p, s.life[p], s.chan[p], s.pc[p]))
  }

  /** Process p goes to another pc, taking or giving up just the locks that this means. */
  ghost predicate Turn(s: State, t: State, p: nat, now: Pc)
    requires s.Sized()
  {
    && t.Sized() && p < s.N() && t.pc == s.pc[p := now]
    && var was := s.pc[p];
       && (HoldsWait(now) && !HoldsWait(was) ==> s.waitLock == None)
       && t.waitLock == (if HoldsWait(now) == HoldsWait(was) then s.waitLock else if HoldsWait(now) then Some(p)
           else None)
       && if Held(p, now) == Held(p, was) then t.lock == s.lock
          else if Held(p, now) == None then Held(p, was).value < s.N() && t.lock == s.lock[Held(p, was).value := None]
          else
            && Held(p, was) == None && Held(p, now).value < s.N() && s.lock[Held(p, now).value] == None
            && t.lock == s.lock[Held(p, now).value := Some(p)]
  }

  lemma TurnLocks(s: State, t: State, p: nat, now: Pc)
    requires s.Sized() && LocksOk(s) && Turn(s, t, p, now)
    ensures LocksOk(t)
  {
    hide HoldsWait, Held;
  }

  // ---------- parents and children ----------

  /** Process p has not got past child c in reparent(). */
  predicate MayParent(pc: Pc, c: nat) {
    match pc
    case EScan(i) => i <= c
    case EWakeInit(i, _) => i < c
    case _ => !Exiting(pc)
  }

  predicate Alive(life: Life) { life == SLEEPING || life == RUNNABLE || life == RUNNING }

  ghost predicate KinOk(s: State)
    requires s.Sized()
  {
    && (forall c {:trigger s.parent[c]} :: 0 <= c < s.N() && s.parent[c].Some? ==>
          var p := s.parent[c].value; p < s.N() && p != c && Alive(s.life[p]) && MayParent(s.pc[p], c))
    && (forall c {:trigger s.life[c]} :: 0 <= c < s.N() && c != s.initproc ==>
          (s.life[c] == UNUSED ==> s.parent[c] == None)
              && (Alive(s.life[c]) || s.life[c] == ZOMBIE ==> s.parent[c].Some?))
    && s.parent[s.initproc] == None
  }

  /** The process being made by fork(), and whether its parent is set. */
  datatype Job = Job(np: nat, linked: bool)

  function Making(pc: Pc): Option<Job> {
    match pc
    case FNew(np) => Some(Job(np, false))
    case FLink(np) => Some(Job(np, false))
    case FSet(np) => Some(Job(np, false))
    case FUnlink(np) => Some(Job(np, true))
    case FRun(np) => Some(Job(np, true))
    case _ => None
  }

  predicate JobOk(s: State, p: nat, job: Job)
    requires s.Sized()
  {
    job.np < s.N() && s.life[job.np] == USED && s.parent[job.np] == if job.linked then Some(p) else None
  }

  ghost predicate ForksOk(s: State)
    requires s.Sized()
  {
    && (forall p {:trigger s.pc[p]} :: 0 <= p < s.N() && Making(s.pc[p]).Some? ==> JobOk(s, p, Making(s.pc[p]).value))
    && (forall p, q {:trigger s.pc[p], s.pc[q]} ::
        0 <= p < q < s.N() && Making(s.pc[p]).Some? && Making(s.pc[q]).Some? ==>
          Making(s.pc[p]).value.np != Making(s.pc[q]).value.np)
  }

  // ---------- wakeups ----------

  /** Process p is in wait()'s sleep(): past the release of wait_lock and not yet woken. */
  predicate Asleep(s: State, p: nat)
    requires s.Sized() && p < s.N()
  {
    s.pc[p] == WMark || s.pc[p] == WGone || (s.pc[p] == WAsleep && s.life[p] == SLEEPING)
  }

  /** How many slots wait() has looked at in vain; all of them once it goes to sleep. */
  function Seen(pc: Pc, n: nat): nat {
    match pc
    case WScan(i, _) => i
    case WChild(i) => i
    case WSleep => n
    case WDrop => n
    case _ => 0
  }

  /** The wakeup(initproc) in reparent() has yet to reach p. */
  predicate WakePending(s: State, p: nat)
    requires s.Sized()
  {
    s.waitLock.Some? && s.waitLock.value < s.N() && p == s.initproc
    && match s.pc[s.waitLock.value] case EWakeInit(_, j) => j <= p case _ => false
  }

  /** The parent has been woken by this exit(). */
  predicate ParentWoken(pc: Pc, parent: nat) {
    match pc
    case EWakeParent(j) => parent < j
    case EZombie => true
    case EDrop => true
    case _ => false
  }

  ghost predicate WakesOk(s: State)
    requires s.Sized()
  {
    && (forall c {:trigger s.parent[c]} :: 0 <= c < s.N() && s.parent[c].Some? ==> s.parent[c].value < s.N())
    && (forall c {:trigger s.parent[c]} :: 0 <= c < s.N() && s.parent[c].Some? && s.life[c] == ZOMBIE ==>
          Asleep(s, s.parent[c].value) ==> WakePending(s, s.parent[c].value))
    && (forall c {:trigger s.parent[c]} ::
        0 <= c < s.N() && s.parent[c].Some? && ParentWoken(s.pc[c], s.parent[c].value) ==>
          !Asleep(s, s.parent[c].value))
    && (forall c {:trigger s.parent[c]} :: 0 <= c < s.N() && s.parent[c].Some? ==>
          c < Seen(s.pc[s.parent[c].value], s.N()) ==> s.life[c] != ZOMBIE)
  }

  // ---------- process numbers ----------

  ghost predicate PidsOk(s: State)
    requires s.Sized()
  {
    && (forall p {:trigger s.pid[p]} :: 0 <= p < s.N() && s.life[p] != UNUSED ==>
          0 < s.pid[p] < s.nextPid && s.pid[p] !in s.reaped && (s.pid[p] in s.exited <==> s.life[p] == ZOMBIE))
    && (forall p, q {:trigger s.pid[p], s.pid[q]} ::
        0 <= p < q < s.N() && s.life[p] != UNUSED && s.life[q] != UNUSED ==>
          s.pid[p] != s.pid[q])
    && (forall i :: 0 <= i < |s.exited| ==> s.exited[i] < s.nextPid)
    && (forall i, j :: 0 <= i < j < |s.exited| ==> s.exited[i] != s.exited[j])
    && (forall i :: 0 <= i < |s.reaped| ==> s.reaped[i] in s.exited)
    && (forall i, j :: 0 <= i < j < |s.reaped| ==> s.reaped[i] != s.reaped[j])
  }

  // ---------- loops ----------

  /** Every loop variable is at most NPROC. */
  predicate InBounds(pc: Pc, n: nat) {
    match pc
    case WScan(i, _) => i <= n
    case EScan(i) => i <= n
    case EWakeInit(i, j) => i < n && j <= n
    case EWakeParent(j) => j <= n
    case _ => true
  }

  ghost predicate LoopsOk(s: State)
    requires s.Sized()
  {
    forall p {:trigger s.pc[p]} :: 0 <= p < s.N() ==> InBounds(s.pc[p], s.N())
  }

  ghost predicate Inv(s: State) {
    s.Sized() && LocksOk(s) && LivesOk(s) && KinOk(s) && ForksOk(s) && WakesOk(s) && PidsOk(s) && LoopsOk(s)
  }

  /** Everything but p and k is as it was. */
  ghost predicate Alone(s: State, t: State, p: nat, k: nat)
    requires s.Sized()
  {
    && t.Sized() && p < s.N() == t.N() && k < s.N() && t.initproc == s.initproc
    && forall q {:trigger t.pc[q]} {:trigger t.life[q]} :: 0 <= q < s.N() && q != p && q != k ==>
         t.pc[q] == s.pc[q] && t.life[q] == s.life[q] && t.chan[q] == s.chan[q]
  }

  /** Where process q can be, and what it can be doing there. */
  predicate Fits(s: State, q: nat)
    requires s.Sized()
  {
    q < s.N() && LifeOk(q, s.life[q], s.chan[q], s.pc[q])
    && (q == s.initproc ==> !Exiting(s.pc[q]) && s.life[q] != UNUSED && s.life[q] != USED)
  }

  lemma LivesAlone(s: State, t: State, p: nat, k: nat)
    requires s.Sized() && LivesOk(s) && Alone(s, t, p, k) && Fits(t, p) && Fits(t, k)
    ensures LivesOk(t)
  {
    hide LifeOk, Exiting;
  }

  lemma LivesFit(s: State, p: nat)
    requires s.Sized() && LivesOk(s) && p < s.N()
    ensures Fits(s, p)
  {
    hide LifeOk, Exiting;
  }

  // ---------- every step keeps the locks ... ----------

  lemma WaitLocks(s: State, t: State, p: nat, i: nat, kids: bool)
    requires s.Sized() && LocksOk(s) && WaitStep(s, t, p, i, kids)
    ensures t.Sized() && LocksOk(t)
  {
    hide LocksOk;
    TurnLocks(s, t, p, t.pc[p]);
  }

  lemma ChildLocks(s: State, t: State, p: nat, i: nat)
    requires s.Sized() && LocksOk(s) && LivesOk(s) && ChildStep(s, t, p, i)
    ensures t.Sized() && LocksOk(t)
  {
    hide LocksOk, LivesOk;
    if WaitReap(s, t, p, i) {
      ZombieIsDead(s, p, i);
      BackToUser(s, i);
      TurnLocks(s.(pc := s.pc[i := User]), t, p, WFound(i));
    } else {
      TurnLocks(s, t, p, t.pc[p]);
    }
  }

  /** A zombie whose lock can be taken while wait_lock is held has left the CPU. */
  lemma ZombieIsDead(s: State, p: nat, i: nat)
    requires s.Sized() && LocksOk(s) && LivesOk(s) && At(s, p, WChild(i)) && i < s.N() && s.life[i] == ZOMBIE
    ensures s.pc[i] == EDead && i != p
  {
  }

  lemma BackToUser(s: State, i: nat)
    requires s.Sized() && LocksOk(s) && i < s.N() && s.pc[i] == EDead
    ensures LocksOk(s.(pc := s.pc[i := User]))
  {
  }

  lemma SleepLocks(s: State, t: State, p: nat)
    requires s.Sized() && LocksOk(s) && SleepStep(s, t, p)
    ensures t.Sized() && LocksOk(t)
  {
    hide LocksOk;
    TurnLocks(s, t, p, t.pc[p]);
  }

  lemma ForkLocks(s: State, t: State, p: nat, np: nat)
    requires s.Sized() && LocksOk(s) && ForkStep(s, t, p, np)
    ensures t.Sized() && LocksOk(t)
  {
    hide LocksOk;
    TurnLocks(s, t, p, t.pc[p]);
  }

  lemma AdoptLocks(s: State, t: State, p: nat, i: nat, j: nat)
    requires s.Sized() && LocksOk(s) && AdoptStep(s, t, p, i, j)
    ensures t.Sized() && LocksOk(t)
  {
    hide LocksOk;
    TurnLocks(s, t, p, t.pc[p]);
  }

  lemma ExitLocks(s: State, t: State, p: nat, j: nat)
    requires s.Sized() && LocksOk(s) && ExitStep(s, t, p, j)
    ensures t.Sized() && LocksOk(t)
  {
    hide LocksOk;
    TurnLocks(s, t, p, t.pc[p]);
  }

  lemma EndLocks(s: State, t: State, p: nat)
    requires s.Sized() && LocksOk(s) && EndStep(s, t, p)
    ensures t.Sized() && LocksOk(t)
  {
    hide LocksOk;
    TurnLocks(s, t, p, t.pc[p]);
  }

  lemma OtherLocks(s: State, t: State, p: nat)
    requires s.Sized() && LocksOk(s) && OtherStep(s, t, p)
    ensures t.Sized() && LocksOk(t)
  {
    hide LocksOk;
    TurnLocks(s, t, p, t.pc[p]);
  }

  // ---------- ... and what a process can be doing where ----------

  lemma WaitLives(s: State, t: State, p: nat, i: nat, kids: bool)
    requires s.Sized() && LivesOk(s) && WaitStep(s, t, p, i, kids)
    ensures t.Sized() && LivesOk(t)
  {
    hide LivesOk;
    LivesFit(s, p);
    LivesAlone(s, t, p, p);
  }

  lemma ChildLives(s: State, t: State, p: nat, i: nat)
    requires s.Sized() && LocksOk(s) && LivesOk(s) && ChildStep(s, t, p, i)
    ensures t.Sized() && LivesOk(t)
  {
    hide LocksOk, LivesOk;
    LivesFit(s, p);
    if WaitReap(s, t, p, i) {
      ZombieIsDead(s, p, i);
      LivesFit(s, i);
      LivesAlone(s, t, p, i);
    } else {
      LivesAlone(s, t, p, p);
    }
  }

  lemma SleepLives(s: State, t: State, p: nat)
    requires s.Sized() && LivesOk(s) && SleepStep(s, t, p)
    ensures t.Sized() && LivesOk(t)
  {
    hide LivesOk;
    LivesFit(s, p);
    LivesAlone(s, t, p, p);
  }

  /** What fork() is making is not running anywhere. */
  lemma MadeIsIdle(s: State, p: nat)
    requires s.Sized() && LivesOk(s) && ForksOk(s) && p < s.N() && Making(s.pc[p]).Some?
    ensures JobOk(s, p, Making(s.pc[p]).value)
    ensures s.pc[Making(s.pc[p]).value.np] == User && Making(s.pc[p]).value.np != s.initproc
  {
    hide Exiting;
  }

  lemma ForkLives(s: State, t: State, p: nat, np: nat)
    requires s.Sized() && LivesOk(s) && ForksOk(s) && ForkStep(s, t, p, np)
    ensures t.Sized() && LivesOk(t)
  {
    hide LivesOk, ForksOk;
    if ForkAlloc(s, t, p, np) { AllocLives(s, t, p, np); } else { MadeLives(s, t, p, np); }
  }

  lemma AllocLives(s: State, t: State, p: nat, np: nat)
    requires s.Sized() && LivesOk(s) && ForkAlloc(s, t, p, np)
    ensures t.Sized() && LivesOk(t)
  {
    hide LivesOk;
    LivesFit(s, p);
    LivesFit(s, np);
    LivesAlone(s, t, p, np);
  }

  lemma MadeLives(s: State, t: State, p: nat, np: nat)
    requires s.Sized() && LivesOk(s) && ForksOk(s) && ForkStep(s, t, p, np) && !ForkAlloc(s, t, p, np)
    ensures t.Sized() && LivesOk(t)
  {
    hide LivesOk, ForksOk, ForkAlloc;
    LivesFit(s, p);
    MadeIsIdle(s, p);
    LivesAlone(s, t, p, np);
  }

  lemma AdoptLives(s: State, t: State, p: nat, i: nat, j: nat)
    requires s.Sized() && LocksOk(s) && LivesOk(s) && AdoptStep(s, t, p, i, j)
    ensures t.Sized() && LivesOk(t)
  {
    hide LocksOk, LivesOk;
    LivesFit(s, p);
    if ExitWakeInit(s, t, p, i, j) {
      LivesFit(s, j);
      OffCpu(s, j);
      LivesAlone(s, t, p, j);
    } else {
      LivesAlone(s, t, p, p);
    }
  }

  lemma ExitLives(s: State, t: State, p: nat, j: nat)
    requires s.Sized() && LocksOk(s) && LivesOk(s) && ExitStep(s, t, p, j)
    ensures t.Sized() && LivesOk(t)
  {
    hide LocksOk, LivesOk;
    LivesFit(s, p);
    if ExitWakeParent(s, t, p, j) {
      LivesFit(s, j);
      OffCpu(s, j);
      LivesAlone(s, t, p, j);
    } else {
      LivesAlone(s, t, p, p);
    }
  }

  lemma EndLives(s: State, t: State, p: nat)
    requires s.Sized() && LivesOk(s) && EndStep(s, t, p)
    ensures t.Sized() && LivesOk(t)
  {
    hide LivesOk;
    LivesFit(s, p);
    LivesAlone(s, t, p, p);
  }

  /** A process in the middle of sched() has its lock held. */
  lemma OffCpu(s: State, k: nat)
    requires s.Sized() && LocksOk(s) && k < s.N()
    ensures Unlocked(s, k) ==> s.pc[k] != WMark && s.pc[k] != WGone
  {
  }

  lemma OtherLives(s: State, t: State, p: nat)
    requires s.Sized() && LocksOk(s) && LivesOk(s) && OtherStep(s, t, p)
    ensures t.Sized() && LivesOk(t)
  {
    hide LocksOk, LivesOk;
    LivesFit(s, p);
    OffCpu(s, p);
    LivesAlone(s, t, p, p);
  }

  // ---------- ... and who is whose parent ----------

  /** A step that changes no parent and takes nobody into or out of life keeps the families. */
  lemma KinSame(s: State, t: State, p: nat)
    requires s.Sized() && KinOk(s) && t.Sized() && t.N() == s.N() && p < s.N()
    requires t.initproc == s.initproc && t.parent == s.parent && t.pc == s.pc[p := t.pc[p]]
    requires forall c {:trigger t.life[c]} :: 0 <= c < s.N() ==>
               t.life[c] == s.life[c] || (Alive(t.life[c]) && Alive(s.life[c]))
    requires forall c {:trigger s.parent[c]} :: 0 <= c < s.N() && s.parent[c] == Some(p) ==>
               MayParent(s.pc[p], c) ==> MayParent(t.pc[p], c)
    ensures KinOk(t)
  {
    hide MayParent;
    forall c {:trigger s.parent[c]} | 0 <= c < s.N() && s.parent[c].Some?
      ensures s.parent[c].value < s.N() && Alive(t.life[s.parent[c].value]) && MayParent(t.pc[s.parent[c].value], c)
    {
    }
  }

  lemma WaitKin(s: State, t: State, p: nat, i: nat, kids: bool)
    requires s.Sized() && KinOk(s) && WaitStep(s, t, p, i, kids)
    ensures t.Sized() && KinOk(t)
  {
    hide KinOk;
    KinSame(s, t, p);
  }

  lemma ChildKin(s: State, t: State, p: nat, i: nat)
    requires s.Sized() && LocksOk(s) && LivesOk(s) && KinOk(s) && ChildStep(s, t, p, i)
    ensures t.Sized() && KinOk(t)
  {
    hide LocksOk, LivesOk, KinOk;
    if WaitReap(s, t, p, i) {
      ZombieIsDead(s, p, i);
      LivesFit(s, s.initproc);
      ReapKin(s, t, p, i);
    } else {
      KinSame(s, t, p);
    }
  }

  lemma ReapKin(s: State, t: State, p: nat, i: nat)
    requires s.Sized() && KinOk(s) && WaitReap(s, t, p, i) && i != s.initproc
    ensures KinOk(t)
  {
    hide MayParent;
    InWait(i);
    forall c {:trigger t.parent[c]} | 0 <= c < s.N() && t.parent[c].Some?
      ensures t.parent[c] == s.parent[c] && t.parent[c].value != i
    {
      var x := s.parent[c];
    }
    forall c {:trigger t.life[c]} | 0 <= c < s.N() && c != i ensures t.life[c] == s.life[c] { var x := s.life[c]; }
  }

  lemma InWait(i: nat)
    ensures forall c: nat :: MayParent(WFound(i), c)
  {
  }

  lemma SleepKin(s: State, t: State, p: nat)
    requires s.Sized() && KinOk(s) && SleepStep(s, t, p)
    ensures t.Sized() && KinOk(t)
  {
    hide KinOk;
    KinSame(s, t, p);
  }

  lemma ForkKin(s: State, t: State, p: nat, np: nat)
    requires s.Sized() && LivesOk(s) && ForksOk(s) && KinOk(s) && ForkStep(s, t, p, np)
    ensures t.Sized() && KinOk(t)
  {
    hide LivesOk, ForksOk, KinOk, MayParent, Alive;
    if ForkAlloc(s, t, p, np) {
      AllocKin(s, t, p, np);
    } else {
      MadeIsIdle(s, p);
      if ForkFail(s, t, p, np) { FailKin(s, t, p, np); }
      else if ForkSet(s, t, p, np) { SetKin(s, t, p, np); }
      else if ForkRun(s, t, p, np) { RunKin(s, t, p, np); }
      else { StillForking(s, t, p, np); }
    }
  }

  lemma StillForking(s: State, t: State, p: nat, np: nat)
    requires s.Sized() && KinOk(s) && (ForkBuilt(s, t, p, np) || ForkLink(s, t, p, np) || ForkUnlink(s, t, p, np))
    ensures KinOk(t)
  {
    hide KinOk;
    KinSame(s, t, p);
  }

  lemma AllocKin(s: State, t: State, p: nat, np: nat)
    requires s.Sized() && KinOk(s) && ForkAlloc(s, t, p, np)
    ensures KinOk(t)
  {
  }

  lemma FailKin(s: State, t: State, p: nat, np: nat)
    requires s.Sized() && KinOk(s) && ForkFail(s, t, p, np) && s.life[np] == USED
    ensures KinOk(t)
  {
    hide MayParent;
    InFork(np);
  }

  lemma SetKin(s: State, t: State, p: nat, np: nat)
    requires s.Sized() && KinOk(s) && ForkSet(s, t, p, np) && s.life[np] == USED && np != s.initproc
    ensures KinOk(t)
  {
  }

  lemma RunKin(s: State, t: State, p: nat, np: nat)
    requires s.Sized() && KinOk(s) && ForkRun(s, t, p, np) && s.life[np] == USED && s.parent[np].Some?
    ensures KinOk(t)
  {
    hide MayParent;
    InFork(np);
  }

  lemma InFork(np: nat)
    ensures forall c: nat ::
              MayParent(User, c) && MayParent(FRun(np), c) && MayParent(FNew(np), c) && MayParent(FUnlink(np), c)
  {
  }

  lemma AdoptKin(s: State, t: State, p: nat, i: nat, j: nat)
    requires s.Sized() && LivesOk(s) && KinOk(s) && AdoptStep(s, t, p, i, j)
    ensures t.Sized() && KinOk(t)
  {
    hide LivesOk, KinOk;
    if ExitScan(s, t, p, i) && s.parent[i] == Some(p) {
      LivesFit(s, s.initproc);
      KinAdopt(s, t, p, i);
    } else {
      KinSame(s, t, p);
    }
  }

  lemma KinAdopt(s: State, t: State, p: nat, i: nat)
    requires s.Sized() && KinOk(s) && ExitScan(s, t, p, i) && s.parent[i] == Some(p)
    requires Fits(s, s.initproc)
    ensures KinOk(t)
  {
  }

  lemma ExitKin(s: State, t: State, p: nat, j: nat)
    requires s.Sized() && KinOk(s) && ExitStep(s, t, p, j)
    ensures t.Sized() && KinOk(t)
  {
    hide KinOk;
    KinSame(s, t, p);
  }

  lemma EndKin(s: State, t: State, p: nat)
    requires s.Sized() && KinOk(s) && EndStep(s, t, p)
    ensures t.Sized() && KinOk(t)
  {
    hide KinOk;
    if ExitMark(s, t, p) {
      MarkKin(s, t, p);
    } else {
      KinSame(s, t, p);
    }
  }

  lemma MarkKin(s: State, t: State, p: nat)
    requires s.Sized() && KinOk(s) && ExitMark(s, t, p)
    ensures KinOk(t)
  {
  }

  lemma OtherKin(s: State, t: State, p: nat)
    requires s.Sized() && KinOk(s) && OtherStep(s, t, p)
    ensures t.Sized() && KinOk(t)
  {
    hide KinOk;
    KinSame(s, t, p);
  }

  // ---------- ... what fork() is making ----------

  lemma ForksSame(s: State, t: State)
    requires s.Sized() && ForksOk(s) && t.Sized() && t.N() == s.N()
    requires forall q {:trigger t.pc[q]} :: 0 <= q < s.N() ==> Making(t.pc[q]) == Making(s.pc[q])
    requires forall c {:trigger t.life[c]} :: 0 <= c < s.N() && s.life[c] == USED ==>
        t.life[c] == USED && t.parent[c] == s.parent[c]
    ensures ForksOk(t)
  {
    hide Making;
  }

  lemma WaitForks(s: State, t: State, p: nat, i: nat, kids: bool)
    requires s.Sized() && ForksOk(s) && WaitStep(s, t, p, i, kids)
    ensures t.Sized() && ForksOk(t)
  {
    hide ForksOk;
    ForksSame(s, t);
  }

  lemma ChildForks(s: State, t: State, p: nat, i: nat)
    requires s.Sized() && LocksOk(s) && LivesOk(s) && ForksOk(s) && ChildStep(s, t, p, i)
    ensures t.Sized() && ForksOk(t)
  {
    hide LocksOk, LivesOk, ForksOk;
    if WaitReap(s, t, p, i) { ZombieIsDead(s, p, i); }
    ForksSame(s, t);
  }

  lemma SleepForks(s: State, t: State, p: nat)
    requires s.Sized() && ForksOk(s) && SleepStep(s, t, p)
    ensures t.Sized() && ForksOk(t)
  {
    hide ForksOk;
    ForksSame(s, t);
  }

  lemma MadeOnce(s: State, p: nat, np: nat)
    requires s.Sized() && ForksOk(s) && p < s.N() && Making(s.pc[p]).Some? && Making(s.pc[p]).value.np == np
    ensures forall q {:trigger s.pc[q]} :: 0 <= q < s.N() && q != p && Making(s.pc[q]).Some? ==>
        Making(s.pc[q]).value.np != np
  {
    hide Making;
  }

  lemma ForkForks(s: State, t: State, p: nat, np: nat)
    requires s.Sized() && LivesOk(s) && KinOk(s) && ForksOk(s) && ForkStep(s, t, p, np)
    ensures t.Sized() && ForksOk(t)
  {
    hide LivesOk, KinOk, ForksOk;
    if ForkAlloc(s, t, p, np) {
      UnusedAlone(s, np);
      AllocForks(s, t, p, np);
    } else {
      MadeOnce(s, p, np);
      MadeIsIdle(s, p);
      if ForkFail(s, t, p, np) || ForkRun(s, t, p, np) { DoneForks(s, t, p, np); }
      else if ForkSet(s, t, p, np) { SetForks(s, t, p, np); }
      else { ForksSame(s, t); }
    }
  }

  lemma UnusedAlone(s: State, np: nat)
    requires s.Sized() && KinOk(s) && np < s.N() && s.life[np] == UNUSED
    ensures s.parent[np] == None
  {
  }

  lemma AllocForks(s: State, t: State, p: nat, np: nat)
    requires s.Sized() && ForksOk(s) && ForkAlloc(s, t, p, np) && s.parent[np] == None
    ensures ForksOk(t)
  {
  }

  lemma DoneForks(s: State, t: State, p: nat, np: nat)
    requires s.Sized() && ForksOk(s) && t.Sized() && t.N() == s.N() && p < s.N() && np < s.N()
    requires t.pc == s.pc[p := User] && t.life == s.life[np := t.life[np]]
    requires t.parent == s.parent || t.parent == s.parent[np := None]
    requires forall q {:trigger s.pc[q]} :: 0 <= q < s.N() && q != p && Making(s.pc[q]).Some? ==>
        Making(s.pc[q]).value.np != np
    ensures ForksOk(t)
  {
    assert Making(User) == None;
    assert ForksOk(t) by { hide Making; }
  }

  lemma SetForks(s: State, t: State, p: nat, np: nat)
    requires s.Sized() && ForksOk(s) && ForkSet(s, t, p, np) && s.life[np] == USED
    requires forall q {:trigger s.pc[q]} :: 0 <= q < s.N() && q != p && Making(s.pc[q]).Some? ==>
        Making(s.pc[q]).value.np != np
    ensures ForksOk(t)
  {
  }

  lemma AdoptForks(s: State, t: State, p: nat, i: nat, j: nat)
    requires s.Sized() && ForksOk(s) && AdoptStep(s, t, p, i, j)
    ensures t.Sized() && ForksOk(t)
  {
    hide ForksOk;
    if ExitScan(s, t, p, i) && s.parent[i] == Some(p) {
      AdoptedForks(s, t, p, i);
    } else {
      ForksSame(s, t);
    }
  }

  /** The child of an exiting process is not still being made. */
  lemma AdoptedForks(s: State, t: State, p: nat, i: nat)
    requires s.Sized() && ForksOk(s) && ExitScan(s, t, p, i) && s.parent[i] == Some(p)
    ensures ForksOk(t)
  {
    assert Making(EScan(i)) == Making(EWakeInit(i, 0)) == None;
    assert ForksOk(t) by { hide Making; }
  }

  lemma ExitForks(s: State, t: State, p: nat, j: nat)
    requires s.Sized() && ForksOk(s) && ExitStep(s, t, p, j)
    ensures t.Sized() && ForksOk(t)
  {
    hide ForksOk;
    ForksSame(s, t);
  }

  lemma EndForks(s: State, t: State, p: nat)
    requires s.Sized() && ForksOk(s) && EndStep(s, t, p)
    ensures t.Sized() && ForksOk(t)
  {
    hide ForksOk;
    ForksSame(s, t);
  }

  lemma OtherForks(s: State, t: State, p: nat)
    requires s.Sized() && ForksOk(s) && OtherStep(s, t, p)
    ensures t.Sized() && ForksOk(t)
  {
    hide ForksOk;
    ForksSame(s, t);
  }

  // ---------- ... and the process numbers ----------

  lemma PidsSame(s: State, t: State)
    requires s.Sized() && PidsOk(s) && t.Sized() && t.N() == s.N()
    requires t.pid == s.pid && t.exited == s.exited && t.reaped == s.reaped && t.nextPid == s.nextPid
    requires forall c {:trigger t.pid[c]} :: 0 <= c < s.N() ==>
               (t.life[c] == UNUSED <==> s.life[c] == UNUSED) && (t.life[c] == ZOMBIE <==> s.life[c] == ZOMBIE)
    ensures PidsOk(t)
  {
  }

  lemma ReapPids(s: State, t: State, p: nat, i: nat)
    requires s.Sized() && PidsOk(s) && WaitReap(s, t, p, i)
    ensures PidsOk(t)
  {
  }

  lemma AllocPids(s: State, t: State, p: nat, np: nat)
    requires s.Sized() && PidsOk(s) && ForkAlloc(s, t, p, np)
    ensures PidsOk(t)
  {
    assert 0 < s.pid[p] < s.nextPid && s.nextPid !in s.exited && s.nextPid !in s.reaped;
    forall q {:trigger t.pid[q]} | 0 <= q < t.N() && t.life[q] != UNUSED
      ensures 0 < t.pid[q] < t.nextPid && t.pid[q] !in t.reaped && (t.pid[q] in t.exited <==> t.life[q] == ZOMBIE)
      ensures q != np ==> t.pid[q] == s.pid[q] < s.nextPid && s.life[q] == t.life[q]
    {
      if q != np { assert s.life[q] == t.life[q] && t.pid[q] == s.pid[q]; }
    }
  }

  lemma FailPids(s: State, t: State, p: nat, np: nat)
    requires s.Sized() && PidsOk(s) && ForkFail(s, t, p, np)
    ensures PidsOk(t)
  {
  }

  lemma MarkPids(s: State, t: State, p: nat)
    requires s.Sized() && PidsOk(s) && ExitMark(s, t, p)
    ensures PidsOk(t)
  {
    assert s.pid[p] !in s.exited && s.pid[p] !in s.reaped;
    Exited(s.exited, s.pid[p]);
    forall q {:trigger t.pid[q]} | 0 <= q < t.N() && t.life[q] != UNUSED
      ensures 0 < t.pid[q] < t.nextPid && t.pid[q] !in t.reaped && (t.pid[q] in t.exited <==> t.life[q] == ZOMBIE)
    {
      if q != p { assert s.pid[q] != s.pid[p] && s.life[q] == t.life[q]; }
    }
  }

  lemma Exited(exited: seq<nat>, pid: nat)
    requires pid !in exited && forall i, j :: 0 <= i < j < |exited| ==> exited[i] != exited[j]
    ensures forall x :: x in exited + [pid] <==> x in exited || x == pid
    ensures forall i, j :: 0 <= i < j < |exited + [pid]| ==> (exited + [pid])[i] != (exited + [pid])[j]
  {
    forall i, j | 0 <= i < j < |exited + [pid]| ensures (exited + [pid])[i] != (exited + [pid])[j] {
      assert exited[i] in exited;
    }
  }

  lemma WaitPids(s: State, t: State, p: nat, i: nat, kids: bool)
    requires s.Sized() && PidsOk(s) && WaitStep(s, t, p, i, kids)
    ensures t.Sized() && PidsOk(t)
  {
    hide PidsOk;
    PidsSame(s, t);
  }

  lemma ChildPids(s: State, t: State, p: nat, i: nat)
    requires s.Sized() && PidsOk(s) && ChildStep(s, t, p, i)
    ensures t.Sized() && PidsOk(t)
  {
    hide PidsOk;
    if WaitReap(s, t, p, i) { ReapPids(s, t, p, i); } else { PidsSame(s, t); }
  }

  lemma SleepPids(s: State, t: State, p: nat)
    requires s.Sized() && PidsOk(s) && SleepStep(s, t, p)
    ensures t.Sized() && PidsOk(t)
  {
    hide PidsOk;
    PidsSame(s, t);
  }

  lemma ForkPids(s: State, t: State, p: nat, np: nat)
    requires s.Sized() && LivesOk(s) && ForksOk(s) && PidsOk(s) && ForkStep(s, t, p, np)
    ensures t.Sized() && PidsOk(t)
  {
    hide LivesOk, ForksOk, PidsOk;
    if ForkAlloc(s, t, p, np) {
      AllocPids(s, t, p, np);
    } else if ForkFail(s, t, p, np) {
      FailPids(s, t, p, np);
    } else {
      MadeIsIdle(s, p);
      PidsSame(s, t);
    }
  }

  lemma AdoptPids(s: State, t: State, p: nat, i: nat, j: nat)
    requires s.Sized() && PidsOk(s) && AdoptStep(s, t, p, i, j)
    ensures t.Sized() && PidsOk(t)
  {
    hide PidsOk;
    PidsSame(s, t);
  }

  lemma ExitPids(s: State, t: State, p: nat, j: nat)
    requires s.Sized() && PidsOk(s) && ExitStep(s, t, p, j)
    ensures t.Sized() && PidsOk(t)
  {
    hide PidsOk;
    PidsSame(s, t);
  }

  lemma EndPids(s: State, t: State, p: nat)
    requires s.Sized() && PidsOk(s) && EndStep(s, t, p)
    ensures t.Sized() && PidsOk(t)
  {
    hide PidsOk;
    if ExitMark(s, t, p) { MarkPids(s, t, p); } else { PidsSame(s, t); }
  }

  lemma OtherPids(s: State, t: State, p: nat)
    requires s.Sized() && PidsOk(s) && OtherStep(s, t, p)
    ensures t.Sized() && PidsOk(t)
  {
    hide PidsOk;
    PidsSame(s, t);
  }

  // ---------- ... and no wakeup is lost ----------

  /** A step that puts nobody to sleep, makes no zombie and passes over no child keeps the promise. */
  lemma WakesSame(s: State, t: State, p: nat)
    requires s.Sized() && WakesOk(s) && t.Sized() && t.N() == s.N() && p < s.N()
    requires t.parent == s.parent && t.initproc == s.initproc && t.pc == s.pc[p := t.pc[p]]
    requires forall c {:trigger t.life[c]} :: 0 <= c < s.N() && t.life[c] == ZOMBIE ==> s.life[c] == ZOMBIE
    requires forall q {:trigger Asleep(t, q)} :: 0 <= q < s.N() && Asleep(t, q) ==> Asleep(s, q)
    requires Seen(t.pc[p], s.N()) <= Seen(s.pc[p], s.N())
    requires s.parent[p].Some? && s.parent[p].value < s.N() && ParentWoken(t.pc[p], s.parent[p].value) ==>
               ParentWoken(s.pc[p], s.parent[p].value) || !Asleep(t, s.parent[p].value)
    requires WakePending(s, s.initproc) ==> WakePending(t, s.initproc) || !Asleep(t, s.initproc)
    ensures WakesOk(t)
  {
    hide Asleep, Seen, ParentWoken, WakePending;
    forall c {:trigger s.parent[c]} | 0 <= c < s.N() && s.parent[c].Some? && t.life[c] == ZOMBIE
      ensures Asleep(t, s.parent[c].value) ==> WakePending(t, s.parent[c].value)
    {
      var x := s.parent[c].value;
      if Asleep(t, x) { PendingIsInit(s, x); }
    }
    forall c {:trigger s.parent[c]} | 0 <= c < s.N() && s.parent[c].Some? && ParentWoken(t.pc[c], s.parent[c].value)
      ensures !Asleep(t, s.parent[c].value)
    {
    }
    forall c {:trigger s.parent[c]} | 0 <= c < s.N() && s.parent[c].Some?
      ensures c < Seen(t.pc[s.parent[c].value], s.N()) ==> t.life[c] != ZOMBIE
    {
    }
  }

  lemma PendingIsInit(s: State, x: nat)
    requires s.Sized()
    ensures WakePending(s, x) ==> x == s.initproc
  {
  }

  lemma Holder(s: State, p: nat)
    requires s.Sized() && LocksOk(s) && p < s.N() && HoldsWait(s.pc[p])
    ensures s.waitLock == Some(p)
  {
  }

  lemma WaitWakes(s: State, t: State, p: nat, i: nat, kids: bool)
    requires s.Sized() && LocksOk(s) && WakesOk(s) && WaitStep(s, t, p, i, kids)
    ensures t.Sized() && WakesOk(t)
  {
    hide LocksOk, WakesOk;
    if At(s, p, WScan(i, kids)) && i < s.N() && s.parent[i] != Some(p) {
      SkipWakes(s, t, p, i);
    } else {
      if WaitOut(s, t, p) { Holder(s, p); }
      WakesSame(s, t, p);
    }
  }

  /** wait() has looked at one more slot, which is not a dead child of its own. */
  lemma SkipWakes(s: State, t: State, p: nat, i: nat)
    requires s.Sized() && WakesOk(s) && p < s.N() && i < s.N() && Seen(s.pc[p], s.N()) == i
    requires t.Sized() && t.N() == s.N() && t.pc == s.pc[p := t.pc[p]] && t.pc[p].WScan? && t.pc[p].i == i + 1
    requires t.life == s.life && t.parent == s.parent && t.waitLock == s.waitLock && t.initproc == s.initproc
    requires s.pc[p].WScan? || s.pc[p].WChild?
    requires s.parent[i] != Some(p) || s.life[i] != ZOMBIE
    ensures WakesOk(t)
  {
    hide Asleep, Seen, ParentWoken, WakePending;
    SkipPcs(s, t, p, i);
    forall c {:trigger s.parent[c]} | 0 <= c < s.N() && s.parent[c].Some? && s.life[c] == ZOMBIE
      ensures Asleep(t, s.parent[c].value) ==> WakePending(t, s.parent[c].value)
    {
      var x := s.parent[c].value;
      var was, now := WakePending(s, x), WakePending(t, x);
    }
    forall c {:trigger s.parent[c]} | 0 <= c < s.N() && s.parent[c].Some?
      ensures c < Seen(t.pc[s.parent[c].value], s.N()) ==> t.life[c] != ZOMBIE
    {
    }
  }

  lemma SkipPcs(s: State, t: State, p: nat, i: nat)
    requires s.Sized() && p < s.N() && i < s.N() && Seen(s.pc[p], s.N()) == i
    requires t.Sized() && t.N() == s.N() && t.pc == s.pc[p := t.pc[p]] && t.pc[p].WScan? && t.pc[p].i == i + 1
    requires t.life == s.life && t.waitLock == s.waitLock && t.initproc == s.initproc
    requires s.pc[p].WScan? || s.pc[p].WChild?
    ensures Seen(t.pc[p], s.N()) == i + 1
    ensures forall q {:trigger Asleep(t, q)} :: 0 <= q < s.N() && Asleep(t, q) ==> Asleep(s, q)
    ensures forall x: nat {:trigger ParentWoken(t.pc[p], x)} :: !ParentWoken(t.pc[p], x)
    ensures forall x: nat {:trigger WakePending(t, x)} {:trigger WakePending(s, x)} ::
              WakePending(t, x) == WakePending(s, x)
  {
  }

  lemma ChildWakes(s: State, t: State, p: nat, i: nat)
    requires s.Sized() && LocksOk(s) && LivesOk(s) && WakesOk(s) && ChildStep(s, t, p, i)
    ensures t.Sized() && WakesOk(t)
  {
    hide LocksOk, LivesOk, WakesOk;
    if WaitReap(s, t, p, i) {
      ZombieIsDead(s, p, i);
      Holder(s, p);
      ReapWakes(s, t, p, i);
    } else if WaitPass(s, t, p, i) {
      SkipWakes(s, t, p, i);
    } else {
      WakesSame(s, t, p);
    }
  }

  lemma ReapWakes(s: State, t: State, p: nat, i: nat)
    requires s.Sized() && WakesOk(s) && WaitReap(s, t, p, i) && s.pc[i] == EDead && s.waitLock == Some(p)
    ensures WakesOk(t)
  {
    forall c {:trigger t.parent[c]} | 0 <= c < s.N() && t.parent[c].Some?
      ensures c != i && t.parent[c] == s.parent[c]
      ensures t.pc[t.parent[c].value] == s.pc[t.parent[c].value] || t.parent[c].value == i || t.parent[c].value == p
    {
    }
  }

  lemma SleepWakes(s: State, t: State, p: nat)
    requires s.Sized() && LocksOk(s) && LivesOk(s) && WakesOk(s) && SleepStep(s, t, p)
    ensures t.Sized() && WakesOk(t)
  {
    hide LocksOk, LivesOk, WakesOk;
    if SleepRelease(s, t, p) {
      ReleaseWakes(s, t, p);
    } else {
      WakesSame(s, t, p);
    }
  }

  /** The heart of the matter: wait() gives wait_lock up with its own lock held and no dead child. */
  lemma ReleaseWakes(s: State, t: State, p: nat)
    requires s.Sized() && LocksOk(s) && WakesOk(s) && SleepRelease(s, t, p)
    ensures WakesOk(t)
  {
    Holder(s, p);
    forall c {:trigger s.parent[c]} | 0 <= c < s.N() && s.parent[c].Some?
      ensures !ParentWoken(t.pc[c], s.parent[c].value)
    {
      assert c != p ==> !HoldsWait(s.pc[c]);
    }
    forall c {:trigger s.parent[c]} | 0 <= c < s.N() && s.parent[c].Some? && s.life[c] == ZOMBIE
      ensures s.parent[c].value != p && !Asleep(t, s.parent[c].value)
    {
    }
    hide LocksOk;
  }

  lemma ForkWakes(s: State, t: State, p: nat, np: nat)
    requires s.Sized() && LocksOk(s) && LivesOk(s) && ForksOk(s) && WakesOk(s) && ForkStep(s, t, p, np)
    ensures t.Sized() && WakesOk(t)
  {
    hide LocksOk, LivesOk, ForksOk, WakesOk, Asleep, Seen, ParentWoken, WakePending, LifeOk;
    if ForkAlloc(s, t, p, np) {
      ForkedWakes(s, t, p, np);
    } else {
      MadeIsIdle(s, p);
      if ForkSet(s, t, p, np) || ForkFail(s, t, p, np) { LinkWakes(s, t, p, np); } else { ForkedWakes(s, t, p, np); }
    }
  }

  lemma ForkedWakes(s: State, t: State, p: nat, np: nat)
    requires s.Sized() && LocksOk(s) && WakesOk(s)
    requires ForkAlloc(s, t, p, np) || ForkBuilt(s, t, p, np) || ForkLink(s, t, p, np) || ForkUnlink(s, t, p, np)
        || ForkRun(s, t, p, np)
    ensures WakesOk(t)
  {
    hide LocksOk, WakesOk;
    if ForkUnlink(s, t, p, np) { Holder(s, p); }
    WakesSame(s, t, p);
  }

  lemma Idling(pc: Pc, n: nat)
    requires !HoldsWait(pc)
    ensures Seen(pc, n) == 0 && forall x: nat :: !ParentWoken(pc, x)
  {
  }

  /** A new process is neither dead nor on its way there. */
  lemma LinkWakes(s: State, t: State, p: nat, np: nat)
    requires s.Sized() && WakesOk(s) && (ForkSet(s, t, p, np) || ForkFail(s, t, p, np))
    requires s.life[np] == USED && s.pc[np] == User
    ensures WakesOk(t)
  {
    Idling(User, s.N());
    assert Seen(FUnlink(np), s.N()) == Seen(FSet(np), s.N()) == Seen(FNew(np), s.N()) == 0;
    assert forall x: nat :: !ParentWoken(FUnlink(np), x);
    assert WakesOk(t) by { hide Seen, ParentWoken; }
  }

  lemma AdoptWakes(s: State, t: State, p: nat, i: nat, j: nat)
    requires s.Sized() && LocksOk(s) && LivesOk(s) && KinOk(s) && WakesOk(s) && AdoptStep(s, t, p, i, j)
    ensures t.Sized() && WakesOk(t)
  {
    hide LocksOk, LivesOk, KinOk, WakesOk, Asleep, Seen, ParentWoken, WakePending;
    if ExitScan(s, t, p, i) && s.parent[i] == Some(p) {
      AdoptedWakes(s, t, p, i);
    } else if ExitWakeInit(s, t, p, i, j) {
      RoundWakes(s, t, p, i, j);
    } else {
      PassedWakes(s, t, p, i);
    }
  }

  lemma PassedWakes(s: State, t: State, p: nat, i: nat)
    requires s.Sized() && WakesOk(s)
    requires ExitEnter(s, t, p) || (ExitScan(s, t, p, i) && s.parent[i] != Some(p)) || ExitWokeInit(s, t, p, i)
    ensures WakesOk(t)
  {
    hide WakesOk;
    WakesSame(s, t, p);
  }

  /** A round of wakeup(initproc); when it is init's turn, init is not left asleep. */
  lemma RoundWakes(s: State, t: State, p: nat, i: nat, j: nat)
    requires s.Sized() && LocksOk(s) && LivesOk(s) && WakesOk(s) && ExitWakeInit(s, t, p, i, j)
    ensures WakesOk(t)
  {
    hide LocksOk, LivesOk, WakesOk;
    Holder(s, p);
    OffCpu(s, j);
    LivesFit(s, j);
    LivesFit(s, s.initproc);
    WakesSame(s, t, p);
  }

  lemma NotHolder(s: State, q: nat, p: nat)
    requires s.Sized() && LocksOk(s) && q < s.N() && s.waitLock == Some(p) && q != p
    ensures !HoldsWait(s.pc[q]) && Seen(s.pc[q], s.N()) == 0 && forall x: nat :: !ParentWoken(s.pc[q], x)
  {
    Idling(s.pc[q], s.N());
  }

  lemma AdoptFacts(s: State, p: nat, i: nat)
    requires s.Sized() && LocksOk(s) && LivesOk(s) && KinOk(s) && At(s, p, EScan(i)) && i < s.N()
        && s.parent[i] == Some(p)
    ensures s.waitLock == Some(p) && p != s.initproc && i != p
    ensures Seen(s.pc[s.initproc], s.N()) == 0 && forall x: nat :: !ParentWoken(s.pc[i], x)
  {
    hide LocksOk, LivesOk, Seen, ParentWoken;
    Holder(s, p);
    NotHolder(s, i, p);
    LivesFit(s, s.initproc);
    NotHolder(s, s.initproc, p);
  }

  /** A zombie handed to a sleeping init: the wakeup(initproc) is about to start. */
  lemma AdoptedWakes(s: State, t: State, p: nat, i: nat)
    requires s.Sized() && LocksOk(s) && LivesOk(s) && KinOk(s) && WakesOk(s) && ExitScan(s, t, p, i)
        && s.parent[i] == Some(p)
    ensures WakesOk(t)
  {
    hide LocksOk, LivesOk, KinOk;
    AdoptFacts(s, p, i);
    assert Seen(EWakeInit(i, 0), s.N()) == 0 && forall x: nat :: !ParentWoken(EWakeInit(i, 0), x);
    assert WakePending(t, s.initproc);
    assert WakesOk(t) by { hide Seen, ParentWoken, WakePending; }
  }

  /** A process asleep in wait() whose lock is free can be woken. */
  lemma Wakeable(s: State, j: nat)
    requires s.Sized() && LocksOk(s) && LivesOk(s) && j < s.N()
    ensures Unlocked(s, j) && Asleep(s, j) ==> s.pc[j] == WAsleep && s.life[j] == SLEEPING && s.chan[j] == Of(j)
  {
    hide LocksOk, LivesOk;
    OffCpu(s, j);
    LivesFit(s, j);
  }

  lemma ExitWakes(s: State, t: State, p: nat, j: nat)
    requires s.Sized() && LocksOk(s) && LivesOk(s) && WakesOk(s) && ExitStep(s, t, p, j)
    ensures t.Sized() && WakesOk(t)
  {
    hide LocksOk, LivesOk, WakesOk;
    Holder(s, p);
    if ExitWakeParent(s, t, p, j) { Wakeable(s, j); }
    WakesSame(s, t, p);
  }

  lemma EndWakes(s: State, t: State, p: nat)
    requires s.Sized() && LocksOk(s) && WakesOk(s) && EndStep(s, t, p)
    ensures t.Sized() && WakesOk(t)
  {
    hide LocksOk, WakesOk;
    if ExitMark(s, t, p) {
      MarkWakes(s, t, p);
    } else {
      if ExitRelease(s, t, p) { Holder(s, p); }
      WakesSame(s, t, p);
    }
  }

  /** A process becomes a zombie while it holds wait_lock and its parent is awake. */
  lemma MarkWakes(s: State, t: State, p: nat)
    requires s.Sized() && LocksOk(s) && WakesOk(s) && ExitMark(s, t, p)
    ensures WakesOk(t)
  {
    Holder(s, p);
  }

  lemma OtherWakes(s: State, t: State, p: nat)
    requires s.Sized() && LivesOk(s) && WakesOk(s) && OtherStep(s, t, p)
    ensures t.Sized() && WakesOk(t)
  {
    hide LivesOk, WakesOk;
    LivesFit(s, p);
    WakesSame(s, t, p);
  }

  // ---------- ... and the loops are in bounds ----------

  lemma LoopsTurn(s: State, t: State, p: nat)
    requires s.Sized() && LoopsOk(s) && t.Sized() && t.N() == s.N() && p < s.N() && InBounds(t.pc[p], s.N())
    requires forall q {:trigger t.pc[q]} :: 0 <= q < s.N() && q != p ==> t.pc[q] == s.pc[q] || t.pc[q] == User
    ensures LoopsOk(t)
  {
    assert InBounds(User, s.N());
    assert LoopsOk(t) by { hide InBounds; }
  }

  lemma InLoop(s: State, p: nat)
    requires s.Sized() && LoopsOk(s) && p < s.N()
    ensures InBounds(s.pc[p], s.N())
  {
  }

  lemma WaitLoops(s: State, t: State, p: nat, i: nat, kids: bool)
    requires s.Sized() && LoopsOk(s) && WaitStep(s, t, p, i, kids)
    ensures t.Sized() && LoopsOk(t)
  {
    hide LoopsOk;
    InLoop(s, p);
    LoopsTurn(s, t, p);
  }

  lemma ChildLoops(s: State, t: State, p: nat, i: nat)
    requires s.Sized() && LoopsOk(s) && ChildStep(s, t, p, i)
    ensures t.Sized() && LoopsOk(t)
  {
    hide LoopsOk;
    InLoop(s, p);
    LoopsTurn(s, t, p);
  }

  lemma SleepLoops(s: State, t: State, p: nat)
    requires s.Sized() && LoopsOk(s) && SleepStep(s, t, p)
    ensures t.Sized() && LoopsOk(t)
  {
    hide LoopsOk;
    InLoop(s, p);
    LoopsTurn(s, t, p);
  }

  lemma ForkLoops(s: State, t: State, p: nat, np: nat)
    requires s.Sized() && LoopsOk(s) && ForkStep(s, t, p, np)
    ensures t.Sized() && LoopsOk(t)
  {
    hide LoopsOk;
    InLoop(s, p);
    LoopsTurn(s, t, p);
  }

  lemma AdoptLoops(s: State, t: State, p: nat, i: nat, j: nat)
    requires s.Sized() && LoopsOk(s) && AdoptStep(s, t, p, i, j)
    ensures t.Sized() && LoopsOk(t)
  {
    hide LoopsOk;
    InLoop(s, p);
    LoopsTurn(s, t, p);
  }

  lemma ExitLoops(s: State, t: State, p: nat, j: nat)
    requires s.Sized() && LoopsOk(s) && ExitStep(s, t, p, j)
    ensures t.Sized() && LoopsOk(t)
  {
    hide LoopsOk;
    InLoop(s, p);
    LoopsTurn(s, t, p);
  }

  lemma EndLoops(s: State, t: State, p: nat)
    requires s.Sized() && LoopsOk(s) && EndStep(s, t, p)
    ensures t.Sized() && LoopsOk(t)
  {
    hide LoopsOk;
    InLoop(s, p);
    LoopsTurn(s, t, p);
  }

  lemma OtherLoops(s: State, t: State, p: nat)
    requires s.Sized() && LoopsOk(s) && OtherStep(s, t, p)
    ensures t.Sized() && LoopsOk(t)
  {
    hide LoopsOk;
    InLoop(s, p);
    LoopsTurn(s, t, p);
  }

  // ---------- whole runs ----------

  lemma InitInv(s: State)
    requires Init(s)
    ensures Inv(s)
  {
  }

  lemma NextInv(s: State, t: State, e: Step)
    requires Inv(s) && Next(s, t, e)
    ensures Inv(t)
  {
    hide LocksOk, LivesOk, KinOk, ForksOk, WakesOk, PidsOk, LoopsOk, WaitStep, ChildStep, SleepStep, ForkStep,
        AdoptStep, ExitStep, EndStep, OtherStep;
    var p, i, j, kids := e.p, e.i, e.j, e.kids;
    if WaitStep(s, t, p, i, kids) {
      WaitLocks(s, t, p, i, kids); WaitLives(s, t, p, i, kids); WaitKin(s, t, p, i, kids);
      WaitForks(s, t, p, i, kids); WaitWakes(s, t, p, i, kids); WaitPids(s, t, p, i, kids); WaitLoops(s, t, p, i, kids);
    } else if ChildStep(s, t, p, i) {
      ChildLocks(s, t, p, i); ChildLives(s, t, p, i); ChildKin(s, t, p, i);
      ChildForks(s, t, p, i); ChildWakes(s, t, p, i); ChildPids(s, t, p, i); ChildLoops(s, t, p, i);
    } else if SleepStep(s, t, p) {
      SleepLocks(s, t, p); SleepLives(s, t, p); SleepKin(s, t, p);
      SleepForks(s, t, p); SleepWakes(s, t, p); SleepPids(s, t, p); SleepLoops(s, t, p);
    } else if ForkStep(s, t, p, i) {
      ForkLocks(s, t, p, i); ForkLives(s, t, p, i); ForkKin(s, t, p, i);
      ForkForks(s, t, p, i); ForkWakes(s, t, p, i); ForkPids(s, t, p, i); ForkLoops(s, t, p, i);
    } else if AdoptStep(s, t, p, i, j) {
      AdoptLocks(s, t, p, i, j); AdoptLives(s, t, p, i, j); AdoptKin(s, t, p, i, j);
      AdoptForks(s, t, p, i, j); AdoptWakes(s, t, p, i, j); AdoptPids(s, t, p, i, j); AdoptLoops(s, t, p, i, j);
    } else if ExitStep(s, t, p, j) {
      ExitLocks(s, t, p, j); ExitLives(s, t, p, j); ExitKin(s, t, p, j);
      ExitForks(s, t, p, j); ExitWakes(s, t, p, j); ExitPids(s, t, p, j); ExitLoops(s, t, p, j);
    } else if EndStep(s, t, p) {
      EndLocks(s, t, p); EndLives(s, t, p); EndKin(s, t, p);
      EndForks(s, t, p); EndWakes(s, t, p); EndPids(s, t, p); EndLoops(s, t, p);
    } else {
      OtherLocks(s, t, p); OtherLives(s, t, p); OtherKin(s, t, p);
      OtherForks(s, t, p); OtherWakes(s, t, p); OtherPids(s, t, p); OtherLoops(s, t, p);
    }
  }

  lemma {:induction false} RunInv(tr: seq<State>, es: seq<Step>, k: nat)
    requires IsRun(tr, es) && k < |tr|
    ensures Inv(tr[k])
  {
    hide Inv, Init, Next;
    if k == 0 {
      InitInv(tr[0]);
    } else {
      RunInv(tr, es, k - 1);
      NextInv(tr[k - 1], tr[k], es[k - 1]);
    }
  }

  /** Nobody sleeps in wait() over a dead child: while wait_lock is free, or else the wakeup is on its way. */
  lemma NoLostWakeup(tr: seq<State>, es: seq<Step>, k: nat, p: nat, c: nat)
    requires IsRun(tr, es) && k < |tr| && p < tr[k].N() && c < tr[k].N() && tr[k].Sized()
    requires tr[k].parent[c] == Some(p) && tr[k].life[c] == ZOMBIE && Asleep(tr[k], p)
    ensures tr[k].waitLock != None && WakePending(tr[k], p)
  {
    hide IsRun, LocksOk, LivesOk, KinOk, ForksOk, PidsOk;
    RunInv(tr, es, k);
  }

  lemma ZombieHasNoChild(tr: seq<State>, es: seq<Step>, k: nat, c: nat, d: nat)
    requires IsRun(tr, es) && k < |tr| && c < tr[k].N() && d < tr[k].N() && tr[k].Sized()
    requires tr[k].life[c] == ZOMBIE
    ensures tr[k].parent[d] != Some(c)
  {
    hide IsRun, LocksOk, LivesOk, WakesOk, ForksOk, PidsOk;
    RunInv(tr, es, k);
  }

  /** Every process that has run, and is not init, has a parent that is neither a zombie nor gone. */
  lemma ParentLives(tr: seq<State>, es: seq<Step>, k: nat, c: nat)
    requires IsRun(tr, es) && k < |tr| && c < tr[k].N() && tr[k].Sized()
    requires c != tr[k].initproc && tr[k].life[c] != UNUSED && tr[k].life[c] != USED
    ensures tr[k].parent[c].Some? && tr[k].parent[c].value < tr[k].N() && Alive(tr[k].life[tr[k].parent[c].value])
  {
    hide IsRun, LocksOk, LivesOk, WakesOk, ForksOk, PidsOk;
    RunInv(tr, es, k);
  }

  /** No pid is reaped twice, or without having exited, or exits twice. */
  lemma ReapedOnce(tr: seq<State>, es: seq<Step>, k: nat, i: nat, j: nat)
    requires IsRun(tr, es) && k < |tr| && i < |tr[k].reaped|
    ensures tr[k].reaped[i] in tr[k].exited
    ensures j < |tr[k].reaped| && j != i ==> tr[k].reaped[j] != tr[k].reaped[i]
    ensures forall c :: 0 <= c < tr[k].N() && tr[k].Sized() && tr[k].life[c] != UNUSED ==>
        tr[k].pid[c] != tr[k].reaped[i]
  {
    hide IsRun, LocksOk, LivesOk, WakesOk, ForksOk, KinOk;
    RunInv(tr, es, k);
  }

  // ---------- no deadlock ----------

  /** A step of the code that process p is running, or of the scheduler that it has switched to. */
  ghost predicate OwnStep(s: State, t: State, e: Step)
    requires s.Sized()
  {
    || WaitStep(s, t, e.p, e.i, e.kids) || ChildStep(s, t, e.p, e.i)
    || (SleepStep(s, t, e.p) && e.p < s.N() && s.pc[e.p] != WAsleep)
    || ForkStep(s, t, e.p, e.i) || AdoptStep(s, t, e.p, e.i, e.j) || ExitStep(s, t, e.p, e.j)
    || EndStep(s, t, e.p) || SwitchedOff(s, t, e.p)
  }

  /** Step e moves the program counter of its process, which runs or has just switched to the scheduler. */
  predicate Moves(s: State, t: State, p: nat)
    requires s.Sized()
  {
    && t.Sized() && t.N() == s.N() && p < s.N() && t.pc[p] != s.pc[p]
    && (s.life[p] == RUNNING || s.pc[p] == EDrop || s.pc[p] == WGone || s.pc[p] == EGone)
  }

  lemma WaitMoves(s: State, t: State, e: Step)
    requires s.Sized() && (WaitStep(s, t, e.p, e.i, e.kids) || ChildStep(s, t, e.p, e.i))
    ensures Moves(s, t, e.p)
  {
  }

  lemma SleepMoves(s: State, t: State, p: nat)
    requires s.Sized() && ((SleepStep(s, t, p) && p < s.N() && s.pc[p] != WAsleep) || EndStep(s, t, p)
        || SwitchedOff(s, t, p))
    ensures Moves(s, t, p)
  {
  }

  lemma ForkMoves(s: State, t: State, p: nat, i: nat)
    requires s.Sized() && ForkStep(s, t, p, i)
    ensures Moves(s, t, p)
  {
  }

  lemma ExitMoves(s: State, t: State, e: Step)
    requires s.Sized() && (AdoptStep(s, t, e.p, e.i, e.j) || ExitStep(s, t, e.p, e.j))
    ensures Moves(s, t, e.p)
  {
  }

  /** A step of p's own takes p further in its code; nothing that others do to it counts as one. */
  lemma OwnStepMoves(s: State, t: State, e: Step)
    requires s.Sized() && OwnStep(s, t, e)
    ensures Next(s, t, e) && Moves(s, t, e.p)
  {
    hide WaitStep, ChildStep, SleepStep, ForkStep, AdoptStep, ExitStep, EndStep, SwitchedOff, Moves;
    if WaitStep(s, t, e.p, e.i, e.kids) || ChildStep(s, t, e.p, e.i) { WaitMoves(s, t, e); }
    else if ForkStep(s, t, e.p, e.i) { ForkMoves(s, t, e.p, e.i); }
    else if AdoptStep(s, t, e.p, e.i, e.j) || ExitStep(s, t, e.p, e.j) { ExitMoves(s, t, e); }
    else { SleepMoves(s, t, e.p); }
  }

  /** Process p can go on by itself. */
  ghost predicate CanStep(s: State, p: nat)
    requires s.Sized()
  {
    exists t: State, e: Step :: e.p == p && OwnStep(s, t, e)
  }

  lemma Steps(s: State, t: State, e: Step)
    requires s.Sized() && OwnStep(s, t, e)
    ensures CanStep(s, e.p)
  {
    hide OwnStep;
  }

  lemma StepsOfChild(s: State, t: State, h: nat, i: nat)
    requires s.Sized() && ChildStep(s, t, h, i)
    ensures CanStep(s, h)
  {
    hide ChildStep, WaitStep, SleepStep, ForkStep, AdoptStep, ExitStep, EndStep, SwitchedOff, CanStep;
    Steps(s, t, Step(h, i, 0, false));
  }

  lemma StepsOfWait(s: State, t: State, h: nat, i: nat, kids: bool)
    requires s.Sized() && WaitStep(s, t, h, i, kids)
    ensures CanStep(s, h)
  {
    hide ChildStep, WaitStep, SleepStep, ForkStep, AdoptStep, ExitStep, EndStep, SwitchedOff, CanStep;
    Steps(s, t, Step(h, i, 0, kids));
  }

  lemma StepsOfSleep(s: State, t: State, h: nat)
    requires s.Sized() && SleepStep(s, t, h) && h < s.N() && s.pc[h] != WAsleep
    ensures CanStep(s, h)
  {
    hide ChildStep, WaitStep, SleepStep, ForkStep, AdoptStep, ExitStep, EndStep, SwitchedOff, CanStep;
    Steps(s, t, Step(h, 0, 0, false));
  }

  lemma StepsOfFork(s: State, t: State, h: nat, np: nat)
    requires s.Sized() && ForkStep(s, t, h, np)
    ensures CanStep(s, h)
  {
    hide ChildStep, WaitStep, SleepStep, ForkStep, AdoptStep, ExitStep, EndStep, SwitchedOff, CanStep;
    Steps(s, t, Step(h, np, 0, false));
  }

  lemma ChildOwnerSteps(s: State, h: nat)
    requires s.Sized() && LocksOk(s) && LivesOk(s) && h < s.N() && Held(h, s.pc[h]).Some?
    requires s.pc[h].WChild? || s.pc[h].WFound?
    ensures CanStep(s, h)
  {
    hide CanStep, LocksOk, LivesOk, WaitReap;
    LivesFit(s, h);
    HeldInRange(s, h);
    match s.pc[h] {
      case WChild(i) =>
        var t := if s.life[i] == ZOMBIE then s.(pc := s.pc[h := WFound(i)])
                 else s.(pc := s.pc[h := WScan(i + 1, true)], lock := s.lock[i := None]);
        assert WaitPass(s, t, h, i) || WaitFault(s, t, h, i);
        StepsOfChild(s, t, h, i);
      case WFound(i) =>
        var t := s.(pc := s.pc[h := WOut], lock := s.lock[i := None]);
        assert WaitFound(s, t, h, i);
        StepsOfChild(s, t, h, i);
    }
  }

  lemma SleepOwnerSteps(s: State, h: nat)
    requires s.Sized() && LivesOk(s) && h < s.N()
    requires s.pc[h] == WDrop || s.pc[h] == WMark || s.pc[h] == WBack || s.pc[h] == WGone
    ensures CanStep(s, h)
  {
    hide CanStep, LivesOk;
    LivesFit(s, h);
    match s.pc[h] {
      case WDrop =>
        Steps(s, s.(pc := s.pc[h := WMark], waitLock := None), Step(h, 0, 0, false));
      case WMark =>
        Steps(s, s.(pc := s.pc[h := WGone], chan := s.chan[h := Of(h)], life := s.life[h := SLEEPING]),
            Step(h, 0, 0, false));
      case WBack =>
        Steps(s, s.(pc := s.pc[h := WAgain], chan := s.chan[h := Nowhere], lock := s.lock[h := None]),
            Step(h, 0, 0, false));
      case WGone =>
        Steps(s, s.(pc := s.pc[h := WAsleep], lock := s.lock[h := None]), Step(h, 0, 0, false));
    }
  }

  /** Whoever holds a process's lock can go on: it is never asked for another lock meanwhile. */
  lemma OwnerSteps(s: State, h: nat)
    requires s.Sized() && LocksOk(s) && LivesOk(s) && h < s.N() && Held(h, s.pc[h]).Some?
    ensures CanStep(s, h)
  {
    hide CanStep, LocksOk, LivesOk;
    LivesFit(s, h);
    HeldInRange(s, h);
    match s.pc[h] {
      case WChild(_) => ChildOwnerSteps(s, h);
      case WFound(_) => ChildOwnerSteps(s, h);
      case WDrop => SleepOwnerSteps(s, h);
      case WMark => SleepOwnerSteps(s, h);
      case WBack => SleepOwnerSteps(s, h);
      case WGone => SleepOwnerSteps(s, h);
      case FNew(np) =>
        Steps(s, s.(pc := s.pc[h := FLink(np)], lock := s.lock[np := None]), Step(h, np, 0, false));
      case EZombie =>
        Steps(s, s.(pc := s.pc[h := EDrop], life := s.life[h := ZOMBIE], exited := s.exited + [s.pid[h]]),
            Step(h, 0, 0, false));
      case EDrop =>
        Steps(s, s.(pc := s.pc[h := EGone], waitLock := None), Step(h, 0, 0, false));
      case EGone =>
        Steps(s, s.(pc := s.pc[h := EDead], lock := s.lock[h := None]), Step(h, 0, 0, false));
    }
  }

  lemma HeldInRange(s: State, h: nat)
    requires s.Sized() && LocksOk(s) && h < s.N() && Held(h, s.pc[h]).Some?
    ensures Held(h, s.pc[h]).value < s.N()
  {
  }

  /** The lock of a process that the holder of wait_lock may have to wait for. */
  function Wanted(s: State, h: nat): Option<nat>
    requires s.Sized() && h < s.N()
  {
    match s.pc[h]
    case WScan(i, _) => if i < s.N() then Some(i) else Some(h)
    case WSleep => Some(h)
    case EWakeInit(_, j) => Some(j)
    case EWakeParent(j) => if j < s.N() then Some(j) else Some(h)
    case _ => None
  }

  /** In wait() and fork(), the holder of wait_lock can go on as soon as the one lock it wants is free. */
  lemma WaiterSteps(s: State, h: nat)
    requires s.Sized() && LivesOk(s) && ForksOk(s) && LoopsOk(s) && h < s.N() && HoldsWait(s.pc[h]) && !Exiting(s.pc[h])
    requires Held(h, s.pc[h]) == None
    requires Wanted(s, h).Some? ==> Unlocked(s, Wanted(s, h).value)
    ensures CanStep(s, h)
  {
    hide CanStep, LivesOk, LoopsOk, ForksOk, WaitStep, SleepStep, ForkStep, WaitScan, SleepLock, ForkSet, ForkUnlink;
    LivesFit(s, h);
    InLoop(s, h);
    match s.pc[h] {
      case WScan(i, kids) => ScannerSteps(s, h, i, kids);
      case WOut =>
        var t := s.(pc := s.pc[h := User], waitLock := None);
        assert WaitStep(s, t, h, 0, false) by { OutIsStep(s, t, h); }
        StepsOfWait(s, t, h, 0, false);
      case WSleep =>
        var t := s.(pc := s.pc[h := WDrop], lock := s.lock[h := Some(h)]);
        assert SleepStep(s, t, h) by { LockIsStep(s, t, h); }
        StepsOfSleep(s, t, h);
      case FSet(np) => SetterSteps(s, h, np);
      case FUnlink(np) => SetterSteps(s, h, np);
    }
  }

  lemma OutIsStep(s: State, t: State, h: nat)
    requires s.Sized() && At(s, h, WOut) && t == s.(pc := s.pc[h := User], waitLock := None)
    ensures WaitStep(s, t, h, 0, false)
  {
  }

  lemma LockIsStep(s: State, t: State, h: nat)
    requires s.Sized() && At(s, h, WSleep) && Unlocked(s, h)
    requires t == s.(pc := s.pc[h := WDrop], lock := s.lock[h := Some(h)])
    ensures SleepStep(s, t, h)
  {
  }

  lemma ScannerSteps(s: State, h: nat, i: nat, kids: bool)
    requires s.Sized() && At(s, h, WScan(i, kids)) && i <= s.N() && Unlocked(s, if i < s.N() then i else h)
    ensures CanStep(s, h)
  {
    hide CanStep;
    var t := if i == s.N() then s.(pc := s.pc[h := if !kids || s.killed[h] then WOut else WSleep])
             else if s.parent[i] == Some(h) then s.(pc := s.pc[h := WChild(i)], lock := s.lock[i := Some(h)])
             else s.(pc := s.pc[h := WScan(i + 1, kids)]);
    StepsOfWait(s, t, h, i, kids);
  }

  lemma SetterSteps(s: State, h: nat, np: nat)
    requires s.Sized() && LivesOk(s) && ForksOk(s) && (At(s, h, FSet(np)) || At(s, h, FUnlink(np)))
    ensures CanStep(s, h)
  {
    hide CanStep, LivesOk, ForksOk;
    MadeIsIdle(s, h);
    var t := if s.pc[h] == FSet(np) then s.(pc := s.pc[h := FUnlink(np)], parent := s.parent[np := Some(h)])
             else s.(pc := s.pc[h := FRun(np)], waitLock := None);
    StepsOfFork(s, t, h, np);
  }

  lemma AdopterSteps(s: State, h: nat, i: nat)
    requires s.Sized() && At(s, h, EScan(i)) && i <= s.N()
    ensures CanStep(s, h)
  {
    hide CanStep;
    var t := if i == s.N() then s.(pc := s.pc[h := EWakeParent(0)])
             else if s.parent[i] == Some(h)
                 then s.(parent := s.parent[i := Some(s.initproc)], pc := s.pc[h := EWakeInit(i, 0)])
             else s.(pc := s.pc[h := EScan(i + 1)]);
    Steps(s, t, Step(h, i, 0, false));
  }

  lemma WakerSteps(s: State, h: nat, i: nat, j: nat)
    requires s.Sized() && At(s, h, EWakeInit(i, j)) && j <= s.N() && (j < s.N() ==> Unlocked(s, j))
    ensures CanStep(s, h)
  {
    hide CanStep;
    var t := if j == s.N() then s.(pc := s.pc[h := EScan(i + 1)])
             else Woken(s, h, j, Of(s.initproc)).(pc := s.pc[h := EWakeInit(i, j + 1)]);
    Steps(s, t, Step(h, i, j, false));
  }

  /** And so it can in exit(). */
  lemma ExiterSteps(s: State, h: nat)
    requires s.Sized() && LivesOk(s) && LoopsOk(s) && h < s.N() && HoldsWait(s.pc[h]) && Exiting(s.pc[h])
    requires Held(h, s.pc[h]) == None
    requires Wanted(s, h).Some? && Wanted(s, h).value < s.N() ==> Unlocked(s, Wanted(s, h).value)
    ensures CanStep(s, h)
  {
    hide CanStep, LivesOk, LoopsOk, ExitStep, EndStep;
    LivesFit(s, h);
    InLoop(s, h);
    match s.pc[h] {
      case EScan(i) => AdopterSteps(s, h, i);
      case EWakeInit(i, j) => WakerSteps(s, h, i, j);
      case EWakeParent(j) =>
        var t := if j == s.N() then s.(pc := s.pc[h := EZombie], lock := s.lock[h := Some(h)])
                 else (if s.parent[h].Some? then Woken(s, h, j, Of(s.parent[h].value))
                     else s).(pc := s.pc[h := EWakeParent(j + 1)]);
        assert ExitStep(s, t, h, j) || EndStep(s, t, h) by {
          assert ExitWakeParent(s, t, h, j) || ExitLock(s, t, h);
          Either(s, t, h, j);
        }
        Steps(s, t, Step(h, 0, j, false));
    }
  }

  lemma Either(s: State, t: State, h: nat, j: nat)
    requires s.Sized() && (ExitWakeParent(s, t, h, j) || ExitLock(s, t, h))
    ensures ExitStep(s, t, h, j) || EndStep(s, t, h)
  {
  }

  lemma LockOwner(s: State, k: nat)
    requires s.Sized() && LocksOk(s) && k < s.N() && s.lock[k].Some?
    ensures s.lock[k].value < s.N() && Held(s.lock[k].value, s.pc[s.lock[k].value]) == Some(k)
  {
  }

  lemma WaitOwner(s: State)
    requires s.Sized() && LocksOk(s) && s.waitLock.Some?
    ensures s.waitLock.value < s.N() && HoldsWait(s.pc[s.waitLock.value])
  {
  }

  /** The lock that h wants is held by somebody who can go on. */
  ghost predicate WaitsForRunner(s: State, h: nat)
    requires s.Sized() && h < s.N()
  {
    Wanted(s, h).Some? && Wanted(s, h).value < s.N() && s.lock[Wanted(s, h).value].Some?
    && CanStep(s, s.lock[Wanted(s, h).value].value)
  }

  /**
   The locks are taken in an order: the owner of a process's lock can always go
   on, and the owner of wait_lock can, or wants a lock whose owner can.
   */
  lemma NoDeadlock(tr: seq<State>, es: seq<Step>, i: nat, k: nat)
    requires IsRun(tr, es) && i < |tr| && k < tr[i].N()
    ensures tr[i].Sized()
    ensures tr[i].lock[k].Some? ==> CanStep(tr[i], tr[i].lock[k].value)
    ensures tr[i].waitLock.Some? ==>
              tr[i].waitLock.value < tr[i].N()
                  && (CanStep(tr[i], tr[i].waitLock.value) || WaitsForRunner(tr[i], tr[i].waitLock.value))
  {
    hide IsRun, LocksOk, LivesOk, LoopsOk, WakesOk, ForksOk, KinOk, CanStep, Held, HoldsWait, Wanted;
    RunInv(tr, es, i);
    var s := tr[i];
    if s.lock[k].Some? { LockOwner(s, k); OwnerSteps(s, s.lock[k].value); }
    if s.waitLock.Some? {
      WaitOwner(s);
      var h := s.waitLock.value;
      var x := Wanted(s, h);
      if Held(h, s.pc[h]).Some? {
        OwnerSteps(s, h);
      } else if x.Some? && x.value < s.N() && s.lock[x.value].Some? {
        LockOwner(s, x.value);
        OwnerSteps(s, s.lock[x.value].value);
      } else if Exiting(s.pc[h]) {
        ExiterSteps(s, h);
      } else {
        WantsInRange(s, h);
        WaiterSteps(s, h);
      }
    }
  }

  lemma WantsInRange(s: State, h: nat)
    requires s.Sized() && h < s.N() && !Exiting(s.pc[h])
    ensures Wanted(s, h).Some? ==> Wanted(s, h).value < s.N()
  {
  }
}
