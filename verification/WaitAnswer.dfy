/**
 What wait() answers (proc.c): -1 only to a process without children, or killed, or
 whose copyout() failed; the pid of a dead child of its own otherwise; and it sleeps
 only while it has a child.
 */
module WaitAnswer {
  import opened Common
  import opened ExitWait

  /** One of the first n slots is a child of p. */
  predicate HasChild(parent: seq<Option<nat>>, p: nat, n: nat) {
    exists c :: 0 <= c < n && c < |parent| && parent[c] == Some(p)
  }

  /** havekids is what the scan has seen, and who goes to sleep has a child. */
  predicate Counted(pc: Pc, parent: seq<Option<nat>>, p: nat) {
    match pc
    case WScan(i, kids) => i <= |parent| && (kids <==> HasChild(parent, p, i))
    case WChild(i) => i < |parent| && parent[i] == Some(p)
    case WSleep => HasChild(parent, p, |parent|)
    case WDrop => HasChild(parent, p, |parent|)
    case _ => true
  }

  ghost predicate KidsOk(s: State)
    requires s.Sized()
  {
    forall p {:trigger s.pc[p]} :: 0 <= p < s.N() ==> Counted(s.pc[p], s.parent, p)
  }

  lemma Of(s: State, p: nat)
    requires s.Sized() && KidsOk(s) && p < s.N()
    ensures Counted(s.pc[p], s.parent, p)
  {
  }

  /** A step that changes no parent, and counts right for its own process. */
  lemma SameParents(s: State, t: State, p: nat)
    requires s.Sized() && KidsOk(s) && t.Sized() && p < s.N() == t.N() && t.pc == s.pc[p := t.pc[p]]
        && t.parent == s.parent
    requires Counted(t.pc[p], t.parent, p)
    ensures KidsOk(t)
  {
    hide Counted;
  }

  lemma Quiet(pc: Pc, parent: seq<Option<nat>>, p: nat)
    requires !HoldsWait(pc) || !(pc.WScan? || pc.WChild? || pc.WSleep? || pc.WDrop?)
    ensures Counted(pc, parent, p)
  {
  }

  /** Parents change only while wait_lock is held, by one who is then not scanning. */
  lemma NewParents(s: State, t: State, p: nat)
    requires s.Sized() && LocksOk(s) && t.Sized() && t.N() == s.N() && p < s.N() && HoldsWait(s.pc[p])
    requires forall q {:trigger t.pc[q]} :: 0 <= q < s.N() && q != p ==> t.pc[q] == s.pc[q] || t.pc[q] == User
    requires !(t.pc[p].WScan? || t.pc[p].WChild? || t.pc[p].WSleep? || t.pc[p].WDrop?)
    ensures KidsOk(t)
  {
    hide HoldsWait;
    forall q {:trigger t.pc[q]} | 0 <= q < s.N() ensures Counted(t.pc[q], t.parent, q) {
      if q != p && t.pc[q] == s.pc[q] { assert !HoldsWait(s.pc[q]) by { OneHolder(s, p, q); } }
      Idle(t.pc[q]);
      Quiet(t.pc[q], t.parent, q);
    }
  }

  lemma Idle(pc: Pc)
    ensures pc == User ==> !HoldsWait(pc)
  {
  }

  lemma OneHolder(s: State, p: nat, q: nat)
    requires s.Sized() && LocksOk(s) && p < s.N() && q < s.N() && p != q && HoldsWait(s.pc[p])
    ensures !HoldsWait(s.pc[q])
  {
    hide HoldsWait;
    var x, y := s.pc[p], s.pc[q];
  }

  lemma OneMore(parent: seq<Option<nat>>, p: nat, i: nat)
    requires i < |parent|
    ensures HasChild(parent, p, i + 1) <==> HasChild(parent, p, i) || parent[i] == Some(p)
  {
  }

  lemma WaitKids(s: State, t: State, p: nat, i: nat, kids: bool)
    requires s.Sized() && KidsOk(s) && WaitStep(s, t, p, i, kids)
    ensures t.Sized() && KidsOk(t)
  {
    hide KidsOk, HasChild;
    Of(s, p);
    if i < s.N() { OneMore(s.parent, p, i); }
    NoneYet(s.parent, p);
    SameParents(s, t, p);
  }

  lemma NoneYet(parent: seq<Option<nat>>, p: nat)
    ensures !HasChild(parent, p, 0)
  {
  }

  lemma ChildKids(s: State, t: State, p: nat, i: nat)
    requires s.Sized() && LocksOk(s) && KidsOk(s) && ChildStep(s, t, p, i)
    ensures t.Sized() && KidsOk(t)
  {
    hide KidsOk, HasChild, LocksOk;
    Of(s, p);
    if WaitReap(s, t, p, i) {
      NewParents(s, t, p);
    } else {
      if i < s.N() { OneMore(s.parent, p, i); }
      SameParents(s, t, p);
    }
  }

  lemma SleepKids(s: State, t: State, p: nat)
    requires s.Sized() && KidsOk(s) && SleepStep(s, t, p)
    ensures t.Sized() && KidsOk(t)
  {
    hide KidsOk, HasChild;
    if p < s.N() { Of(s, p); }
    SameParents(s, t, p);
  }

  lemma ForkKids(s: State, t: State, p: nat, np: nat)
    requires s.Sized() && LocksOk(s) && LivesOk(s) && ForksOk(s) && KidsOk(s) && ForkStep(s, t, p, np)
    ensures t.Sized() && KidsOk(t)
  {
    hide KidsOk, HasChild, LocksOk, LivesOk, ForksOk;
    if ForkSet(s, t, p, np) {
      NewParents(s, t, p);
    } else {
      if ForkFail(s, t, p, np) {
        MadeIsIdle(s, p);
        assert t.parent == s.parent;
      }
      SameParents(s, t, p);
    }
  }

  lemma AdoptKids(s: State, t: State, p: nat, i: nat, j: nat)
    requires s.Sized() && LocksOk(s) && KidsOk(s) && AdoptStep(s, t, p, i, j)
    ensures t.Sized() && KidsOk(t)
  {
    hide KidsOk, HasChild, LocksOk;
    if ExitScan(s, t, p, i) { NewParents(s, t, p); } else { SameParents(s, t, p); }
  }

  lemma ExitKids(s: State, t: State, p: nat, j: nat)
    requires s.Sized() && KidsOk(s) && (ExitStep(s, t, p, j) || EndStep(s, t, p))
    ensures t.Sized() && KidsOk(t)
  {
    hide KidsOk, HasChild;
    SameParents(s, t, p);
  }

  lemma OtherKids(s: State, t: State, p: nat)
    requires s.Sized() && KidsOk(s) && OtherStep(s, t, p)
    ensures t.Sized() && KidsOk(t)
  {
    hide KidsOk, HasChild;
    Of(s, p);
    SameParents(s, t, p);
  }

  lemma NextKids(s: State, t: State, e: Step)
    requires Inv(s) && KidsOk(s) && Next(s, t, e)
    ensures t.Sized() && KidsOk(t)
  {
    hide KidsOk, LocksOk, LivesOk, KinOk, ForksOk, WakesOk, PidsOk, LoopsOk,
      WaitStep, ChildStep, SleepStep, ForkStep, AdoptStep, ExitStep, EndStep, OtherStep;
    if WaitStep(s, t, e.p, e.i, e.kids) { WaitKids(s, t, e.p, e.i, e.kids); }
    else if ChildStep(s, t, e.p, e.i) { ChildKids(s, t, e.p, e.i); }
    else if SleepStep(s, t, e.p) { SleepKids(s, t, e.p); }
    else if ForkStep(s, t, e.p, e.i) { ForkKids(s, t, e.p, e.i); }
    else if AdoptStep(s, t, e.p, e.i, e.j) { AdoptKids(s, t, e.p, e.i, e.j); }
    else if ExitStep(s, t, e.p, e.j) || EndStep(s, t, e.p) { ExitKids(s, t, e.p, e.j); }
    else { OtherKids(s, t, e.p); }
  }

  lemma {:induction false} RunKids(tr: seq<State>, es: seq<Step>, k: nat)
    requires IsRun(tr, es) && k < |tr|
    ensures tr[k].Sized() && KidsOk(tr[k])
  {
    hide Inv, Next, KidsOk;
    if k == 0 {
      StartKids(tr[0]);
    } else {
      RunKids(tr, es, k - 1);
      RunInv(tr, es, k - 1);
      NextKids(tr[k - 1], tr[k], es[k - 1]);
    }
  }

  lemma StartKids(s: State)
    requires Init(s)
    ensures s.Sized() && KidsOk(s)
  {
  }

  // ---------- the answers ----------

  /** Another process's step moves p only by reaping it. */
  lemma MovedByOther(s: State, t: State, e: Step, p: nat)
    requires s.Sized() && Next(s, t, e) && t.Sized() && p < s.N() == t.N() && e.p != p && t.pc[p] != s.pc[p]
    ensures e.p < s.N() && WaitReap(s, t, e.p, p)
  {
    hide WaitStep, SleepStep, ForkStep, AdoptStep, ExitStep, EndStep, OtherStep;
    if WaitStep(s, t, e.p, e.i, e.kids) { WaitOwn(s, t, e.p, e.i, e.kids); }
    else if SleepStep(s, t, e.p) || EndStep(s, t, e.p) || OtherStep(s, t, e.p) { SleepOwn(s, t, e.p); }
    else if ForkStep(s, t, e.p, e.i) { ForkOwn(s, t, e.p, e.i); }
    else if AdoptStep(s, t, e.p, e.i, e.j) || ExitStep(s, t, e.p, e.j) { ExitOwn(s, t, e.p, e.i, e.j); }
  }

  lemma WaitOwn(s: State, t: State, p: nat, i: nat, kids: bool)
    requires s.Sized() && WaitStep(s, t, p, i, kids)
    ensures p < s.N() && t.pc == s.pc[p := t.pc[p]]
  {
  }

  lemma SleepOwn(s: State, t: State, p: nat)
    requires s.Sized() && (SleepStep(s, t, p) || EndStep(s, t, p) || OtherStep(s, t, p))
    ensures p < s.N() && t.pc == s.pc[p := t.pc[p]]
  {
  }

  lemma ForkOwn(s: State, t: State, p: nat, np: nat)
    requires s.Sized() && ForkStep(s, t, p, np)
    ensures p < s.N() && t.pc == s.pc[p := t.pc[p]]
  {
  }

  lemma ExitOwn(s: State, t: State, p: nat, i: nat, j: nat)
    requires s.Sized() && (AdoptStep(s, t, p, i, j) || ExitStep(s, t, p, j))
    ensures p < s.N() && t.pc == s.pc[p := t.pc[p]]
  {
  }

  lemma ScanWait(s: State, t: State, e: Step, p: nat, kids: bool)
    requires s.Sized() && WaitStep(s, t, p, e.i, e.kids) && p < s.N() && s.pc[p] == WScan(s.N(), kids)
    ensures WaitDecide(s, t, p, kids)
  {
  }

  lemma ScanElse(s: State, t: State, e: Step, p: nat)
    requires s.Sized() && e.p == p < s.N() && s.pc[p].WScan?
    requires ChildStep(s, t, p, e.i) || SleepStep(s, t, p) || EndStep(s, t, p) || OtherStep(s, t, p)
    ensures t.pc == s.pc
  {
  }

  lemma ScanApart(s: State, t: State, e: Step, p: nat)
    requires s.Sized() && e.p == p < s.N()
    requires ForkStep(s, t, p, e.i) || AdoptStep(s, t, p, e.i, e.j) || ExitStep(s, t, p, e.j)
    ensures !s.pc[p].WScan?
  {
  }

  /** A step that moves p on from the end of its scan. */
  lemma ScanEnds(s: State, t: State, e: Step, p: nat, kids: bool)
    requires s.Sized() && Next(s, t, e) && t.Sized() && e.p == p < s.N() == t.N() && s.pc[p] == WScan(s.N(), kids)
    requires t.pc[p] != s.pc[p]
    ensures WaitDecide(s, t, p, kids)
  {
    hide WaitStep, ChildStep, SleepStep, ForkStep, AdoptStep, ExitStep, EndStep, OtherStep, WaitDecide;
    if WaitStep(s, t, p, e.i, e.kids) { ScanWait(s, t, e, p, kids); }
    else if ForkStep(s, t, p, e.i) || AdoptStep(s, t, p, e.i, e.j) || ExitStep(s, t, p, e.j) { ScanApart(s, t, e, p); }
    else { ScanElse(s, t, e, p); }
  }

  /**
   The end of a scan, in any run: wait() gives up exactly if its caller has no child or is
   killed, and goes to sleep exactly if it has one and is not.
   */
  lemma DecidesRightly(tr: seq<State>, es: seq<Step>, k: nat, p: nat, kids: bool)
    requires IsRun(tr, es) && k + 1 < |tr| && tr[k].Sized() && tr[k + 1].Sized() && p < tr[k].N() == tr[k + 1].N()
    requires tr[k].pc[p] == WScan(tr[k].N(), kids) && tr[k + 1].pc[p] != tr[k].pc[p]
    ensures var alone := forall c :: 0 <= c < tr[k].N() ==> tr[k].parent[c] != Some(p);
            && (tr[k + 1].pc[p] == WOut <==> alone || tr[k].killed[p])
            && (tr[k + 1].pc[p] == WSleep <==> !alone && !tr[k].killed[p])
  {
    hide KidsOk, Inv, Next;
    RunKids(tr, es, k);
    RunInv(tr, es, k);
    Of(tr[k], p);
    MovesAlone(tr[k], tr[k + 1], es[k], p);
    ScanEnds(tr[k], tr[k + 1], es[k], p, kids);
  }

  /** Who holds wait_lock is moved on by its own steps alone. */
  lemma MovesAlone(s: State, t: State, e: Step, p: nat)
    requires Inv(s) && Next(s, t, e) && t.Sized() && p < s.N() == t.N() && HoldsWait(s.pc[p]) && t.pc[p] != s.pc[p]
    ensures e.p == p
  {
    hide Next, LocksOk, LivesOk, KinOk, ForksOk, WakesOk, PidsOk, LoopsOk;
    if e.p != p {
      MovedByOther(s, t, e, p);
      OneHolder(s, p, e.p);
    }
  }

  /**
   Whenever wait() leaves a child with success, it has reaped a dead child of its own, and reports that child's pid.
   */
  lemma ReapsItsOwn(tr: seq<State>, es: seq<Step>, k: nat)
    requires IsRun(tr, es) && k + 1 < |tr| && tr[k + 1].reaped != tr[k].reaped
    ensures var e := es[k];
            && tr[k].Sized() && e.p < tr[k].N() && e.i < tr[k].N()
            && tr[k].parent[e.i] == Some(e.p) && tr[k].life[e.i] == ZOMBIE && tr[k].pid[e.i] in tr[k].exited
            && tr[k + 1].reaped == tr[k].reaped + [tr[k].pid[e.i]]
  {
    hide KidsOk, Inv, Next;
    RunKids(tr, es, k);
    RunInv(tr, es, k);
    var s, t, e := tr[k], tr[k + 1], es[k];
    ReapedBy(s, t, e);
    Of(s, e.p);
    DeadHasExited(s, e.i);
  }

  lemma ReapedBy(s: State, t: State, e: Step)
    requires s.Sized() && Next(s, t, e) && t.reaped != s.reaped
    ensures WaitReap(s, t, e.p, e.i)
  {
  }

  lemma DeadHasExited(s: State, c: nat)
    requires Inv(s) && c < s.N() && s.life[c] == ZOMBIE
    ensures s.pid[c] in s.exited
  {
    hide LocksOk, LivesOk, KinOk, ForksOk, WakesOk, LoopsOk;
  }

  // ---------- kill() ends a wait ----------

  /** p stays killed unless its slot is given up. */
  ghost predicate Marked(s: State, t: State, p: nat) {
    && |t.killed| == |s.killed| == |s.pid| == |t.pid|
    && (p < |s.killed| && s.killed[p] && s.pid[p] != 0 && t.pid[p] == s.pid[p] ==> t.killed[p])
  }

  lemma WaitMarks(s: State, t: State, p: nat, q: nat, i: nat, kids: bool)
    requires s.Sized() && (WaitStep(s, t, q, i, kids) || ChildStep(s, t, q, i))
    ensures Marked(s, t, p)
  {
  }

  lemma ForkMarks(s: State, t: State, p: nat, q: nat, i: nat)
    requires s.Sized() && (SleepStep(s, t, q) || ForkStep(s, t, q, i))
    ensures Marked(s, t, p)
  {
  }

  lemma ExitMarks(s: State, t: State, p: nat, q: nat, i: nat, j: nat)
    requires s.Sized() && (AdoptStep(s, t, q, i, j) || ExitStep(s, t, q, j))
    ensures Marked(s, t, p)
  {
  }

  lemma OtherMarks(s: State, t: State, p: nat, q: nat)
    requires s.Sized() && (EndStep(s, t, q) || OtherStep(s, t, q))
    ensures Marked(s, t, p)
  {
  }

  lemma StepMarks(s: State, t: State, e: Step, p: nat)
    requires s.Sized() && Next(s, t, e)
    ensures Marked(s, t, p)
  {
    hide WaitStep, ChildStep, SleepStep, ForkStep, AdoptStep, ExitStep, EndStep, OtherStep, Marked;
    if WaitStep(s, t, e.p, e.i, e.kids) || ChildStep(s, t, e.p, e.i) { WaitMarks(s, t, p, e.p, e.i, e.kids); }
    else if SleepStep(s, t, e.p) || ForkStep(s, t, e.p, e.i) { ForkMarks(s, t, p, e.p, e.i); }
    else if AdoptStep(s, t, e.p, e.i, e.j) || ExitStep(s, t, e.p, e.j) { ExitMarks(s, t, p, e.p, e.i, e.j); }
    else { OtherMarks(s, t, p, e.p); }
  }

  /** From state j on, up to state k, slot p has the pid that it has in state j. */
  ghost predicate OneLife(tr: seq<State>, j: nat, k: nat, p: nat) {
    && j <= k < |tr| && p < |tr[j].pid| && tr[j].pid[p] != 0
    && forall i {:trigger tr[i]} :: j <= i <= k ==> tr[i].Sized() && p < tr[i].N() && tr[i].pid[p] == tr[j].pid[p]
  }

  /** A process that is killed, asleep or not, is awake then, and killed for as long as it has its pid. */
  lemma {:induction false} KillLasts(tr: seq<State>, es: seq<Step>, j: nat, k: nat, p: nat)
    requires IsRun(tr, es) && j < k && OneLife(tr, j, k, p) && Kill(tr[j], tr[j + 1], p)
    ensures tr[j + 1].life[p] != SLEEPING && tr[k].killed[p]
    decreases k
  {
    hide Next;
    if k > j + 1 {
      KillLasts(tr, es, j, k - 1, p);
      StepMarks(tr[k - 1], tr[k], es[k - 1], p);
    }
  }

  /** A process killed at any time since it got its pid leaves wait() at the end of its scan. */
  lemma KilledLeaves(tr: seq<State>, es: seq<Step>, j: nat, k: nat, p: nat, kids: bool)
    requires IsRun(tr, es) && j < k && OneLife(tr, j, k, p) && Kill(tr[j], tr[j + 1], p)
    requires k + 1 < |tr| && tr[k + 1].Sized() && tr[k + 1].N() == tr[k].N()
    requires tr[k].pc[p] == WScan(tr[k].N(), kids) && tr[k + 1].pc[p] != tr[k].pc[p]
    ensures tr[k + 1].pc[p] == WOut
  {
    hide IsRun, Kill;
    KillLasts(tr, es, j, k, p);
    DecidesRightly(tr, es, k, p, kids);
  }

  // ---------- nobody is stuck ----------

  /** The slot whose lock p waits for outside wait_lock's critical sections, or in them. */
  function LockWanted(s: State, p: nat): Option<nat>
    requires s.Sized() && p < s.N()
  {
    match s.pc[p]
    case FRun(np) => Some(np)
    case _ => Wanted(s, p)
  }

  /** p waits for a lock that is taken, or for a wakeup. */
  ghost predicate Waits(s: State, p: nat)
    requires s.Sized() && p < s.N()
  {
    || (s.pc[p] == WAsleep && s.life[p] == SLEEPING)
    || ((s.pc[p] == WAgain || s.pc[p].FLink?) && s.waitLock != None)
    || (LockWanted(s, p).Some? && LockWanted(s, p).value < s.N() && s.lock[LockWanted(s, p).value] != None)
  }

  /** The scheduler can run p. */
  ghost predicate CanRun(s: State, p: nat)
    requires s.Sized() && p < s.N()
  {
    s.life[p] == RUNNABLE && (s.lock[p] == None ==> exists t: State :: ResumeWait(s, t, p) || Resume(s, t, p))
  }

  lemma Runs(s: State, p: nat)
    requires s.Sized() && p < s.N() && s.life[p] == RUNNABLE
    ensures CanRun(s, p)
  {
    if s.lock[p] == None {
      if s.pc[p] == WAsleep {
        var t := s.(life := s.life[p := RUNNING], pc := s.pc[p := WBack], lock := s.lock[p := Some(p)]);
        assert ResumeWait(s, t, p);
      } else {
        var t := s.(life := s.life[p := RUNNING], chan := s.chan[p := Nowhere]);
        assert Resume(s, t, p);
      }
    }
  }

  lemma AgainSteps(s: State, p: nat)
    requires s.Sized() && At(s, p, WAgain) && s.waitLock == None
    ensures CanStep(s, p)
  {
    hide CanStep, ChildStep, SleepStep, ForkStep, AdoptStep, ExitStep, EndStep;
    StepsOfWait(s, s.(pc := s.pc[p := WScan(0, false)], waitLock := Some(p)), p, 0, false);
  }

  lemma LinkSteps(s: State, p: nat, np: nat)
    requires s.Sized()
    requires (At(s, p, FLink(np)) && s.waitLock == None) || (At(s, p, FRun(np)) && Unlocked(s, np))
    ensures CanStep(s, p)
  {
    hide CanStep, WaitStep, ChildStep, SleepStep, AdoptStep, ExitStep, EndStep;
    var t := if s.pc[p] == FLink(np) then s.(pc := s.pc[p := FSet(np)], waitLock := Some(p))
             else s.(pc := s.pc[p := User], life := s.life[np := RUNNABLE]);
    StepsOfFork(s, t, p, np);
  }

  /**
   A process in wait(), fork() or exit() can go on by itself, or be run, or waits for a lock
   that is taken or for a wakeup; whoever has a lock, in turn, can go on, as NoDeadlock says.
   */
  lemma NobodyStuck(tr: seq<State>, es: seq<Step>, k: nat, p: nat)
    requires IsRun(tr, es) && k < |tr| && tr[k].Sized() && p < tr[k].N()
    requires tr[k].pc[p] != User && tr[k].pc[p] != EDead
    ensures CanStep(tr[k], p) || CanRun(tr[k], p) || Waits(tr[k], p)
  {
    hide IsRun, LocksOk, LivesOk, LoopsOk, WakesOk, ForksOk, KinOk, PidsOk, CanStep, CanRun;
    RunInv(tr, es, k);
    var s := tr[k];
    LivesFit(s, p);
    if s.life[p] == RUNNABLE {
      Runs(s, p);
    } else if Held(p, s.pc[p]).Some? {
      OwnerSteps(s, p);
    } else if Waits(s, p) {
    } else if HoldsWait(s.pc[p]) {
      HolderSteps(s, p);
    } else {
      match s.pc[p] {
        case WAgain => AgainSteps(s, p);
        case FLink(np) => LinkSteps(s, p, np);
        case FRun(np) => MadeIsIdle(s, p); LinkSteps(s, p, np);
        case WAsleep =>
      }
    }
  }

  lemma HolderSteps(s: State, p: nat)
    requires Inv(s) && p < s.N() && HoldsWait(s.pc[p]) && Held(p, s.pc[p]) == None && !Waits(s, p)
    ensures CanStep(s, p)
  {
    hide LocksOk, LivesOk, LoopsOk, WakesOk, ForksOk, KinOk, PidsOk, CanStep;
    if Exiting(s.pc[p]) {
      ExiterSteps(s, p);
    } else {
      WantsInRange(s, p);
      WaiterSteps(s, p);
    }
  }
}
