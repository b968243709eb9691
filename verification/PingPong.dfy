/**
 pingpong.c: two processes, each taking one semaphore and giving the other in a
 loop, over the semaphores of Semaphore.  Any other processes run beside them, using
 any other semaphores; nobody kills the two, and nobody else uses their semaphores.
 */
module PingPong {
  import opened Common
  import opened Semaphore

  datatype Word = Ping | Pong

  /** Where a process is in its loop: at the test, in sem_down(), before printf(), before and in sem_up(). */
  datatype Where = Test | InDown | Say | Raise | InUp | Over

  datatype Player = Player(slot: nat, take: nat, give: nat, word: Word, left: nat, where_: Where)

  /** The parent takes r and gives t, the child the other way round. */
  datatype Game = Game(sem: State, parent: Player, child: Player, out: seq<Word>)

  /** What the kernel does for a process in one of its calls. */
  ghost predicate Work(s: State, t: State, p: nat, m: nat, j: nat) requires s.Sized() {
    UpStep(s, t, p, m, j) || DownStep(s, t, p, m) || SleepStep(s, t, p, m)
  }

  ghost predicate Kernel(s: State, t: State, p: nat, k: Kind, m: nat, j: nat) requires s.Sized() {
    match k
    case Working => Work(s, t, p, m, j)
    case Yielding => Yield(s, t, p)
    case Resuming => Resume(s, t, p)
  }

  ghost predicate Play(s: State, t: State, x: Player, y: Player, out: seq<Word>, out': seq<Word>) requires s.Sized() {
    match x.where_
    case Test =>
      && out' == out
      && if x.left > 0 then DownCall(s, t, x.slot, x.take) && y == x.(where_ := InDown)
         else At(s, x.slot, User) && t == s && y == x.(where_ := Over)
    case InDown => At(s, x.slot, User) && x.left > 0 && t == s && y == x.(left := x.left - 1, where_ := Say)
        && out' == out
    case Say => At(s, x.slot, User) && t == s && y == x.(where_ := Raise) && out' == out + [x.word]
    case Raise => UpCall(s, t, x.slot, x.give) && y == x.(where_ := InUp) && out' == out
    case InUp => At(s, x.slot, User) && t == s && y == x.(where_ := Test) && out' == out
    case Over => false
  }

  function Me(g: Game, parent: bool): Player { if parent then g.parent else g.child }

  /** Yielding and resuming are the clock's and the scheduler's doing. */
  datatype Kind = Working | Yielding | Resuming

  /** A step of the game by one of the two, or any step of Semaphore by, or done to, process p. */
  datatype Event = Event(parent: bool, kind: Kind, m: nat, j: nat) | Bystander(p: nat, m: nat, j: nat)

  /** A process that does not play, at any semaphore but the two. */
  ghost predicate Bystands(g: Game, t: State, p: nat, m: nat, j: nat) requires g.sem.Sized() {
    && p != g.parent.slot && p != g.child.slot && m != g.parent.take && m != g.parent.give
    && Next(g.sem, t, Step(p, m, j))
  }

  /** A step by player x, with the other player as it is. */
  ghost predicate PlayerStep(g: Game, t: State, x: Player, y: Player, out: seq<Word>, k: Kind, m: nat, j: nat)
    requires g.sem.Sized()
  {
    || (Kernel(g.sem, t, x.slot, k, m, j) && y == x && out == g.out)
    || (k == Working && Play(g.sem, t, x, y, g.out, out))
  }

  ghost predicate GameStep(g: Game, h: Game, e: Event) requires g.sem.Sized() {
    match e
    case Event(parent, k, m, j) =>
      && Me(h, !parent) == Me(g, !parent)
      && PlayerStep(g, h.sem, Me(g, parent), Me(h, parent), h.out, k, m, j)
    case Bystander(p, m, j) => h == g.(sem := h.sem) && Bystands(g, h.sem, p, m, j)
  }

  /** After sem_open(r, 1), sem_open(t, 0) and fork(). */
  ghost predicate Start(g: Game, n: nat) {
    && g.sem.Sized() && Init(g.sem, g.sem.value) && g.out == []
    && g.parent.slot < g.sem.N() && g.child.slot < g.sem.N() && g.parent.slot != g.child.slot
    && g.parent.take < g.sem.M() && g.parent.give < g.sem.M() && g.parent.take != g.parent.give
    && g.parent.take == g.child.give && g.parent.give == g.child.take
    && g.parent.word == Ping && g.child.word == Pong && g.parent.left == g.child.left == n
    && g.parent.where_ == g.child.where_ == Test
    && g.sem.value[g.parent.take] == 1 && g.sem.value[g.parent.give] == 0
  }

  ghost predicate IsGame(tr: seq<Game>, es: seq<Event>, n: nat) {
    && |tr| == |es| + 1 && Start(tr[0], n)
    && forall i :: 0 <= i < |es| ==> tr[i].sem.Sized() && GameStep(tr[i], tr[i + 1], es[i])
  }

  // ---------- one player ----------

  /** Rounds begun, semaphores taken and given, and words said by a player of n rounds. */
  function Rounds(x: Player, n: nat): int { n - x.left }

  function Taken(x: Player, pc: Pc, n: nat): int {
    if x.where_ == InDown && (pc == User || pc.DOut?) then Rounds(x, n) + 1 else Rounds(x, n)
  }

  function Given(x: Player, pc: Pc, n: nat): int {
    match x.where_
    case Say => Rounds(x, n) - 1
    case Raise => Rounds(x, n) - 1
    case InUp => if pc.UWant? || pc.UAdd? then Rounds(x, n) - 1 else Rounds(x, n)
    case _ => Rounds(x, n)
  }

  function Said(x: Player, n: nat): int { if x.where_ == Say then Rounds(x, n) - 1 else Rounds(x, n) }

  predicate InSemDown(pc: Pc, m: nat) {
    match pc
    case User => true
    case DWant(k) => k == m
    case DTest(k) => k == m
    case DTake(k) => k == m
    case DOut(k) => k == m
    case DSleep(k) => k == m
    case DDrop(k) => k == m
    case DMark(k) => k == m
    case DGone(k) => k == m
    case DAsleep(k) => k == m
    case DBack(k) => k == m
    case _ => false
  }

  predicate InSemUp(pc: Pc, m: nat) {
    match pc
    case User => true
    case UWant(k) => k == m
    case UAdd(k) => k == m
    case UWake(k, _) => k == m
    case _ => false
  }

  ghost predicate PlayerOk(s: State, x: Player, n: nat)
    requires s.Sized()
  {
    && x.slot < s.N() && x.take < s.M() && x.give < s.M() && x.take != x.give && x.left <= n
    && (x.where_ == InDown ==> x.left > 0)
    && (x.where_ == Over ==> x.left == 0)
    && (x.where_ in {Say, Raise, InUp} ==> x.left < n)
    && (match x.where_
        case InDown => InSemDown(s.pc[x.slot], x.take)
        case InUp => InSemUp(s.pc[x.slot], x.give)
        case _ => s.pc[x.slot] == User)
    && (s.pc[x.slot].UWake? ==> s.pc[x.slot].j <= s.N())
    && (s.pc[x.slot] == User ==> s.life[x.slot] != SLEEPING)
    && s.downs[x.take] == Taken(x, s.pc[x.slot], n) && s.ups[x.give] == Given(x, s.pc[x.slot], n)
  }

  // ---------- both ----------

  ghost predicate Wired(g: Game) {
    && g.parent.take == g.child.give && g.parent.give == g.child.take && g.parent.take != g.parent.give
    && g.parent.slot != g.child.slot && g.parent.word == Ping && g.child.word == Pong
  }

  /** Ping, Pong, Ping, ... */
  predicate Alternates(out: seq<Word>) {
    forall i :: 0 <= i < |out| ==> out[i] == if i % 2 == 0 then Ping else Pong
  }

  /** The semaphore that a process is at. */
  function SemOf(pc: Pc): Option<nat> { if pc == User then None else Some(pc.m) }

  /** The other processes are not at the two semaphores. */
  ghost predicate OthersAway(g: Game) requires g.sem.Sized() {
    forall q {:trigger g.sem.pc[q]} :: 0 <= q < g.sem.N() && q != g.parent.slot && q != g.child.slot ==>
      SemOf(g.sem.pc[q]) != Some(g.parent.take) && SemOf(g.sem.pc[q]) != Some(g.parent.give)
  }

  ghost predicate GameOk(g: Game, n: nat, init: seq<int>) {
    && Inv(g.sem, init) && Wired(g) && PlayerOk(g.sem, g.parent, n) && PlayerOk(g.sem, g.child, n)
    && init[g.parent.take] == 1 && init[g.parent.give] == 0
    && OthersAway(g) && Alternates(g.out) && |g.out| == Said(g.parent, n) + Said(g.child, n)
  }

  /**
   There is one token: it has been taken and given by the two in turn, and
   whoever is about to speak has it.
   */
  lemma OneToken(g: Game, n: nat, init: seq<int>)
    requires GameOk(g, n, init)
    ensures var x, y := g.sem.pc[g.parent.slot], g.sem.pc[g.child.slot];
            && Given(g.parent, x, n) <= Taken(g.parent, x, n) <= Given(g.child, y, n) + 1
            && Given(g.child, y, n) + 1 <= Taken(g.child, y, n) + 1 <= Given(g.parent, x, n) + 1
  {
    hide ProcsOk, OwnersOk, WakesOk, Alternates;
    var r, t := g.parent.take, g.parent.give;
    assert g.sem.value[r] >= 0 && g.sem.value[t] >= 0;
  }

  /** A parent about to speak speaks in its turn, and so does a child. */
  lemma Turns(g: Game, n: nat, init: seq<int>)
    requires GameOk(g, n, init)
    ensures g.parent.where_ == Say ==> |g.out| % 2 == 0
    ensures g.child.where_ == Say ==> |g.out| % 2 == 1
    ensures |g.out| <= 2 * n
  {
    hide Inv, Alternates;
    OneToken(g, n, init);
  }

  lemma WorkOwn(s: State, t: State, x: Player, n: nat, m: nat, j: nat)
    requires s.Sized() && PlayerOk(s, x, n) && (UpStep(s, t, x.slot, m, j) || DownStep(s, t, x.slot, m))
    ensures t.Sized() && PlayerOk(t, x, n)
  {
  }

  lemma SleepOwn(s: State, t: State, x: Player, n: nat, m: nat)
    requires s.Sized() && PlayerOk(s, x, n) && SleepStep(s, t, x.slot, m)
    ensures t.Sized() && PlayerOk(t, x, n)
  {
  }

  lemma KernelOwn(s: State, t: State, x: Player, n: nat, k: Kind, m: nat, j: nat)
    requires s.Sized() && PlayerOk(s, x, n) && Kernel(s, t, x.slot, k, m, j)
    ensures t.Sized() && PlayerOk(t, x, n)
  {
    hide Taken, Given, UpStep, DownStep, SleepStep;
    if k == Working {
      if SleepStep(s, t, x.slot, m) { SleepOwn(s, t, x, n, m); } else { WorkOwn(s, t, x, n, m, j); }
    }
  }

  /** What another process's step leaves alone. */
  lemma KernelFrame(s: State, t: State, p: nat, k: Kind, m: nat, j: nat)
    requires s.Sized() && Kernel(s, t, p, k, m, j)
    ensures t.Sized() && t.N() == s.N() && t.M() == s.M() && p < s.N() && t.pc == s.pc[p := t.pc[p]]
    ensures forall q {:trigger t.life[q]} :: 0 <= q < s.N() && q != p ==>
              t.life[q] == s.life[q] || (s.life[q] == SLEEPING && t.life[q] == RUNNABLE)
    ensures t.downs == s.downs || (s.pc[p] == DTake(m) && m < s.M() && t.downs == s.downs[m := s.downs[m] + 1])
    ensures t.ups == s.ups || (s.pc[p] == UAdd(m) && m < s.M() && t.ups == s.ups[m := s.ups[m] + 1])
  {
  }

  lemma KernelOther(s: State, t: State, x: Player, y: Player, n: nat, k: Kind, m: nat, j: nat)
    requires s.Sized() && PlayerOk(s, x, n) && PlayerOk(s, y, n) && Kernel(s, t, x.slot, k, m, j)
    requires x.slot != y.slot && x.take == y.give && x.give == y.take
    ensures t.Sized() && PlayerOk(t, y, n)
  {
    hide Kernel, Taken, Given;
    KernelFrame(s, t, x.slot, k, m, j);
  }

  lemma PlayOwn(s: State, t: State, x: Player, y: Player, out: seq<Word>, out': seq<Word>, n: nat)
    requires s.Sized() && PlayerOk(s, x, n) && Play(s, t, x, y, out, out')
    ensures t.Sized() && PlayerOk(t, y, n)
    ensures y.slot == x.slot && y.take == x.take && y.give == x.give && y.word == x.word
    ensures if x.where_ == Say then out' == out + [x.word] && Said(y, n) == Said(x, n) + 1
        else out' == out && Said(y, n) == Said(x, n)
  {
  }

  lemma PlayOther(s: State, t: State, x: Player, x': Player, y: Player, out: seq<Word>, out': seq<Word>, n: nat)
    requires s.Sized() && PlayerOk(s, y, n) && Play(s, t, x, x', out, out') && x.slot != y.slot
    ensures t.Sized() && PlayerOk(t, y, n)
  {
  }

  lemma GameSem(g: Game, h: Game, e: Event, init: seq<int>)
    requires Inv(g.sem, init) && GameStep(g, h, e)
    ensures Inv(h.sem, init)
  {
    hide Inv, PlayerOk, Kernel, Next;
    SemSized(g.sem, init);
    match e {
      case Bystander(p, m, j) => NextInv(g.sem, h.sem, Step(p, m, j), init);
      case Event(parent, k, m, j) =>
        if h.sem != g.sem {
          var x := Me(g, parent);
          if Kernel(g.sem, h.sem, x.slot, k, m, j) {
            KernelIsStep(g.sem, h.sem, x.slot, k, m, j);
            NextInv(g.sem, h.sem, Step(x.slot, m, j), init);
          } else {
            var c := if x.where_ == Test then x.take else x.give;
            CallIsStep(g.sem, h.sem, x.slot, c);
            NextInv(g.sem, h.sem, Step(x.slot, c, 0), init);
          }
        }
    }
  }

  lemma KernelIsStep(s: State, t: State, p: nat, k: Kind, m: nat, j: nat)
    requires s.Sized() && Kernel(s, t, p, k, m, j)
    ensures Next(s, t, Step(p, m, j))
  {
    hide UpStep, DownStep, SleepStep, CallStep;
  }

  lemma CallIsStep(s: State, t: State, p: nat, m: nat)
    requires s.Sized() && (UpCall(s, t, p, m) || DownCall(s, t, p, m))
    ensures Next(s, t, Step(p, m, 0))
  {
    hide UpStep, DownStep, SleepStep, OtherStep;
  }

  /** What a step of p at semaphore m leaves alone. */
  ghost predicate Framed(s: State, t: State, p: nat, m: nat)
    requires s.Sized()
  {
    && t.Sized() && t.N() == s.N() && t.M() == s.M() && p < s.N() && t.pc == s.pc[p := t.pc[p]]
    && (forall q {:trigger t.life[q]} :: 0 <= q < s.N() && q != p ==>
          t.life[q] == s.life[q] || (s.life[q] == SLEEPING && s.chan[q] == On(m) && t.life[q] == RUNNABLE))
    && (forall k {:trigger t.downs[k]} :: 0 <= k < s.M() && k != m ==> t.downs[k] == s.downs[k])
    && (forall k {:trigger t.ups[k]} :: 0 <= k < s.M() && k != m ==> t.ups[k] == s.ups[k])
    && (SemOf(t.pc[p]) == None || SemOf(t.pc[p]) == Some(m) || t.pc[p] == s.pc[p])
  }

  lemma UpFrame(s: State, t: State, p: nat, m: nat, j: nat)
    requires s.Sized() && UpStep(s, t, p, m, j)
    ensures Framed(s, t, p, m)
  {
  }

  lemma DownFrame(s: State, t: State, p: nat, m: nat)
    requires s.Sized() && (DownStep(s, t, p, m) || CallStep(s, t, p, m))
    ensures Framed(s, t, p, m)
  {
  }

  lemma RestFrame(s: State, t: State, p: nat, m: nat)
    requires s.Sized() && (SleepStep(s, t, p, m) || OtherStep(s, t, p))
    ensures Framed(s, t, p, m)
  {
  }

  lemma StepFrame(s: State, t: State, p: nat, m: nat, j: nat)
    requires s.Sized() && Next(s, t, Step(p, m, j))
    ensures Framed(s, t, p, m)
  {
    hide UpStep, DownStep, SleepStep, CallStep, OtherStep, Framed;
    if UpStep(s, t, p, m, j) { UpFrame(s, t, p, m, j); }
    else if DownStep(s, t, p, m) || CallStep(s, t, p, m) { DownFrame(s, t, p, m); }
    else { RestFrame(s, t, p, m); }
  }

  /** A bystander's step is nothing to a player. */
  lemma BystanderKeeps(s: State, t: State, p: nat, m: nat, j: nat, y: Player, n: nat)
    requires s.Sized() && PlayerOk(s, y, n) && ProcOk(s, y.slot) && Next(s, t, Step(p, m, j))
    requires p != y.slot && m != y.take && m != y.give
    ensures t.Sized() && t.N() == s.N() && PlayerOk(t, y, n)
    ensures t.life[y.slot] == s.life[y.slot] && t.pc[y.slot] == s.pc[y.slot]
  {
    hide Next, Taken, Given;
    StepFrame(s, t, p, m, j);
    var pc := s.pc[y.slot];
    assert t.life[y.slot] == s.life[y.slot];
  }

  lemma GameNext(g: Game, h: Game, e: Event, n: nat, init: seq<int>)
    requires GameOk(g, n, init) && GameStep(g, h, e)
    ensures GameOk(h, n, init)
  {
    hide Inv, PlayerOk, Kernel, Play, Said, OthersAway, Bystands;
    assert g.sem.Sized() && |init| == g.sem.M() by { SemSized(g.sem, init); }
    GameSem(g, h, e, init);
    SemSized(h.sem, init);
    Turns(g, n, init);
    match e {
      case Bystander(p, m, j) => BystanderPlayers(g, h.sem, p, m, j, n, init);
      case Event(parent, k, m, j) =>
        var x, y, x' := Me(g, parent), Me(g, !parent), Me(h, parent);
        if Kernel(g.sem, h.sem, x.slot, k, m, j) && x' == x && h.out == g.out {
          KernelOwn(g.sem, h.sem, x, n, k, m, j);
          KernelOther(g.sem, h.sem, x, y, n, k, m, j);
        } else {
          PlayOwn(g.sem, h.sem, x, x', g.out, h.out, n);
          PlayOther(g.sem, h.sem, x, x', y, g.out, h.out, n);
        }
    }
    StillAway(g, h, e);
  }

  lemma BystanderPlayers(g: Game, t: State, p: nat, m: nat, j: nat, n: nat, init: seq<int>)
    requires GameOk(g, n, init) && g.sem.Sized() && Bystands(g, t, p, m, j)
    ensures t.Sized() && t.N() == g.sem.N() && PlayerOk(t, g.parent, n) && PlayerOk(t, g.child, n)
    ensures g.parent.slot < t.N() && g.child.slot < t.N()
    ensures t.life[g.parent.slot] == g.sem.life[g.parent.slot] && t.pc[g.parent.slot] == g.sem.pc[g.parent.slot]
    ensures t.life[g.child.slot] == g.sem.life[g.child.slot] && t.pc[g.child.slot] == g.sem.pc[g.child.slot]
  {
    hide Inv, PlayerOk, Next, Said, OthersAway, ProcOk;
    ProcHere(g.sem, g.parent, n, init);
    ProcHere(g.sem, g.child, n, init);
    BystanderKeeps(g.sem, t, p, m, j, g.parent, n);
    BystanderKeeps(g.sem, t, p, m, j, g.child, n);
  }

  lemma StillAway(g: Game, h: Game, e: Event)
    requires g.sem.Sized() && OthersAway(g) && GameStep(g, h, e) && Wired(g)
    ensures h.sem.Sized() && h.sem.N() == g.sem.N() && OthersAway(h)
  {
    hide Kernel, Next;
    match e {
      case Bystander(p, m, j) => StepFrame(g.sem, h.sem, p, m, j);
      case Event(parent, k, m, j) =>
        var x := Me(g, parent);
        if Kernel(g.sem, h.sem, x.slot, k, m, j) { KernelFrame(g.sem, h.sem, x.slot, k, m, j); }
    }
  }

  lemma SemSized(s: State, init: seq<int>)
    requires Inv(s, init)
    ensures s.Sized() && |init| == s.M()
  {
  }

  lemma GameStart(g: Game, n: nat)
    requires Start(g, n)
    ensures GameOk(g, n, g.sem.value)
  {
    hide Inv, Init;
    InitInv(g.sem, g.sem.value);
    assert g.sem.pc[g.parent.slot] == User && g.sem.pc[g.child.slot] == User && PlayerOk(g.sem, g.parent, n)
        && PlayerOk(g.sem, g.child, n) && OthersAway(g) by {
      StartPlayers(g, n);
    }
  }

  lemma StartPlayers(g: Game, n: nat)
    requires Start(g, n)
    ensures g.sem.pc[g.parent.slot] == User && g.sem.pc[g.child.slot] == User && PlayerOk(g.sem, g.parent, n)
        && PlayerOk(g.sem, g.child, n)
    ensures OthersAway(g)
  {
  }

  lemma {:induction false} GameInv(tr: seq<Game>, es: seq<Event>, n: nat, k: nat)
    requires IsGame(tr, es, n) && k < |tr|
    ensures GameOk(tr[k], n, tr[0].sem.value)
  {
    hide GameOk, Start, GameStep;
    if k == 0 {
      GameStart(tr[0], n);
    } else {
      GameInv(tr, es, n, k - 1);
      GameNext(tr[k - 1], tr[k], es[k - 1], n, tr[0].sem.value);
    }
  }

  /** Ping and Pong alternate strictly, beginning with Ping, and there are at most n of each. */
  lemma StrictAlternation(tr: seq<Game>, es: seq<Event>, n: nat, k: nat)
    requires IsGame(tr, es, n) && k < |tr|
    ensures Alternates(tr[k].out) && |tr[k].out| <= 2 * n
    ensures tr[k].parent.where_ == Over && tr[k].child.where_ == Over ==> |tr[k].out| == 2 * n
  {
    hide IsGame, Inv, Alternates;
    GameInv(tr, es, n, k);
    Turns(tr[k], n, tr[0].sem.value);
  }

  // ---------- the game ends ----------

  /** An upper bound on the work left in a call. */
  function CallWeight(life: Life, pc: Pc, n: nat): int {
    match pc
    case UWant(_) => 10 * n + 50
    case UAdd(_) => 10 * n + 45
    case UWake(_, j) => 10 * (if j <= n then n - j else 0) + 40
    case DBack(_) => 21
    case DWant(_) => 20
    case DTest(_) => 19
    case DTake(_) => 18
    case DOut(_) => 17
    case DSleep(_) => 18
    case DDrop(_) => 17
    case DMark(_) => 16
    case DGone(_) => 15
    case DAsleep(_) => if life == SLEEPING then 14 else 22
    case User => 10
  }

  function Weight(x: Player, life: Life, pc: Pc, n: nat): int {
    x.left * (10 * n + 100) +
    match x.where_
    case Test => 25
    case InDown => CallWeight(life, pc, n)
    case Say => 10 * n + 60
    case Raise => 10 * n + 55
    case InUp => if pc == User then 30 else CallWeight(life, pc, n)
    case Over => 0
  }

  function GameWeight(g: Game): int
    requires g.sem.Sized() && g.parent.slot < g.sem.N() && g.child.slot < g.sem.N()
  {
    Weight(g.parent, g.sem.life[g.parent.slot], g.sem.pc[g.parent.slot], g.sem.N())
    + Weight(g.child, g.sem.life[g.child.slot], g.sem.pc[g.child.slot], g.sem.N())
  }

  /** Work by x makes x's weight smaller, by more than it may add to y's. */
  lemma UpWeighs(s: State, t: State, x: Player, y: Player, n: nat, m: nat, j: nat)
    requires s.Sized() && PlayerOk(s, x, n) && PlayerOk(s, y, n) && x.slot != y.slot && UpStep(s, t, x.slot, m, j)
    ensures t.Sized() && t.N() == s.N()
    ensures Weight(x, t.life[x.slot], t.pc[x.slot], s.N()) + Weight(y, t.life[y.slot], t.pc[y.slot], s.N())
            < Weight(x, s.life[x.slot], s.pc[x.slot], s.N()) + Weight(y, s.life[y.slot], s.pc[y.slot], s.N())
  {
    hide Taken, Given;
  }

  lemma DownWeighs(s: State, t: State, x: Player, y: Player, n: nat, m: nat)
    requires s.Sized() && PlayerOk(s, x, n) && PlayerOk(s, y, n) && x.slot != y.slot && ProcOk(s, x.slot)
    requires DownStep(s, t, x.slot, m) || SleepStep(s, t, x.slot, m)
    ensures t.Sized() && t.N() == s.N()
    ensures Weight(x, t.life[x.slot], t.pc[x.slot], s.N()) < Weight(x, s.life[x.slot], s.pc[x.slot], s.N())
    ensures Weight(y, t.life[y.slot], t.pc[y.slot], s.N()) == Weight(y, s.life[y.slot], s.pc[y.slot], s.N())
  {
    hide Taken, Given;
  }

  lemma ClockWeighs(s: State, t: State, x: Player, y: Player, n: nat)
    requires s.Sized() && PlayerOk(s, x, n) && PlayerOk(s, y, n) && x.slot != y.slot
    requires Yield(s, t, x.slot) || Resume(s, t, x.slot)
    ensures t.Sized() && t.N() == s.N()
    ensures Weight(x, t.life[x.slot], t.pc[x.slot], s.N()) == Weight(x, s.life[x.slot], s.pc[x.slot], s.N())
    ensures Weight(y, t.life[y.slot], t.pc[y.slot], s.N()) == Weight(y, s.life[y.slot], s.pc[y.slot], s.N())
  {
    hide Taken, Given;
  }

  lemma PlayWeighs(s: State, t: State, x: Player, x': Player, y: Player, n: nat, out: seq<Word>, out': seq<Word>)
    requires s.Sized() && PlayerOk(s, x, n) && PlayerOk(s, y, n) && x.slot != y.slot && Play(s, t, x, x', out, out')
    ensures t.Sized() && t.N() == s.N()
    ensures Weight(x', t.life[x.slot], t.pc[x.slot], s.N()) < Weight(x, s.life[x.slot], s.pc[x.slot], s.N())
    ensures Weight(y, t.life[y.slot], t.pc[y.slot], s.N()) == Weight(y, s.life[y.slot], s.pc[y.slot], s.N())
  {
    hide Taken, Given;
    var k := 10 * s.N() + 100;
    assert (x.left - 1) * k == x.left * k - k;
  }

  lemma StepWeighs(g: Game, h: Game, e: Event, n: nat, init: seq<int>)
    requires GameOk(g, n, init) && GameOk(h, n, init) && GameStep(g, h, e)
    ensures if Works(e) then GameWeight(h) < GameWeight(g) else GameWeight(h) == GameWeight(g)
  {
    hide Inv, PlayerOk, Kernel, Play, Said, OthersAway, Weight, Work, Bystands;
    SemSized(g.sem, init);
    match e {
      case Bystander(p, m, j) => BystanderPlayers(g, h.sem, p, m, j, n, init);
      case Event(parent, k, m, j) =>
        var x, y, x' := Me(g, parent), Me(g, !parent), Me(h, parent);
        ProcHere(g.sem, x, n, init);
        ProcHere(g.sem, y, n, init);
        if Kernel(g.sem, h.sem, x.slot, k, m, j) && x' == x && h.out == g.out {
          KernelWeighs(g.sem, h.sem, x, y, n, k, m, j);
        } else {
          SlotsStay(g.sem, h.sem, x, x', g.out, h.out);
          PlayWeighs(g.sem, h.sem, x, x', y, n, g.out, h.out);
        }
    }
  }

  lemma SlotsStay(s: State, t: State, x: Player, y: Player, out: seq<Word>, out': seq<Word>)
    requires s.Sized() && Play(s, t, x, y, out, out')
    ensures y.slot == x.slot
  {
  }

  lemma ProcHere(s: State, x: Player, n: nat, init: seq<int>)
    requires Inv(s, init) && PlayerOk(s, x, n)
    ensures x.slot < s.N() && ProcOk(s, x.slot)
  {
    hide ProcOk, OwnersOk, ValuesOk, WakesOk;
  }

  lemma KernelWeighs(s: State, t: State, x: Player, y: Player, n: nat, k: Kind, m: nat, j: nat)
    requires s.Sized() && PlayerOk(s, x, n) && PlayerOk(s, y, n) && x.slot != y.slot && Kernel(s, t, x.slot, k, m, j)
    requires x.slot < s.N() && y.slot < s.N() && ProcOk(s, x.slot)
    ensures t.Sized() && t.N() == s.N()
    ensures var was, now := Weight(x, s.life[x.slot], s.pc[x.slot], s.N())
        + Weight(y, s.life[y.slot], s.pc[y.slot], s.N()),
                            Weight(x, t.life[x.slot], t.pc[x.slot], s.N())
                                + Weight(y, t.life[y.slot], t.pc[y.slot], s.N());
            if k == Working then now < was else now == was
  {
    hide PlayerOk, Weight, UpStep, DownStep, SleepStep;
    if k != Working { ClockWeighs(s, t, x, y, n); }
    else if UpStep(s, t, x.slot, m, j) { UpWeighs(s, t, x, y, n, m, j); }
    else { DownWeighs(s, t, x, y, n, m); }
  }

  predicate Works(e: Event) { e.Event? && e.kind == Working }

  /** How much the two have done, leaving aside that the clock and the scheduler step in. */
  function WorkDone(es: seq<Event>): nat {
    if es == [] then 0 else WorkDone(es[..|es| - 1]) + if Works(es[|es| - 1]) then 1 else 0
  }

  lemma {:induction false} WeightBounds(tr: seq<Game>, es: seq<Event>, n: nat, k: nat)
    requires IsGame(tr, es, n) && k < |tr|
    ensures GameOk(tr[0], n, tr[0].sem.value) && GameOk(tr[k], n, tr[0].sem.value)
    ensures WorkDone(es[..k]) + GameWeight(tr[k]) <= GameWeight(tr[0])
  {
    hide GameOk, Start, GameStep, GameWeight;
    GameInv(tr, es, n, 0);
    GameInv(tr, es, n, k);
    if k > 0 {
      WeightBounds(tr, es, n, k - 1);
      StepWeighs(tr[k - 1], tr[k], es[k - 1], n, tr[0].sem.value);
      assert es[..k][..k - 1] == es[..k - 1];
    }
  }

  lemma WeightPositive(x: Player, life: Life, pc: Pc, n: nat)
    ensures Weight(x, life, pc, n) >= 0
  {
    assert x.left * (10 * n + 100) >= 0;
  }

  /**
   Every run is finite but for the clock and the bystanders: so much work and no more do the
   two ever do for n rounds among N processes, whatever the others do.
   */
  lemma WorkIsBounded(tr: seq<Game>, es: seq<Event>, n: nat, k: nat)
    requires IsGame(tr, es, n) && k < |tr|
    ensures WorkDone(es[..k]) <= 2 * (n * (10 * tr[0].sem.N() + 100) + 25)
  {
    WeightBounds(tr, es, n, k);
    var g := tr[k];
    WeightPositive(g.parent, g.sem.life[g.parent.slot], g.sem.pc[g.parent.slot], g.sem.N());
    WeightPositive(g.child, g.sem.life[g.child.slot], g.sem.pc[g.child.slot], g.sem.N());
  }

  // ---------- ... and not before both are done ----------

  /** Something other than a clock tick can happen next for this player. */
  ghost predicate CanGo(g: Game, parent: bool) requires g.sem.Sized() {
    exists h: Game, k: Kind, m: nat, j: nat :: k != Yielding && GameStep(g, h, Event(parent, k, m, j))
  }

  /** The steps that a process in sleep() has to make before it gives its lock up. */
  function UntilFree(pc: Pc): (k: nat)
    ensures k == 0 <==> !HoldsOwn(pc)
  {
    match pc
    case DDrop(_) => 3
    case DMark(_) => 2
    case DGone(_) => 1
    case DBack(_) => 1
    case _ => 0
  }

  /**
   This player's wakeup() has come to a bystander that is in sleep() and holds its lock, and can go on to where it
   gives it up.
   */
  ghost predicate HeldUp(g: Game, parent: bool)
    requires g.sem.Sized() && Me(g, parent).slot < g.sem.N()
  {
    var pc := g.sem.pc[Me(g, parent).slot];
    && pc.UWake? && pc.j < g.sem.N() && pc.j != g.parent.slot && pc.j != g.child.slot && g.sem.lock[pc.j] == Some(pc.j)
    && exists t: State, m: nat :: t.Sized() && t.N() == g.sem.N() && SleepStep(g.sem, t, pc.j, m)
         && UntilFree(t.pc[pc.j]) < UntilFree(g.sem.pc[pc.j])
  }

  lemma GoesOn(g: Game, parent: bool, t: State, k: Kind, m: nat, j: nat)
    requires g.sem.Sized() && k != Yielding && Kernel(g.sem, t, Me(g, parent).slot, k, m, j)
    ensures CanGo(g, parent)
  {
    hide Kernel;
    assert GameStep(g, g.(sem := t), Event(parent, k, m, j));
  }

  lemma PlaysOn(g: Game, parent: bool, t: State, y: Player, out: seq<Word>)
    requires g.sem.Sized() && Play(g.sem, t, Me(g, parent), y, g.out, out)
    ensures CanGo(g, parent)
  {
    hide Play;
    var h := if parent then Game(t, y, g.child, out) else Game(t, g.parent, y, out);
    assert GameStep(g, h, Event(parent, Working, 0, 0));
  }

  /** A player whose time slice is over, or who has just returned to its loop. */
  lemma UserGoes(g: Game, parent: bool, n: nat)
    requires g.sem.Sized() && PlayerOk(g.sem, Me(g, parent), n) && ProcOk(g.sem, Me(g, parent).slot)
    requires Me(g, parent).where_ != Over && g.sem.pc[Me(g, parent).slot] == User
    ensures CanGo(g, parent)
  {
    hide CanGo, Taken, Given;
    var x, s := Me(g, parent), g.sem;
    if s.life[x.slot] == RUNNABLE {
      GoesOn(g, parent, s.(life := s.life[x.slot := RUNNING], chan := s.chan[x.slot := Nowhere]), Resuming, 0, 0);
    } else {
      match x.where_ {
        case Test =>
          if x.left > 0 { PlaysOn(g, parent, s.(pc := s.pc[x.slot := DWant(x.take)]), x.(where_ := InDown), g.out); }
          else { PlaysOn(g, parent, s, x.(where_ := Over), g.out); }
        case InDown => PlaysOn(g, parent, s, x.(left := x.left - 1, where_ := Say), g.out);
        case Say => PlaysOn(g, parent, s, x.(where_ := Raise), g.out + [x.word]);
        case Raise => PlaysOn(g, parent, s.(pc := s.pc[x.slot := UWant(x.give)]), x.(where_ := InUp), g.out);
        case InUp => PlaysOn(g, parent, s, x.(where_ := Test), g.out);
      }
    }
  }

  /** A player at a lock that is free. */
  lemma LockGoes(g: Game, parent: bool, m: nat)
    requires g.sem.Sized() && Me(g, parent).slot < g.sem.N() && ProcOk(g.sem, Me(g, parent).slot)
    requires m < g.sem.M() && g.sem.owner[m] == None
    requires g.sem.pc[Me(g, parent).slot] == UWant(m) || g.sem.pc[Me(g, parent).slot] == DWant(m)
    ensures CanGo(g, parent)
  {
    hide CanGo;
    var p, s := Me(g, parent).slot, g.sem;
    if s.life[p] == RUNNABLE {
      GoesOn(g, parent, s.(life := s.life[p := RUNNING], chan := s.chan[p := Nowhere]), Resuming, 0, 0);
    } else if s.pc[p] == UWant(m) {
      GoesOn(g, parent, s.(pc := s.pc[p := UAdd(m)], owner := s.owner[m := Some(p)]), Working, m, 0);
    } else {
      GoesOn(g, parent, s.(pc := s.pc[p := DTest(m)], owner := s.owner[m := Some(p)]), Working, m, 0);
    }
  }

  /** A player holding a semaphore, unless its wakeup() has come to a process whose lock is held. */
  lemma HolderGoes(g: Game, parent: bool, m: nat)
    requires g.sem.Sized() && Me(g, parent).slot < g.sem.N() && ProcOk(g.sem, Me(g, parent).slot)
    requires HeldSem(g.sem.pc[Me(g, parent).slot]) == Some(m)
    requires match g.sem.pc[Me(g, parent).slot] case UWake(_, j) => j == g.sem.N() || Unlocked(g.sem, j) case _ => true
    ensures CanGo(g, parent)
  {
    hide CanGo;
    var p, s := Me(g, parent).slot, g.sem;
    match s.pc[p] {
      case UAdd(_) =>
        GoesOn(g, parent,
               s.(pc := s.pc[p := UWake(m, 0)], value := s.value[m := s.value[m] + 1], ups := s.ups[m := s.ups[m] + 1]),
               Working, m, 0);
      case UWake(_, j) => WakerGoes(g, parent, m, j);
      case DTest(_) => GoesOn(g, parent, s.(pc := s.pc[p := if s.value[m] <= 0 then DSleep(m) else DTake(m)]), Working,
          m, 0);
      case DTake(_) =>
        GoesOn(g, parent,
               s.(pc := s.pc[p := DOut(m)], value := s.value[m := s.value[m] - 1],
                  downs := s.downs[m := s.downs[m] + 1]),
               Working, m, 0);
      case DOut(_) => GoesOn(g, parent, s.(pc := s.pc[p := User], owner := s.owner[m := None]), Working, m, 0);
      case DSleep(_) => GoesOn(g, parent, s.(pc := s.pc[p := DDrop(m)], lock := s.lock[p := Some(p)]), Working, m, 0);
      case DDrop(_) => GoesOn(g, parent, s.(pc := s.pc[p := DMark(m)], owner := s.owner[m := None]), Working, m, 0);
    }
  }

  lemma WakerGoes(g: Game, parent: bool, m: nat, j: nat)
    requires g.sem.Sized() && At(g.sem, Me(g, parent).slot, UWake(m, j)) && m < g.sem.M()
        && (j == g.sem.N() || Unlocked(g.sem, j))
    ensures CanGo(g, parent)
  {
    hide CanGo;
    var p, s := Me(g, parent).slot, g.sem;
    if j == s.N() {
      GoesOn(g, parent, s.(pc := s.pc[p := User], owner := s.owner[m := None]), Working, m, j);
    } else {
      GoesOn(g, parent, s.(pc := s.pc[p := UWake(m, j + 1)],
                           life := if j != p && s.life[j] == SLEEPING && s.chan[j] == On(m) then s.life[j := RUNNABLE]
                               else s.life), Working, m, j);
    }
  }

  /** A player in sleep(), unless it sleeps. */
  lemma SleeperGoes(g: Game, parent: bool, m: nat)
    requires g.sem.Sized() && Me(g, parent).slot < g.sem.N() && ProcOk(g.sem, Me(g, parent).slot)
    requires var pc := g.sem.pc[Me(g, parent).slot];
             pc == DMark(m) || pc == DGone(m) || pc == DBack(m)
                 || (pc == DAsleep(m) && g.sem.life[Me(g, parent).slot] == RUNNABLE)
    ensures CanGo(g, parent)
  {
    hide CanGo;
    var p, s := Me(g, parent).slot, g.sem;
    match s.pc[p] {
      case DMark(_) => GoesOn(g, parent,
          s.(pc := s.pc[p := DGone(m)], chan := s.chan[p := On(m)], life := s.life[p := SLEEPING]), Working, m, 0);
      case DGone(_) => GoesOn(g, parent, s.(pc := s.pc[p := DAsleep(m)], lock := s.lock[p := None]), Working, m, 0);
      case DBack(_) => GoesOn(g, parent,
          s.(pc := s.pc[p := DWant(m)], chan := s.chan[p := Nowhere], lock := s.lock[p := None]), Working, m, 0);
      case DAsleep(_) => GoesOn(g, parent,
          s.(life := s.life[p := RUNNING], pc := s.pc[p := DBack(m)], lock := s.lock[p := Some(p)]), Working, m, 0);
    }
  }

  /** The call a player is stuck in, if it is. */
  datatype Hitch = NoHitch | Finished | Sleeping | LockTaken(m: nat) | ScanHeld(j: nat)

  /** A player goes on unless it is done, sleeps, or needs a lock that is taken. */
  lemma GoesOrHitch(g: Game, parent: bool, n: nat, init: seq<int>) returns (why: Hitch)
    requires GameOk(g, n, init)
    ensures g.sem.Sized() && Me(g, parent).slot < g.sem.N() && (why == NoHitch ==> CanGo(g, parent))
    ensures var x, s := Me(g, parent), g.sem;
            match why
            case NoHitch => true
            case Finished => x.where_ == Over && s.pc[x.slot] == User
            case Sleeping => s.pc[x.slot] == DAsleep(x.take) && s.life[x.slot] == SLEEPING && x.where_ == InDown
            case LockTaken(m) => (s.pc[x.slot] == UWant(m) || s.pc[x.slot] == DWant(m)) && m < s.M()
                && s.owner[m] != None
            case ScanHeld(j) => s.pc[x.slot].UWake? && s.pc[x.slot].j == j < s.N() && s.lock[j] != None
  {
    hide CanGo, ProcsOk, OwnersOk, ValuesOk, WakesOk, Taken, Given, Alternates, OthersAway, Said, ProcOk;
    var x, s := Me(g, parent), g.sem;
    ProcHere(s, x, n, init);
    why := NoHitch;
    match s.pc[x.slot] {
      case User => if x.where_ == Over { why := Finished; } else { UserGoes(g, parent, n); }
      case UWant(m) => if s.owner[m] == None { LockGoes(g, parent, m); } else { why := LockTaken(m); }
      case DWant(m) => if s.owner[m] == None { LockGoes(g, parent, m); } else { why := LockTaken(m); }
      case UWake(m, j) => if j < s.N() && s.lock[j] != None { why := ScanHeld(j); } else { HolderGoes(g, parent, m); }
      case DMark(m) => SleeperGoes(g, parent, m);
      case DGone(m) => SleeperGoes(g, parent, m);
      case DBack(m) => SleeperGoes(g, parent, m);
      case DAsleep(m) => if s.life[x.slot] == SLEEPING { why := Sleeping; }
          else { Dozing(s, x.slot); SleeperGoes(g, parent, m); }
      case UAdd(m) => HolderGoes(g, parent, m);
      case DTest(m) => HolderGoes(g, parent, m);
      case DTake(m) => HolderGoes(g, parent, m);
      case DOut(m) => HolderGoes(g, parent, m);
      case DSleep(m) => HolderGoes(g, parent, m);
      case DDrop(m) => HolderGoes(g, parent, m);
    }
  }

  lemma Dozing(s: State, p: nat)
    requires s.Sized() && p < s.N() && ProcOk(s, p) && s.pc[p].DAsleep?
    ensures s.life[p] == SLEEPING || s.life[p] == RUNNABLE
  {
  }

  lemma OwnerFacts(s: State, m: nat)
    requires s.Sized() && OwnersOk(s) && m < s.M() && s.owner[m].Some?
    ensures s.owner[m].value < s.N() && HeldSem(s.pc[s.owner[m].value]) == Some(m)
  {
  }

  /**
   A semaphore's lock that a player has to wait for is held by the other one, who is not asleep and not waiting for it
   itself.
   */
  lemma LockTakenByOther(g: Game, parent: bool, n: nat, init: seq<int>, m: nat)
    requires GameOk(g, n, init) && m < g.sem.M() && g.sem.owner[m] != None
    requires g.sem.pc[Me(g, parent).slot] == UWant(m) || g.sem.pc[Me(g, parent).slot] == DWant(m)
    ensures CanGo(g, !parent) || HeldUp(g, !parent)
  {
    hide CanGo, HeldUp, ProcsOk, ValuesOk, WakesOk, OwnersOk, Taken, Given, Alternates, Said, ProcOk;
    var x, y := Me(g, parent), Me(g, !parent);
    OwnerFacts(g.sem, m);
    assert g.sem.owner[m].value == y.slot by { var q := g.sem.pc[g.sem.owner[m].value]; }
    ProcHere(g.sem, x, n, init);
    ProcHere(g.sem, y, n, init);
    if g.sem.pc[y.slot].UWake? && g.sem.pc[y.slot].j < g.sem.N() && g.sem.lock[g.sem.pc[y.slot].j] != None {
      LockHolder(g.sem, x.slot, g.sem.pc[y.slot].j);
      ScanHeldUp(g, !parent, n, init);
    } else {
      HolderGoes(g, !parent, m);
    }
  }

  /** Only a process itself keeps its lock, in sleep(). */
  lemma LockHolder(s: State, p: nat, j: nat)
    requires s.Sized() && j < s.N() && s.lock[j] != None && p < s.N() && ProcOk(s, p)
    ensures j == p ==> HoldsOwn(s.pc[p])
  {
  }

  /** The lock that stops a player's wakeup() is a bystander's. */
  lemma ScanHeldUp(g: Game, parent: bool, n: nat, init: seq<int>)
    requires GameOk(g, n, init)
    requires var pc := g.sem.pc[Me(g, parent).slot];
             pc.UWake? && pc.j < g.sem.N() && g.sem.lock[pc.j] != None && pc.j != Me(g, !parent).slot
    ensures HeldUp(g, parent)
  {
    hide ValuesOk, WakesOk, OwnersOk, Taken, Given, Alternates, Said, SleepStep;
    var j, s := g.sem.pc[Me(g, parent).slot].j, g.sem;
    assert ProcOk(s, j) && ProcOk(s, Me(g, parent).slot);
    var m := s.pc[j].m;
    var t := SleepOver(s, j, m);
  }

  /** Whoever holds its lock in sleep() can go on. */
  lemma SleepOver(s: State, p: nat, m: nat) returns (t: State)
    requires s.Sized() && p < s.N() && ProcOk(s, p) && HoldsOwn(s.pc[p]) && m == s.pc[p].m
    ensures t.Sized() && t.N() == s.N() && SleepStep(s, t, p, m) && UntilFree(t.pc[p]) < UntilFree(s.pc[p])
  {
    match s.pc[p] {
      case DDrop(_) => t := s.(pc := s.pc[p := DMark(m)], owner := s.owner[m := None]);
      case DMark(_) => t := s.(pc := s.pc[p := DGone(m)], chan := s.chan[p := On(m)], life := s.life[p := SLEEPING]);
      case DGone(_) => t := s.(pc := s.pc[p := DAsleep(m)], lock := s.lock[p := None]);
      case DBack(_) => t := s.(pc := s.pc[p := DWant(m)], chan := s.chan[p := Nowhere], lock := s.lock[p := None]);
    }
  }

  /** What stops a player's wakeup() is the other player or a bystander, in the middle of sleep(). */
  lemma ScanHeldByOther(g: Game, parent: bool, n: nat, init: seq<int>, j: nat)
    requires GameOk(g, n, init) && j < g.sem.N() && g.sem.lock[j] != None
    requires g.sem.pc[Me(g, parent).slot].UWake? && g.sem.pc[Me(g, parent).slot].j == j
    ensures CanGo(g, !parent) || HeldUp(g, parent)
  {
    hide CanGo, HeldUp, ValuesOk, WakesOk, OwnersOk, ProcsOk, Taken, Given, Alternates, Said, ProcOk;
    var y, s := Me(g, !parent), g.sem;
    if j != y.slot {
      ScanHeldUp(g, parent, n, init);
    } else {
      ProcHere(s, y, n, init);
      LockHolder(s, y.slot, j);
      match s.pc[y.slot] {
        case DDrop(m) => HolderGoes(g, !parent, m);
        case DMark(m) => SleeperGoes(g, !parent, m);
        case DGone(m) => SleeperGoes(g, !parent, m);
        case DBack(m) => SleeperGoes(g, !parent, m);
      }
    }
  }

  /** A sleeping player whose partner is done or asleep too would have no token to wait for. */
  lemma SomebodyHasTheToken(g: Game, n: nat, init: seq<int>, a: Hitch, b: Hitch)
    requires GameOk(g, n, init) && (a == Finished || a == Sleeping) && (b == Finished || b == Sleeping)
    requires a == Finished ==> g.parent.where_ == Over && g.sem.pc[g.parent.slot] == User
    requires b == Finished ==> g.child.where_ == Over && g.sem.pc[g.child.slot] == User
    requires a == Sleeping ==>
        g.parent.where_ == InDown && g.sem.pc[g.parent.slot] == DAsleep(g.parent.take)
        && g.sem.life[g.parent.slot] == SLEEPING
    requires b == Sleeping ==>
        g.child.where_ == InDown && g.sem.pc[g.child.slot] == DAsleep(g.child.take)
        && g.sem.life[g.child.slot] == SLEEPING
    ensures a == b == Finished
  {
    hide ProcsOk, OwnersOk, Alternates, Said, WakesOk;
    OneToken(g, n, init);
    if a == Sleeping { AsleepOnZero(g, true, n, init); }
    if b == Sleeping { AsleepOnZero(g, false, n, init); }
  }

  /** No wakeup() is under way when the two players are in user mode or asleep. */
  lemma OwnerIdle(g: Game, m: nat, p: nat, q: nat)
    requires g.sem.Sized() && OthersAway(g) && OwnersOk(g.sem) && m < g.sem.M() && p < g.sem.N() && q < g.sem.N()
    requires {p, q} == {g.parent.slot, g.child.slot} && (m == g.parent.take || m == g.parent.give)
    requires g.sem.pc[p] == User || g.sem.pc[p].DAsleep?
    requires g.sem.pc[q] == User || g.sem.pc[q].DAsleep?
    ensures g.sem.owner[m] == None
  {
    forall o | 0 <= o < g.sem.N() ensures HeldSem(g.sem.pc[o]) != Some(m) { var pc := g.sem.pc[o]; }
  }

  lemma AsleepOnZero(g: Game, parent: bool, n: nat, init: seq<int>)
    requires GameOk(g, n, init) && Me(g, parent).where_ == InDown
    requires g.sem.pc[Me(g, parent).slot] == DAsleep(Me(g, parent).take) && g.sem.life[Me(g, parent).slot] == SLEEPING
    requires g.sem.pc[Me(g, !parent).slot] == User || g.sem.pc[Me(g, !parent).slot].DAsleep?
    ensures g.sem.value[Me(g, parent).take] == 0
  {
    hide ProcsOk, Alternates, Said, Taken, Given;
    var x, y, s := Me(g, parent), Me(g, !parent), g.sem;
    if s.value[x.take] > 0 {
      assert Asleep(s, x.slot, x.take);
      OwnerIdle(g, x.take, x.slot, y.slot);
    }
  }

  /**
   Nobody waits for ever: as long as the game is not over, one of the two can go on, or
   its wakeup() waits for a bystander's lock, and the bystander can go on.
   */
  lemma NeverStuck(tr: seq<Game>, es: seq<Event>, n: nat, k: nat)
    requires IsGame(tr, es, n) && k < |tr|
    ensures tr[k].sem.Sized() && tr[k].parent.slot < tr[k].sem.N() && tr[k].child.slot < tr[k].sem.N()
    ensures tr[k].parent.where_ != Over || tr[k].child.where_ != Over ==>
              CanGo(tr[k], true) || CanGo(tr[k], false) || HeldUp(tr[k], true) || HeldUp(tr[k], false)
  {
    hide IsGame, CanGo, HeldUp, Inv, PlayerOk, Alternates, OthersAway;
    GameInv(tr, es, n, k);
    var g, init := tr[k], tr[0].sem.value;
    var a := GoesOrHitch(g, true, n, init);
    var b := GoesOrHitch(g, false, n, init);
    if a.LockTaken? { LockTakenByOther(g, true, n, init, a.m); }
    else if b.LockTaken? { LockTakenByOther(g, false, n, init, b.m); }
    else if a.ScanHeld? { ScanHeldByOther(g, true, n, init, a.j); }
    else if b.ScanHeld? { ScanHeldByOther(g, false, n, init, b.j); }
    else if a != NoHitch && b != NoHitch { SomebodyHasTheToken(g, n, init, a, b); }
  }
}
