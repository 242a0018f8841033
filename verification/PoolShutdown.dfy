/**
 The life of the thread pool over whole runs: who gets which connection, and how it shuts down.
 */
module PoolShutdown {
  import opened ConnectionList
  import opened WorkerPool

  // ---- Counting ----

  function Sum(workers: seq<WorkerPc>, f: WorkerPc -> nat): nat {
    if workers == [] then 0 else f(workers[0]) + Sum(workers[1..], f)
  }

  lemma {:induction false} SumUpdate(workers: seq<WorkerPc>, f: WorkerPc -> nat, i: nat, pc: WorkerPc)
    requires i < |workers|
    ensures Sum(workers[i := pc], f) == Sum(workers, f) - f(workers[i]) + f(pc)
  {
    if i == 0 {
      assert workers[0 := pc][1..] == workers[1..];
    } else {
      SumUpdate(workers[1..], f, i - 1, pc);
      assert workers[i := pc][1..] == workers[1..][i - 1 := pc];
    }
  }

  lemma {:induction false} SumOfBits(workers: seq<WorkerPc>, f: WorkerPc -> nat)
    requires forall i :: 0 <= i < |workers| ==> f(workers[i]) <= 1
    ensures Sum(workers, f) <= |workers|
    ensures (forall i :: 0 <= i < |workers| ==> f(workers[i]) == 1) ==> Sum(workers, f) == |workers|
    ensures (forall i :: 0 <= i < |workers| ==> f(workers[i]) == 0) ==> Sum(workers, f) == 0
  {
    if workers != [] {
      SumOfBits(workers[1..], f);
    }
  }

  lemma {:induction false} SumWakeSame(workers: seq<WorkerPc>, f: WorkerPc -> nat)
    requires f(Woken) == f(Asleep)
    ensures Sum(WakeAll(workers), f) == Sum(workers, f)
  {
    if workers != [] {
      SumWakeSame(workers[1..], f);
      assert WakeAll(workers)[1..] == WakeAll(workers[1..]);
    }
  }

  /** The worker holds a TERMINATE token. */
  function HandOf(pc: WorkerPc): nat {
    if (pc.Unlocking? || pc.Acting?) && pc.c.action == Terminate then 1 else 0
  }

  function GoneOf(pc: WorkerPc): nat {
    if pc == Exited then 1 else 0
  }

  function EndingOf(pc: WorkerPc): nat {
    HandOf(pc) + GoneOf(pc)
  }

  lemma {:induction false} EndingIsHandOrGone(workers: seq<WorkerPc>)
    ensures Sum(workers, EndingOf) == Sum(workers, HandOf) + Sum(workers, GoneOf)
  {
    if workers != [] {
      EndingIsHandOrGone(workers[1..]);
    }
  }

  lemma {:induction false} NotAllEnding(workers: seq<WorkerPc>, i: nat)
    requires i < |workers| && EndingOf(workers[i]) == 0
    ensures Sum(workers, EndingOf) < |workers|
  {
    var rest := workers[i := Exited];
    SumUpdate(workers, EndingOf, i, Exited);
    SumOfBits(rest, EndingOf);
  }

  /** The TERMINATE tokens in a list. */
  function Terms(ts: seq<Entry>): nat {
    if ts == [] then 0 else (if ts[0].action == Terminate then 1 else 0) + Terms(ts[1..])
  }

  lemma {:induction false} TermsAppend(a: seq<Entry>, b: seq<Entry>)
    ensures Terms(a + b) == Terms(a) + Terms(b)
  {
    if a == [] {
      assert a + b == b;
    } else {
      TermsAppend(a[1..], b);
      assert (a + b)[1..] == a[1..] + b;
    }
  }

  lemma {:induction false} TermsOfUniform(ts: seq<Entry>, terminate: bool)
    requires forall i :: 0 <= i < |ts| ==> (ts[i].action == Terminate <==> terminate)
    ensures Terms(ts) == if terminate then |ts| else 0
  {
    if ts != [] {
      TermsOfUniform(ts[1..], terminate);
    }
  }

  // ---- What has been added: work, then the TERMINATE tokens, then what comes late ----

  function TermsAdded(s: State): nat {
    match s.handler
    case HandlerLocking(k) => k
    case HandlerAdding(k) => k
    case HandlerBroadcasting(k) => k + 1
    case HandlerReleasing(k) => k + 1
    case Off => if s.loop then 0 else |s.workers|
  }

  /** How many tokens of work were added before the first TERMINATE. */
  function WorkAdded(s: State): int {
    |s.added| - TermsAdded(s) - |s.late|
  }

  ghost predicate Shaped(added: seq<Entry>, work: int, terms: nat, late: seq<Entry>) {
    && 0 <= work && |added| == work + terms + |late|
    && (forall i :: 0 <= i < work ==> added[i].action != Terminate)
    && (forall i :: work <= i < work + terms ==> added[i].action == Terminate)
    && added[work + terms..] == late
    && forall i :: 0 <= i < |late| ==> late[i].action != Terminate
  }

  ghost predicate Balanced(s: State) {
    && Shaped(s.added, WorkAdded(s), TermsAdded(s), s.late)
    && Terms(Tokens(s.taken)) == Sum(s.workers, EndingOf)
    && |s.taken| <= WorkAdded(s) + TermsAdded(s)
  }

  ghost predicate AccountInv(n: nat, s: State) {
    SafeInv(n, s) && Balanced(s)
  }

  /** How many TERMINATE tokens the first `k` tokens contain. */
  lemma TermsOfPrefix(added: seq<Entry>, work: nat, terms: nat, late: seq<Entry>, k: nat)
    requires Shaped(added, work, terms, late) && k <= |added|
    ensures Terms(added[..k]) == if k <= work then 0 else if k <= work + terms then k - work else terms
  {
    if k <= work {
      TermsOfUniform(added[..k], false);
    } else if k <= work + terms {
      TermsOfWorkAndStops(added, work, k);
    } else {
      TermsOfWorkAndStops(added, work, work + terms);
      TermsOfUniform(late[..k - work - terms], false);
      TermsAppend(added[..work + terms], late[..k - work - terms]);
      assert added[..k] == added[..work + terms] + late[..k - work - terms];
    }
  }

  lemma TermsOfWorkAndStops(added: seq<Entry>, work: nat, k: nat)
    requires work <= k <= |added|
    requires forall i :: 0 <= i < k ==> (added[i].action == Terminate <==> i >= work)
    ensures Terms(added[..k]) == k - work
  {
    TermsAppend(added[..work], added[work..k]);
    TermsOfUniform(added[..work], false);
    TermsOfUniform(added[work..k], true);
    assert added[..k] == added[..work] + added[work..k];
  }

  lemma WorkerKeepsAccount(n: nat, s: State, i: nat)
    requires AccountInv(n, s) && WorkerEnabled(s, i)
    ensures AccountInv(n, WorkerStep(s, i))
  {
    WorkerKeepsSafe(n, s, i);
    if s.workers[i] == Removing {
      TakerKeepsAccount(n, s, i);
    } else {
      OtherKeepsAccount(n, s, i);
    }
  }

  lemma OtherKeepsAccount(n: nat, s: State, i: nat)
    requires AccountInv(n, s) && WorkerEnabled(s, i) && s.workers[i] != Removing && SafeInv(n, WorkerStep(s, i))
    ensures AccountInv(n, WorkerStep(s, i))
  {
    OtherChangesNoTokens(s, i);
    BalanceStays(s, WorkerStep(s, i));
  }

  lemma OtherChangesNoTokens(s: State, i: nat)
    requires WorkerEnabled(s, i) && s.workers[i] != Removing
    ensures SameTokens(s, WorkerStep(s, i))
  {
    SumUpdate(s.workers, EndingOf, i, MovedTo(s, i));
    OtherMoves(s, i);
  }

  /** Where the worker stands after its step. */
  function MovedTo(s: State, i: nat): WorkerPc
    requires WorkerEnabled(s, i)
  {
    WorkerStep(s, i).workers[i]
  }

  lemma OtherMoves(s: State, i: nat)
    requires WorkerEnabled(s, i) && s.workers[i] != Removing
    ensures EndingOf(MovedTo(s, i)) == EndingOf(s.workers[i])
    ensures WorkerStep(s, i) == s.(owner := WorkerStep(s, i).owner, workers := s.workers[i := MovedTo(s, i)])
  {
  }

  lemma SameShape(s: State, s': State)
    requires s' == s.(queue := s'.queue, owner := s'.owner, workers := s'.workers, taken := s'.taken)
    requires |s'.workers| == |s.workers|
    ensures WorkAdded(s') == WorkAdded(s) && TermsAdded(s') == TermsAdded(s)
  {
  }

  lemma TakerKeepsAccount(n: nat, s: State, i: nat)
    requires AccountInv(n, s) && WorkerEnabled(s, i) && s.workers[i] == Removing && SafeInv(n, WorkerStep(s, i))
    ensures AccountInv(n, WorkerStep(s, i))
  {
    var c := s.queue[0];
    TakerIsInTime(n, s, i);
    TakerIsCounted(s, i, c);
    SameShape(s, WorkerStep(s, i));
  }

  lemma TakerIsCounted(s: State, i: nat, c: Entry)
    requires i < |s.workers| && s.workers[i] == Removing && Terms(Tokens(s.taken)) == Sum(s.workers, EndingOf)
    ensures Terms(Tokens(s.taken + [(i, c)])) == Sum(s.workers[i := Unlocking(c)], EndingOf)
  {
    SumUpdate(s.workers, EndingOf, i, Unlocking(c));
    assert Tokens(s.taken + [(i, c)]) == Tokens(s.taken) + [c];
    TermsAppend(Tokens(s.taken), [c]);
  }

  /** A worker that takes a token takes work or a TERMINATE, never what comes late. */
  lemma TakerIsInTime(n: nat, s: State, i: nat)
    requires AccountInv(n, s) && i < n && s.workers[i] == Removing
    ensures |s.taken| < WorkAdded(s) + TermsAdded(s)
  {
    NotAllEnding(s.workers, i);
    var k := |s.taken|;
    assert Tokens(s.taken) == s.added[..k];
    TermsOfPrefix(s.added, WorkAdded(s), TermsAdded(s), s.late, k);
  }

  lemma MainKeepsAccount(n: nat, s: State)
    requires AccountInv(n, s) && MainEnabled(s)
    ensures AccountInv(n, MainStep(s))
  {
    MainKeepsSafe(n, s);
    if s.handler != Off {
      HandlerKeepsAccount(n, s);
    } else {
      LoopKeepsAccount(n, s);
    }
  }

  lemma LoopKeepsAccount(n: nat, s: State)
    requires AccountInv(n, s) && MainEnabled(s) && s.handler == Off && SafeInv(n, MainStep(s))
    ensures AccountInv(n, MainStep(s))
  {
    if s.main.Adding? {
      AddingKeepsBalance(s);
    } else {
      SumWakeSame(s.workers, EndingOf);
      LoopChangesNoTokens(s);
      BalanceStays(s, LoopStep(s));
    }
  }

  /** Nothing that the balance speaks of has changed. */
  ghost predicate SameTokens(s: State, s': State) {
    && s'.added == s.added && s'.late == s.late && s'.taken == s.taken && s'.loop == s.loop
    && s'.handler == s.handler && |s'.workers| == |s.workers|
    && Sum(s'.workers, EndingOf) == Sum(s.workers, EndingOf)
  }

  lemma LoopChangesNoTokens(s: State)
    requires s.handler == Off && MainEnabled(s) && !s.main.Adding?
    requires Sum(WakeAll(s.workers), EndingOf) == Sum(s.workers, EndingOf)
    ensures SameTokens(s, LoopStep(s))
  {
  }

  lemma BalanceStays(s: State, s': State)
    requires Balanced(s) && SameTokens(s, s')
    ensures Balanced(s')
  {
    assert TermsAdded(s') == TermsAdded(s) && WorkAdded(s') == WorkAdded(s);
  }

  lemma WorkIsAdded(added: seq<Entry>, work: nat, t: Entry)
    requires Shaped(added, work, 0, []) && t.action != Terminate
    ensures Shaped(added + [t], work + 1, 0, [])
  {
  }

  lemma LateIsAdded(added: seq<Entry>, work: nat, terms: nat, late: seq<Entry>, t: Entry)
    requires Shaped(added, work, terms, late) && t.action != Terminate
    ensures Shaped(added + [t], work, terms, late + [t])
  {
    assert (added + [t])[work + terms..] == added[work + terms..] + [t];
  }

  lemma AddingKeepsBalance(s: State)
    requires Balanced(s) && s.handler == Off && s.main.Adding? && s.main.t.action != Terminate
    requires s.loop ==> s.late == []
    ensures Balanced(LoopStep(s))
  {
    var s' := LoopStep(s);
    if s.loop {
      WorkIsAdded(s.added, WorkAdded(s), s.main.t);
      assert WorkAdded(s') == WorkAdded(s) + 1;
    } else {
      LateIsAdded(s.added, WorkAdded(s), TermsAdded(s), s.late, s.main.t);
      assert WorkAdded(s') == WorkAdded(s);
    }
  }

  lemma HandlerKeepsAccount(n: nat, s: State)
    requires AccountInv(n, s) && MainEnabled(s) && s.handler != Off && SafeInv(n, MainStep(s))
    ensures AccountInv(n, MainStep(s))
  {
    if s.handler.HandlerAdding? {
      StopIsAdded(s.added, WorkAdded(s), TermsAdded(s));
    } else {
      SumWakeSame(s.workers, EndingOf);
      HandlerChangesNoTokens(n, s);
    }
  }

  lemma StopIsAdded(added: seq<Entry>, work: nat, terms: nat)
    requires Shaped(added, work, terms, [])
    ensures Shaped(added + [STOP], work, terms + 1, [])
  {
  }

  lemma HandlerChangesNoTokens(n: nat, s: State)
    requires SafeInv(n, s) && Balanced(s) && MainEnabled(s) && s.handler != Off && !s.handler.HandlerAdding?
    requires Sum(WakeAll(s.workers), EndingOf) == Sum(s.workers, EndingOf)
    ensures Balanced(MainStep(s))
  {
    var s' := MainStep(s);
    assert WorkAdded(s') == WorkAdded(s) && TermsAdded(s') == TermsAdded(s);
  }

  lemma StepKeepsAccount(n: nat, s: State, a: Action)
    requires AccountInv(n, s) && Enabled(s, a)
    ensures AccountInv(n, Do(s, a))
  {
    StepKeepsSafe(n, s, a);
    match a
    case Arrive(_) =>
    case InterruptAgain =>
    case Interrupt => InterruptKeepsAccount(n, s);
    case MainMoves => MainKeepsAccount(n, s);
    case WorkerMoves(i) => WorkerKeepsAccount(n, s, i);
  }

  lemma InterruptKeepsAccount(n: nat, s: State)
    requires AccountInv(n, s) && Enabled(s, Interrupt) && SafeInv(n, Do(s, Interrupt))
    ensures AccountInv(n, Do(s, Interrupt))
  {
  }

  lemma InitAccount(n: nat, s: State)
    requires Init(n, s)
    ensures AccountInv(n, s)
  {
    SumOfBits(s.workers, EndingOf);
  }

  lemma {:induction false} RunKeepsAccount(n: nat, states: seq<State>, actions: seq<Action>, i: nat)
    requires IsRun(n, states, actions) && i < |states|
    ensures AccountInv(n, states[i])
  {
    if i == 0 {
      InitAccount(n, states[0]);
    } else {
      RunKeepsAccount(n, states, actions, i - 1);
      assert Leads(states[i - 1], actions[i - 1], states[i - 1 + 1]);
      StepKeepsAccount(n, states[i - 1], actions[i - 1]);
    }
  }

  // ---- The connection queue ----

  /**
   In every run: a worker sleeps only on an empty list, whenever the mutex is free; `removeHead`
   never returns NULL; and tokens leave in the order they were added, each to exactly one worker.
   */
  lemma QueueIsSafe(n: nat, states: seq<State>, actions: seq<Action>, i: nat)
    requires IsRun(n, states, actions) && i < |states|
    ensures var s := states[i];
      && (forall j :: 0 <= j < |s.workers| && s.workers[j] == Asleep && s.owner == Nobody ==> s.queue == [])
      && (forall j :: 0 <= j < |s.workers| ==> s.workers[j] != Faulted)
      && Tokens(s.taken) + s.queue + s.dropped == s.added
  {
    RunKeepsAccount(n, states, actions, i);
  }

  // ---- Shutdown ----

  /** TERMINATE tokens are conserved: every one added is queued, in hand, or turned into an exited worker. */
  lemma TokensConserved(n: nat, states: seq<State>, actions: seq<Action>, i: nat)
    requires IsRun(n, states, actions) && i < |states|
    ensures var s := states[i];
      Terms(s.queue) + Sum(s.workers, HandOf) + Sum(s.workers, GoneOf) == Terms(s.added)
  {
    RunKeepsAccount(n, states, actions, i);
    var s := states[i];
    EndingIsHandOrGone(s.workers);
    TermsAppend(Tokens(s.taken) + s.queue, s.dropped);
    TermsAppend(Tokens(s.taken), s.queue);
    if s.main == Finished {
      TakenExactly(n, s);
      TermsOfUniform(s.dropped, false);
    }
  }

  /** Once everyone is gone, the tokens taken are the work and the TERMINATEs, and what came late is left. */
  lemma TakenExactly(n: nat, s: State)
    requires AccountInv(n, s) && s.main == Finished
    ensures |s.taken| == WorkAdded(s) + n && TermsAdded(s) == n && Sum(s.workers, GoneOf) == n && s.dropped == s.late
  {
    SumOfBits(s.workers, EndingOf);
    SumOfBits(s.workers, GoneOf);
    var k := |s.taken|;
    assert Tokens(s.taken) == s.added[..k];
    TermsOfPrefix(s.added, WorkAdded(s), TermsAdded(s), s.late, k);
    assert s.added == Tokens(s.taken) + s.dropped;
    assert s.dropped == s.added[k..];
  }

  /**
   A finished run has seen every worker exit, and all the work was taken, in order, before any
   TERMINATE; what is left in the list is what the main thread added after the interrupt. That is
   nothing if the interrupt was taken in accept or before the test of LOOP; the connection in hand if
   it was taken before the lock; and, if it was taken before an accept that waits, one connection, unless
   it was a second interrupt that ended the wait.
   */
  lemma ShutdownOutcome(n: nat, states: seq<State>, actions: seq<Action>, i: nat)
    requires IsRun(n, states, actions) && i < |states| && states[i].main == Finished
    ensures var s := states[i];
      && |s.workers| == n && (forall j :: 0 <= j < n ==> s.workers[j] == Exited)
      && s.dropped == s.late && Tokens(s.taken) + s.late == s.added
      && var work := |s.taken| - n;
      && 0 <= work
      && (forall j :: 0 <= j < work ==> s.taken[j].1.action != Terminate)
      && (forall j :: work <= j < work + n ==> s.taken[j].1.action == Terminate)
      && LateShape(s.nonblocking, s.late)
      && match s.cut
         case BeforeTest | InAccept => s.late == []
         case BeforeLock(t) =>
           && s.late != [] && s.late[0] == t
           && (!s.nonblocking || t.action == Process ==> s.late == [t])
         case BeforeAccept =>
           && (forall j :: 0 <= j < |s.late| ==> s.late[j].action == Process)
           && (!s.nonblocking ==> |s.late| == if s.again then 0 else 1)
         case BeforePoll => s.nonblocking
         case _ => false
  {
    RunKeepsAccount(n, states, actions, i);
    var s := states[i];
    TakenExactly(n, s);
    assert forall j :: 0 <= j < |s.taken| ==> s.taken[j].1 == Tokens(s.taken)[j] == s.added[j];
    LateByCut(n, s);
  }

  /** What is added after the interrupt, by where it was taken. */
  lemma LateByCut(n: nat, s: State)
    requires SafeInv(n, s) && s.main == Finished
    ensures LateShape(s.nonblocking, s.late)
    ensures match s.cut
      case BeforeTest | InAccept => s.late == []
      case BeforeLock(t) =>
        && s.late != [] && s.late[0] == t
        && (!s.nonblocking || t.action == Process ==> s.late == [t])
      case BeforeAccept =>
        && (forall j :: 0 <= j < |s.late| ==> s.late[j].action == Process)
        && (!s.nonblocking ==> |s.late| == if s.again then 0 else 1)
      case BeforePoll => s.nonblocking
      case _ => false
  {
    assert AfterCut(s) && Coming(s) == s.late;
  }

  // ---- The shutdown ends ----

  function Turn(pc: WorkerPc): nat {
    match pc
    case Removing => 1
    case Checking => 2
    case Wanting => 3
    case Woken => 3
    case Acting(_) => 4
    case Unlocking(_) => 5
    case _ => 0
  }

  /** What one round of the handler can cost. */
  function RoundCost(n: nat): nat {
    3 * n + 20
  }

  function Rounds(n: nat, rounds: nat): nat {
    if rounds == 0 then 0 else RoundCost(n) + Rounds(n, rounds - 1)
  }

  function Left(n: nat, k: nat): nat {
    if k <= n then n - k else 0
  }

  function HandlerTurn(n: nat, handler: HandlerPc): nat {
    match handler
    case HandlerLocking(k) => Rounds(n, Left(n, k)) + 3
    case HandlerAdding(k) => Rounds(n, Left(n, k)) + 2
    case HandlerBroadcasting(k) => Rounds(n, Left(n, k + 1)) + 3 * n + 10
    case HandlerReleasing(k) => Rounds(n, Left(n, k + 1)) + 9
    case Off => 0
  }

  function MainTurn(n: nat, main: MainPc): nat {
    match main
    case Polling => 8 * n + 40
    case Locking(t) => if t.action == Shared then 8 * n + 39 else 4 * n + 16
    case Adding(t) => if t.action == Shared then 8 * n + 38 else 4 * n + 15
    case Broadcasting(t) => if t.action == Shared then 8 * n + 27 else 4 * n + 4
    case Releasing(t) => if t.action == Shared then 4 * n + 19 else n + 3
    case Entering => 4 * n + 18
    case Accepting => 4 * n + 17
    case Looping => n + 2
    case Joining(k) => Left(n, k) + 1
    case Finished => 0
  }

  /** A bound on the steps that are left once the interrupt has been taken. */
  function StepsLeft(n: nat, s: State): nat {
    10 * |s.queue| + Sum(s.workers, Turn) + HandlerTurn(n, s.handler) + MainTurn(n, s.main)
  }

  lemma WorkerStepsDown(n: nat, s: State, i: nat)
    requires SafeInv(n, s) && WorkerEnabled(s, i)
    ensures StepsLeft(n, WorkerStep(s, i)) < StepsLeft(n, s)
  {
    SumUpdate(s.workers, Turn, i, MovedTo(s, i));
    TurnGoesDown(s, i);
  }

  lemma TurnGoesDown(s: State, i: nat)
    requires WorkerEnabled(s, i) && (s.workers[i] == Removing ==> s.queue != [])
    ensures var s' := WorkerStep(s, i);
      && s'.workers == s.workers[i := MovedTo(s, i)] && s'.handler == s.handler && s'.main == s.main
      && 10 * |s'.queue| + Turn(MovedTo(s, i)) < 10 * |s.queue| + Turn(s.workers[i])
  {
  }

  lemma {:induction false} WakingCosts(workers: seq<WorkerPc>)
    ensures Sum(WakeAll(workers), Turn) <= Sum(workers, Turn) + 3 * |workers|
  {
    if workers != [] {
      WakingCosts(workers[1..]);
      assert WakeAll(workers)[1..] == WakeAll(workers[1..]);
    }
  }

  lemma HandlerStepsDown(n: nat, s: State)
    requires SafeInv(n, s) && MainEnabled(s) && s.handler != Off
    ensures StepsLeft(n, MainStep(s)) < StepsLeft(n, s)
  {
    match s.handler
    case HandlerLocking(_) => HandlerLockingStepsDown(n, s);
    case HandlerAdding(_) => HandlerAddingStepsDown(n, s);
    case HandlerBroadcasting(_) => HandlerBroadcastingStepsDown(n, s);
    case HandlerReleasing(_) => HandlerReleasingStepsDown(n, s);
  }

  lemma HandlerLockingStepsDown(n: nat, s: State)
    requires MainEnabled(s) && s.handler.HandlerLocking?
    ensures StepsLeft(n, MainStep(s)) < StepsLeft(n, s)
  {
  }

  lemma HandlerBroadcastingStepsDown(n: nat, s: State)
    requires |s.workers| == n && s.handler.HandlerBroadcasting?
    ensures StepsLeft(n, MainStep(s)) < StepsLeft(n, s)
  {
    WakingCosts(s.workers);
  }

  lemma HandlerReleasingStepsDown(n: nat, s: State)
    requires |s.workers| == n && s.handler.HandlerReleasing?
    ensures StepsLeft(n, MainStep(s)) < StepsLeft(n, s)
  {
    var k := s.handler.k;
    assert k + 1 < n || HandlerTurn(n, MainStep(s).handler) == 0;
  }

  lemma HandlerAddingStepsDown(n: nat, s: State)
    requires s.handler.HandlerAdding? && s.handler.k < n
    ensures StepsLeft(n, MainStep(s)) < StepsLeft(n, s)
  {
    var k := s.handler.k;
    assert Left(n, k) == Left(n, k + 1) + 1;
    assert Rounds(n, Left(n, k)) == RoundCost(n) + Rounds(n, Left(n, k + 1));
  }

  lemma MainStepsDown(n: nat, s: State)
    requires SafeInv(n, s) && MainEnabled(s) && !s.loop
    ensures StepsLeft(n, MainStep(s)) < StepsLeft(n, s)
  {
    if s.handler != Off {
      HandlerStepsDown(n, s);
    } else if s.main.Broadcasting? {
      WakingCosts(s.workers);
    } else if s.main.Joining? {
      JoiningStepsDown(n, s);
    } else {
      LoopStepsDown(n, s);
    }
  }

  lemma JoiningStepsDown(n: nat, s: State)
    requires |s.workers| == n && MainEnabled(s) && s.handler == Off && s.main.Joining? && s.main.k <= n
    ensures StepsLeft(n, LoopStep(s)) < StepsLeft(n, s)
  {
  }

  lemma LoopStepsDown(n: nat, s: State)
    requires |s.workers| == n && MainEnabled(s) && s.handler == Off && !s.loop
    requires !s.main.Broadcasting? && !s.main.Joining?
    ensures StepsLeft(n, LoopStep(s)) < StepsLeft(n, s)
  {
  }

  /** The handler waits for a mutex that its own thread holds. */
  predicate SelfDeadlocked(s: State) {
    s.cut == HoldingMutex
  }

  /**
   The interrupt came between the test of LOOP and an accept that waits, and neither a connection nor a
   second interrupt has come since: nothing makes the main thread test LOOP again.
   */
  predicate Unheard(s: State) {
    s.cut == BeforeAccept && !s.nonblocking && s.late == [] && !s.again
  }

  /** The main thread waits in accept for a connection. */
  predicate Hanging(s: State) {
    s.main == Accepting && s.handler == Off && !AcceptFails(s)
  }

  /** The worker handles a connection or a request. When that ends is up to the peers. */
  predicate Serves(pc: WorkerPc) {
    pc.Acting? && pc.c.action != Terminate
  }

  ghost predicate Serving(s: State) {
    exists i :: 0 <= i < |s.workers| && Serves(s.workers[i])
  }

  /** What the pool does by itself: no connection, no signal, and no end of a worker's handling. */
  predicate CanMove(s: State, a: Action) {
    && Enabled(s, a)
    && match a
       case MainMoves => true
       case WorkerMoves(i) => !Serves(s.workers[i])
       case _ => false
  }

  /**
   After the interrupt, the pool moves by itself until it is finished, unless the handler deadlocked, the
   main thread waits in accept, or a worker is handling a connection or a request.
   */
  lemma ShutdownNeverStuck(n: nat, s: State)
    requires AccountInv(n, s) && !s.loop && !SelfDeadlocked(s) && !Hanging(s) && !Serving(s) && s.main != Finished
    ensures exists a :: CanMove(s, a)
  {
    if MainEnabled(s) {
      assert CanMove(s, MainMoves);
    } else if s.owner != Nobody {
      HolderCanMove(n, s);
    } else {
      assert s.main.Joining? && s.main.k < n && s.workers[s.main.k] != Exited;
      NoSleeperAtTheEnd(n, s, s.main.k);
      assert CanMove(s, WorkerMoves(s.main.k));
    }
  }

  /** Whoever holds the mutex can move, if it is not a deadlocked main thread. */
  lemma HolderCanMove(n: nat, s: State)
    requires SafeInv(n, s) && s.owner != Nobody && !MainEnabled(s) && !SelfDeadlocked(s)
    ensures s.owner.Worker? && CanMove(s, WorkerMoves(s.owner.id))
  {
  }

  /** Once all TERMINATE tokens are added, a sleeper would mean an empty list, and so a TERMINATE in every hand. */
  lemma NoSleeperAtTheEnd(n: nat, s: State, i: nat)
    requires AccountInv(n, s) && !s.loop && s.handler == Off && s.main != Finished && s.owner == Nobody && i < n
    ensures s.workers[i] != Asleep
  {
    if s.workers[i] == Asleep {
      assert s.added == Tokens(s.taken) && s.added[..|s.added|] == s.added;
      TermsOfPrefix(s.added, WorkAdded(s), TermsAdded(s), s.late, |s.added|);
      NotAllEnding(s.workers, i);
    }
  }

  /** After the interrupt there are at most `StepsLeft` steps, arrivals included. */
  lemma {:induction false} ShutdownIsShort(n: nat, states: seq<State>, actions: seq<Action>, i: nat)
    requires IsRun(n, states, actions) && i < |states| && !states[i].loop
    ensures |actions| - i + StepsLeft(n, states[|actions|]) <= StepsLeft(n, states[i]) && !states[|actions|].loop
    decreases |actions| - i
  {
    if i < |actions| {
      RunKeepsAccount(n, states, actions, i);
      assert Leads(states[i], actions[i], states[i + 1]);
      StepsDown(n, states[i], actions[i]);
      ShutdownIsShort(n, states, actions, i + 1);
    }
  }

  lemma StepsDown(n: nat, s: State, a: Action)
    requires SafeInv(n, s) && !s.loop && Enabled(s, a)
    ensures StepsLeft(n, Do(s, a)) < StepsLeft(n, s) && !Do(s, a).loop
  {
    match a
    case MainMoves => MainStepsDown(n, s);
    case WorkerMoves(j) => WorkerStepsDown(n, s, j);
    case _ =>
  }

  /**
   A run that has been interrupted, and in which the pool cannot move by itself any more, is finished if
   and only if the interrupt was taken neither while the main thread held the list's mutex nor, with no
   connection and no second interrupt since, between the test of LOOP and an accept that waits, and no
   worker is handling a connection or a request.
   */
  lemma ShutdownCompletes(n: nat, states: seq<State>, actions: seq<Action>)
    requires IsRun(n, states, actions) && !states[|actions|].loop
    requires forall a :: !CanMove(states[|actions|], a)
    ensures var s := states[|actions|]; s.main == Finished <==> !SelfDeadlocked(s) && !Unheard(s) && !Serving(s)
  {
    RunKeepsAccount(n, states, actions, |actions|);
    var s := states[|actions|];
    if s.main == Finished {
      FinishedIsQuiet(n, s);
    } else if !SelfDeadlocked(s) && !Unheard(s) && !Serving(s) {
      HangingIsUnheard(n, s);
      ShutdownNeverStuck(n, s);
    }
  }

  lemma FinishedIsQuiet(n: nat, s: State)
    requires SafeInv(n, s) && s.main == Finished
    ensures !SelfDeadlocked(s) && !Unheard(s) && !Serving(s)
  {
    assert AfterCut(s);
  }

  /** After the interrupt, the main thread waits in accept only when it has not heard of the interrupt. */
  lemma HangingIsUnheard(n: nat, s: State)
    requires SafeInv(n, s) && !s.loop
    ensures Hanging(s) ==> Unheard(s)
  {
  }

  // ---- The three ways not to finish ----

  /** A handler that has deadlocked with its own thread stays so, and no worker gets the mutex again. */
  lemma SelfDeadlockIsForEver(n: nat, s: State, a: Action)
    requires SafeInv(n, s) && SelfDeadlocked(s) && Enabled(s, a)
    ensures SelfDeadlocked(Do(s, a)) && Do(s, a).owner == s.owner == Main && !MainEnabled(s) && s.main != Finished
  {
  }

  lemma OneMore(n: nat, states: seq<State>, actions: seq<Action>, a: Action)
    requires IsRun(n, states, actions) && Enabled(states[|actions|], a)
    ensures IsRun(n, states + [Do(states[|actions|], a)], actions + [a])
  {
    var states', actions' := states + [Do(states[|actions|], a)], actions + [a];
    forall i | 0 <= i < |actions'|
      ensures Leads(states'[i], actions'[i], states'[i + 1])
    {
      if i < |actions| {
        assert Leads(states[i], actions[i], states[i + 1]);
      }
    }
  }

  lemma Begin(n: nat) returns (states: seq<State>, actions: seq<Action>)
    requires n > 0
    ensures IsRun(n, states, actions) && states[|actions|] == Started(n)
  {
    states, actions := [Started(n)], [];
  }

  function Started(n: nat): State {
    State(false, [], Nobody, seq(n, _ => Wanting), Looping, Off, true, Never, false, [], [], [], [])
  }

  lemma Then(n: nat, states: seq<State>, actions: seq<Action>, a: Action)
    returns (states': seq<State>, actions': seq<Action>)
    requires IsRun(n, states, actions) && Enabled(states[|actions|], a)
    ensures IsRun(n, states', actions') && states'[|actions'|] == Do(states[|actions|], a)
  {
    OneMore(n, states, actions, a);
    states', actions' := states + [Do(states[|actions|], a)], actions + [a];
  }

  /** A connection is accepted, and the mutex is taken to add it. */
  lemma Accepted(n: nat, c: Entry) returns (states: seq<State>, actions: seq<Action>)
    requires n > 0 && c.action == Process
    ensures IsRun(n, states, actions) && states[|actions|] == Started(n).(owner := Main, main := Adding(c))
  {
    states, actions := Begin(n);
    states, actions := Then(n, states, actions, MainMoves);
    states, actions := Then(n, states, actions, MainMoves);
    states, actions := Then(n, states, actions, Arrive(c));
    states, actions := Then(n, states, actions, MainMoves);
  }

  /** A run with a connection, the mutex taken, and then the interrupt ends in the deadlock. */
  lemma InterruptCanDeadlock(n: nat) returns (states: seq<State>, actions: seq<Action>)
    requires n > 0
    ensures IsRun(n, states, actions) && SelfDeadlocked(states[|actions|])
  {
    states, actions := Accepted(n, Entry(1, Process));
    states, actions := Then(n, states, actions, Interrupt);
  }

  /** The main thread has passed the test of LOOP and has not heard of the interrupt. */
  predicate PastTheTest(s: State) {
    Unheard(s) && !s.loop && (s.main == Entering || s.main == Accepting)
  }

  /** Nothing but a connection or a second interrupt makes it hear of the first. */
  lemma NeverHears(n: nat, s: State, a: Action)
    requires SafeInv(n, s) && PastTheTest(s) && Enabled(s, a)
    ensures PastTheTest(Do(s, a)) <==> !a.Arrive? && a != InterruptAgain
  {
  }

  /** What the pool does by itself keeps `keep`. */
  ghost predicate Lasting(n: nat, keep: State -> bool) {
    forall s, a :: AccountInv(n, s) && keep(s) && CanMove(s, a) ==> keep(Do(s, a))
  }

  /** Every interrupted run can be continued until the pool cannot move by itself any more. */
  lemma {:induction false} RunsOut(n: nat, states: seq<State>, actions: seq<Action>, keep: State -> bool)
    returns (states': seq<State>, actions': seq<Action>)
    requires IsRun(n, states, actions) && !states[|actions|].loop && Lasting(n, keep) && keep(states[|actions|])
    ensures IsRun(n, states', actions') && !states'[|actions'|].loop && keep(states'[|actions'|])
    ensures forall a :: !CanMove(states'[|actions'|], a)
    decreases StepsLeft(n, states[|actions|])
  {
    var s := states[|actions|];
    if a :| CanMove(s, a) {
      RunKeepsAccount(n, states, actions, |actions|);
      StepsDown(n, s, a);
      states', actions' := Then(n, states, actions, a);
      states', actions' := RunsOut(n, states', actions', keep);
    } else {
      states', actions' := states, actions;
    }
  }

  /**
   A run with the interrupt just before accept: all workers are gone, the list is empty, and the main
   thread waits in accept. Only a connection or a second interrupt can happen.
   */
  lemma InterruptCanHang(n: nat) returns (states: seq<State>, actions: seq<Action>)
    requires n > 0
    ensures IsRun(n, states, actions) && (forall a :: !CanMove(states[|actions|], a))
    ensures var s := states[|actions|];
      Hanging(s) && !s.loop && s.queue == [] && forall i :: 0 <= i < |s.workers| ==> s.workers[i] == Exited
  {
    states, actions := Begin(n);
    states, actions := Then(n, states, actions, MainMoves);
    states, actions := Then(n, states, actions, Interrupt);
    forall s, a | AccountInv(n, s) && DeafAndIdle(s) && CanMove(s, a)
      ensures DeafAndIdle(Do(s, a))
    {
      StaysDeafAndIdle(n, s, a);
    }
    states, actions := RunsOut(n, states, actions, DeafAndIdle);
    RunKeepsAccount(n, states, actions, |actions|);
    HangsAtTheEnd(n, states[|actions|]);
  }

  predicate IsWorkInHand(pc: WorkerPc) {
    (pc.Unlocking? || pc.Acting?) && pc.c.action != Terminate
  }

  /** No work is in the list, or in the hands of the workers from `first` on. */
  predicate NoWork(s: State, first: nat) {
    && (forall i :: first <= i < |s.workers| ==> !IsWorkInHand(s.workers[i]))
    && forall i :: 0 <= i < |s.queue| ==> s.queue[i].action == Terminate
  }

  /** The main thread has not heard of the interrupt, and there is no work left. */
  predicate DeafAndIdle(s: State) {
    PastTheTest(s) && NoWork(s, 0)
  }

  lemma StaysDeafAndIdle(n: nat, s: State, a: Action)
    requires SafeInv(n, s) && DeafAndIdle(s) && CanMove(s, a)
    ensures DeafAndIdle(Do(s, a))
  {
    NeverHears(n, s, a);
  }

  lemma HangsAtTheEnd(n: nat, s: State)
    requires AccountInv(n, s) && DeafAndIdle(s) && forall a :: !CanMove(s, a)
    ensures Hanging(s) && s.queue == [] && forall i :: 0 <= i < |s.workers| ==> s.workers[i] == Exited
  {
    assert !CanMove(s, MainMoves);
    if s.owner != Nobody {
      HolderCanMove(n, s);
    }
    assert s.handler == Off;
    forall i | 0 <= i < n
      ensures s.workers[i] == Exited
    {
      NoSleeperAtTheEnd(n, s, i);
      assert !CanMove(s, WorkerMoves(i));
    }
    AllTaken(n, s);
  }

  /** When all workers have exited, they have taken all that was added before the interrupt ended. */
  lemma AllTaken(n: nat, s: State)
    requires AccountInv(n, s) && !s.loop && s.handler == Off && s.late == [] && s.dropped == []
    requires forall i :: 0 <= i < n ==> s.workers[i] == Exited
    ensures s.queue == []
  {
    SumOfBits(s.workers, EndingOf);
    var k := |s.taken|;
    assert Tokens(s.taken) == s.added[..k];
    TermsOfPrefix(s.added, WorkAdded(s), TermsAdded(s), s.late, k);
  }

  // ---- A worker that is kept busy ----

  /** Worker 0 handles the only connection, and the interrupt was taken at the test of LOOP. */
  predicate HeldUp(s: State) {
    !s.loop && s.cut == BeforeTest && s.workers != [] && Serves(s.workers[0]) && NoWork(s, 1)
  }

  lemma StaysHeldUp(n: nat, s: State, a: Action)
    requires SafeInv(n, s) && HeldUp(s) && CanMove(s, a)
    ensures HeldUp(Do(s, a))
  {
    match a
    case MainMoves => MainStaysHeldUp(n, s);
    case WorkerMoves(i) => WorkerStaysHeldUp(s, i);
  }

  lemma MainStaysHeldUp(n: nat, s: State)
    requires SafeInv(n, s) && HeldUp(s) && MainEnabled(s)
    ensures HeldUp(MainStep(s))
  {
  }

  lemma WorkerStaysHeldUp(s: State, i: nat)
    requires HeldUp(s) && WorkerEnabled(s, i) && !Serves(s.workers[i])
    ensures HeldUp(WorkerStep(s, i))
  {
  }

  lemma Added(n: nat, c: Entry) returns (states: seq<State>, actions: seq<Action>)
    requires n > 0 && c.action == Process
    ensures IsRun(n, states, actions) && states[|actions|] == Started(n).(queue := [c], added := [c])
  {
    states, actions := Accepted(n, c);
    states, actions := Then(n, states, actions, MainMoves);
    states, actions := Then(n, states, actions, MainMoves);
    assert WakeAll(Started(n).workers) == Started(n).workers;
    states, actions := Then(n, states, actions, MainMoves);
  }

  lemma Served(n: nat, c: Entry) returns (states: seq<State>, actions: seq<Action>)
    requires n > 0 && c.action == Process
    ensures IsRun(n, states, actions) && states[|actions|].main == Looping && states[|actions|].handler == Off
    ensures states[|actions|].loop && states[|actions|].workers == Started(n).workers[0 := Acting(c)]
    ensures states[|actions|].queue == []
  {
    states, actions := Added(n, c);
    states, actions := Then(n, states, actions, WorkerMoves(0));
    states, actions := Then(n, states, actions, WorkerMoves(0));
    states, actions := Then(n, states, actions, WorkerMoves(0));
    states, actions := Then(n, states, actions, WorkerMoves(0));
  }

  /**
   A run with one connection whose handling does not end (its peer sends nothing, say): the handler has
   not deadlocked and the interrupt was heard, the other workers are gone, and the main thread waits
   for worker 0 in pthread_join.
   */
  lemma ClientCanHoldUp(n: nat) returns (states: seq<State>, actions: seq<Action>)
    requires n > 0
    ensures IsRun(n, states, actions) && (forall a :: !CanMove(states[|actions|], a))
    ensures var s := states[|actions|];
      && !s.loop && !SelfDeadlocked(s) && !Unheard(s)
      && s.main == Joining(0) && |s.workers| == n && Serves(s.workers[0])
      && forall i :: 0 < i < n ==> s.workers[i] == Exited
  {
    states, actions := Served(n, Entry(1, Process));
    states, actions := Then(n, states, actions, Interrupt);
    forall s, a | AccountInv(n, s) && HeldUp(s) && CanMove(s, a)
      ensures HeldUp(Do(s, a))
    {
      StaysHeldUp(n, s, a);
    }
    states, actions := RunsOut(n, states, actions, HeldUp);
    RunKeepsAccount(n, states, actions, |actions|);
    WaitsAtTheEnd(n, states[|actions|]);
  }

  lemma WaitsAtTheEnd(n: nat, s: State)
    requires AccountInv(n, s) && HeldUp(s) && forall a :: !CanMove(s, a)
    ensures s.main == Joining(0) && forall i :: 0 < i < n ==> s.workers[i] == Exited
  {
    assert !CanMove(s, MainMoves);
    if s.owner != Nobody {
      HolderCanMove(n, s);
    }
    assert s.handler == Off;
    forall i | 0 < i < n
      ensures s.workers[i] == Exited
    {
      NoSleeperAtTheEnd(n, s, i);
      assert !CanMove(s, WorkerMoves(i));
    }
  }
}
