/**
 What can happen in the pool: a connection and an interrupt can come whenever the code waits for them,
 and every sequence of work can be handled, each token by any worker, and the pool then shut down.
 */
module PoolRuns {
  import opened ConnectionList
  import opened WorkerPool
  import PoolShutdown
  import PoolWork

  // ---- What can come, and when ----

  /** An accept that has not been interrupted can return any connection; it is the one that is added next. */
  lemma ConnectionCanCome(n: nat, s: State, t: Entry)
    requires SafeInv(n, s) && s.main == Accepting && s.handler == Off && s.cut != InAccept && t.action == Process
    ensures exists s' :: Leads(s, Arrive(t), s') && s'.main == Locking(t)
  {
    var s' := Do(s, Arrive(t));
    assert Leads(s, Arrive(t), s') && s'.main == Locking(t);
  }

  /** The poll can find a request in shared memory. */
  lemma RequestCanCome(n: nat, s: State)
    requires SafeInv(n, s) && s.main == Polling && s.handler == Off
    ensures exists s' :: Leads(s, Arrive(Entry(0, Shared)), s') && s'.main == Locking(Entry(0, Shared))
  {
    var s' := Do(s, Arrive(Entry(0, Shared)));
    assert Leads(s, Arrive(Entry(0, Shared)), s') && s'.main == Locking(Entry(0, Shared));
  }

  /** The first interrupt can come at any time, wherever the main thread and the workers are. */
  lemma InterruptCanCome(n: nat, s: State)
    requires SafeInv(n, s) && s.loop
    ensures exists s' :: Leads(s, Interrupt, s') && !s'.loop && s'.handler == HandlerLocking(0) && s'.main == s.main
  {
    var s' := Do(s, Interrupt);
    assert Leads(s, Interrupt, s') && s'.main == s.main;
  }

  /** A later one can come while the main thread waits in accept, and ends the wait. */
  lemma SecondInterruptCanCome(n: nat, s: State)
    requires SafeInv(n, s) && !s.loop && s.main == Accepting && s.handler == Off
    ensures exists s' :: Leads(s, InterruptAgain, s') && s'.main == Joining(0)
  {
    var s' := Do(s, InterruptAgain);
    assert Leads(s, InterruptAgain, s') && s'.main == Joining(0);
  }

  // ---- Runs, by their last state ----

  ghost predicate Reached(n: nat, s: State) {
    exists states, actions :: EndsIn(n, states, actions, s)
  }

  ghost predicate EndsIn(n: nat, states: seq<State>, actions: seq<Action>, s: State) {
    IsRun(n, states, actions) && states[|actions|] == s
  }

  lemma Then(n: nat, s: State, a: Action) returns (s': State)
    requires Reached(n, s) && Enabled(s, a)
    ensures s' == Do(s, a) && Reached(n, s')
  {
    var states, actions :| EndsIn(n, states, actions, s);
    s' := Do(s, a);
    PoolShutdown.OneMore(n, states, actions, a);
    assert EndsIn(n, states + [s'], actions + [a], s');
  }

  // ---- One round: work comes, and a worker handles it ----

  function AllWanting(n: nat): (workers: seq<WorkerPc>)
    ensures |workers| == n
  {
    seq(n, _ => Wanting)
  }

  /** The pool waits for work; these tokens have been taken and handled, by these workers. */
  function Waiting(n: nat, nonblocking: bool, taken: seq<(nat, Entry)>): State {
    State(nonblocking, [], Nobody, AllWanting(n), Looping, Off, true, Never, false, Tokens(taken), [], taken, [])
  }

  /** What can come in a pool of this kind. */
  predicate CanCome(nonblocking: bool, t: Entry) {
    t.action == Process || (nonblocking && t == Entry(0, Shared))
  }

  lemma WorkComes(n: nat, s: State, t: Entry) returns (end: State)
    requires Reached(n, s) && s.main == Looping && s.handler == Off && s.loop && s.cut == Never
    requires CanCome(s.nonblocking, t)
    ensures Reached(n, end) && end == s.(main := Locking(t))
  {
    end := Then(n, s, MainMoves);
    if t.action == Process {
      if s.nonblocking {
        end := Then(n, end, MainMoves);
      }
      end := Then(n, end, MainMoves);
    }
    end := Then(n, end, Arrive(t));
  }

  lemma WorkIsAdded(n: nat, s: State, t: Entry) returns (end: State)
    requires Reached(n, s) && s.main == Locking(t) && s.handler == Off && s.loop && s.owner == Nobody
    requires WakeAll(s.workers) == s.workers
    ensures Reached(n, end)
    ensures end == s.(queue := s.queue + [t], added := s.added + [t],
                      main := if t.action == Shared then Entering else Looping)
  {
    end := Then(n, s, MainMoves);
    end := Then(n, end, MainMoves);
    end := Then(n, end, MainMoves);
    end := Then(n, end, MainMoves);
  }

  /** After a request in shared memory, the main thread looks for a connection before it loops. */
  lemma LooksForConnection(n: nat, s: State) returns (end: State)
    requires Reached(n, s) && s.main == Entering && s.handler == Off && s.loop && s.nonblocking
    ensures Reached(n, end) && end == s.(main := Looping)
  {
    end := Then(n, s, MainMoves);
    end := Then(n, end, MainMoves);
  }

  lemma WorkIsTaken(n: nat, s: State, i: nat, t: Entry) returns (end: State)
    requires Reached(n, s) && i < |s.workers| && s.workers[i] == Wanting && s.owner == Nobody && s.queue == [t]
    ensures Reached(n, end)
    ensures end == s.(queue := [], taken := s.taken + [(i, t)], workers := s.workers[i := Acting(t)])
  {
    end := Then(n, s, WorkerMoves(i));
    end := Then(n, end, WorkerMoves(i));
    end := Then(n, end, WorkerMoves(i));
    end := Then(n, end, WorkerMoves(i));
  }

  lemma WorkIsQueued(n: nat, s: State, t: Entry) returns (end: State)
    requires Reached(n, s) && s.main == Looping && s.handler == Off && s.loop && s.cut == Never && s.owner == Nobody
    requires CanCome(s.nonblocking, t) && WakeAll(s.workers) == s.workers
    ensures Reached(n, end) && end == s.(queue := s.queue + [t], added := s.added + [t])
  {
    end := WorkComes(n, s, t);
    end := WorkIsAdded(n, end, t);
    if t.action == Shared {
      end := LooksForConnection(n, end);
    }
  }

  lemma WorkIsHandled(n: nat, s: State, i: nat, t: Entry) returns (end: State)
    requires Reached(n, s) && i < |s.workers| && s.workers[i] == Wanting && s.owner == Nobody && s.queue == [t]
    requires t.action != Terminate
    ensures Reached(n, end) && end == s.(queue := [], taken := s.taken + [(i, t)])
  {
    end := WorkIsTaken(n, s, i, t);
    end := Then(n, end, WorkerMoves(i));
    assert end.workers == s.workers;
  }

  lemma Round(n: nat, nonblocking: bool, taken: seq<(nat, Entry)>, i: nat, t: Entry)
    requires i < n && Reached(n, Waiting(n, nonblocking, taken)) && CanCome(nonblocking, t)
    ensures Reached(n, Waiting(n, nonblocking, taken + [(i, t)]))
  {
    var s := Waiting(n, nonblocking, taken);
    assert WakeAll(s.workers) == s.workers;
    s := WorkIsQueued(n, s, t);
    s := WorkIsHandled(n, s, i, t);
    assert Tokens(taken + [(i, t)]) == Tokens(taken) + [t];
  }

  // ---- Any work, any worker ----

  /** Token `k` goes to worker `who[k]`. */
  function Assigned(who: seq<nat>, work: seq<Entry>): (taken: seq<(nat, Entry)>)
    requires |who| == |work|
    ensures |taken| == |work|
  {
    seq(|work|, k requires 0 <= k < |work| => (who[k], work[k]))
  }

  predicate Assignable(n: nat, nonblocking: bool, who: seq<nat>, work: seq<Entry>) {
    && |who| == |work| && (forall k :: 0 <= k < |who| ==> who[k] < n)
    && forall k :: 0 <= k < |work| ==> CanCome(nonblocking, work[k])
  }

  lemma {:induction false} WorkHappens(n: nat, nonblocking: bool, who: seq<nat>, work: seq<Entry>)
    requires n > 0 && Assignable(n, nonblocking, who, work)
    ensures Reached(n, Waiting(n, nonblocking, Assigned(who, work)))
    decreases |work|
  {
    if work == [] {
      assert EndsIn(n, [Waiting(n, nonblocking, [])], [], Waiting(n, nonblocking, []));
    } else {
      var k := |work| - 1;
      WorkHappens(n, nonblocking, who[..k], work[..k]);
      Round(n, nonblocking, Assigned(who[..k], work[..k]), who[k], work[k]);
      assert Assigned(who[..k], work[..k]) + [(who[k], work[k])] == Assigned(who, work);
    }
  }

  /** The interrupt came at the test of LOOP, and there is nothing left to do. */
  predicate Quiet(s: State) {
    !s.loop && s.cut == BeforeTest && PoolShutdown.NoWork(s, 0)
  }

  /** The same, and this work has been taken, in a pool of this kind. */
  ghost predicate Closing(s: State, nonblocking: bool, taken: seq<(nat, Entry)>, work: seq<Entry>) {
    && Quiet(s) && s.nonblocking == nonblocking
    && taken <= s.taken && PoolWork.Work(s.added) == work
  }

  lemma NothingArrives(n: nat, s: State)
    requires SafeInv(n, s) && !s.loop && s.cut == BeforeTest
    ensures PoolWork.Arriving(s.main) == []
  {
    assert s.handler == Off ==> AfterCut(s);
  }

  lemma StaysClosing(n: nat, s: State, a: Action, nonblocking: bool, taken: seq<(nat, Entry)>,
                     work: seq<Entry>)
    requires SafeInv(n, s) && Closing(s, nonblocking, taken, work) && PoolShutdown.CanMove(s, a)
    ensures Closing(Do(s, a), nonblocking, taken, work)
  {
    StaysQuiet(n, s, a);
    AddsNoWork(n, s, a);
  }

  lemma AddsNoWork(n: nat, s: State, a: Action)
    requires SafeInv(n, s) && !s.loop && s.cut == BeforeTest && PoolShutdown.CanMove(s, a)
    requires !Do(s, a).loop && Do(s, a).cut == BeforeTest
    ensures PoolWork.Work(Do(s, a).added) == PoolWork.Work(s.added)
  {
    StepKeepsSafe(n, s, a);
    NothingArrives(n, s);
    NothingArrives(n, Do(s, a));
    PoolWork.StepQueues(n, s, a);
    SumsWithNothing(PoolWork.Work(s.added), PoolWork.Work(Do(s, a).added));
  }

  lemma SumsWithNothing(a: seq<Entry>, b: seq<Entry>)
    ensures a + [] + [] == b + [] ==> a == b
  {
    assert a + [] == a && b + [] == b;
  }

  lemma StaysQuiet(n: nat, s: State, a: Action)
    requires SafeInv(n, s) && Quiet(s) && PoolShutdown.CanMove(s, a)
    ensures var s' := Do(s, a); Quiet(s') && s.taken <= s'.taken && s'.nonblocking == s.nonblocking
  {
    match a
    case MainMoves => MainStaysQuiet(n, s);
    case WorkerMoves(i) => WorkerStaysQuiet(s, i);
  }

  lemma MainStaysQuiet(n: nat, s: State)
    requires SafeInv(n, s) && Quiet(s) && MainEnabled(s)
    ensures var s' := MainStep(s); Quiet(s') && s'.taken == s.taken && s'.nonblocking == s.nonblocking
  {
    NothingArrives(n, s);
  }

  lemma WorkerStaysQuiet(s: State, i: nat)
    requires Quiet(s) && WorkerEnabled(s, i)
    ensures var s' := WorkerStep(s, i); Quiet(s') && s.taken <= s'.taken && s'.nonblocking == s.nonblocking
  {
    var s' := WorkerStep(s, i);
    assert !PoolShutdown.IsWorkInHand(s.workers[i]);
    if s.workers[i] == Removing && s.queue != [] {
      assert s.queue[0].action == Terminate;
      assert s'.taken[..|s.taken|] == s.taken;
    }
    assert !PoolShutdown.IsWorkInHand(s'.workers[i]);
    forall k | 0 <= k < |s'.workers|
      ensures !PoolShutdown.IsWorkInHand(s'.workers[k])
    {
      assert k != i ==> s'.workers[k] == s.workers[k];
    }
  }

  /** The interrupt comes when this work is done. */
  lemma Closes(n: nat, s: State, taken: seq<(nat, Entry)>, work: seq<Entry>) returns (end: State)
    requires Reached(n, s) && s.main == Looping && s.loop && s.handler == Off && s.workers == AllWanting(n)
    requires s.queue == [] && s.taken == taken && PoolWork.Work(s.added) == work
    ensures Reached(n, end) && Closing(end, s.nonblocking, taken, work)
  {
    end := Then(n, s, Interrupt);
    QuietFromTheStart(end, AllWanting(n));
  }

  lemma QuietFromTheStart(s: State, workers: seq<WorkerPc>)
    requires !s.loop && s.cut == BeforeTest && s.queue == [] && s.workers == workers
    requires forall i :: 0 <= i < |workers| ==> workers[i] == Wanting
    ensures Quiet(s)
  {
  }

  /** Such a run can be continued to its end. */
  lemma RunsOut(n: nat, s: State, nonblocking: bool, taken: seq<(nat, Entry)>, work: seq<Entry>)
    returns (states: seq<State>, actions: seq<Action>)
    requires Reached(n, s) && Closing(s, nonblocking, taken, work)
    ensures IsRun(n, states, actions) && Closing(states[|actions|], nonblocking, taken, work)
    ensures forall a :: !PoolShutdown.CanMove(states[|actions|], a)
  {
    states, actions :| EndsIn(n, states, actions, s);
    forall s, a | PoolShutdown.AccountInv(n, s) && Closing(s, nonblocking, taken, work) && PoolShutdown.CanMove(s, a)
      ensures Closing(Do(s, a), nonblocking, taken, work)
    {
      StaysClosing(n, s, a, nonblocking, taken, work);
    }
    states, actions := PoolShutdown.RunsOut(n, states, actions, s => Closing(s, nonblocking, taken, work));
  }

  lemma QuietFinishes(n: nat, states: seq<State>, actions: seq<Action>)
    requires IsRun(n, states, actions) && Quiet(states[|actions|])
    requires forall a :: !PoolShutdown.CanMove(states[|actions|], a)
    ensures var s := states[|actions|];
      s.main == Finished && s.dropped == [] && PoolWork.Arrivals(actions) == PoolWork.Work(s.added)
  {
    PoolShutdown.ShutdownCompletes(n, states, actions);
    PoolShutdown.ShutdownOutcome(n, states, actions, |actions|);
    PoolWork.ArrivalsAreQueued(n, states, actions);
  }

  /**
   For any number of workers, any work and any choice of workers, some run sees this work arrive and be
   taken in this order, by these workers, and finishes.
   */
  lemma EveryWorkIsDone(n: nat, nonblocking: bool, who: seq<nat>, work: seq<Entry>)
    returns (states: seq<State>, actions: seq<Action>)
    requires n > 0 && Assignable(n, nonblocking, who, work)
    ensures IsRun(n, states, actions) && PoolWork.Arrivals(actions) == work
    ensures var s := states[|actions|];
      s.nonblocking == nonblocking && s.main == Finished && s.dropped == [] && Assigned(who, work) <= s.taken
  {
    var taken := Assigned(who, work);
    assert Tokens(taken) == work;
    AllIsWork(work);
    WorkHappens(n, nonblocking, who, work);
    var s := Closes(n, Waiting(n, nonblocking, taken), taken, work);
    states, actions := RunsOut(n, s, nonblocking, taken, work);
    QuietFinishes(n, states, actions);
  }

  lemma {:induction false} AllIsWork(work: seq<Entry>)
    requires forall k :: 0 <= k < |work| ==> work[k].action != Terminate
    ensures PoolWork.Work(work) == work
  {
    if work != [] {
      var front, t := work[..|work| - 1], work[|work| - 1];
      AllIsWork(front);
      PoolWork.WorkOfOne(front, t);
      assert front + [t] == work;
    }
  }
}
