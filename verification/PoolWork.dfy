/**
 What becomes of the work that arrives: over whole runs, every connection that accept returned and
 every request found in shared memory is queued, taken and handled once, as it came and in order; and
 every sequence of them can come, to any workers, in a pool that is then shut down.
 */
module PoolWork {
  import opened ConnectionList
  import opened CText
  import opened WorkerPool
  import opened PoolShutdown

  // ---- What has arrived ----

  /** What accept and the poll have yielded, in order. */
  function Arrivals(actions: seq<Action>): seq<Entry> {
    if actions == [] then []
    else
      var a := actions[|actions| - 1];
      Arrivals(actions[..|actions| - 1]) + if a.Arrive? then [a.t] else []
  }

  /** The tokens that are no TERMINATE. */
  function Work(ts: seq<Entry>): seq<Entry> {
    if ts == [] then []
    else
      var t := ts[|ts| - 1];
      Work(ts[..|ts| - 1]) + if t.action == Terminate then [] else [t]
  }

  /** What has arrived and is not yet in the list. */
  function Arriving(main: MainPc): seq<Entry> {
    match main
    case Locking(t) => [t]
    case Adding(t) => [t]
    case _ => []
  }

  lemma WorkOfOne(ts: seq<Entry>, t: Entry)
    ensures Work(ts + [t]) == Work(ts) + if t.action == Terminate then [] else [t]
  {
    assert (ts + [t])[..|ts|] == ts;
  }

  lemma {:induction false} WorkOfSum(a: seq<Entry>, b: seq<Entry>)
    ensures Work(a + b) == Work(a) + Work(b)
    decreases |b|
  {
    if b == [] {
      assert a + b == a;
    } else {
      var front, t := b[..|b| - 1], b[|b| - 1];
      WorkOfSum(a, front);
      WorkOfOne(front, t);
      WorkOfOne(a + front, t);
      assert front + [t] == b && a + front + [t] == a + b;
    }
  }

  /** What an action brings. */
  function Brought(a: Action): seq<Entry> {
    if a.Arrive? then [a.t] else []
  }

  /** What arrives and is not yet added is carried on by every step. */
  ghost predicate Carries(s: State, s': State, brought: seq<Entry>) {
    Work(s'.added) + Arriving(s'.main) == Work(s.added) + Arriving(s.main) + brought
  }

  lemma StepQueues(n: nat, s: State, a: Action)
    requires SafeInv(n, s) && Enabled(s, a)
    ensures Carries(s, Do(s, a), Brought(a))
  {
    if a == MainMoves && s.handler.HandlerAdding? {
      StopIsNoWork(s);
    } else if a == MainMoves && s.handler == Off && s.main.Adding? {
      AddsWork(n, s);
      AddingQueues(s);
    } else {
      QueuesNothing(s, a);
      CarriesOn(s, Do(s, a), Brought(a));
    }
  }

  lemma CarriesOn(s: State, s': State, brought: seq<Entry>)
    requires s'.added == s.added && Arriving(s'.main) == Arriving(s.main) + brought
    ensures Carries(s, s', brought)
  {
    assert Work(s.added) + (Arriving(s.main) + brought) == Work(s.added) + Arriving(s.main) + brought;
  }

  lemma StopIsNoWork(s: State)
    requires s.handler.HandlerAdding?
    ensures Carries(s, MainStep(s), [])
  {
    WorkOfOne(s.added, STOP);
  }

  lemma AddingQueues(s: State)
    requires s.handler == Off && s.main.Adding? && s.main.t.action != Terminate
    ensures Carries(s, MainStep(s), [])
  {
    WorkOfOne(s.added, s.main.t);
  }

  lemma AddsWork(n: nat, s: State)
    requires SafeInv(n, s) && s.main.Adding?
    ensures s.main.t.action != Terminate
  {
    assert InHand(s.main) == Some(s.main.t);
  }

  lemma QueuesNothing(s: State, a: Action)
    requires Enabled(s, a)
    requires a == MainMoves ==> !s.handler.HandlerAdding? && (s.handler == Off ==> !s.main.Adding?)
    ensures Do(s, a).added == s.added && Arriving(Do(s, a).main) == Arriving(s.main) + Brought(a)
  {
    if a.WorkerMoves? {
      WorkerQueuesNothing(s, a.i);
    }
  }

  lemma WorkerQueuesNothing(s: State, i: nat)
    requires WorkerEnabled(s, i)
    ensures WorkerStep(s, i).added == s.added && WorkerStep(s, i).main == s.main
  {
  }

  lemma PrefixIsRun(n: nat, states: seq<State>, actions: seq<Action>, k: nat)
    requires IsRun(n, states, actions) && k <= |actions|
    ensures IsRun(n, states[..k + 1], actions[..k])
  {
    forall i | 0 <= i < k
      ensures Leads(states[..k + 1][i], actions[..k][i], states[..k + 1][i + 1])
    {
      assert Leads(states[i], actions[i], states[i + 1]);
    }
  }

  /** In every run: the work ever added, and what the main thread is about to add, is what has arrived, in order. */
  lemma {:induction false} ArrivalsAreQueued(n: nat, states: seq<State>, actions: seq<Action>)
    requires IsRun(n, states, actions)
    ensures var s := states[|actions|]; Work(s.added) + Arriving(s.main) == Arrivals(actions)
    decreases |actions|
  {
    if actions != [] {
      var k := |actions| - 1;
      PrefixIsRun(n, states, actions, k);
      ArrivalsAreQueued(n, states[..k + 1], actions[..k]);
      RunKeepsAccount(n, states, actions, k);
      assert Leads(states[k], actions[k], states[k + 1]);
      StepQueues(n, states[k], actions[k]);
    }
  }

  /**
   Work is conserved in every run: what has arrived is, in this order, what workers have taken, what is
   in the list (or was, at its end), and what the main thread is about to add.
   */
  lemma WorkIsConserved(n: nat, states: seq<State>, actions: seq<Action>)
    requires IsRun(n, states, actions)
    ensures var s := states[|actions|];
      Work(Tokens(s.taken)) + Work(s.queue) + Work(s.dropped) + Arriving(s.main) == Arrivals(actions)
  {
    var s := states[|actions|];
    ArrivalsAreQueued(n, states, actions);
    RunKeepsAccount(n, states, actions, |actions|);
    WorkOfSum(Tokens(s.taken) + s.queue, s.dropped);
    WorkOfSum(Tokens(s.taken), s.queue);
  }

  // ---- What a worker does with what it took ----

  /** The tokens that worker `i` has taken. */
  function TakenBy(taken: seq<(nat, Entry)>, i: nat): seq<Entry> {
    if taken == [] then []
    else
      var (j, c) := taken[|taken| - 1];
      TakenBy(taken[..|taken| - 1], i) + if j == i then [c] else []
  }

  /** The tokens whose handling worker `i` has finished; the TERMINATE that ends it is one of them. */
  function HandledBy(states: seq<State>, actions: seq<Action>, i: nat): seq<Entry>
    requires |actions| < |states|
  {
    if actions == [] then []
    else
      var k := |actions| - 1;
      HandledBy(states[..k + 1], actions[..k], i) + Handled(states[k], actions[k], i)
  }

  function Handled(s: State, a: Action, i: nat): seq<Entry> {
    if a == WorkerMoves(i) && i < |s.workers| && s.workers[i].Acting? then [s.workers[i].c] else []
  }

  function InHands(pc: WorkerPc): seq<Entry> {
    match pc
    case Unlocking(c) => [c]
    case Acting(c) => [c]
    case _ => []
  }

  function HandsOf(s: State, i: nat): seq<Entry> {
    if i < |s.workers| then InHands(s.workers[i]) else []
  }

  lemma TakenByMore(taken: seq<(nat, Entry)>, j: nat, c: Entry, i: nat)
    ensures TakenBy(taken + [(j, c)], i) == TakenBy(taken, i) + if j == i then [c] else []
  {
    assert (taken + [(j, c)])[..|taken|] == taken;
  }

  /** What worker `i` takes in a step. */
  function Taking(s: State, a: Action, i: nat): seq<Entry> {
    if a == WorkerMoves(i) && i < |s.workers| && s.workers[i] == Removing && s.queue != [] then [s.queue[0]] else []
  }

  /** What is taken comes into the hands, and what is handled leaves them. */
  ghost predicate PassesOn(s: State, a: Action, s': State, i: nat) {
    && TakenBy(s'.taken, i) == TakenBy(s.taken, i) + Taking(s, a, i)
    && HandsOf(s, i) + Taking(s, a, i) == Handled(s, a, i) + HandsOf(s', i)
  }

  lemma StepHandles(n: nat, s: State, a: Action, i: nat)
    requires SafeInv(n, s) && Enabled(s, a) && i < n
    ensures PassesOn(s, a, Do(s, a), i)
  {
    match a
    case WorkerMoves(j) => WorkerHandles(s, j, i);
    case MainMoves => MainTakesNothing(s, i);
    case _ =>
  }

  lemma MainTakesNothing(s: State, i: nat)
    requires MainEnabled(s) && i < |s.workers|
    ensures MainStep(s).taken == s.taken && |MainStep(s).workers| == |s.workers|
    ensures HandsOf(MainStep(s), i) == HandsOf(s, i)
  {
  }

  lemma WorkerHandles(s: State, j: nat, i: nat)
    requires WorkerEnabled(s, j) && i < |s.workers| && (s.workers[j] == Removing ==> s.queue != [])
    ensures PassesOn(s, WorkerMoves(j), WorkerStep(s, j), i)
  {
    if s.workers[j] == Removing {
      TakerHandles(s, j, i);
    } else {
      HolderHandles(s, j, i);
    }
  }

  lemma TakerHandles(s: State, j: nat, i: nat)
    requires j < |s.workers| && i < |s.workers| && s.workers[j] == Removing && s.queue != []
    ensures PassesOn(s, WorkerMoves(j), WorkerStep(s, j), i)
  {
    TakenByMore(s.taken, j, s.queue[0], i);
    assert WorkerStep(s, j).taken == s.taken + [(j, s.queue[0])];
  }

  lemma HolderHandles(s: State, j: nat, i: nat)
    requires WorkerEnabled(s, j) && i < |s.workers| && s.workers[j] != Removing
    ensures PassesOn(s, WorkerMoves(j), WorkerStep(s, j), i)
  {
    assert WorkerStep(s, j).taken == s.taken && Taking(s, WorkerMoves(j), i) == [];
    PassesHands(s, j, i);
  }

  lemma PassesHands(s: State, j: nat, i: nat)
    requires WorkerEnabled(s, j) && i < |s.workers| && s.workers[j] != Removing
    ensures HandsOf(s, i) == Handled(s, WorkerMoves(j), i) + HandsOf(WorkerStep(s, j), i)
  {
  }

  /**
   In every run, what a worker has taken is what it has handled, in order, and at last the token in its
   hands: a worker handles exactly the tokens that it took, each once, and one at a time.
   */
  lemma {:induction false} TakenIsHandled(n: nat, states: seq<State>, actions: seq<Action>, i: nat)
    requires IsRun(n, states, actions) && i < n
    ensures TakenBy(states[|actions|].taken, i) == HandledBy(states, actions, i) + HandsOf(states[|actions|], i)
    decreases |actions|
  {
    if actions != [] {
      var k := |actions| - 1;
      PrefixIsRun(n, states, actions, k);
      TakenIsHandled(n, states[..k + 1], actions[..k], i);
      RunKeepsAccount(n, states, actions, k);
      assert Leads(states[k], actions[k], states[k + 1]);
      StepHandles(n, states[k], actions[k], i);
      Regroups(HandledBy(states[..k + 1], actions[..k], i), HandsOf(states[k], i), Taking(states[k], actions[k], i),
               Handled(states[k], actions[k], i), HandsOf(states[k + 1], i));
    }
  }

  lemma Regroups(handled: seq<Entry>, hands: seq<Entry>, taking: seq<Entry>, more: seq<Entry>, hands': seq<Entry>)
    requires hands + taking == more + hands'
    ensures handled + hands + taking == handled + more + hands'
  {
    assert handled + hands + taking == handled + (hands + taking);
    assert handled + more + hands' == handled + (more + hands');
  }
}
