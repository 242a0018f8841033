/**
 Two races in the shared-memory protocol, each with a run that shows it and the condition that
 excludes it.
 */
module SharedRaces {
  import opened SharedProtocol
  import opened SharedInvariant
  import opened SharedLiveness

  /** Some run ends in `s`. */
  ghost predicate Reachable(cap: Capacity, s: State) {
    exists states, actions :: IsRun(cap, states, actions) && states[|actions|] == s
  }

  lemma Start(cap: Capacity) returns (s: State)
    ensures Reachable(cap, s) && Init(cap, s)
    ensures s == State(Idle, Idle, Nobody, Away, Pooled, Polling, 0, s.x, [])
  {
    var x := Transfer(seq(cap, _ => 'm'), 0, false, "", false, "", "", "");
    s := State(Idle, Idle, Nobody, Away, Pooled, Polling, 0, x, []);
    assert IsRun(cap, [s], []);
  }

  lemma Then(cap: Capacity, s: State, a: Action) returns (s': State)
    requires Reachable(cap, s) && |s.x.mem| == cap && Enabled(s, a)
    ensures s' == Do(cap, s, a) && Reachable(cap, s')
  {
    s' := Do(cap, s, a);
    var states, actions :| IsRun(cap, states, actions) && states[|actions|] == s;
    var states', actions' := states + [s'], actions + [a];
    forall i | 0 <= i < |actions'|
      ensures Leads(cap, states'[i], actions'[i], states'[i + 1])
    {
      if i < |actions| {
        assert Leads(cap, states[i], actions[i], states[i + 1]);
      }
    }
    assert IsRun(cap, states', actions') && states'[|actions'|] == s';
  }

  /** One pass of `sendShared` by the proxy, with segments of one byte. */
  lemma ProxyPass(s0: State, sent: nat) returns (s: State)
    requires Reachable(1, s0) && |s0.x.mem| == 1 && sent < |s0.x.request|
    requires s0.p == Request(Frame(Loop, false, sent))
    ensures Reachable(1, s) && |s.x.mem| == 1
    ensures var pc := if sent + 1 == |s0.x.request| then Loop else Wait;
      s == s0.(proxyState := MarkOf(Frame(Signal, false, sent + 1), s0.x.request),
               x := SetMapping(s0.x, s0.x.request[sent..sent + 1]),
               w := WakeWorker(s0.w), p := Request(Frame(pc, false, sent + 1)))
  {
    s := ProxyWrites(s0, sent);
    s := Then(1, s, ProxyMoves);
    s := Then(1, s, ProxyMoves);
  }

  lemma ProxyWrites(s0: State, sent: nat) returns (s: State)
    requires Reachable(1, s0) && |s0.x.mem| == 1 && sent < |s0.x.request|
    requires s0.p == Request(Frame(Loop, false, sent))
    ensures Reachable(1, s) && |s.x.mem| == 1
    ensures s == s0.(proxyState := s.proxyState, x := SetMapping(s0.x, s0.x.request[sent..sent + 1]),
                     p := Request(Frame(Mark, false, sent + 1)))
  {
    s := Then(1, s0, ProxyMoves);
    s := Then(1, s, ProxyMoves);
  }

  /** One pass of `sendShared` by the worker. */
  lemma WorkerPass(s0: State, sent: nat) returns (s: State)
    requires Reachable(1, s0) && |s0.x.mem| == 1 && sent < |s0.x.response|
    requires s0.w == Reply(Frame(Loop, true, sent))
    ensures Reachable(1, s) && |s.x.mem| == 1
    ensures s == s0.(serverState := MarkOf(Frame(Signal, true, sent + 1), s0.x.response),
               x := SetMapping(s0.x, s0.x.response[sent..sent + 1]),
               p := WakeProxy(s0.p), w := Reply(Frame(Wait, true, sent + 1)))
  {
    s := WorkerWrites(s0, sent);
    s := Then(1, s, WorkerMoves);
    s := Then(1, s, WorkerMoves);
  }

  lemma WorkerWrites(s0: State, sent: nat) returns (s: State)
    requires Reachable(1, s0) && |s0.x.mem| == 1 && sent < |s0.x.response|
    requires s0.w == Reply(Frame(Loop, true, sent))
    ensures Reachable(1, s) && |s.x.mem| == 1
    ensures s == s0.(serverState := Busy, x := SetMapping(s0.x, s0.x.response[sent..sent + 1]),
                     w := Reply(Frame(Mark, true, sent + 1)))
  {
    s := Then(1, s0, WorkerMoves);
    s := Then(1, s, WorkerMoves);
  }

  /** The polling loop finds a posted request and queues a token for it. */
  lemma PollQueues(s0: State) returns (s: State)
    requires Reachable(1, s0) && |s0.x.mem| == 1
    requires s0.m == Polling && s0.proxyState == WaitingInitSrvr && s0.serverState == Idle
    ensures Reachable(1, s) && s == s0.(serverState := Busy, tokens := s0.tokens + 1)
  {
    s := Then(1, s0, PollMoves);
    s := Then(1, s, PollMoves);
    s := Then(1, s, PollMoves);
    s := Then(1, s, PollMoves);
  }

  /** A proxy thread has posted a request. */
  lemma ReachPosted(request: string) returns (s: State)
    requires request != ""
    ensures Reachable(1, s) && |s.x.mem| == 1
    ensures s == State(WaitingInitSrvr, Idle, HeldByProxy, Testing, Pooled, Polling, 0, s.x, [])
    ensures s.x.request == request && s.x.got == ""
  {
    s := Start(1);
    s := Then(1, s, Claim(request));
    s := Then(1, s, ProxyMoves);
    s := Then(1, s, ProxyMoves);
  }

  // ---- The request that loses its first segment ----

  /** A worker has stored WAITING_CONT_PRXY before the test at proxy.c:747. */
  lemma ReachEarly() returns (s: State)
    ensures Reachable(1, s) && |s.x.mem| == 1
    ensures s == State(WaitingInitSrvr, WaitingContPrxy, HeldByProxy, Testing, Entering, Polling, 0, s.x, [])
    ensures s.x.request == "ab" && s.x.got == ""
  {
    s := ReachPosted("ab");
    s := PollQueues(s);
    s := Then(1, s, WorkerMoves);
    s := Then(1, s, WorkerMoves);
    s := Then(1, s, WorkerMoves);
  }

  lemma ReachEarlyRequest() returns (s: State)
    ensures Reachable(1, s) && |s.x.mem| == 1
    ensures s == State(WaitingInitSrvr, WaitingContPrxy, HeldByProxy, Request(Frame(Loop, false, 0)), Entering,
                       Polling, 0, s.x, [])
    ensures s.x.request == "ab" && s.x.got == "" && s.x.early
  {
    s := ReachEarly();
    s := Then(1, s, ProxyMoves);
    s := Then(1, s, ProxyMoves);
  }

  /** The proxy does not wait, and sends its first pass, */
  lemma ReachFirstPass() returns (s: State)
    ensures Reachable(1, s) && |s.x.mem| == 1
    ensures s == State(WaitingContSrvr, WaitingContPrxy, Nobody, Request(Frame(Asleep, false, 1)), Entering,
                       Polling, 0, s.x, [])
    ensures s.x.request == "ab" && s.x.got == "" && s.x.early && s.x.unread && Segment(s.x) == "a"
  {
    s := ReachEarlyRequest();
    s := ProxyPass(s, 0);
    assert s.x.mem == "a";
    s := Then(1, s, ProxyMoves);
  }

  /** and the worker, on entry, wakes it before reading. */
  lemma ReachOverwrite() returns (s: State)
    ensures Reachable(1, s) && |s.x.mem| == 1
    ensures s == State(WaitingContSrvr, WaitingContPrxy, Nobody, Request(Frame(Woken, false, 1)), ChunkAsleep,
                       Polling, 0, s.x, [])
    ensures s.x.request == "ab" && s.x.got == "" && s.x.early && s.x.unread && Segment(s.x) == "a" && s.x.line == ""
  {
    s := ReachFirstPass();
    s := Then(1, s, WorkerMoves);
    s := Then(1, s, WorkerMoves);
    s := Then(1, s, WorkerMoves);
  }

  lemma ReachSecondTurn() returns (s: State)
    ensures Reachable(1, s) && |s.x.mem| == 1
    ensures s == State(WaitingContSrvr, WaitingContPrxy, HeldByProxy, Request(Frame(Loop, false, 1)), ChunkAsleep,
                       Polling, 0, s.x, [])
    ensures s.x.request == "ab" && s.x.got == "" && s.x.early && s.x.line == ""
  {
    s := ReachOverwrite();
    s := Then(1, s, ProxyMoves);
  }

  lemma ReachBothPasses() returns (s: State)
    ensures Reachable(1, s) && |s.x.mem| == 1
    ensures s == State(Complete, WaitingContPrxy, HeldByProxy, Request(Frame(Loop, false, 2)), ChunkWoken,
                       Polling, 0, s.x, [])
    ensures s.x.request == "ab" && s.x.got == "" && s.x.early && s.x.mem == "b" && s.x.spaceUsed == 1 && s.x.line == ""
  {
    s := ReachSecondTurn();
    s := ProxyPass(s, 1);
  }

  lemma ReachSecondPass() returns (s: State)
    ensures Reachable(1, s) && |s.x.mem| == 1
    ensures s == State(Complete, WaitingContPrxy, Nobody, ReplyAsleep, ChunkWoken, Polling, 0, s.x, [])
    ensures s.x.request == "ab" && s.x.got == "" && s.x.early && s.x.line == ""
    ensures Segment(s.x) == "b" && s.x.spaceUsed == 1
  {
    s := ReachBothPasses();
    s := Then(1, s, ProxyMoves);
    s := Then(1, s, ProxyMoves);
  }

  /** The worker reads what is in the segment and answers "r"; the proxy collects the answer. */
  lemma Conclude(s0: State) returns (s: State)
    requires Reachable(1, s0) && |s0.x.mem| == 1 && s0.log == []
    requires s0 == State(Complete, WaitingContPrxy, Nobody, ReplyAsleep, ChunkWoken, s0.m, 0, s0.x, [])
    requires s0.x.spaceUsed == 1 && s0.x.got == "" && s0.x.line == ""
    ensures Reachable(1, s) && |s.x.mem| == 1
    ensures s == State(Complete, Complete, Nobody, Leaving, Reply(Frame(Woken, true, 1)), s0.m, 0, s.x,
                       [Exchange(s0.x.request, Segment(s0.x), "r", "r", s0.x.early)])
    ensures s.x.response == "r"
  {
    s := Collect(s0);
    s := Then(1, s, ProxyMoves);
    s := Then(1, s, ProxyMoves);
    s := Then(1, s, ProxyMoves);
  }

  lemma Collect(s0: State) returns (s: State)
    requires Reachable(1, s0) && |s0.x.mem| == 1
    requires s0 == State(Complete, WaitingContPrxy, Nobody, ReplyAsleep, ChunkWoken, s0.m, 0, s0.x, [])
    requires s0.x.spaceUsed == 1 && s0.x.got == "" && s0.x.line == ""
    ensures Reachable(1, s) && |s.x.mem| == 1
    ensures s == State(Complete, Complete, HeldByProxy, Acking, Reply(Frame(Asleep, true, 1)), s0.m, 0, s.x, [])
    ensures s.x == s0.x.(mem := "r", line := Segment(s0.x), response := "r", got := "r", unread := false)
  {
    s := Produce(s0);
    assert Segment(s.x) == "r";
    s := Then(1, s, ProxyMoves);
    s := Then(1, s, ProxyMoves);
    assert s.x.got == "r";
  }

  lemma Produce(s0: State) returns (s: State)
    requires Reachable(1, s0) && |s0.x.mem| == 1
    requires s0 == State(Complete, WaitingContPrxy, Nobody, ReplyAsleep, ChunkWoken, s0.m, 0, s0.x, [])
    requires s0.x.spaceUsed == 1 && s0.x.got == "" && s0.x.line == ""
    ensures Reachable(1, s) && |s.x.mem| == 1
    ensures s == State(Complete, Complete, Nobody, ReplyWoken, Reply(Frame(Asleep, true, 1)), s0.m, 0, s.x, [])
    ensures s.x == s0.x.(mem := "r", line := Segment(s0.x), response := "r", unread := true)
  {
    s := Digest(s0);
    s := Then(1, s, Serve("r"));
    s := Then(1, s, WorkerMoves);
    s := WorkerPass(s, 0);
    assert s.x.mem == "r";
    s := Then(1, s, WorkerMoves);
  }

  lemma Digest(s0: State) returns (s: State)
    requires Reachable(1, s0) && |s0.x.mem| == 1
    requires s0 == State(Complete, WaitingContPrxy, Nobody, ReplyAsleep, ChunkWoken, s0.m, 0, s0.x, [])
    requires s0.x.spaceUsed == 1 && s0.x.line == ""
    ensures Reachable(1, s) && |s.x.mem| == 1
    ensures s == State(Complete, Busy, HeldByWorker, ReplyAsleep, Serving, s0.m, 0, s.x, [])
    ensures s.x == s0.x.(line := Segment(s0.x), unread := false)
  {
    s := Take(s0);
    s := Then(1, s, WorkerMoves);
    s := Then(1, s, WorkerMoves);
    s := Then(1, s, WorkerMoves);
  }

  lemma Take(s0: State) returns (s: State)
    requires Reachable(1, s0) && |s0.x.mem| == 1
    requires s0 == State(Complete, WaitingContPrxy, Nobody, ReplyAsleep, ChunkWoken, s0.m, 0, s0.x, [])
    requires s0.x.spaceUsed == 1 && s0.x.line == ""
    ensures Reachable(1, s) && |s.x.mem| == 1
    ensures s == State(Complete, WaitingContPrxy, HeldByWorker, ReplyAsleep, Choosing, s0.m, 0, s.x, [])
    ensures s.x == s0.x.(line := Segment(s0.x), unread := false)
  {
    s := Then(1, s0, WorkerMoves);
    s := Then(1, s, WorkerMoves);
  }

  /** A request of two segments reaches the worker without its first segment. */
  lemma RequestCanLoseItsStart() returns (s: State)
    ensures Reachable(1, s) && s.log == [Exchange("ab", "b", "r", "r", true)]
  {
    s := ReachSecondPass();
    s := Conclude(s);
  }

  // ---- The token for a request that is gone ----

  /** The polling loop has queued the token, and `findState` has returned the same request again. */
  lemma ReachSecondSight() returns (s: State)
    ensures Reachable(1, s) && |s.x.mem| == 1
    ensures s == State(WaitingInitSrvr, Busy, Nobody, ReadyAsleep, Pooled, Probing, 1, s.x, [])
    ensures s.x.request == "a" && s.x.got == ""
  {
    s := ReachPosted("a");
    s := Then(1, s, ProxyMoves);
    s := PollQueues(s);
    s := Then(1, s, PollMoves);
  }

  lemma ReachEntrance() returns (s: State)
    ensures Reachable(1, s) && |s.x.mem| == 1
    ensures s == State(WaitingInitSrvr, WaitingContPrxy, Nobody, ReadyAsleep, Entering, Probing, 0, s.x, [])
    ensures s.x.request == "a" && s.x.got == ""
  {
    s := ReachSecondSight();
    s := Then(1, s, WorkerMoves);
    s := Then(1, s, WorkerMoves);
    s := Then(1, s, WorkerMoves);
  }

  lemma ReachMeeting() returns (s: State)
    ensures Reachable(1, s) && |s.x.mem| == 1
    ensures s == State(WaitingInitSrvr, WaitingContPrxy, Nobody, ReadyWoken, ChunkAsleep, Probing, 0, s.x, [])
    ensures s.x.request == "a" && s.x.got == "" && s.x.line == ""
  {
    s := ReachEntrance();
    s := Then(1, s, WorkerMoves);
    s := Then(1, s, WorkerMoves);
    s := Then(1, s, WorkerMoves);
  }

  lemma ReachRequest() returns (s: State)
    ensures Reachable(1, s) && |s.x.mem| == 1
    ensures s == State(WaitingInitSrvr, WaitingContPrxy, HeldByProxy, Request(Frame(Loop, false, 0)), ChunkAsleep,
                       Probing, 0, s.x, [])
    ensures s.x.request == "a" && s.x.got == "" && s.x.line == ""
  {
    s := ReachMeeting();
    s := Then(1, s, ProxyMoves);
    s := Then(1, s, ProxyMoves);
  }

  lemma ReachOnePass() returns (s: State)
    ensures Reachable(1, s) && |s.x.mem| == 1
    ensures s == State(Complete, WaitingContPrxy, Nobody, ReplyAsleep, ChunkWoken, Probing, 0, s.x, [])
    ensures s.x.request == "a" && s.x.got == "" && s.x.line == "" && s.x.spaceUsed == 1
  {
    s := ReachRequest();
    s := ProxyPass(s, 0);
    s := Then(1, s, ProxyMoves);
    s := Then(1, s, ProxyMoves);
  }

  /** The session is over on both sides, and the polling loop still has the old sighting. */
  lemma ReachAfterSession() returns (s: State)
    ensures Reachable(1, s) && |s.x.mem| == 1
    ensures s == State(Idle, Idle, Nobody, Away, Pooled, Probing, 0, s.x, s.log)
    ensures StalePass(s, PollMoves)
  {
    s := ReachOnePass();
    s := Conclude(s);
    s := Then(1, s, ProxyMoves);
    s := WorkerLeaves(s);
  }

  lemma WorkerLeaves(s0: State) returns (s: State)
    requires Reachable(1, s0) && |s0.x.mem| == 1 && s0.x.response == "r"
    requires s0 == State(Idle, Complete, Nobody, Away, Reply(Frame(Woken, true, 1)), s0.m, 0, s0.x, s0.log)
    ensures Reachable(1, s) && |s.x.mem| == 1
    ensures s == State(Idle, Idle, Nobody, Away, Pooled, s0.m, 0, s.x, s.log)
  {
    s := WorkerIsDone(s0);
    s := Then(1, s, WorkerMoves);
    s := Then(1, s, WorkerMoves);
  }

  lemma WorkerIsDone(s0: State) returns (s: State)
    requires Reachable(1, s0) && |s0.x.mem| == 1 && s0.x.response == "r"
    requires s0.w == Reply(Frame(Woken, true, 1)) && s0.owner == Nobody
    ensures Reachable(1, s) && s == s0.(owner := HeldByWorker, w := Releasing)
  {
    s := Then(1, s0, WorkerMoves);
    s := Then(1, s, WorkerMoves);
  }

  /** The stale sighting becomes a token, and the worker's `findState` returns NULL. */
  lemma StaleTokenCrashesWorker() returns (s: State)
    ensures Reachable(1, s) && s.w == WorkerCrashed && s.p == Away
  {
    s := ReachAfterSession();
    s := Then(1, s, PollMoves);
    s := Then(1, s, PollMoves);
    s := Then(1, s, PollMoves);
    s := Then(1, s, WorkerMoves);
    s := Then(1, s, WorkerMoves);
  }

  /** Any stale pass may end so: if the others stand still, five steps lead from it to the crash. */
  lemma StalePassCanCrash(cap: Capacity, s: State) returns (s1: State, s2: State, s3: State, s4: State, end: State)
    requires Inv(cap, s) && StalePass(s, PollMoves)
    ensures Leads(cap, s, PollMoves, s1) && Leads(cap, s1, PollMoves, s2) && Leads(cap, s2, PollMoves, s3)
    ensures Leads(cap, s3, WorkerMoves, s4) && Leads(cap, s4, WorkerMoves, end)
    ensures end.w == WorkerCrashed
  {
    s1 := s.(m := Claiming);
    s2 := s1.(serverState := Busy, m := Queueing);
    s3 := s2.(tokens := s.tokens + 1, m := Polling);
    s4 := s3.(tokens := s.tokens, w := Finding);
    end := s4.(w := WorkerCrashed);
  }

  // ---- Exactly which states are safe ----

  /** `actions` leads from the first state to the last, without a stale poll. */
  ghost predicate IsFreshContinuation(cap: Capacity, states: seq<State>, actions: seq<Action>) {
    && |states| == |actions| + 1
    && forall i :: 0 <= i < |actions| ==>
         Leads(cap, states[i], actions[i], states[i + 1]) && !StalePass(states[i], actions[i])
  }

  lemma {:induction false} FreshContinues(cap: Capacity, states: seq<State>, actions: seq<Action>, i: nat)
    requires IsFreshContinuation(cap, states, actions) && i < |states|
    requires Inv(cap, states[0]) && TokenIsFresh(states[0])
    ensures Inv(cap, states[i]) && TokenIsFresh(states[i])
  {
    if i > 0 {
      FreshContinues(cap, states, actions, i - 1);
      assert Leads(cap, states[i - 1], actions[i - 1], states[i - 1 + 1]);
      StaysFresh(cap, states[i - 1], actions[i - 1], states[i]);
    }
  }

  lemma StaysFresh(cap: Capacity, s: State, a: Action, s': State)
    requires Inv(cap, s) && TokenIsFresh(s) && Leads(cap, s, a, s') && !StalePass(s, a)
    ensures Inv(cap, s') && TokenIsFresh(s')
  {
    NoCrashStep(cap, s, a);
  }

  /** Without a stale pass no run crashes the worker. */
  lemma FreshRunsNeverCrash(cap: Capacity, states: seq<State>, actions: seq<Action>)
    requires IsRun(cap, states, actions)
    requires forall i :: 0 <= i < |actions| ==> !StalePass(states[i], actions[i])
    ensures forall i :: 0 <= i < |states| ==> states[i].w != WorkerCrashed
  {
    forall i | 0 <= i < |states|
      ensures states[i].w != WorkerCrashed
    {
      FreshContinues(cap, states, actions, i);
    }
  }

  /** How far a token whose request is gone is from its worker. */
  function Distance(s: State): nat {
    match s.m
    case Claiming => 4
    case Queueing => 3
    case _ => if s.tokens > 0 then 2 else 1
  }

  lemma UnfreshMoves(cap: Capacity, s: State) returns (a: Action)
    requires Inv(cap, s) && !TokenIsFresh(s) && s.w != Finding
    ensures Enabled(s, a) && !StalePass(s, a)
    ensures var s' := Do(cap, s, a); Inv(cap, s') && !TokenIsFresh(s') && Distance(s') < Distance(s)
  {
    assert JointInv(cap, s.p, s.w, s.x);
    a := if s.m == Claiming || s.m == Queueing then PollMoves else WorkerMoves;
    StepKeeps(cap, s, a);
  }

  lemma UnfreshFinds(cap: Capacity, s: State)
    requires Inv(cap, s) && !TokenIsFresh(s) && s.w == Finding
    ensures Leads(cap, s, WorkerMoves, s.(w := WorkerCrashed))
  {
  }

  /** The polling loop finishes its queueing, and the worker takes the token of a request that is gone. */
  lemma UnfreshCrashes(cap: Capacity, s: State) returns (states: seq<State>, actions: seq<Action>)
    requires Inv(cap, s) && !TokenIsFresh(s)
    ensures IsFreshContinuation(cap, states, actions) && states[0] == s && states[|actions|].w == WorkerCrashed
    decreases Distance(s)
  {
    if s.w == Finding {
      UnfreshFinds(cap, s);
      states, actions := [s, s.(w := WorkerCrashed)], [WorkerMoves];
    } else {
      var a := UnfreshMoves(cap, s);
      var rest, moves := UnfreshCrashes(cap, Do(cap, s, a));
      states, actions := [s] + rest, [a] + moves;
      Prepends(cap, s, a, rest, moves);
    }
  }

  lemma Prepends(cap: Capacity, s: State, a: Action, states: seq<State>, actions: seq<Action>)
    requires IsFreshContinuation(cap, states, actions) && Leads(cap, s, a, states[0]) && !StalePass(s, a)
    ensures IsFreshContinuation(cap, [s] + states, [a] + actions)
  {
    var states', actions' := [s] + states, [a] + actions;
    forall i | 0 <= i < |actions'|
      ensures Leads(cap, states'[i], actions'[i], states'[i + 1]) && !StalePass(states'[i], actions'[i])
    {
      if i > 0 {
        assert Leads(cap, states[i - 1], actions[i - 1], states[i - 1 + 1]);
      }
    }
  }

  /**
   In any state of an uncrashed run: the token in it belongs to a posted request if and only if no
   continuation without a further stale poll crashes the worker.
   */
  lemma CrashIsDecided(cap: Capacity, s: State)
    requires Inv(cap, s)
    ensures TokenIsFresh(s) <==>
            forall states: seq<State>, actions: seq<Action> ::
              IsFreshContinuation(cap, states, actions) && states[0] == s ==> states[|actions|].w != WorkerCrashed
  {
    if TokenIsFresh(s) {
      forall states: seq<State>, actions: seq<Action> | IsFreshContinuation(cap, states, actions) && states[0] == s
        ensures states[|actions|].w != WorkerCrashed
      {
        FreshContinues(cap, states, actions, |actions|);
      }
    } else {
      var states, actions := UnfreshCrashes(cap, s);
    }
  }
}
