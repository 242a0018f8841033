/**
 Every sequence of sessions can happen on one node: whatever the segment size, the requests and the
 responses are, some run exchanges them in that order, each request whole.
 */
module SharedSessions {
  import opened SharedProtocol
  import opened SharedInvariant
  import opened SharedDelivery
  import opened SharedLiveness

  /** Whenever no proxy thread is at the node, the node is IDLE and the next one can claim it, with any request. */
  lemma ClaimIsPossible(cap: Capacity, s: State, request: string)
    requires Inv(cap, s) && s.p == Away && request != ""
    ensures s.proxyState == Idle
    ensures exists s' :: Leads(cap, s, Claim(request), s') && s'.x.request == request && s'.p == Locking
  {
    var s' := Do(cap, s, Claim(request));
    assert Leads(cap, s, Claim(request), s') && s'.x.request == request;
  }

  /** A worker can produce any response. */
  lemma ServeIsPossible(cap: Capacity, s: State, response: string)
    requires Inv(cap, s) && s.w == Serving && response != ""
    ensures exists s' :: Leads(cap, s, Serve(response), s') && s'.x.response == response && s'.w.Reply?
  {
    var s' := Do(cap, s, Serve(response));
    assert Leads(cap, s, Serve(response), s') && s'.x.response == response;
  }

  // ---- One more step of a run ----

  /** Some run without a crash ends in `s`, after these claims and these responses. */
  ghost predicate Reached(cap: Capacity, s: State, claimed: seq<string>, served: seq<string>) {
    exists states, actions :: EndsIn(cap, states, actions, s, claimed, served)
  }

  ghost predicate EndsIn(cap: Capacity, states: seq<State>, actions: seq<Action>, s: State,
                         claimed: seq<string>, served: seq<string>) {
    && IsRun(cap, states, actions) && Uncrashed(states) && states[|actions|] == s
    && Claimed(actions) == claimed && Served(actions) == served
  }

  lemma ReachedKeepsInv(cap: Capacity, s: State, claimed: seq<string>, served: seq<string>)
    requires Reached(cap, s, claimed, served)
    ensures Inv(cap, s) && Matched(s, claimed, served)
    ensures forall e :: e in s.log ==> e.got == e.response && (!e.early ==> e.line == e.request)
  {
    var states, actions :| EndsIn(cap, states, actions, s, claimed, served);
    RunKeepsInv(cap, states, actions);
    ExchangesPair(cap, states, actions);
    forall e | e in s.log
      ensures e.got == e.response && (!e.early ==> e.line == e.request)
    {
      SessionsDeliver(cap, states, actions, |actions|, e);
    }
  }

  function ClaimBy(a: Action): seq<string> {
    if a.Claim? then [a.request] else []
  }

  function ServeBy(a: Action): seq<string> {
    if a.Serve? then [a.response] else []
  }

  lemma Then(cap: Capacity, s: State, claimed: seq<string>, served: seq<string>, a: Action) returns (s': State)
    requires Reached(cap, s, claimed, served) && |s.x.mem| == cap && Enabled(s, a) && Do(cap, s, a).w != WorkerCrashed
    ensures s' == Do(cap, s, a) && Reached(cap, s', claimed + ClaimBy(a), served + ServeBy(a))
  {
    s' := Do(cap, s, a);
    var states, actions :| EndsIn(cap, states, actions, s, claimed, served);
    var states', actions' := states + [s'], actions + [a];
    forall i | 0 <= i < |actions'|
      ensures Leads(cap, states'[i], actions'[i], states'[i + 1])
    {
      if i < |actions| {
        assert Leads(cap, states[i], actions[i], states[i + 1]);
      }
    }
    assert actions'[..|actions|] == actions;
    assert EndsIn(cap, states', actions', s', claimed + ClaimBy(a), served + ServeBy(a));
  }

  // ---- A session that ends ----

  /** The proxy thread has tested `serverState` and is waiting or further on, or it is away. */
  predicate PastTesting(p: ProxyPc) {
    p != Locking && p != Posting && p != Testing
  }

  /** Whether proxy threads have skipped their first wait. */
  ghost predicate AllEarly(s: State, early: bool) {
    s.x.early == early && forall e :: e in s.log ==> e.early == early
  }

  /** Whatever of the session is left to do can be done now, without a stale poll. */
  lemma CanGoOn(cap: Capacity, s: State, response: string) returns (a: Action)
    requires Inv(cap, s) && TokenIsFresh(s) && !AtRest(s) && response != ""
    ensures Enabled(s, a) && !IdlePoll(s, a) && !StalePass(s, a) && !a.Claim? && (a.Serve? ==> a.response == response)
  {
    if s.w == Serving {
      a := Serve(response);
    } else if ProxyEnabled(s) {
      a := ProxyMoves;
    } else if WorkerEnabled(s) {
      a := WorkerMoves;
    } else {
      assert JointInv(cap, s.p, s.w, s.x);
      a := PollMoves;
    }
  }

  function StepsToRest(s: State): (nat, nat, nat) {
    if s.p != Away then (1, RankOf(s).0, RankOf(s).1) else (0, 0, ApproachOf(s))
  }

  lemma GoesTowardsRest(cap: Capacity, s: State, a: Action, s': State)
    requires Inv(cap, s) && Leads(cap, s, a, s') && s'.w != WorkerCrashed && !a.Claim?
    requires !AtRest(s) && !IdlePoll(s, a) && PastTesting(s.p)
    ensures PastTesting(s'.p)
    ensures var (a0, b0, c0), (a1, b1, c1) := StepsToRest(s), StepsToRest(s');
      a1 < a0 || (a1 == a0 && (b1 < b0 || (b1 == b0 && c1 < c0)))
  {
    StaysPastTesting(cap, s, a);
    if s.p == Away {
      StaysAway(cap, s, a);
      LeaverAdvances(cap, s, a, s');
    } else {
      StepAdvances(cap, s, a);
    }
  }

  lemma StaysPastTesting(cap: Capacity, s: State, a: Action)
    requires ControlInv(cap, s) && Enabled(s, a) && !a.Claim? && PastTesting(s.p)
    ensures PastTesting(Do(cap, s, a).p)
  {
  }

  lemma StaysAway(cap: Capacity, s: State, a: Action)
    requires ControlInv(cap, s) && Enabled(s, a) && !a.Claim? && s.p == Away
    ensures Do(cap, s, a).p == Away
  {
  }

  lemma StaysEarly(cap: Capacity, s: State, a: Action, early: bool)
    requires ControlInv(cap, s) && Enabled(s, a) && !a.Claim? && AllEarly(s, early) && PastTesting(s.p)
    ensures AllEarly(Do(cap, s, a), early)
  {
    match a
    case ProxyMoves => ProxyStaysEarly(cap, s, early);
    case WorkerMoves => WorkerStaysEarly(cap, s, early);
    case _ =>
  }

  lemma ProxyStaysEarly(cap: Capacity, s: State, early: bool)
    requires |s.x.mem| == cap && ProxyEnabled(s) && AllEarly(s, early) && PastTesting(s.p)
    ensures AllEarly(ProxyStep(cap, s), early)
  {
  }

  lemma WorkerStaysEarly(cap: Capacity, s: State, early: bool)
    requires |s.x.mem| == cap && WorkerEnabled(s) && AllEarly(s, early)
    ensures AllEarly(WorkerStep(cap, s), early)
  {
  }

  /** The responses of the run are those of before, and then only `response`. */
  ghost predicate OnlyAdds(before: seq<string>, now: seq<string>, response: string) {
    && |before| <= |now| && now[..|before|] == before
    && forall i :: |before| <= i < |now| ==> now[i] == response
  }

  /** The session is on its way, and the proxy has skipped its first wait, or has not. */
  ghost predicate UnderWay(s: State, early: bool) {
    TokenIsFresh(s) && PastTesting(s.p) && AllEarly(s, early)
  }

  lemma GoesOn(cap: Capacity, s: State, a: Action, early: bool)
    requires Inv(cap, s) && UnderWay(s, early) && Enabled(s, a) && !a.Claim? && !StalePass(s, a)
    ensures Inv(cap, Do(cap, s, a)) && UnderWay(Do(cap, s, a), early)
  {
    NoCrashStep(cap, s, a);
    StaysEarly(cap, s, a, early);
    StaysPastTesting(cap, s, a);
  }

  lemma AddsOne(before: seq<string>, now: seq<string>, more: seq<string>, response: string)
    requires OnlyAdds(before, now, response) && (more == [] || more == [response])
    ensures OnlyAdds(before, now + more, response)
  {
  }

  /** A session in progress can be brought to its end, with `response` for the response. */
  lemma {:induction false} Finishes(cap: Capacity, s: State, claimed: seq<string>, before: seq<string>,
                                    served: seq<string>, response: string, early: bool)
    returns (end: State, served': seq<string>)
    requires Reached(cap, s, claimed, served) && UnderWay(s, early) && response != ""
    requires OnlyAdds(before, served, response)
    ensures Reached(cap, end, claimed, served') && UnderWay(end, early) && AtRest(end)
    ensures OnlyAdds(before, served', response)
    decreases StepsToRest(s).0, StepsToRest(s).1, StepsToRest(s).2
  {
    ReachedKeepsInv(cap, s, claimed, served);
    if AtRest(s) {
      return s, served;
    }
    var a := CanGoOn(cap, s, response);
    GoesOn(cap, s, a, early);
    GoesTowardsRest(cap, s, a, Do(cap, s, a));
    AddsOne(before, served, ServeBy(a), response);
    var s' := Then(cap, s, claimed, served, a);
    assert claimed + ClaimBy(a) == claimed;
    end, served' := Finishes(cap, s', claimed, before, served + ServeBy(a), response, early);
  }

  /** A proxy thread claims the node and posts its request, */
  lemma Posts(cap: Capacity, s: State, claimed: seq<string>, served: seq<string>, request: string) returns (end: State)
    requires Reached(cap, s, claimed, served) && |s.x.mem| == cap && request != ""
    requires s.p == Away && s.proxyState == Idle && s.owner == Nobody && s.w == Pooled
    ensures Reached(cap, end, claimed + [request], served)
    ensures end == s.(proxyState := WaitingInitSrvr, owner := HeldByProxy, p := Testing,
                      x := s.x.(request := request, early := false, got := ""))
  {
    assert served + [] == served && claimed + [request] + [] == claimed + [request];
    end := Then(cap, s, claimed, served, Claim(request));
    end := Then(cap, end, claimed + [request], served, ProxyMoves);
    end := Then(cap, end, claimed + [request], served, ProxyMoves);
  }

  /** and waits. */
  lemma Opens(cap: Capacity, s: State, claimed: seq<string>, served: seq<string>, request: string) returns (end: State)
    requires Reached(cap, s, claimed, served) && UnderWay(s, false) && AtRest(s) && request != ""
    ensures Reached(cap, end, claimed + [request], served) && UnderWay(end, false)
  {
    ReachedKeepsInv(cap, s, claimed, served);
    ClaimIsPossible(cap, s, request);
    end := Posts(cap, s, claimed, served, request);
    assert served + [] == served && claimed + [request] + [] == claimed + [request];
    end := Then(cap, end, claimed + [request], served, ProxyMoves);
  }

  // ---- Any number of sessions ----

  /** What the sessions exchange: each request and each response whole. */
  function Exchanges(requests: seq<string>, responses: seq<string>): (log: seq<Exchange>)
    requires |requests| == |responses|
    ensures |log| == |requests|
  {
    seq(|requests|, i requires 0 <= i < |requests| =>
      Exchange(requests[i], requests[i], responses[i], responses[i], false))
  }

  lemma Begins(cap: Capacity) returns (s: State)
    ensures Reached(cap, s, [], []) && UnderWay(s, false) && AtRest(s) && s.m == Polling && s.log == []
  {
    var x := Transfer(seq(cap, _ => 'm'), 0, false, "", false, "", "", "");
    s := State(Idle, Idle, Nobody, Away, Pooled, Polling, 0, x, []);
    assert EndsIn(cap, [s], [], s, [], []);
  }

  lemma {:induction false} SessionsHappen(cap: Capacity, requests: seq<string>, responses: seq<string>)
    returns (s: State)
    requires |requests| == |responses| && "" !in requests && "" !in responses
    ensures Reached(cap, s, requests, responses) && UnderWay(s, false) && AtRest(s)
    decreases |requests|
  {
    if requests == [] {
      s := Begins(cap);
    } else {
      var n := |requests| - 1;
      s := SessionsHappen(cap, requests[..n], responses[..n]);
      s := SessionHappens(cap, s, requests[..n], responses[..n], requests[n], responses[n]);
      assert requests[..n] + [requests[n]] == requests && responses[..n] + [responses[n]] == responses;
    }
  }

  /** After any number of sessions one more can happen, with any request and any response. */
  lemma SessionHappens(cap: Capacity, s: State, claimed: seq<string>, served: seq<string>,
                       request: string, response: string) returns (end: State)
    requires Reached(cap, s, claimed, served) && UnderWay(s, false) && AtRest(s) && |claimed| == |served|
    requires request != "" && response != ""
    ensures Reached(cap, end, claimed + [request], served + [response]) && UnderWay(end, false) && AtRest(end)
  {
    var s1 := Opens(cap, s, claimed, served, request);
    var served';
    end, served' := Finishes(cap, s1, claimed + [request], served, served, response, false);
    ReachedKeepsInv(cap, end, claimed + [request], served');
    LastIsServed(served + [response], served');
  }

  lemma LastIsServed(responses: seq<string>, served: seq<string>)
    requires responses != [] && |served| == |responses|
    requires OnlyAdds(responses[..|responses| - 1], served, responses[|responses| - 1])
    ensures served == responses
  {
    var n := |responses| - 1;
    forall i | 0 <= i < |served|
      ensures served[i] == responses[i]
    {
      if i < n {
        assert served[..n][i] == responses[..n][i];
      }
    }
  }

  /**
   For every segment size and every sequence of non-empty requests and responses, some run exchanges
   exactly these, in this order, and leaves the node at rest.
   */
  lemma EverySequenceHappens(cap: Capacity, requests: seq<string>, responses: seq<string>)
    returns (states: seq<State>, actions: seq<Action>)
    requires |requests| == |responses| && "" !in requests && "" !in responses
    ensures IsRun(cap, states, actions) && AtRest(states[|actions|])
    ensures states[|actions|].log == Exchanges(requests, responses)
  {
    var s := SessionsHappen(cap, requests, responses);
    ReachedKeepsInv(cap, s, requests, responses);
    LogIs(s, requests, responses);
    states, actions :| EndsIn(cap, states, actions, s, requests, responses);
  }

  lemma LogIs(s: State, requests: seq<string>, responses: seq<string>)
    requires |requests| == |responses| && Matched(s, requests, responses) && AtRest(s) && AllEarly(s, false)
    requires forall e :: e in s.log ==> e.got == e.response && (!e.early ==> e.line == e.request)
    ensures s.log == Exchanges(requests, responses)
  {
    forall i | 0 <= i < |s.log|
      ensures s.log[i] == Exchanges(requests, responses)[i]
    {
      assert Requests(s.log)[i] == requests[i] && Responses(s.log)[i] == responses[i];
      assert s.log[i] in s.log;
    }
  }

  // ---- A request that loses its start ----

  /** The polling loop finds the posted request */
  lemma PollFinds(cap: Capacity, s: State, claimed: seq<string>, served: seq<string>) returns (end: State)
    requires Reached(cap, s, claimed, served) && |s.x.mem| == cap && s.w == Pooled
    requires s.m == Polling && s.proxyState == WaitingInitSrvr && s.serverState == Idle
    ensures Reached(cap, end, claimed, served) && end == s.(m := Claiming)
  {
    assert claimed + [] == claimed && served + [] == served;
    end := Then(cap, s, claimed, served, PollMoves);
    end := Then(cap, end, claimed, served, PollMoves);
  }

  /** and queues a token, */
  lemma PollQueues(cap: Capacity, s: State, claimed: seq<string>, served: seq<string>) returns (end: State)
    requires Reached(cap, s, claimed, served) && |s.x.mem| == cap && s.w == Pooled && s.m == Claiming
    ensures Reached(cap, end, claimed, served)
    ensures end == s.(m := Polling, serverState := Busy, tokens := s.tokens + 1)
  {
    assert claimed + [] == claimed && served + [] == served;
    end := Then(cap, s, claimed, served, PollMoves);
    end := Then(cap, end, claimed, served, PollMoves);
  }

  /** and a worker takes it and stores WAITING_CONT_PRXY. */
  lemma WorkerGreets(cap: Capacity, s: State, claimed: seq<string>, served: seq<string>) returns (end: State)
    requires Reached(cap, s, claimed, served) && |s.x.mem| == cap && s.w == Pooled
    requires s.tokens == 1 && s.proxyState == WaitingInitSrvr
    ensures Reached(cap, end, claimed, served)
    ensures end == s.(serverState := WaitingContPrxy, tokens := 0, w := Entering)
  {
    assert claimed + [] == claimed && served + [] == served;
    end := Then(cap, s, claimed, served, WorkerMoves);
    end := Then(cap, end, claimed, served, WorkerMoves);
    end := Then(cap, end, claimed, served, WorkerMoves);
  }

  /** If that comes before the proxy's test, the proxy does not wait. */
  lemma OpensEarly(cap: Capacity, request: string) returns (end: State)
    requires request != ""
    ensures Reached(cap, end, [request], []) && UnderWay(end, true)
  {
    var s := Begins(cap);
    ReachedKeepsInv(cap, s, [], []);
    assert [] + [request] == [request];
    end := Posts(cap, s, [], [], request);
    end := PollFinds(cap, end, [request], []);
    end := PollQueues(cap, end, [request], []);
    end := WorkerGreets(cap, end, [request], []);
    assert [request] + [] == [request];
    end := Then(cap, end, [request], [], ProxyMoves);
  }

  /**
   For every segment size, every request that needs more than one segment can lose its first segment, and
   nothing else: some run exchanges it so, with any response.
   */
  lemma EveryLongRequestCanLoseItsStart(cap: Capacity, request: string, response: string)
    returns (states: seq<State>, actions: seq<Action>)
    requires |request| > cap && response != ""
    ensures IsRun(cap, states, actions) && Uncrashed(states)
    ensures states[|actions|].log == [Exchange(request, request[cap..], response, response, true)]
  {
    var s := OpensEarly(cap, request);
    var served;
    s, served := Finishes(cap, s, [request], [], [], response, true);
    ReachedKeepsInv(cap, s, [request], served);
    LastIsServed([response], served);
    states, actions :| EndsIn(cap, states, actions, s, [request], served);
    OneExchange(cap, states, actions, s, request, response);
  }

  lemma OneExchange(cap: Capacity, states: seq<State>, actions: seq<Action>, s: State,
                    request: string, response: string)
    requires EndsIn(cap, states, actions, s, [request], [response]) && AtRest(s) && AllEarly(s, true)
    requires |request| > cap
    ensures s.log == [Exchange(request, request[cap..], response, response, true)]
  {
    ExchangesPair(cap, states, actions);
    assert Requests(s.log) + [] == Requests(s.log) && Responses(s.log) + [] == Responses(s.log);
    OnlyOne(s.log, request, response);
    SessionsDeliver(cap, states, actions, |actions|, s.log[0]);
  }

  lemma OnlyOne(log: seq<Exchange>, request: string, response: string)
    requires Requests(log) == [request] && Responses(log) == [response]
    ensures |log| == 1 && log[0].request == request && log[0].response == response && log[0] in log
  {
    assert |log| == |Requests(log)|;
    assert log[0].request == Requests(log)[0] && log[0].response == Responses(log)[0];
  }
}
