/**
 What the shared-memory protocol delivers: statements about every run, whatever the interleaving,
 the segment size and the messages.
 */
module SharedDelivery {
  import opened SharedProtocol
  import opened SharedInvariant

  /** The server has not dereferenced the NULL of a failed `findState`. */
  ghost predicate Uncrashed(states: seq<State>) {
    forall i :: 0 <= i < |states| ==> states[i].w != WorkerCrashed
  }

  lemma {:induction false} RunKeepsInv(cap: Capacity, states: seq<State>, actions: seq<Action>)
    requires IsRun(cap, states, actions) && Uncrashed(states)
    ensures forall i :: 0 <= i < |states| ==> Inv(cap, states[i])
    decreases |actions|
  {
    if |actions| == 0 {
      InitHolds(cap, states[0]);
    } else {
      var n := |actions| - 1;
      PrefixIsRun(cap, states, actions, n);
      RunKeepsInv(cap, states[..n + 1], actions[..n]);
      assert Inv(cap, states[..n + 1][n]);
      assert Leads(cap, states[n], actions[n], states[n + 1]);
      StepKeeps(cap, states[n], actions[n]);
      forall i | 0 <= i < |states|
        ensures Inv(cap, states[i])
      {
        if i <= n {
          assert states[i] == states[..n + 1][i];
        }
      }
    }
  }

  lemma InitHolds(cap: Capacity, s: State)
    requires Init(cap, s)
    ensures Inv(cap, s)
  {
  }

  lemma PrefixIsRun(cap: Capacity, states: seq<State>, actions: seq<Action>, n: nat)
    requires IsRun(cap, states, actions) && n <= |actions|
    ensures IsRun(cap, states[..n + 1], actions[..n])
  {
    forall i | 0 <= i < n
      ensures Leads(cap, states[..n + 1][i], actions[..n][i], states[..n + 1][i + 1])
    {
      assert Leads(cap, states[i], actions[i], states[i + 1]);
    }
  }

  // ---- Delivery ----

  /**
   In every interleaving and every session, the client is sent exactly the response the worker
   produced. The worker's `line` is exactly the request, unless the proxy found
   WAITING_CONT_PRXY at proxy.c:747 and its request needs more than one pass: then exactly the
   first segment is missing.
   */
  lemma SessionsDeliver(cap: Capacity, states: seq<State>, actions: seq<Action>, i: nat, e: Exchange)
    requires IsRun(cap, states, actions) && Uncrashed(states)
    requires i < |states| && e in states[i].log
    ensures e.got == e.response
    ensures e.line == e.request <==> !(e.early && |e.request| > cap)
    ensures e.early && |e.request| > cap ==> e.line == e.request[cap..]
  {
    RunKeepsInv(cap, states, actions);
    assert Faithful(cap, e);
  }

  /** What has been delivered of an unfinished session is a prefix of the response. */
  lemma PartialDelivery(cap: Capacity, states: seq<State>, actions: seq<Action>, i: nat)
    requires IsRun(cap, states, actions) && Uncrashed(states) && i < |states|
    requires states[i].w.Reply? && states[i].p != Away && states[i].p != Leaving && !BeforeRequest(states[i].p)
    ensures states[i].x.got <= states[i].x.response
  {
    RunKeepsInv(cap, states, actions);
    ReplyIsPartial(cap, states[i].p, states[i].w, states[i].x);
  }

  lemma ReplyIsPartial(cap: Capacity, p: ProxyPc, w: WorkerPc, x: Transfer)
    requires JointInv(cap, p, w, x) && w.Reply? && p != Away && p != Leaving && !BeforeRequest(p)
    ensures x.got <= x.response
  {
    var sent := w.f.sent;
    assert Pending(cap, x, sent) || Received(cap, x, sent) || x.got == "";
  }

  predicate BeforeRequest(p: ProxyPc) {
    p == Locking || p == Posting || p == Testing || p == ReadyAsleep || p == ReadyWoken
  }

  /**
   The worker's copy into `line` stays within the request, so a request that fits the buffer
   cannot overflow it.
   */
  lemma LineFits(cap: Capacity, states: seq<State>, actions: seq<Action>, i: nat)
    requires IsRun(cap, states, actions) && Uncrashed(states)
    requires i < |states| && states[i].w == Taking
    ensures |states[i].x.line| + states[i].x.spaceUsed <= |states[i].x.request|
  {
    RunKeepsInv(cap, states, actions);
    var s := states[i];
    assert Behind(cap, s.x, if s.p.Request? then s.p.f.sent else |s.x.request|);
    assert |s.x.line + Segment(s.x)| == |s.x.line| + s.x.spaceUsed;
  }

  // ---- Each pass is read once ----

  ghost predicate ReadsSegment(s: State, a: Action) {
    (a == ProxyMoves && s.p == Reading) || (a == WorkerMoves && s.w == Taking)
  }

  ghost predicate WritesSegment(s: State, a: Action) {
    || (a == ProxyMoves && s.p.Request? && s.p.f.pc == Map)
    || (a == WorkerMoves && s.w.Reply? && s.w.f.pc == Map)
  }

  /**
   A read finds a segment that was written and not read since. A write finds one that has been
   read, except for the second pass of a request whose proxy skipped its first wait. Whoever reads
   or writes holds the mutex, and `receiveShared` never returns NULL.
   */
  lemma SegmentReadOnce(cap: Capacity, states: seq<State>, actions: seq<Action>, i: nat)
    requires IsRun(cap, states, actions) && Uncrashed(states) && i < |actions|
    ensures ReadsSegment(states[i], actions[i]) ==> states[i].x.unread && states[i].x.spaceUsed > 0
    ensures WritesSegment(states[i], actions[i]) && states[i].x.unread ==>
              && actions[i] == ProxyMoves && states[i].x.early
              && states[i].p.f.sent == cap < |states[i].x.request|
    ensures ReadsSegment(states[i], actions[i]) || WritesSegment(states[i], actions[i]) ==>
              states[i].owner == if actions[i] == ProxyMoves then HeldByProxy else HeldByWorker
  {
    RunKeepsInv(cap, states, actions);
    assert Leads(cap, states[i], actions[i], states[i + 1]);
    if ReadsSegment(states[i], actions[i]) {
      ReadFindsNew(cap, states[i], actions[i]);
    } else if WritesSegment(states[i], actions[i]) {
      WriteFindsOld(cap, states[i], actions[i]);
    }
  }

  lemma ReadFindsNew(cap: Capacity, s: State, a: Action)
    requires Inv(cap, s) && Enabled(s, a) && ReadsSegment(s, a)
    ensures s.x.unread && s.x.spaceUsed > 0 && s.owner == if a == ProxyMoves then HeldByProxy else HeldByWorker
    ensures !WritesSegment(s, a)
  {
    assert JointInv(cap, s.p, s.w, s.x);
  }

  lemma WriteFindsOld(cap: Capacity, s: State, a: Action)
    requires Inv(cap, s) && Enabled(s, a) && WritesSegment(s, a)
    ensures s.x.unread ==> a == ProxyMoves && s.x.early && s.p.f.sent == cap < |s.x.request|
    ensures s.owner == if a == ProxyMoves then HeldByProxy else HeldByWorker
  {
    assert JointInv(cap, s.p, s.w, s.x);
  }

  // ---- Many sessions on one node ----

  function Requests(log: seq<Exchange>): (r: seq<string>)
    ensures |r| == |log|
  {
    seq(|log|, i requires 0 <= i < |log| => log[i].request)
  }

  function Responses(log: seq<Exchange>): (r: seq<string>)
    ensures |r| == |log|
  {
    seq(|log|, i requires 0 <= i < |log| => log[i].response)
  }

  /** The requests claimed, in order. */
  function Claimed(actions: seq<Action>): seq<string> {
    if actions == [] then []
    else
      var a := actions[|actions| - 1];
      Claimed(actions[..|actions| - 1]) + if a.Claim? then [a.request] else []
  }

  /** The responses produced by workers, in order. */
  function Served(actions: seq<Action>): seq<string> {
    if actions == [] then []
    else
      var a := actions[|actions| - 1];
      Served(actions[..|actions| - 1]) + if a.Serve? then [a.response] else []
  }

  predicate InSession(p: ProxyPc) {
    p != Away && p != Leaving
  }

  /** The worker is sending the response of the session the proxy is in. */
  predicate Replying(p: ProxyPc, w: WorkerPc) {
    w.Reply? && InSession(p) && !BeforeRequest(p) && !p.Request?
  }

  ghost predicate Matched(s: State, claimed: seq<string>, served: seq<string>) {
    && claimed == Requests(s.log) + (if InSession(s.p) then [s.x.request] else [])
    && served == Responses(s.log) + (if Replying(s.p, s.w) then [s.x.response] else [])
  }

  lemma StepMatches(cap: Capacity, s: State, a: Action, claimed: seq<string>, served: seq<string>)
    requires Inv(cap, s) && Enabled(s, a) && Matched(s, claimed, served)
    ensures Matched(Do(cap, s, a), claimed + (if a.Claim? then [a.request] else []),
                    served + (if a.Serve? then [a.response] else []))
  {
    if a == ProxyMoves && s.p == Unlocking {
      UnlockingMatches(cap, s, claimed, served);
    } else {
      match a {
        case ProxyMoves => ProxyKeepsPlace(cap, s);
        case WorkerMoves => WorkerKeepsPlace(cap, s);
        case _ => OthersKeepPlace(cap, s, a);
      }
      PlaceMatches(s, a, Do(cap, s, a), claimed, served);
    }
  }

  lemma UnlockingMatches(cap: Capacity, s: State, claimed: seq<string>, served: seq<string>)
    requires Inv(cap, s) && s.p == Unlocking && Matched(s, claimed, served)
    ensures Matched(ProxyStep(cap, s), claimed + [], served + [])
  {
    var s' := ProxyStep(cap, s);
    assert Replying(s.p, s.w);
    assert Requests(s'.log) == Requests(s.log) + [s.x.request];
    assert Responses(s'.log) == Responses(s.log) + [s.x.response];
  }

  lemma PlaceMatches(s: State, a: Action, s': State, claimed: seq<string>, served: seq<string>)
    requires Matched(s, claimed, served) && KeepsPlace(s, a, s')
    ensures Matched(s', claimed + (if a.Claim? then [a.request] else []),
                    served + (if a.Serve? then [a.response] else []))
  {
  }

  /** Only claiming, unlocking and serving change whose turn it is. */
  ghost predicate KeepsPlace(s: State, a: Action, s': State) {
    && InSession(s'.p) == (a.Claim? || InSession(s.p))
    && (a.Claim? ==> !InSession(s.p) && s'.x.request == a.request)
    && (!a.Claim? ==> s'.x.request == s.x.request)
    && Replying(s'.p, s'.w) == (a.Serve? || Replying(s.p, s.w))
    && (a.Serve? ==> !Replying(s.p, s.w) && s'.x.response == a.response)
    && (!a.Serve? ==> s'.x.response == s.x.response)
    && s'.log == s.log
  }

  lemma ProxyKeepsPlace(cap: Capacity, s: State)
    requires Inv(cap, s) && ProxyEnabled(s) && s.p != Unlocking
    ensures KeepsPlace(s, ProxyMoves, ProxyStep(cap, s))
  {
    if s.p.Request? {
      SendingKeepsPlace(cap, s);
    } else if BeforeRequest(s.p) {
      OpeningKeepsPlace(cap, s);
    } else {
      CollectingKeepsPlace(cap, s);
    }
  }

  lemma OpeningKeepsPlace(cap: Capacity, s: State)
    requires Inv(cap, s) && ProxyEnabled(s) && BeforeRequest(s.p)
    ensures KeepsPlace(s, ProxyMoves, ProxyStep(cap, s))
  {
    assert BeforeContact(cap, s.p, s.w, s.x);
  }

  lemma CollectingKeepsPlace(cap: Capacity, s: State)
    requires Inv(cap, s) && ProxyEnabled(s) && s.p != Unlocking && !s.p.Request? && !BeforeRequest(s.p)
    ensures KeepsPlace(s, ProxyMoves, ProxyStep(cap, s))
  {
  }

  lemma SendingKeepsPlace(cap: Capacity, s: State)
    requires Inv(cap, s) && ProxyEnabled(s) && s.p.Request?
    ensures KeepsPlace(s, ProxyMoves, ProxyStep(cap, s))
  {
    if ProxyStep(cap, s).p == Awaiting {
      assert InRequest(cap, s.w, s.x, s.p.f);
    }
  }

  lemma WorkerKeepsPlace(cap: Capacity, s: State)
    requires Inv(cap, s) && WorkerEnabled(s)
    ensures KeepsPlace(s, WorkerMoves, WorkerStep(cap, s))
  {
    if s.w.Reply? {
      ReplyingKeepsPlace(cap, s);
    } else {
      TakingKeepsPlace(cap, s);
    }
  }

  lemma ReplyingKeepsPlace(cap: Capacity, s: State)
    requires Inv(cap, s) && WorkerEnabled(s) && s.w.Reply?
    ensures KeepsPlace(s, WorkerMoves, WorkerStep(cap, s))
  {
  }

  lemma TakingKeepsPlace(cap: Capacity, s: State)
    requires Inv(cap, s) && WorkerEnabled(s) && !s.w.Reply?
    ensures KeepsPlace(s, WorkerMoves, WorkerStep(cap, s))
  {
  }

  lemma OthersKeepPlace(cap: Capacity, s: State, a: Action)
    requires Inv(cap, s) && Enabled(s, a) && (a.Claim? || a.Serve? || a == PollMoves)
    ensures KeepsPlace(s, a, Do(cap, s, a))
  {
  }

  /**
   Over any number of back-to-back sessions, the k-th finished exchange pairs the k-th request
   claimed with the k-th response produced.
   */
  lemma {:induction false} ExchangesPair(cap: Capacity, states: seq<State>, actions: seq<Action>)
    requires IsRun(cap, states, actions) && Uncrashed(states)
    ensures Matched(states[|actions|], Claimed(actions), Served(actions))
    decreases |actions|
  {
    if |actions| == 0 {
      InitHolds(cap, states[0]);
    } else {
      var n := |actions| - 1;
      PrefixIsRun(cap, states, actions, n);
      ExchangesPair(cap, states[..n + 1], actions[..n]);
      RunKeepsInv(cap, states, actions);
      assert Leads(cap, states[n], actions[n], states[n + 1]);
      StepMatches(cap, states[n], actions[n], Claimed(actions[..n]), Served(actions[..n]));
    }
  }

  /**
   `serverState` is non-IDLE exactly while one token is being queued, is queued or is served, and
   never two of these at once; a stale COMPLETE lets neither side of a new session pass early; and
   `sendShared` picks its caller's own flag.
   */
  lemma SessionsDoNotMix(cap: Capacity, states: seq<State>, actions: seq<Action>, i: nat)
    requires IsRun(cap, states, actions) && Uncrashed(states) && i < |states|
    ensures var s := states[i];
      && var posting := if s.m == Queueing then 1 else 0;
         var serving := if s.w != Pooled then 1 else 0;
         posting + s.tokens + serving == if s.serverState != Idle then 1 else 0
    ensures states[i].p == Testing && states[i].serverState == WaitingContPrxy ==>
              states[i].w == Entering
    ensures states[i].p == Awaiting ==> states[i].serverState == WaitingContPrxy
    ensures states[i].w == Expecting && states[i].proxyState == Complete ==>
              && states[i].x.early && states[i].x.request != "" && |states[i].x.request| <= cap
              && Segment(states[i].x) == states[i].x.request
    ensures states[i].p.Request? ==> states[i].proxyState != Complete || states[i].p.f.sent == |states[i].x.request|
    ensures states[i].p.Request? && states[i].p.f.pc != Role ==> !states[i].p.f.isServer
    ensures states[i].w.Reply? && states[i].w.f.pc != Role ==> states[i].w.f.isServer
  {
    RunKeepsInv(cap, states, actions);
    var s := states[i];
    assert JointInv(cap, s.p, s.w, s.x);
  }
}
