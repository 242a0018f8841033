/**
 The shared-memory protocol does not get stuck: no deadlock, no lost wakeup, and every session
 ends.
 */
module SharedLiveness {
  import opened SharedProtocol
  import opened SharedInvariant

  // ---- The poll that comes too late ----

  /**
   The polling loop finds `serverState` IDLE (server.c:151) for a request that `findState` saw
   earlier (server.c:150) but that has been answered meanwhile.
   */
  predicate StalePass(s: State, a: Action) {
    a == PollMoves && s.m == Probing && s.serverState == Idle && s.proxyState != WaitingInitSrvr
  }

  /** A token, or a worker that has just taken one, belongs to a posted request. */
  ghost predicate TokenIsFresh(s: State) {
    s.m == Claiming || s.m == Queueing || s.tokens > 0 || s.w == Finding || s.w == Greeting ==>
      s.p == Testing || s.p == ReadyAsleep
  }

  /** Without a stale pass, `findState` at server.c:246 cannot fail. */
  lemma NoCrashStep(cap: Capacity, s: State, a: Action)
    requires Inv(cap, s) && TokenIsFresh(s) && Enabled(s, a) && !StalePass(s, a)
    ensures Inv(cap, Do(cap, s, a)) && TokenIsFresh(Do(cap, s, a))
  {
    StepKeeps(cap, s, a);
    TokenStaysFresh(cap, s, a);
  }

  lemma TokenStaysFresh(cap: Capacity, s: State, a: Action)
    requires Inv(cap, s) && TokenIsFresh(s) && Enabled(s, a) && !StalePass(s, a)
    ensures TokenIsFresh(Do(cap, s, a)) && Do(cap, s, a).w != WorkerCrashed
  {
    match a
    case Claim(_) =>
    case ProxyMoves => TokenSurvivesProxy(cap, s);
    case WorkerMoves => TokenSurvivesWorker(cap, s);
    case Serve(_) =>
    case PollMoves => assert s.w == Pooled ==> BeforeContact(cap, s.p, s.w, s.x);
  }

  lemma TokenSurvivesProxy(cap: Capacity, s: State)
    requires ControlInv(cap, s) && TokenIsFresh(s) && ProxyEnabled(s)
    ensures TokenIsFresh(ProxyStep(cap, s)) && ProxyStep(cap, s).w != WorkerCrashed
  {
  }

  lemma TokenSurvivesWorker(cap: Capacity, s: State)
    requires ControlInv(cap, s) && TokenIsFresh(s) && WorkerEnabled(s)
    ensures TokenIsFresh(WorkerStep(cap, s)) && WorkerStep(cap, s).w != WorkerCrashed
  {
  }

  // ---- No deadlock ----

  /** A poll that finds nothing to do. */
  predicate IdlePoll(s: State, a: Action) {
    && a == PollMoves && s.m != Claiming && s.m != Queueing
    && !(s.proxyState == WaitingInitSrvr && s.serverState == Idle)
  }

  /** While a session, a token or a worker is under way, some party other than an idle poll can move. */
  lemma NeverStuck(cap: Capacity, s: State)
    requires Inv(cap, s)
    requires s.p != Away || s.w != Pooled || s.tokens > 0
    ensures exists a :: Enabled(s, a) && !IdlePoll(s, a)
  {
    if s.w == Serving {
      assert Enabled(s, Serve("r")) && !IdlePoll(s, Serve("r"));
    } else if ProxyEnabled(s) {
      assert Enabled(s, ProxyMoves) && !IdlePoll(s, ProxyMoves);
    } else if WorkerEnabled(s) {
      assert Enabled(s, WorkerMoves) && !IdlePoll(s, WorkerMoves);
    } else {
      assert JointInv(cap, s.p, s.w, s.x);
      assert Enabled(s, PollMoves) && !IdlePoll(s, PollMoves);
    }
  }

  // ---- Every session ends ----

  /** The steps before proxy and worker meet: a previous worker leaves, then the request is polled. */
  function Approach(w: WorkerPc, m: PollPc, tokens: nat): nat {
    match w
    case Reply(f) => if f.pc == Woken then 20 else 19
    case Releasing => 18
    case Resetting => 17
    case Finding => 5
    case Greeting => 4
    case Entering => 3
    case Hailing => 2
    case _ =>
      if tokens > 0 then 6 else
      match m
      case Polling => 10
      case Probing => 9
      case Claiming => 8
      case Queueing => 7
  }

  /** Where a caller of `sendShared` stands in its loop. */
  function SendTurn(pc: SendPc, finished: bool): nat {
    match pc
    case Mark => 18
    case Signal => 17
    case Wait => 16
    case Asleep => 15
    case Woken => 14
    case Role => 14
    case Loop => if finished then 16 else 13
    case Map => 12
    case Done => 0
  }

  predicate Announcing(pc: SendPc) {
    pc == Mark || pc == Signal
  }

  function RequestTurn(p: ProxyPc, w: WorkerPc, request: string): nat {
    (match p
     case ReadyWoken => 15
     case Request(f) => SendTurn(f.pc, f.sent == |request|)
     case Awaiting => 11
     case ReplyAsleep => 10
     case _ => 9)
    +
    (match w
     case Entering => 20
     case Hailing => 19
     case ChunkAsleep => if p.Request? && Announcing(p.f.pc) then 18 else 11
     case ChunkWoken => 17
     case Expecting => if p == ReplyWoken then 17 else 12
     case Taking => 16
     case Choosing => 15
     case Prompting => 14
     case Checking => 13
     case Engaging => 10
     case _ => 9)
  }

  function ReplyTurn(p: ProxyPc, f: Frame): nat {
    SendTurn(f.pc, false)
    +
    (match p
     case ReplyAsleep => if Announcing(f.pc) then 18 else 12
     case ReplyWoken => 17
     case Reading => 16
     case Acking => 15
     case Repeating => 14
     case Awaiting => 13
     case _ => 11)
  }

  function Unsent(p: ProxyPc, request: string): nat {
    match p
    case ReadyWoken => |request|
    case Request(f) => if f.sent <= |request| then |request| - f.sent else 0
    case _ => 0
  }

  predicate BeforeMeeting(p: ProxyPc) {
    p == Locking || p == Posting || p == Testing || p == ReadyAsleep
  }

  /** How far a session in progress is from its end: first the stage, then the rest of the stage. */
  function Rank(p: ProxyPc, w: WorkerPc, m: PollPc, tokens: nat, x: Transfer): (nat, nat) {
    if BeforeMeeting(p) then
      (3, Approach(w, m, tokens) + match p case Locking => 3 case Posting => 2 case Testing => 1 case _ => 0)
    else if p == Leaving then (0, Approach(w, m, tokens))
    else if w.Reply? then
      (1, (if w.f.sent <= |x.response| then 20 * (|x.response| - w.f.sent) else 0) + ReplyTurn(p, w.f))
    else (2, 20 * Unsent(p, x.request) + RequestTurn(p, w, x.request))
  }

  function RankOf(s: State): (nat, nat) {
    Rank(s.p, s.w, s.m, s.tokens, s.x)
  }

  ghost predicate Below(a: (nat, nat), b: (nat, nat)) {
    a.0 < b.0 || (a.0 == b.0 && a.1 < b.1)
  }

  ghost predicate AtMost(a: (nat, nat), b: (nat, nat)) {
    a == b || Below(a, b)
  }

  lemma ProxyAdvances(cap: Capacity, s: State)
    requires Inv(cap, s) && ProxyEnabled(s)
    ensures var s' := ProxyStep(cap, s); s'.p == Away || Below(RankOf(s'), RankOf(s))
  {
    if s.p.Request? {
      ProxySendAdvances(cap, s);
    } else if BeforeMeeting(s.p) {
      ProxyMeetingAdvances(cap, s);
    } else {
      ProxyReplyAdvances(cap, s);
    }
  }

  lemma ProxyMeetingAdvances(cap: Capacity, s: State)
    requires Inv(cap, s) && ProxyEnabled(s) && BeforeMeeting(s.p)
    ensures var s' := ProxyStep(cap, s); Below(RankOf(s'), RankOf(s))
  {
  }

  lemma ProxyReplyAdvances(cap: Capacity, s: State)
    requires Inv(cap, s) && ProxyEnabled(s) && !BeforeMeeting(s.p) && !s.p.Request?
    ensures var s' := ProxyStep(cap, s); s'.p == Away || Below(RankOf(s'), RankOf(s))
  {
  }

  lemma ProxySendAdvances(cap: Capacity, s: State)
    requires Inv(cap, s) && ProxyEnabled(s) && s.p.Request?
    ensures var s' := ProxyStep(cap, s); Below(RankOf(s'), RankOf(s))
  {
    if Announcing(s.p.f.pc) {
      ProxySignalAdvances(cap, s);
    } else {
      ProxyCopyAdvances(cap, s);
    }
  }

  lemma ProxySignalAdvances(cap: Capacity, s: State)
    requires Inv(cap, s) && ProxyEnabled(s) && s.p.Request? && Announcing(s.p.f.pc)
    ensures var s' := ProxyStep(cap, s); Below(RankOf(s'), RankOf(s))
  {
  }

  lemma ProxyCopyAdvances(cap: Capacity, s: State)
    requires Inv(cap, s) && ProxyEnabled(s) && s.p.Request? && !Announcing(s.p.f.pc)
    ensures var s' := ProxyStep(cap, s); Below(RankOf(s'), RankOf(s))
  {
  }

  lemma WorkerAdvances(cap: Capacity, s: State)
    requires Inv(cap, s) && WorkerEnabled(s) && s.p != Away && WorkerStep(cap, s).w != WorkerCrashed
    ensures var s' := WorkerStep(cap, s); s'.p != Away && Below(RankOf(s'), RankOf(s))
  {
    if s.w.Reply? {
      WorkerSendAdvances(cap, s);
    } else if BeforeMeeting(s.p) || s.p == Leaving {
      WorkerApproaches(cap, s);
    } else {
      WorkerCollectAdvances(cap, s);
    }
  }

  lemma WorkerSendAdvances(cap: Capacity, s: State)
    requires Inv(cap, s) && WorkerEnabled(s) && s.p != Away && s.w.Reply?
    ensures var s' := WorkerStep(cap, s); s'.p != Away && Below(RankOf(s'), RankOf(s))
  {
    if s.w.f.pc == Signal || s.w.f.pc == Mark {
      WorkerSignalAdvances(cap, s);
    } else {
      WorkerCopyAdvances(cap, s);
    }
  }

  lemma WorkerCopyAdvances(cap: Capacity, s: State)
    requires Inv(cap, s) && WorkerEnabled(s) && s.p != Away && s.w.Reply? && s.w.f.pc != Signal && s.w.f.pc != Mark
    ensures var s' := WorkerStep(cap, s); s'.p != Away && Below(RankOf(s'), RankOf(s))
  {
    if s.w.f.pc == Loop {
      WorkerLoopAdvances(cap, s);
    }
  }

  lemma WorkerLoopAdvances(cap: Capacity, s: State)
    requires Inv(cap, s) && WorkerEnabled(s) && s.p != Away && s.w.Reply? && s.w.f.pc == Loop
    ensures var s' := WorkerStep(cap, s); s'.p != Away && Below(RankOf(s'), RankOf(s))
  {
  }

  lemma WorkerSignalAdvances(cap: Capacity, s: State)
    requires Inv(cap, s) && s.p != Away && s.w.Reply? && (s.w.f.pc == Signal || s.w.f.pc == Mark)
    ensures var s' := WorkerStep(cap, s); s'.p != Away && Below(RankOf(s'), RankOf(s))
  {
  }

  lemma WorkerApproaches(cap: Capacity, s: State)
    requires Inv(cap, s) && WorkerEnabled(s) && (BeforeMeeting(s.p) || s.p == Leaving) && !s.w.Reply?
    requires WorkerStep(cap, s).w != WorkerCrashed
    ensures var s' := WorkerStep(cap, s); s'.p != Away && Below(RankOf(s'), RankOf(s))
  {
    if s.p == Leaving {
      WorkerLeavesAdvances(cap, s);
    } else {
      WorkerMeetsAdvances(cap, s);
    }
  }

  lemma WorkerLeavesAdvances(cap: Capacity, s: State)
    requires Inv(cap, s) && WorkerEnabled(s) && s.p == Leaving && !s.w.Reply?
    requires WorkerStep(cap, s).w != WorkerCrashed
    ensures var s' := WorkerStep(cap, s); s'.p != Away && Below(RankOf(s'), RankOf(s))
  {
    assert BeforeContact(cap, s.p, s.w, s.x);
  }

  lemma WorkerMeetsAdvances(cap: Capacity, s: State)
    requires Inv(cap, s) && WorkerEnabled(s) && BeforeMeeting(s.p) && !s.w.Reply?
    requires WorkerStep(cap, s).w != WorkerCrashed
    ensures var s' := WorkerStep(cap, s); s'.p != Away && Below(RankOf(s'), RankOf(s))
  {
    assert BeforeContact(cap, s.p, s.w, s.x);
  }

  lemma WorkerCollectAdvances(cap: Capacity, s: State)
    requires Inv(cap, s) && WorkerEnabled(s) && !(BeforeMeeting(s.p) || s.p == Leaving || s.p == Away) && !s.w.Reply?
    ensures var s' := WorkerStep(cap, s); s'.p != Away && Below(RankOf(s'), RankOf(s))
  {
    if s.p.Request? {
      WorkerTakesAdvances(cap, s);
    } else {
      assert JointInv(cap, s.p, s.w, s.x);
    }
  }

  lemma WorkerTakesAdvances(cap: Capacity, s: State)
    requires Inv(cap, s) && WorkerEnabled(s) && s.p.Request? && !s.w.Reply?
    ensures var s' := WorkerStep(cap, s); s'.p != Away && Below(RankOf(s'), RankOf(s))
  {
    if s.p.f.pc == Asleep {
      WorkerAnswersAdvances(cap, s);
    } else {
      WorkerWaitsAdvances(cap, s);
    }
  }

  lemma WorkerAnswersAdvances(cap: Capacity, s: State)
    requires Inv(cap, s) && WorkerEnabled(s) && s.p.Request? && s.p.f.pc == Asleep
    ensures var s' := WorkerStep(cap, s); s'.p != Away && Below(RankOf(s'), RankOf(s))
  {
    assert InRequest(cap, s.w, s.x, s.p.f);
  }

  lemma WorkerWaitsAdvances(cap: Capacity, s: State)
    requires Inv(cap, s) && WorkerEnabled(s) && s.p.Request? && s.p.f.pc != Asleep
    ensures var s' := WorkerStep(cap, s); s'.p != Away && Below(RankOf(s'), RankOf(s))
  {
    assert InRequest(cap, s.w, s.x, s.p.f);
  }

  lemma PollAdvances(cap: Capacity, s: State)
    requires Inv(cap, s) && s.p != Away
    ensures var s' := PollStep(s);
      if IdlePoll(s, PollMoves) then AtMost(RankOf(s'), RankOf(s)) else Below(RankOf(s'), RankOf(s))
  {
    if IdlePoll(s, PollMoves) {
      IdlePollStays(cap, s);
    } else {
      PollApproaches(cap, s);
    }
  }

  lemma IdlePollStays(cap: Capacity, s: State)
    requires Inv(cap, s) && s.p != Away && IdlePoll(s, PollMoves)
    ensures AtMost(RankOf(PollStep(s)), RankOf(s))
  {
  }

  lemma PollApproaches(cap: Capacity, s: State)
    requires Inv(cap, s) && s.p != Away && !IdlePoll(s, PollMoves)
    ensures Below(RankOf(PollStep(s)), RankOf(s))
  {
  }

  lemma ServeAdvances(cap: Capacity, s: State, response: string)
    requires Inv(cap, s) && s.w == Serving && response != ""
    ensures var s' := Do(cap, s, Serve(response)); s'.p != Away && Below(RankOf(s'), RankOf(s))
  {
    assert JointInv(cap, s.p, s.w, s.x);
  }

  lemma StepAdvances(cap: Capacity, s: State, a: Action)
    requires Inv(cap, s) && Enabled(s, a) && s.p != Away && Do(cap, s, a).w != WorkerCrashed
    ensures var s' := Do(cap, s, a);
      || s'.p == Away
      || if IdlePoll(s, a) then AtMost(RankOf(s'), RankOf(s)) else Below(RankOf(s'), RankOf(s))
  {
    match a
    case ProxyMoves => ProxyAdvances(cap, s);
    case WorkerMoves => WorkerAdvances(cap, s);
    case Serve(r) => ServeAdvances(cap, s, r);
    case PollMoves => PollAdvances(cap, s);
  }

  // ---- Infinite runs ----

  /** A run that goes on for ever. */
  ghost predicate IsEndlessRun(cap: Capacity, states: nat -> State, actions: nat -> Action) {
    && Init(cap, states(0))
    && forall n: nat :: Leads(cap, states(n), actions(n), states(n + 1))
  }

  ghost predicate NeverCrashes(states: nat -> State) {
    forall n: nat :: states(n).w != WorkerCrashed
  }

  /** The polling loop is never so slow that it passes a stale request. */
  ghost predicate NeverStale(states: nat -> State, actions: nat -> Action) {
    forall n: nat :: !StalePass(states(n), actions(n))
  }

  /** During a session, the scheduler does not run idle polls for ever. */
  ghost predicate NotOnlyPolls(states: nat -> State, actions: nat -> Action) {
    forall n: nat :: states(n).p != Away ==> exists k: nat :: n <= k && !IdlePoll(states(k), actions(k))
  }

  lemma {:induction false} EndlessRunKeepsInv(cap: Capacity, states: nat -> State, actions: nat -> Action, n: nat)
    requires IsEndlessRun(cap, states, actions) && NeverCrashes(states)
    ensures Inv(cap, states(n))
  {
    if n == 0 {
      assert Init(cap, states(0));
    } else {
      EndlessRunKeepsInv(cap, states, actions, n - 1);
      assert Leads(cap, states(n - 1), actions(n - 1), states(n - 1 + 1));
      StepKeeps(cap, states(n - 1), actions(n - 1));
    }
  }

  lemma {:induction false} FreshRunStaysFresh(cap: Capacity, states: nat -> State, actions: nat -> Action, n: nat)
    requires IsEndlessRun(cap, states, actions) && NeverStale(states, actions)
    ensures Inv(cap, states(n)) && TokenIsFresh(states(n))
  {
    if n == 0 {
      assert Init(cap, states(0));
    } else {
      FreshRunStaysFresh(cap, states, actions, n - 1);
      assert Leads(cap, states(n - 1), actions(n - 1), states(n - 1 + 1));
      NoCrashStep(cap, states(n - 1), actions(n - 1));
    }
  }

  /** A run without a stale poll is one of those that never crash. */
  lemma FreshRunNeverCrashes(cap: Capacity, states: nat -> State, actions: nat -> Action)
    requires IsEndlessRun(cap, states, actions) && NeverStale(states, actions)
    ensures NeverCrashes(states)
  {
    forall n: nat
      ensures states(n).w != WorkerCrashed
    {
      FreshRunStaysFresh(cap, states, actions, n);
    }
  }

  /**
   From `s` to `s'` the session in progress in `s` has been recorded: one exchange more, with its
   request, and with the whole response forwarded.
   */
  ghost predicate Recorded(cap: Capacity, s: State, s': State) {
    if s.p == Away || s.p == Leaving then s'.log == s.log
    else
      && |s'.log| == |s.log| + 1 && s'.log[..|s.log|] == s.log
      && s'.log[|s.log|].request == s.x.request && Faithful(cap, s'.log[|s.log|])
  }

  /** What is recorded after a step is recorded before it. */
  lemma StepRecords(cap: Capacity, s: State, a: Action, s': State, end: State)
    requires Inv(cap, s) && Inv(cap, s') && Leads(cap, s, a, s') && s.p != Away && Recorded(cap, s', end)
    ensures Recorded(cap, s, end)
  {
    if a == ProxyMoves && s.p == Unlocking {
      UnlockingRecords(cap, s, end);
    } else {
      OnlyUnlockingLogs(cap, s, a);
      SameSessionRecords(cap, s, s', end);
    }
  }

  lemma SameSessionRecords(cap: Capacity, s: State, s': State, end: State)
    requires SameSession(s, s') && s.p != Away && Recorded(cap, s', end)
    ensures Recorded(cap, s, end)
  {
  }

  lemma UnlockingRecords(cap: Capacity, s: State, end: State)
    requires s.p == Unlocking && |s.x.mem| == cap && Inv(cap, ProxyStep(cap, s))
    requires end.log == ProxyStep(cap, s).log
    ensures Recorded(cap, s, end)
  {
    var s' := ProxyStep(cap, s);
    assert s'.log[|s.log|] in s'.log;
  }

  lemma OnlyUnlockingLogs(cap: Capacity, s: State, a: Action)
    requires |s.x.mem| == cap && Enabled(s, a) && s.p != Away && !(a == ProxyMoves && s.p == Unlocking)
    ensures SameSession(s, Do(cap, s, a))
  {
    match a
    case ProxyMoves => ProxyLogsNothing(cap, s);
    case WorkerMoves => WorkerLogsNothing(cap, s);
    case _ =>
  }

  ghost predicate SameSession(s: State, s': State) {
    && s'.log == s.log && s'.x.request == s.x.request
    && (s'.p == Away || s'.p == Leaving <==> s.p == Leaving)
  }

  lemma ProxyLogsNothing(cap: Capacity, s: State)
    requires |s.x.mem| == cap && ProxyEnabled(s) && s.p != Unlocking
    ensures SameSession(s, ProxyStep(cap, s))
  {
  }

  lemma WorkerLogsNothing(cap: Capacity, s: State)
    requires |s.x.mem| == cap && WorkerEnabled(s) && s.p != Away
    ensures SameSession(s, WorkerStep(cap, s))
  {
  }

  // ---- Going down a rank ----

  /** Unless the goal is reached, a step goes down, or stays when it is idle. */
  ghost predicate GoesDown(rank: nat -> (nat, nat), idle: nat -> bool, done: nat -> bool, i: nat) {
    done(i) || done(i + 1) || if idle(i) then AtMost(rank(i + 1), rank(i)) else Below(rank(i + 1), rank(i))
  }

  /** Before the goal is reached, a step that is not idle is still to come. */
  ghost predicate GoesOn(idle: nat -> bool, done: nat -> bool, i: nat) {
    done(i) || exists k: nat :: i <= k && !idle(k)
  }

  /** A rank cannot go down for ever: the goal is reached, for the first time at `end`. */
  lemma {:induction false} ReachesGoal(rank: nat -> (nat, nat), idle: nat -> bool, done: nat -> bool, n: nat, k: nat)
    returns (end: nat)
    requires forall i: nat :: GoesDown(rank, idle, done, i) && GoesOn(idle, done, i)
    requires done(n) || (n <= k && !idle(k))
    ensures n <= end && done(end) && forall i :: n <= i < end ==> !done(i)
    decreases rank(n).0, rank(n).1, k - n
  {
    if done(n) {
      return n;
    }
    assert GoesDown(rank, idle, done, n);
    if done(n + 1) {
      return n + 1;
    }
    var k' := k;
    if !idle(n) {
      assert GoesOn(idle, done, n + 1);
      k' :| n + 1 <= k' && !idle(k');
    }
    end := ReachesGoal(rank, idle, done, n + 1, k');
  }

  /** The first goal from `n` on. */
  lemma GoalIsReached(rank: nat -> (nat, nat), idle: nat -> bool, done: nat -> bool, n: nat) returns (end: nat)
    requires forall i: nat :: GoesDown(rank, idle, done, i) && GoesOn(idle, done, i)
    ensures n <= end && done(end) && forall i :: n <= i < end ==> !done(i)
  {
    var k := n;
    if !done(n) {
      assert GoesOn(idle, done, n);
      k :| n <= k && !idle(k);
    }
    end := ReachesGoal(rank, idle, done, n, k);
  }

  // ---- Every session ends ----

  lemma SessionGoesDown(cap: Capacity, s: State, a: Action, s': State)
    requires Inv(cap, s) && Leads(cap, s, a, s') && s'.w != WorkerCrashed && s.p != Away && s'.p != Away
    ensures if IdlePoll(s, a) then AtMost(RankOf(s'), RankOf(s)) else Below(RankOf(s'), RankOf(s))
  {
    StepAdvances(cap, s, a);
  }

  lemma {:induction false} RunRecords(cap: Capacity, states: nat -> State, actions: nat -> Action, n: nat, end: nat)
    requires IsEndlessRun(cap, states, actions) && NeverCrashes(states)
    requires n <= end && states(end).p == Away && forall i :: n <= i < end ==> states(i).p != Away
    ensures Recorded(cap, states(n), states(end))
    decreases end - n
  {
    if n < end {
      RunRecords(cap, states, actions, n + 1, end);
      EndlessRunKeepsInv(cap, states, actions, n);
      EndlessRunKeepsInv(cap, states, actions, n + 1);
      StepRecords(cap, states(n), actions(n), states(n + 1), states(end));
    }
  }

  /** Every session that is claimed ends: the proxy thread leaves the node, its exchange recorded. */
  lemma SessionEnds(cap: Capacity, states: nat -> State, actions: nat -> Action, n: nat) returns (end: nat)
    requires IsEndlessRun(cap, states, actions) && NeverCrashes(states) && NotOnlyPolls(states, actions)
    ensures n <= end && states(end).p == Away && Recorded(cap, states(n), states(end))
  {
    var rank := (i: nat) => RankOf(states(i));
    var idle := (i: nat) => IdlePoll(states(i), actions(i));
    var done := (i: nat) => states(i).p == Away;
    forall i: nat
      ensures GoesDown(rank, idle, done, i) && GoesOn(idle, done, i)
    {
      if states(i).p != Away {
        var k: nat :| i <= k && !IdlePoll(states(k), actions(k));
        assert !idle(k);
        if states(i + 1).p != Away {
          EndlessRunKeepsInv(cap, states, actions, i);
          SessionGoesDown(cap, states(i), actions(i), states(i + 1));
        }
      }
    }
    end := GoalIsReached(rank, idle, done, n);
    forall i: nat | n <= i < end
      ensures states(i).p != Away
    {
      assert !done(i);
    }
    RunRecords(cap, states, actions, n, end);
  }

  // ---- The worker leaves as well ----

  /** Nobody is using the node. */
  predicate AtRest(s: State) {
    s.p == Away && s.w == Pooled && s.serverState == Idle
  }

  /** While the node is in use, the scheduler does not run idle polls for ever. */
  ghost predicate NotOnlyPollsInUse(states: nat -> State, actions: nat -> Action) {
    forall n: nat :: !AtRest(states(n)) ==> exists k: nat :: n <= k && !IdlePoll(states(k), actions(k))
  }

  function ApproachOf(s: State): nat {
    Approach(s.w, s.m, s.tokens)
  }

  lemma LeaverAdvances(cap: Capacity, s: State, a: Action, s': State)
    requires Inv(cap, s) && Leads(cap, s, a, s') && s.p == Away && !AtRest(s) && s'.p == Away && s'.w != WorkerCrashed
    ensures ApproachOf(s') <= ApproachOf(s)
    ensures !IdlePoll(s, a) ==> ApproachOf(s') < ApproachOf(s)
  {
    assert BeforeContact(cap, s.p, s.w, s.x);
  }

  /** After a session the node comes to rest, with `serverState` IDLE, unless a new request is claimed before. */
  lemma NodeRests(cap: Capacity, states: nat -> State, actions: nat -> Action, n: nat) returns (end: nat)
    requires IsEndlessRun(cap, states, actions) && NeverCrashes(states) && NotOnlyPollsInUse(states, actions)
    requires states(n).p == Away
    ensures n <= end && (states(end).p != Away || AtRest(states(end)))
  {
    var rank := (i: nat) => (0, ApproachOf(states(i)));
    var idle := (i: nat) => IdlePoll(states(i), actions(i));
    var done := (i: nat) => states(i).p != Away || AtRest(states(i));
    forall i: nat
      ensures GoesDown(rank, idle, done, i) && GoesOn(idle, done, i)
    {
      if !done(i) {
        var k: nat :| i <= k && !IdlePoll(states(k), actions(k));
        assert !idle(k);
        if !done(i + 1) {
          EndlessRunKeepsInv(cap, states, actions, i);
          LeaverAdvances(cap, states(i), actions(i), states(i + 1));
        }
      }
    }
    end := GoalIsReached(rank, idle, done, n);
  }
}
