/**
 What every step of the shared-memory protocol keeps, over any number of back-to-back sessions.
 */
module SharedInvariant {
  import opened SharedProtocol

  // ---- Who holds the mutex, and what the flags say ----

  predicate Released(f: Frame) {
    f.pc == Asleep || f.pc == Woken
  }

  predicate ProxyHolds(p: ProxyPc) {
    match p
    case Posting | Testing | Awaiting | Reading | Acking | Repeating | Unlocking => true
    case Request(f) => !Released(f)
    case _ => false
  }

  predicate WorkerHolds(w: WorkerPc) {
    match w
    case Hailing | Expecting | Taking | Choosing | Prompting | Checking | Engaging | Serving | Releasing => true
    case Reply(f) => !Released(f)
    case _ => false
  }

  ghost predicate MutexInv(owner: Owner, p: ProxyPc, w: WorkerPc) {
    && (owner == HeldByProxy <==> ProxyHolds(p))
    && (owner == HeldByWorker <==> WorkerHolds(w))
  }

  /** The flag `sendShared` has left, given what it was on entry. */
  function FrameFlag(f: Frame, total: string, entry: Flag): Flag {
    match f.pc
    case Role => entry
    case Loop => if f.sent == 0 then entry else MarkOf(f, total)
    case Map | Mark => Busy
    case _ => MarkOf(f, total)
  }

  /** `proxyState` is a function of where the proxy is. */
  function ProxyFlag(p: ProxyPc, request: string): Flag {
    match p
    case Away | Locking | Posting => Idle
    case Testing | ReadyAsleep | ReadyWoken => WaitingInitSrvr
    case Request(f) => FrameFlag(f, request, WaitingInitSrvr)
    case _ => Complete
  }

  /** `serverState` is a function of the worker, the polling loop and the token. */
  function ServerFlag(w: WorkerPc, response: string, m: PollPc, tokens: nat): Flag {
    match w
    case Pooled => if m == Queueing || tokens > 0 then Busy else Idle
    case Finding | Greeting | Serving => Busy
    case Reply(f) => FrameFlag(f, response, Busy)
    case Releasing | Resetting => Complete
    case _ => WaitingContPrxy
  }

  /** At most one token is queued, being queued or being served. */
  ghost predicate TokenInv(w: WorkerPc, m: PollPc, tokens: nat) {
    && tokens <= 1
    && (tokens == 1 ==> m != Claiming && m != Queueing)
    && (w != Pooled ==> tokens == 0 && m != Claiming && m != Queueing)
  }

  ghost predicate FrameInv(f: Frame, total: string, isServer: bool) {
    && total != "" && f.sent <= |total| && f.pc != Done
    && (f.pc == Role ==> f.sent == 0)
    && (f.pc != Role ==> f.isServer == isServer)
    && (f.pc == Map ==> f.sent < |total|)
    && (f.pc == Mark || f.pc == Signal || f.pc == Wait || Released(f) ==> 0 < f.sent)
    && (!isServer && (f.pc == Wait || Released(f)) ==> f.sent < |total|)
  }

  ghost predicate FramesInv(p: ProxyPc, w: WorkerPc, request: string, response: string) {
    && (p.Request? ==> FrameInv(p.f, request, false))
    && (w.Reply? ==> FrameInv(w.f, response, true))
  }

  ghost predicate ControlInv(cap: Capacity, s: State) {
    && |s.x.mem| == cap && s.x.spaceUsed <= cap
    && s.w != WorkerCrashed && s.w != WorkerFatal && s.p != ProxyFatal
    && MutexInv(s.owner, s.p, s.w)
    && TokenInv(s.w, s.m, s.tokens)
    && s.proxyState == ProxyFlag(s.p, s.x.request)
    && s.serverState == ServerFlag(s.w, s.x.response, s.m, s.tokens)
    && FramesInv(s.p, s.w, s.x.request, s.x.response)
  }

  // ---- What has been transferred ----

  /** The bytes of the request that are overwritten before the worker reads them. */
  function Lost(cap: Capacity, early: bool, request: string): (n: nat)
    ensures n <= |request|
  {
    if early && |request| > cap then cap else 0
  }

  ghost predicate Caught(cap: Capacity, x: Transfer, sent: nat) {
    var lost := Lost(cap, x.early, x.request);
    lost <= sent <= |x.request| && x.line == x.request[lost..sent]
  }

  ghost predicate Behind(cap: Capacity, x: Transfer, sent: nat) {
    var lost := Lost(cap, x.early, x.request);
    && lost <= sent <= |x.request| && x.line + Segment(x) == x.request[lost..sent]
    && x.spaceUsed > 0 && x.unread
  }

  /** The first pass is in the segment and the worker has not yet taken the mutex. */
  ghost predicate Untaken(cap: Capacity, x: Transfer, sent: nat) {
    && x.early && x.request != "" && sent == PassEnd(cap, x.request, 0) && Segment(x) == x.request[..sent]
    && x.spaceUsed > 0 && x.unread
  }

  ghost predicate Received(cap: Capacity, x: Transfer, sent: nat) {
    && Caught(cap, x, |x.request|) && !x.unread
    && sent <= |x.response| && x.got == x.response[..sent]
  }

  ghost predicate Pending(cap: Capacity, x: Transfer, sent: nat) {
    && Caught(cap, x, |x.request|) && x.unread && x.spaceUsed > 0
    && sent <= |x.response| && x.got + Segment(x) == x.response[..sent]
  }

  /** A worker that only has to leave a session whose response has been read. */
  ghost predicate Finishing(w: WorkerPc, x: Transfer) {
    match w
    case Reply(f) => f.sent == |x.response| && (f.pc == Woken || f.pc == Loop)
    case Releasing | Resetting => true
    case _ => false
  }

  ghost predicate Fresh(x: Transfer) {
    x.request != "" && x.got == "" && !x.early && !x.unread
  }

  // ---- Where both parties can be at once, and what has been transferred there ----

  ghost predicate BeforeContact(cap: Capacity, p: ProxyPc, w: WorkerPc, x: Transfer) {
    match p
    case Away | Leaving => !x.unread && (w == Pooled || w == Finding || Finishing(w, x))
    case Locking | Posting => Fresh(x) && (w == Pooled || w == Finding || Finishing(w, x))
    case Testing => Fresh(x) && ((w == Pooled || w == Finding || w == Greeting || w == Entering) || Finishing(w, x))
    case ReadyAsleep =>
      && Fresh(x)
      && ((w == Pooled || w == Finding || w == Greeting || w == Entering || w == Hailing) || Finishing(w, x))
      && (w == Hailing ==> x.line == "")
    case ReadyWoken => Fresh(x) && (w == Expecting || w == ChunkAsleep) && x.line == ""
    case _ => false
  }

  ghost predicate InRequest(cap: Capacity, w: WorkerPc, x: Transfer, f: Frame) {
    && x.request != "" && x.got == ""
    && match f.pc
       case Role => !x.unread && StartOfRequest(w, x)
       case Loop =>
         if f.sent == 0 then !x.unread && StartOfRequest(w, x)
         else if f.sent == |x.request| then Posted(cap, w, x, f.sent)
         else w == ChunkAsleep && Between(cap, x, f.sent)
       case Map =>
         if f.sent == 0 then !x.unread && StartOfRequest(w, x)
         else w == ChunkAsleep && Between(cap, x, f.sent)
       case Mark | Signal =>
         || (w == ChunkAsleep && Behind(cap, x, f.sent))
         || (w == Entering && Untaken(cap, x, f.sent))
       case Wait => Posted(cap, w, x, f.sent)
       case Asleep =>
         || ((w == ChunkWoken || w == Taking) && Behind(cap, x, f.sent))
         || ((w == Choosing || w == Prompting) && Caught(cap, x, f.sent) && !x.unread)
         || ((w == Entering || w == Hailing) && Untaken(cap, x, f.sent) && (w == Hailing ==> x.line == ""))
       case Woken => (w == Checking || w == Expecting || w == ChunkAsleep) && Between(cap, x, f.sent)
       case Done => false
  }

  ghost predicate StartOfRequest(w: WorkerPc, x: Transfer) {
    || (w == ChunkAsleep && !x.early && x.line == "")
    || (w == Entering && x.early)
  }

  /** All passes so far are read, except the lost one. */
  ghost predicate Between(cap: Capacity, x: Transfer, sent: nat) {
    Caught(cap, x, sent) && (x.unread ==> x.early && sent == cap < |x.request|)
  }

  ghost predicate Posted(cap: Capacity, w: WorkerPc, x: Transfer, sent: nat) {
    || (w == ChunkWoken && Behind(cap, x, sent))
    || (w == Entering && Untaken(cap, x, sent))
  }

  ghost predicate AwaitingReply(cap: Capacity, w: WorkerPc, x: Transfer) {
    && x.request != ""
    && match w
       case ChunkWoken => Behind(cap, x, |x.request|) && x.got == ""
       case Entering => Untaken(cap, x, |x.request|) && x.got == ""
       case Reply(g) => g.pc == Woken && g.sent < |x.response| && Received(cap, x, g.sent)
       case _ => false
  }

  ghost predicate AsleepForReply(cap: Capacity, w: WorkerPc, x: Transfer) {
    && x.request != ""
    && match w
       case ChunkWoken | Taking => Behind(cap, x, |x.request|) && x.got == ""
       case Entering => Untaken(cap, x, |x.request|) && x.got == ""
       case Hailing => Untaken(cap, x, |x.request|) && x.got == "" && x.line == ""
       case Choosing | Checking | Engaging | Serving => Caught(cap, x, |x.request|) && x.got == "" && !x.unread
       case Reply(g) =>
         if (g.pc == Mark || g.pc == Signal) then Pending(cap, x, g.sent)
         else
           && (g.pc == Role || g.pc == Loop || g.pc == Map || g.pc == Woken)
           && g.sent < |x.response| && Received(cap, x, g.sent)
       case _ => false
  }

  ghost predicate WokenForReply(cap: Capacity, w: WorkerPc, x: Transfer) {
    && x.request != ""
    && match w
       case Expecting => Untaken(cap, x, |x.request|) && x.got == "" && x.line == ""
       case Taking => Behind(cap, x, |x.request|) && x.got == ""
       case Choosing | Checking | Engaging | Serving => Caught(cap, x, |x.request|) && x.got == "" && !x.unread
       case Reply(g) =>
         if (g.pc == Mark || g.pc == Signal || g.pc == Wait || g.pc == Asleep) then Pending(cap, x, g.sent)
         else (g.pc == Role || g.pc == Loop || g.pc == Map) && g.sent == 0 && Received(cap, x, 0)
       case _ => false
  }

  ghost predicate JointInv(cap: Capacity, p: ProxyPc, w: WorkerPc, x: Transfer) {
    match p
    case Request(f) => InRequest(cap, w, x, f)
    case Awaiting => AwaitingReply(cap, w, x)
    case ReplyAsleep => AsleepForReply(cap, w, x)
    case ReplyWoken => WokenForReply(cap, w, x)
    case Reading => w.Reply? && w.f.pc == Asleep && Pending(cap, x, w.f.sent) && x.request != ""
    case Acking => w.Reply? && w.f.pc == Asleep && Received(cap, x, w.f.sent) && x.request != ""
    case Repeating => w.Reply? && w.f.pc == Woken && Received(cap, x, w.f.sent) && x.request != ""
    case Unlocking =>
      w.Reply? && w.f.pc == Woken && Received(cap, x, w.f.sent) && x.request != "" && w.f.sent == |x.response|
    case _ => BeforeContact(cap, p, w, x)
  }

  /** What a finished session must have exchanged. */
  ghost predicate Faithful(cap: Capacity, e: Exchange) {
    && e.got == e.response
    && e.line == e.request[Lost(cap, e.early, e.request)..]
  }

  ghost predicate Inv(cap: Capacity, s: State) {
    && ControlInv(cap, s)
    && JointInv(cap, s.p, s.w, s.x)
    && forall e :: e in s.log ==> Faithful(cap, e)
  }

  // ---- Every step keeps it ----

  /** A pass puts exactly the next slice of the message into the segment. */
  lemma PassIsSlice(cap: Capacity, x: Transfer, total: string, sent: nat)
    requires |x.mem| == cap && sent < |total|
    ensures var end := PassEnd(cap, total, sent);
      && sent < end <= |total| && end - sent <= cap
      && Segment(SetMapping(x, total[sent..end])) == total[sent..end]
      && total[..sent] + total[sent..end] == total[..end]
      && forall from :: 0 <= from <= sent ==> total[from..sent] + total[sent..end] == total[from..end]
  {
  }

  ghost predicate JointIn(cap: Capacity, s: State) {
    JointInv(cap, s.p, s.w, s.x)
  }

  ghost predicate Steady(cap: Capacity, s: State) {
    ControlInv(cap, s) && JointIn(cap, s)
  }

  // ---- Mutex, flags and token ----

  lemma ProxyOpensControl(cap: Capacity, s: State)
    requires Steady(cap, s) && ProxyEnabled(s)
    requires s.p == Locking || s.p == Posting || s.p == Testing || s.p == ReadyWoken || s.p == Awaiting
             || s.p == ReplyWoken
    ensures ControlInv(cap, ProxyStep(cap, s))
  {
  }

  lemma ProxyClosesControl(cap: Capacity, s: State)
    requires Steady(cap, s) && ProxyEnabled(s)
    requires s.p == Reading || s.p == Acking || s.p == Repeating || s.p == Unlocking || s.p == Leaving
    ensures ControlInv(cap, ProxyStep(cap, s))
  {
  }

  lemma ProxyWritesControl(cap: Capacity, s: State)
    requires Steady(cap, s) && ProxyEnabled(s) && s.p.Request?
    requires s.p.f.pc == Role || s.p.f.pc == Loop || s.p.f.pc == Map
    ensures ControlInv(cap, ProxyStep(cap, s))
  {
  }

  lemma ProxyWaitsControl(cap: Capacity, s: State)
    requires Steady(cap, s) && ProxyEnabled(s) && s.p.Request?
    requires s.p.f.pc == Mark || s.p.f.pc == Signal || s.p.f.pc == Wait || s.p.f.pc == Woken
    ensures ControlInv(cap, ProxyStep(cap, s))
  {
  }

  lemma ProxyKeepsControl(cap: Capacity, s: State)
    requires Steady(cap, s) && ProxyEnabled(s)
    ensures ControlInv(cap, ProxyStep(cap, s))
  {
    if s.p.Request? {
      ProxySendsControl(cap, s);
    } else if s.p == Reading || s.p == Acking || s.p == Repeating || s.p == Unlocking || s.p == Leaving {
      ProxyClosesControl(cap, s);
    } else {
      ProxyOpensControl(cap, s);
    }
  }

  lemma ProxySendsControl(cap: Capacity, s: State)
    requires Steady(cap, s) && ProxyEnabled(s) && s.p.Request?
    ensures ControlInv(cap, ProxyStep(cap, s))
  {
    if s.p.f.pc == Role || s.p.f.pc == Loop || s.p.f.pc == Map {
      ProxyWritesControl(cap, s);
    } else {
      ProxyWaitsControl(cap, s);
    }
  }

  lemma WorkerOpensControl(cap: Capacity, s: State)
    requires Steady(cap, s) && WorkerEnabled(s)
    requires s.w == Pooled || s.w == Finding || s.w == Greeting || s.w == Entering || s.w == Hailing
    ensures ControlInv(cap, WorkerStep(cap, s)) || WorkerStep(cap, s).w == WorkerCrashed
  {
  }

  lemma WorkerReadsControl(cap: Capacity, s: State)
    requires Steady(cap, s) && WorkerEnabled(s)
    requires s.w == Expecting || s.w == ChunkWoken || s.w == Taking || s.w == Choosing
    ensures ControlInv(cap, WorkerStep(cap, s))
  {
  }

  lemma WorkerClosesControl(cap: Capacity, s: State)
    requires Steady(cap, s) && WorkerEnabled(s)
    requires s.w == Prompting || s.w == Checking || s.w == Engaging || s.w == Releasing || s.w == Resetting
    ensures ControlInv(cap, WorkerStep(cap, s))
  {
  }

  lemma WorkerWritesControl(cap: Capacity, s: State)
    requires Steady(cap, s) && WorkerEnabled(s) && s.w.Reply?
    requires s.w.f.pc == Role || s.w.f.pc == Loop || s.w.f.pc == Map
    ensures ControlInv(cap, WorkerStep(cap, s))
  {
  }

  lemma WorkerMarksControl(cap: Capacity, s: State)
    requires Steady(cap, s) && WorkerEnabled(s) && s.w.Reply?
    requires s.w.f.pc == Mark || s.w.f.pc == Signal
    ensures ControlInv(cap, WorkerStep(cap, s))
  {
  }

  lemma WorkerWaitsControl(cap: Capacity, s: State)
    requires Steady(cap, s) && WorkerEnabled(s) && s.w.Reply?
    requires s.w.f.pc == Wait || s.w.f.pc == Woken
    ensures ControlInv(cap, WorkerStep(cap, s))
  {
  }

  lemma WorkerSendsControl(cap: Capacity, s: State)
    requires Steady(cap, s) && WorkerEnabled(s) && s.w.Reply?
    ensures ControlInv(cap, WorkerStep(cap, s))
  {
    if s.w.f.pc == Role || s.w.f.pc == Loop || s.w.f.pc == Map {
      WorkerWritesControl(cap, s);
    } else if s.w.f.pc == Mark || s.w.f.pc == Signal {
      WorkerMarksControl(cap, s);
    } else {
      WorkerWaitsControl(cap, s);
    }
  }

  lemma WorkerKeepsControl(cap: Capacity, s: State)
    requires Steady(cap, s) && WorkerEnabled(s)
    ensures ControlInv(cap, WorkerStep(cap, s)) || WorkerStep(cap, s).w == WorkerCrashed
  {
    if s.w.Reply? {
      WorkerSendsControl(cap, s);
    } else if s.w == Pooled || s.w == Finding || s.w == Greeting || s.w == Entering || s.w == Hailing {
      WorkerOpensControl(cap, s);
    } else {
      WorkerCollectsControl(cap, s);
    }
  }

  lemma WorkerCollectsControl(cap: Capacity, s: State)
    requires Steady(cap, s) && WorkerEnabled(s) && !s.w.Reply?
    requires s.w != Pooled && s.w != Finding && s.w != Greeting && s.w != Entering && s.w != Hailing
    ensures ControlInv(cap, WorkerStep(cap, s))
  {
    if s.w == Expecting || s.w == ChunkWoken || s.w == Taking || s.w == Choosing {
      WorkerReadsControl(cap, s);
    } else {
      WorkerClosesControl(cap, s);
    }
  }

  // ---- Places and bytes ----

  /** The proxy outside `sendShared`, up to the point where it has the node to itself. */
  lemma ProxyOpens(cap: Capacity, s: State)
    requires Steady(cap, s) && ProxyEnabled(s)
    requires s.p == Locking || s.p == Posting || s.p == Testing || s.p == ReadyWoken
    ensures JointIn(cap, ProxyStep(cap, s))
  {
  }

  /** The proxy collects the reply. */
  lemma ProxyAwaits(cap: Capacity, s: State)
    requires Steady(cap, s) && ProxyEnabled(s) && (s.p == Awaiting || s.p == ReplyWoken)
    ensures JointIn(cap, ProxyStep(cap, s))
  {
  }

  lemma ProxyCollects(cap: Capacity, s: State)
    requires Steady(cap, s) && ProxyEnabled(s) && (s.p == Reading || s.p == Acking || s.p == Repeating)
    ensures JointIn(cap, ProxyStep(cap, s))
  {
  }

  lemma ProxyCloses(cap: Capacity, s: State)
    requires Steady(cap, s) && ProxyEnabled(s)
    requires s.p == Unlocking || s.p == Leaving
    ensures JointIn(cap, ProxyStep(cap, s))
  {
  }

  /** The proxy inside `sendShared`, between two passes. */
  lemma ProxyTakesRole(cap: Capacity, s: State)
    requires Steady(cap, s) && ProxyEnabled(s) && s.p.Request? && s.p.f.pc == Role
    ensures JointIn(cap, ProxyStep(cap, s))
  {
  }

  lemma ProxyLoops(cap: Capacity, s: State)
    requires Steady(cap, s) && ProxyEnabled(s) && (s.p.Request? && s.p.f.pc == Loop)
    ensures JointIn(cap, ProxyStep(cap, s))
  {
  }

  lemma ProxyWaits(cap: Capacity, s: State)
    requires Steady(cap, s) && ProxyEnabled(s) && (s.p.Request? && (s.p.f.pc == Wait || s.p.f.pc == Woken))
    ensures JointIn(cap, ProxyStep(cap, s))
  {
  }

  /** The proxy writes one pass, */
  lemma ProxyMaps(cap: Capacity, s: State)
    requires Steady(cap, s) && ProxyEnabled(s) && s.p.Request? && s.p.f.pc == Map
    ensures JointIn(cap, ProxyStep(cap, s))
  {
    PassIsSlice(cap, s.x, s.x.request, s.p.f.sent);
  }

  /** marks it, and announces it. */
  lemma ProxyAnnounces(cap: Capacity, s: State)
    requires Steady(cap, s) && ProxyEnabled(s) && s.p.Request? && (s.p.f.pc == Mark || s.p.f.pc == Signal)
    ensures JointIn(cap, ProxyStep(cap, s))
  {
  }

  lemma WorkerOpens(cap: Capacity, s: State)
    requires Steady(cap, s) && WorkerEnabled(s)
    requires s.w == Pooled || s.w == Finding || s.w == Greeting || s.w == Entering || s.w == Hailing
    ensures JointIn(cap, WorkerStep(cap, s)) || WorkerStep(cap, s).w == WorkerCrashed
  {
  }

  /** The worker waits for a pass of the request and copies it, */
  lemma WorkerExpects(cap: Capacity, s: State)
    requires Steady(cap, s) && WorkerEnabled(s) && (s.w == Expecting || s.w == ChunkWoken)
    ensures JointIn(cap, WorkerStep(cap, s))
  {
    if s.w == ChunkWoken || s.proxyState == Complete {
      TurnToTakeKeepsPlaces(cap, s.p, s.w, s.x);
    } else {
      WaitForChunkKeepsPlaces(cap, s.p, s.x);
    }
  }

  lemma TurnToTakeKeepsPlaces(cap: Capacity, p: ProxyPc, w: WorkerPc, x: Transfer)
    requires JointInv(cap, p, w, x) && !ProxyHolds(p)
    requires w == ChunkWoken || (w == Expecting && ProxyFlag(p, x.request) == Complete)
    requires p.Request? ==> FrameInv(p.f, x.request, false)
    ensures JointInv(cap, p, Taking, x)
  {
  }

  lemma WaitForChunkKeepsPlaces(cap: Capacity, p: ProxyPc, x: Transfer)
    requires JointInv(cap, p, Expecting, x) && ProxyFlag(p, x.request) != Complete
    ensures JointInv(cap, p, ChunkAsleep, x)
  {
  }

  lemma WorkerTakes(cap: Capacity, s: State)
    requires Steady(cap, s) && WorkerEnabled(s) && s.w == Taking
    ensures JointIn(cap, WorkerStep(cap, s))
  {
  }

  /** and asks for another, or turns to the response. */
  lemma WorkerAcknowledges(cap: Capacity, s: State)
    requires Steady(cap, s) && WorkerEnabled(s) && (s.w == Choosing || s.w == Prompting)
    ensures JointIn(cap, WorkerStep(cap, s))
  {
    if s.w == Prompting {
      PromptKeepsPlaces(cap, s.p, s.x);
    } else {
      WorkerChooses(cap, s);
    }
  }

  lemma WorkerChooses(cap: Capacity, s: State)
    requires Steady(cap, s) && WorkerEnabled(s) && s.w == Choosing
    ensures JointIn(cap, WorkerStep(cap, s))
  {
  }

  lemma PromptKeepsPlaces(cap: Capacity, p: ProxyPc, x: Transfer)
    requires JointInv(cap, p, Prompting, x)
    ensures JointInv(cap, WakeProxy(p), Checking, x)
  {
  }

  lemma WorkerRepeats(cap: Capacity, s: State)
    requires Steady(cap, s) && WorkerEnabled(s) && (s.w == Checking || s.w == Engaging)
    ensures JointIn(cap, WorkerStep(cap, s))
  {
  }

  lemma WorkerTakesRole(cap: Capacity, s: State)
    requires Steady(cap, s) && WorkerEnabled(s) && s.w.Reply? && s.w.f.pc == Role
    ensures JointIn(cap, WorkerStep(cap, s))
  {
    RoleKeepsPlaces(cap, s.p, s.w.f, s.proxyState == Complete, s.x);
  }

  lemma RoleKeepsPlaces(cap: Capacity, p: ProxyPc, f: Frame, isServer: bool, x: Transfer)
    requires JointInv(cap, p, Reply(f), x) && f.pc == Role && f.sent == 0 && x.response != ""
    ensures JointInv(cap, p, Reply(f.(isServer := isServer, pc := Loop)), x)
  {
  }

  lemma WorkerLoops(cap: Capacity, s: State)
    requires Steady(cap, s) && WorkerEnabled(s) && s.w.Reply? && s.w.f.pc == Loop && s.w.f.sent < |s.x.response|
    ensures JointIn(cap, WorkerStep(cap, s))
  {
    LoopKeepsPlaces(cap, s.p, s.w.f, s.x);
  }

  lemma LoopKeepsPlaces(cap: Capacity, p: ProxyPc, f: Frame, x: Transfer)
    requires JointInv(cap, p, Reply(f), x) && f.pc == Loop && f.sent < |x.response| && !ProxyHolds(p)
    ensures JointInv(cap, p, Reply(f.(pc := Map)), x)
  {
  }

  lemma WorkerEnds(cap: Capacity, s: State)
    requires Steady(cap, s) && WorkerEnabled(s) && s.w.Reply? && s.w.f.pc == Loop && s.w.f.sent == |s.x.response|
    ensures JointIn(cap, WorkerStep(cap, s))
  {
    EndKeepsPlaces(cap, s.p, s.w.f, s.x);
  }

  lemma EndKeepsPlaces(cap: Capacity, p: ProxyPc, f: Frame, x: Transfer)
    requires JointInv(cap, p, Reply(f), x) && !ProxyHolds(p)
    requires f.pc == Loop && f.sent == |x.response| && x.response != ""
    ensures JointInv(cap, p, Releasing, x)
  {
  }

  lemma WorkerSleeps(cap: Capacity, s: State)
    requires Steady(cap, s) && WorkerEnabled(s) && s.w.Reply? && s.w.f.pc == Wait
    ensures JointIn(cap, WorkerStep(cap, s))
  {
    SleepKeepsPlaces(cap, s.p, s.w.f, s.x);
  }

  lemma SleepKeepsPlaces(cap: Capacity, p: ProxyPc, f: Frame, x: Transfer)
    requires JointInv(cap, p, Reply(f), x) && f.pc == Wait
    ensures JointInv(cap, p, Reply(f.(pc := Asleep)), x)
  {
  }

  lemma WorkerWakes(cap: Capacity, s: State)
    requires Steady(cap, s) && WorkerEnabled(s) && s.w.Reply? && s.w.f.pc == Woken
    ensures JointIn(cap, WorkerStep(cap, s))
  {
    WakeKeepsPlaces(cap, s.p, s.w.f, s.x);
  }

  lemma WakeKeepsPlaces(cap: Capacity, p: ProxyPc, f: Frame, x: Transfer)
    requires JointInv(cap, p, Reply(f), x) && f.pc == Woken && !ProxyHolds(p)
    ensures JointInv(cap, p, Reply(f.(pc := Loop)), x)
  {
  }

  lemma WorkerMaps(cap: Capacity, s: State)
    requires Steady(cap, s) && WorkerEnabled(s) && s.w.Reply? && s.w.f.pc == Map
    ensures JointIn(cap, WorkerStep(cap, s))
  {
    MapKeepsPlaces(cap, s.p, s.w.f, s.x);
  }

  lemma MapKeepsPlaces(cap: Capacity, p: ProxyPc, f: Frame, x: Transfer)
    requires JointInv(cap, p, Reply(f), x) && f.pc == Map && f.sent < |x.response| && |x.mem| == cap
    ensures var end := PassEnd(cap, x.response, f.sent);
      JointInv(cap, p, Reply(f.(sent := end, pc := Mark)), SetMapping(x, x.response[f.sent..end]))
  {
    PassIsSlice(cap, x, x.response, f.sent);
  }

  lemma WorkerMarks(cap: Capacity, s: State)
    requires Steady(cap, s) && WorkerEnabled(s) && s.w.Reply? && s.w.f.pc == Mark
    ensures JointIn(cap, WorkerStep(cap, s))
  {
    MarkKeepsPlaces(cap, s.p, s.w.f, s.x);
  }

  lemma MarkKeepsPlaces(cap: Capacity, p: ProxyPc, f: Frame, x: Transfer)
    requires JointInv(cap, p, Reply(f), x) && f.pc == Mark
    ensures JointInv(cap, p, Reply(f.(pc := Signal)), x)
  {
  }

  lemma WorkerSignals(cap: Capacity, s: State)
    requires Steady(cap, s) && WorkerEnabled(s) && s.w.Reply? && s.w.f.pc == Signal
    ensures JointIn(cap, WorkerStep(cap, s))
  {
    SignalKeepsPlaces(cap, s.p, s.w.f, s.x);
    assert s.w.f.isServer;
  }

  lemma SignalKeepsPlaces(cap: Capacity, p: ProxyPc, f: Frame, x: Transfer)
    requires JointInv(cap, p, Reply(f), x) && f.pc == Signal
    ensures JointInv(cap, WakeProxy(p), Reply(f.(pc := Wait)), x)
  {
  }

  lemma WorkerCloses(cap: Capacity, s: State)
    requires Steady(cap, s) && WorkerEnabled(s)
    requires s.w == Releasing || s.w == Resetting
    ensures JointIn(cap, WorkerStep(cap, s))
  {
    if s.w == Resetting {
      ResetKeepsPlaces(cap, s.p, s.x);
    } else {
      ReleaseKeepsPlaces(cap, s.p, s.x);
    }
  }

  lemma ReleaseKeepsPlaces(cap: Capacity, p: ProxyPc, x: Transfer)
    requires JointInv(cap, p, Releasing, x)
    ensures JointInv(cap, p, Resetting, x)
  {
  }

  lemma ResetKeepsPlaces(cap: Capacity, p: ProxyPc, x: Transfer)
    requires JointInv(cap, p, Resetting, x)
    ensures JointInv(cap, p, Pooled, x)
  {
  }

  lemma ProxySends(cap: Capacity, s: State)
    requires Steady(cap, s) && ProxyEnabled(s) && s.p.Request?
    ensures JointIn(cap, ProxyStep(cap, s))
  {
    if s.p.f.pc == Role {
      ProxyTakesRole(cap, s);
    } else if s.p.f.pc == Loop {
      ProxyLoops(cap, s);
    } else if s.p.f.pc == Map {
      ProxyMaps(cap, s);
    } else if s.p.f.pc == Mark || s.p.f.pc == Signal {
      ProxyAnnounces(cap, s);
    } else {
      ProxyWaits(cap, s);
    }
  }

  lemma ProxyKeepsPlaces(cap: Capacity, s: State)
    requires Steady(cap, s) && ProxyEnabled(s)
    ensures JointIn(cap, ProxyStep(cap, s))
  {
    if s.p.Request? {
      ProxySends(cap, s);
    } else if s.p == Unlocking || s.p == Leaving {
      ProxyCloses(cap, s);
    } else if s.p == Locking || s.p == Posting || s.p == Testing || s.p == ReadyWoken {
      ProxyOpens(cap, s);
    } else if s.p == Awaiting || s.p == ReplyWoken {
      ProxyAwaits(cap, s);
    } else {
      ProxyCollects(cap, s);
    }
  }

  lemma WorkerSends(cap: Capacity, s: State)
    requires Steady(cap, s) && WorkerEnabled(s) && s.w.Reply?
    ensures JointIn(cap, WorkerStep(cap, s))
  {
    if s.w.f.pc == Role {
      WorkerTakesRole(cap, s);
    } else if s.w.f.pc == Loop {
      WorkerTurns(cap, s);
    } else if s.w.f.pc == Map {
      WorkerMaps(cap, s);
    } else {
      WorkerWaits(cap, s);
    }
  }

  lemma WorkerTurns(cap: Capacity, s: State)
    requires Steady(cap, s) && WorkerEnabled(s) && s.w.Reply? && s.w.f.pc == Loop
    ensures JointIn(cap, WorkerStep(cap, s))
  {
    if s.w.f.sent < |s.x.response| {
      WorkerLoops(cap, s);
    } else {
      WorkerEnds(cap, s);
    }
  }

  lemma WorkerWaits(cap: Capacity, s: State)
    requires Steady(cap, s) && WorkerEnabled(s) && s.w.Reply?
    requires s.w.f.pc == Mark || s.w.f.pc == Signal || s.w.f.pc == Wait || s.w.f.pc == Woken
    ensures JointIn(cap, WorkerStep(cap, s))
  {
    if s.w.f.pc == Mark {
      WorkerMarks(cap, s);
    } else if s.w.f.pc == Signal {
      WorkerSignals(cap, s);
    } else if s.w.f.pc == Wait {
      WorkerSleeps(cap, s);
    } else {
      WorkerWakes(cap, s);
    }
  }

  lemma WorkerKeepsPlaces(cap: Capacity, s: State)
    requires Steady(cap, s) && WorkerEnabled(s)
    ensures JointIn(cap, WorkerStep(cap, s)) || WorkerStep(cap, s).w == WorkerCrashed
  {
    if s.w.Reply? {
      WorkerSends(cap, s);
    } else if s.w == Releasing || s.w == Resetting {
      WorkerCloses(cap, s);
    } else if s.w == Pooled || s.w == Finding || s.w == Greeting || s.w == Entering || s.w == Hailing {
      WorkerOpens(cap, s);
    } else {
      WorkerCollects(cap, s);
    }
  }

  lemma WorkerCollects(cap: Capacity, s: State)
    requires Steady(cap, s) && WorkerEnabled(s)
    requires
      || s.w == Expecting || s.w == ChunkWoken || s.w == Taking || s.w == Choosing || s.w == Prompting
      || s.w == Checking || s.w == Engaging
    ensures JointIn(cap, WorkerStep(cap, s))
  {
    if s.w == Expecting || s.w == ChunkWoken {
      WorkerExpects(cap, s);
    } else if s.w == Taking {
      WorkerTakes(cap, s);
    } else if s.w == Choosing || s.w == Prompting {
      WorkerAcknowledges(cap, s);
    } else {
      WorkerRepeats(cap, s);
    }
  }

  // ---- Together ----

  /** What `Unlocking` records is faithful. */
  lemma ProxyRecords(cap: Capacity, s: State)
    requires Inv(cap, s) && ProxyEnabled(s)
    ensures forall e :: e in ProxyStep(cap, s).log ==> Faithful(cap, e)
  {
    if s.p == Unlocking {
      assert Received(cap, s.x, s.w.f.sent);
    }
  }

  lemma ProxyKeeps(cap: Capacity, s: State)
    requires Inv(cap, s) && ProxyEnabled(s)
    ensures Inv(cap, ProxyStep(cap, s))
  {
    ProxyKeepsControl(cap, s);
    ProxyKeepsPlaces(cap, s);
    ProxyRecords(cap, s);
  }

  lemma WorkerKeeps(cap: Capacity, s: State)
    requires Inv(cap, s) && WorkerEnabled(s)
    ensures Inv(cap, WorkerStep(cap, s)) || WorkerStep(cap, s).w == WorkerCrashed
  {
    WorkerKeepsControl(cap, s);
    WorkerKeepsPlaces(cap, s);
    WorkerKeepsLog(cap, s);
  }

  lemma WorkerKeepsLog(cap: Capacity, s: State)
    requires |s.x.mem| == cap && WorkerEnabled(s)
    ensures WorkerStep(cap, s).log == s.log
  {
  }

  lemma PollKeepsControl(cap: Capacity, s: State)
    requires ControlInv(cap, s)
    ensures ControlInv(cap, PollStep(s))
  {
  }

  lemma PollKeeps(cap: Capacity, s: State)
    requires Inv(cap, s)
    ensures Inv(cap, PollStep(s))
  {
    PollKeepsControl(cap, s);
    assert PollStep(s).p == s.p && PollStep(s).w == s.w && PollStep(s).x == s.x && PollStep(s).log == s.log;
  }

  lemma ClaimKeeps(cap: Capacity, s: State, request: string)
    requires Inv(cap, s) && Enabled(s, Claim(request))
    ensures Inv(cap, Do(cap, s, Claim(request)))
  {
  }

  lemma ServeKeeps(cap: Capacity, s: State, response: string)
    requires Inv(cap, s) && Enabled(s, Serve(response))
    ensures Inv(cap, Do(cap, s, Serve(response)))
  {
    ServeKeepsPlaces(cap, s.p, s.x, response);
    ServeKeepsControl(cap, s, response);
  }

  lemma ServeKeepsControl(cap: Capacity, s: State, response: string)
    requires ControlInv(cap, s) && s.w == Serving && response != ""
    ensures ControlInv(cap, Do(cap, s, Serve(response)))
  {
  }

  lemma ServeKeepsPlaces(cap: Capacity, p: ProxyPc, x: Transfer, response: string)
    requires JointInv(cap, p, Serving, x) && response != ""
    ensures JointInv(cap, p, Reply(Frame(Role, false, 0)), x.(response := response))
  {
  }

  lemma StepKeeps(cap: Capacity, s: State, a: Action)
    requires Inv(cap, s) && Enabled(s, a)
    ensures Inv(cap, Do(cap, s, a)) || Do(cap, s, a).w == WorkerCrashed
  {
    match a
    case Claim(r) => ClaimKeeps(cap, s, r);
    case ProxyMoves => ProxyKeeps(cap, s);
    case WorkerMoves => WorkerKeeps(cap, s);
    case Serve(r) => ServeKeeps(cap, s, r);
    case PollMoves => PollKeeps(cap, s);
  }
}
