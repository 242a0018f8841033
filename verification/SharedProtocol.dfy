/**
 The shared-memory session between one proxy thread, the server's polling loop and one server
 worker, on one memory node, as a small-step transition system.

 A step is one access to a state flag, one mutex or condition-variable operation, or one copy into
 or out of the segment. `SEGMENTSIZE` is the parameter `cap`. The flags are sequentially
 consistent; a sleeper wakes only when signalled.
 */
module SharedProtocol {

  /** The segment size: the bytes one pass through the node can carry. */
  type Capacity = n: int | 0 < n witness 1

  /** `state_t`. */
  datatype Flag =
    | Idle
    | Busy
    | WaitingInitSrvr
    | WaitingContPrxy
    | WaitingContSrvr
    | Complete

  /** Who holds the node's mutex. */
  datatype Owner = Nobody | HeldByProxy | HeldByWorker

  /** The program counter inside `sendShared`. */
  datatype SendPc =
    | Role     // lines 82-85: whose flag is mine?
    | Loop     // lines 97-100: more bytes? then mark BUSY
    | Map      // line 110: overwrite the segment
    | Mark     // lines 126 and 132: COMPLETE or WAITING_CONT
    | Signal   // lines 127 and 133
    | Wait     // lines 129 and 134: about to sleep
    | Asleep   // inside pthread_cond_wait, mutex released
    | Woken    // signalled, must take the mutex again
    | Done     // the loop has ended

  /** The local variables of one call of `sendShared`. */
  datatype Frame = Frame(pc: SendPc, isServer: bool, sent: nat)

  /** The program counter of the proxy thread in `sharedProxy`. */
  datatype ProxyPc =
    | Away          // no proxy thread has claimed the node
    | Locking       // proxy.c:743
    | Posting       // proxy.c:744
    | Testing       // proxy.c:747
    | ReadyAsleep   // proxy.c:748
    | ReadyWoken
    | Request(f: Frame)  // proxy.c:760, in sendShared
    | Awaiting      // proxy.c:772
    | ReplyAsleep   // proxy.c:773
    | ReplyWoken
    | Reading       // proxy.c:777-805
    | Acking        // proxy.c:808
    | Repeating     // proxy.c:809
    | Unlocking     // proxy.c:810
    | Leaving       // proxy.c:812
    | ProxyFatal    // proxy.c:779, receiveShared returned NULL

  /** The program counter of the server worker that serves the node. */
  datatype WorkerPc =
    | Pooled        // no worker is serving the node
    | Finding       // server.c:246
    | Greeting      // server.c:247
    | Entering      // server.c:252
    | Hailing       // server.c:317
    | Expecting     // server.c:322
    | ChunkAsleep   // server.c:326
    | ChunkWoken
    | Taking        // server.c:333-341
    | Choosing      // server.c:344
    | Prompting     // server.c:345
    | Checking      // server.c:347
    | Engaging      // server.c:350
    | Serving       // server.c:360-471, the response is produced
    | Reply(f: Frame)    // sendResponse.c:39, in sendShared
    | Releasing     // sendResponse.c:46
    | Resetting     // server.c:261
    | WorkerCrashed // server.c:247, findState returned NULL
    | WorkerFatal   // server.c:335, receiveShared returned NULL

  /** The program counter of the server's polling loop. */
  datatype PollPc =
    | Polling       // server.c:150
    | Probing       // server.c:151, findState returned the node
    | Claiming      // server.c:152
    | Queueing      // server.c:153-156

  /** What one finished session exchanged; `early` is the outcome of the test at proxy.c:747. */
  datatype Exchange = Exchange(request: string, line: string, response: string, got: string, early: bool)

  /** The segment, and the messages that pass through it. */
  datatype Transfer = Transfer(
    mem: string,
    spaceUsed: nat,
    unread: bool,     // history: the segment was written and not read since
    request: string,
    early: bool,      // proxy.c:747 found WAITING_CONT_PRXY and skipped the wait
    line: string,     // what the worker has copied into `line`
    response: string,
    got: string       // what the proxy has forwarded to its client
  )

  /** The memory node and the three parties. */
  datatype State = State(
    proxyState: Flag,
    serverState: Flag,
    owner: Owner,
    p: ProxyPc,
    w: WorkerPc,
    m: PollPc,
    tokens: nat,      // SHARED tokens in the connection list
    x: Transfer,
    log: seq<Exchange>
  )

  ghost predicate Init(cap: Capacity, s: State) {
    && s.proxyState == Idle && s.serverState == Idle
    && s.owner == Nobody
    && s.p == Away && s.w == Pooled && s.m == Polling && s.tokens == 0
    && |s.x.mem| == cap && s.x.spaceUsed == 0 && !s.x.unread
    && s.log == []
  }

  // ---- The node's operations ----

  /** `setMapping`: the first bytes of the segment are overwritten, the rest stays. */
  function SetMapping(x: Transfer, data: string): Transfer
    requires |data| <= |x.mem|
  {
    x.(mem := data + x.mem[|data|..], spaceUsed := |data|, unread := true)
  }

  /** What `receiveShared` copies out. */
  function Segment(x: Transfer): string {
    if x.spaceUsed <= |x.mem| then x.mem[..x.spaceUsed] else x.mem
  }

  function StoreFlag(s: State, isServer: bool, v: Flag): State {
    if isServer then s.(serverState := v) else s.(proxyState := v)
  }

  /** `pthread_cond_signal` by the worker: the proxy is the only other user of the condition. */
  function WakeProxy(p: ProxyPc): ProxyPc {
    match p
    case ReadyAsleep => ReadyWoken
    case ReplyAsleep => ReplyWoken
    case Request(f) => if f.pc == Asleep then Request(f.(pc := Woken)) else p
    case _ => p
  }

  /** `pthread_cond_signal` by the proxy. */
  function WakeWorker(w: WorkerPc): WorkerPc {
    match w
    case ChunkAsleep => ChunkWoken
    case Reply(f) => if f.pc == Asleep then Reply(f.(pc := Woken)) else w
    case _ => w
  }

  // ---- sendShared ----

  /** How far the message has been sent after the pass that starts at `sent`. */
  function PassEnd(cap: Capacity, total: string, sent: nat): nat
    requires sent <= |total|
  {
    if |total| - sent > cap then sent + cap else |total|
  }

  function MarkOf(f: Frame, total: string): Flag {
    if f.sent == |total| then Complete
    else if f.isServer then WaitingContPrxy
    else WaitingContSrvr
  }

  /** One step of `sendShared`, called by the server or by the proxy. */
  function SendStep(cap: Capacity, s: State, byServer: bool, total: string, f: Frame): (State, Frame)
    requires |s.x.mem| == cap && f.sent <= |total|
    requires f.pc != Asleep && f.pc != Done
  {
    match f.pc
    case Role => (s, f.(isServer := s.proxyState == Complete, pc := Loop))
    case Loop =>
      if f.sent < |total| then (StoreFlag(s, f.isServer, Busy), f.(pc := Map)) else (s, f.(pc := Done))
    case Map =>
      var end := PassEnd(cap, total, f.sent);
      (s.(x := SetMapping(s.x, total[f.sent..end])), f.(sent := end, pc := Mark))
    case Mark => (StoreFlag(s, f.isServer, MarkOf(f, total)), f.(pc := Signal))
    case Signal =>
      (if byServer then s.(p := WakeProxy(s.p)) else s.(w := WakeWorker(s.w)),
       f.(pc := if f.sent == |total| && !f.isServer then Loop else Wait))
    case Wait => (s.(owner := Nobody), f.(pc := Asleep))
    case Woken => (s.(owner := if byServer then HeldByWorker else HeldByProxy), f.(pc := Loop))
  }

  // ---- The proxy ----

  /** The proxy can move: it is not asleep, and a mutex it needs is free. */
  predicate ProxyEnabled(s: State) {
    match s.p
    case Away | ReadyAsleep | ReplyAsleep | ProxyFatal => false
    case Locking | ReadyWoken | ReplyWoken => s.owner == Nobody
    case Request(f) =>
      f.pc != Asleep && f.pc != Done && (f.pc == Woken ==> s.owner == Nobody) && f.sent <= |s.x.request|
    case _ => true
  }

  function ProxyStep(cap: Capacity, s: State): State
    requires |s.x.mem| == cap && ProxyEnabled(s)
  {
    match s.p
    case Locking => s.(owner := HeldByProxy, p := Posting)
    case Posting => s.(proxyState := WaitingInitSrvr, p := Testing)
    case Testing =>
      if s.serverState != WaitingContPrxy then s.(owner := Nobody, p := ReadyAsleep)
      else s.(x := s.x.(early := true), p := Request(Frame(Role, false, 0)))
    case ReadyWoken => s.(owner := HeldByProxy, p := Request(Frame(Role, false, 0)))
    case Request(f) =>
      var (s', f') := SendStep(cap, s, false, s.x.request, f);
      s'.(p := if f'.pc == Done then Awaiting else Request(f'))
    case Awaiting =>
      if s.serverState != Complete then s.(owner := Nobody, p := ReplyAsleep) else s.(p := Reading)
    case ReplyWoken => s.(owner := HeldByProxy, p := Reading)
    case Reading =>
      if s.x.spaceUsed == 0 then s.(p := ProxyFatal)
      else s.(x := s.x.(got := s.x.got + Segment(s.x), unread := false), p := Acking)
    case Acking => s.(w := WakeWorker(s.w), p := Repeating)
    case Repeating => s.(p := if s.serverState != Complete then Awaiting else Unlocking)
    case Unlocking =>
      s.(owner := Nobody, p := Leaving,
         log := s.log + [Exchange(s.x.request, s.x.line, s.x.response, s.x.got, s.x.early)])
    case Leaving => s.(proxyState := Idle, p := Away)
  }

  // ---- The worker ----

  predicate WorkerEnabled(s: State) {
    match s.w
    case Pooled => s.tokens > 0
    case ChunkAsleep | Serving | WorkerCrashed | WorkerFatal => false
    case Entering | ChunkWoken => s.owner == Nobody
    case Reply(f) => f.pc != Asleep && f.pc != Done && (f.pc == Woken ==> s.owner == Nobody) && f.sent <= |s.x.response|
    case _ => true
  }

  function WorkerStep(cap: Capacity, s: State): State
    requires |s.x.mem| == cap && WorkerEnabled(s)
  {
    match s.w
    case Pooled => s.(tokens := s.tokens - 1, w := Finding)
    case Finding => s.(w := if s.proxyState == WaitingInitSrvr then Greeting else WorkerCrashed)
    case Greeting => s.(serverState := WaitingContPrxy, w := Entering)
    case Entering => s.(owner := HeldByWorker, x := s.x.(line := ""), w := Hailing)
    case Hailing => s.(p := WakeProxy(s.p), w := Expecting)
    case Expecting =>
      if s.proxyState != Complete then s.(owner := Nobody, w := ChunkAsleep) else s.(w := Taking)
    case ChunkWoken => s.(owner := HeldByWorker, w := Taking)
    case Taking =>
      if s.x.spaceUsed == 0 then s.(w := WorkerFatal)
      else s.(x := s.x.(line := s.x.line + Segment(s.x), unread := false), w := Choosing)
    case Choosing => s.(w := if s.proxyState != Complete then Prompting else Checking)
    case Prompting => s.(p := WakeProxy(s.p), w := Checking)
    case Checking => s.(w := if s.proxyState != Complete then Expecting else Engaging)
    case Engaging => s.(serverState := Busy, w := Serving)
    case Reply(f) =>
      var (s', f') := SendStep(cap, s, true, s.x.response, f);
      s'.(w := if f'.pc == Done then Releasing else Reply(f'))
    case Releasing => s.(owner := Nobody, w := Resetting)
    case Resetting => s.(serverState := Idle, w := Pooled)
  }

  // ---- The polling loop ----

  function PollStep(s: State): State {
    match s.m
    case Polling => s.(m := if s.proxyState == WaitingInitSrvr then Probing else Polling)
    case Probing => s.(m := if s.serverState == Idle then Claiming else Polling)
    case Claiming => s.(serverState := Busy, m := Queueing)
    case Queueing => s.(tokens := s.tokens + 1, m := Polling)
  }

  // ---- The whole system ----

  datatype Action =
    | Claim(request: string)      // proxy.c:733: a proxy thread takes the IDLE node
    | ProxyMoves
    | WorkerMoves
    | Serve(response: string)     // the worker has produced header and body
    | PollMoves

  predicate Enabled(s: State, a: Action) {
    match a
    case Claim(r) => s.p == Away && s.proxyState == Idle && r != ""
    case ProxyMoves => ProxyEnabled(s)
    case WorkerMoves => WorkerEnabled(s)
    case Serve(r) => s.w == Serving && r != ""
    case PollMoves => true
  }

  function Do(cap: Capacity, s: State, a: Action): State
    requires |s.x.mem| == cap && Enabled(s, a)
  {
    match a
    case Claim(r) => s.(x := s.x.(request := r, early := false, got := ""), p := Locking)
    case ProxyMoves => ProxyStep(cap, s)
    case WorkerMoves => WorkerStep(cap, s)
    case Serve(r) => s.(x := s.x.(response := r), w := Reply(Frame(Role, false, 0)))
    case PollMoves => PollStep(s)
  }

  /** `actions` leads from the first state of `states` to the last. */
  ghost predicate IsRun(cap: Capacity, states: seq<State>, actions: seq<Action>) {
    && |states| == |actions| + 1
    && Init(cap, states[0])
    && forall i :: 0 <= i < |actions| ==> Leads(cap, states[i], actions[i], states[i + 1])
  }

  ghost predicate Leads(cap: Capacity, s: State, a: Action, s': State) {
    |s.x.mem| == cap && Enabled(s, a) && s' == Do(cap, s, a)
  }
}
