/**
 The thread pool that server and proxy share: a main thread that accepts connections, workers that
 take them from the connection list, and the interrupt handler that stops the workers with one
 TERMINATE token each. A step is one mutex, condition-variable or list operation.
 */
module WorkerPool {
  import opened ConnectionList
  import opened CText

  /** What the interrupt handler adds. */
  const STOP := Entry(0, Terminate)

  datatype Owner = Nobody | Main | Worker(id: nat)

  /** The program counter of a worker (server.c:214-267). */
  datatype WorkerPc =
    | Wanting             // 217, before the lock
    | Checking            // 218, is the list empty?
    | Asleep              // 219, in pthread_cond_wait
    | Woken               // 219, must take the mutex again
    | Removing            // 221
    | Unlocking(c: Entry) // 222
    | Acting(c: Entry)    // 234-266
    | Exited              // 241
    | Faulted             // 234, removeHead returned NULL

  /** The program counter of the main thread (proxy.c:132-163, server.c:137-191 and 603-646). */
  datatype MainPc =
    | Looping             // proxy.c:132, server.c:137: the test of LOOP
    | Polling             // server.c:147-151, looking for a request in shared memory
    | Entering            // proxy.c:133-138, server.c:160-161: LOOP has been tested, accept not yet called
    | Accepting           // proxy.c:139, server.c:162
    | Locking(t: Entry)   // 179, or 153 for a request in shared memory
    | Adding(t: Entry)    // 180 or 154
    | Broadcasting(t: Entry)  // 181 or 155
    | Releasing(t: Entry) // 182 or 156
    | Joining(k: nat)     // 603-612
    | Finished

  /** The interrupt handler, which runs on top of the main thread (server.c:504-511). */
  datatype HandlerPc =
    | Off
    | HandlerLocking(k: nat)
    | HandlerAdding(k: nat)
    | HandlerBroadcasting(k: nat)
    | HandlerReleasing(k: nat)

  /** History: where the main thread was when it was interrupted. */
  datatype Interruption =
    | Never
    | BeforeTest
    | BeforePoll
    | BeforeAccept
    | InAccept
    | BeforeLock(t: Entry)
    | HoldingMutex

  datatype State = State(
    nonblocking: bool,             // the server with -o: accept does not wait
    queue: seq<Entry>,
    owner: Owner,
    workers: seq<WorkerPc>,
    main: MainPc,
    handler: HandlerPc,
    loop: bool,                    // LOOP
    cut: Interruption,
    again: bool,                   // history: a second interrupt has made a waiting accept fail
    added: seq<Entry>,             // history: every token ever added
    late: seq<Entry>,              // history: the tokens that the main thread added after the interrupt
    taken: seq<(nat, Entry)>,      // history: which worker took which token
    dropped: seq<Entry>            // what destroyAll found in the list
  )

  ghost predicate Init(n: nat, s: State) {
    && n > 0
    && s.queue == [] && s.owner == Nobody
    && s.workers == seq(n, _ => Wanting)
    && s.main == Looping && s.handler == Off && s.loop && s.cut == Never && !s.again
    && s.added == [] && s.late == [] && s.taken == [] && s.dropped == []
  }

  /** `pthread_cond_broadcast`. */
  function WakeAll(workers: seq<WorkerPc>): (r: seq<WorkerPc>)
    ensures |r| == |workers|
  {
    seq(|workers|, i requires 0 <= i < |workers| => if workers[i] == Asleep then Woken else workers[i])
  }

  datatype Action =
    | Arrive(t: Entry)    // accept, or the poll of the shared nodes, yields work
    | Interrupt           // SIGINT, taken by the main thread
    | InterruptAgain      // one more, in accept: the handler returns at once (server.c:494-497), and accept fails
    | MainMoves
    | WorkerMoves(i: nat)

  /** A connection for accept, or a request in shared memory for the poll. An interrupted accept yields none. */
  predicate CanArrive(s: State, t: Entry) {
    && s.handler == Off
    && match s.main
       case Polling => t == Entry(0, Shared)
       case Accepting => t.action == Process && s.cut != InAccept
       case _ => false
  }

  /** `accept` returns without a connection: it was interrupted, or does not wait. */
  predicate AcceptFails(s: State) {
    s.nonblocking || s.cut == InAccept
  }

  predicate MainEnabled(s: State) {
    match s.handler
    case HandlerLocking(_) => s.owner == Nobody
    case HandlerAdding(_) | HandlerBroadcasting(_) | HandlerReleasing(_) => true
    case Off =>
      match s.main
      case Accepting => AcceptFails(s)
      case Locking(_) => s.owner == Nobody
      case Joining(k) => k < |s.workers| ==> s.workers[k] == Exited
      case Finished => false
      case _ => true
  }

  predicate WorkerEnabled(s: State, i: nat) {
    && i < |s.workers|
    && match s.workers[i]
       case Wanting | Woken => s.owner == Nobody
       case Asleep | Exited | Faulted => false
       case _ => true
  }

  predicate Enabled(s: State, a: Action) {
    match a
    case Arrive(t) => CanArrive(s, t)
    case Interrupt => s.loop && s.handler == Off
    case InterruptAgain => !s.loop && s.handler == Off && s.main == Accepting
    case MainMoves => MainEnabled(s)
    case WorkerMoves(i) => WorkerEnabled(s, i)
  }

  /** `addTail` by the main thread. */
  function Add(s: State, t: Entry): State {
    s.(queue := s.queue + [t], added := s.added + [t])
  }

  function MainStep(s: State): State
    requires MainEnabled(s)
  {
    match s.handler
    case HandlerLocking(k) => s.(owner := Main, handler := HandlerAdding(k))
    case HandlerAdding(k) => Add(s, STOP).(handler := HandlerBroadcasting(k))
    case HandlerBroadcasting(k) => s.(workers := WakeAll(s.workers), handler := HandlerReleasing(k))
    case HandlerReleasing(k) =>
      s.(owner := Nobody, handler := if k + 1 < |s.workers| then HandlerLocking(k + 1) else Off)
    case Off => LoopStep(s)
  }

  /** The main thread's own code. */
  function LoopStep(s: State): State
    requires s.handler == Off && MainEnabled(s)
  {
    match s.main
    case Looping => s.(main := if !s.loop then Joining(0) else if s.nonblocking then Polling else Entering)
    case Polling => s.(main := Entering)
    case Entering => s.(main := Accepting)
    case Accepting => s.(main := if s.loop then Looping else Joining(0))
    case Locking(t) => s.(owner := Main, main := Adding(t))
    case Adding(t) => Add(s, t).(main := Broadcasting(t), late := if s.loop then s.late else s.late + [t])
    case Broadcasting(t) => s.(workers := WakeAll(s.workers), main := Releasing(t))
    case Releasing(t) => s.(owner := Nobody, main := if t.action == Shared then Entering else Looping)
    case Joining(k) =>
      if k < |s.workers| then s.(main := Joining(k + 1))
      else s.(main := Finished, dropped := s.queue, queue := [])
  }

  function WorkerStep(s: State, i: nat): State
    requires WorkerEnabled(s, i)
  {
    match s.workers[i]
    case Wanting | Woken => s.(owner := Worker(i), workers := s.workers[i := Checking])
    case Checking =>
      if s.queue == [] then s.(owner := Nobody, workers := s.workers[i := Asleep])
      else s.(workers := s.workers[i := Removing])
    case Removing =>
      if s.queue == [] then s.(workers := s.workers[i := Faulted]) else
      var c := s.queue[0];
      s.(queue := s.queue[1..], taken := s.taken + [(i, c)], workers := s.workers[i := Unlocking(c)])
    case Unlocking(c) => s.(owner := Nobody, workers := s.workers[i := Acting(c)])
    case Acting(c) => s.(workers := s.workers[i := if c.action == Terminate then Exited else Wanting])
  }

  function Cut(main: MainPc): Interruption {
    match main
    case Looping => BeforeTest
    case Polling => BeforePoll
    case Entering => BeforeAccept
    case Accepting => InAccept
    case Locking(t) => BeforeLock(t)
    case _ => HoldingMutex
  }

  function Do(s: State, a: Action): State
    requires Enabled(s, a)
  {
    match a
    case Arrive(t) => s.(main := Locking(t))
    case Interrupt => s.(loop := false, cut := Cut(s.main), handler := HandlerLocking(0))
    case InterruptAgain => s.(main := Joining(0), again := true)
    case MainMoves => MainStep(s)
    case WorkerMoves(i) => WorkerStep(s, i)
  }

  ghost predicate IsRun(n: nat, states: seq<State>, actions: seq<Action>) {
    && |states| == |actions| + 1
    && Init(n, states[0])
    && forall i :: 0 <= i < |actions| ==> Leads(states[i], actions[i], states[i + 1])
  }

  ghost predicate Leads(s: State, a: Action, s': State) {
    Enabled(s, a) && s' == Do(s, a)
  }

  // ---- What every step keeps ----

  predicate Holds(pc: WorkerPc) {
    pc == Checking || pc == Removing || pc.Unlocking?
  }

  predicate MainHolds(main: MainPc, handler: HandlerPc) {
    || main.Adding? || main.Broadcasting? || main.Releasing?
    || handler.HandlerAdding? || handler.HandlerBroadcasting? || handler.HandlerReleasing?
  }

  /** The main thread has added a token and not yet woken the sleepers. */
  predicate AboutToWake(main: MainPc, handler: HandlerPc) {
    main.Broadcasting? || handler.HandlerBroadcasting?
  }

  ghost predicate MutexInv(owner: Owner, workers: seq<WorkerPc>, main: MainPc, handler: HandlerPc) {
    && (owner == Main <==> MainHolds(main, handler))
    && (owner.Worker? ==> owner.id < |workers|)
    && forall i :: 0 <= i < |workers| ==> (Holds(workers[i]) <==> owner == Worker(i))
  }

  ghost predicate SleepInv(queue: seq<Entry>, workers: seq<WorkerPc>, main: MainPc, handler: HandlerPc) {
    && (forall i :: 0 <= i < |workers| && workers[i] == Asleep ==> queue == [] || AboutToWake(main, handler))
    && forall i :: 0 <= i < |workers| ==> workers[i] != Faulted && (workers[i] == Removing ==> queue != [])
  }

  function Tokens(taken: seq<(nat, Entry)>): (r: seq<Entry>)
    ensures |r| == |taken|
  {
    seq(|taken|, i requires 0 <= i < |taken| => taken[i].1)
  }

  /** The main thread is in its loop. */
  predicate InLoop(main: MainPc) {
    !main.Joining? && main != Finished
  }

  /** The token that the main thread has in hand. */
  function InHand(main: MainPc): Option<Entry> {
    match main
    case Locking(t) => Some(t)
    case Adding(t) => Some(t)
    case Broadcasting(t) => Some(t)
    case Releasing(t) => Some(t)
    case _ => None
  }

  /** Work comes from accept, or, when accept does not wait, from the poll. */
  predicate IsWork(nonblocking: bool, t: Entry) {
    t.action == Process || (nonblocking && t.action == Shared)
  }

  /** What the main thread has added after the interrupt and has in hand to add. */
  function Coming(s: State): seq<Entry> {
    if s.main.Locking? || s.main.Adding? then s.late + [s.main.t] else s.late
  }

  /** At most one request in shared memory, and then at most one connection. */
  predicate LateShape(nonblocking: bool, late: seq<Entry>) {
    || late == []
    || (|late| == 1 && IsWork(nonblocking, late[0]))
    || (|late| == 2 && nonblocking && late[0].action == Shared && late[1].action == Process)
  }

  /** What comes late, by where the interrupt was taken. */
  predicate LateFor(nonblocking: bool, cut: Interruption, late: seq<Entry>) {
    && LateShape(nonblocking, late)
    && match cut
       case BeforeLock(t) => late != [] && late[0] == t
       case BeforeAccept => forall i :: 0 <= i < |late| ==> late[i].action == Process
       case BeforePoll => nonblocking
       case _ => late == []
  }

  /** Where the main thread goes after the interrupt. */
  predicate AfterCut(s: State) {
    && LateFor(s.nonblocking, s.cut, Coming(s))
    && match s.main
       case Polling => s.cut == BeforePoll && s.late == []
       case Entering | Accepting =>
         && (s.cut == InAccept ==> s.main == Accepting)
         && s.cut != BeforeTest
         && (s.late == [] || (|s.late| == 1 && s.late[0].action == Shared))
       case Locking(t) => s.late == [] || (|s.late| == 1 && s.late[0].action == Shared && t.action == Process)
       case Adding(t) => s.late == [] || (|s.late| == 1 && s.late[0].action == Shared && t.action == Process)
       case Broadcasting(t) => s.late != [] && s.late[|s.late| - 1] == t
       case Releasing(t) => s.late != [] && s.late[|s.late| - 1] == t
       case _ => s.cut == BeforeAccept && !s.nonblocking ==> |s.late| == if s.again then 0 else 1
  }

  /** The main thread's own order of events. */
  ghost predicate MainInv(n: nat, s: State) {
    && (s.cut == Never <==> s.loop)
    && (s.loop ==> s.handler == Off && InLoop(s.main) && s.dropped == [] && s.late == [])
    && (s.main == Polling ==> s.nonblocking)
    && (s.again ==> !InLoop(s.main))
    && (InHand(s.main).Some? ==> IsWork(s.nonblocking, InHand(s.main).value))
    && (s.handler != Off ==> InLoop(s.main) && s.dropped == [] && s.late == [] && Cut(s.main) == s.cut)
    && (s.cut == HoldingMutex ==> s.handler == HandlerLocking(0) && MainHolds(s.main, Off))
    && (!s.loop && s.handler == Off ==> AfterCut(s))
  }

  ghost predicate HandlerInv(n: nat, s: State) {
    match s.handler
    case Off => true
    case HandlerLocking(k) => k < n && (s.cut != HoldingMutex ==> !MainHolds(s.main, Off))
    case HandlerAdding(k) => k < n && !MainHolds(s.main, Off)
    case HandlerBroadcasting(k) => k < n && !MainHolds(s.main, Off)
    case HandlerReleasing(k) => k < n && !MainHolds(s.main, Off)
  }

  ghost predicate SafeInv(n: nat, s: State) {
    && |s.workers| == n > 0
    && MutexInv(s.owner, s.workers, s.main, s.handler)
    && SleepInv(s.queue, s.workers, s.main, s.handler)
    && MainInv(n, s) && HandlerInv(n, s)
    && s.added == Tokens(s.taken) + s.queue + s.dropped
    && (s.main != Finished ==> s.dropped == [])
    && (s.main == Finished ==> s.queue == [])
    && (s.main.Joining? || s.main == Finished ==> s.handler == Off && !s.loop)
    && (s.main.Joining? ==> s.main.k <= n && forall i :: 0 <= i < s.main.k ==> s.workers[i] == Exited)
    && (s.main == Finished ==> forall i :: 0 <= i < n ==> s.workers[i] == Exited)
  }

  lemma WorkerLocksSafely(n: nat, s: State, i: nat)
    requires SafeInv(n, s) && WorkerEnabled(s, i)
    requires s.workers[i] == Wanting || s.workers[i] == Woken
    ensures SafeInv(n, WorkerStep(s, i))
  {
  }

  lemma WorkerChecksSafely(n: nat, s: State, i: nat)
    requires SafeInv(n, s) && WorkerEnabled(s, i) && s.workers[i] == Checking
    ensures SafeInv(n, WorkerStep(s, i))
  {
  }

  lemma WorkerRemovesSafely(n: nat, s: State, i: nat)
    requires SafeInv(n, s) && WorkerEnabled(s, i) && s.workers[i] == Removing
    ensures SafeInv(n, WorkerStep(s, i))
  {
    TokenIsTaken(s.taken, s.queue, s.dropped, i);
  }

  lemma TokenIsTaken(taken: seq<(nat, Entry)>, queue: seq<Entry>, dropped: seq<Entry>, i: nat)
    requires queue != []
    ensures Tokens(taken + [(i, queue[0])]) + queue[1..] + dropped == Tokens(taken) + queue + dropped
  {
    var c := queue[0];
    assert Tokens(taken + [(i, c)]) == Tokens(taken) + [c];
    assert queue == [c] + queue[1..];
  }

  lemma WorkerActsSafely(n: nat, s: State, i: nat)
    requires SafeInv(n, s) && WorkerEnabled(s, i) && (s.workers[i].Unlocking? || s.workers[i].Acting?)
    ensures SafeInv(n, WorkerStep(s, i))
  {
  }

  lemma WorkerKeepsSafe(n: nat, s: State, i: nat)
    requires SafeInv(n, s) && WorkerEnabled(s, i)
    ensures SafeInv(n, WorkerStep(s, i))
  {
    match s.workers[i]
    case Wanting | Woken => WorkerLocksSafely(n, s, i);
    case Checking => WorkerChecksSafely(n, s, i);
    case Removing => WorkerRemovesSafely(n, s, i);
    case _ => WorkerActsSafely(n, s, i);
  }

  lemma HandlerLocksSafely(n: nat, s: State)
    requires SafeInv(n, s) && MainEnabled(s) && (s.handler.HandlerLocking? || s.handler.HandlerReleasing?)
    ensures SafeInv(n, MainStep(s))
  {
  }

  lemma HandlerAddsSafely(n: nat, s: State)
    requires SafeInv(n, s) && MainEnabled(s) && (s.handler.HandlerAdding? || s.handler.HandlerBroadcasting?)
    ensures SafeInv(n, MainStep(s))
  {
  }

  lemma LoopAddsSafely(n: nat, s: State)
    requires SafeInv(n, s) && MainEnabled(s) && s.handler == Off && (s.main.Adding? || s.main.Broadcasting?)
    ensures SafeInv(n, MainStep(s))
  {
  }

  lemma LoopLocksSafely(n: nat, s: State)
    requires SafeInv(n, s) && MainEnabled(s) && s.handler == Off && (s.main.Locking? || s.main.Releasing?)
    ensures SafeInv(n, MainStep(s))
  {
  }

  lemma LoopAcceptsSafely(n: nat, s: State)
    requires SafeInv(n, s) && MainEnabled(s) && s.handler == Off
    requires s.main == Looping || s.main == Polling || s.main == Entering || s.main == Accepting
    ensures SafeInv(n, MainStep(s))
  {
  }

  lemma LoopJoinsSafely(n: nat, s: State)
    requires SafeInv(n, s) && MainEnabled(s) && s.handler == Off && s.main.Joining? && s.main.k < n
    ensures SafeInv(n, MainStep(s))
  {
  }

  lemma LoopFinishesSafely(n: nat, s: State)
    requires SafeInv(n, s) && MainEnabled(s) && s.handler == Off && s.main == Joining(n)
    ensures SafeInv(n, MainStep(s))
  {
    assert Tokens(s.taken) + s.queue + [] == Tokens(s.taken) + [] + s.queue;
  }

  lemma MainKeepsSafe(n: nat, s: State)
    requires SafeInv(n, s) && MainEnabled(s)
    ensures SafeInv(n, MainStep(s))
  {
    match s.handler
    case HandlerLocking(_) | HandlerReleasing(_) => HandlerLocksSafely(n, s);
    case HandlerAdding(_) | HandlerBroadcasting(_) => HandlerAddsSafely(n, s);
    case Off =>
      match s.main {
        case Adding(_) => LoopAddsSafely(n, s);
        case Broadcasting(_) => LoopAddsSafely(n, s);
        case Locking(_) => LoopLocksSafely(n, s);
        case Releasing(_) => LoopLocksSafely(n, s);
        case Joining(k) => if k < n { LoopJoinsSafely(n, s); } else { LoopFinishesSafely(n, s); }
        case _ => LoopAcceptsSafely(n, s);
      }
  }

  lemma ArrivalIsSafe(n: nat, s: State, t: Entry)
    requires SafeInv(n, s) && CanArrive(s, t)
    ensures SafeInv(n, Do(s, Arrive(t)))
  {
  }

  lemma InterruptIsSafe(n: nat, s: State)
    requires SafeInv(n, s) && Enabled(s, Interrupt)
    ensures SafeInv(n, Do(s, Interrupt))
  {
  }

  lemma SecondInterruptIsSafe(n: nat, s: State)
    requires SafeInv(n, s) && Enabled(s, InterruptAgain)
    ensures SafeInv(n, Do(s, InterruptAgain))
  {
  }

  lemma StepKeepsSafe(n: nat, s: State, a: Action)
    requires SafeInv(n, s) && Enabled(s, a)
    ensures SafeInv(n, Do(s, a))
  {
    match a
    case Arrive(t) => ArrivalIsSafe(n, s, t);
    case Interrupt => InterruptIsSafe(n, s);
    case InterruptAgain => SecondInterruptIsSafe(n, s);
    case MainMoves => MainKeepsSafe(n, s);
    case WorkerMoves(i) => WorkerKeepsSafe(n, s, i);
  }
}
