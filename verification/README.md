# A model of the shared-memory web server and proxy

The repository holds an HTTP server, a proxy and a client in C. Server and proxy run a pool of worker
threads. When both are on one machine and started with `-o`, they exchange requests and responses
through a shared memory node instead of a socket: a segment of fixed size, two state flags, one mutex
and one condition variable.

This project models that code in Dafny and proves what it does, and where it does not do what it is
meant to do.

| modules | what they model |
|---|---|
| `SharedProtocol`, `SharedInvariant` | the session on one memory node as a small-step transition system, and the invariant of its steps |
| `SharedDelivery`, `SharedLiveness`, `SharedRaces` | what every run delivers; that sessions end; the two races, with a run each and the condition that excludes them |
| `SharedSessions` | that every sequence of sessions can happen on a node, and that every long request can lose its start |
| `MemoryNode` | the memory nodes as objects changed in place, tied to the transition system |
| `WorkerPool`, `PoolShutdown` | main thread, workers, connection queue and interrupt handler, over whole runs |
| `PoolWork`, `PoolRuns` | that each connection is queued, taken and handled once, as it came; that all work can come, to any worker, and be done |
| `ConnectionList`, `PoolQueue` | the linked list behind the queue, with its pointers, tied to the pool's transition system |
| `Wire`, `Receive` | sockets with arbitrary short counts, sending, receiving, the header scanner, forwarding |
| `CText`, `HeaderFields`, `Response` | C strings, header fields, the printed response and its readers |
| `RoundTrip`, `ResponseFields` | exactly when a printed response is read back, for every title and every extra headers; what a reader finds in its status line and fields |
| `Transport` | the shared route and the socket route put the same bytes on the client's connection |
| `Routing`, `RequestToFile` | the client's request on its way through the proxy to the file that is opened |
| `PercentDecode`, `PathAdmission` | the in-place decoder and the tests on file names |
| `Listing` | the directory page and its announced length |

Code that updates variables or memory is a method, proved against a function of its inputs or of the old
state; the lemmas are about those functions. Code that runs concurrently is a step function: each step is
one access to a flag, one mutex or condition-variable operation, or one copy, and the comments on the
program counters give the source lines. A run is any sequence of enabled steps, so a statement about runs
is a statement about every interleaving.

## Assumptions

- The state flags are sequentially consistent. There are no spurious wakeups. A signal wakes the other
  party if it sleeps; proxy and worker are the only users of a node's condition.
- One proxy thread claims the node at a time, and claiming an IDLE node is one step. One node is in
  flight. A worker's `findState` at server.c:246 and its test of the result are one step.
- A test of the other side's flag and the release of the mutex in the wait that it guards are one step
  (proxy.c:747-748 and 772-773, server.c:322-326). The flag store without the lock (server.c:247) could fall
  between the two; its worker then needs the mutex to go on, so that it acts as if it had stored after the
  release.
- `SEGMENTSIZE` is a parameter greater than 0, and the requests, responses and interleavings are arbitrary.
- The interrupt is taken by the main thread, between any two of its operations. A blocking `accept` that is
  interrupted returns without a connection, an `accept` that does not wait (the server with `-o`) may always.
  Further interrupts matter only in `accept`, and there they are modelled.
- In the shared-memory protocol the server's polling loop never stops. After the server's own SIGINT
  (server.c:137) nothing finds a posted request any more, and its proxy thread waits at proxy.c:748 for ever.
- How many bytes a `send` or `recv` moves is arbitrary, from 1 up to what it may move. A connection may
  close or break at any point of what the peer sends, or after any number of bytes that it takes.
- Statements about sessions are about runs in which no worker has crashed (`SharedDelivery.Uncrashed`); when
  that can happen is stated exactly below.
- A byte is a `char`. A C string is the part of a buffer before its first NUL.
- Fixed-size buffers are large enough, except where the model names their size: the response header
  (`HEADER_BUFFER`), the URL to strip (`FIND_BUFFER`), the port (`PORT_BUFFER`), the listing
  (`PAGE_BUFFER`) and the link of `appendStr`.

## Where the code is not what its documentation or callers expect

- The polling loop reads the flags of a node in two steps. If a session ends between them, a token is
  queued for a request that is gone, `findState` returns NULL in the worker and the worker dereferences
  it (`SharedRaces.StaleTokenCrashesWorker`). Without such a poll no run crashes
  (`SharedRaces.FreshRunsNeverCrash`), every such poll can crash (`SharedRaces.StalePassCanCrash`), and in
  any state the crash can be avoided for good exactly when the token in it belongs to a posted request
  (`SharedRaces.CrashIsDecided`).
- A proxy that finds WAITING_CONT_PRXY at proxy.c:747 skips its first wait. If its request then needs more
  than one segment, the first segment is overwritten before it is read
  (`SharedRaces.RequestCanLoseItsStart`). Exactly these requests are damaged, and they lose exactly their
  first segment (`SharedDelivery.SessionsDeliver`); it can happen to every one of them
  (`SharedSessions.EveryLongRequestCanLoseItsStart`).
- The test at proxy.c:772 never finds COMPLETE: the proxy always waits there.
- The interrupt handler waits for the list's mutex. If the main thread was interrupted while it held the
  mutex, the process never ends (`PoolShutdown.InterruptCanDeadlock`, `PoolShutdown.SelfDeadlockIsForEver`).
- An interrupt between the test of `LOOP` and a blocking `accept` is not heard: all workers exit, and the
  main thread waits in `accept` until one more connection or a second interrupt comes
  (`PoolShutdown.InterruptCanHang`, `PoolShutdown.NeverHears`).
- The handler's tokens do not reach a worker that is handling a connection or a request. If that never ends
  (a client that sends nothing, say, or a proxy thread whose server has stopped polling), the main thread
  waits in `pthread_join` for ever (`PoolShutdown.ClientCanHoldUp`).
  These three are the only ways not to finish (`PoolShutdown.ShutdownCompletes`).
- Work that the main thread adds after the interrupt is never handled: a connection already accepted, the
  connection that ends the wait above, or a request in shared memory (`PoolShutdown.ShutdownOutcome`).
- `destroyCon` on the head node frees it and leaves the head pointer on it; `removeHead` does not count
  `numNodes` down.
- `strcasestr` never finds a match that ends at the last byte.
- `chopPortNum` eats digits at the end of a host without a port, and `getPortNumber` ignores the port of a
  host that ends in 'p'.
- `recvAll_Forward` returns its count as an `int`: when header and body of a response reach 2^31 bytes the
  proxy takes it for a failure and sends an error page behind the complete response. Only then do the two
  routes differ (`Transport.TransportEquivalence`).
- `recvAll` with an unknown length cuts one byte off the header and returns no body (`Receive.WithoutLength`).
- `getStatusCode` parses the copied number together with what its buffer holds behind it, which changes a
  status of 5, 7, 9 or 10 digits (`ResponseFields.StatusComesBack`).
- A Content-Length among the extra headers of a response wins over the real one, and one without a colon on
  its line hides the real one. The redirects for directories named `content-length:0` and `content-length`
  arrive without their body (`Response.RedirectLosesBody`, `RoundTrip.NamelessRedirectLosesBody`).
  `RoundTrip.ExtraHeadersDecide` says exactly which responses arrive whole.
- `appendStr` drops the line feed of every link; the announced size of a listing is right all the same.
- The client's direct form puts a second '/' before a name that has one, and the server refuses it.
- The server parses what one `recv` brings. A request whose first chunk does not reach behind the path is
  refused with status 400 (`RequestToFile.SocketServesWhatWasAsked`, `RequestToFile.DirectAndProxied`).
- A response header of 9,999 bytes or more is cut, and with it the blank line (`RoundTrip.RoundTripIsExact`).

## Model

| member | source | states |
|---|---|---|
| SharedInvariant.PassIsSlice | functions/processShared.c:100-115 | a pass puts exactly the next slice of the message, at most one segment, into the node; the slices join to the message |
| SharedInvariant.StepKeeps | functions/processShared.c:76-140 | the invariant of the session (mutex owner, both flags, one token, who may be where, what has been transferred) is kept by every step of proxy, worker and polling loop that does not crash |
| SharedInvariant.ProxyKeeps | proxy.c:733-812 | every step of the proxy's half of a session keeps the invariant |
| SharedInvariant.WorkerKeeps | server.c:245-261 | every step of the worker's half that finds its node keeps the invariant |
| SharedInvariant.WorkerTakes | server.c:333-341 | the worker's read appends the segment to `line` exactly once |
| SharedInvariant.PollKeeps | server.c:147-158 | the polling loop keeps the invariant: it never queues a second token |
| SharedDelivery.RunKeepsInv | functions/processShared.c:76-140 | in every run without a crash, the invariant holds in every state |
| SharedDelivery.SessionsDeliver | proxy.c:743-810 | in every interleaving, for any segment size, the client gets exactly the response; the worker's line is exactly the request if and only if not (the proxy skipped its first wait and the request needs several segments), and otherwise lacks exactly the first segment |
| SharedDelivery.PartialDelivery | proxy.c:769-809 | what the client has got of an unfinished response is a prefix of it |
| SharedDelivery.LineFits | server.c:319-347 | copying the next segment keeps `line` within the length of the request |
| SharedDelivery.SegmentReadOnce | functions/processShared.c:97-187 | every read finds an unread, non-empty segment; every write finds a read one, except for the lost first segment; reader and writer hold the mutex |
| SharedDelivery.ExchangesPair | server.c:245-261 | over any number of sessions, the k-th finished exchange is the k-th request claimed with the k-th response produced |
| SharedDelivery.SessionsDoNotMix | functions/processShared.c:82-85 | `serverState` is non-IDLE exactly while one token is being queued, is queued or is served; a stale COMPLETE lets neither side of a new session pass early; `sendShared` picks its caller's own flag |
| SharedLiveness.NoCrashStep | server.c:245-247 | a step that is no stale poll keeps the invariant and keeps the token with a posted request |
| SharedLiveness.NeverStuck | functions/processShared.c:97-136 | while a session, a token or a worker is under way, some party other than an idle poll can move: no deadlock, no lost wakeup |
| SharedLiveness.StepAdvances | proxy.c:743-810 | every step that does not crash lowers the session's rank (stage, then unsent bytes and program counters), except that an idle poll may keep it |
| SharedLiveness.SessionEnds | server.c:316-347 | every session in an endless run that never crashes ends, with its exchange recorded and its response delivered, if idle polls do not take all the turns |
| SharedLiveness.NodeRests | server.c:245-261 | after a session the worker leaves too and `serverState` is IDLE again, unless a new request is claimed before |
| SharedLiveness.EndlessRunKeepsInv | functions/processShared.c:76-140 | an endless run that never crashes keeps the invariant for ever |
| SharedLiveness.FreshRunNeverCrashes | server.c:147-158 | an endless run without a stale poll is one that never crashes |
| SharedRaces.RequestCanLoseItsStart | proxy.c:747-760 | a run of the system in which the request "ab" reaches the worker as "b" |
| SharedRaces.StaleTokenCrashesWorker | server.c:150-152 | a run of the system in which the worker's `findState` returns NULL |
| SharedRaces.StalePassCanCrash | server.c:246-247 | from every stale poll, five steps lead to the crash |
| SharedRaces.FreshRunsNeverCrash | server.c:246-247 | a run without a stale poll never crashes the worker |
| SharedRaces.CrashIsDecided | server.c:147-158 | in any state that satisfies the invariant, the token belongs to a posted request if and only if no continuation without a further stale poll crashes |
| SharedSessions.ClaimIsPossible | proxy.c:733-743 | whenever no proxy thread is at the node, its proxy flag is IDLE and the next thread can claim it, with any request |
| SharedSessions.ServeIsPossible | server.c:360-471 | a worker that has the request can produce any response |
| SharedSessions.EverySequenceHappens | server.c:245-261 | for every segment size and every sequence of non-empty requests and responses, some run exchanges exactly these, each whole, in this order, and leaves the node at rest |
| SharedSessions.EveryLongRequestCanLoseItsStart | proxy.c:747-760 | for every segment size, every longer request and every response, some run loses exactly the first segment of the request |
| MemoryNode.MemNode.constructor | headers/memList.c:34-51 | a new node is empty and IDLE on both sides |
| MemoryNode.MemNode.Map | headers/memList.c:175-197 | `setMapping` overwrites the front of the segment, leaves the rest, and records the length: the transition system's `SetMapping` |
| MemoryNode.MemNode.Receive | functions/processShared.c:159-187 | `receiveShared` copies out exactly the recorded bytes, or NULL when there are none |
| MemoryNode.Join | functions/processShared.c:88-94 | the message buffer is the header followed by the body |
| MemoryNode.FindState | headers/memList.c:80-92 | `findState` gives the first node whose proxy flag matches, or nothing exactly when none does |
| WorkerPool.StepKeepsSafe | server.c:214-241 | every step of main thread, handler and workers keeps mutex ownership, the sleepers' condition, the token order, the joined workers and what may come late right |
| PoolShutdown.RunKeepsAccount | server.c:504-511 | in every run: work first, then the TERMINATE tokens, then what the main thread adds late; every TERMINATE taken is in hand or an exited worker |
| PoolShutdown.QueueIsSafe | server.c:217-222 | in every run a worker sleeps, with the mutex free, only on an empty list; `removeHead` never returns NULL; tokens leave in the order they were added, each to one worker |
| PoolShutdown.TokensConserved | server.c:504-511 | TERMINATE tokens queued, in hand and turned into exited workers always add up to the TERMINATE tokens in the history of what was added |
| PoolShutdown.ShutdownOutcome | server.c:603-646 | a finished run has seen every worker exit and all work taken before any TERMINATE; left in the list is exactly what the main thread added after the interrupt: nothing, the connection in hand, or the one that ended its wait (none if a second interrupt did), by where the interrupt was taken |
| PoolShutdown.ShutdownIsShort | proxy.c:555-562 | after the interrupt, a bounded number of steps is left, late arrivals and a second interrupt included |
| PoolShutdown.ShutdownNeverStuck | proxy.c:200-237 | after the interrupt the pool moves by itself (no connection, no signal, no end of a worker's handling) until it is finished, unless the handler deadlocked with its own thread, the main thread waits in accept, or a worker is handling a connection or a request |
| PoolShutdown.ShutdownCompletes | proxy.c:132-163 | an interrupted run in which the pool cannot move by itself any more is finished if and only if the interrupt was taken neither with the mutex held nor, with no connection and no second interrupt since, between the test of LOOP and a blocking accept, and no worker is handling a connection or a request |
| PoolShutdown.SelfDeadlockIsForEver | server.c:507-507 | a handler that waits for its own thread's mutex waits for ever, and the mutex is never free again |
| PoolShutdown.InterruptCanDeadlock | server.c:179-182 | a run, for any number of threads, that ends in that deadlock |
| PoolShutdown.NeverHears | proxy.c:137-142 | past the test of LOOP, the main thread leaves for its next test exactly by a connection or a second interrupt |
| PoolShutdown.InterruptCanHang | proxy.c:132-141 | a run, for any number of threads, that ends with all workers gone and the main thread waiting in accept |
| PoolShutdown.ClientCanHoldUp | server.c:296-302 | a run with one connection whose handling does not end: the interrupt was heard, the other workers are gone, and the main thread waits for that worker in pthread_join |
| PoolWork.ArrivalsAreQueued | server.c:179-182 | in every run, the work ever added to the list, followed by what the main thread is about to add, is exactly what accept and the poll have yielded, in order |
| PoolWork.WorkIsConserved | server.c:150-182 | in every run, what has arrived is what workers have taken, what is in the list or was left in it, and what is about to be added, in this order |
| PoolWork.TakenIsHandled | server.c:221-241 | in every run, the tokens that a worker has taken are those it has handled, in order, and at last the one in its hands |
| PoolRuns.ConnectionCanCome | proxy.c:139-155 | an accept that was not interrupted can return any connection, and that connection is added next |
| PoolRuns.RequestCanCome | server.c:147-156 | the poll can find a request, and that request is added next |
| PoolRuns.InterruptCanCome | server.c:484-504 | the first interrupt can come wherever the main thread and the workers are |
| PoolRuns.SecondInterruptCanCome | server.c:162-164 | a later interrupt can end a wait in accept |
| PoolRuns.EveryWorkIsDone | server.c:137-241 | for any number of workers, any work and any choice of workers, some run sees this work arrive and be taken in this order by these workers, and finishes |
| PoolQueue.QueueWork | server.c:179-182 | `addTail` on the pointers is the main thread's step on the queue |
| PoolQueue.QueueStop | server.c:507-510 | `addTail` on the pointers is the handler's step on the queue |
| PoolQueue.IsIdle | server.c:218-219 | the worker sleeps exactly when the list is empty |
| PoolQueue.TakeWork | server.c:221-222 | in every run `removeHead` on the pointers gives the worker the token that the transition system takes, never NULL |
| ConnectionList.Connection.constructor | headers/conList.c:40-50 | a new node holds its entry and points nowhere |
| ConnectionList.ConList.constructor | headers/conList.c:20-31 | a new list is well-formed and empty |
| ConnectionList.ConList.IsEmpty | headers/conList.c:56-62 | true exactly for the empty list |
| ConnectionList.ConList.AddHead | headers/conList.c:72-84 | a new node in front, the others unchanged, the pointers well-formed |
| ConnectionList.ConList.AddTail | headers/conList.c:94-107 | a new node at the end, the others unchanged, the pointers well-formed |
| ConnectionList.ConList.RemoveHead | headers/conList.c:113-127 | returns the first node and leaves the rest; NULL exactly for the empty list; `numNodes` unchanged |
| ConnectionList.ConList.FindCon | headers/conList.c:133-143 | the first node for the connection, or NULL when there is none |
| ConnectionList.ConList.DestroyCon | headers/conList.c:150-169 | takes out and frees exactly the first node for the connection; when that is the head, the list is left pointing at a freed node |
| ConnectionList.ConList.Unlink | headers/conList.c:153-162 | the pointer changes for one node: the chain without it, or a broken list when it is the head |
| ConnectionList.ConList.DestroyAll | headers/conList.c:175-183 | frees each node of the list exactly once |
| ConnectionList.RunAll | headers/conList.c:20-183 | any sequence of operations that destroys no head node leaves an acyclic chain from head to tail that represents the result on sequences |
| Wire.Socket.Send | functions/sendAll.c:27-31 | one `send` takes a non-empty front part of the buffer, or fails when the connection takes no more |
| Wire.SendAll | functions/sendAll.c:20-39 | success exactly when the connection takes the whole buffer; what is written is the buffer once and in order, or the part of it that the connection took |
| Wire.AnyCut | functions/sendAll.c:27-31 | one call can move any number of bytes from 1 up to what it may move |
| Receive.TakenTwice | functions/sendAll.c:20-39 | two buffers sent one after the other arrive like one, however much the connection takes |
| CText.StrCaseStr | functions/strcasestr.c:17-47 | the first match, ignoring case, among those that do not end at the last byte, or nothing |
| CText.NotAtTheEnd | functions/strcasestr.c:17-47 | a match that is the end of the haystack is not found, and with one more byte it is |
| CText.UpperIs | functions/strcasestr.c:25-36 | comparing ignores the case of the 26 letters and of nothing else |
| CText.AtoiIs | functions/getHeaderField.c:90-113 | white space before a number is skipped and one sign is read |
| CText.DigitsAreDecimal | functions/sendResponse.c:30-30 | numbers are printed in decimal |
| CText.AtoiOfDigits | functions/getHeaderField.c:90-113 | reading a printed number gives it back, whatever non-digit follows |
| HeaderFields.GetHeaderField | functions/getHeaderField.c:28-79 | the value between the colon after the first match and the end of the match's line, leading spaces removed; NULL without match, colon or end of line, and when the colon is in a later line |
| HeaderFields.SizeOfValue | functions/getHeaderField.c:64-70 | the size of the value is positive when the colon comes before the end of line, and otherwise negative, never 0 |
| HeaderFields.LookupFinds | functions/getHeaderField.c:28-79 | on a well-formed header, searching "\nName" gives the trimmed value of the first field whose name begins with Name, and NULL when there is none |
| HeaderFields.MoveToken | functions/getStatusCode.c:33-41 | the bytes up to the next space are copied to the front of the same buffer, the rest stays |
| HeaderFields.GetStatusCode | functions/getStatusCode.c:16-47 | the number read from the second word together with what is left behind it in the buffer |
| ResponseFields.StatusNeedsTwoSpaces | functions/getStatusCode.c:16-47 | a status is found exactly if the first 100 bytes of the header hold two spaces |
| Receive.WindowShowsBlankLine | headers/recvAll.c:183-221 | the reversed window of four bytes matches exactly when the bytes received end in a blank line |
| Receive.RecvHeader | headers/recvAll.c:172-254 | reads exactly the shortest prefix that ends in a blank line, for every chunking, and the body length it announces; all bytes or nothing when there is no blank line |
| Receive.AnnouncedLength | headers/recvAll.c:229-239 | Content-Length, else -1 for status 200, else 0 |
| Receive.RecvHeaderMem | headers/recvAll.c:269-321 | the header at the front of a block of memory, up to its first blank line before any NUL |
| Receive.MemoryAgreesWithSocket | headers/recvAll.c:269-321 | on a block without NUL that holds a header, reading memory and reading a socket give the same header and lengths |
| Receive.CollectTakesAll | headers/recvAll.c:61-92 | when the peer sends no more than is wanted, the body loop collects everything, for every chunking |
| Receive.CollectTakesPrefix | headers/recvAll.c:61-92 | the body loop loses and reorders nothing: collected and remaining bytes join to what was sent |
| Receive.RecvAll | headers/recvAll.c:34-93 | header and collected body, with both lengths, and each failing case |
| Receive.NoBlankLine | headers/recvAll.c:172-254 | without a blank line all bytes come back as the header, NULL when there are none or the connection breaks, and there is no body |
| Receive.WithoutBody | headers/recvAll.c:34-56 | with a length of 0 the header comes back alone, with a negative one it loses as many bytes |
| Receive.WithoutLength | headers/recvAll.c:229-239 | without a Content-Length, a 200 comes back without its last header byte and without body, any other status as its header |
| Receive.FetchIsFront | headers/recvAll.c:61-92 | with an announced length, what comes back is the front of what was sent, no longer than announced, and shorter only if the peer closed after all of it; NULL only if the connection broke before the end, and more than announced only if more was sent |
| Receive.RecvAllNoData | headers/recvAll.c:116-152 | the total and the body length of the same bytes, without storing them |
| Receive.CountingRefinesStoring | headers/recvAll.c:116-152 | on the same received bytes, counting gives the lengths of what storing returns; where storing returns NULL, counting gives -1 exactly for a body that breaks off, and else the bytes of the header |
| Receive.RecvAllForward | functions/xmlrpc.c:30-179 | header and received body are forwarded once and in order, as far as the connection takes them; the count is -1 exactly when the peer or the client breaks, else the length of both, also on early close and unknown length |
| Response.SendResponse | functions/sendResponse.c:23-72 | the socket branch writes header and body once and in order, or the part of them that the connection takes |
| Response.HeaderEndsAtBlank | functions/sendResponse.c:30-30 | the first blank line of the message is the end of its printed header |
| Response.HeaderAnnouncesBody | functions/sendResponse.c:30-30 | the printed header announces the length of the body |
| Response.ResponseIsScanned | headers/recvAll.c:172-254 | every reader gets exactly the printed header and the body's length, for every chunking |
| Response.ResponseRoundTrip | headers/recvAll.c:34-93 | `recvAll` on a printed response returns header ++ body with both lengths right, and `recvAll_NoData` their sum, for every chunking, body and mime, when title and extra headers contain neither "content-length" nor a blank line |
| Response.ExtraHeaderWins | headers/recvAll.c:229-234 | with a Content-Length among the extra headers, that number is the announced length |
| Response.RedirectLosesBody | server.c:402-406 | an input on which the round trip fails: a redirect that arrives without its body |
| RoundTrip.RoundTripIsExact | headers/recvAll.c:34-93 | for every framed response, `recvAll` on what `sendResponse` sends returns exactly the message for every chunking if and only if the header fits its buffer and the announced length covers the body (when the peer closes), or is exact (when the connection may break) |
| RoundTrip.HeaderAnnounces | headers/recvAll.c:229-239 | the announced length from what a caller passes: the number of the first Content-Length in title and extra headers, else the body's length; without a value on its line 0, or -1 for status 200 |
| RoundTrip.ExtraHeadersDecide | functions/sendResponse.c:23-72 | for every status, title, extra header lines, mime and body: the round trip holds for every chunking if and only if the header fits its buffer and that number covers the body, or is exact when the connection may break |
| RoundTrip.NamelessRedirectLosesBody | server.c:402-406 | a second failing input: a Content-Length without a value in the redirect's path |
| ResponseFields.FieldsComeBack | functions/sendResponse.c:30-30 | whatever extra fields a caller adds, asking the printed header for a field gives the first of that name, those of the caller before length and type |
| ResponseFields.TypeComesBack | functions/sendResponse.c:30-30 | the type of the body comes back, with the space printed behind it |
| ResponseFields.StatusLineIs | functions/sendResponse.c:30-30 | the first line of the header is protocol, status and title |
| ResponseFields.StatusComesBack | functions/getStatusCode.c:16-47 | the status comes back from a printed header exactly when it does not have 5, 7, 9 or 10 digits |
| ResponseFields.HeaderIsCut | functions/sendResponse.c:30-32 | a header of 9,999 bytes or more is cut to 9,998, and the body follows |
| Transport.ProxyForwards | proxy.c:422-462 | the client gets the received header and body, followed by the error page when forwarding failed or the count is negative, or the error page alone without a header; a connection that breaks gets a prefix |
| Transport.ForwardOrFail | proxy.c:450-460 | header and received body, with the error page behind them when the peer breaks or the count is negative; a connection that breaks gets a prefix |
| Transport.FailureIs | functions/sendError.c:21-31 | the page of a failing proxy, written out |
| Transport.FailureIsFetched | functions/sendError.c:21-31 | whoever fetches that page gets it whole |
| Transport.HeaderlessReply | proxy.c:422-437 | a peer without a blank line: the page alone when it sends nothing or breaks, else its bytes |
| Transport.BrokenReply | proxy.c:450-460 | a peer that breaks inside its body: what has come with the page behind it; one that closes there: what has come |
| Transport.SocketRoute | functions/sendResponse.c:50-71 | printed by the server, cut by the network and forwarded by the proxy, the message arrives whole, with the error page behind it when it reaches 2^31 bytes |
| Transport.ResponseIsForwarded | functions/xmlrpc.c:30-179 | the loop forwards a printed response as it is, for every chunking |
| Transport.ResponseIsAnswered | proxy.c:450-462 | the proxy adds the error page to a printed response exactly when header and body reach 2^31 bytes |
| Transport.TransportEquivalence | functions/sendResponse.c:34-71 | for every run, segment size and chunking, the shared route and the socket route give the client the same bytes if and only if header and body together are shorter than 2^31 bytes |
| Transport.SocketRouteIsWhole | functions/xmlrpc.c:39-133 | any message at all is forwarded whole for every chunking if and only if the length it announces covers its body |
| Transport.RoutesAgree | functions/sendResponse.c:34-71 | for any response at all, in every run, the socket route forwards what the shared route delivers for every chunking if and only if the announced length covers the body |
| Routing.ChopPortNum | functions/getHeaderField.c:124-156 | cuts off a colon and the digits and spaces after it, or else trailing digits and spaces; undefined in C when nothing else is there |
| Routing.ChoppedOnce | functions/getHeaderField.c:124-156 | that description determines the result |
| Routing.ChopGivesHost | functions/getHeaderField.c:124-156 | with a port the host comes back; without one, exactly when its last byte is no digit, space or colon |
| Routing.PortComesBack | functions/getHeaderField.c:90-113 | a printed port comes back if and only if the host does not end in 'p' or the port is 80 |
| Routing.DefaultPort | functions/getHeaderField.c:90-113 | a Host without a port has port 80 |
| Routing.PortBehindColon | functions/getHeaderField.c:90-113 | of any Host with a colon: 80 after a 'p', else the number behind the last colon, unless it has 100 bytes or more |
| Routing.StripAbsURL | functions/stripAbsURL.c:21-85 | the header without the scheme and as many bytes as the Host field has, after its first space; NULL without Host; undefined when they are not there |
| Routing.CutURL | functions/stripAbsURL.c:57-84 | the offsets and the two copies give exactly the cut header |
| Routing.StripShortens | functions/stripAbsURL.c:41-42 | the new length is the old one less scheme and host, and the new header is not empty |
| Routing.StripFails | functions/stripAbsURL.c:21-85 | NULL exactly without a Host field; out of bounds exactly without a space, with a Host of more than 9,991 bytes, or with too few bytes after the first space |
| Routing.StripIsExact | functions/stripAbsURL.c:21-85 | for every well-formed request with an absolute URL, the result is the same request with a relative target if and only if the Host field is as long as the URL's authority |
| Routing.RoutingRoundTrip | client.c:170-174 | for every request that the client builds for the proxy, host, port and relative request come back (the port exactly when the host does not end in 'p' or it is 80), shorter by scheme and authority |
| Routing.PortlessRoundTrip | client.c:170-174 | the same for a Host without a port: the port is 80, the request is stripped, and the host comes back exactly when its last byte is no digit or space |
| Routing.RequestsAreThese | client.c:170-182 | the two forms of the request, written out |
| RequestToFile.CheckRequest | server.c:361-393 | the server's verdict on a request: status 400, 501, or the file name to serve |
| RequestToFile.VerdictIs | server.c:361-393 | for every request of three words: 501 exactly when the method is not g, e, t in either case, else 400 when the path does not begin with '/', else the verdict on the decoded name |
| RequestToFile.FewWordsAreBad | server.c:361-364 | no request, one word and two words are bad requests |
| RequestToFile.RelativeIsParsed | server.c:361-364 | the stripped request is read as GET and the target |
| RequestToFile.ServesWhatWasAsked | server.c:361-393 | whatever percent-encoding of a name is asked for, exactly that name is served when it is relative and has no ".." component, the root for the empty name, and refused otherwise |
| RequestToFile.CheckSocket | server.c:296-302 | a request on a socket is what one `recv` of at most 19,999 bytes brings; nothing is a bad request |
| RequestToFile.ChunkIsBounded | server.c:277-299 | one `recv` takes at most 19,999 bytes |
| RequestToFile.PrefixParses | server.c:361-364 | a front part of a request of three words is read like the whole if and only if it reaches into the third |
| RequestToFile.SocketServesWhatWasAsked | server.c:296-393 | over a socket, that name is served or refused as above exactly if the first `recv` brings a byte behind the path; if not, the answer is 400 |
| RequestToFile.EveryNameCanBeAsked | server.c:361-393 | for every name of bytes there is a request that asks for it |
| RequestToFile.AskedIsServed | proxy.c:754-760 | from the client's request through proxy and shared memory to the verdict, and the response back, in every run |
| RequestToFile.DirectIsThis | client.c:180-182 | the direct form of the request, written out |
| RequestToFile.DirectAndProxied | client.c:180-182 | what the first `recv` brings of the direct form asks for the same file as the proxied form exactly when the name has no '/' of its own and a byte behind the name has come; otherwise it is refused |
| PercentDecode.DecodeShrinks | functions/strDecode.c:23-34 | decoding shortens the string by two bytes for each escape |
| PercentDecode.DecodeUndoesEncoding | functions/strDecode.c:23-50 | a string decodes to another if and only if it is an encoding of it: each byte escaped by its two hex digits, in either case, or as it is where that does not look like an escape |
| PercentDecode.EveryStringHasEncoding | functions/strDecode.c:23-34 | every string of bytes has an encoding of escapes alone |
| PercentDecode.StrDecodeInPlace | functions/strDecode.c:23-34 | with both arguments the same buffer, the buffer holds the string that its old string encodes; nothing past the terminator is read or changed |
| PercentDecode.Hexit | functions/strDecode.c:37-50 | the place of a hex digit in "0123456789abcdef" or "0123456789ABCDEF", and 0 for any other byte |
| PathAdmission.DotDotShows | server.c:387-389 | a string has a ".." component if and only if it shows one of the four shapes that are tested |
| PathAdmission.TestsAdmitExactly | server.c:387-389 | the five tests accept exactly the relative names without a ".." component, whatever memory lies before the name |
| PathAdmission.NoDotDotStaysAbove | server.c:386-393 | walking components without ".." never goes above the start |
| PathAdmission.WalkIs | server.c:386-393 | in such a walk ".." leads up, a name down, and "." and the empty component nowhere |
| PathAdmission.AdmitPath | server.c:373-393 | decoding in the path buffer and testing yields a name exactly when the decoded name is admissible, and its walk stays at or below the root |
| Listing.AppendStr | functions/appendStr.c:14-54 | the first string as it is; later ones appended, as a link without its line feed unless they show the server's name |
| Listing.ListDirectory | server.c:427-453 | for every list of names the page holds each name once, in order, and the announced size is the length of the page |
| Listing.PageNamesItsDirectory | server.c:433-434 | the page starts with its title, which names the directory, when it fits the buffer |
| Listing.PageEndsWithAddress | server.c:445-446 | the page ends with the server's name and address, written out |
| Listing.NameIsOnPage | functions/appendStr.c:14-54 | every name stands on the page right behind the entries of the names before it, as a link, or as it is when it shows the server's name |
| Listing.ListingIsHtml | server.c:453-453 | a reader finds status 200 and type text/html |
| Listing.ListingRoundTrip | server.c:453-453 | whoever fetches a listing gets exactly the page, for every chunking |

## Left out

- Sockets, files, directories, `mmap`, `shm_open`, DNS and signals as system calls; creation and destruction of the shared segments and of the metanode.
- Image compression and XML-RPC: the compressed branches of `sharedProxy` and `recvAll_Forward`, and everything under `rpc/`.
- Several proxy threads racing for one IDLE node, and several nodes waiting at once: the search takes no lock. The claim is one step and there is one node.
- Spurious wakeups and weaker memory orders; the mutex and condition are not marked process-shared by the code, which is ignored.
- Allocation failures, debug output, and the fallbacks from shared memory to sockets before a node is claimed.
- A client that stops reading while a response passes through shared memory: the proxy goes on reading the segments, and the bytes that `sendAll` could not write are lost. What the shared route delivers is what the proxy hands to `sendAll`.
- `printArgs`, `contentType`, `isOptimized`, `copyLength`, `fileContents` and `recvBody_Mem`: easy, unused or part of the compressed route. `sendError` is modelled as the response it sends.
- The lengths of `line`, `method` and `path` in `checkAndSend`: requests are assumed to fit.
- Bodies of 2^31 bytes and more: their readers parse the announced length with `atoi`, which C leaves undefined there.
- CText.AtoiOfDigits: numbers are unbounded, since C leaves an `atoi` that overflows undefined.
- Receive.RecvAllForward: byte counts are unbounded except for the `int` that is returned, which wraps around.
- Listing.ListDirectory: lengths are unbounded; the page is taken to be shorter than 2^31 bytes where it is sent.
- HeaderFields.GetStatusCode: a header without two spaces in its first 100 bytes makes the code read outside its buffer, which the model reports as no status.
- RoundTrip.ExtraHeadersDecide: the extra headers are whole lines, as callers pass them; `RoundTrip.RoundTripIsExact` has no such condition.
- The programs in `tests/` and the vendored headers.
