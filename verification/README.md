# Thallium runtime: verified model

Thallium starts a coordinator, a number of worker daemons, and the network and logging machinery
between them. This project models that runtime in Dafny and proves what the pieces guarantee, each on
its own and put together. `dafny verify dfyconfig.toml` checks all of it.

The pieces, from the bottom up:

* **Serializer** (`Serializer.dfy`, `Archives.dfy`): a grammar of types, what the save operators write,
  what the load operators read, the size calculator, and the archive objects with their cursors.
* **Write pump, receive loop, connection** (`WritePump.dfy`, `Framing.dfy`, `Connection.dfy`): the two
  halves of a connection as state machines over completions of asynchronous operations, and the
  connection object whose callbacks are proved to be steps of those machines.
* **Heartbeats** (`Heartbeat.dfy`): sender and checker in real time, for any interval.
* **Registration** (`RuntimeProtocol.dfy`, `Coordinator.dfy`, `Registration.dfy`): the messages and the
  cookie, the coordinator and worker objects, the coordinator against arbitrary traffic, and the whole
  distributed system with its termination measure.
* **End to end** (`EndToEnd.dfy`, `WireHalf.dfy`, `WireRegistration.dfy`, `WireProgress.dfy`): what each
  layer makes of the registration messages, and then the whole registration as one system in which
  hellos, heartbeats, acknowledgements and the peer map travel as frames through write pumps, bytes and
  receive loops: its safety, when it completes, that it does not run on and that it does not stop short.
* **Concurrency** (`LockFreeChannel.dfy`, `LockQueue.dfy`, `SenderSideQueue.dfy`, `Logger.dfy`): the
  three queues under every interleaving of their atomic steps, and the logger daemon's shutdown.
* **Text** (`Formatter.dfy`, `SplitJoin.dfy`): the brace formatter, and split and join.

Code that changes objects step by step is a class here. Its methods are proved to take the steps of the
machine the theorems are about: the methods of the connection, the queues, the ring, the logger, the
heartbeat ends, the coordinator and the worker each state which step or steps they are, and the
connection keeps the trace of its steps, so that the results about whole runs are stated of the object
as well. A run is always any list of steps each enabled in its turn, so the theorems hold for every
interleaving.

## Where the code and its evident intent differ

The model follows the code. Each of these is proved, with the exact condition under which the intent
still holds.

* A write takes the back of the write queue and a completion pops the front
  (`src/network/connection.cpp:142-149`), also when the write was cancelled part-way
  (`src/network/connection.cpp:117-140`). Every frame goes out whole and in its turn exactly when no send
  ever finds two frames still queued and no write is cancelled part-way; a write out of turn loses some
  frame for good (`WritePump.DrainedInOrderIff`, `WritePump.OutOfOrderLoses`,
  `WritePump.CancelledSendsPart`).
* A receive buffer that is too small is resized to its own capacity (`src/network/connection.cpp:98-101`),
  although the comment says it is doubled. Bodies over 8192 bytes are never delivered and close the
  connection (`Framing.FramingRoundTrip`).
* The hello message writes the cookie only (`src/runtime_protocol.hpp:76-78`), so the peer map has the
  right keys and no addresses. An entry of it takes 14 bytes, and registration on the wire completes if
  and only if there are at most 584 workers (`WireRegistration.WireCompletesIff`,
  `WireProgress.WireNeverDeadlocks`).
* The coordinator counts connections where cookies are what it hands out. A registration completes
  exactly on the traffic that presents every drawn cookie, the first presenters of any two being
  different connections, and never if a draw was repeated; a connection that is first with two cookies
  leaves it waiting for good (`Coordinator.BroadcastIff`, `Coordinator.StuckForGood`,
  `Coordinator.TwoCookiesOneConnection`, `Coordinator.CollisionNeverCompletes`).
* The variadic formatter drops a lone `{` where the form without arguments rejects it
  (`Formatter.ReturnsIff`, `Formatter.LoneBraceVanishes`).
* Joining stops at the first NUL, and splitting undoes joining only for separators that do not overlap
  themselves (`SplitJoin.JoinThenSplitIff`).

A remark on a constant, about which there is nothing to prove: the macro `TI_HEARTBEAT_INTERVAL_SECONDS`
is 2 where it is used and its unit there is milliseconds, while a constant of the same name in the header
is 5. The results hold for any positive interval.

## Model

| member | source | states |
|---|---|---|
| `Serializer.LoadEncode` | include/serialize.hpp:83-178 | Loading the encoding of any object of any type, followed by anything, into an object already holding any value of the type succeeds, consumes exactly what was written, and overlays the old value. |
| `Serializer.RoundTrip` | include/serialize.hpp:199-296 | Into a fresh object the load gives back the saved value and leaves exactly the rest, nested vectors and maps included. |
| `Serializer.MapLoadMerges` | include/serialize.hpp:284-296 | Loading a map into a map that holds entries gives the merge, loaded entries winning. |
| `Serializer.VecLoadsEach` | include/serialize.hpp:166-178 | Loading a vector into a vector loads each element over the one at its place, and past the end of the old vector into a fresh one. |
| `Serializer.IterationOrderIrrelevant` | include/serialize.hpp:237-246 | The same distinct entries written in another iteration order are read back as the same map. |
| `Serializer.EncodeInjective` | include/serialize.hpp:199-246 | Objects with equal encodings hold equal values. |
| `Serializer.LoadedHasType` | include/serialize.hpp:149-178 | On arbitrary bytes a load that succeeds yields a value of the type and leaves a suffix of the input. |
| `Serializer.RealSizeExact` | include/serialize.hpp:350-412 | The size calculator, shortcuts included, gives the length of the encoding of every object. |
| `Archives.StringSaveArchive.GetSaveCursor` | src/serialize.cpp:17-32 | Growing keeps the contents and the amortised bound: bytes ever copied plus 64 are at most the capacity, and the capacity is 64 or at most twice what was saved. |
| `Archives.StringSaveArchive.Save` | include/serialize.hpp:113-117 | The contents grow by exactly the saved bytes, whatever was reallocated. |
| `Archives.SaveEach` | src/serialize.cpp:11-34 | Over any sequence of saves the built string is the chunks one after the other, the bytes copied by all reallocations plus 64 are at most the capacity, and the capacity is 64 or at most twice the string. |
| `Archives.SaveGrowing` | include/serialize.hpp:199-246 | Saving an object through the growing archive appends its encoding. |
| `Archives.CreateString` | include/serialize.hpp:423-428 | The string made from an object is its encoding. |
| `Archives.CreateThenRead` | include/serialize.hpp:415-428 | An object made into a string and read from it is the same value. |
| `Archives.FixSizeBufferSavingArchive.Save` | src/network/protocol.hpp:106-115 | A save fails exactly when the bytes do not fit, and then changes nothing; the buffer behind the cursor is never touched. |
| `Archives.SaveFixed` | src/network/protocol.hpp:92-117 | Saving an object through the exact-size archive fails exactly when its encoding does not fit, and otherwise writes the same bytes as the growing archive. |
| `Archives.Build` | src/network/protocol.hpp:181-188 | Building never throws and leaves no byte of its buffer unused: the result is the encoding, of the calculated size. |
| `Archives.LoadArchive.Load` | src/network/protocol.hpp:134-145 | A load of n bytes throws exactly when fewer are left, and otherwise returns and consumes the next n. |
| `Archives.LoadObject` | include/serialize.hpp:131-178 | Loading through the archive computes the load function and leaves the cursor at its rest. |
| `Archives.LoadSpan` | include/serialize.hpp:131-147 | Loading a span, primitives in one copy and anything else element by element, is loading all its elements in turn. |
| `Archives.LoadAllPrims` | include/serialize.hpp:131-138 | The one copy yields the same elements and the same rest, and overflows on the same inputs, as a load of each element. |
| `Archives.Cast` | src/network/protocol.hpp:153-168 | The position returned is where the unread bytes begin. |
| `Archives.BuildThenCast` | src/network/protocol.hpp:153-188 | What was built is read back whole, with any bytes after it, at exactly the position the size calculator gave. |
| `RuntimeProtocol.MessageRoundTrip` | src/runtime_protocol.hpp:51-66 | The matching reader returns the message sent, every other reader throws, and the header reader sees 0, 1 or 2 for hello, acknowledgement and peer map, for every iteration order of the peer map. |
| `RuntimeProtocol.HeaderByte` | src/runtime_protocol.cpp:21-25 | The header reader returns the first byte, or throws on an empty buffer, and a message reader succeeds only if that byte is its type. |
| `RuntimeProtocol.HelloIffBytes` | src/runtime_protocol.hpp:51-59 | Of all buffers exactly those of 17 bytes or more that start with 0 read as hellos, and the cookie is the sixteen bytes behind it. |
| `RuntimeProtocol.MessageSizes` | src/runtime_protocol.hpp:68-98 | A hello takes 17 bytes, an acknowledgement 1, and a peer map without addresses 9 plus 14 for each entry. |
| `RuntimeProtocol.MessageBytes` | src/runtime_protocol.hpp:13-98 | Byte by byte: a hello is 0 and the cookie, an acknowledgement is 1, and a peer map is 2, the number of entries in eight bytes, and for each entry in the order walked the connection in four bytes, the port in two and the address behind its length in eight, all low byte first. |
| `RuntimeProtocol.ToPrintable` | src/runtime_protocol.cpp:61-69 | The printed cookie is 32 characters, for each byte the digit of its high half and then of its low half, out of 0123456789ABCDEF. |
| `RuntimeProtocol.FromPrintable` | src/runtime_protocol.cpp:32-52 | Exactly the strings of 32 characters over 0-9A-F are accepted, and the result is the cookie they spell. |
| `RuntimeProtocol.HexDigits` | src/runtime_protocol.cpp:40-49 | The characters accepted are exactly 0123456789ABCDEF. |
| `RuntimeProtocol.SpellsBijective` | src/runtime_protocol.cpp:32-69 | Equal spellings are equal cookies and the other way round. |
| `RuntimeProtocol.PrintThenParse` | src/runtime_protocol.cpp:32-69 | Parsing a printed cookie gives the cookie back. |
| `RuntimeProtocol.ParseThenPrint` | src/runtime_protocol.cpp:32-69 | Printing a parsed string gives the string back, for exactly the accepted strings. |
| `Coordinator.CoordinatorServer.constructor` | src/coordinator.cpp:87-96 | A new coordinator has issued the drawn cookies, as a set, and expects one worker for each draw. |
| `Coordinator.CoordinatorServer.CheckCookie` | src/coordinator.cpp:102-111 | A known cookie is used up, registers its connection and is acknowledged, the default address recorded for it; any other changes nothing and disconnects. |
| `Coordinator.CoordinatorServer.HandleFirstConnection` | src/coordinator.cpp:98-118 | The handler follows the step function on state, messages sent to each connection, disconnections and stops, or throws and changes nothing. |
| `Coordinator.CoordinatorServer.Broadcast` | src/coordinator.cpp:120-128 | Each worker, and nobody else, is sent the message once, in whatever order the map is walked. |
| `Coordinator.CoordinatorServer.FinishIfComplete` | src/coordinator.cpp:112-117 | Exactly when all workers are in, the handler switches, every worker is sent the peer map, and the acceptor is stopped. |
| `Coordinator.CoordinatorServer.Logic` | src/network/behavior.hpp:75-87 | A received buffer goes to the handler that is current; after registration it is ignored. |
| `Coordinator.WorkerDeamon.InitLogic` | src/coordinator.cpp:137-140 | The worker sends one hello with its cookie. |
| `Coordinator.WorkerDeamon.Logic` | src/coordinator.cpp:142-162 | The worker accepts the acknowledgement and then the peer map, records the map, disconnects and stops; anything else throws and changes nothing. |
| `Coordinator.HelloIsRead` | src/coordinator.cpp:75-101 | The coordinator reads from a worker's buffer exactly its cookie. |
| `Coordinator.WorkerReadsWhatIsSent` | src/coordinator.cpp:142-150 | A worker's handlers do on an encoded message what they should on the message, the wrong one included. |
| `Coordinator.SafeAgainstAnyTraffic` | src/coordinator.cpp:87-130 | Whatever is received, from whomever and however often: each drawn cookie is accepted at most once, open and accepted cookies partition the drawn ones, the two maps have equal keys, workers never outnumber acceptances nor acceptances the workers expected, and the one broadcast waits for all workers. |
| `Coordinator.BroadcastIff` | src/coordinator.cpp:87-118 | For all draws and all traffic, the coordinator has broadcast if and only if no draw was repeated, every drawn cookie was presented, and no two were first presented by the same connection; with no worker expected, if and only if any hello was read. |
| `Coordinator.StuckForGood` | src/coordinator.cpp:98-118 | Once one connection has been the first with two drawn cookies, no further traffic completes the registration. |
| `Coordinator.TwoCookiesOneConnection` | src/coordinator.cpp:98-118 | Two workers' cookies from one connection are both accepted, and nothing that follows completes the registration. |
| `Coordinator.CollisionNeverCompletes` | src/coordinator.cpp:87-96 | If any two draws coincide, no traffic completes the registration. |
| `Registration.RegistrationIsSafe` | src/coordinator.cpp:98-162 | In every state of every run with any strangers, no worker has met a wrong message type, each has been sent a prefix of acknowledgement and peer map, finished workers all hold one map whose keys are exactly the workers, and strangers are sent nothing and are disconnected on their first hello. |
| `Registration.RegistrationTerminates` | src/coordinator.cpp:98-162 | Every run is finite: at most four steps for each worker and two for each hello of a stranger. |
| `Registration.RegistrationNeverDeadlocks` | src/coordinator.cpp:98-162 | A run that can go no further has every worker finished with the map and the coordinator in its last state. |
| `LockFreeChannel.RingRefinesFifo` | include/concurrent.hpp:92-127 | For any size and any interleaving of the loads and stores, sent is received followed by the ring's contents, which number at most size - 1, and the slot being written is neither live nor being read. |
| `LockFreeChannel.FailuresAreReal` | include/concurrent.hpp:107-123 | In every state of every interleaving the test a call makes next fails exactly if the queue was full, or empty, at the moment inside the call when the other thread's index was loaded. |
| `LockFreeChannel.CallsReturn` | include/concurrent.hpp:105-127 | On every interleaving each `try_send` ends once and before the next, true is returned for exactly those whose items were sent, in order, and these are all that did not find the queue full; each `try_receive` returns the next item unless it found the queue empty. |
| `LockFreeChannel.CallsNeverWait` | include/concurrent.hpp:105-127 | On every interleaving each call takes at most five steps, and one under way can always take its next. |
| `LockFreeChannel.Channel.TrySend` | include/concurrent.hpp:107-116 | The method is the machine's uninterrupted send and fails exactly on size - 1 items. |
| `LockFreeChannel.Channel.TryReceive` | include/concurrent.hpp:118-127 | The method is the machine's uninterrupted receive and returns the oldest item, or nothing exactly on an empty channel. |
| `LockQueue.NoLostWakeup` | include/concurrent.hpp:55-89 | With any number of producers and consumers, items leave in the order the lock let them in, and if a consumer sleeps the items never outnumber the producers about to notify plus the woken consumers yet to look. |
| `LockQueue.RunsAreBounded` | include/concurrent.hpp:55-89 | On every run the notifications, turns at the lock and ends of timed waits number at most two for each send, three for each receive and one for each spurious wake-up. |
| `LockQueue.ComesToRest` | include/concurrent.hpp:55-89 | When no notification and no turn at the lock is left to come, nobody sleeps beside an item; and some call can get on exactly while there is work. |
| `LockQueue.ReceivesReturn` | include/concurrent.hpp:63-89 | On every run the items taken are those returned, in order; each call of a thread ends once, before its next; a blocking one ends with an item and no other way, a timed one without only if its time has expired; and a try never waits. |
| `LockQueue.BasicLockQueue.Send` | include/concurrent.hpp:55-61 | Appends the item; whatever the other threads do, it is the machine's send step. |
| `LockQueue.BasicLockQueue.TryReceive` | include/concurrent.hpp:71-77 | Takes the front item, and nothing only if the queue is empty; it is the machine's call and its turn at the lock. |
| `LockQueue.BasicLockQueue.TurnAtLock` | include/concurrent.hpp:63-89 | In any receive, on entry or after the wait, a turn at the lock is the machine's step, and finds something exactly on a non-empty queue; with nothing found a try, or a timed wait whose time is up, ends, and any other sleeps. |
| `SenderSideQueue.RefinesFifo` | include/concurrent.hpp:170-215 | With any number of producers, sent in lock order is received, then the out queue, then the in queue; each producer's order is kept; a sleeping consumer never misses an item; a call comes back empty-handed only if everything sent was received; and a call under way can get on unless it sleeps. |
| `SenderSideQueue.ReceivesReturn` | include/concurrent.hpp:179-215 | On every run the items received are those returned, in order; each call ends once, before the next; a blocking one ends with an item and no other way, a timed one without only if its time has expired, which it does once; and a try never waits. |
| `SenderSideQueue.SenderSideLockQueue.Send` | include/concurrent.hpp:170-177 | Appends to the two queues taken together; it is the machine's push. |
| `SenderSideQueue.SenderSideLockQueue.Receive` | include/concurrent.hpp:179-215 | Each of the three calls takes the front of the two queues together, the swap on empty losing nothing; up to its return or its falling asleep it is the machine's steps. |
| `Logger.ShutdownIsSafe` | src/logging.cpp:68-92 | In every state of every run, spurious wake-ups and repeated stops included: the output is a prefix of the records inserted, in enqueue order, each once and empty ones dropped, and the stop's own marker is never written; after a stop the daemon does not sleep; at its exit everything enqueued before the flag was first set is in the output. |
| `Logger.LoopEndsWithDone` | src/logging.cpp:80-86 | The daemon leaves its loop only after the flag is set and never enters `flush_one` again once it is out of it; until its exit it can move unless it sleeps with nothing queued or a notification on its way. |
| `Logger.StopGetsOn` | src/logging.cpp:88-92 | Each stop sets the flag, inserts its marker and notifies, in this order, and nothing holds it up. |
| `Logger.ShutdownTerminates` | src/logging.cpp:68-92 | After stop the daemon can move until it has exited, and each move brings the exit nearer. |
| `Logger.ShutdownIsBounded` | src/logging.cpp:68-92 | From any state after a stop, whatever other threads do in between, the daemon takes at most the steps it had left and four for each record inserted, and with none left it has exited. |
| `Logger.AsyncLogger.InsertRecord` | src/logging.cpp:14-20 | The record is queued behind the others; it is the machine's insertion. |
| `Logger.AsyncLogger.FlushOne` | src/logging.cpp:22-28 | The oldest record leaves the queue and is written unless it is empty; with nothing queued the call blocks, the daemon asleep. Either way it is a run of the daemon's steps. |
| `Logger.AsyncLogger.FlushAll` | src/logging.cpp:30-37 | Ends with an empty queue, everything that was in it written in order, empty records dropped; it is a run of the daemon's steps to its exit. |
| `Logger.DaemonRunIsRun` | src/logging.cpp:80-86 | A run of the daemon's steps is a run of the whole system. |
| `WritePump.PumpAsWritten` | src/network/connection.cpp:115-195 | On every run, errors included, a write is in flight exactly while the queue is not empty and no write has failed; the k-th frame written is the youngest queued when that write started, positions never going back nor lagging behind k; and at drain there are as many writes as sends. |
| `WritePump.DrainedInOrderIff` | src/network/connection.cpp:141-149 | Once the queue has drained, every frame went out whole and in its turn if and only if no send found two or more frames queued and no write was cancelled part-way, and then the wire is the send order. |
| `WritePump.CancelledSendsPart` | src/network/connection.cpp:117-149 | The least failing case: a single frame whose write is cancelled part-way leaves the queue like one that was written, with only a part of it out. |
| `WritePump.ShallowIsPrefix` | src/network/connection.cpp:141-149 | If no send found two frames queued, the writes that have ended took a prefix of the sends, at every moment. |
| `WritePump.TwoSendsInOrder` | src/coordinator.cpp:110-126 | The writes of a worker's connection take the two messages it is sent in order, whatever the timing, and both once its queue is empty. |
| `WritePump.OutOfOrderLoses` | src/network/connection.cpp:141-149 | A run that writes out of turn has lost some frame: no continuation ever writes it. |
| `WritePump.SkippedIsLost` | src/network/connection.cpp:141-149 | The frame skipped by the first write out of turn is never taken by any later write. |
| `WritePump.ThreeQueuedLosesSecond` | src/network/connection.cpp:141-195 | Three frames queued before the first completion arrive as the first and twice the third. |
| `WritePump.ErrorStopsWriting` | src/network/connection.cpp:115-139 | From any state of any run, once a write has failed nothing is written any more, whatever is sent. |
| `Framing.HeaderRoundTrip` | src/network/protocol.cpp:7-12 | A header is eight bytes and reads back as its type and length whatever its padding holds. |
| `Framing.WireBytes` | src/network/protocol.hpp:16-22 | Byte by byte: 0 for a heartbeat and 1 for a message, three bytes of padding, the length of the body low byte first and cut to 32 bits, and the body. |
| `Framing.OneReadAtATime` | src/network/connection.cpp:47-113 | On every run at most one read is outstanding, and after the close none starts and nothing is delivered. |
| `Framing.ChunksDoNotMatter` | src/network/connection.cpp:47-113 | However the bytes are cut into arrivals, whenever the connection is closed and whatever read fails, what was delivered is a prefix of what the whole input determines, and unless someone cut the connection off all of it at rest or at the end of the stream. |
| `Framing.FramingRoundTrip` | src/network/connection.cpp:47-113 | For any heartbeats and bodies, any cutting and any truncation, the stream ending there included: delivered are exactly the bodies that arrived whole before the first one over 8192 bytes; all of them if and only if none is over; the connection stays open if and only if none is over; and every heartbeat reached the timer. |
| `Framing.DrainFrames` | src/network/connection.cpp:234-248 | From any point where a header is awaited, the loop makes of a prefix of a stream of frames what its whole frames say. |
| `Framing.AllDeliverableIff` | src/network/connection.cpp:97-105 | All bodies can be delivered exactly when none exceeds the buffer, and otherwise those before the first that does. |
| `Framing.LongestBody` | src/network/connection.cpp:97-105 | On every run a body of up to 8192 bytes is delivered, and a longer one closes the connection instead. |
| `Connections.Connection.DeliversInOrder` | src/network/connection.cpp:47-113 | Of the object, after any calls: one read at most is outstanding; the upper layer was called with exactly the bodies that arrived whole and fit, in order, once at rest or at the end of the stream, and with a prefix of them before; it stays open exactly if all fit. |
| `Connections.Connection.WritesYoungest` | src/network/connection.cpp:115-195 | Of the object, after any calls: a write is in flight exactly while something is queued and none has failed, what is being written is still queued, and the k-th write took the youngest frame of its time. |
| `Connections.Connection.DrainsInOrderIff` | src/network/connection.cpp:141-195 | Of the object, once its queue is empty: everything it was given is on the wire, whole and in order, if and only if no send found two frames queued and no write was cancelled part-way. |
| `Connections.Connection.constructor` | src/network/connection.cpp:25-45 | A new connection has nothing queued, nothing written and no read outstanding. |
| `Connections.Connection.Start` | src/network/connection.hpp:163-167 | The connection table starts the first header read; both machines are at their start. |
| `Connections.Connection.DoWrite` | src/network/connection.cpp:147-163 | One write is handed all buffers of the back entry of the queue, concatenated. |
| `Connections.Connection.DoSendMessage` | src/network/connection.cpp:175-195 | Queues the frame of the message, header first; it is the pump's send. |
| `Connections.Connection.SendHeartbeat` | src/network/connection.cpp:165-173 | Queues a heartbeat frame; it is the pump's send. |
| `Connections.Connection.WhenMessageSent` | src/network/connection.cpp:115-145 | Success, or a cancelled write that wrote anything, is the pump's completion; an error or a write of nothing closes, reports a broken pipe if it was an error, and leaves the queue as it is, nothing being written; otherwise the front is dropped, the back written and the socket stays as it was. |
| `Connections.Connection.PopAndWrite` | src/network/connection.cpp:141-149 | Drops the front of the queue and starts writing the back, if anything is left; it is the pump's completion. |
| `Connections.Connection.ConnectionClose` | src/network/connection.cpp:197-202 | Closing twice is closing once. |
| `Connections.Connection.DoReceiveMessage` | src/network/connection.cpp:107-113 | Starts a header read if the socket is open and nothing otherwise. |
| `Connections.Connection.DoReceivePayload` | src/network/connection.cpp:97-105 | Starts a body read; the buffer stays as it was. |
| `Connections.Connection.HeaderParser` | src/network/connection.cpp:234-248 | Type 0 restarts the timer and reads on, type 1 reads a body of the length in bytes 4 to 7, and any other type throws. |
| `Connections.Connection.WhenHeaderReceived` | src/network/connection.cpp:59-62 | A completed header read is the receive loop's callback, and is dropped after a close. |
| `Connections.Connection.WhenPayloadReceived` | src/network/connection.cpp:80-94 | A completed body read is the receive loop's callback: a short one closes, another is passed up and the next header awaited unless the upper layer closed. |
| `Connections.Connection.ReadCompletes` | src/network/connection.cpp:97-113 | Filling the buffer a read named and calling back is the receive loop's step. |
| `Connections.Connection.ReadFails` | src/network/connection.cpp:47-86 | A cancelled header read changes nothing but that no read is outstanding; every other failed read closes; an end of file where a header was awaited is reported. |
| `Connections.Connection.WhenTimeout` | src/network/connection.cpp:261-275 | An expired timer closes and reports; a cancelled wait does nothing. |
| `Heartbeat.HeartbeatChecker.constructor` | src/network/heartbeat.cpp:15-24 | The timer is set three intervals ahead, and its restarts will be two intervals ahead. |
| `Heartbeat.HeartbeatChecker.HeartbeatReceived` | src/network/heartbeat.cpp:32-38 | A beat moves the expiry to two intervals from now. |
| `Heartbeat.HeartbeatChecker.WhenTimeout` | src/network/connection.cpp:261-275 | A wait that ends by itself records the timeout and disarms the timer; a cancelled one changes nothing. |
| `Heartbeat.HeartbeatSender.SendAndReset` | src/network/heartbeat.cpp:53-60 | A tick sends one beat and is the timed system's tick, the next interval counted from when it ran; a cancelled wait ends the ticking. |
| `Heartbeat.NeverTimesOutIff` | src/network/heartbeat.cpp:15-60 | A live peer never times out on any run if and only if tick lateness plus beat delay is below one interval and the first beat cannot miss the initial three; equality is not enough. |
| `Heartbeat.LatePeerTimesOut` | src/network/heartbeat.cpp:15-60 | For every other choice of bounds there is a run, within the bounds, that times out. |
| `Heartbeat.ExpiresExactly` | src/network/heartbeat.cpp:22-43 | On every run, whatever the normal traffic: the timer expires exactly two intervals after the last beat, three after the start if none came, never before, and has expired at any later moment unless the connection was closed. |
| `Heartbeat.BeatsKeepTime` | src/network/heartbeat.cpp:45-60 | On every run the first beat is sent when it is due and each other one interval after the one before it, none later than a tick can be late. |
| `Heartbeat.StoppedForGood` | src/network/heartbeat.cpp:40-62 | Closing the connection stops the timer, and cancelling the sender's wait the beats, for good. |
| `Formatter.FormatRest` | src/common.cpp:7-35 | The loop without arguments gives what the rest of the format string means with no argument left. |
| `Formatter.FormatFrom` | include/common.hpp:61-98 | The variadic loop gives what the rest of the format string means with these arguments left. |
| `Formatter.FormatInvertsEscaping` | include/common.hpp:61-105 | Formatting escaped texts with holes between them yields the texts with the arguments between them. |
| `Formatter.ReturnsIff` | include/common.hpp:61-105 | A call returns if and only if there is one hole for each argument, no unmatched `}`, no final `{`, and no lone `{` after the last hole. |
| `Formatter.AcceptedIffTemplate` | include/common.hpp:61-105 | Without lone braces the accepted strings are exactly escaped texts with one hole for each argument between them. |
| `Formatter.LoneBraceVanishes` | include/common.hpp:67-80 | A lone `{` that a call lets pass leaves no trace in the result. |
| `Formatter.LoneBraceExample` | src/common.cpp:17-25 | The same lone `{` passes before a hole and is an error when no argument is left. |
| `Formatter.TooManyArgsIff` | include/common.hpp:94-96 | A call complains of too many arguments exactly if no brace is unmatched and there are fewer holes than arguments. |
| `Formatter.ErrorExamples` | src/common.cpp:7-35 | The least case of each error: `{`, `}`, `}x`, a hole without argument, an argument without hole. |
| `SplitJoin.WriteJoined` | include/common.hpp:247-257 | Every copy stays inside the buffer and the last ends exactly before the terminating NUL, the buffer holding the join. |
| `SplitJoin.Measure` | include/common.hpp:230-242 | The computed total length is the length of the join. |
| `SplitJoin.StringJoin` | include/common.hpp:222-263 | The result is the join up to its first NUL. |
| `SplitJoin.StringSplit` | include/common.hpp:275-295 | The loop cuts at successive first occurrences, and returns the string itself when it or the separator is empty. |
| `SplitJoin.FindIsFirst` | include/common.hpp:289-289 | The search returns an occurrence with none before it, and nothing only if there is none. |
| `SplitJoin.SplitThenJoin` | include/common.hpp:222-295 | Joining what was split gives the string back exactly when it has no NUL, and no piece contains the separator; an empty string, or any string with an empty separator, is one piece. |
| `SplitJoin.JoinThenSplitIff` | include/common.hpp:222-295 | Splitting undoes joining for all lists of pieces that avoid the separator if and only if the separator has no NUL and no border; every single character qualifies. |
| `EndToEnd.HelloArrives` | src/coordinator.cpp:137-140 | Whatever a worker queues after its hello and however crowded its queue gets, the first body the coordinator is called with is the hello, and it reads the cookie. |
| `EndToEnd.BroadcastRegisters` | src/coordinator.cpp:112-117 | On every run in which the coordinator broadcasts, the map's keys are the workers, its entries carry no address, and each worker's connection was sent acknowledgement and map and nothing else. |
| `EndToEnd.WorkerNeverConfused` | src/coordinator.cpp:142-162 | At every moment, however far writes and arrivals have got and however many workers there are, up to a peer map of 2^32 bytes, a worker's handlers have accepted everything they were handed. |
| `EndToEnd.PeerMapArrivesIff` | src/coordinator.cpp:98-162 | Once a worker's connection has drained and come to rest, the worker holds the peer map if and only if there are at most 584 workers; with more, the connection closes and the worker waits for good. |
| `WireHalf.UpDelivers` | src/network/connection.cpp:47-195 | Whatever the timing of a worker's writes, heartbeats and the coordinator's reads, no body but its hello is ever passed up, and that at most once. |
| `WireHalf.DownDelivers` | src/network/connection.cpp:47-195 | Of at most two messages queued, a prefix is passed up at the other end, whatever the timing. |
| `WireRegistration.WireIsSafe` | src/coordinator.cpp:98-162 | In every state of every run of the whole system on the wire, errors, closes, heartbeats and wrong cookies included: no handler has thrown, each connection was sent a prefix of acknowledgement and peer map, and every finished worker holds the coordinator's map, whose keys are exactly the workers, and has closed its end. |
| `WireRegistration.WireBroadcastIff` | src/coordinator.cpp:98-117 | In every state of every run the coordinator has broadcast exactly if every worker's hello has been passed up to it, the map's keys are then the workers, and a hello that was said is passed up by the time nothing more happens on its way. |
| `WireRegistration.WireCompletesIff` | src/coordinator.cpp:98-162 | Connection by connection, in every state of every run after the broadcast: a worker that has been delivered both messages, whatever happens to its connection then, or on whose connection nothing more happens, holds the peer map if there are at most 584 workers and waits for it for good if there are more; at no moment does a worker of more than 584 hold it. |
| `WireProgress.WireRunsAreBounded` | src/network/connection.cpp:47-195 | On every run with N workers, the writes, arrivals and reads of a connection are at most 51 for each frame its worker queues and one, on the way up, and 71 + 56 N on the way down. |
| `WireProgress.WireNeverStopsShort` | src/network/connection.cpp:47-195 | In every state of every run, a worker that has not said its hello can, and a direction without trouble that is not at rest has a write, an arrival or a read that can happen. |
| `WireProgress.WireNeverDeadlocks` | src/coordinator.cpp:98-162 | A run that can go no further, without trouble on any connection before its hello and its two messages were delivered, has broadcast, and every worker holds the peer map if there are at most 584 and none does if there are more. |
| `WireRegistration.RefusalKeeps` | src/coordinator.cpp:102-104 | A hello with a wrong cookie changes nothing a worker could notice and sends nothing on any connection. |

## Left out

* Sockets, name resolution, the event loop and signals: a completion or a timer firing is a step that may come at any moment it is enabled.
* C++ weak memory: the interleavings are sequentially consistent, and nothing is claimed about memory orders.
* How cookies are drawn, and any secrecy: the issued cookies are an input.
* What the peer map maps to: the hello carries no address, so entries hold an empty one and an arbitrary port.
* The sleeping and back-off of the ring's blocking send and receive: a retry is another call, and waiting times do not matter to any result.
* A critical section is one step, since the mutex admits nothing in between; mutexes and condition variables are taken to be correct, spurious wake-ups included.
* Bodies of 2^32 bytes or more, whose length the header cuts; the cut itself is in the model of the header. This is the bound on peer maps in the end-to-end results.
* A write cancelled on a socket that stays open: the code cancels only by closing, so nothing a connection writes after a cancelled write reaches the other end.
* Wrap-around of size_t in archive cursors.
* The header parsers of connections without heartbeats: on streams without heartbeats they take the same branches.
* Client managers, the connection table, host files, host names and ports, trimming, wide strings, vectors of bool, log record dates, type-erased function objects, and the execution hub: they would only add easy members.
* A stranger that connects after the coordinator stopped accepting: it never becomes a connection. In the model its hello is ignored.
* One instant of the heartbeat timer: a beat handled at the very deadline after the expiry was already queued. The theorems leave either order open at the deadline and never depend on it before.
* The output stream's own behaviour: what is written to it counts as output.
- Archives.LoadArchive.Load: one class stands for the string and the fixed-size load archive, which keep the same cursor over an unchanging buffer.
- EndToEnd.WorkerNeverConfused: not for more than about 306 million workers, whose peer map would take 2^32 bytes and have its length cut in the header.
- EndToEnd.PeerMapArrivesIff: likewise.
- WireRegistration.WireIsSafe: likewise.
- WireRegistration.WireBroadcastIff: likewise.
- WireRegistration.WireCompletesIff: likewise; of a connection cut, or on which a write failed, before its worker was delivered both messages it says only that a map held is held by at most 584.
- WireProgress.WireRunsAreBounded: likewise; trouble, strangers and the heartbeats themselves are not counted.
- WireProgress.WireNeverStopsShort: likewise.
- WireProgress.WireNeverDeadlocks: likewise.
