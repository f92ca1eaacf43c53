# tinylib, modelled and proved

tinylib is a small event library in C: a loop over epoll (or WSAPoll) that dispatches channels, runs tasks
posted by other threads and fires timers, TCP and UDP endpoints on top of it, and a few utilities (a time
wheel, MD5, base64, a URL parser). This project models the parts with the hardest invariants and proves what
they promise over every input and every run.

Stateful components come as a pair. `XModel` is the component as a state machine on values: its steps, the
invariant, and theorems over all runs. The class beside it is the C code: heap cells with prev and next links
(`Memory`), arrays, flags and loops updated in place, with a ghost field that says which abstract state they
represent. Each method ensures that the abstract state moved by exactly the step the theorems speak about.
Callbacks are scripts of the operations an application may make, so a theorem about a pass, a batch or an
event covers callbacks that add, cancel or destroy anything the application may touch. `XScripts` compares
what the scripts ask for with what happens: nothing is added, cancelled or destroyed unasked, nothing asked for
is left out, and what no script names keeps to its schedule.

| files | component |
|---|---|
| `Memory.dfy`, `Bytes.dfy`, `Sequences.dfy` | addresses, linked chains, options, bytes, sequences |
| `TimerModel.dfy`, `TimerTheorems.dfy`, `TimerScripts.dfy`, `TimerQueue.dfy` | the timer queue |
| `AsyncModel.dfy`, `AsyncTaskQueue.dfy` | the async task queue and `loop_run_inloop` |
| `Buffer.dfy`, `TcpModel.dfy`, `TcpConnection.dfy` | the byte buffer and the TCP send path |
| `WheelModel.dfy`, `WheelScripts.dfy`, `TimeWheel.dfy` | the time wheel |
| `ChannelModel.dfy`, `ChannelScripts.dfy`, `EventLoop.dfy` | channels and one dispatch batch |
| `WindowsLoop.dfy` | the dense poll array of the Windows loop |
| `UdpModel.dfy`, `UdpPeer.dfy` | the UDP peer |
| `Md5Model.dfy`, `Md5.dfy`, `Md5Vector.dfy` | MD5 after RFC 1321, and the digest of a known text |
| `Base64Model.dfy`, `Base64.dfy` | base64 after RFC 4648, section 4 |
| `UrlModel.dfy`, `UrlParser.dfy` | the URL parser |

Run `dafny verify dfyconfig.toml`.

## Where the code and its promises part

Each of these is proved, with the exact condition under which the promise holds.

- `timer_queue_gettimeout` can sleep past the earliest deadline, exactly if the clock is already more than
  2^63 ms beyond it: the unsigned difference is cast to `long` (`GetTimeout`, `OversleepHappens`).
- Not every submitted task runs: once a quit has stopped the loop, the tasks queued at that moment and those
  submitted later stay in the queue for good, and no others (`AtRestExactlyWhen`, `StrandedExactly`). A quit
  strands nothing if no task came after the last grab; one followed by a submission can (`QuitCanStrand`).
- A channel destroyed while it is attached with a mask that is not empty leaves the kernel with a pointer to
  freed memory, and nothing else does (`DanglingExactlyWhen`, `DanglingHappens`).
- `connection_onevent` returns early on a fatal write error. A connection that the input callback of the same
  event destroyed, while nothing waited or after the peer closed, is then left neither alive nor deleted
  (`LeftBehindExactlyWhen`, `LeftBehindHappens`).
- A send posted by another thread runs also after destroy. If it takes the last waiting byte of a connection
  that waits to be closed, the write interest goes with it and no flush closes the connection any more
  (`StallsExactlyWhen`, `StallHappens`). If the connection was left behind dead, the bytes such a send leaves
  waiting are lost with the next event that does not write them (`DeletedOnlyWhenDone`, `LosesExactlyWhen`,
  `LossHappens`). If the connection was deleted, the send uses freed memory (`FreedIsUsedExactlyWhen`,
  `FreedUseHappens`).
- `tcp_connection_send` answers 0 although a fatal error dropped the data: "accepted" is what
  `tcp_connection_sendInLoop` answers with 0 (`Send`, `SendInLoop`).
- The time wheel waits steps + 1 calls only for steps < max_steps: at max_steps it is one call, above it a
  full round (`FirstExact`). Submit clamps larger steps, refresh and re-arming do not: their slot is outside
  the wheel exactly when `RefreshFitsExactly` and `RearmFitsExactly` say, such as for a looping timer of
  0 steps at the last slot.
- On Windows an empty update of an unregistered channel registers it, so that empty updates toggle
  (`RegisteredExactlyWhen`, `PromiseExactlyWhen`, `EmptyUpdateRegisters`).
- The UDP peer's initial task holds no reference, so if the destroy task and all notify tasks overtake it, it
  uses the freed peer (`LateExactlyWhen`, `InitCanComeLate`). Clearing the write callback clears the message callback's
  user data, not its own (`DoOnWrite`).
- The room left in the UDP receive area is an unsigned difference that can wrap for payloads above 65487 bytes,
  within the 65507 that IPv4 allows (`NeverWrapsExactlyWhen`, `LargerCanWrap`).
- The block loop of `MD5_Update` compares `i + 63` in 32 bits, which overshoots exactly if the last whole block
  ends in the top 63 bytes of that range (`LoopStopsExactlyWhen`, `LoopRunsOn`). The header asks for four-byte
  words while its type is `unsigned long`; the model takes four bytes.
- Contexts of the same MD5 message agree in registers, count and live bytes, but not always in the stale bytes
  of the buffer: these depend on how the message was split (`SameBufferExactlyWhen`, `StaleBytesDiffer`).
- `test/test_md5.c` prints `46486c93...` as the desired digest of its text; the digest is dd1ab23d..., the one its
  comment records (`KnownAnswer`).
- `base64.h` promises a negative value for invalid input; the code decodes the leading letters and returns
  their number of bytes. With room for one more byte and a three-letter tail it writes one byte too many
  (`OverrunExactlyWhen`, `OverrunHappens`). Such a buffer is smaller than the three quarters of the text
  that the header demands; with those it cannot happen (`RoomAsDemanded`).
- `url_parse` does not cut query and hash off a URL without a path: a query is found exactly if its mark stands
  behind the first "/" (`QueryExactlyWhen`). Without one it is lost behind a port, and else stays in the host,
  up to a ":" if it holds one (`TailStaysInHost`, `QueryIsLost`). If it holds "@", the server's name and the
  query up to there become user and password (`TailMovesToLogin`, `QueryBecomesUser`).

## Model

| member | source | states |
|---|---|---|
| `TimerTheorems.ReachableInv` | tinylib/linux/net/timer_queue.c:175-441 | every state any run of add, cancel, refresh, deferred insertion and passes can reach has its timers sorted, placed once and in agreement with their history |
| `TimerModel.StepKeepsInv` | tinylib/linux/net/timer_queue.c:175-441 | each single action, taken in any state that satisfies the invariant, keeps it |
| `TimerTheorems.ExactlyOnePlace` | tinylib/linux/net/timer_queue.c:175-258 | every timer handed out is in exactly one of: waiting for its insertion task, queue, due chain, own callback, freed |
| `TimerTheorems.HistorySafety` | tinylib/linux/net/timer_queue.c:226-258 | nothing touches a timer after it was freed, so it is freed at most once, and once cancelled its callback never starts |
| `TimerTheorems.SkippedWasCancelled` | tinylib/linux/net/timer_queue.c:412-437 | a due timer loses its turn only because it was cancelled before |
| `TimerTheorems.PassTheorem` | tinylib/linux/net/timer_queue.c:345-441 | one pass gives a turn to exactly the timers due when it began, once each, in timestamp order with ties in insertion order, whatever callbacks and other threads do meanwhile |
| `TimerTheorems.PassReaches` | tinylib/linux/net/timer_queue.c:345-441 | the state a pass leaves is reached by a run, so every theorem holds of it again |
| `TimerTheorems.NoDrift` | tinylib/linux/net/timer_queue.c:426-433 | without refresh the k-th firing has deadline t0 + k * interval (64-bit) and never comes early |
| `TimerTheorems.WrapIsMod` | tinylib/linux/net/timer_queue.c:428 | the wrapping addition of deadlines is addition modulo 2^64 |
| `TimerTheorems.DeadlineFormula` | tinylib/linux/net/timer_queue.c:426-433 | the deadline in force, read off the history, is the start time plus interval times the number of firings |
| `TimerModel.SortedInsert` | tinylib/linux/net/timer_queue.c:102-134 | inserting behind every timer that is not later keeps the list sorted, ties in insertion order |
| `TimerModel.DueCountSplits` | tinylib/linux/net/timer_queue.c:366-371 | the prefix the search stops at is exactly the set of timers not later than the given time |
| `TimerTheorems.TurnResultKeeps` | tinylib/linux/net/timer_queue.c:412-438 | a whole turn, callback included, keeps the invariant and takes one timer off the due chain, so a pass ends |
| `TimerQueue.TimerQueue.constructor` | tinylib/linux/net/timer_queue.c:48-61 | a new queue is empty |
| `TimerQueue.TimerQueue.FindLater` | tinylib/linux/net/timer_queue.c:102-107 | finds the first node later than a time and how many are not |
| `TimerQueue.TimerQueue.InsertFirst` | tinylib/linux/net/timer_queue.c:93-99 | insertion into the empty list |
| `TimerQueue.TimerQueue.InsertAtTail` | tinylib/linux/net/timer_queue.c:109-115 | links behind the last node; head and minimum stay |
| `TimerQueue.TimerQueue.InsertAtHead` | tinylib/linux/net/timer_queue.c:116-124 | links before the head, which moves the cached minimum |
| `TimerQueue.TimerQueue.InsertBetween` | tinylib/linux/net/timer_queue.c:125-133 | links between two nodes |
| `TimerQueue.TimerQueue.InsertTimerInloop` | tinylib/linux/net/timer_queue.c:85-139 | the timer is linked at its place in the sorted list; list shape, tail and minimum stay right |
| `TimerQueue.TimerQueue.RemoveTimerInloop` | tinylib/linux/net/timer_queue.c:141-173 | head, tail or middle node is unlinked; the rest keeps its order, tail and minimum |
| `TimerQueue.TimerQueue.DoInsertTimer` | tinylib/linux/net/timer_queue.c:175-192 | a live timer is queued, one cancelled before its insertion is freed |
| `TimerQueue.TimerQueue.Add` | tinylib/linux/net/timer_queue.c:194-223 | allocates a live timer, queued at once on the loop thread and by a task otherwise |
| `TimerQueue.TimerQueue.Cancel` | tinylib/linux/net/timer_queue.c:226-258 | a queued timer is unlinked and freed, any other only marked |
| `TimerQueue.TimerQueue.Refresh` | tinylib/linux/net/timer_queue.c:282-310 | a periodic queued timer moves to the clock plus its interval; a one-shot one stays |
| `TimerQueue.TimerQueue.GetTimeout` | tinylib/linux/net/timer_queue.c:312-343 | the wait for the earliest deadline, cut to 0 to 100, as the 64-bit cast sees it; sleeping that long passes the deadline exactly if the clock is already more than 2^63 ms past it |
| `TimerQueue.GapExact` | tinylib/linux/net/timer_queue.c:329 | the unsigned difference cast to long is exact or not positive, except 2^63 ms past the deadline |
| `TimerQueue.OversleepHappens` | tinylib/linux/net/timer_queue.c:329 | a clock 2^63 + 1 ms past the deadline yields a positive gap |
| `TimerQueue.EarliestFirst` | tinylib/linux/net/timer_queue.c:329-335 | the head of the sorted list is the earliest deadline, so comparing with it decides oversleeping |
| `TimerQueue.TimerQueue.CutList` | tinylib/linux/net/timer_queue.c:373-403 | the due prefix is cut off; both parts are well formed and the minimum is that of the rest |
| `TimerQueue.TimerQueue.MarkExpired` | tinylib/linux/net/timer_queue.c:405-410 | exactly the nodes of the cut-off chain are flagged expired |
| `TimerQueue.TimerQueue.SplitDue` | tinylib/linux/net/timer_queue.c:359-410 | the first half of a pass refines the abstract start of a pass |
| `TimerQueue.TimerQueue.PlaceOf` | tinylib/linux/net/timer_queue.c:229-255 | the four flags of an allocated timer determine where it is |
| `TimerQueue.TimerQueue.TakeTurn` | tinylib/linux/net/timer_queue.c:412-438 | one round of the pass loop: callback and requeue, or free |
| `TimerQueue.TimerQueue.Process` | tinylib/linux/net/timer_queue.c:345-441 | a whole pass with scripted callbacks ends, is a pass in the sense of PassTheorem, and does what the scripts ask for and nothing else (PassFollows, from which the TimerScripts rows follow) |
| `TimerScripts.DueTimerFires` | tinylib/linux/net/timer_queue.c:412-424 | a live due timer that no callback of the pass cancels fires exactly once, for its deadline, and is not skipped |
| `TimerScripts.UnnamedOutcome` | tinylib/linux/net/timer_queue.c:412-438 | a timer no callback names keeps its record if not due; if due, a live one fires and is then queued one interval later or, without interval, freed, and a cancelled one is freed |
| `TimerScripts.NothingUnasked` | tinylib/linux/net/timer_queue.c:412-424 | every addition, insertion, cancellation and refresh of a pass is one the callback then running asks for |
| `TimerScripts.EverythingAdded` | tinylib/linux/net/timer_queue.c:194-223 | the timers added in a pass are those its callbacks ask for, in order, with their times and intervals |
| `TimerScripts.EverythingCancelled` | tinylib/linux/net/timer_queue.c:226-258 | a timer that a callback of the pass cancels is freed, or only waits to be freed |
| `TimerScripts.LastWordStands` | tinylib/linux/net/timer_queue.c:282-310 | a refresh of a queued periodic timer, or an insertion of a waiting one, stands unless a later operation of the callback names the timer |
| `TimerScripts.ClientEffects` | tinylib/linux/net/timer_queue.c:175-310 | what each operation does to the records of the timers, those it does not name included |
| `TimerScripts.CallbackDoes` | tinylib/linux/net/timer_queue.c:175-310 | a whole callback logs, adds and cancels what it asks for, and leaves every timer it does not name alone |
| `AsyncModel.Conservation` | tinylib/linux/net/async_task_queue.c:92-150 | under every interleaving executed ++ taken ++ queued is the submissions in lock order: FIFO, each at most once |
| `AsyncModel.NoLostWakeup` | tinylib/linux/net/async_task_queue.c:35-44 | a non-empty queue is announced: the eventfd is signalled, a submitter still owes its write, or the loop is between read and grab |
| `AsyncModel.StepKeepsInv` | tinylib/linux/net/async_task_queue.c:92-150 | each lock section, write, read, grab and task run keeps both facts |
| `AsyncModel.InternalRunsAreShort` | tinylib/linux/net/async_task_queue.c:127-150 | without new submissions the protocol comes to rest within a computed number of steps |
| `AsyncModel.AtRestExactlyWhen` | tinylib/linux/net/async_task_queue.c:127-150 | where it rests every submitted task has run, exactly unless the loop has stopped with tasks queued, which then are the ones that have not |
| `AsyncModel.StoppedStaysStopped` | tinylib/linux/net/loop.c:220-263 | once the loop has stopped nothing runs any more: the queue only gains what is submitted |
| `AsyncModel.StrandedExactly` | tinylib/linux/net/loop.c:220-274 | in every run in which the loop stops, the tasks that never run are exactly those queued at the stop followed by those submitted afterwards |
| `AsyncModel.QuitCanStrand` | tinylib/linux/net/loop.c:268-274 | a run that quits, then submits, then stops has a task queued at the stop |
| `AsyncModel.RequestsSplit` | tinylib/linux/net/loop.c:161-191 | every call of loop_async or loop_run_inloop is run in place or submitted, once, in order; which of the two, says RequestsPlaced |
| `AsyncModel.RequestsPlaced` | tinylib/linux/net/loop.c:161-191 | over every run, as filters of its steps: run in place are exactly the loop_run_inloop tasks of the loop thread, before the start or after a quit; submitted are exactly the loop_async tasks and all other loop_run_inloop tasks, in order |
| `AsyncTaskQueue.AsyncTaskQueue.constructor` | tinylib/linux/net/async_task_queue.c:46-63 | an empty queue and an unsignalled eventfd |
| `AsyncTaskQueue.AsyncTaskQueue.Submit` | tinylib/linux/net/async_task_queue.c:102-120 | the linked list gains the task at its end, under the lock |
| `AsyncTaskQueue.AsyncTaskQueue.RunInloop` | tinylib/linux/net/loop.c:174-191 | runs the task at once before the start, on the loop thread or after a quit, and queues it behind the others exactly otherwise |
| `AsyncTaskQueue.AsyncTaskQueue.Signal` | tinylib/linux/net/async_task_queue.c:122 | the eventfd counter rises, or stays when full |
| `AsyncTaskQueue.AsyncTaskQueue.Wake` | tinylib/linux/net/async_task_queue.c:38-39 | the read empties the counter |
| `AsyncTaskQueue.AsyncTaskQueue.Grab` | tinylib/linux/net/async_task_queue.c:133-137 | the whole list moves to the loop thread |
| `AsyncTaskQueue.AsyncTaskQueue.RunNext` | tinylib/linux/net/async_task_queue.c:141-146 | the first taken task runs and its node is freed |
| `AsyncTaskQueue.AsyncTaskQueue.Process` | tinylib/linux/net/async_task_queue.c:127-150 | runs exactly the tasks queued at the grab, in order; what arrived meanwhile stays queued, and the whole is a legal run of the protocol |
| `Buffer.Buffer.constructor` | tinylib/linux/net/buffer.c:55-75 | a buffer without contents |
| `Buffer.Buffer.ReadableBytes` | tinylib/linux/net/buffer.c:99-107 | the number of unread bytes |
| `Buffer.Buffer.EnsureSpace` | tinylib/linux/net/buffer.c:20-53 | room for the bytes, contents unchanged across compaction and growth by whole kilobytes |
| `Buffer.Buffer.Append` | tinylib/linux/net/buffer.c:109-123 | contents gain the bytes at the end; an empty chunk changes nothing |
| `Buffer.Buffer.ReadFd` | tinylib/linux/net/buffer.c:125-169 | contents gain what readv delivered, in order, also across the spill area; its failure is passed on and changes nothing |
| `Buffer.Buffer.Retrieve` | tinylib/linux/net/buffer.c:171-188 | contents lose their first bytes |
| `Buffer.Buffer.RetrieveAll` | tinylib/linux/net/buffer.c:190-199 | contents become empty |
| `TcpModel.BytesConserved` | tinylib/linux/net/tcp_connection.c:127-158 | for every sequence of sends, partial writes, refusals and events: bytes taken by the socket ++ buffered bytes == accepted sends |
| `TcpModel.ArmedIffPending` | tinylib/linux/net/tcp_connection.c:286-359 | EPOLLOUT is in the mask exactly when bytes wait |
| `TcpModel.DeletedOnlyWhenDone` | tinylib/linux/net/tcp_connection.c:226-251 | a connection is deleted only after destroy and only when all went out, it was disconnected, an event of the run was a hang-up, or one of its actions ran a posted send after an action that destroys |
| `TcpModel.LosesExactlyWhen` | tinylib/linux/net/tcp_connection.c:127-164 | short of a hang-up accepted bytes are lost exactly by an event that finds a connected, left behind connection with bytes it does not write out itself |
| `TcpModel.LossHappens` | tinylib/linux/net/tcp_connection.c:127-164 | a run without hang-up that deletes a connected connection with an accepted byte unsent |
| `TcpModel.FreedIsUsedExactlyWhen` | tinylib/linux/net/tcp_connection.c:365-408 | when all posted sends have run, the freed connection was used exactly if one was still posted when it was deleted, and as often as there were |
| `TcpModel.FreedUseHappens` | tinylib/linux/net/tcp_connection.c:365-374 | such a run |
| `TcpModel.ClosingIsArmed` | tinylib/linux/net/tcp_connection.c:149-158 | a connection waiting to be closed has its write interest, unless one of the actions was a posted send, after one that destroys, that took all its bytes |
| `TcpModel.StallsExactlyWhen` | tinylib/linux/net/tcp_connection.c:318-323 | it loses that interest, so that no flush closes it, exactly when a posted send takes all waiting bytes and its own |
| `TcpModel.StallHappens` | tinylib/linux/net/tcp_connection.c:365-374 | such a run |
| `TcpModel.LeftBehindExactlyWhen` | tinylib/linux/net/tcp_connection.c:127-164 | an event leaves a dead connection undeleted exactly if its input callback destroys the connection, while nothing waits or after the peer closed, and the flush of the same event fails fatally |
| `TcpModel.LeftBehindHappens` | tinylib/linux/net/tcp_connection.c:133-140 | that path exists |
| `TcpModel.FlushCloses` | tinylib/linux/net/tcp_connection.c:149-164 | when the last byte of a connection waiting to close goes out, the event deletes it |
| `TcpModel.ActionKeeps` | tinylib/linux/net/tcp_connection.c:63-251 | each call, posted send and event keeps conservation, arming and the deletion rule |
| `TcpModel.RunKeeps` | tinylib/linux/net/tcp_connection.c:63-408 | so does every run |
| `TcpConnection.TcpConnection.constructor` | tinylib/linux/net/tcp_connection.c:205-221 | a new connection is alive, connected and only reading |
| `TcpConnection.TcpConnection.AfterWritev` | tinylib/linux/net/tcp_connection.c:294-330 | each outcome of writev leaves exactly the untaken bytes in the buffer, and arms iff there are some |
| `TcpConnection.TcpConnection.AfterWrite` | tinylib/linux/net/tcp_connection.c:334-358 | the same for write with an empty buffer |
| `TcpConnection.TcpConnection.SendInLoop` | tinylib/linux/net/tcp_connection.c:265-362 | 0 exactly for accepted data, which then is on the wire or buffered |
| `TcpConnection.TcpConnection.Send` | tinylib/linux/net/tcp_connection.c:376-408 | refuses empty data and closed connections; on the loop thread 0 leaves the accepted data unchanged exactly for a fatal error, on another thread a copy is posted and nothing else changes |
| `TcpConnection.TcpConnection.RunPosted` | tinylib/linux/net/tcp_connection.c:364-374 | the oldest posted send runs on the loop thread, whatever happened to the connection meanwhile |
| `TcpConnection.TcpConnection.Destroy` | tinylib/linux/net/tcp_connection.c:226-251 | deferred while bytes wait, marked inside a callback, immediate otherwise |
| `TcpConnection.TcpConnection.Drain` | tinylib/linux/net/tcp_connection.c:129-147 | the written prefix leaves the buffer |
| `TcpConnection.TcpConnection.OnOutput` | tinylib/linux/net/tcp_connection.c:127-158 | a full flush disarms and marks a connection waiting to close |
| `TcpConnection.TcpConnection.OnInput` | tinylib/linux/net/tcp_connection.c:97-125 | close callback on end of stream, data callback on data, neither once the close is pending |
| `TcpConnection.TcpConnection.OnHangup` | tinylib/linux/net/tcp_connection.c:78-94 | close callback, or the end of a pending close: what the abstract hang-up does, which HangupEnds states |
| `TcpConnection.TcpConnection.OnEvent` | tinylib/linux/net/tcp_connection.c:63-167 | one event, callbacks that send and destroy included, refines the abstract event, of which the next rows say what it does |
| `TcpModel.HangupEnds` | tinylib/linux/net/tcp_connection.c:76-94 | a hang-up deletes a connection that waits to be closed; any other is disconnected, one not yet destroyed is deleted exactly if its close callback destroys it, and no byte moves |
| `TcpModel.StreamEnds` | tinylib/linux/net/tcp_connection.c:97-111 | so does the end of the stream, except that a fatal write error of the same event leaves the connection undeleted |
| `TcpModel.DataArrives` | tinylib/linux/net/tcp_connection.c:112-118 | the data callback runs: what it sends is accepted, and the connection is destroyed exactly if it does so |
| `TcpModel.Writable` | tinylib/linux/net/tcp_connection.c:127-164 | the socket takes what it can of the waiting bytes, and the connection is deleted exactly if it waited to be closed and the last byte went |
| `TcpModel.DestroyEnds` | tinylib/linux/net/tcp_connection.c:226-251 | destroy deletes at once outside callbacks, unless bytes wait for a connected peer: then it only stops reading |
| `WheelModel.FirstExact` | tinylib/util/time_wheel.c:89-104 | the first wait is steps + 1 calls exactly when steps < max_steps |
| `WheelModel.FiresOnSchedule` | tinylib/util/time_wheel.c:212-268 | in every run the firings of a timer submitted with steps <= max_steps and not refreshed, as logged, are on the calls start + first wait + k * steps (k * max_steps for steps 0), in order, and while it lives none is missed |
| `WheelModel.DueOnSchedule` | tinylib/util/time_wheel.c:212-268 | the same of the countdown kept for a live timer, refreshed or not |
| `WheelModel.NthCallIs` | tinylib/util/time_wheel.c:247-251 | the closed form of the schedule |
| `WheelModel.CallFiresExactly` | tinylib/util/time_wheel.c:225-265 | a call fires exactly the timers at remaining 1, once each, none submitted meanwhile |
| `WheelModel.FireAllFires` | tinylib/util/time_wheel.c:236-265 | the loop over the slot runs every callback of the call and ends |
| `WheelModel.StepKeepsInv` | tinylib/util/time_wheel.c:68-268 | submit, cancel, refresh, the start of a call and each firing keep the countdown |
| `WheelModel.RefreshFitsExactly` | tinylib/util/time_wheel.c:192-197 | refresh stays inside the wheel exactly for steps <= index + max_steps, or so close to 2^32 that the difference wraps to a slot ahead |
| `WheelModel.RearmFitsExactly` | tinylib/util/time_wheel.c:247-251 | re-arming does exactly for steps <= index + 1 + max_steps, except 0 at the last slot, or as close to 2^32 |
| `WheelModel.BackIsWait` | tinylib/util/time_wheel.c:192-197 | the slot arithmetic of submit and refresh is the countdown |
| `WheelModel.AheadIsFirst` | tinylib/util/time_wheel.c:89-96 | so is the clamp for too many steps |
| `WheelModel.AgainIsWait` | tinylib/util/time_wheel.c:247-251 | a bucket put back waits for steps calls if the wheel has that many, else as computed |
| `WheelModel.TurnLowers` | tinylib/util/time_wheel.c:227-234 | moving the wheel brings every other slot one call closer |
| `TimeWheel.PushMirror` | tinylib/util/time_wheel.c:108-114 | linking a bucket at the head of a slot keeps all slots well formed |
| `TimeWheel.PullMirror` | tinylib/util/time_wheel.c:136-149 | unlinking one keeps them, and moves the head if it was the head |
| `TimeWheel.TimeWheel.constructor` | tinylib/util/time_wheel.c:27-39 | an empty wheel |
| `TimeWheel.TimeWheel.SubmitIndex` | tinylib/util/time_wheel.c:89-104 | the slot that is as far away as the timer waits |
| `TimeWheel.TimeWheel.Submit` | tinylib/util/time_wheel.c:68-117 | the handle starts its countdown |
| `TimeWheel.TimeWheel.Cancel` | tinylib/util/time_wheel.c:119-154 | the timer is gone, all others stay |
| `TimeWheel.TimeWheel.Refresh` | tinylib/util/time_wheel.c:156-210 | the countdown starts anew, for every bucket whose new slot is inside the wheel |
| `TimeWheel.TimeWheel.TakeSlot` | tinylib/util/time_wheel.c:225-234 | the current slot holds exactly the timers at remaining 1 |
| `TimeWheel.TimeWheel.Settle` | tinylib/util/time_wheel.c:240-262 | one-shot buckets are freed, looping ones put back wherever the slot is inside the wheel |
| `TimeWheel.TimeWheel.Step` | tinylib/util/time_wheel.c:212-268 | one call fires the timers at remaining 1; each is live afterwards exactly if its own callback asked for another round and the slot is in the wheel, and then waits as AgainIsWait says; the timers the callbacks submit wait, and all others are one call closer |
| `WheelScripts.CallEnds` | tinylib/util/time_wheel.c:212-268 | that holds of every call, whatever its callbacks answer and submit |
| `WheelScripts.FiresEveryTime` | tinylib/util/time_wheel.c:240-262 | in every run a timer that is neither cancelled nor refreshed and always put back is live and has fired on every call of its schedule so far |
| `WheelScripts.FiresEverySteps` | tinylib/util/time_wheel.c:240-262 | for 1 <= steps < max_steps that is (calls - start - 1) / steps firings between calls |
| `WheelScripts.ClientEffects` | tinylib/util/time_wheel.c:119-210 | cancel removes its timer only; refresh lets its timer count anew, for steps + 1 calls below max_steps; all others stay |
| `ChannelModel.HistorySafety` | tinylib/linux/net/channel.c:58-82 | a freed channel is not touched again, destroyed once, and not called after destroy |
| `ChannelModel.SkippedOrFreedWasDestroyed` | tinylib/linux/net/channel.c:207-226 | only destroyed channels are skipped or freed |
| `ChannelModel.NothingLingers` | tinylib/linux/net/channel.c:197-229 | between batches exactly the destroyed channels were freed, and the kernel knows only live ones and those the run destroyed while attached with a mask that is not empty |
| `ChannelModel.DanglingExactlyWhen` | tinylib/linux/net/channel.c:58-82 | the kernel keeps a pointer to a freed channel exactly if some step of the run destroyed one while it was attached with a mask that is not empty |
| `ChannelModel.DanglingHappens` | tinylib/linux/net/channel.c:58-82 | such a run |
| `ChannelModel.BatchTheorem` | tinylib/linux/net/loop.c:227-240 | in a complete batch every reported channel has exactly one turn, in order, whatever the callbacks do |
| `ChannelModel.StepKeepsInv` | tinylib/linux/net/channel.c:58-229 | every channel operation and dispatch step keeps the invariant |
| `EventLoop.EventLoop.New` | tinylib/linux/net/channel.c:30-56 | a live, unmonitored channel |
| `EventLoop.EventLoop.Update` | tinylib/linux/net/loop.c:102-146 | an empty mask leaves the kernel, any other is in it |
| `EventLoop.EventLoop.SetEvent` | tinylib/linux/net/channel.c:89-113 | bits already set need no update |
| `EventLoop.EventLoop.ClearEvent` | tinylib/linux/net/channel.c:126-150 | bits not set need no update |
| `EventLoop.EventLoop.Detach` | tinylib/linux/net/channel.c:152-179 | the channel leaves the kernel, its mask stays |
| `EventLoop.EventLoop.Attach` | tinylib/linux/net/channel.c:181-195 | the channel returns with its mask |
| `EventLoop.EventLoop.Destroy` | tinylib/linux/net/channel.c:58-82 | in its callback or reported: marked; otherwise freed, monitored or not |
| `EventLoop.EventLoop.OnEvent` | tinylib/linux/net/channel.c:197-229 | a turn: free a dead channel, else call it and free it if it died meanwhile |
| `EventLoop.EventLoop.SetRevents` | tinylib/linux/net/loop.c:229-234 | every reported channel becomes active and stores its events |
| `EventLoop.EventLoop.Dispatch` | tinylib/linux/net/loop.c:227-240 | a whole batch with scripted callbacks, in which every reported channel has its turn, does what the scripts ask for and nothing else (BatchFollows, from which the ChannelScripts rows follow) |
| `ChannelScripts.ReportedIsCalled` | tinylib/linux/net/channel.c:207-221 | a reported channel that no earlier callback of the batch destroys is called and not skipped |
| `ChannelScripts.BatchKeeps` | tinylib/linux/net/channel.c:58-195 | a channel no callback names keeps mask, attachment, liveness and its place in the kernel |
| `ChannelScripts.BatchDestroys` | tinylib/linux/net/channel.c:58-82 | a channel that a callback of the batch destroys is destroyed |
| `ChannelScripts.NothingUnasked` | tinylib/linux/net/channel.c:207-226 | every channel created or destroyed in a batch is one the callback then running asks for |
| `ChannelScripts.CallbackDoes` | tinylib/linux/net/channel.c:58-195 | a whole callback creates and destroys what it asks for, and leaves every channel it does not name alone |
| `ChannelScripts.MaskFollows` | tinylib/linux/net/channel.c:89-195 | set and clear join and remove exactly their bits, detach and attach keep the mask |
| `ChannelScripts.WatchFollows` | tinylib/linux/net/channel.c:89-195 | afterwards the kernel watches the channel exactly if it is attached with a mask that is not empty |
| `ChannelScripts.DestroyEnds` | tinylib/linux/net/channel.c:58-82 | destroy frees a channel at once, unless it waits for its turn or runs: that one dies |
| `WindowsLoop.RegisteredExactlyWhen` | tinylib/windows/net/loop.c:111-172 | over every run of updates a registered channel is polled for its latest mask, and a channel is registered exactly if the number of its empty updates since its last non-empty one is even, or odd if it never had one |
| `WindowsLoop.PromiseExactlyWhen` | tinylib/windows/net/loop.c:111-172 | registered exactly if the latest mask is not empty: this holds of a channel exactly for none or an odd number of empty updates since the last non-empty one, or an even number if it never had one |
| `WindowsLoop.EmptyUpdateRegisters` | tinylib/windows/net/loop.c:126-138 | it fails for a single empty update |
| `WindowsLoop.SwapRemoveForgets` | tinylib/windows/net/loop.c:140-158 | swap-remove forgets exactly one channel; all others keep their events |
| `WindowsLoop.SwapRemovePlaced` | tinylib/windows/net/loop.c:145-153 | every slot still names itself, every other channel has index -1 |
| `WindowsLoop.AppendWatches` | tinylib/windows/net/loop.c:128-138 | appending adds exactly one channel |
| `WindowsLoop.Loop.constructor` | tinylib/windows/net/loop.c:28-61 | nothing registered |
| `WindowsLoop.Loop.EnsureChannelSlots` | tinylib/windows/net/loop.c:80-109 | room for one more, the registered set and its events unchanged |
| `WindowsLoop.Loop.Grow` | tinylib/windows/net/loop.c:93-106 | both arrays double and keep their elements |
| `WindowsLoop.Loop.Occupy` | tinylib/windows/net/loop.c:130-138 | the next slot, its poll entry and the index of the channel |
| `WindowsLoop.Loop.FillGap` | tinylib/windows/net/loop.c:145-159 | the last channel and its poll entry move into the gap |
| `WindowsLoop.Loop.Register` | tinylib/windows/net/loop.c:126-138 | the channel joins the registered set with its events |
| `WindowsLoop.Loop.Unregister` | tinylib/windows/net/loop.c:142-159 | the channel leaves it |
| `WindowsLoop.Loop.Modify` | tinylib/windows/net/loop.c:160-165 | only its events change |
| `WindowsLoop.Loop.UpdateChannel` | tinylib/windows/net/loop.c:111-172 | the three cases together |
| `UdpModel.FreedByTheLastTask` | tinylib/linux/net/udp_peer.c:209-346 | in every order of calls and tasks the count is the destroy task plus the notify tasks still to run, and the peer is freed exactly when none is left, once |
| `UdpModel.StepKeepsInv` | tinylib/linux/net/udp_peer.c:209-346 | each call and task keeps that |
| `UdpModel.LateExactlyWhen` | tinylib/linux/net/udp_peer.c:134-148 | the peer is used after it was freed exactly if its initial task ran after the destroy task and after every notify task whose call had taken its reference |
| `UdpModel.InitCanComeLate` | tinylib/linux/net/udp_peer.c:183 | such an order exists |
| `UdpModel.SmallNeverWraps` | tinylib/linux/net/udp_peer.c:72-79 | payloads up to 65487 bytes keep the unsigned room from wrapping |
| `UdpModel.LargerCanWrap` | tinylib/linux/net/udp_peer.c:72-79 | one byte more can wrap it: seven datagrams of 65488 bytes, one of 337 and one of any larger legal size |
| `UdpModel.NeverWrapsExactlyWhen` | tinylib/linux/net/udp_peer.c:72-79 | a limit on the payloads rules the wrap out exactly if it is at most 65487 bytes |
| `UdpModel.ChunkAt` | tinylib/linux/net/udp_peer.c:112-120 | each datagram starts where the ones before it end |
| `UdpModel.ChunkReads` | tinylib/linux/net/udp_peer.c:81-94 | size, sender and payload are recovered from the bytes written |
| `UdpModel.PassesTakeAll` | tinylib/linux/net/udp_peer.c:66-129 | over repeated events all datagrams are taken once, in order, however the area cuts the passes |
| `UdpModel.PassSplits` | tinylib/linux/net/udp_peer.c:70-106 | a pass takes a prefix and leaves the rest |
| `UdpModel.PassTakesWhatFits` | tinylib/linux/net/udp_peer.c:70-106 | a pass takes a datagram exactly while there is room for the largest one |
| `UdpPeer.UdpPeer.constructor` | tinylib/linux/net/udp_peer.c:168-181 | one reference, for the destroy task; both callbacks have the user data, no interest yet |
| `UdpPeer.UdpPeer.InitEvent` | tinylib/linux/net/udp_peer.c:134-148 | reading armed, writing if a callback is there |
| `UdpPeer.UdpPeer.Retain` | tinylib/linux/net/udp_peer.c:242-265 | a caller takes a reference before it queues its task |
| `UdpPeer.UdpPeer.DoOnMessage` | tinylib/linux/net/udp_peer.c:209-240 | the peer is there; it is freed if this was the last task, else the interest follows the callback, and clearing the callback clears its user data |
| `UdpPeer.UdpPeer.DoOnWrite` | tinylib/linux/net/udp_peer.c:267-298 | the same for writing; clearing the callback drops the message user data |
| `UdpPeer.UdpPeer.DoDestroy` | tinylib/linux/net/udp_peer.c:335-346 | frees the peer exactly if no notify task is left |
| `UdpPeer.UdpPeer.PutChunk` | tinylib/linux/net/udp_peer.c:81-91 | payload, size and sender land at their places |
| `UdpPeer.UdpPeer.Receive` | tinylib/linux/net/udp_peer.c:68-106 | the area holds the taken datagrams, packed, and chunk_count counts them |
| `UdpPeer.UdpPeer.Deliver` | tinylib/linux/net/udp_peer.c:112-122 | walking the area hands out the same datagrams, in order |
| `UdpPeer.UdpPeer.OnReadable` | tinylib/linux/net/udp_peer.c:66-129 | one event delivers exactly what it received, or drops it without a message callback |
| `Md5.AllLines` | tinylib/util/md5.c:174-243 | the 64 unrolled lines give the registers of the 64 operations, for every state and block |
| `Md5Model.AllTurnsIsLoop` | tinylib/util/md5.c:173-243 | those are what the loop with rotating registers and the schedules i, 5i+1, 3i+5, 7i mod 16 computes |
| `Md5Model.TraceIsTurns` | tinylib/util/md5.c:173-243 | any trace of the operations is the loop's |
| `Md5.FF` | tinylib/util/md5.c:76 | one line is one operation of its round |
| `Md5.GG` | tinylib/util/md5.c:77 | one line is one operation of its round |
| `Md5.HH` | tinylib/util/md5.c:78 | one line is one operation of its round |
| `Md5.II` | tinylib/util/md5.c:79 | one line is one operation of its round |
| `Md5.Encode` | tinylib/util/md5.c:258-268 | words become bytes, low byte first |
| `Md5.Decode` | tinylib/util/md5.c:273-281 | bytes become words, low byte first |
| `Md5Model.BytesOfRoundTrip` | tinylib/util/md5.c:258-281 | decoding an encoded word gives it back |
| `Md5Model.DigestedSplits` | tinylib/util/md5.c:98-136 | whole blocks of a message may be digested ahead of the rest |
| `Md5Model.CountsAdd` | tinylib/util/md5.c:105-111 | the two-word count with its carry adds 8n modulo 2^64 |
| `Md5Model.CountsLength` | tinylib/util/md5.c:146-147 | the two words are the bit length modulo 2^64 |
| `Md5Model.CountsIndex` | tinylib/util/md5.c:103 | they give the number of buffered bytes |
| `Md5Model.LoopStopsExactlyWhen` | tinylib/util/md5.c:122 | the guard i + 63 < inputLen ends the loop at the last whole block exactly if that block does not end in the top 63 bytes of the 32-bit range |
| `Md5Model.LoopRunsOn` | tinylib/util/md5.c:122 | with one byte buffered and 2^32 - 1 given, the guard holds behind the last byte |
| `Md5Model.GuardIsRight` | tinylib/util/md5.c:122-125 | between block ends the guard holds exactly if a whole block follows |
| `Md5Model.PaddedIsWhole` | tinylib/util/md5.c:149-156 | the padded message is whole blocks |
| `Md5.Context.Init` | tinylib/util/md5.c:83-92 | the context of the empty message |
| `Md5.Context.Transform` | tinylib/util/md5.c:168-253 | the state is compressed with the block |
| `Md5.Context.AddBits` | tinylib/util/md5.c:105-111 | the count grows by the bits of the piece |
| `Md5.Context.Blocks` | tinylib/util/md5.c:117-128 | every whole block is digested, up to the last; the buffer keeps the first |
| `Md5.Context.Update` | tinylib/util/md5.c:98-136 | the context stands for the message with the piece appended, and every byte of the buffer is determined |
| `Md5.Context.Final` | tinylib/util/md5.c:141-164 | the digest of the padded message, context zeroized |
| `Md5.SplitsAgree` | tinylib/util/md5.c:98-136 | contexts of the same message agree however it was split: registers, count, live bytes of the buffer (for the stale ones see SameBufferExactlyWhen) |
| `Md5Model.SameBufferExactlyWhen` | tinylib/util/md5.c:117-135 | one call and two leave the same 64 buffer bytes exactly unless both pieces complete a block and those blocks differ behind the live bytes |
| `Md5Model.StaleBytesDiffer` | tinylib/util/md5.c:117-135 | two blocks in one call and in two leave different buffers |
| `Md5.Digest` | tinylib/util/md5.c:302-314 | one call gives the digest of the whole input |
| `Md5Vector.KnownAnswer` | test/test_md5.c:9-27 | the digest of the text of the library's own test is dd1ab23d b706e70f d32cb022 bdc25717, as its comment records, which fixes every constant of the algorithm |
| `Md5Vector.AllOperations` | tinylib/util/md5.c:168-253 | the 64 operations on the block of that text |
| `Base64Model.RoundTrip` | tinylib/util/base64.c:104-199 | decoding the encoding gives back the bytes, whatever follows the NUL |
| `Base64.DecodesBack` | tinylib/util/base64.c:104-155 | into any buffer of at least the original size the result is the original bytes and stays inside that size |
| `Base64.EncodedTerminates` | tinylib/util/base64.c:196 | the encoder's NUL is the terminator the decoder relies on |
| `Base64Model.AlphabetIsExact` | tinylib/util/base64.c:58-95 | letters are exactly the characters with a sextet, one each |
| `Base64Model.LetterIsInAlphabet` | tinylib/util/base64.c:165-166 | the letter of a sextet is its character in the alphabet of RFC 4648, and map2 reads it back |
| `Base64Model.OverrunExactlyWhen` | tinylib/util/base64.c:147-151 | the result is longer than the buffer exactly if one byte of room meets a three-letter tail |
| `Base64.OverrunHappens` | tinylib/util/base64.c:147-151 | three letters into a buffer of one byte: two bytes are written |
| `Base64Model.RoomAsDemanded` | tinylib/util/base64.h:41-43 | with the room the header demands, three quarters of the text, nothing is cut and nothing overruns |
| `Base64Model.Regroups` | tinylib/util/base64.c:129-132 | three bytes survive being cut into sextets |
| `Base64.LoadIsBigEndian` | tinylib/util/base64.c:39-55 | the swapped little-endian load is the big-endian value |
| `Base64.StoreIsBigEndian` | tinylib/util/base64.c:118-120 | the 4-byte store writes the group's three bytes and a zero |
| `Base64.LoadedLetters` | tinylib/util/base64.c:177-182 | the letters of a 4-byte load are those of its first three bytes |
| `Base64.Step` | tinylib/util/base64.c:97-102 | one step reads a letter or stops |
| `Base64.WholeGroups` | tinylib/util/base64.c:113-123 | whole groups while there is room for a 4-byte store |
| `Base64.LastGroup` | tinylib/util/base64.c:124-135 | the last group, cut at the room left |
| `Base64.Tail` | tinylib/util/base64.c:147-151 | the bytes of an incomplete group |
| `Base64.Decode` | tinylib/util/base64.c:104-155 | for every text and size: the bytes of the leading letters, cut at the size (one more in the overrun case), nothing beyond written |
| `Base64.TailIsEncoded` | tinylib/util/base64.c:184-195 | the letters of the tail loop, padded, encode the last one to three bytes |
| `Base64.Quads` | tinylib/util/base64.c:176-183 | three bytes at a time while four can be loaded |
| `Base64.PutTail` | tinylib/util/base64.c:190-193 | the tail letters |
| `Base64.PutPadding` | tinylib/util/base64.c:194-195 | padding up to a multiple of four |
| `Base64.Encode` | tinylib/util/base64.c:163-199 | the RFC 4648 encoding and a NUL in AV_BASE64_SIZE bytes, exactly when the sizes fit |
| `UrlModel.ParsePrint` | tinylib/util/url.c:36-146 | parsing a printed URL recovers every component (an empty password as none, no port as 0, no path as "/") exactly if each is free of the marks that end it and query and hash come with a path |
| `UrlModel.QueryExactlyWhen` | tinylib/util/url.c:86-103 | a query, and a hash, is found exactly if its mark stands behind the first "/" |
| `UrlModel.TailStaysInHost` | tinylib/util/url.c:86-93 | text without "@" behind a server without a path is lost behind a port, and else becomes part of the host up to its first ":" and the port from there |
| `UrlModel.TailMovesToLogin` | tinylib/util/url.c:107-143 | with "@" all before the last one becomes user and password, split at the first ":", and the host comes from behind it |
| `UrlModel.QueryBecomesUser` | tinylib/util/url.c:107-131 | "h?x@y" has the user "h?x" and the host "y" |
| `UrlModel.QueryIsLost` | tinylib/util/url.c:86-93 | "r://h?q" has the host "h?q" and no query, for all h and q |
| `UrlModel.SchemaBack` | tinylib/util/url.c:71-81 | the scheme ends behind its name exactly if the name holds no "://" |
| `UrlModel.PlaceBack` | tinylib/util/url.c:10-34 | path, query and hash are recovered |
| `UrlModel.LoginBack` | tinylib/util/url.c:107-131 | user and password are recovered |
| `UrlModel.ServerBack` | tinylib/util/url.c:131-143 | host and port are recovered |
| `UrlModel.AtoiDecimal` | tinylib/util/url.c:139-142 | reading a printed port gives it back |
| `UrlModel.AtoiSigned` | tinylib/util/url.c:139-142 | behind white space and a sign, the digits are read up to the first other character |
| `UrlParser.ParseUrl` | tinylib/util/url.c:36-146 | NULL exactly for the refused texts, else places whose strings are the components, all writes inside len + 3 bytes |
| `UrlParser.StrRChr` | tinylib/util/url.c:107 | the last occurrence |
| `UrlParser.StrStr` | tinylib/util/url.c:71 | the first "://" |
| `UrlParser.MoveRight` | tinylib/util/url.c:97 | the text moves one place to the right |
| `UrlParser.ParseInt` | tinylib/util/url.c:142 | white space, sign, digits |
| `UrlParser.Parsed.Load` | tinylib/util/url.c:56-60 | the copy and the zeroed bytes behind it |
| `UrlParser.Parsed.DefaultPath` | tinylib/util/url.c:87-93 | "/" behind the text |
| `UrlParser.Parsed.MovePath` | tinylib/util/url.c:94-103 | the path behind its own NUL, cut into path, query and hash |
| `UrlParser.Parsed.CutPath` | tinylib/util/url.c:10-34 | path, query and hash as strings of their own |
| `UrlParser.Parsed.CutLogin` | tinylib/util/url.c:107-129 | user, password and server as strings of their own |
| `UrlParser.Parsed.CutServer` | tinylib/util/url.c:131-143 | host and port |

## Left out

- NULL arguments and allocation failure: the guards at the top of each function only log and return.
- Clocks, sockets, epoll, eventfd and WSAPoll are parameters: any time, any legal count, error or readiness.
- Callbacks that make illegal calls: an operation the application may not make at that moment (a freed handle, refresh of a timer that is not in the queue, a wheel timer cancelled inside a wheel callback) is skipped.
- `timer_queue_refresh` from another thread, whose task may meet a timer that is no longer queued, and `timer_queue_destroy`.
- A refresh or another round of a wheel timer whose slot lies outside the wheel: refresh then requires `Fits`, and the request for another round is taken as declined. Wheels of more than 2^31 - 1 slots, and `time_wheel_destroy`.
- Running tasks in place from several threads before the loop starts: set-up is taken as single-threaded.
- The growth of the epoll event array after a full batch (it changes no channel).
- Buffer lengths and indices are unbounded; the code's are `int`. What the data callback consumes of the input buffer, addresses, socket options and logging.
- Use of the connection handle after destroy, what a posted send does to the freed connection it uses, and the payload of sends refused for a closed connection.
- What happens when the kernel reports a channel that was destroyed before its detach: the model reports no such channel.
- The Windows send path, where new data is not buffered on WSAEWOULDBLOCK; the Windows timer queue, which is the Linux algorithm; growth of the Windows arrays during a dispatch, which loses the active list.
- Message callbacks of the UDP peer that change the receive area or call into the peer, and errors of `sendto`.
- Sine constants of MD5 are the tabulated ones; their derivation from the sine function is not modelled (`KnownAnswer` fixes them by a digest). Shifts and masks of unsigned words in MD5's Encode and Decode and in base64 are written as division and remainder.
- Base64 on a big-endian host, and a negative `out_size` of the decoder.
- `atoi` on numerals beyond `int`, which C leaves undefined: the model reads them as unbounded before the cast to 16 bits.
- The whole of `tinylib/ssl`, RTP, RTSP and the TCP client and server glue: they add callbacks over the components above.
