# Verified model of the mudoReprint reactor

The repository re-implements a muduo-style reactor in C++: an event loop woken through an eventfd, a
timer queue behind a one-shot timerfd, a poller that keeps channels registered with epoll, and TCP
connections with an output buffer and a half-close. This project states what those parts do as Dafny
functions and step relations, writes the same code again as classes that update themselves in place,
proves that each of their methods changes its object as its function or step says (the loop pool's two
methods are specified outright), and proves properties of the functions over every input and every run. `dafny verify dfyconfig.toml` checks all of it.

| files | what they hold |
|---|---|
| TimerModel, TimerInvariant, TimerTheorems, TimerPeriodic, TimerQueue | timers, the ordered set, the timerfd, rounds of expiry, catching up |
| EventLoopModel, EventLoopTheorems, EventLoop, EventLoopThread | pending functors, wakeups, quit, the loop, the thread that owns a loop |
| ChannelModel, Epoller | event masks, the registration index, the fd map, the kernel's interest set |
| ConnectionModel, TcpConnection, GracefulClose, ConnectionOnLoop | sending, buffering, half-closing, what reaches the socket, and all of it on the event loop |
| Lifecycle, ConnectionNames, TcpServer | connection states over a server's life, names, the connection list |
| EventLoopThreadPoll, Socket | round-robin choice of a loop, ownership of descriptors |
| Seqs | two facts about concatenation |

Kernel objects are small abstract state: an eventfd is a counter, a timerfd an optional deadline, the
epoll set a map from descriptor to mask and pointer, a socket the bytes it has taken and a flag for
its closed write side. Clock readings, addresses returned by `new`, answers of `write` and `read`,
what callbacks do and what other threads do are inputs, so results hold for all of them.

## Findings

Places where the code does not do what its comments, its commented-out lines or its callers expect.
Each is kept as it is, with a concrete run or input that shows it and the exact condition under which
the code is right.

1. `TcpConnection.cpp:111` buffers `msg.substr(n - 1, remain)`; the commented-out line 110 asks for
   the bytes from offset `n`. The send is right exactly when nothing has to be buffered or the rest
   repeats the last byte taken, and it throws `std::out_of_range` exactly when it has to buffer a
   message of which the socket took nothing (AsWrittenSendKeepsStreamIff, AsWrittenThrowsIff,
   AsWrittenSendExample, AsWrittenThrowExample).
2. `TcpConnection.cpp:171` empties the buffer while computing the arguments of `write`, in an order
   C++ leaves open. It loses nothing exactly when the buffer was empty, or the length was computed
   first and the socket took everything (AsWrittenWriteKeepsStreamIff, AsWrittenWriteExample).
3. Even as intended, `handleWrite` closes the write side as soon as the buffer drains after
   `shutDown`, also when sends that another thread made before `shutDown` still wait in the functor
   queue. The graceful close flushes exactly when that never happens; on the loop thread it cannot
   (GracefulCloseFlushesIff, SentIsTaken, EarlyCloseExample).
4. `resetTimerList` re-arms only for a first timer later than the epoch. After a round the timer set
   is covered exactly when no due repeating timer restarts at or before the epoch, or the callbacks
   have themselves armed the timerfd for its shortest delay; `runAt`, `runAfter` and `runEvery`
   never make such a timer (RoundCoversIff, UncoveredExample).
5. An interval below one microsecond repeats but advances by nothing. Catching up ends exactly when
   no due timer has one, and `runEvery` can make one (CatchUpEndsIff, StuckExample).
6. `queueInLoop` on the loop thread before `loop()` wakes nobody. The loop goes to sleep on pending
   work, until some other event or the ten-second timeout of the poll (`EventLoop.cpp:62`), exactly when
   the loop thread queued something before `loop()`, no other thread did, and nobody asked to quit
   (StartStallsIff, StallExample).
7. `~TimerQueue` deletes the timers in the set; adds still queued in the loop are never freed. It
   frees everything exactly when none is queued (DestroyFreesAllIff, DestroyLeakExample).
8. "Added" does not imply a non-empty mask: an update leaves an added channel with an empty mask
   exactly when it was not added before and wants nothing (AddedAndEmptyIff, DisableAllTwice).
9. `~EventLoopThread` calls through a null pointer exactly when the loop has already returned and its
   thread has withdrawn it (NullCallIff, NullCallExample).
10. Otherwise its `quit()` can still write the eventfd of a loop that no longer exists: exactly when the
   thread withdraws the loop between the destructor's store of the flag and its write, also if nobody
   else ever quits the loop (GoneLoopIff, GoneLoopExample).

## Model

| member | source | states |
|---|---|---|
| TimerModel.HowMuchTimeFromNow | TimerQueue.cpp:50-63 | the delay is exactly max(when - now, 100 microseconds), nanoseconds are in range, and it is never the zero value that would disarm |
| TimerModel.ResetTimerfdIsExact | TimerQueue.cpp:65-74 | arming gives the deadline max(expiration, now + 100), through the split into seconds and nanoseconds and back |
| TimerModel.Delta | Timer.h:36-46 | the whole microseconds in an interval, truncated toward zero, so a repeating timer never moves backwards |
| TimerInvariant.LowerBoundUnique | TimerQueue.cpp:106 | the position with everything before it smaller and itself not smaller is the lower bound |
| TimerInvariant.InsertNew | TimerQueue.cpp:155-169 | inserting a timer the set does not hold keeps the order, adds one entry, and the first entry is the smaller of it and the old first |
| TimerInvariant.InsertCount | TimerQueue.cpp:166 | an insertion adds one occurrence of that timer and changes no other |
| TimerInvariant.DueSplit | TimerQueue.cpp:101-111 | the sentinel pointer makes lower_bound split the set exactly into the entries with expiration at most now and the rest |
| TimerInvariant.AddTimerHolds | TimerQueue.cpp:30-48 | an add, re-entrant or from another thread, keeps every live timer in exactly one place and every key equal to its timer's expiration |
| TimerInvariant.RunQueuedAddHolds | TimerQueue.cpp:35 | running a queued add finds its timer still live and keeps the same |
| TimerInvariant.AddAllHolds | TimerQueue.cpp:147-150 | any sequence of re-entrant adds keeps it while a batch is in flight, leaves the old timers untouched and creates one timer for each request |
| TimerInvariant.TakeDueHolds | TimerQueue.cpp:101-111 | getExpired moves timers from the set to the batch and loses none |
| TimerInvariant.ResetAllHolds | TimerQueue.cpp:76-90 | resetTimerList empties the batch: every timer in it is back in the set or deleted, and none twice |
| TimerInvariant.HandleRead | TimerQueue.cpp:132-153 | a whole round keeps every live timer in exactly one place |
| TimerTheorems.EveryTimerInOnePlace | TimerQueue.cpp:18-48 | over any run, a live timer is either once in the set or once among the queued adds, a dead one nowhere, and keys agree |
| TimerTheorems.DestroyFreesAllIff | TimerQueue.cpp:18-28 | the destructor leaves exactly the queued timers alive, so it frees everything iff no add is queued |
| TimerTheorems.DestroyLeakExample | TimerQueue.cpp:24-38 | one add from another thread that the loop never runs is still live after the destructor |
| TimerTheorems.RoundRunsExactlyTheDue | TimerQueue.cpp:132-153 | a round runs all and only the entries with expiration at most now, in increasing order, each once, and no timer its callbacks add |
| TimerTheorems.AddsOfAppend | TimerQueue.cpp:147-150 | the adds of a list of callbacks are all of theirs, one callback after another |
| TimerTheorems.CallbackAddsAreLive | TimerQueue.cpp:132-153 | every timer a callback of the round adds is live after it, as it was asked for, and in the set |
| TimerTheorems.AddArrives | TimerQueue.cpp:30-48 | an add on the loop thread is in the set at once, one from another thread waits last in the queue and touches neither set nor timerfd |
| TimerTheorems.QueuedAddArrives | TimerQueue.cpp:35 | a queued add that is run leaves the queue and puts its timer in the set |
| TimerTheorems.RoundOutcome | TimerQueue.cpp:76-90 | after a round a timer that was not due is untouched, a due one with any positive interval is one interval later, any other due one is deleted |
| TimerTheorems.RoundCovers | TimerQueue.cpp:76-100 | whatever the callbacks add, a round leaves the timerfd armed for the earliest timer unless a due repeating timer restarts at or before the epoch |
| TimerTheorems.TimerfdAlwaysCovers | TimerQueue.cpp:40-111 | over any run of adds, queued adds and rounds with valid requests, a non-empty set has a timerfd deadline of max(earliest, arming time + 100) |
| TimerTheorems.FiresIffDue | TimerQueue.cpp:101-111 | a covering timerfd has expired iff the shortest delay since arming has passed and some timer is due, so handleRead always finds work and no due timer is left waiting |
| TimerTheorems.EventLoopRequestsAreValid | EventLoop.cpp:113-128 | runAt, runAfter and runEvery only make requests that theorem covers |
| TimerTheorems.EventLoopRequestTimes | EventLoop.cpp:113-128 | runAt asks for the given time, runAfter and runEvery for now plus the delay cut to microseconds, and only runEvery repeats |
| TimerTheorems.AddAllArms | TimerQueue.cpp:40-48 | after any re-entrant adds the timerfd is armed for the earliest of them, as its own clock reading says, if it comes before all that was in the set, and is untouched otherwise |
| TimerTheorems.RoundCoversIff | TimerQueue.cpp:76-153 | a round entered on expiry, with any three clock readings and any adds by callbacks, leaves the set covered iff no due repeating timer restarts at or before the epoch or the earliest add is due within the shortest delay of being made |
| TimerTheorems.QuietRoundCoversIff | TimerQueue.cpp:91-99 | without adds, iff no due repeating timer restarts at or before the epoch |
| TimerTheorems.UncoveredExample | TimerQueue.cpp:96-99 | a concrete run after which a timer is in the set and the timerfd is disarmed |
| TimerTheorems.EmptyRoundTakesExpiry | TimerQueue.cpp:134-146 | handleRead takes an expiry that has come, and leaves a deadline that has not unless it arms it again |
| TimerPeriodic.PeriodicTimerIsExact | Timer.h:25-46 | over any run, the k firings of a timer with any positive interval are due at exactly t0, t0 + d, ..., t0 + (k-1)d and it is stored at t0 + kd |
| TimerPeriodic.RunEveryIsExact | EventLoop.cpp:118-122 | a timer made by runEvery with any positive interval fires at exactly now + d, now + 2d, ... over any run |
| TimerPeriodic.OneShotRunsOnce | TimerQueue.cpp:76-111 | over any run that does not reissue its address, a timer that does not repeat runs at most once, at its expiration, and has run iff it is deleted; while live it is unchanged |
| TimerPeriodic.DeadTimerStaysDead | TimerQueue.cpp:86-89 | over any such run a deleted timer never runs and is never live again |
| TimerPeriodic.NothingFiresEarly | TimerQueue.cpp:132-153 | nothing runs before the latest time a round sampled |
| TimerPeriodic.CaughtUpCount | TimerQueue.cpp:76-111 | once a repeating timer is no longer due at now, it has fired floor((now - t0)/d) + 1 times |
| TimerPeriodic.QuietRoundShrinks | TimerQueue.cpp:132-153 | with now fixed and no adds, a round takes exactly one due period off each timer it runs |
| TimerPeriodic.CatchUpDrains | TimerQueue.cpp:132-153 | after as many rounds as there were due periods nothing is due, and exactly that many callbacks have run |
| TimerPeriodic.StuckTimerStaysDue | Timer.h:25-46 | a repeating timer whose interval rounds to zero microseconds is due again after any number of rounds |
| TimerPeriodic.CatchUpEndsIff | TimerQueue.cpp:76-111 | catching up ends iff no due timer has such an interval |
| TimerPeriodic.StuckExample | EventLoop.cpp:118-122 | runEvery with a tenth of a microsecond makes a timer that is due again after any number of rounds |
| TimerQueues.Timer.Restart | Timer.h:36-46 | the object's expiration changes as Restart says and its interval does not |
| TimerQueues.TimerQueue.LowerBound | TimerQueue.cpp:106 | binary search returns the lower bound in (expiration, address) order |
| TimerQueues.TimerQueue.Insert | TimerQueue.cpp:155-169 | the set becomes the ordered insertion, and the result says whether the new timer expires before all others |
| TimerQueues.TimerQueue.ResetTimerfd | TimerQueue.cpp:65-74 | only the timerfd changes, to the armed value |
| TimerQueues.TimerQueue.NewTimer | TimerQueue.cpp:34 | one fresh timer object is live at the new address, the others are as before |
| TimerQueues.TimerQueue.AddTimerInLoop | TimerQueue.cpp:40-48 | equals the model's insertion and re-arming, with no dangling pointer |
| TimerQueues.TimerQueue.AddTimer | TimerQueue.cpp:30-38 | equals the model's add from either side |
| TimerQueues.TimerQueue.RunQueuedAdd | TimerQueue.cpp:35 | equals the model's queued add and keeps the object valid |
| TimerQueues.TimerQueue.GetExpired | TimerQueue.cpp:101-111 | returns exactly the due entries and leaves the rest |
| TimerQueues.TimerQueue.RunExpired | TimerQueue.cpp:147-150 | the loop over the batch records each run and makes each callback's adds, in order |
| TimerQueues.TimerQueue.ResetTimer | TimerQueue.cpp:80-89 | one turn of the loop puts back or deletes one timer, and nothing else names a deleted one |
| TimerQueues.TimerQueue.ResetTimerList | TimerQueue.cpp:76-100 | the loop equals resetting the whole batch and re-arming |
| TimerQueues.TimerQueue.HandleRead | TimerQueue.cpp:132-153 | the method equals the model's round, so every theorem about rounds is about it |
| TimerQueues.TimerQueue.Destroy | TimerQueue.cpp:24-27 | the loop deletes exactly the timers in the set |
| EventLoopModel.StepKeepsOrder | EventLoop.cpp:129-141 | every atomic step of any thread keeps executed ++ rest of batch ++ pending equal to the order of pushes |
| EventLoopModel.StepKeepsAwake | EventLoop.cpp:129-152 | every atomic step keeps this: with functors pending and outside the handlers, the eventfd is readable or a thread is between its push and its wakeup; with quit set and in poll, it is readable or a thread is inside quit() |
| EventLoopModel.RunKeepsInv | EventLoop.cpp:54-187 | so does every interleaving of any number of threads |
| EventLoopTheorems.FunctorsRunOnceInOrder | EventLoop.cpp:129-141 | in every reachable state each pushed functor is executed, in the batch or pending, once and in push order |
| EventLoopTheorems.GivenRunOnceInOrder | EventLoop.cpp:129-187 | over any run, executed ++ batch ++ pending is exactly the functors given to queueInLoop by any thread, in that order |
| EventLoopTheorems.NoLostWakeup | EventLoop.cpp:54-71 | at the quit check or in poll with functors pending, the eventfd is readable or some thread is between its push and its wakeup, if the loop thread queued nothing before loop() |
| EventLoopTheorems.StartStallsIff | EventLoop.cpp:129-141 | whatever any threads called before loop(), it goes to sleep on work nobody will wake it for iff the loop thread queued something, no other thread queued anything and nobody asked to quit; then every pending functor is the loop thread's own |
| EventLoopTheorems.StallExample | EventLoop.cpp:137-140 | it happens with one functor |
| EventLoopTheorems.NoStallAfterSwap | EventLoop.cpp:174-187 | after the first batch has been swapped out it never happens again |
| EventLoopTheorems.WakeupsArePaidFor | EventLoop.cpp:143-172 | over any run the eventfd is read at most once for each write, and every read finds the counter positive |
| EventLoopTheorems.BatchRunsItsOwn | EventLoop.cpp:174-187 | during a batch, whatever any thread queues goes to the next batch |
| EventLoopTheorems.BatchIsWhatWasPending | EventLoop.cpp:174-187 | doPendingFunctor calls exactly what was pending at the swap, and what is queued meanwhile is exactly what is pending afterwards |
| EventLoopTheorems.QuitWakesPoll | EventLoop.cpp:73-81 | in poll with quit set, the eventfd is readable or a thread is inside quit() |
| EventLoopTheorems.QuitIsNeverLost | EventLoop.cpp:54-81 | over any run in which some thread's quit() has completed, also before loop(), the loop is never in poll with nothing to read, whatever other threads are doing |
| EventLoopTheorems.QuitEndsIterations | EventLoop.cpp:54-81 | once quit is set, also before loop(), no further iteration begins |
| EventLoopTheorems.QuitGetsCloser | EventLoop.cpp:54-71 | after quit every control step of the loop thread decreases a rank and no step of another thread increases it |
| EventLoopTheorems.QuitNeverBlocks | EventLoop.cpp:54-81 | after such a quit the loop thread always has such a step, and in poll it is a readable eventfd, not the timeout |
| EventLoopTheorems.QuitReachesExit | EventLoop.cpp:54-81 | so the loop thread alone runs to the end of loop() |
| EventLoopTheorems.CompletedQuitEndsLoop | EventLoop.cpp:54-81 | in particular after any run from the beginning in which a quit() has completed |
| EventLoopTheorems.OwnQuitEndsLoop | EventLoop.cpp:54-81 | a quit() that a callback calls sets the flag, and from there the loop thread runs to the end of loop() without another iteration |
| EventLoopTheorems.EverythingIsExecuted | EventLoop.cpp:54-187 | without a quit, and with the eventfd readable if functors are pending outside the handlers, the loop thread alone executes everything that was ever pushed, and never by the poll's timeout |
| EventLoops.ForeignCallWakes | EventLoop.cpp:129-141 | when queueInLoop or quit() on another thread returns, the functor is pushed or the flag set, and the eventfd is readable, whatever further threads do in between |
| EventLoops.LoopCallWakesIff | EventLoop.cpp:137-140 | queueInLoop on the loop thread pushes the functor and writes the eventfd iff a batch is running |
| EventLoops.TripIsItsSteps | EventLoop.cpp:58-70 | one iteration is exactly the steps of its script in the code's order, leaving out only what cannot be taken; the eventfd is read if it was readable and reported, and the stated number of functors is called |
| EventLoops.LoopIsProtocol | EventLoop.cpp:54-71 | every run of the loop object, whatever its callbacks and the other threads do, is a run of the step relation, and is the steps of its iterations one after another, all of them unless it ends |
| EventLoops.QueuedInPollIsRun | EventLoop.cpp:54-71 | a functor another thread queues while the idle loop is in poll is run by that very iteration |
| EventLoops.EventLoop.Wakeup | EventLoop.cpp:143-152 | the counter goes up, or stays at its maximum |
| EventLoops.EventLoop.HandleWakeUpRead | EventLoop.cpp:164-172 | the method is the step that drains the counter |
| EventLoops.EventLoop.QueueInLoop | EventLoop.cpp:129-141 | from either side the method is a push, any steps of other threads, and a wakeup; called from another thread or during a batch it leaves the eventfd readable |
| EventLoops.EventLoop.QuitLoop | EventLoop.cpp:73-81 | the flag is set, and called from another thread it leaves the eventfd readable |
| EventLoops.EventLoop.DoPendingFunctor | EventLoop.cpp:174-187 | swap and loop equal the steps of a batch, with any acts of callbacks and any steps of other threads before, during and after it |
| EventLoops.EventLoop.HandleChannels | EventLoop.cpp:64-67 | the loop over active channels equals their handler steps |
| EventLoops.EventLoop.OneTrip | EventLoop.cpp:58-70 | one iteration equals its steps, with any steps of other threads in poll, between the handlers, around the batch and before the quit check |
| EventLoops.EventLoop.Loop | EventLoop.cpp:54-71 | the while loop equals the run of its iterations, as far as epoll_wait returns |
| EventLoopThreads.StepKeepsSystemInv | EventLoopThread.cpp:18-44 | m_loop is non-null exactly while the thread serves; nothing touches the loop before it is published |
| EventLoopThreads.OwnerNeverFindsNull | EventLoopThread.cpp:6-29 | if only the destructor quits the loop, startLoop returns a loop and the destructor never finds null |
| EventLoopThreads.OwnerFindsItsLoop | EventLoopThread.cpp:18-29 | in particular over any run from the beginning |
| EventLoopThreads.ReturnsTheLoopIff | EventLoopThread.cpp:18-29 | startLoop returns the loop iff the thread has not withdrawn it by then |
| EventLoopThreads.NullCallIff | EventLoopThread.cpp:6-16 | the destructor calls through null iff the thread has withdrawn its loop by then |
| EventLoopThreads.NullCallExample | EventLoopThread.cpp:6-16 | it happens when a callback quits the loop before the owner is destroyed |
| EventLoopThreads.GoneLoopIff | EventLoopThread.cpp:6-16 | the destructor's quit() writes to a loop that is gone iff the thread withdraws it between the store of the flag and the write |
| EventLoopThreads.GoneLoopExample | EventLoopThread.cpp:6-44 | it happens with nobody but the destructor quitting |
| EventLoopThreads.JoinEnds | EventLoopThread.cpp:6-44 | otherwise, whatever other threads are doing, the loop thread alone reaches the end of threadFunc and the join returns |
| ChannelModel.EnableReadingBits | Channel.h:19-23 | read interest is on and write interest is as before |
| ChannelModel.DisableReadingBits | Channel.h:24-28 | read interest is off and write interest is as before |
| ChannelModel.EnableWriteBits | Channel.h:33-37 | write interest is on and read interest is as before |
| ChannelModel.DisableWriteBits | Channel.h:38-42 | write interest is off and read interest is as before |
| ChannelModel.ApplyOwnFields | Epoller.cpp:135-197 | what a registration call does to the channel itself does not depend on the rest of the poller |
| ChannelModel.UpdateAdded | Epoller.cpp:158-175 | MOD and DEL keep map, index, mask and kernel set in agreement |
| ChannelModel.RemoveAgrees | Epoller.cpp:178-197 | so does removal, from either index |
| ChannelModel.ApplyAgrees | Epoller.cpp:135-197 | so does every enable, disable and remove |
| ChannelModel.DisableReadingUnregisters | Channel.h:24-28 | after disableReading the channel is new, its descriptor is in neither the map nor the kernel, read interest is off and write interest as before |
| ChannelModel.RemovalUnregisters | Epoller.cpp:178-197 | disableReading and remove leave nothing of the channel in map or kernel and touch no other |
| ChannelModel.UpdateRegisters | Epoller.cpp:135-177 | every other call leaves it in the map, and in the kernel with exactly its new mask, unless it was there and now wants nothing; no other is touched |
| ChannelModel.RegistrationRefinesKernel | Channel.h:19-48 | under any sequence of calls the kernel's set is exactly the masks of the added channels, the map holds exactly the added and deleted ones, deleted ones want nothing, and no epoll_ctl is refused |
| ChannelModel.AssertionsHoldIff | Epoller.cpp:140-187 | the code's assertions hold iff a joining channel's descriptor is not in the map and a leaving one has joined |
| ChannelModel.AddedAndEmptyIff | Epoller.cpp:135-177 | an update leaves an added channel with an empty mask iff the mask is empty and the channel was not added before |
| ChannelModel.DisableAllTwice | Channel.h:44-48 | disabling everything twice leaves an empty registration in the kernel |
| ChannelModel.ReportedIsAdded | Epoller.cpp:65-76 | a reported channel is added and gets only events it asked for, HUP or ERR |
| ChannelModel.CallbacksRunIff | Channel.cpp:28-57 | which callbacks run, for any event and any set of callbacks; an error event runs the close callback if an error callback is set |
| Epollers.Channel.EnableReading | Channel.h:19-23 | the object's world changes as the model's call says |
| Epollers.Channel.DisableReading | Channel.h:24-28 | likewise, by removal |
| Epollers.Channel.EnableWrite | Channel.h:33-37 | likewise |
| Epollers.Channel.DisableWrite | Channel.h:38-42 | likewise |
| Epollers.Channel.DisableAll | Channel.h:44-48 | likewise |
| Epollers.Channel.Remove | Channel.cpp:66-71 | likewise |
| Epollers.Epoller.UpdateEvent | Epoller.cpp:92-114 | the kernel accepts or refuses as epoll_ctl does |
| Epollers.Epoller.UpdateChannel | Epoller.cpp:135-177 | the branches on the index equal the model's |
| Epollers.Epoller.RemoveChannel | Epoller.cpp:178-197 | likewise for removal |
| Epollers.Epoller.FillActiveChannels | Epoller.cpp:65-76 | the loop appends the reported channels in order and gives each its own events, and changes no registration |
| ConnectionModel.SendTakesWhatWasWritten | TcpConnection.cpp:61-101 | in either reading the socket gets exactly the bytes write() says it took, and only if the connection was idle |
| ConnectionModel.SendBuffersTheRest | TcpConnection.cpp:103-116 | what is buffered in each reading, and when nothing is |
| ConnectionModel.WriteTakesWhatWasWritten | TcpConnection.cpp:166-187 | in either reading the socket gets exactly what write() took from the front of the buffer, and a write that takes nothing closes the write side |
| ConnectionModel.IntendedWriteKeepsTheRest | TcpConnection.cpp:173-191 | as intended the rest stays, and the write side closes only on a failed write or on an empty buffer after shutDown |
| ConnectionModel.CallsTakeEffect | TcpConnection.cpp:52-137 | on the loop thread a message sent while connected is written or buffered, shutDown leaves the connected state and half-closes unless writing, and both do nothing otherwise |
| ConnectionModel.CloseLeavesOutput | TcpConnection.cpp:139-157 | handleClose takes and drops no output |
| ConnectionModel.IntendedSendKeepsStream | TcpConnection.cpp:61-117 | as intended, written ++ buffered grows by exactly the message, for every answer of the socket |
| ConnectionModel.AsWrittenSendKeepsStreamIff | TcpConnection.cpp:103-116 | as written it does iff nothing is buffered or the rest repeats the last byte taken |
| ConnectionModel.AsWrittenThrowsIff | TcpConnection.cpp:111 | as written it throws iff it buffers a message of which nothing was taken |
| ConnectionModel.AsWrittenThrowExample | TcpConnection.cpp:111 | one byte that the socket cannot take for now |
| ConnectionModel.AsWrittenSendExample | TcpConnection.cpp:111 | three bytes of which one is taken come out as 1, 1, 2 |
| ConnectionModel.IntendedWriteKeepsStream | TcpConnection.cpp:166-195 | as intended, handleWrite moves bytes from the buffer to the socket and loses none |
| ConnectionModel.AsWrittenWriteKeepsStreamIff | TcpConnection.cpp:171-180 | as written it does iff the buffer was empty, or the length was computed first and everything was taken |
| ConnectionModel.AsWrittenWriteExample | TcpConnection.cpp:171-180 | three buffered bytes: two are lost under one order of evaluation, all three and the write side under the other |
| ConnectionModel.IntendedMirrors | TcpConnection.cpp:76-137 | every handler keeps write interest equal to the buffer being non-empty until the connection is down |
| ConnectionModel.AsWrittenMirrorsIff | TcpConnection.cpp:171-187 | as written, handleWrite keeps it iff the length was computed first and the socket took something |
| ConnectionModel.IntendedClosesEmpty | TcpConnection.cpp:129-137 | a half-close runs only on an empty buffer |
| ConnectionModel.StreamIsPreserved | TcpConnection.cpp:61-195 | over any run of sends, writes, both halves of shutDown and closes, with any answers, taken ++ buffered equals the accepted messages end to end and write interest mirrors the buffer |
| TcpConnections.TcpConnection.SendInLoop | TcpConnection.cpp:61-117 | the method as written equals the AsWritten function, and reports the exception |
| TcpConnections.TcpConnection.HandleWrite | TcpConnection.cpp:166-195 | likewise |
| TcpConnections.TcpConnection.ShutDownInLoop | TcpConnection.cpp:129-137 | likewise |
| TcpConnections.TcpConnection.HandleClose | TcpConnection.cpp:139-157 | state, mask and close count change as the function says, whatever the connection callback does |
| TcpConnections.TcpConnection.ConnectEstablished | TcpConnection.cpp:214-224 | connected and reading, then everything the connection callback sends or shuts down |
| TcpConnections.TcpConnection.HandleRead | TcpConnection.cpp:30-50 | data runs the message callback, the end of the stream closes, an error changes nothing |
| TcpConnections.TcpConnection.HandleEvent | Channel.cpp:28-57 | the dispatch to the object's own close, read and write handlers equals the model's |
| TcpConnections.TcpConnection.Send | TcpConnection.cpp:52-60 | on the loop thread, a message is passed on only while connected |
| TcpConnections.TcpConnection.ShutDown | TcpConnection.cpp:118-127 | on the loop thread, the half-close is asked for once |
| GracefulClose.StepKeepsInv | TcpConnection.cpp:52-137 | taken ++ buffered ++ queued equals everything accepted, the half-close is last in the queue, a closed write side has an empty buffer, and after shutDown an empty buffer means closed or about to be |
| GracefulClose.SentIsAccepted | TcpConnection.cpp:52-127 | over any run and in either reading, exactly the messages sent before shutDown are accepted, and the connection is disconnecting exactly once it was called |
| GracefulClose.StepFlushes | TcpConnection.cpp:166-195 | a step breaks the flush iff it drains the buffer after shutDown while sends wait in the queue, and nothing repairs it |
| GracefulClose.GracefulCloseFlushesIff | TcpConnection.cpp:52-195 | over any run without failed writes, a closed write side means every accepted byte was taken iff no step closes early |
| GracefulClose.LoopThreadCloseFlushes | TcpConnection.cpp:118-137 | so it always does when send and shutDown are called on the loop thread |
| GracefulClose.HalfCloseHappens | TcpConnection.cpp:118-137 | over any run, once shutDown has returned and no functor waits, the write side is closed iff nothing is left to write, and the socket has taken all but what is left |
| GracefulClose.DrainingCloses | TcpConnection.cpp:166-195 | every write then shrinks the buffer, so after at most as many writes as bytes the connection is closed with everything taken |
| GracefulClose.CloseAfterEstablished | TcpConnection.cpp:52-224 | all of this from a connection just established, in terms of the messages sent before shutDown, with no other assumption |
| GracefulClose.EarlyCloseExample | TcpConnection.cpp:188-191 | from another thread a concrete run closes with a byte unsent |
| GracefulClose.AsWrittenFlushes | TcpConnection.cpp:52-137 | the code as written agrees with the intent, and flushes from any thread, as long as the socket takes each message whole |
| ConnectionOnLoop.RunRefines | EventLoop.cpp:129-187 | every run of the loop, its threads and the connection is a run of GracefulClose whose queue is the connection's part of the loop's batch and pending functors |
| ConnectionOnLoop.SentIsAccepted | TcpConnection.cpp:52-127 | what is accepted is exactly what the other thread sent before shutDown |
| ConnectionOnLoop.SentIsTaken | TcpConnection.cpp:52-195 | over any such run, a closed write side means every byte sent before shutDown was taken iff no step closed early; and once shutDown has returned and the loop has executed everything, it is closed iff nothing is left to write |
| ConnectionOnLoop.GracefulCloseCompletes | TcpConnection.cpp:118-195 | after any such run without an early close, once the eventfd shows the pending work and unless the loop is asked to quit, there are moves of the loop thread alone by which the socket, however little it takes at a time, takes every byte sent and the write side closes |
| Lifecycle.UserForward | TcpConnection.cpp:52-127 | a user call never moves the state back and never re-registers a connection that is down |
| Lifecycle.ClosedIgnoresUser | TcpConnection.cpp:139-157 | what the callbacks of a closed connection call has no effect |
| Lifecycle.NoReadAfterHangup | Channel.cpp:28-57 | a hang-up without data does not run the read callback as well |
| Lifecycle.HandleInOrder | Channel.cpp:28-57 | the dispatch runs close, read and write in that order, by their bits |
| Lifecycle.HandleForward | Channel.cpp:28-57 | one event moves the state only forward and closes a connection at most once over its life |
| Lifecycle.EventClosesIff | TcpConnection.cpp:30-50 | an event closes an open connection iff it hangs up without data, or reading finds the end of the stream |
| Lifecycle.CallbackState | TcpConnection.cpp:118-127 | a callback leaves a connected connection disconnecting iff it shuts down |
| Lifecycle.CallbackSends | TcpConnection.cpp:52-117 | as intended, everything a callback sends before it shuts down is taken or buffered |
| Lifecycle.DataRunsCallback | TcpConnection.cpp:30-39 | when data comes the message callback is called, and what it sends goes out |
| TcpServers.NextNameIsNew | TcpServer.cpp:50-71 | a new connection never takes the place of another in the list, for every address |
| TcpServers.StepKeepsInv | TcpServer.cpp:50-92 | accepting, any event and any user call keep the list equal to the open connections |
| TcpServers.EveryCloseErasesOne | TcpServer.cpp:84-92 | over any run of a server without workers, handleClose runs once on each connection that is down, and every erase removes exactly one entry |
| TcpServers.ServerKeepsItsList | TcpServer.cpp:6-92 | so from the constructor on, for every address and port |
| TcpServers.StatesMoveForward | TcpConnection.cpp:118-157 | over any run the state number of each connection never decreases |
| TcpServers.AcceptTakesEffect | TcpServer.cpp:50-77 | a new connection is listed under the next name, on the accepted descriptor, with the effect of both runs of the callback, and no other changes |
| TcpServers.EventErasesIff | TcpServer.cpp:84-92 | an event takes its connection off the list, as one entry, iff it hangs up without data or reads the end of the stream |
| TcpServers.CallTakesEffect | TcpConnection.cpp:52-127 | a call on a connected connection sends or shuts down on that one, and never changes the list |
| TcpServers.TcpServer.NameAndList | TcpServer.cpp:52-68 | the counter advances and the new object is listed under its name, the others stay |
| TcpServers.TcpServer.EstablishConnection | TcpServer.cpp:72-76 | the object is established and takes everything both runs of the callback call |
| TcpServers.TcpServer.HandleNewConn | TcpServer.cpp:50-77 | naming, listing, establishing and both runs of the callback equal the model's step |
| TcpServers.TcpServer.RemoveConnection | TcpServer.cpp:84-92 | equals the model's erase; the list loses that name, and the result is 1 iff it was there |
| TcpServers.TcpServer.HandleEvent | TcpServer.cpp:84-92 | the event dispatched to the connection object, and the removal it may cause, equal the model's step |
| TcpServers.TcpServer.UserCall | TcpConnection.cpp:52-127 | a call on a connection object equals the model's step and touches no other |
| ConnectionNames.DecimalRoundTrip | TcpServer.cpp:53 | reading the printed counter back gives the counter |
| ConnectionNames.AddressFits | SocketsOps.cpp:196-222 | every address toIpPort prints, IPv6 included, has at most 51 characters |
| ConnectionNames.NameIsWhole | TcpServer.cpp:52-55 | for every address and counter the name is the server's name, a dash, the address, a hash sign and the counter, never cut |
| ConnectionNames.ShortNamesDistinct | TcpServer.cpp:52-55 | with an address of at most 51 characters, different counters give different names |
| ConnectionNames.LongNamesCollide | TcpServer.cpp:52-55 | the buffer has no room to spare: with one character more, which toIpPort never prints, two counters would share a name |
| ConnectionNames.NamesDistinctIff | TcpServer.cpp:52-55 | so names are pairwise distinct for all positive int counters iff the address has at most 51 characters, exactly the bound toIpPort keeps |
| EventLoopThreadPolls.CursorIsMod | EventLoopThreadPoll.cpp:44-48 | after m calls the cursor is m mod n |
| EventLoopThreadPolls.HandedEvenly | EventLoopThreadPoll.cpp:44-49 | loop j has been returned m / n times, once more if j < m mod n |
| EventLoopThreadPolls.HandedFairly | EventLoopThreadPoll.cpp:44-49 | so counts differ by at most one |
| EventLoopThreadPolls.EventLoopThreadPoll.Start | EventLoopThreadPoll.cpp:17-31 | the loop collects one loop per thread, in order |
| EventLoopThreadPolls.EventLoopThreadPoll.GetNextLoop | EventLoopThreadPoll.cpp:33-51 | the k-th call returns loop k mod n, or the base loop if there are no workers |
| Sockets.RunOwned | Socket.h:39-66 | under any sequence of constructions, moves and destructions, each open descriptor is held by exactly one live socket |
| Sockets.NothingLeaks | Socket.cpp:21-27 | when no socket is left, each descriptor has been closed as often as it was opened |
| Sockets.FutileCloseIff | Socket.h:55-66 | a close of no descriptor happens iff a socket is move-assigned onto one that holds none |
| Sockets.ConstructionHands | Socket.h:39-54 | who holds what after a construction or a move construction, which closes nothing |
| Sockets.AssignmentHands | Socket.h:55-66 | a move assignment closes exactly what the target held and hands over the other's, onto itself it does nothing |
| Sockets.DestructionCloses | Socket.cpp:21-27 | a destruction closes exactly what the socket held |
| Sockets.Socket.constructor | Socket.h:39-42 | a new object owns a descriptor just handed out: the model's construction |
| Sockets.Socket.Move | Socket.h:46-54 | the descriptor changes hands: the model's move construction |
| Sockets.Socket.Assign | Socket.h:55-66 | equals the model's move assignment: the old descriptor is closed and the other's taken over, and self-assignment does nothing |
| Sockets.Socket.Destroy | Socket.cpp:21-27 | equals the model's destruction: a held descriptor is closed |

## Left out

- EventLoopTheorems.NoLostWakeup: assumes sequential consistency; the relaxed ordering of the quit flag is not modelled.
- TimerModel.Delta: `addTime` and `Timestamp` belong to muduo and are not part of this model; an interval is taken to add its whole microseconds, without floating-point rounding or 64-bit overflow.
- TimerTheorems.TimerfdAlwaysCovers: one clock serves `Timestamp::now()` and the timerfd; a wall clock that is set back is not modelled.
- TimerQueues.TimerQueue.LowerBound: `std::set` is a sorted sequence searched by halves; the tree is not modelled.
- EventLoops.EventLoop.Loop: the loop is followed as far as the returns of epoll_wait it is given, and callbacks are assumed to return without throwing; other threads take their steps at every point of the loop.
- ConnectionModel.StreamIsPreserved: about the intended reading; the code as written is covered handler by handler by the if-and-only-if members.
- TcpConnections.TcpConnection.HandleClose: the close callback is counted here; what it does is TcpServers.Erase.
- GracefulClose.GracefulCloseFlushesIff: about the intended reading, one calling thread, a peer that stays connected and no failed write; the race inside `shutDown` between two callers is not modelled.
- ConnectionOnLoop.SentIsTaken: the same; the caller is a thread other than the loop's, and GracefulClose.LoopThreadCloseFlushes covers the loop's own.
- ConnectionModel.Message: messages longer than an `int` can count are not modelled.
- TcpServers.EveryCloseErasesOne: no worker threads, as `removeConnection` asserts it runs on the base loop.
- Lifecycle.HandleForward: how long a connection object lives once the list has let go of it is not modelled, nor is the reuse of its descriptor by the poller.
- TcpConnections.TcpConnection.HandleWrite: the connection's channel is a value here; its effect on the poller is ChannelModel.ApplyOwnFields.
- muduo's Buffer is not part of this model: it is a byte sequence, and retrieving more than it holds empties it.
- The growth of the array given to epoll_wait, system-call errors other than those of `write`, and logging.
- Acceptor, Connector, string helpers, `main.cpp` and the tests; of InetAddress and SocketsOps only the length of what `toIpPort` prints, with the text of `inet_ntop` as an input shorter than `INET6_ADDRSTRLEN`.
- The input buffer and the message callback's use of it.
