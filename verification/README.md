# A verified model of the reactor

This project models the concurrent core of the web server in Dafny and proves what it promises: the
event loop with its task queue and wakeup protocol, the epoll registration table, the timer queue, the
partial-I/O loops, the count-down latch and the start and stop of a loop thread. Where a promise does not
hold, the code is modelled as it is, and the exact condition under which it does hold is proved, next to
a lemma that shows it failing.

`dafny verify dfyconfig.toml` checks everything.

| file | what it holds |
|---|---|
| `Functors.dfy` | callables as finite trees of calls back into the loop; batch order and FIFO order |
| `LoopProtocol.dfy` | the loop, the other threads and the eventfd as one transition system |
| `LoopSafety.dfy` | no lost wakeup, no missed quit, conservation, and where wakeups and quits do get lost |
| `LoopDrain.dfy` | termination under every interleaving, and every functor called exactly once |
| `LoopFifo.dfy` | refinement of a plain FIFO queue, level order |
| `EventLoop.dfy` | the `EventLoop` object, with other threads interfering between its atomic steps |
| `EpollSpec.dfy`, `Epoll.dfy` | the registration table and its caches: specification, and the `Channel` and `Epoll` objects |
| `Clock.dfy`, `Heap.dfy`, `Timers.dfy` | the folded clock, binary heaps, the `Timer` and `TimerQueue` objects |
| `PartialIO.dfy`, `Pipe.dfy` | `readn` and `writen` against an adversarial kernel; sender and receiver over a pipe |
| `Latch.dfy`, `EventLoopThread.dfy` | the latch; start and shutdown of a loop thread, composed with latch and loop |

## How the loop is modelled

A run is a list of events. Each event is one atomic step of one party: a statement of the loop thread;
the first half of a call by another thread (the push or the store under the lock) or its second half (the
write to the eventfd); the kernel reporting descriptors. Any number of threads make any number of calls,
and the events come in any order, so a theorem about every run is one about every interleaving. The
eventfd is a counter that saturates, with an edge that is raised by a successful write and consumed when
it is reported. The `EventLoop` object carries a ghost protocol state; each of its atomic statements is one
event, and the method `OtherThreads`, which performs any number of other threads' steps, is called between
them.

## What does not hold, and when it does

* A functor queued by the loop thread itself outside handlers and functors (before `loop()`, or while
  expired timers are handled) gets no wakeup. It is called if and only if a wakeup is in the eventfd already
  or some other thread still has something to do (`QueuedBeforeLoopExactly`, `QueuedAmongThreadsExactly`,
  `QueuedWhileExpiringExactly`); `QueueBeforeLoopStrands` and `QuietQueueStrands` are the failing runs. In a
  blocked loop exactly these functors are stranded (`StrandedExactlyWhenQuiet`).
* A quit that comes before `loop()` clears `quit_` is lost for good unless quit is called again
  (`EarlyQuitIsNeverHonoured`, `LeavesExactly`; a run: `EarlyQuitIsErased`). The destructor's join can
  therefore return if and only if `loop()` has been entered when it calls quit (`DestructorReturnsExactly`,
  `JoinReturnsExactly`; runs that hang: `EarlyShutdownHangs`, `EarlyShutdownIsReachable`).
* The shortcut in `epoll_mod` is wrong exactly where the call it skips would have changed something
  (`SkipExactly`, `SkippingRefines`): on a one-shot registration that has fired (`OneShotGoesDeaf`), and when
  a call that failed is tried again (`RetryIsSkipped`). Adding a channel that is registered drops it from the table (`AddTwiceUnmaps`).
* `epoll_mod` by a channel whose descriptor belongs to another channel in the table can break the agreement
  of table and kernel (`RivalModExactly`).
* A timer whose expiry falls outside the ten-thousand-second period of the clock never expires by itself
  (`NeverExpiresExactly`); one looked at in a later period expires late (`AgreesWithRealTimeExactly`).
* `writen` on a string compares the number of bytes sent with the size cut to `int`, and so drops unsent
  bytes when the unsent part is a multiple of 4 GiB (`DropsExactly`, `StopConservesExactly`); which strings
  are at risk shows from their size (`CanDropExactly`). When it returns -1, bytes that were delivered stay
  in the buffer (`FailConservesExactly`).

## Assumptions

The repository does not compile as it stands. Where its text has to be completed, it is read as follows:
`req_data` at `net/Epoll.cpp:92` is `activeChannels`; `.reset;` at line 45 is a call; a `connHandler_` that
was never set does nothing when called at `net/Channel.h:94`; the `Condition` waits on the mutex it is
given, not on a copy; `SPHttpData->reset()` in `Timer::clearReq` does not change the timer queue. The
eight-byte read and write on the eventfd are atomic; the read zeroes the counter, and a write to a full
counter fails with EAGAIN. `epoll_wait` reports a descriptor at most once, only if it is registered and
armed, and the eventfd only if its edge is up and its counter is positive. The registration of the wakeup
channel succeeds, and the program leaves its descriptor alone; that it then stays registered is proved
(`WakeupStaysRegistered`). `EPOLL_CTL_MOD` with an unchanged mask on an edge-triggered registration is taken
not to report anew what is already readable. Memory is sequentially consistent. The comparator of the timers
is a strict order, under which the standard library's priority queue is a binary heap; the heap here sifts
in the textbook way, so that timers with equal expiry may leave in another order.

## Model

| member | source | states |
|---|---|---|
| LoopSafety.NoLostWakeup | net/EventLoop.cpp:89-99 | in every reachable state, if the loop is blocked in poll and some pending functor was not queued quietly, the eventfd is about to wake it or some thread is between its push and its write, also when the eventfd is full |
| LoopSafety.StrandedExactlyWhenQuiet | net/EventLoop.cpp:95-98 | in a loop that is blocked for good the pending functors are exactly those the loop thread queued where it gives no wakeup, and no quit is outstanding |
| LoopSafety.QueueBeforeLoopStrands | net/EventLoop.cpp:89-105 | from any reachable state before loop() with an empty eventfd, whatever functor the loop thread queues there is pending in a loop that is entered and blocks for good |
| LoopSafety.QuietQueueStrands | net/EventLoop.cpp:119 | so does any functor that foreign code would queue from the expired-timer phase |
| LoopDrain.QueuedBeforeLoopExactly | net/EventLoop.cpp:89-105 | a functor queued on the loop thread before loop() is called, other threads being silent, if and only if a wakeup was already in the eventfd |
| LoopDrain.QueuedAmongThreadsExactly | net/EventLoop.cpp:89-105 | with other threads going on, none of which calls quit directly: if and only if a wakeup was there or some thread still had a call or a write to make |
| LoopDrain.QueuedWhileExpiringExactly | net/EventLoop.cpp:95-119 | the first condition is also that of a functor queued in the expired-timer phase |
| LoopSafety.LoudNeverStrands | net/EventLoop.cpp:89-99 | over every run in which the loop thread never queues outside handlers and functors, a blocked loop with pending functors always has a wakeup on its way |
| LoopSafety.QuitIsNeverMissed | net/EventLoop.cpp:108-122 | a quit by anyone, not followed by an entry to loop(), stays set; the loop is not blocked without a wakeup on its way; poll returns at most once more |
| LoopSafety.QuitSticks | net/EventLoop.cpp:151-158 | only an entry to loop() clears quit_ |
| LoopSafety.ExitOnlyByQuit | net/EventLoop.cpp:108 | loop() is left only at its test of quit_, and only when it is set |
| LoopDrain.LeavesExactly | net/EventLoop.cpp:104-124 | inside loop(), where no quit is left to be called and none comes in, loop() can be left if and only if quit_ is set |
| LoopDrain.EarlyQuitIsNeverHonoured | net/EventLoop.cpp:104-105 | over every run from the entry to loop() under the same premise, whatever was queued or called before, quit_ stays false and the loop is never left |
| LoopDrain.EarlyQuitIsErased | net/EventLoop.cpp:104-105 | and some run, without anything from outside, ends with the loop blocked and everyone else done |
| LoopSafety.NothingLostOrReordered | net/EventLoop.cpp:128-148 | in every reachable state everything ever queued, in lock order, is: called so far, then the rest of the batch, then pending |
| LoopSafety.HistoryGrows | net/EventLoop.cpp:89-94 | over every run what was queued, started and called only grows at its end |
| LoopSafety.StepInv | net/EventLoop.cpp:53-148 | every event of every party keeps the inductive invariant, which covers wakeups drained by handleRead before the swap |
| LoopSafety.RunInv | net/EventLoop.cpp:53-148 | every run keeps the inductive invariant |
| LoopDrain.StepWork | net/EventLoop.cpp:53-148 | every event of every party uses up work, except for the work it brings in from outside |
| LoopDrain.RunIsBounded | net/EventLoop.cpp:53-148 | every run under every interleaving is at most as long as the work there was and what was brought in, less what is left |
| LoopDrain.RunConserves | net/EventLoop.cpp:76-99 | over every run, for every functor, calls made plus calls outstanding grow by exactly what was brought in |
| LoopDrain.LoopComesToRest | net/EventLoop.cpp:100-125 | from any point in loop(), with other threads going on, every run is bounded, and where nothing more can happen by itself the loop has been left with quit_ set, or is blocked with quit_ false and nothing pending but what was queued quietly |
| LoopDrain.EveryFunctorRunsExactlyOnce | net/EventLoop.cpp:76-148 | if at the start nothing is queued quietly and no quit exists anywhere, and none comes in, then at rest the loop is blocked with an empty list, and every functor of every tree, of the loop, of other threads or brought in, has been called exactly as often as it occurs |
| LoopDrain.QuitLeadsOut | net/EventLoop.cpp:108-125 | with quit_ set, under every interleaving poll returns at most once more, the run is bounded, and it comes to rest only outside loop() |
| LoopDrain.RunToRest | net/EventLoop.cpp:100-125 | every state can be brought to rest without anything from outside |
| Functors.BatchesAreFifo | net/EventLoop.cpp:135-146 | calling whole batches gives the order of a queue popped one functor at a time, also when functors queue and run functors |
| LoopFifo.StepRefines | net/EventLoop.cpp:130-146 | every event is at most one step of a plain queue made of the batch and the pending list; the swap is no step |
| LoopFifo.LoopRefinesFifo | net/EventLoop.cpp:130-146 | every run under every interleaving is a run of the plain queue that calls the same functors in the same order |
| LoopFifo.DrainsInLevelOrder | net/EventLoop.cpp:108-148 | without quits and quiet queueing, left to itself from any point in loop(), it calls what is executing, then the handlers still to come, then the waiting functors level by level |
| LoopFifo.BatchIsOneLevel | net/EventLoop.cpp:143-147 | an undisturbed batch calls its own level and leaves exactly the next level pending |
| EventLoops.EventLoop.QueueInLoop | net/EventLoop.cpp:89-99 | pushes the functor at the end under interference; the loop thread calls wakeup() once if functors are being called, after which the eventfd is positive, and not at all otherwise |
| EventLoops.EventLoop.RunInLoop | net/EventLoop.cpp:76-81 | on the loop thread calls the functor, and what it runs, here and now |
| EventLoops.EventLoop.ThreadCalls | net/EventLoop.cpp:91-94 | queueInLoop, runInLoop or quit from another thread, first half: one atomic protocol event |
| EventLoops.EventLoop.ThreadWakes | net/EventLoop.cpp:53-62 | the second half: one write to the eventfd, which a full one refuses |
| EventLoops.EventLoop.QuitFromLoop | net/EventLoop.cpp:151-158 | on the loop thread sets quit_ and writes nothing |
| EventLoops.EventLoop.HandleRead | net/EventLoop.cpp:65-75 | empties the eventfd and restores the interest of the wakeup channel, which is back whenever handleRead is not still to come; changes nothing else of the loop |
| EventLoops.EventLoop.DoPendingFunctors | net/EventLoop.cpp:128-148 | with other threads interfering, everything pending on entry is in the batch, exactly the batch is called in order, and everything else ever queued is still pending |
| EventLoops.EventLoop.HandleActive | net/EventLoop.cpp:112-117 | dispatches every active channel, in order, running exactly what their handlers run, and loses nothing that is pending |
| EventLoops.EventLoop.Turn | net/EventLoop.cpp:112-119 | by the end of a turn everything that was pending at its start has been started, in order |
| EventLoops.EventLoop.Poll | net/EventLoop.cpp:111-112 | returns all the channels of one report, in order, with the wakeup channel exactly if it is reported and fires; the reports before that one had nothing to deliver |
| EventLoops.ReportableExactly | net/Epoll.cpp:98-118 | every channel of the program that is reported gets through, in order, and the wakeup channel exactly if it fires |
| EventLoops.EventLoop.RunLoop | net/EventLoop.cpp:100-125 | its steps are a run of the protocol that begins with the entry to loop(); the channels reported to it are those of the reports consumed, all and in order; it returns only because of a quit, and never where no quit is left and none is reported; where it stays blocked all reports are consumed, and functors that wait and quits have a wakeup on its way; nothing is lost |
| EpollSpec.StepAgrees | net/Epoll.cpp:27-82 | each operation, successful or not, keeps: an entry for fd is a channel on fd whose cached mask is the kernel's mask for fd |
| EpollSpec.RunAgrees | net/Epoll.cpp:27-118 | every run of operations and dispatches keeps table and kernel in agreement |
| EpollSpec.RivalModExactly | net/Epoll.cpp:50-68 | when the descriptor belongs to another channel of the table, epoll_mod keeps agreement if and only if it is skipped, fails, or sets the same mask |
| EpollSpec.AddTwiceUnmaps | net/Epoll.cpp:39-46 | adding a registered channel takes it out of the table while the kernel keeps it |
| EpollSpec.ModDelivers | net/Epoll.cpp:57-67 | an epoll_mod that leaves the channel in the table leaves the kernel with the mask the channel asks for |
| EpollSpec.SkipExactly | net/Channel.h:112-117 | for every epoll_mod, skipping equals not skipping if and only if something changed, or the call would change nothing: on a channel of the table it succeeds and the registration is armed; outside the table it fails, or finds what it would set |
| EpollSpec.RetryIsSkipped | net/Epoll.cpp:57-67 | when an epoll_mod with a new mask has failed, trying again is skipped and the kernel keeps the old mask, where the unconditional version sets the new one |
| EpollSpec.SkippingRefines | net/Epoll.cpp:57-67 | over every run, the skipping and the unconditional version go through the same states if and only if no call is skipped that would change something |
| EpollSpec.NoOneShotSkipsSafely | net/Epoll.cpp:57-67 | without one-shot masks the only premise left for channels of the table is that an unchanged mask would be accepted; calls that change the mask may fail |
| EpollSpec.OneShotGoesDeaf | net/Epoll.cpp:57-67 | a one-shot channel that fires and asks for the same mask again is skipped and cannot be reported any more |
| EpollSpec.LogIsEffect | net/Epoll.cpp:27-82 | an operation changes the table entry of a descriptor exactly as the entry it logs says |
| EpollSpec.TableIsHistory | net/Epoll.cpp:27-82 | over every run the table holds c for fd if and only if a successful epoll_add of c is the latest thing that happened to fd's entry |
| EpollSpec.PollHistory | net/Epoll.cpp:98-118 | over every run poll returns exactly the channels whose successful epoll_add is the latest thing that happened to a reported descriptor |
| EpollSpec.KernelIsHistory | net/Epoll.cpp:27-82 | over every run the kernel watches fd if and only if the latest accepted ADD, accepted DEL or close of fd is an ADD |
| EpollSpec.DeletedCanBeAdded | net/Epoll.cpp:71-82 | after an accepted epoll_del no report of the descriptor is possible, and any channel on it can be added again |
| EpollSpec.SetThenModDelivers | net/Epoll.cpp:50-68 | after setEvents and an accepted epoll_mod of a channel of the table the kernel watches for exactly that |
| EpollSpec.CloseSetFdThenAdd | net/Epoll.cpp:27-47 | a channel outside the table can be moved to a closed descriptor and added there |
| EpollSpec.DispatchDisarmsExactly | net/Epoll.cpp:84-118 | a dispatch disarms exactly the one-shot registrations it reports, and changes nothing else in the kernel |
| EpollSpec.ActiveIsFilter | net/Epoll.cpp:98-118 | a channel is returned if and only if the table has it for a reported descriptor |
| EpollSpec.ActiveInOrder | net/Epoll.cpp:98-118 | the k-th channel returned is that of the k-th report of a mapped descriptor, whatever else is reported |
| EpollSpec.DispatchMarks | net/Epoll.cpp:106-111 | every returned channel carries the reported mask of its descriptor and no interest |
| EpollSpec.DispatchLeavesOthers | net/Epoll.cpp:106-115 | every other channel is untouched |
| Epolls.Epoll.EpollAdd | net/Epoll.cpp:27-47 | caches the interest; if epoll_ctl accepts it, that is if it is willing and the kernel does not watch the descriptor, table and kernel have the channel with that interest; if not, the table entry is empty and the kernel as before; no other entry changes |
| Epolls.Epoll.EpollMod | net/Epoll.cpp:50-68 | caches the interest; if it was the cached one already nothing else happens; otherwise the kernel has it exactly if epoll_ctl accepts it, and the table entry is emptied if not; no other entry changes |
| Epolls.Epoll.EpollDel | net/Epoll.cpp:71-82 | empties the table entry, and takes the descriptor, and nothing else, out of the interest set exactly if epoll_ctl accepts it; no other entry changes |
| Epolls.Epoll.GetEventsRequest | net/Epoll.cpp:98-118 | marks the channels of the reported descriptors one after the other and returns them in order |
| Epolls.Epoll.Poll | net/Epoll.cpp:84-95 | returns the first answer that concerns a mapped descriptor; failures, timeouts and stale reports before it return nothing |
| Epolls.PollMarks | net/Epoll.cpp:84-118 | when poll returns, each channel it returns carries the mask of the last answer and no interest, whatever the answers before it were |
| EpollSpec.WakeupStaysRegistered | net/EventLoop.cpp:39-41 | once added, the wakeup channel can be reported and is returned by poll at any time, over every run that leaves its descriptor alone |
| Epolls.Epoll.AddWakeupChannel | net/EventLoop.cpp:39-41 | makes an edge-triggered input channel for the eventfd and puts it into the table exactly if epoll_ctl accepts it |
| Epolls.Channel.IsEqualAndUpdateLastEvents | net/Channel.h:112-117 | says whether the interest is the cached one, which it then is |
| Epolls.Channel.HandleEvent | net/Channel.h:61-95 | clears the interest and calls the handlers of the specification, in order |
| Epolls.HandlersExactly | net/Channel.h:66-94 | each handler is reached exactly under its condition, none on a hang-up without input |
| Epolls.HandlersAreOrdered | net/Channel.h:71-94 | no handler is called twice; error comes before read, read before write, write before connection |
| Epolls.InputReachesReader | net/Channel.h:79-85 | an event with input always reaches the read handler, so a reported wakeup channel is always drained |
| Clock.FoldIsModulo | net/Timer.cpp:18 | the folded reading is total milliseconds modulo ten million |
| Clock.VerdictExactly | net/Timer.cpp:46-60 | for every timeout, what the verdict of isValid means in real time, including negative sums that wrap in size_t |
| Clock.AgreesWithRealTimeExactly | net/Timer.cpp:50-51 | the verdict is the real one if and only if real time is before the deadline, or past it by at least as many periods as have begun since the timer was set; always within one period |
| Clock.NeverExpiresExactly | net/Timer.cpp:18 | a timer never expires by time alone if and only if its unreduced expiry is outside one period |
| Clock.KeepAliveLeak | net/Timer.cpp:18 | a keep-alive timer set in the last five minutes of a period never expires |
| Heap.UpStep | net/Timer.cpp:81 | one exchange with the parent moves the only violation of heap order up |
| Heap.DownStep | net/Timer.cpp:94 | one exchange with the smaller child moves the only violation of heap order down |
| Heap.RootIsLeast | net/Timer.cpp:91 | the top of a heap has the least expiry |
| Timers.Timer.IsValid | net/Timer.cpp:46-60 | answers whether the expiry is after the reading, and marks the timer otherwise |
| Timers.TimerQueue.AddTimer | net/Timer.cpp:78-84 | adds one fresh timer with the folded expiry, keeps heap order and loses no timer |
| Timers.TimerQueue.HandleExpiredTimer | net/Timer.cpp:87-105 | under any clock: popped plus left is the old queue, popped in order of expiry; the clock is looked at exactly once for every popped timer that was not cancelled, which had expired at that very look, and once more for the first timer left, if any; everything left expires after the last look; flags of the others untouched |
| Timers.LooksCounts | net/Timer.cpp:92-100 | the number of looks is that of the popped timers that were neither cancelled before the drain nor popped before |
| Timers.TimerQueue.DrainAt | net/Timer.cpp:87-105 | with the clock standing still, of the live timers exactly those expiring later are left and exactly the others popped |
| Timers.TimerQueue.Replay | net/Timer.cpp:78-105 | after any program of setting, clearing and draining, every timer has the expiry it was set to, and is in the queue and uncancelled if and only if no later operation clears it or drains at a reading that has reached its expiry; and each drain popped in order of expiry, and of the live timers exactly the expired ones |
| Timers.EagerExactly | net/Timer.cpp:46-105 | in terms of the program text: a timer is in the eager set, with the expiry it was set to, if and only if it was neither cleared nor drained after its expiry |
| Timers.TimerQueue.UpdateQueued | net/Timer.cpp:38-43 | Timer::update on a queued timer leaves the queue valid if and only if the new expiry fits between its parent and its children |
| Timers.UpdateInPlaceExactly | net/Timer.cpp:38-43 | changing the expiry of a queued timer keeps heap order if and only if it still fits between parent and children |
| PartialIO.Connection.Readn | net/Util.cpp:105-137 | goes on exactly over deliveries and interruptions, and ends at the first EOF, EAGAIN or error; inBuffer grows by exactly what was delivered, also on -1; zero is set only at end of file |
| PartialIO.InterruptionsDontMatter | net/Util.cpp:114-117 | two sequences of results that are the same without interruptions deliver the same bytes and end in the same way |
| PartialIO.WriteLoop | net/Util.cpp:139-169 | goes on exactly over counts and interruptions while something is left; delivers a prefix, as long as the counts returned add up to, or everything if they add up to that; stops short only on EAGAIN or an error; terminates when finitely many results make no progress |
| PartialIO.Connection.WritenBuffer | net/Util.cpp:171-209 | the same for a string, which keeps its rest on success and everything on an error |
| PartialIO.DropsExactly | net/Util.cpp:200-207 | what is left differs from the unsent rest if and only if that rest is a positive multiple of 4 GiB and less than 2 GiB were sent |
| PartialIO.CanDropExactly | net/Util.cpp:200-207 | before the call: some count makes a string lose bytes if and only if it has at least 4 GiB and less than 2 GiB beyond a multiple of that |
| PartialIO.SmallBuffersAreSafe | net/Util.cpp:200-207 | below 4 GiB the unsent rest is always kept |
| PartialIO.FourGiBAreLost | net/Util.cpp:200-203 | a string of 4 GiB met by EAGAIN at once is lost |
| Pipe.PipeConserves | net/Util.cpp:105-209 | for any interleaving of appends, writes and reads over a bounded pipe, appended = received ++ in flight ++ unsent |
| Pipe.StopConservesExactly | net/Util.cpp:200-208 | a writen that returns a count conserves if and only if it does not drop a multiple of 4 GiB |
| Pipe.FailConservesExactly | net/Util.cpp:192-193 | a writen that returns -1 conserves if and only if it delivered nothing; otherwise what it delivered is unsent again |
| Pipe.ReceiverSeesPrefix | net/Util.cpp:105-209 | the receiver holds a prefix of what was appended, and all of it when nothing is in flight or unsent |
| Pipe.PipeConservesExactly | net/Util.cpp:105-209 | a run that drops no 4 GiB conserves if and only if no writen in it returns -1 after delivering something |
| Pipe.CallsInterleave | net/Util.cpp:105-209 | however the system calls of a writen and a readn interleave on the pipe, the sender is as far, and the receiver has as much, as the two methods' contracts say from their results alone |
| Latch.LatchIsSafe | base/CountDownLatch.cpp:13-30 | for any count and interleaving with spurious wakeups, no wait returns before that many countDowns, and none sleeps after them |
| Latch.OpenLatchLetsGo | base/CountDownLatch.cpp:13-20 | once the latch is open every waiter returns by its own next step |
| Latch.DownWakesExactly | base/CountDownLatch.cpp:22-30 | a countDown changes the state of a waiter if and only if it sleeps and the count was one |
| Latch.CountDownLatch.CountDown | base/CountDownLatch.cpp:22-30 | decrements; if that makes the count zero every sleeper is woken, and otherwise nobody is |
| Latch.CountDownLatch.Wait | base/CountDownLatch.cpp:13-20 | under interference returns only on a count that is not positive, and sleeps only on one that is |
| EventLoopThreads.StepInv | net/EventLoopThread.cpp:18-62 | every step of either thread keeps the invariant of start, shutdown, latch and loop together |
| EventLoopThreads.StartIsSafe | net/EventLoopThread.cpp:30-43 | over every interleaving startLoop returns only after the loop is built and published and its thread has its id, and is never asleep while loop_ is set |
| EventLoopThreads.StartCannotStall | net/EventLoopThread.cpp:30-54 | until startLoop has returned some step of the handshake is possible, and brings the return closer |
| EventLoopThreads.StartCompletes | net/EventLoopThread.cpp:30-43 | from every state before it has returned, startLoop can be brought to its return without a step of the loop |
| EventLoopThreads.QuitHolds | net/EventLoopThread.cpp:18-27 | a quit that falls while the loop runs stays set |
| EventLoopThreads.DtorTestExactly | net/EventLoopThread.cpp:21 | the destructor goes on to quit if and only if loop_ is set; if it is not, the thread has ended by itself |
| EventLoopThreads.GoneForGood | net/EventLoopThread.cpp:21-26 | in that case it neither quits nor joins, in any run |
| EventLoopThreads.JoinFinishes | net/EventLoopThread.cpp:18-27 | with such a quit, while other threads push, quit and write and descriptors fire in any order, every run is bounded, poll returns at most once more, and the system comes to rest only when the thread has ended and the join has returned |
| EventLoopThreads.JoinCompletes | net/EventLoopThread.cpp:18-27 | from every such state the join can be brought to return without anything from outside |
| EventLoopThreads.JoinReturnsExactly | net/EventLoopThread.cpp:18-27 | where no further quit is left to be called and none comes in, the join can return if and only if quit_ is set and loop() has been entered |
| EventLoopThreads.DestructorReturnsExactly | net/EventLoopThread.cpp:18-27 | in terms of the moment of the destructor's quit: if and only if loop() has been entered by then |
| EventLoopThreads.DoomedForGood | net/EventLoopThread.cpp:18-27 | otherwise no run returns it, whatever threads push and descriptors fire, and however many functors wait |
| EventLoopThreads.EarlyShutdownHangs | net/EventLoopThread.cpp:18-27 | and some run, without anything from outside, ends with the loop blocked, everyone else done and the destructor waiting |
| EventLoopThreads.EarlyShutdownIsReachable | net/EventLoopThread.cpp:30-62 | that situation is reachable from the start, with any other threads that do not quit |
| EventLoopThreads.EventLoopThread.StartLoop | net/EventLoopThread.cpp:30-43 | every statement is a step of that system; it returns only with a loop that is published and still there; asleep on the latch the latch is closed, asleep on the condition loop_ is not set |
| EventLoopThreads.EventLoopThread.Destroy | net/EventLoopThread.cpp:18-27 | sets exiting_; if there is a loop quits it and joins a thread that has ended, and otherwise does neither |

## Left out

- `HttpData`: request parsing, responses and the connection state machine (`net/HttpData.cpp`); handlers are the lists of calls they make into the loop.
- `Server`, sockets, signals and `fcntl` (`net/Server.cpp`, `net/Util.cpp:17-101`): system calls without logic of their own; only the limit on descriptors is taken over.
- `EventLoopThreadPool`: a round robin over a vector, an easy member.
- `AsyncLogging`, `LogStream`, `Logger`, `FileUtil`: logging.
- `Epoll::add_timer` (`net/Epoll.cpp:126-129`): never reaches the timer queue, so the timeouts given to `epoll_add` and `epoll_mod` have no effect.
- `Timer::~Timer` and `Timer::clearReq`: the calls into `HttpData`; a popped timer is released, and a cleared one is only marked.
- Timers.TimerQueue.Replay: has no `Timer::update` of a queued timer among its operations, since nothing in the repository calls it; `UpdateQueued` says exactly when it would be harmless.
- EventLoops.EventLoop.RunLoop: no foreign code runs in its expired-timer phase, because `HttpData::handleClose` makes no call into the queue; the protocol in `LoopProtocol.dfy` does include such code.
- EventLoopThreads.JoinFinishes: where another quit lets the thread end while the destructor is between its test of `loop_` and its use of it, the source uses a pointer that is no longer valid; the model lets the store happen.
- EventLoopThreads.EventLoopThread.Destroy: like the other waits of that class and of the latch it gives up after a number of rounds; that the join does return is `JoinFinishes`.
- Exceptions thrown by functors, reference counts, real-time latency and weak memory.
