# muduoWindows in Dafny

muduoWindows is a reactor-style TCP library for Windows. This project models its stateful parts and proves
what they keep over every run.

- **Readiness.** `epoll` is emulated over AFD polls and an I/O completion port (`Epoll*.dfy`): reference-counted
  registrations, generation numbers, deletion while operations are in flight, a kernel that hands operations
  back in any order with any status. `EPollPoller` sits on top; `SelectPoller.dfy` is the alternative poller
  with its swap-with-last index.
- **Timers.** The indexed binary heap with back-pointers and the drain loop of the timer queue.
- **The loop.** The functor queue and the wakeup pipe, as a protocol between the loop thread and any number of
  foreign threads (`EventLoop.dfy`), and the loop over the channels of a poll with its callbacks (`Dispatch.dfy`).
- **Connections.** The sliding byte buffer with its integer codecs, the connection state machine over it, and
  the connector with its retries.
- **Logging and time.** The double-buffered logger, integer formatting, and the calendar arithmetic.

The code that updates objects in place is written as classes and loops. Each method is proved to take its object
from one value of a state to the value a specification function gives, and the lemmas about runs speak about
these functions. A failed `assert` of the source, a null or moved-from pointer, a freed object, an index out of
bounds and a double close are a `Fault`. Where the code rules them out, a theorem says that every run is `Ok`
(`EpollRuns.NoUseAfterFree`, `AsyncLogging.LogConservation`, `ConnectorPolling.ConnectorRunsAreSafe`). Where it does not,
as for the connection, the connector and the two pollers, steps may come at any time, a lemma gives for each step
the exact guard under which it passes, the runs that pass are exactly those that meet the guards, and the properties
hold of all of them. What the system decides (completion order and status, addresses the allocator returns, results
of socket calls, event bits, the clock) is a parameter of the step.

## What the proofs found

- A registration leaks in exactly two ways (`EpollLeaks.StepLeaks`): its socket is deleted while nothing of it is in
  flight, or it was deleted or closed, its last operation in flight completes, and an error stranded another one. The
  usual way there is a handler that deletes the socket whose only operation has just completed
  (`EpollLeaks.DelAfterLastCompletionLeaks`).
- A completion that carries an error keeps its operation, and with it the registration, for good
  (`EpollStranded.StrandedForever`).
- A generation supersedes only in one order: an older operation that completes after the newest reports a second
  event for the same socket. A batch can report a socket twice exactly when two of its operations are in flight
  (`EpollDuplicates.ReportedTwiceExactly`), an accepted `epoll_mod` of a polled socket is the only way there
  (`EpollDuplicates.OnlyModPollsTwice`, `EpollRuns.ModThenTwoReports`), and `EPollPoller` then hands the channel out twice
  with the later bits (`EpollHandouts.ReachedTwiceExactly`, `EpollPoller.LaterBitsStandForBoth`). `SelectPoller` never does
  (`SelectPoller.HandedOutOnce`).
- A connection starts to write while it reads, which is such an `epoll_mod`. Handed out twice, it fails the assert of
  `TcpConnection::handleClose` exactly when the first delivery closes and the second one hangs up or reads nothing
  (`TcpConnection.SecondDelivery`). A handler that destroyed a channel could then leave a dangling pointer in the loop's
  list, which the asserts of the removal do not prevent (`Dispatch.DanglesExactly`, `EpollHandouts.SandwichedExactly`); the
  library leaves destruction to the functors, which does (`Dispatch.DeferredDestructionIsSafe`). The connector, which
  could not bear a second delivery either (`Connector.SecondDelivery`), never gets one
  (`ConnectorPolling.ConnectorRunsAreSafe`).
- `connectDestroyed` on a half closed connection, as `~TcpServer` may call it, fails the assert of `Channel::remove` unless
  reading was stopped and nothing is buffered (`TcpConnection.DestroyExactly`); starting to read after the close
  has the same effect (`TcpConnection.DestroyAfterClose`).
- A poll that AFD refuses is not offered again: the socket stays registered, unpolled and silent until it is modified or
  deleted, and an `epoll_add` that failed this way blocks the next one (`EpollRefused.RefusedExactly`,
  `EpollRefused.RefusedAddStays`, `EpollRefused.UnpolledForever`).
- While an older operation of a socket is outstanding, its entry on the attention list is dropped without a new
  submission (`EpollWatch.OlderOpBlocksResubmission`), so a socket is always polled but not always for its
  current interest (`EpollInterest.CoveredExactly`, `EpollInterest.OldInterestIsPolled`).
- Erasing a timer from the heap removes whatever sits at its index. After a pop, which leaves the index stale, a
  cancel takes out another timer or, when the heap is empty, indexes outside of it
  (`TimerHeap.MinHeap.PopThenErase`, `TimerQueueClass.TimerQueue.LateCancel`).
- The drain runs a callback before it pops: a callback that adds an earlier timer makes the pop take that timer, which
  did not run (`TimerQueueClass.TimerQueue.EarlierTimerIsPopped`). One that cancels its own timer makes the pop take
  the next one, if there is one, and a repeating timer is back in the heap afterwards; only a one-shot timer that is
  alone can cancel itself without harm (`TimerQueueClass.TimerQueue.OwnCancelPopsTheNext`).
- A repeat interval that truncates to zero keeps the drain from ending
  (`TimerQueueClass.TimerQueue.ZeroIntervalNeverEnds`).
- A one-shot timer that has run stays in `timerSet_` (`TimerQueueClass.TimerQueue.ExpiredProcess`).
- `earliestExpiredTime` yields seconds where milliseconds are expected: the loop wakes early, never late
  (`TimerQueueClass.TimerQueue.EarliestExpiredTime`).
- What the loop thread queues before `loop()` waits for the poll timeout, unless a foreign thread acts
  (`EventLoop.FirstPollWokenExactly`).
- A `sendInLoop` queued by another thread before a `shutdown` is the only step that writes behind the FIN
  (`TcpConnection.FinStaysLast`); a forced close with nothing buffered is half closed without one until it is down
  (`TcpConnection.FinMatchesExactly`).
- A log line of 4 MiB or more disappears without a notice (`AsyncLogging.HugeLineVanishes`); shorter ones are lost only
  from a batch of 52 MiB or more (`AsyncLogging.LossTakesTooMuch`).
- A connector started before the reset of its old channel has run fails an assert exactly when the attempt gets
  going (`Connector.StartBeforeReset`), `stop` followed by `start` leads there by itself
  (`Connector.StopOvertakesStart`), and a restart while connecting fails or forgets its socket,
  after which the connector never connects again (`Connector.RestartForgetsSocket`, `Connector.ForgottenForever`).
- With the select poller, a channel whose interest was taken away puts a negative number into the exception set
  (`SelectPoller.DisabledEntrySpoilsSelect`), a channel whose only update had no interest cannot be removed
  (`SelectPoller.FirstUpdateNeedsInterest`), and a removed one cannot be used again (`SelectPoller.RemovedIsSpent`).

## Model

| member | source | states |
|---|---|---|
| `EpollRuns.NoUseAfterFree` | net/epoll.cpp:137-162 | No run of add, mod, del, submit and wait, in any completion order and with any status or refusal, reads a freed registration or operation, frees one twice or drives a count negative; the tree, the attention list and the operations never point to freed memory, and a count is the number of undeleted operations |
| `EpollRuns.PortIsMemorySafe` | net/epoll.cpp:214-223 | The same from a newly created port |
| `EpollInvariants.SupersededIsNotLast` | net/epoll.cpp:435-440 | An operation older than its registration's generation is never the last one, so discarding it without freeing the registration loses nothing |
| `EpollInvariants.AddKeeps` | net/epoll.cpp:275-320 | `epoll_add` keeps the counts, the witnesses of the generations and the absence of dangling pointers, also when AFD refuses the poll |
| `EpollInvariants.ModKeeps` | net/epoll.cpp:322-338 | `epoll_mod` keeps them, on a registered socket and when it falls back to adding |
| `EpollInvariants.DelKeeps` | net/epoll.cpp:340-362 | `epoll_del` keeps them although operations of the registration stay in flight |
| `EpollInvariants.CompleteKeeps` | net/epoll.cpp:432-541 | So does one completion: superseded, of a deleted registration, failed, locally closed, or reported |
| `EpollInvariants.WaitBatchKeeps` | net/epoll.cpp:423-543 | So does a batch: freeing a registration for one entry leaves no later entry of the batch dangling |
| `EpollInvariants.SubmitAllKeeps` | net/epoll.cpp:70-84 | So does the submission before a wait, in any iteration order of the attention list |
| `EpollRuns.OrphanFreedByItsLastOp` | net/epoll.cpp:443-454 | A registration that left the tree with operations outstanding is freed by the completion of its last operation and by no other |
| `EpollLeaks.StepLeaks` | net/epoll.cpp:340-491 | A registration leaks when it is out of the tree with nothing of it in flight. Exactly two kinds of step leak one: deleting a socket of which nothing is in flight, and completing the last operation in flight of a deleted or closed one that still owns a stranded operation; no step frees what has leaked |
| `EpollLeaks.CompletionLeaks` | net/epoll.cpp:432-491 | What one completion leaks, for every kind of completion |
| `EpollLeaks.RunLeaks` | net/epoll.cpp:340-491 | After any run, with any errors and refusals, the leaked registrations are exactly those its steps leaked, stranded ones included |
| `EpollLeaks.DrainedPortHoldsOnlyRegistered` | net/epoll.cpp:443-491 | Once the kernel holds nothing, the live registrations are those in the tree and the leaked ones |
| `EpollLeaks.DelAfterLastCompletionLeaks` | net/epoll.cpp:340-362 | Deleting a socket after its only operation in flight completed, by an event or by an error, leaks its registration |
| `EpollRuns.ModThenTwoReports` | net/epoll.cpp:322-338 | From every state: an accepted `epoll_mod` on a socket that is being polled, then a batch with the new operation before the old one, gives two events for the socket |
| `EpollDuplicates.ReportedTwiceExactly` | net/epoll.cpp:432-541 | In every port that any run leads to: some batch of completions reports a registered socket twice if and only if two of its operations are in flight |
| `EpollDuplicates.RunNewest` | net/epoll.cpp:192-210 | A positive generation is always that of an operation in flight, so a completion that is not the newest's is discarded only while the newest is still to come |
| `EpollDuplicates.OnlyModPollsTwice` | net/epoll.cpp:275-338 | The step that gives a socket a second operation in flight is an accepted `epoll_mod` of that socket while it is polled once; no add, delete, submission or completion is |
| `EpollDuplicates.UnmodifiedReportsOnce` | net/epoll.cpp:423-543 | A socket that is never modified is reported at most once by every batch, in every run |
| `EpollStranded.ErrorStrands` | net/epoll.cpp:435-464 | A completion leaves its operation undeleted and out of the kernel exactly when it is current, registered and carries an error |
| `EpollStranded.StrandedForever` | net/epoll.cpp:456-464 | No later step of any run deletes such an operation, so its registration is never freed |
| `EpollWatch.NothingGoesUnwatched` | net/epoll.cpp:592-619 | If AFD accepts every poll and no completion carries an error, every registered socket has an operation with the kernel each time the port blocks for events |
| `EpollWatch.RunClean` | net/epoll.cpp:175-211 | In such runs, as long as the newest operation of a socket is outstanding, some operation polls exactly the current interest |
| `EpollWatch.SubmitAllClean` | net/epoll.cpp:70-84 | The loop over the attention list gives every listed socket without operations a new one |
| `EpollWatch.OlderOpBlocksResubmission` | net/epoll.cpp:74-83 | With an older operation outstanding, a completed socket is on the attention list but is not submitted again |
| `EpollInterest.CoveredExactly` | net/epoll.cpp:70-84 | When the port blocks for events, a registered socket is polled for its current interest if and only if it was before the submission, or it was idle, on the attention list, and AFD accepts |
| `EpollInterest.OldInterestIsPolled` | net/epoll.cpp:322-338 | Modify a socket polled by one operation and let the new operation complete first: after the next submission only the old operation is in flight, and the current interest is polled if and only if the old one polls for the new interest with EPOLLOUT masked out |
| `EpollRefused.RefusedExactly` | net/epoll.cpp:70-84 | The submission empties the attention list, and leaves a registered socket without any poll if and only if it was idle and AFD did not accept one: a refused poll is not offered again |
| `EpollRefused.RefusedAddStays` | net/epoll.cpp:275-320 | `epoll_add` that fails because AFD refuses leaves the socket registered and unpolled, and every further `epoll_add` of it fails |
| `EpollRefused.UnpolledForever` | net/epoll.cpp:70-84 | Such a socket stays so in every run in which it is neither modified nor deleted |
| `EpollAsked.OnlyEpolloutIsDropped` | net/epoll.cpp:525-527 | A completion clears EPOLLOUT, and no other bit, in the interest of the socket it rearms, and changes no other interest |
| `EpollAsked.StepAsks` | net/epoll.cpp:275-338 | Adding or modifying a socket gives it the interest asked for, with errors and hang-ups; every other step leaves its interest in every bit but EPOLLOUT |
| `EpollAsked.RunAsks` | net/epoll.cpp:175-190 | After any run, with any completions, a registered socket has the interest last asked for, EPOLLOUT aside |
| `EpollAsked.StillAsksToReceive` | net/epoll.cpp:175-190 | If that interest had EPOLLIN, every submission that AFD accepts asks for data |
| `EpollAsked.RequestIsPolled` | net/epoll.cpp:275-338 | An accepted add or modification is polled at once, bit by bit for what it asks |
| `EpollAsked.CompletionEvents` | net/epoll.cpp:443-541 | The event of a completion in every case: an error for a registered socket whose current poll failed, the translated bits with its user data for one that is rearmed, and none otherwise |
| `EpollAsked.SupersededIsSilent` | net/epoll.cpp:435-440 | The operation that was the newest before an accepted modification, completing before the new one, is discarded without an event |
| `EpollTable.AddTable` | net/epoll.cpp:275-320 | `epoll_add` enters the socket with its user data or changes no entry; a poll that AFD refuses leaves the entry in |
| `EpollTable.ModTable` | net/epoll.cpp:322-338 | `epoll_mod` changes the user data of its own socket only |
| `EpollTable.DelTable` | net/epoll.cpp:340-362 | `epoll_del` takes out its own socket only |
| `EpollTable.CompleteTable` | net/epoll.cpp:432-541 | A completion at most takes out its own socket, and what it reports carries the user data of a socket in the table |
| `EpollTable.WaitTable` | net/epoll.cpp:423-543 | Every event of a batch carries the user data of a socket registered when the batch began |
| `EpollBits.WritableOnlyIfAsked` | net/epoll.cpp:186-189 | AFD is asked for writability exactly when the interest has a write bit, and a socket is reported writable exactly when AFD says so and only if that was asked |
| `EpollBits.ReadableOnlyIfAsked` | net/epoll.cpp:494-511 | A socket is reported readable only if the interest has a read bit or the peer disconnected without an abort; data that was asked for is always reported |
| `EpollBits.NothingSwallowed` | net/epoll.cpp:494-530 | A completion reports no event if and only if AFD said nothing but a local close |
| `EpollBits.HangUpComesAlone` | net/epoll.cpp:512-515 | A hang-up comes with an error, and with readability exactly when something arrived |
| `EpollBits.InterestDecides` | net/epoll.cpp:177-189 | The four conditions are watched for every interest, and nothing else exactly when the interest has no read or write bit |
| `EpollBits.AskedBits` | net/epoll.cpp:177-189 | What AFD is asked for, bit by bit: data and connections to accept, urgent data, room to write and the end of connecting, the four fixed conditions, and nothing else |
| `EpollBits.ReportedBits` | net/epoll.cpp:494-523 | What epoll reports, bit by bit |
| `EpollPortClass.EpollPort.SubmitSock` | net/epoll.cpp:175-211 | The object does what `SubmitOp` specifies: a counted operation of the next generation, or none when refused |
| `EpollPortClass.EpollPort.Add` | net/epoll.cpp:275-320 | The object does what `EpollAdd` specifies and keeps the invariant |
| `EpollPortClass.EpollPort.Mod` | net/epoll.cpp:322-338 | ... what `EpollMod` specifies |
| `EpollPortClass.EpollPort.Del` | net/epoll.cpp:340-362 | ... what `EpollDel` specifies |
| `EpollPortClass.EpollPort.DestroyOp` | net/epoll.cpp:156-162 | The destructor of an operation, its assert discharged |
| `EpollPortClass.EpollPort.Process` | net/epoll.cpp:432-541 | One round of the loop does what `Complete` specifies |
| `EpollPortClass.EpollPort.Wait` | net/epoll.cpp:423-543 | The loop over the batch does what `WaitBatch` specifies, event by event in order |
| `EpollPortClass.EpollPort.SubmitAttention` | net/epoll.cpp:70-84 | The loop over the attention list does what `SubmitAll` specifies and empties the list |
| `EpollPoller.NoStaleDelivery` | net/epollPoller.cpp:58-127 | In every run in which descriptors may be reused while operations of deleted registrations are pending, no assert of the poller fails, and a descriptor in the port's table belongs to the added channel stored with it |
| `EpollPoller.StepOkExactly` | net/epollPoller.cpp:71-127 | A step passes its asserts if and only if it updates an added channel or one on a free descriptor, removes an added one without interest, or destroys one that is not added; it then keeps the agreement |
| `EpollPoller.RunOkExactly` | net/epollPoller.cpp:71-127 | No assert fails in a run if and only if each of its steps meets that guard |
| `EpollPoller.FillActiveDelivers` | net/epollPoller.cpp:58-69 | Both asserts of `fillActiveChannels` hold for every event, the channels handed out are the events' own, in order, each has the bits of its latest event, and no other channel changes |
| `EpollPoller.LaterBitsStandForBoth` | net/epollPoller.cpp:58-69 | Two events for one channel in one poll hand it out twice, both times with the bits of the later one |
| `EpollHandouts.ReachedTwiceExactly` | net/epollPoller.cpp:28-69 | In every poller that any run leads to: the next poll can hand a channel out twice if and only if two operations of its socket are in flight |
| `EpollHandouts.HandoutsBounded` | net/epollPoller.cpp:28-69 | A poll hands a channel out no more often than operations of its socket are in flight, or once when none is |
| `EpollHandouts.OnlyRearmingPollsTwice` | net/epollPoller.cpp:71-107 | The step that gives a channel's socket a second operation in flight is an accepted change of its interest, to some interest, while it is added; no poll and no step of another channel is |
| `EpollHandouts.NeverRearmedHandedOutOnce` | net/epollPoller.cpp:71-107 | A channel that only goes from no interest to some and back is handed out at most once by every poll of every run |
| `EpollHandouts.SandwichedExactly` | net/epollPoller.cpp:28-69 | Some poll hands out a list in which a channel comes again after another one, if and only if one socket has two operations in flight and another one has one once the poll has submitted |
| `EpollPoller.PollKeeps` | net/epollPoller.cpp:28-56 | A poll hands out live, added channels that own their descriptor, and leaves more room in the event vector than it used |
| `EpollPoller.UpdateChannelKeeps` | net/epollPoller.cpp:71-107 | Updating a channel keeps channels, indices and the port's table in agreement, in all three index states |
| `EpollPoller.RemoveChannelKeeps` | net/epollPoller.cpp:109-127 | So does removing one; its descriptor is in neither table afterwards |
| `EpollListening.RunFollows` | net/epollPoller.cpp:71-127 | After any run, a descriptor the port knows is registered for what its channel wants, EPOLLOUT aside |
| `EpollListening.ChangeTakesEffect` | net/epollPoller.cpp:71-107 | After a change of interest the port knows the descriptor exactly when the channel is to be listened to and the system lets it be registered, for that interest, and an accepted poll asks for it at once |
| `EpollPollerClass.EPollPoller.UpdateInterest` | net/epollPoller.cpp:71-107 | The object does what `UpdateChannel` specifies, the asserts discharged |
| `EpollPollerClass.EPollPoller.RemoveInterest` | net/epollPoller.cpp:109-127 | ... what `RemoveChannel` specifies |
| `EpollPollerClass.EPollPoller.Fill` | net/epollPoller.cpp:58-69 | The loop over the events does what `FillActive` specifies |
| `EpollPollerClass.EPollPoller.PollPort` | net/epollPoller.cpp:28-56 | The object does what `Poll` specifies and hands out deliverable channels |
| `ChannelEvents.CallbacksOf` | net/channel.cpp:64-89 | Which callbacks run for what AFD reports; the close and the read callback never run for one event |
| `ChannelEvents.CalledExactly` | net/channel.cpp:64-89 | For any bits: which callbacks run, each at most once, in the order close, error, read, write |
| `ChannelEvents.DeliveryBreaksOnlyTheClosed` | net/channel.cpp:64-89 | One event breaks no live connection; a connection closed before it breaks exactly when it calls for a close, or for a read that finds the end of the stream |
| `ChannelEvents.DeliveryActs` | net/channel.cpp:64-89 | One event closes a live connection when it calls for a close or finds the end of the stream, and otherwise writes what the socket takes if it calls for that |
| `Dispatch.DanglesExactly` | net/eventLoop.cpp:73-80 | Whatever timers and handlers remove and destroy within the asserts of `removeChannel` and `~Channel`, the loop meets no destroyed channel in its list, if and only if the list has no channel twice with another one in between |
| `Dispatch.DeferredDestructionIsSafe` | net/eventLoop.cpp:73-81 | If destruction is left to the functors, no list dangles |
| `Dispatch.OwnRemovals` | net/eventLoop.cpp:147-155 | When every handler removes its own channel or none, the asserts hold if and only if no channel is handed out twice and removed both times |
| `Dispatch.EffectsExactly` | net/channel.cpp:27-49 | When the asserts let a handler remove, destroy or update a channel, and what it changes |
| `DispatchClass.Reactor.HandleActive` | net/eventLoop.cpp:73-80 | The loop over the list does what `Dispatched` specifies |
| `SelectPoller.IndexStaysRight` | net/selectPoller.cpp:91-147 | After any updates, removals and polls in which no assert fails, channels and poll entries are in bijection, every index leads to the entry of the channel's own descriptor, and an entry is negated exactly when its channel has no interest and has been updated since it was entered |
| `SelectPoller.StepOkExactly` | net/selectPoller.cpp:91-147 | A call passes its asserts if and only if it updates a registered channel or one never seen, or removes a registered one without interest that has been updated since it was entered; it then keeps the invariant |
| `SelectPoller.RunOkExactly` | net/selectPoller.cpp:91-147 | No assert fails in a run if and only if each of its calls meets that guard |
| `SelectPoller.RemovedIsSpent` | net/selectPoller.cpp:123-147 | A removed channel keeps its index: updating or removing it again fails an assert |
| `SelectPoller.SetInterestMeans` | net/selectPoller.cpp:91-121 | An update changes the interest of its own descriptor and no other, whether it appends or overwrites an entry |
| `SelectPoller.RemoveMeans` | net/selectPoller.cpp:123-147 | Removal by swapping with the last entry takes out one descriptor and leaves all other interests as they were |
| `SelectPoller.FillDelivers` | net/selectPoller.cpp:63-89 | For any count: the asserts of `fillActiveChannels` hold; while the count lasts every ready entry's channel is handed out, told of reading, writing and errors exactly as its descriptor is in the three sets; nothing else is handed out or changed |
| `SelectPoller.HandedOutOnce` | net/selectPoller.cpp:63-89 | No channel is handed out twice, whatever the count |
| `SelectPoller.AllReadyDelivered` | net/selectPoller.cpp:38-89 | With the count that `select` returns, every entry whose descriptor came back in one of the sets has its channel handed out, with exactly the bits of those sets |
| `SelectPoller.OnlyWhatIsWanted` | net/selectPoller.cpp:25-36 | A channel is told that it is readable or writable only if its own interest has that bit |
| `SelectPoller.CountSuffices` | net/selectPoller.cpp:38-60 | `select` never counts fewer descriptors than there are ready entries |
| `SelectPoller.UpdateFaults` | net/selectPoller.cpp:91-121 | `updateChannel` passes its asserts exactly for a registered channel and for one never seen, on a free descriptor |
| `SelectPoller.RemoveFaults` | net/selectPoller.cpp:123-131 | `removeChannel` passes its asserts exactly for a registered channel without interest that has been updated since it was entered |
| `SelectPoller.FirstUpdateNeedsInterest` | net/selectPoller.cpp:94-104 | After a first update without interest, removal fails an assert; another update makes it pass |
| `SelectPoller.DisabledEntrySpoilsSelect` | net/selectPoller.cpp:25-36 | The exception set names registered descriptors only, if and only if every channel without interest is still in the state of its first update |
| `SelectPollerClass.Selector.SetEvents` | net/selectPoller.cpp:91-121 | The object does what the specification of an update says, and fails exactly when its guard does not hold |
| `SelectPollerClass.Selector.RemoveInterest` | net/selectPoller.cpp:123-147 | The object swaps, renumbers and pops as `RemoveChannel` specifies, and fails exactly when its guard does not hold |
| `SelectPollerClass.Selector.FillActive` | net/selectPoller.cpp:63-89 | The loop, with its early exit, does what `Fill` specifies over all entries |
| `TimerHeap.MinHeap.Reserve` | net/timeMinHeap.h:106-120 | Fails exactly when growth is needed and refused; otherwise room for `n`, contents kept |
| `TimerHeap.MinHeap.ShiftUp` | net/timeMinHeap.h:122-134 | Order, back-pointers and set are restored from an entry that is too small; a top that is not greater stays the top |
| `TimerHeap.MinHeap.ShiftDown` | net/timeMinHeap.h:135-154 | ... from an entry that is too great, and when the hole lies just past the heap |
| `TimerHeap.MinHeap.Push` | net/timeMinHeap.h:72-78 | Adds exactly the new timer, or nothing when the array is full and cannot grow; a top not later than the new timer stays |
| `TimerHeap.MinHeap.Pop` | net/timeMinHeap.h:79-88 | Takes out exactly the top, whose index stays behind as 0; nothing on an empty heap |
| `TimerHeap.MinHeap.Erase` | net/timeMinHeap.h:90-104 | Takes out exactly the timer at the given one's index, which is the given one if and only if it is in the heap; leads out of the heap if and only if the index is neither -1 nor a position of it |
| `TimerHeap.MinHeap.PopThenErase` | net/timeMinHeap.h:79-104 | Erasing a popped timer leads out of the heap if and only if it was the last one, and otherwise takes out the new top |
| `TimerHeap.TopIsMinimum` | net/timeMinHeap.h:160 | The top of a heap is a minimum |
| `TimerHeap.SiftUpStep` | net/timeMinHeap.h:126-132 | A round of sifting up leaves the hole as the only place that may be out of order, one level higher |
| `TimerHeap.SiftDownStep` | net/timeMinHeap.h:139-152 | A round of sifting down does so one level lower, when the hole trades with the lesser child |
| `TimerHeap.ClosedUp` | net/timeMinHeap.h:94-97 | Putting the last entry into a hole whose parent is greater leaves an order that sifting up repairs |
| `TimerHeap.ClosedDown` | net/timeMinHeap.h:94-99 | Otherwise it leaves one that sifting down repairs |
| `TimerQueueClass.TimerQueue.ExpiredProcess` | net/timerQueue.cpp:64-79 | With callbacks that add and cancel timers, and repeat intervals of at least a microsecond: either a callback makes a call that takes the running timer off the top or uses a stale index, or the drain terminates. Then what ran was due by `now`, each timer once, in nondecreasing order of expiration; every due timer that was in the heap or came into it has run or was cancelled, a one-shot one not both; nothing due is left, all others are, and the repeating ones that ran are back at `now` plus the interval. Callbacks that only add timers not earlier than their own always get there |
| `TimerQueueClass.TimerQueue.FireTop` | net/timerQueue.cpp:72-77 | Run, pop and re-arm concern one and the same timer, although the callback runs before the pop, adds timers and cancels others |
| `TimerQueueClass.TimerQueue.RunCallback` | net/timerQueue.cpp:72 | The calls of a callback change heap and set by what they add and cancel and leave its timer on top, up to the first that is not permitted |
| `TimerQueueClass.RoundKeeps` | net/timerQueue.cpp:72-77 | The account of the drain, round by round: heap, set, order, expirations and stale indices |
| `TimerQueueClass.TimerQueue.EarlierTimerIsPopped` | net/timerQueue.cpp:72-73 | When a callback adds a timer earlier than the running one, the pop takes the new timer, which never ran, and the one that ran stays |
| `TimerQueueClass.TimerQueue.OwnCancelPopsTheNext` | net/timerQueue.cpp:72-77 | When a callback cancels its own timer, the pop takes another one, which does not run, or nothing when there is none, and a repeating timer is back in the heap. Just this timer is gone if and only if it is one-shot and alone |
| `TimerQueueClass.TimerQueue.LateCancel` | net/timerQueue.cpp:52-62 | Cancelling a one-shot timer that has run leads out of the heap if it was the last one, and otherwise takes out the new top |
| `TimerQueueClass.TimerQueue.ZeroIntervalStaysDue` | net/timerQueue.cpp:74-77 | A repeat interval that truncates to 0 leaves the timer due after its own round |
| `TimerQueueClass.TimerQueue.ZeroIntervalNeverEnds` | net/timerQueue.cpp:65-78 | With such a timer the drain goes on for any number of rounds, whatever the callbacks add and cancel, unless one cancels it or makes a call that is not permitted |
| `TimerQueueClass.TimerQueue.AddTimerInLoop` | net/timerQueue.cpp:45-50 | The timer enters heap and set; the result of the push is ignored |
| `TimerQueueClass.TimerQueue.CancelInLoop` | net/timerQueue.cpp:52-62 | A timer in the heap, or never in one, leaves heap and set and no other does; a stale index takes another timer out of the heap, or leads out of it |
| `TimerQueueClass.TimerQueue.EarliestExpiredTime` | net/timerQueue.cpp:81-91 | The two defaults, and otherwise the whole seconds to the earliest timer: read as milliseconds never later than it |
| `EventLoop.NoLostWakeup` | net/eventLoop.cpp:58-116 | Inside poll with functors pending or an unseen quit, the pipe holds a token or a foreign thread is about to write one |
| `EventLoop.FifoExactlyOnce` | net/eventLoop.cpp:185-198 | What has run is a prefix of what was pushed, the rest is still queued in order, and an iteration ends with everything run that was pushed before its swap |
| `EventLoop.LoopAccounts` | net/eventLoop.cpp:58-116 | In every run: every functor queued is in the history, in order; the pipe holds what was written and not yet read; `quit_` is set if and only if somebody quit, and the loop stops for no other reason |
| `EventLoop.GoesOnUntilQuit` | net/eventLoop.cpp:65 | The loop polls as long as nobody has quit, and stops at the next test when somebody has |
| `EventLoop.WakeupGetsQueueRun` | net/eventLoop.cpp:169-198 | Once foreign threads are done, one iteration of the loop thread, without a timeout, runs all that is pending |
| `EventLoop.FirstPollWokenExactly` | net/eventLoop.cpp:58-116 | For any queue the loop thread filled before `loop()`: pending work in the first poll has a wakeup in the pipe or on its way if and only if that queue was empty or a foreign thread has acted |
| `EventLoopClass.Dispatcher.QueueInLoop` | net/eventLoop.cpp:107-116 | The object appends one functor and takes the protocol steps of its caller: a foreign thread, a functor, or another callback |
| `EventLoopClass.Dispatcher.DoPendingFunctors` | net/eventLoop.cpp:185-198 | Runs exactly what was queued when the queue was taken, in order; what these functors queue, in order, is left for the next round |
| `NetworkBytes.EncodeIsBigEndian` | net/endian.h:7-29 | The swapped host integer, copied as it lies in memory, is big-endian two's complement |
| `NetworkBytes.DecodeEncode` | net/endian.h:7-29 | Decoding inverts encoding for every signed integer of 1, 2, 4 and 8 bytes |
| `NetworkBytes.ReadAllEncodeAll` | net/buffer.h:190-302 | Reading a list of integers with the widths it was written with returns the list and leaves what follows |
| `BufferClass.Buffer.SlideToFront` | net/buffer.h:343-353 | The overlapping copy preserves the content |
| `BufferClass.Buffer.MakeSpace` | net/buffer.h:339-354 | Content kept and room made; the assert holds; slides exactly when the slack suffices, and growth stays below readable + 2 * len + 8 |
| `BufferClass.Buffer.EnsureWritableBytes` | net/buffer.h:162-167 | Room for `len`, content kept |
| `BufferClass.Buffer.Append` | net/buffer.h:152-156 | Appends to the byte sequence |
| `BufferClass.Buffer.Retrieve` | net/buffer.h:97-104 | Drops from the front |
| `BufferClass.Buffer.RetrieveAsString` | net/buffer.h:137-142 | Takes from the front |
| `BufferClass.Buffer.Unwrite` | net/buffer.h:182-185 | Drops from the end |
| `BufferClass.Buffer.Prepend` | net/buffer.h:304-309 | Puts in front, using up headroom |
| `BufferClass.Buffer.Shrink` | net/buffer.h:311-317 | Content kept in a new vector with the asked reserve |
| `BufferClass.Buffer.ReadFd` | net/buffer.cpp:14-42 | What the two vectors received, split at the end of the buffer, is appended whole |
| `BufferClass.Buffer.AppendInt` | net/buffer.h:190-210 | Appends the encoding |
| `BufferClass.Buffer.PrependInt` | net/buffer.h:282-302 | Prepends the encoding |
| `BufferClass.Buffer.ReadInt` | net/buffer.h:216-242 | Decodes and drops the front |
| `BufferClass.AppendThenRead` | net/buffer.h:190-278 | Any list of integers appended to an empty buffer is read back, and a tail stays |
| `BufferClass.PrependThenRead` | net/buffer.h:282-309 | Prepend and read are the identity on the rest |
| `TcpConnection.StreamConservation` | net/tcpConnection.cpp:173-261 | In every state of every run, with sends queued by other threads, the bytes the socket took, followed by the output buffer, are the accepted messages in order; until the connection is down the channel asks for writability exactly while something is buffered |
| `TcpConnection.Lifecycle` | net/tcpConnection.cpp:107-167 | In every run in which no assert fails: the state never goes back, one UP before at most one DOWN, and written bytes stay written |
| `TcpConnection.UpAndDown` | net/tcpConnection.cpp:146-167 | Establishing starts reading and says UP; an empty read, a hang-up and destroying a connected connection end all interest and say DOWN |
| `TcpConnection.SendsExactly` | net/tcpConnection.cpp:75-88 | A connected connection accepts every message, writes at once what the socket takes when nothing waits, and buffers the rest; who else accepts one |
| `TcpConnection.WritesExactly` | net/tcpConnection.cpp:233-261 | A writable event writes from the front of the buffer what the socket takes; when that empties it, a half closed connection gets its FIN |
| `TcpConnection.ForcingCloses` | net/tcpConnection.cpp:116-122 | Forcing a live connection closes it without a FIN, and does nothing to any other |
| `TcpConnection.ReadingAsAsked` | net/tcpConnection.cpp:317-331 | Starting and stopping to read set the interest as asked |
| `TcpConnection.StepOkExactly` | net/tcpConnection.cpp:146-300 | A step passes its asserts if and only if: establish from Connecting; a destroy that finds the connection up, or its channel known and without interest; a hang-up or an empty read on a live connection |
| `TcpConnection.RunOkExactly` | net/tcpConnection.cpp:146-300 | No assert fails in a run if and only if each step meets that guard |
| `TcpConnection.SecondDelivery` | net/tcpConnection.cpp:216-278 | When a channel is handed out twice in one poll and the first delivery closes the connection, the second fails the assert of `handleClose` exactly when it reads nothing or hangs up |
| `TcpConnection.DestroyExactly` | net/tcpConnection.cpp:157-167 | Destroying works on an established connection, and on any other exactly when its channel is known and has no interest; half closed, that means reading stopped and nothing buffered |
| `TcpConnection.DestroyAfterClose` | net/tcpConnection.cpp:263-278 | After a close from the peer a connection can be destroyed once, but not after reading was started again |
| `TcpConnection.DestroyedIsReleasable` | net/tcpConnection.cpp:157-167 | A destroyed connection may be released unless it was half closed |
| `TcpConnection.ShutdownExactly` | net/tcpConnection.cpp:107-114 | `shutdown` sends the FIN at once if nothing is buffered and leaves it for later otherwise; only a connected connection is shut down |
| `TcpConnection.FinMatchesExactly` | net/tcpConnection.cpp:233-292 | No FIN before the half close, and after it exactly one once the buffer is empty: a step keeps this if and only if it is neither a forced close with nothing buffered nor a queued send that fills the empty buffer again |
| `TcpConnection.HalfCloseSendsFin` | net/tcpConnection.cpp:107-114 | In every run without these two, a half closed connection has sent its FIN if and only if its buffer is empty |
| `TcpConnection.FinStaysLast` | net/tcpConnection.cpp:173-214 | A step keeps `shutdownWrite` single, on an empty buffer and with nothing written behind it, if and only if it is not a queued `sendInLoop` with data on the half closed connection |
| `TcpConnection.OrderlyHalfClose` | net/tcpConnection.cpp:107-114 | In every run without such sends there is at most one `shutdownWrite`, on an empty buffer, and no byte is written after it |
| `TcpConnection.QueuedSendBehindFin` | net/tcpConnection.cpp:173-214 | Such a send writes behind the FIN exactly when the socket takes a byte; what it leaves is written later, with a second FIN |
| `TcpConnectionClass.Connection.QueueOrWrite` | net/tcpConnection.cpp:173-214 | The object with its buffer does what `SendInLoop` specifies |
| `TcpConnectionClass.Connection.SendMessage` | net/tcpConnection.cpp:75-88 | ... `Send` |
| `TcpConnectionClass.Connection.OnWritable` | net/tcpConnection.cpp:233-261 | ... `HandleWrite` |
| `TcpConnectionClass.Connection.OnReadable` | net/tcpConnection.cpp:216-231 | ... `HandleRead`, and fails exactly on an empty read of a connection that is not live |
| `TcpConnectionClass.Connection.Destroy` | net/tcpConnection.cpp:157-167 | ... `ConnectDestroyed`, and fails exactly when its guard does not hold |
| `Connector.SocketsAccountedFor` | net/connector.cpp:28-184 | In every run in which no assert fails, with calls, retries and deliveries at any time: every socket created is closed, handed over or still watched by the channel, and no two of these; the k-th retry since the last restart waits min(500 * 2^k, 30000) ms |
| `Connector.StepOkExactly` | net/connector.cpp:28-184 | A step passes its asserts if and only if it meets a guard on state, channel and result of `connect`, and then keeps the account |
| `Connector.SettlesExactly` | net/connector.cpp:134-184 | The socket being connected is handed over if and only if the event connects it and `connect_` is set; any other event with an error or writability closes it, with a retry exactly when the connection failed and `connect_` is set |
| `Connector.EveryConnectionIsHandedOver` | net/connector.cpp:134-160 | A run in which nobody stops the connector, every attempt gets going and every event connects hands over every socket it makes, but for one it may still be connecting |
| `Connector.AttemptsExactly` | net/connector.cpp:58-97 | What an attempt makes of each errno: connecting, closed with a retry, or closed |
| `Connector.RestartBeginsAnew` | net/connector.cpp:28-56 | `restart` begins the retry delays anew and `start` goes on with them; without `connect_` nothing is attempted |
| `Connector.DisciplinedRunsAreSafe` | net/connector.cpp:28-184 | In every run that starts and restarts only an idle connector, and in which its channel is served once per poll, no assert fails; in particular no retry timer overtakes the reset of the channel before it |
| `Connector.RetryConnectsAgain` | net/connector.cpp:172-184 | A retry that was scheduled makes a new socket in the next iteration |
| `ConnectorPolling.ConnectorRunsAreSafe` | net/connector.cpp:28-184 | A connector started and restarted only when idle, over `EPollPoller` and among any other channels: in every run, with operations completing in any order and with any status, no assert of connector or poller fails, and its channel asks for EPOLLOUT only and is served at most once per poll |
| `ConnectorPolling.PollerFollows` | net/connector.cpp:107-132 | In every step of such a run: a new channel is listened to for EPOLLOUT at once, a released one is in no table of poller or port, and a reset one is destroyed |
| `ConnectorPolling.ConnectionLeavesPoller` | net/connector.cpp:134-160 | Serving the channel for an event that connects hands the socket over, with the poller and the port rid of it |
| `Connector.ErrorSettlesTheEvent` | net/connector.cpp:134-170 | One event with error and writability closes the socket once and hands nothing over |
| `Connector.SecondDelivery` | net/connector.cpp:134-160 | A second event of the channel in one iteration would fail an assert if and only if the first event was a successful write without error and the second one writes |
| `Connector.StartBeforeReset` | net/connector.cpp:107-119 | Starting a disconnected connector fails an assert if and only if its old channel is still there and the attempt gets going |
| `Connector.RestartForgetsSocket` | net/connector.cpp:99-119 | Restarting while connecting fails an assert if and only if the new attempt gets going; otherwise the old socket is forgotten: open and watched, but no longer being connected |
| `Connector.ForgottenForever` | net/connector.cpp:28-184 | From then on, in every run in which no assert fails, that socket stays open and no other is handed over |
| `Connector.StopOvertakesStart` | net/connector.cpp:43-56 | `stop` then `start`: the queued stop closes the new socket, yet schedules a retry, whose start fails an assert if it comes before the reset and gets going |
| `ConnectorClass.Client.TryConnect` | net/connector.cpp:58-119 | The object does what an attempt specifies, by class of error |
| `ConnectorClass.Client.OnEvent` | net/connector.cpp:134-170 | The object does what an event specifies, error first, and fails exactly on writability when connected |
| `FixedBufferModule.FixedBuffer.Append` | base/logStream.h:23-29 | All of the text or nothing, leaving at least one byte free |
| `FixedBufferModule.FixedBuffer.Reset` | base/logStream.h:40-41 | Empty |
| `AsyncLogging.LogConservation` | base/asyncLogging.cpp:27-116 | Under every interleaving and with lines of any length no assert of the backend's loop fails, a missing spare implies a filled buffer, and the file, the batch, the filled buffers and the current one are together all appended lines below 4 MiB in order, losses included in their places |
| `AsyncLogging.AppendsExactly` | base/asyncLogging.cpp:27-43 | A line goes into the current buffer, and nothing else changes, if and only if it is shorter than the room left; otherwise the buffer is filed and another one begins with the line |
| `AsyncLogging.SwapTakesAll` | base/asyncLogging.cpp:59-76 | A swap takes every filed buffer and the current one, and leaves the producers two empty ones |
| `AsyncLogging.LossTakesTooMuch` | base/asyncLogging.cpp:27-91 | In every run of lines below 4 MiB, a batch that loses anything holds at least 13 buffers' worth of text, as any two neighbours hold at least one |
| `AsyncLogging.SmallBatchIsWritten` | base/asyncLogging.cpp:27-91 | What is appended between two swaps is the text of the batch; below 13 buffers' worth it is written in full, and in one piece if it fits one buffer |
| `AsyncLogging.EntriesAccount` | base/asyncLogging.cpp:78-91 | Written and lost buffers of a batch are together its text; a batch of more than 25 writes exactly its first two buffers and loses exactly the others, any other batch loses none |
| `AsyncLogging.EntriesAnnounce` | base/asyncLogging.cpp:78-86 | Every loss is preceded by a notice with the right number of buffers |
| `AsyncLogging.SwapKeeps` | base/asyncLogging.cpp:59-76 | The critical section discharges the asserts above and below it |
| `AsyncLogging.WriteKeeps` | base/asyncLogging.cpp:93-112 | The batch always suffices to refill the missing spares |
| `AsyncLogging.HugeLineVanishes` | base/asyncLogging.cpp:31-42 | The account gains a line exactly when it fits an empty buffer; a longer one only uses up a buffer |
| `AsyncLoggingClass.Log.AppendLine` | base/asyncLogging.cpp:27-43 | The object and its buffers do what `Append` specifies |
| `AsyncLoggingClass.Log.TakeFilled` | base/asyncLogging.cpp:59-76 | ... `Swap`, the asserts discharged |
| `AsyncLoggingClass.Log.WriteBatch` | base/asyncLogging.cpp:78-91 | The notice, the erasure and the write loop, over the texts of the buffers |
| `AsyncLoggingClass.Log.WriteFilled` | base/asyncLogging.cpp:78-113 | ... `Write`: after it, the buffers behind the recycled pointers have really been reset |
| `AsyncLoggingClass.Log.Recycle` | base/asyncLogging.cpp:97-110 | The last buffer of the batch leaves it and is reset; it is then in no other place of the logger |
| `IntegerText.TextRoundTrip` | base/logStream.cpp:22-41 | The text of any integer parses back to it and has no leading zero |
| `IntegerText.TextLength` | base/logStream.cpp:169-176 | Every signed or unsigned 64-bit value takes at most 20 characters |
| `IntegerText.HexLength` | base/logStream.cpp:106-117 | Every 64-bit pointer takes at most 16 digits |
| `IntegerText.NumeralRoundTrip` | base/logStream.cpp:43-58 | A numeral in any base from 2 to 16 parses back to its value |
| `IntegerText.NoLeadingZero` | base/logStream.cpp:43-58 | A numeral starts with `0` if and only if it is the numeral of 0 |
| `IntegerText.LastDigit` | base/logStream.cpp:28-32 | Truncating division splits off the last digit of the absolute value, also of a negative number |
| `IntegerText.ZeroTable` | base/logStream.cpp:15-16 | The table indexed from its middle gives the digit for remainders of either sign |
| `IntegerText.ReverseRange` | base/logStream.cpp:38 | The range is reversed in place, the rest untouched |
| `IntegerText.Convert` | base/logStream.cpp:22-41 | Writes the text of the value and its terminator, below 48 characters, and touches nothing else, minimum included |
| `IntegerText.ConvertHex` | base/logStream.cpp:43-58 | Writes the hexadecimal numeral and its terminator, at most 16 digits, and touches nothing else |
| `IntegerText.FormatInteger` | base/logStream.cpp:169-176 | The buffer gains the whole text, or nothing when fewer than 48 bytes are left |
| `IntegerText.FormatPointer` | base/logStream.cpp:106-117 | The same for a pointer, with its prefix |
| `Calendar.DayNumberRoundTrip` | base/Date.cpp:10-22 | For every day number from -32044 on, `getYearMonthDay` yields a date of the proleptic Gregorian calendar and `getJulianDayNumber` inverts it |
| `Calendar.DateRoundTrip` | base/Date.cpp:3-8 | The other direction, for every date from 1 March of the year -4800 on |
| `Calendar.NextDayNumber` | base/Date.cpp:3-8 | The next day of the calendar has the next number |
| `Calendar.JulianParts` | base/Date.cpp:3-8 | The day number is the sum of the days before the century, the year and the month, in years that start in March |
| `Calendar.NoOverflow` | base/Date.cpp:10-16 | 32-bit arithmetic carries the computation exactly up to day 536838867 |
| `Calendar.EpochDay` | base/Date.cpp:24 | The day number of 1 January 1970 |
| `Calendar.FillHMS` | base/timezone.cpp:6-11 | Hours, minutes and seconds of a number of seconds |
| `Calendar.BreakTime` | base/timezone.cpp:13-32 | Truncating division and a borrow give the day and the time of day, also before 1970 |
| `Calendar.SecondsRoundTrip` | base/timezone.cpp:35-45 | `fromUtcTime` undoes `toUtcTime`, also for negative seconds, and the time is valid |
| `Calendar.UtcRoundTrip` | base/timezone.cpp:35-45 | `toUtcTime` undoes `fromUtcTime` |
| `Calendar.FromUtcIsPosix` | base/timezone.cpp:40-45 | From 1970 on `fromUtcTime` is Seconds Since the Epoch as defined in section 4.16 of POSIX.1-2017 (Base Definitions) |

## Left out

- The Winsock and NT calls (`net/socketsOps.cpp`, `net/socket.cpp`, `net/ntapi.h`, `epoll__afd_poll`): foreign code; their results are parameters.
- `epoll_port_data_t::epoll_close`: the shutdown path drains a real completion port and does not follow the ownership discipline of the other methods.
- Allocation failure of `new`, and the width of `_op_count`, which would need two billion operations on one socket.
- EpollWatch.NothingGoesUnwatched: safety only; that an event is eventually delivered is not claimed, since `EPOLLOUT` is dropped after a completion.
- EpollPoller.NoStaleDelivery: `LOG_SYSFATAL` after a failed ADD or MOD is modelled as going on, the stricter case.
- Dispatch.DanglesExactly: a channel is its identity, so a new channel at the address of a destroyed one is another channel; that a removed channel must have no interest is left to the models of the pollers, and the weak pointer of `tie` only decides whether the handler runs.
- SelectPoller.IndexStaysRight: an interest is a pair of bits, as the read and write masks are the only ones ever set; the cast to `short` keeps them.
- SelectPoller.AllReadyDelivered: the limit of 64 sockets per `fd_set` is not modelled, nor what `select` does with a negative descriptor.
- TimerHeap.MinHeap.Erase: what the source reads and writes once its index has left the heap is not modelled further.
- TimerQueueClass.TimerQueue.ExpiredProcess: a drain is described up to the first call of a callback that adds a timer earlier than its own, adds one already in use, cancels its own, or cancels with a stale index; `EarlierTimerIsPopped`, `OwnCancelPopsTheNext` and `LateCancel` show what such a call does. Repeat intervals below a microsecond are excluded (`ZeroIntervalNeverEnds`). Memory for timers added by callbacks is assumed to be there.
- EventLoop.NoLostWakeup: `quit()` before `loop()` is overwritten by `loop()` and not covered.
- EventLoopClass.Dispatcher.DoPendingFunctors: the object shows the loop thread by itself; pushes of other threads in between are steps of the protocol in `EventLoop`.
- TcpConnection.StreamConservation: a write returns 0 to the length offered, as `ssize_t` is unsigned here and an error return would count as a huge length; races of other threads on `state_` are not modelled, except that a `sendInLoop` they queued may come at any time.
- TcpConnection.Lifecycle: user callbacks run at the end of their handler, so their calls are the next steps; a DOWN callback that starts reading inside `connectDestroyed`, before the channel is removed, is not modelled.
- The input buffer of the connection, write-complete and high-water callbacks, and the two other overloads of `send`: they do not take part in what is claimed.
- Connector.SocketsAccountedFor: `start` and `restart` are calls in the loop thread, and the destructor is not modelled.
- ConnectorPolling.ConnectorRunsAreSafe: the loop runs on `EPollPoller`; over the select poller the single hand-out is `SelectPoller.HandedOutOnce`, and the two are not put together.
- AsyncLogging.LogConservation: text appended after the last swap before `stop()` may stay unwritten.
- Calendar.BreakTime: the cast of the day count to 32 bits is not modelled; `Calendar.NoOverflow` tells which days fit.
- IntegerText.TextRoundTrip: `formatSI`, `formatIEC` and `%g` are floating point and libc formatting.
- `findCRLF` and `findEOL` of the buffer, the logger front end, files, processes, threads and the simple monitors (`BlockingQueue`, `CountDownLatch`, `Threadpool`, `AtomicInt`), `TcpServer` and `TcpClient`: they would add only easy members.
- `net/timerQueueWin.*` and `net/eventLoopSimple.*`: not in the build.
