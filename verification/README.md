# Verified model of the pm-lab measurement daemon and its client

One acquisition thread of the daemon fills a shared sample block.  For every connected client a
handler thread copies that block into a bounded queue of its own, and a sender thread drains the
queue to the client's socket.  The sample arrays are copied without a lock: only the barrier made of
the five handler sets keeps the acquisition thread away from them meanwhile.  The project models the
threads as a transition system whose steps are single critical sections, single tests and single
array elements, with any number of clients that come and go at any time, and proves what every
reachable state guarantees.  Around it are the pieces the threads are made of, in the form the source
gives them: the object with the five sets, the sliding window in a fixed array, the retry loops over
short and interrupted transfers, the frame writer and parser, both halves of the handshake, the
client's unpacking, the acquisition clock, and the resampler that draws the data.

| file | content |
|---|---|
| `Wire.dfy` | blocks, data sets, network byte order (Appendix B of RFC 791), frames, greeting |
| `Fifo.dfy` | the bounded queue as a sequence, shared by the machine and the array queue |
| `Timestamps.dfy` | the truncating 64-bit clock, its drift, its monotonicity |
| `HandlerSets.dfy`, `Registry.dfy` | the five sets as values, and as the object `sync.c` updates in place |
| `HandlerThreads.dfy`, `Daemon.dfy` | the program points, guards and steps of all threads |
| `HandlerInvariant.dfy`, `DaemonInvariant.dfy` | the inductive invariant and its preservation |
| `DaemonTheorems.dfy`, `DaemonRuns.dfy`, `Progress.dfy` | what follows for reachable states and for runs |
| `Inputs.dfy` | samples and channel lists read off the events of a run, and where they end up |
| `SharedArrays.dfy` | the frees at the end of the acquisition thread, and who may still be reading |
| `Teardown.dfy` | the end of `main`: cancelling the reaper and freeing the sets |
| `Descriptors.dfy` | on which connection the written bytes arrive when descriptor numbers are reused |
| `LockOrder.dfy` | the mutexes, with acquire and release as steps |
| `SampleQueue.dfy` | the array queue with its compaction, and who owns the sample arrays |
| `Transfer.dfy`, `Framing.dfy`, `Handshake.dfy`, `Channels.dfy` | the byte streams of both ends |
| `EndToEnd.dfy` | all of it together, from the acquisition thread to the client's buffer |
| `Resampler.dfy` | the time-weighted averages of `realtime.py` |

How to read the daemon model: `Daemon.Guard` says where an event can happen, `Daemon.Step` what it
does, and `DaemonTheorems.Reachable` quantifies over all finite runs, so a theorem that requires
`Reachable(c, s)` speaks of every interleaving.  `history` lists the published blocks, and `since`,
`written`, `wire`, `freed`, `analogs`, `digitals`, `spoiled` and `overrun` record what happened to one
client; `heard` and `readings` record what the hardware delivered.  No guard reads them, except that
the greeting's next bytes are found by the length of `wire`.  A freed array keeps being readable in
the model, with whatever contents its next owner leaves; `spoiled` tells who has read it.

Where the code does not do what one would like it to do:

- The acquisition thread frees the shared arrays when it has left its loop and waits for nobody, so
  a handler that is still copying reads freed memory.  `FreeIsSafeIff` gives the exact condition,
  `FreeCanBeUnsafe` a run.
- The two assertions behind the barrier loop fail in some runs.  `AssertionsWillHoldIff` gives the
  exact condition at the call, `BarrierAssertionCanFail` a run.
- A handler closes its descriptor before it joins its sender, so a later connection can be given a
  number through which that sender still writes.  `AcceptIsSafeIff` gives the exact condition,
  `AcceptCanBeUnsafe` a run of a daemon in service.
- A client that leaves before it has taken its greeting ends the whole daemon: `SendGreeting` and
  `GreetingGoesOutIff` say exactly for which calls of write(2).
- `main` frees the five sets without waiting for the handlers, and cancels the reaper where it may
  take the set mutex with it.  `FinishIsSafeIff`, `HandlerCanLeaveIff` and `WaitCanEndIff` give the
  exact conditions, `FinishCanBeUnsafe`, `HandlerCanBeStuck` and `WaitCanBeEndless` the runs.
- A frame with an empty payload is taken by the client for the end of the stream, and one of 2 GiB
  or more is sent but reported as failed, because lengths are added up in an `int`:
  `FrameRoundTripIff` and `WriteFrame`.
- A data set with channels of different lengths passes the client's assertion when the shorter one
  that comes first is empty: `FlattenableIff` says which pass.
- `client/libpmlab.h:63` calls the timestamp that of the first sample.  The code advances the clock
  before it publishes, so it marks the end of the block: `BlockTimestamps`.

## Model

| member | source | states |
|---|---|---|
| DaemonTheorems.GaplessStream | daemon/handler.c:401-422 | in every reachable state and for every client, the blocks written and the one in progress or abandoned are one contiguous run of the published blocks, and so are these with the queue behind them unless this handler has read an array after `daemon/daemon.c:248-249` freed it; up to date as long as the handler is alive |
| DaemonTheorems.StartsWhereItBecomesActive | daemon/sync.c:350-369 | the reset that makes a handler active makes the block just published the first of its run |
| DaemonRuns.RunGrows | daemon/handler.c:401-422 | along any run the history and what each client was sent only grow, and a client's first block and channels never change |
| DaemonTheorems.BoundedLag | daemon/handler.c:159-203 | at most max_elems + 1 of the blocks published since a client became active are not fully written |
| DaemonTheorems.DroppedOnlyWhenFull | daemon/handler.c:408-412 | a handler gives up for want of space iff max_elems - 1 blocks are queued |
| DaemonTheorems.FlagIsCleared | daemon/handler.c:309-310 | a handler whose sender has ended finds `handler_running` cleared, and queues at most one block after the flag is cleared |
| Progress.DeadClientCostsOneCopy | daemon/handler.c:401-422 | in every continuation a client whose flag is cleared costs at most one more copy, and none if its handler is at the test of its loop |
| DaemonTheorems.PublishedIsAcquired | daemon/daemon.c:219-241 | the k-th published block has the size and the analog samples of the k-th reading of the hardware, and digital samples that are all zero |
| Inputs.PublishedIsDelivered | daemon/daemon.c:219-241 | in every run the k-th published block has the size of the k-th read and, at each index, the last sample the run's events delivered there before that read was done; and digital zeros |
| Inputs.RecordIsDelivered | daemon/daemon.c:219-226 | the record of deliveries and reads that the state carries is the one the run's events make |
| Inputs.ServedAsAsked | daemon/handler.c:367-382 | from the moment a handler accepts a request, its client is served the channels of that request |
| DaemonTheorems.NoTornCopy | daemon/handler.c:165-186 | while a handler is anywhere in its copy the acquisition thread is not between barrier and reset, and as long as the arrays are not freed the shared block is the last one published |
| DaemonTheorems.QueuedElementIsPublished | daemon/handler.c:165-188 | the element about to be queued is the next one of this client's run and equals exactly that published block, unless some of it was read from freed memory |
| DaemonTheorems.CopiesStayInBounds | daemon/handler.c:174-186 | the two copies read only inside the shared arrays, which exist as long as the daemon runs, and the count read before the lock was taken is that of the header copied under it |
| SharedArrays.FreeIsSafeIff | daemon/daemon.c:247-249 | when the acquisition thread has left its loop, no continuation lets a handler read a freed array iff no handler stands between its last test of `running` and the end of its second copy with something left to read |
| SharedArrays.FreeCanBeUnsafe | daemon/daemon.c:247-249 | a reachable state in which the thread has left its loop and some continuation does |
| SharedArrays.FailedReadIsSafe | daemon/daemon.c:219-223 | a failed read of the hardware ends the thread without that danger |
| SharedArrays.OpenBarrierIsSafe | daemon/daemon.c:213-217 | and so does every exit after the barrier was found open |
| DaemonTheorems.BytesOnTheWire | daemon/handler.c:390-408 | a connection's two threads write the greeting, then whole frames of the written blocks, then part of one frame, never interleaved |
| DaemonTheorems.ReportedIff | daemon/handler.c:118-147 | a sender counts a frame as written iff all of it is out and its length fits an `int`, and gives up otherwise |
| DaemonTheorems.AllocatedIsInUse | daemon/handler.c:174-186 | allocated and not yet freed are exactly the copy being made, with its digital array allocated last, the copy the sender uses and those queued, and after clean-up none |
| DaemonTheorems.FreedOnceAndNotInUse | daemon/handler.c:239-281 | no copy is freed twice, none while its sender may read it, and clean-up runs when the sender is done |
| DaemonTheorems.OpenBarrierAssertion | daemon/sync.c:191-203 | at the moment the barrier loop is left, its assertions hold if it is left by set equality, and so always while the daemon runs |
| Progress.AssertionsWillHoldIff | daemon/sync.c:182-203 | when the thread starts to wait, the assertions hold in every continuation up to the end of the call iff no handler is pending then |
| DaemonRuns.BarrierAssertionCanFail | daemon/sync.c:191-203 | a reachable state in which they fail: told to stop while a handler still has to copy |
| DaemonTheorems.ProtocolAssertions | daemon/sync.c:232-237 | the assertions of set_ready, of wait_data_available and of dec_available_handlers hold wherever they are reached before `main` frees the sets |
| DaemonTheorems.AlwaysAddressable | daemon/daemon.c:203-241 | the arrays every step addresses exist, with 30000 samples for each of 8 channels, so no run of the model ends for want of them |
| DaemonTheorems.RegistryConservation | daemon/sync.c:288-348 | until `main` frees the sets, whoever registered is alive, dead or taken by the reaper and one of these only, and all five sets hold the one record it registered with |
| DaemonTheorems.FreedRecordsAreOut | daemon/daemon.c:257-265 | a freed record is in none of the five sets, its thread has ended, and it is not freed again |
| DaemonTheorems.TakenOnce | daemon/sync.c:371-393 | the reaper takes a thread at most once |
| DaemonTheorems.ReaperRetiresIff | daemon/daemon.c:257 | the reaper returns iff the daemon has stopped and nobody is alive when it looks |
| Teardown.FinishIsSafeIff | daemon/daemon.c:391-404 | when `main` is about to free the sets, no continuation lets a thread use a freed set iff every handler was refused or has left the sets, or the cancelled reaper kept the set mutex |
| Teardown.HandlerCanLeaveIff | daemon/daemon.c:396-402 | a handler still alive then can come to leave the sets iff the cancelled reaper did not keep the set mutex |
| Teardown.FinishCanBeUnsafe | daemon/daemon.c:391-404 | a reachable state in which a freed set can be used: a client was connecting when the daemon stopped |
| Teardown.HandlerCanBeStuck | daemon/sync.c:378-381 | a reachable state in which a handler is alive and the reaper was cancelled in its wait |
| Teardown.UntilTheSetsAreFreed | daemon/daemon.c:391-404 | all runs of `main` are runs of the daemon model, nobody uses a freed set before the sets are freed, and by then acquisition thread and reaper have ended |
| DaemonTheorems.BlockTimestamps | daemon/daemon.c:228-241 | each published block carries the clock after it, and consecutive ones differ by the later block's duration |
| DaemonTheorems.ClientSeesEverySecond | checking_lab_client.sh:19-31 | when every read returns one second of samples, consecutive blocks a client is sent are stamped 1000000000 ns apart |
| DaemonTheorems.WrittenIsPublished | daemon/handler.c:401-422 | the i-th block written to a client is the i-th block offered to it |
| DaemonInvariant.StepKeepsInv | daemon/daemon.c:213-245 | every event of every thread keeps the invariant of the whole daemon, with what the hardware delivered in the arrays |
| DaemonInvariant.RunKeepsInv | daemon/daemon.c:213-245 | the invariant holds in every state of every run |
| HandlerInvariant.HandlerStepKeepsInv | daemon/handler.c:313-444 | every step of a handler keeps what is said about its connection, with at most one copy after `handler_running` is cleared |
| HandlerInvariant.SenderStepKeepsInv | daemon/handler.c:285-311 | every step of a sender keeps what is said about its connection, with `handler_running` cleared when it has ended |
| Progress.NeverWedged | daemon/sync.c:191-200 | while the acquisition thread waits, some handler is pending and every pending handler has an enabled step |
| Progress.BarrierRankDrops | daemon/sync.c:306-348 | the rank of the barrier never rises before the next reset and drops with every step of a pending handler, also of one that leaves on ENOBUFS |
| Progress.RankZeroIffOpen | daemon/sync.c:191-200 | the rank is zero iff the barrier is open |
| Progress.PendingStepsBounded | daemon/handler.c:401-426 | between two resets, under any schedule, the pending handlers take no more steps than the rank said |
| Progress.BarrierOpens | daemon/sync.c:191-200 | once the pending handlers have taken as many steps as the rank said, the barrier is open |
| Progress.HandlerGoesOnIff | daemon/handler.c:401-438 | a handler has an enabled step except while it waits for a block or for its sender to end |
| Progress.SenderGoesOnIff | daemon/handler.c:227-234 | a sender has one except while it waits, in a running daemon, for an element or for the queue |
| Progress.SenderCanSend | daemon/handler.c:118-142 | in the middle of a frame it can write any part of what is left |
| Progress.ReaderGoesOnIff | daemon/daemon.c:213-251 | the acquisition thread has one except at a closed barrier |
| Progress.ReaperGoesOnIff | daemon/daemon.c:257-265 | the reaper has one except while it waits for a handler to die or to end |
| Descriptors.AcceptIsSafeIff | daemon/handler.c:424-438 | a connection can be accepted without bytes going astray, in all continuations with clear numbers, iff its number is not one through which a closed connection's sender will still write |
| Descriptors.ArrivedIsWritten | daemon/handler.c:424-438 | as long as all numbers are clear, every connection receives exactly what its own threads wrote |
| Descriptors.AcceptCanBeUnsafe | daemon/handler.c:408-438 | a reachable state of the running daemon in which an accepted number is not clear: a slow client was dropped for want of space while its sender was in the middle of a frame |
| LockOrder.NeverRelocks | daemon/handler.c:156-211 | no thread waits for a mutex it holds; who waits holds at most a queue's mutex, and then waits for the shared block's |
| LockOrder.NoCircularWait | daemon/handler.c:156-211 | no chain of threads waiting for each other closes |
| LockOrder.SomeoneCanRun | daemon/sync.c:211-243 | when a thread waits for a mutex, some thread has an enabled step, unless the owner was cancelled in its wait |
| LockOrder.WaitCanEndIff | daemon/sync.c:371-381 | the mutex a thread waits for can come free iff its owner was not cancelled in wait_dead_handler |
| LockOrder.WaitCanBeEndless | daemon/sync.c:371-381 | a reachable state in which it was |
| LockOrder.ScriptsAreDisciplined | daemon/sync.c:182-393 | every function that takes a mutex keeps the order, however often it waits |
| LockOrder.ScriptsUse | daemon/handler.c:156-211 | every such function uses what it is there for between taking and giving back the mutex that guards it; copy_to_buffer copies the header under the mutex of the block |
| LockOrder.ExclusiveAccess | daemon/handler.c:168-172 | no two threads use the sets, the header or one client's window at the same time |
| HandlerSets.BarrierOpenMeansNonePending | daemon/sync.c:61-63 | done equals active iff nobody is pending |
| HandlerSets.RegisterKeepsInv | daemon/sync.c:288-304 | registering keeps the set invariant and does not close or open the barrier |
| HandlerSets.ReadyKeepsInv | daemon/sync.c:224-243 | reporting ready keeps it and moves the thread from pending to done |
| HandlerSets.LeaveKeepsInv | daemon/sync.c:306-348 | leaving keeps it and moves the record from all sets to dead |
| HandlerSets.ResetKeepsInv | daemon/sync.c:350-369 | a reset leaves pending = active = alive and done empty |
| HandlerSets.TakeKeepsInv | daemon/sync.c:371-393 | taking a dead handler keeps it |
| Registry.HandlerRegistry.constructor | daemon/sync.c:95-113 | the sets start empty |
| Registry.HandlerRegistry.BarrierTest | daemon/sync.c:191-192 | the loop's comparison of done and active is true iff pending is empty |
| Registry.HandlerRegistry.DataAvailable | daemon/sync.c:254-255 | a handler may copy iff it is active and not done |
| Registry.HandlerRegistry.SetReady | daemon/sync.c:224-243 | the object's new sets are those of `HandlerSets.Ready` |
| Registry.HandlerRegistry.IncAvailableHandlers | daemon/sync.c:288-304 | the thread is alive with a record nobody else has |
| Registry.HandlerRegistry.DecAvailableHandlers | daemon/sync.c:306-348 | the thread is dead with the record it had, in no other set, and the four look-ups agree |
| Registry.HandlerRegistry.ResetReadyHandlers | daemon/sync.c:350-369 | pending, active and alive are equal afterwards, done is empty |
| Registry.HandlerRegistry.TakeDeadHandler | daemon/sync.c:371-393 | some dead thread and its record, which is in no set afterwards |
| SampleQueue.SampleBuffer.CopyToBuffer | daemon/handler.c:152-214 | an element is accepted iff count + 1 < max_elems wherever the window starts, contents and order are kept, the new element has the header and the samples of the shared block one by one, and the loop compacts at most once |
| SampleQueue.SampleBuffer.MoveToFront | daemon/handler.c:192-198 | the overlapping move keeps the window |
| SampleQueue.SampleBuffer.Enqueue | daemon/handler.c:165-188 | the queue is the old one followed by the shared block, header and samples one by one, in arrays of its own |
| SampleQueue.SampleBuffer.TakeFirst | daemon/handler.c:239-243 | the oldest element leaves the queue and stays allocated |
| SampleQueue.SampleBuffer.Release | daemon/handler.c:253-254 | exactly the two arrays of the element sent are freed |
| SampleQueue.SampleBuffer.FreeBuffer | daemon/handler.c:259-281 | exactly the arrays of the queued elements are freed, each once, whatever stale pointers lie outside the window |
| SampleQueue.OwnsRotated | daemon/handler.c:241-243 | the first element of the window can be the one in flight: who owns which array is unchanged |
| SampleQueue.OwnsInsert | daemon/handler.c:165-188 | a new element behind the window owns its arrays alone |
| Fifo.PlayConserves | daemon/handler.c:159-205 | for every list of operations, what was taken followed by what is queued is what was accepted, and never more than max_elems - 1 are queued |
| EndToEnd.WriteBufElement | daemon/handler.c:239-256 | the oldest element leaves the queue, its frame for the chosen channels goes out, its arrays are freed, and the result is not 0 |
| EndToEnd.ClientReadsPublishedBlocks | client/pmlabclient.c:160-181 | in every state reachable with clear descriptor numbers, a client that reads what has arrived gets the sampling rate and one payload per delivered block, packed from consecutive published blocks |
| EndToEnd.ClientGetsPublishedSamples | client/pmlabclient.c:183-193 | the i-th data set read from what has arrived carries timestamp and every chosen sample of the i-th published block offered to the client |
| EndToEnd.ClientGetsAcquiredSamples | daemon/daemon.c:219-241 | the i-th data set carries, for every sample of every chosen channel, the value the hardware delivered for it in the reading behind the i-th block offered, and digital zeros |
| EndToEnd.ProjectionCarries | daemon/handler.c:99-105 | selecting and flattening channels puts every sample where the client looks for it |
| EndToEnd.WireIsFrames | daemon/handler.c:394-408 | behind the greeting are whole frames and then what reads as the end of the stream |
| Transfer.FullWrite | common/utils.c:28-49 | under every schedule of short writes, interruptions and failures, the bytes written are the first ones of the buffer, once each and in order |
| Transfer.FullRead | common/utils.c:51-74 | the same for reading; the buffer beyond what was read is untouched, and 0 means the stream ended or nothing was asked for |
| Transfer.WritingCompletes | common/utils.c:28-49 | if no call fails, a write moves all bytes and leaves a schedule in which none fails |
| Transfer.WritingCompletesIff | common/utils.c:28-49 | a write completes iff none of the calls it consumes fails |
| Transfer.ReadingCompletesIff | common/utils.c:51-74 | without a failing call a read completes iff the stream is long enough, and reports its end iff not |
| Transfer.AnyOutcome | common/utils.c:32-35 | a call can move any number of bytes it is asked for, be interrupted or fail |
| Framing.WriteFrame | daemon/handler.c:110-147 | a frame goes out up to where a call fails; the result is positive iff all of it is out and its length fits an `int`, and never 0 |
| Framing.ReadFrame | client/libpmlab.c:151-173 | what pm_read takes off the stream under every schedule, in the cases end of stream, frame and failed assertion |
| Framing.FrameRoundTripIff | client/libpmlab.c:151-173 | a frame is read back, and exactly that frame consumed, iff its payload is not empty |
| Framing.BadIff | client/libpmlab.c:157 | the client rejects a stream iff 21 bytes are there and are not the magic |
| Framing.PartOfFrameIsEnd | client/libpmlab.c:151-173 | a frame cut anywhere reads as the end of the stream |
| Framing.FramesRoundTrip | daemon/handler.c:118-142 | any list of deliverable payloads is read back in order and nothing else, and the stream is left where the frames end |
| Framing.ReadAll | client/pmlabclient.c:163-177 | the reading loop returns those payloads under every schedule, and its last call uses up only what is not a frame |
| Framing.Conversation | daemon/handler.c:118-142 | the writing loop and the reading loop together return the payloads, for every pair of schedules |
| Wire.NetworkOrderRoundTrip | daemon/handler.c:111 | conversion to network order and back is the identity on 32 bits |
| Wire.BytesRoundTrip | client/libpmlab.c:165 | and the other way round on four bytes |
| Wire.NetworkOrderSorts | client/libpmlab.c:165 | the most significant byte comes first: numbers are ordered as their four bytes are |
| Wire.MagicBytes | common/common.h:24-25 | the bytes of the magic and of the welcome message |
| Wire.FrameLayout | daemon/handler.c:118-142 | magic, length and payload stand where the client looks for them |
| Wire.GreetingLayout | daemon/handler.c:394-399 | the welcome message, then the rate |
| Wire.FramesAppend | daemon/handler.c:118-142 | one more frame at the end of a stream is one more payload |
| Handshake.SendRequest | client/libpmlab.c:94-105 | the client writes its channel count and its channels up to where a call fails, and goes on iff the count is out |
| Handshake.ReceiveRequest | daemon/handler.c:334-376 | under every schedule the daemon accepts iff the request is complete, short enough and names known channels |
| Handshake.CheckChannels | daemon/handler.c:367-376 | the loop converts all numbers and accepts iff all are known |
| Handshake.SendGreeting | daemon/handler.c:394-399 | the two assertions that would end the daemon hold iff both writes complete under the calls to come, and then the whole greeting is out, else less than all of it |
| Handshake.GreetingGoesOutIff | daemon/handler.c:394-399 | both writes complete iff none of the calls they consume fails |
| Handshake.RequestRoundTripIff | daemon/handler.c:344-376 | the daemon gets exactly the channels sent, or refuses, and refuses iff there are too many or an unknown one |
| Handshake.PartOfRequestIsRefused | daemon/handler.c:334-365 | a request cut anywhere is refused |
| Handshake.RequestLayout | client/libpmlab.c:94-105 | the count, then each channel in four bytes, in order |
| Handshake.AcceptIffParsed | daemon/handler.c:344-376 | in the transition system a handler can accept exactly the channel lists that are read from some request: at most eight, all of them known |
| Handshake.ReceiveGreeting | client/libpmlab.c:107-124 | the client gets a handle iff the whole greeting arrives |
| Handshake.GreetingRoundTrip | client/libpmlab.c:107-124 | the client learns the daemon's rate and is left at the first frame |
| Handshake.PartOfGreetingIsNoHandle | client/libpmlab.c:107-116 | a greeting cut anywhere gives no handle |
| Channels.EncodeDataSet | daemon/handler.c:97-108 | one run of samples per chosen channel, within the arrays and without wrap-around of the offset |
| Channels.Flatten | client/libpmlab.c:178-201 | the unpacking loop completes iff the data set fits and its channels agree, and then each buffer holds, index by index, all channels one after the other and behind them what it held before |
| Channels.UnpackProjection | client/libpmlab.c:178-201 | for a data set of the daemon, sample k of the j-th chosen channel stands at k + j * n of the client's buffer, and behind all channels nothing has changed |
| Channels.FlattenableIff | client/libpmlab.c:182-200 | the loop's assertions let through exactly channels of one length behind any number of empty ones, if they fit |
| Channels.ClientSampleIsDaemonSample | client/pmlabclient.c:184-190 | sample k of the j-th chosen channel, at k + j * n of the client's buffer, is sample channel_ids[j] * n + k of the daemon's block |
| Channels.ProjectionFlattenableIff | client/libpmlab.c:184 | a client takes a data set of the daemon iff all chosen channels fit its buffer |
| Timestamps.Accumulate | daemon/daemon.c:213-230 | the timestamps of the loop are the clock after each block |
| Timestamps.DriftBound | daemon/daemon.c:228-230 | after k blocks the clock is behind by at most k * (rate - 1) parts of a nanosecond, and never ahead |
| DaemonTheorems.StampDrift | daemon/daemon.c:228-241 | the stamp of a published block is behind its samples by at most rate - 1 parts of a nanosecond for each block so far, and never ahead, while the sum fits in 64 bits |
| Timestamps.NoDriftIff | daemon/daemon.c:228-230 | there is no drift iff every block lasts a whole number of nanoseconds |
| Timestamps.ClockIsExactModulo | daemon/daemon.c:205-230 | the 64-bit clock is the unbounded sum modulo 2^64 |
| Timestamps.TimestampsNeverDecrease | daemon/daemon.c:228-234 | timestamps never decrease while the sum fits in 64 bits |
| Resampler.Averager.AverageInterval | client/realtime.py:29-43 | one call fails iff the input does not reach the end of the interval; else it returns the area under the signal divided by the size, for as many channels as every line read has, all of them if no line is too short, and leaves the input that is not used up |
| Resampler.Averager.SumOfIntervals | client/realtime.py:98-99 | n calls, each result multiplied by the size, add up to the area of the one long interval, for all channels its lines have, with the same input left and the next interval starting where that one ends |
| Resampler.SplitKeepsArea | client/realtime.py:29-43 | splitting an interval into n keeps every channel's area and the input left, also when the input runs out and when lines are too short |
| Resampler.AreaSplits | client/realtime.py:35-42 | an area up to a later end is the area up to any point before it and from there on |
| Resampler.AverageInRange | client/realtime.py:29-43 | when the times read for an interval do not go back and every line read has a channel, there is an average for it, between the smallest and the largest value that contributes |
| Resampler.AverageForEveryChannel | client/realtime.py:29-43 | when no line read is too short, there are as many averages as channels |
| Resampler.AreaWidth | client/realtime.py:37-42 | an area has exactly as many channels as the sums and all lines read have |
| Resampler.AreaReaches | client/realtime.py:35-39 | there is an area iff some line reaches its end |

## Left out

Assumptions of the model:

- Memory is sequentially consistent and the two `volatile` flags are atomic; a data race in the sense of the C standard is not modelled.
- Critical sections are single events in `Daemon`; that taking the mutexes cannot block for ever is the subject of `LockOrder`, which has no data.
- A timed wait is the test it repeats; spurious wake-ups and time-outs are events that change nothing, and are left out.
- Thread ids are not reused before a thread is joined.  A handler is its id, and a thread that is given the id of a joined one counts as a new one with a new name; the hash sets of the PBL library are maps from thread to record, and records are numbered in the order of allocation.
- Reading a freed array yields some value and does nothing else; C promises less, so of runs with a `spoiled` handler nothing should be concluded about the program.
- The assertions of the source do not end a run: with assertions on, a shutdown noticed at the barrier with a handler pending ends the process, so `FreeIsSafeIff` also speaks of states reached with assertions off; the run of `FreeCanBeUnsafe` fails no assertion.
- Allocation does not fail, and neither do the pthread calls.
- A read of the hardware returns any block that fits the arrays, or fails; NI-DAQmx and the dummy reader are not part of this model.
- The shared block has eight channels before anything is published.  The source reads an uninitialised number there (`daemon/handler.c:369`), so this assumes a first publication before the first handshake.
- A client whose greeting cannot be written ends the daemon through an assertion (`daemon/handler.c:395`).  `Handshake.SendGreeting` says when; the transition system has no such event, its runs are those in which no greeting fails.
- A call that transfers moves at least one byte: write(2) returning 0 for a non-empty buffer, which the source asserts does not happen, is not modelled.
- EndToEnd.ClientGetsPublishedSamples: assumes of the generated protobuf code, which is a pair of functions here, that it unpacks what it packs into non-empty payloads below 2 GiB.
- Of the packed payloads `ClientReadsPublishedBlocks` assumes only that they are non-empty and below 2 GiB.

Weaker than one might expect:

- DaemonTheorems.BytesOnTheWire: is about the bytes the two threads write through their descriptor; that they arrive on that connection, and only there, needs the condition of `Descriptors.AcceptIsSafeIff`.
- EndToEnd.ClientReadsPublishedBlocks: holds for runs in which every accepted descriptor number is clear in that sense; without it nothing is promised about what arrives.
- Progress.PendingStepsBounded: handshake I/O of a registered client counts as enabled, so a client that does not read its greeting can hold the barrier up; that they do take those steps is fairness of the scheduler, and `BarrierOpens` has it as a premise.
- Handler termination is not claimed: the sender's wait at `daemon/handler.c:227` does not look at `handler_running`, so the join at `daemon/handler.c:434` may last until the daemon stops.
- SampleQueue.SampleBuffer.CopyToBuffer: copies the block in one go; that nobody changes the block meanwhile is proved in `Daemon`, where every element is a step of its own.

Not modelled:

- The lifetime of the shared header on the stack of `main`, and what a thread does after it has used a freed set: C gives such a run no meaning, the model only remembers that it happened.
- Socket set-up, accept, polling, name lookup, `pm_close` and all printing.
- `abs_wait_timeout` and `parse_channels`.
- Rounding: samples are uninterpreted 64-bit patterns in the daemon and the client, reals in the resampler.  Digital samples are booleans, which is all the wire format carries.
- In `realtime.py`, parsing of a line, the drawing loop, scaling and mouse handling.
- Shell, R and gnuplot scripts beyond the property the checking script looks for.
