# QuiltDB: a verified model

QuiltDB keeps one key/value table per node and propagates increments around a ring. An increment is applied to the local
table at once and logged to the node's propagator thread. When the propagator's timer fires, it packs everything
accumulated since the last firing into an update buffer, tells its own receiver thread about the node's own part, and sends
the buffer to the next node. A receiver subtracts its own updates when they come back, adds everybody else's to the table
and hands the buffer to its propagator, which merges it into the next flush.

This project models that protocol and proves what it is for. Every theorem about the ring, the shutdown and the handshake
holds for any number of nodes and any interleaving of their threads.

| files | what they hold |
|---|---|
| `Int32`, `Messages`, `Sums` | values with wrap-around addition, ranges, buffers; sums of logged deltas |
| `ThreadSpec`, `Threads` | what one message does to a propagator and to a receiver: as functions, and as classes whose methods change their fields and are proved against the functions |
| `Ring`, `Invariant`, `RingSteps`, `RingReceive`, `RingTheorems` | the ring as a state machine, its invariant, one preservation proof per step, and the safety theorems |
| `Meaning`, `OwnBatches`, `Convergence` | what every buffer holds; the queue of own batches; the measure, rest and agreement of all tables |
| `HandlerLaws`, `Enabled` | what each handler does key by key and origin by origin, in any state; when each step of the ring can be taken |
| `Dedup`, `ShippedRun`, `HoleRun` | the loop that cancels own updates, repaired and shipped, on any queue, and which of its checks fails first; runs on which the shipped code aborts, keeps a batch queued, or counts an increment twice |
| `Stopping` | the ring while its threads terminate one by one, in any order, and what a stopped thread still does |
| `Shutdown`, `ShutdownInvariant`, `ShutdownTheorems`, `Traffic`, `History`, `TerminationThreads`, `Load` | the termination protocol over any topology with at most one downstream per node, its safety and liveness, the conservation of the traffic while it runs, what each flag records, and its handlers as classes |
| `Handshake` | the four-step start over a publish channel that loses messages until a subscription takes effect |
| `Bytes`, `Search`, `Slots`, `Layout`, `UpdateBuffer`, `Packing`, `PackedReceive` | the update buffer as a block of bytes addressed by offsets, and its refinement of the ring's buffers: packing, merging, and a receiver's whole handler on bytes |
| `Slices`, `Matrix` | column slices of a compressed sparse row matrix and the cuts that define them |

## Shipped and repaired

The code departs from its own stated intent in five places. Each is modelled as it is, with the exact condition under which
it works, and the protocol theorems use the repair named here.

* `src/quiltdb/comm/receiver.cpp:426-436` drops a buffer that names only its receiver before the own batches are popped
  (462-503), though `receiver.hpp:94-96` asks for them to be destroyed. Repair: cancel first, then drop.
* `src/quiltdb/comm/receiver.cpp:475-476` and 503 look for the next own batch at the end of the last one; the propagator
  starts it one later (`propagator.cpp:588`). Repair: look one past the end, and go on while that is inside the received range.
  Together: `Dedup.ShippedReceiver`, `OwnBatches.ShippedAgrees` and, for whole runs, `OwnBatches.ShippedRunAgrees` say exactly
  when the shipped receiver is right, and `Dedup.LoopDecides` which check fails first when it is not.
  `ShippedRun.DroppedBatchStays` is a run after which the first has left a batch queued, `ShippedRun.DropThenAbort` continues it
  to the abort this leads to, `ShippedRun.ShippedAborts` is one on which the second aborts.
* `src/quiltdb/comm/receiver.cpp:339-357` lacks an exit check. Repair: the check made elsewhere. `ShutdownTheorems.ShutdownCompletes`
  says exactly when the shipped receiver terminates, `ShutdownTheorems.ShippedHangs` shows, on a chain of two nodes,
  that it may not.
* `src/quiltdb/utils/memstruct.cpp:286` guards the skipping of free slots by a condition the line before has excluded, so the
  node-range iterator stops at the first hole. Repair: skip while inside the table, testing the bound before each read.
  `Slots.ShippedComplete` and `Slots.DeletionHides` say exactly when the shipped iterator misses nothing, `HoleRun.ForwardSeenAgrees`
  what that means for the merge in the ring, and `HoleRun.CountedTwice` is a run on which an increment is counted twice.
* `src/quiltdb/comm/propagator.cpp:485` and 832 erase from a map while iterating over it; modelled as draining the map.

Two smaller ones carry no repair. `Slices.SliceAgain`: a slice counts its columns from its own start but keeps the global column
range, so slicing a slice is right only when that start is zero. And `Init` zeroes one offset per row, so a slice without rows
leaves even its first offset unset.

## Assumptions

Tables do not interact, so one is modelled; node ids are positions in the ring. `loop_`, `forward_updates_` and
`apply_updates_` are on and the batching interval is positive. C++ leaves signed overflow undefined; values and sizes wrap in
two's complement here. Keys fit 32 bits because `Propagator::Inc` narrows them (`Ring.FitsKey`). Channels are reliable and first
in, first out, one per sender; threads interleave between messages; the timer may fire at any moment its propagator is
waiting for messages. The order in which a hash map is walked is left open. In the ring a buffer is a map from keys to deltas and
a map from origins to ranges; `Packing` proves that packing such a buffer into bytes, copying them and reading them back does to
the next propagator exactly what the ring's step says, and `PackedReceive` the same of a receiver's handler.

The ring's theorems assume running threads; `Stopping.StoppingIsSafe` carries them over to rings whose threads terminate at any
moment. The shutdown protocol is proved with the update traffic left open. Its liveness needs no assumption about traffic once
every receiver has been told to terminate (`ShutdownTheorems.SignalledRunsEnd`). Before that it is stated for runs along which
no running receiver passes on as much load as it took: true of a ring, where an update stops at its origin (`Load`), and not
of every topology, since an update that enters a cycle of nodes its origin is not on is never taken out.

A theorem that requires an invariant `Inv` holds in every reachable state: `StartKeeps` and `RunKeeps` beside it establish that.

## Model

| member | source | states |
|---|---|---|
| `Int32.AdditionAssociates` | `apps/helloworld/helloworld.cpp:14-22` | 32-bit addition of table values is associative, for all inputs, wrap-around included |
| `Int32.AdditionCommutes` | `apps/helloworld/helloworld.cpp:14-22` | it is commutative and the all-zero value, from which every delta starts, is its identity |
| `Int32.SubtractionUndoes` | `apps/helloworld/helloworld.cpp:24-32` | the table's subtract function undoes its add function and the other way round, so cancelling is exact |
| `Threads.InternalTable.IncRaw` | `src/quiltdb/internal_table/internal_table.cpp:32-47` | exactly one key changes, by the delta, a missing key counting as zero |
| `Threads.InternalTable.Read` | `src/quiltdb/internal_table/internal_table.hpp:100-122` | reading may create its key but no reader can tell: every key reads as before |
| `Threads.Propagator.AddUpdate` | `src/quiltdb/comm/propagator.cpp:177-190` | the store changes at one key only, by the delta |
| `Threads.Propagator.OnUpdateLog` | `src/quiltdb/comm/propagator.cpp:647-698` | while running, a logged increment takes the next sequence number and enters the store and the own store alike; afterwards it is ignored |
| `Threads.Propagator.MergeRanges` | `src/quiltdb/comm/propagator.cpp:737-763` | range by range in any order, the result is the pointwise extension, and the abort happens exactly when some range does not continue what is held |
| `Threads.Propagator.OnUpdateBuffer` | `src/quiltdb/comm/propagator.cpp:722-765` | while running, the whole handler refines the ring's merge step, result and failure alike; afterwards the buffer is ignored |
| `Threads.Propagator.OnTimer` | `src/quiltdb/comm/propagator.cpp:462-609` | the flush refines the ring's timer step: what is sent, what is recorded first, what stays pending |
| `Threads.Propagator.Terminate` | `src/quiltdb/comm/propagator.cpp:783-834` | the store is emptied entry by entry, the own store and every range stay as they are, and nothing is absorbed any more |
| `Threads.Receiver.OnMyUpdates` | `src/quiltdb/comm/receiver.cpp:284-309` | while running, an own batch goes to the back of the queue; afterwards it is destroyed; the table is untouched |
| `Threads.Receiver.SubtractBatch` | `src/quiltdb/comm/receiver.cpp:487-501` | all keys of the batch are subtracted and no other changes; it fails exactly when a key is missing from the buffer |
| `Threads.Receiver.Cancel` | `src/quiltdb/comm/receiver.cpp:461-505` | the repaired loop, with its in-place subtraction and popping, computes the cancelled buffer and the queue that is left, or the first check that fails |
| `Threads.Receiver.CancelShipped` | `src/quiltdb/comm/receiver.cpp:461-505` | the same of the loop as shipped; `Dedup.LoopDecides` says of both which check that is, and when |
| `Threads.Receiver.OnUpdateBuffer` | `src/quiltdb/comm/receiver.cpp:409-546` | while running, the repaired handler refines the ring's receive step: cancel, then drop, or forward and apply; afterwards the buffer is ignored |
| `Threads.Receiver.OnUpdateBufferShipped` | `src/quiltdb/comm/receiver.cpp:409-546` | the handler as shipped, which looks for another node's range first, with the same test of the state |
| `Threads.Receiver.Terminate` | `src/quiltdb/comm/receiver.cpp:311-333` | the queue of own batches is emptied, the table is untouched, and nothing is taken any more |
| `HandlerLaws.LogLaw` | `src/quiltdb/comm/propagator.cpp:647-698` | an absorbed increment adds its delta at its key to the store and to the own store, no other key reads differently, and the own range ends one later |
| `HandlerLaws.MergeLaw` | `src/quiltdb/comm/propagator.cpp:722-765` | for any set of ranges that the iteration reaches: the merge aborts if and only if a reached range does not start one past the held one; else every key reads the wrapped sum of the store and the buffer, reached or not, each reached origin is extended or begun, and no other changes |
| `HandlerLaws.FlushLaw` | `src/quiltdb/comm/propagator.cpp:462-609` | an empty store flushes nothing; a flush aborts if and only if there are own updates without an own range; else the whole store leaves under exactly the non-empty ranges, which become empty just past their ends, and own updates go to the receiver first, alone under the own range |
| `HandlerLaws.RecordLaw` | `src/quiltdb/comm/receiver.cpp:284-309` | the queue keeps every batch in order and the new one is last |
| `HandlerLaws.ReceiveLaw` | `src/quiltdb/comm/receiver.cpp:409-546` | repaired and shipped, for any state and buffer: when it is dropped, when cancelled first, when the loop's abort is the handler's, and that what is left is both applied, key by key, and forwarded under the other nodes' ranges |
| `Dedup.RepairedLoop` | `src/quiltdb/comm/receiver.cpp:461-505` | on any queue of batches with own ranges the repaired loop succeeds if and only if some queue prefix concatenates to the received range and has its keys in the buffer; it then pops exactly that prefix and subtracts exactly it |
| `Dedup.SubEachGet` | `src/quiltdb/comm/receiver.cpp:493-501` | what cancelling subtracts at a key is the sum of the popped batches' deltas there; other keys keep their value, and no key disappears |
| `Dedup.ShippedLoop` | `src/quiltdb/comm/receiver.cpp:461-503` | on consecutive batches the shipped loop passes its checks if and only if the front batch alone is the received range with its keys in the buffer, and then agrees with the repaired one |
| `Dedup.ShippedReceiver` | `src/quiltdb/comm/receiver.cpp:426-505` | the shipped receiver does what the repaired one does if and only if the buffer does not name it, or names somebody else as well and carries exactly its front batch |
| `Dedup.LoopDecides` | `src/quiltdb/comm/receiver.cpp:464-502` | for any queue and buffer, repaired and shipped: each of the five aborts happens if and only if, after turns that pass, that check is the first to fail, in the order empty queue, own range missing, not contained, out of order, key missing; the loop succeeds if and only if some turn uses up the range, and then pops and subtracts the batches up to it |
| `RingTheorems.StartKeeps` | `src/quiltdb/include/quiltdb.cpp:88-147` | a freshly started ring of any size satisfies the invariant |
| `RingSteps.IncKeeps` | `src/quiltdb/internal_table/internal_table.hpp:124-130` | applying an increment locally and queueing it for the propagator keeps the invariant: the table already counts what is not yet logged; that it can always be done is `Enabled.CanIncrement` |
| `RingSteps.LogKeeps` | `src/quiltdb/comm/propagator.cpp:647-698` | absorbing an increment keeps it, whichever application thread's increment comes first |
| `RingSteps.TimerKeeps` | `src/quiltdb/comm/propagator.cpp:462-609` | a flush never takes its fatal branch and keeps it: what leaves the store is what its ranges name |
| `RingSteps.RecordKeeps` | `src/quiltdb/comm/receiver.cpp:284-309` | recording and acknowledging an own batch keeps it |
| `RingSteps.SendKeeps` | `src/quiltdb/comm/propagator.cpp:568-609` | sending the buffer after the acknowledgement keeps it |
| `RingReceive.ReceiveKeeps` | `src/quiltdb/comm/receiver.cpp:409-546` | handling a buffer from upstream passes every check and keeps it (repaired) |
| `RingSteps.ForwardKeeps` | `src/quiltdb/comm/propagator.cpp:722-765` | merging a forwarded buffer passes the contiguity check and keeps it |
| `Enabled.CanIncrement` | `src/quiltdb/internal_table/internal_table.hpp:124-130` | in every reachable state every thread of every node can increment every 32-bit key, whatever its propagator is doing: that value grows by the delta, no other value of any node changes, and the increment is last in the queue |
| `Enabled.WideKeysStop` | `src/quiltdb/comm/propagator.hpp:135` | no key outside 32 bits is taken, and every other one is |
| `Enabled.ReadsWhatArrives` | `src/quiltdb/comm/propagator.cpp:568-585` | every step of a node but an increment, if and only if: its message has arrived, its thread is not waiting for an acknowledgement (or that is the message), and, for an increment, none of the same thread is ahead |
| `Enabled.OthersUntouched` | `src/quiltdb/comm/propagator.cpp:600-601` | a step changes its own node only; of the wires, the downstream one may grow by one buffer at its end, and the one read loses its oldest |
| `Enabled.HistoryRecords` | `src/quiltdb/comm/propagator.cpp:588-601` | what the theorems' history variables stand for: a log is what its propagator has read, in order; the cuts are where flushes with own updates ended; delivered is how far the received ranges have come |
| `RingTheorems.NoCheckFails` | `src/quiltdb/comm/propagator.cpp:746-760` | no run of any ring fails a contiguity, containment, order, missing-key or empty-range check, nor reads the front of an empty queue |
| `RingTheorems.ExactlyOnce` | `src/quiltdb/comm/receiver.cpp:421-541` | in every reachable state a node's value is the sum of all increments its own application issued plus, for every other origin, a prefix of that origin's log: none lost, doubled or reordered past the prefix |
| `RingTheorems.Pipeline` | `src/quiltdb/comm/propagator.cpp:487-511` | an origin's ranges, read once round the ring from the last hop to its own pending range, are contiguous, disjoint and cover exactly what is logged and not yet back |
| `Meaning.BuffersMean` | `src/quiltdb/comm/propagator.cpp:474-511` | every buffer in any channel holds, per key, exactly the sum of the logged deltas its ranges name, and each range is a whole number of sent batches: it starts where the log or a batch starts and ends where a batch ends |
| `Meaning.StoreMeans` | `src/quiltdb/comm/propagator.cpp:465-566` | the same of a store; own keys are store keys, own updates exist exactly when the own range is not empty, a node is never its own peer, and a non-empty store has a non-empty range |
| `Meaning.ResidueIsZero` | `src/quiltdb/comm/receiver.cpp:426-436` | a buffer that names only its receiver is zero at every key once the batches are subtracted, so the drop loses nothing |
| `OwnBatches.OwnQueue` | `src/quiltdb/comm/receiver.cpp:284-309` | the queue and the batch on its way to it are exactly the own batches sent or held and not yet back, in order |
| `OwnBatches.RecordedBeforeSent` | `src/quiltdb/comm/propagator.cpp:568-601` | wherever an own range is on a wire, the batch it ends with is already in its origin's queue |
| `OwnBatches.OwnRangeReturns` | `src/quiltdb/comm/receiver.cpp:450-505` | when an own range returns the queue is not empty, its front starts where the range starts and is contained in it, and a queue prefix makes up the range with every key present |
| `OwnBatches.ShippedAgrees` | `src/quiltdb/comm/receiver.cpp:426-505` | in every reachable state the shipped receiver's step equals the repaired one's if and only if the buffer does not name it, or names somebody else as well and carries exactly its oldest batch |
| `OwnBatches.ShippedRunAgrees` | `src/quiltdb/comm/receiver.cpp:426-505` | a run along which that condition holds at every receive is the same shipped and repaired, from any reachable state |
| `ShippedRun.ShippedAborts` | `src/quiltdb/comm/receiver.cpp:475-476` | a concrete two-node run, two flushes merged by the neighbour, on which the shipped order check aborts |
| `ShippedRun.DroppedBatchStays` | `src/quiltdb/comm/receiver.cpp:426-436` | a concrete run after which the buffer is gone and its batch is still queued, where the repaired receiver's queue is empty |
| `ShippedRun.DropThenAbort` | `src/quiltdb/comm/receiver.cpp:473-474` | a concrete two-node run: an early drop leaves its batch queued, and the next own range to return aborts as not contained |
| `HoleRun.ForwardSeenAgrees` | `src/quiltdb/comm/propagator.cpp:737-763` | in every reachable state, merging a forwarded buffer when only some of its ranges are reached is right if and only if all of them are; what it does otherwise is `HandlerLaws.MergeLaw` |
| `HoleRun.CountedTwice` | `src/quiltdb/utils/memstruct.cpp:286` | a concrete two-node run with the shipped iterator after which a node reads four where three increments were issued |
| `Stopping.Follows` | `src/quiltdb/comm/propagator.cpp:667-834` | every run of a ring whose propagators and receivers stop at any time follows a run of the plain ring, step for step, with the same increments issued |
| `Stopping.StoppingIsSafe` | `src/quiltdb/comm/receiver.cpp:296-546` | so no check fails while some threads terminate and others still propagate, and a node still reads all its own increments and a prefix of every other origin's |
| `Stopping.StoppedReads` | `src/quiltdb/comm/propagator.cpp:667-669` | a signal is taken once, by a propagator not while it waits; a stopped thread reads a message if and only if one has arrived, and a stopped propagator has no flush |
| `Stopping.StoppingDrops` | `src/quiltdb/comm/propagator.cpp:783-834` | stopping drops the store, or the queue of own batches, and nothing else anywhere |
| `Stopping.PropStaysOff` | `src/quiltdb/comm/propagator.cpp:667-765` | a step of the ring leaves a stopped propagator as it is and never puts anything on its wire; each message is read in its turn |
| `Stopping.RecvStaysOff` | `src/quiltdb/comm/receiver.cpp:284-421` | a stopped receiver acknowledges every own batch and keeps none, passes nothing on, and its table changes only by the node's own increments |
| `Stopping.StoppedForever` | `src/quiltdb/comm/propagator.cpp:783-834` | so in every run a stopped propagator's store and a stopped receiver's queue are empty, then and ever after |
| `Convergence.StepFalls` | `src/quiltdb/comm/propagator.cpp:462-467` | once increments stop, every step lowers a measure of the cursors each increment has still to pass |
| `Convergence.RunsEnd` | `src/quiltdb/comm/propagator.cpp:722-765` | so every such run is no longer than the measure of its first state |
| `Convergence.RestDrains` | `src/quiltdb/comm/receiver.cpp:426-541` | a ring with no step left has nothing in any channel, store, held buffer or queue |
| `Convergence.TablesAgree` | `src/quiltdb/comm/receiver.cpp:532-541` | wherever a run comes to rest, every node's value for every key is the total of all increments issued anywhere |
| `Convergence.RestReachable` | `src/quiltdb/comm/propagator.cpp:588-609` | from every reachable state the ring can come to rest without further increments |
| `TerminationThreads.PropagatorControl.OnTimerFired` | `src/quiltdb/comm/propagator.cpp:462-633` | the timer handler refines the protocol's: flush, then stop the timer if terminating, then exit if nothing else is awaited |
| `TerminationThreads.PropagatorControl.OnTerminateSignal` | `src/quiltdb/comm/propagator.cpp:768-835` | the handler of the application's signal, including the late reply to a downstream request |
| `TerminationThreads.PropagatorControl.OnReceiverAck` | `src/quiltdb/comm/propagator.cpp:838-850` | the handler of the local receiver's acknowledgement |
| `TerminationThreads.PropagatorControl.OnDownstreamTerminate` | `src/quiltdb/comm/propagator.cpp:873-899` | the handler of the downstream receiver's request: answered now or remembered |
| `TerminationThreads.PropagatorControl.OnUpdateLog` | `src/quiltdb/comm/propagator.cpp:667-669` | an increment counts only while the propagator is running |
| `TerminationThreads.PropagatorControl.OnUpdateBuffer` | `src/quiltdb/comm/propagator.cpp:722-765` | so does a forwarded buffer; that none of either is lost is `Traffic.TrafficIsConserved` |
| `TerminationThreads.PropagatorControl.OnMyUpdatesAck` | `src/quiltdb/comm/propagator.cpp:579-609` | the buffer held back goes out whole, in whatever state the propagator is by then |
| `TerminationThreads.ReceiverControl.HasAllPeersAckedTerm` | `src/quiltdb/comm/receiver.cpp:82-98` | the walk over the peers answers yes if and only if every expected peer has replied |
| `TerminationThreads.ReceiverControl.OnOwnBatch` | `src/quiltdb/comm/receiver.cpp:284-309` | a batch is acknowledged in every state and kept only while running |
| `TerminationThreads.ReceiverControl.OnTerminateSignal` | `src/quiltdb/comm/receiver.cpp:311-357` | the handler of the application's signal, with and without the exit check |
| `TerminationThreads.ReceiverControl.OnPropagatorTerminate` | `src/quiltdb/comm/receiver.cpp:359-389` | the handler of the local propagator's message; it aborts exactly in the terminated state |
| `TerminationThreads.ReceiverControl.OnTerminateReply` | `src/quiltdb/comm/receiver.cpp:548-567` | the handler of an upstream propagator's acknowledgement |
| `Load.ForwardedIsLess` | `src/quiltdb/comm/receiver.cpp:507-530` | a delivered buffer leaves strictly less load, in hops still to travel, than it brought, whatever is forwarded |
| `Load.MergedAddsUp` | `src/quiltdb/comm/propagator.cpp:740-763` | merging ranges adds their loads, so the load of a store is the load of what was merged into it |
| `ShutdownTheorems.StepKeeps` | `src/quiltdb/comm/propagator.hpp:93-118` | no handler meets a message it calls fatal, no signal fails, and the protocol's invariant is kept, with and without the exit check |
| `Traffic.TrafficIsConserved` | `src/quiltdb/comm/propagator.cpp:462-765` | in every run, on any topology: what a running propagator holds and what it has put on its wire add up to what it has read from its application and its receiver; once it stops it holds nothing and puts nothing more; what a receiver passes on is what its propagator reads, plus what is on the way; a running receiver's own batches are those it has read; own updates are pending exactly if read since the last flush |
| `History.FlagsMean` | `src/quiltdb/comm/propagator.cpp:612-899` | in every run, from the messages each thread has read: a propagator has exited exactly when it was signalled, its timer fired after that, its receiver answered and downstream was answered if there is one; a receiver exactly when it was signalled and told and every upstream propagator replied (shipped: and not told early while expecting nobody); each has acknowledged exactly when both messages that ask for it were read |
| `Traffic.FlushOrder` | `src/quiltdb/comm/propagator.cpp:513-601` | a flush takes the whole store; with an own increment in it the receiver is told first and the buffer held back, else it goes out at once |
| `Traffic.PropagatorReads` | `src/quiltdb/comm/propagator.cpp:568-585` | a propagator reads a message if and only if one has arrived, it has not terminated and it is not waiting for its receiver |
| `Traffic.PropagatorFlushes` | `src/quiltdb/comm/propagator.cpp:462-633` | when the timer has something to do, and when the held buffer goes out |
| `Traffic.ReceiverReads` | `src/quiltdb/comm/receiver.cpp:284-389` | a receiver reads a message of its own node if and only if one has arrived and it has not terminated |
| `Traffic.DeliveriesArrive` | `src/quiltdb/comm/receiver.cpp:409-567` | the same of a message from upstream, with the load that may be passed on |
| `Traffic.ApplicationActs` | `src/quiltdb/include/quiltdb.cpp:162-182` | an application logs until it signals, and signals each thread once, the propagator first |
| `ShutdownTheorems.SilentAfterAck` | `src/quiltdb/comm/propagator.hpp:108-116` | after a propagator has acknowledged, no step appends anything to its channel |
| `ShutdownTheorems.AcksAtMostOnce` | `src/quiltdb/comm/propagator.cpp:783-834` | in every run each propagator and each receiver acknowledges at most once |
| `ShutdownTheorems.TerminatedDrained` | `src/quiltdb/comm/receiver.cpp:558-564` | when a thread has reached its terminal state all its protocol input channels are empty; only increments that other application threads had queued may be left unread |
| `ShutdownTheorems.DrainedForever` | `src/quiltdb/comm/receiver.hpp:56-61` | and they stay empty in every continuation |
| `ShutdownTheorems.WaitIsAnswered` | `src/quiltdb/comm/propagator.cpp:568-585` | a propagator waiting for the acknowledgement of its own batch gets it within two steps: its receiver cannot have exited |
| `ShutdownTheorems.StepFalls` | `src/quiltdb/comm/propagator.cpp:612-630` | every step except an increment lowers a measure, on any topology, unless a running receiver passes on as much load as it took |
| `ShutdownTheorems.RunsEnd` | `src/quiltdb/include/quiltdb.cpp:162-182` | so every run without increments along which deliveries shrink is finite, whatever the schedule |
| `ShutdownTheorems.SignalledRunsEnd` | `src/quiltdb/comm/receiver.cpp:311-421` | once every receiver has been told to terminate, every run is finite, on any topology and with nothing assumed of the traffic |
| `ShutdownTheorems.ShutdownCompletes` | `src/quiltdb/comm/receiver.cpp:311-389` | where a run can go no further every propagator has terminated after acknowledging exactly once each way (downstream only if it has a downstream), and a receiver has terminated if and only if the check is there, or it expects a propagator, or its own propagator's message came after the application's |
| `ShutdownTheorems.ShutdownReachable` | `src/quiltdb/include/quiltdb.cpp:162-182` | such an end is reachable from every reachable state of any topology, by a run along which deliveries shrink |
| `ShutdownTheorems.HangsForever` | `src/quiltdb/comm/receiver.cpp:339-357` | a shipped receiver without expected propagators whose propagator's message came first never terminates, in any continuation |
| `ShutdownTheorems.ShippedHangs` | `src/quiltdb/comm/receiver.cpp:339-357` | such a state is reached in three steps at the head of a chain of two nodes, the second without downstream |
| `Handshake.NothingUnexpected` | `src/quiltdb/comm/receiver.cpp:179-241` | in no run does either side receive a message it did not expect, and no update is sent or received before the receiver runs |
| `Handshake.NobodyMissesStart` | `src/quiltdb/comm/propagator.cpp:327-366` | the start is published only once every expected propagator has received an acknowledgement and so is subscribed; each then has it or will find it in its channel |
| `Handshake.Forward` | `src/quiltdb/comm/receiver.cpp:198-233` | unless all have started, at most two steps bring the handshake strictly closer: no circular wait, even when acknowledgements are lost |
| `Handshake.Completes` | `src/quiltdb/comm/receiver.cpp:179-241` | from every reachable state the handshake can be completed |
| `Handshake.WhoMayMove` | `src/quiltdb/comm/receiver.cpp:179-241` | in every reachable state, for each of the seven moves, exactly when it can be made; the receiver reads everything sent to it unless everyone has acknowledged and it has yet to start |
| `Handshake.ChannelsKeep` | `src/quiltdb/comm/propagator.cpp:327-366` | every read takes the oldest message, every send adds one at the end, and what is published reaches exactly the subscribed |
| `Handshake.UpdatesArrive` | `src/quiltdb/comm/receiver.cpp:179-241` | after a completed handshake, in every run: updates sent are updates read plus updates on their way, for each propagator |
| `Bytes.Int32RoundTrip` | `src/quiltdb/utils/memstruct.cpp:106-113` | a 32-bit field reads back as what was stored, sign included |
| `Bytes.Int64RoundTrip` | `src/quiltdb/utils/memstruct.cpp:106-113` | the same for 64 bits |
| `Bytes.LittleEndian32` | `src/quiltdb/utils/memstruct.cpp:106-113` | what four bytes read as: the lowest first, the highest with the sign |
| `Bytes.LittleEndian64` | `src/quiltdb/utils/memstruct.cpp:106-113` | the same of eight |
| `UpdateBuffers.BuffSizeExact` | `src/quiltdb/utils/memstruct.cpp:9-22` | the 32-bit size computation gives the bytes needed if and only if they number fewer than 2^31 |
| `Layout.UpdatePos` | `src/quiltdb/utils/memstruct.cpp:86-96` | every update position within capacity lies after the slots and inside the buffer |
| `Layout.EntryRewritten` | `src/quiltdb/comm/receiver.cpp:493-501` | overwriting one update in place changes that list entry and neither another entry nor the node ranges |
| `Layout.SlotRewritten` | `src/quiltdb/utils/memstruct.cpp:158-212` | overwriting one slot changes that slot and neither another slot nor the updates |
| `Layout.HeaderFormat` | `src/quiltdb/utils/memstruct.hpp:56-74` | the header's fields by byte offset: sizes, capacities, counts, and the offsets of slots and updates as numbers |
| `Layout.SlotFormat` | `src/quiltdb/utils/memstruct.cpp:72-83` | slot j is the 20 bytes from 44 + 20 j: id, first, last |
| `Layout.UpdateFormat` | `src/quiltdb/utils/memstruct.cpp:100-115` | update j is the key and then the delta, behind all slots and j updates |
| `Layout.UpdateIteratorFormat` | `src/quiltdb/utils/memstruct.cpp:117-138` | where the update iterator stands, as the number in its field |
| `Layout.SlotIteratorFormat` | `src/quiltdb/utils/memstruct.cpp:272-306` | the same of the node-range iterator |
| `UpdateBuffers.UpdateBuffer.constructor` | `src/quiltdb/utils/memstruct.cpp:53-98` | within the size bound, an empty list and all slots free |
| `UpdateBuffers.UpdateBuffer.AppendUpdate` | `src/quiltdb/utils/memstruct.cpp:100-115` | refused exactly when full and then unchanged; otherwise the list grows at its end and the node ranges are untouched |
| `UpdateBuffers.UpdateBuffer.StartIteration` | `src/quiltdb/utils/memstruct.cpp:117-122` | the iterator stands at the first update in either case; the result tells whether there is one |
| `UpdateBuffers.UpdateBuffer.NextUpdate` | `src/quiltdb/utils/memstruct.cpp:124-138` | the updates come in list order, once each, and nothing but the iterator changes |
| `UpdateBuffers.UpdateBuffer.GetUpdate` | `src/quiltdb/utils/memstruct.cpp:140-156` | the delta of the first update with the key, or none if and only if the list has no such key |
| `UpdateBuffers.UpdateBuffer.Subtract` | `src/quiltdb/comm/receiver.cpp:493-501` | subtracting through the returned pointer changes that one delta and nothing else in the buffer |
| `UpdateBuffers.UpdateBuffer.UpdateNodeRange` | `src/quiltdb/utils/memstruct.cpp:158-212` | both searching loops together: the named slot, else the first free one, else refusal without change |
| `UpdateBuffers.UpdateBuffer.DeleteNodeRange` | `src/quiltdb/utils/memstruct.cpp:214-241` | frees the named slot unless a free slot comes first |
| `UpdateBuffers.UpdateBuffer.GetNodeRange` | `src/quiltdb/utils/memstruct.cpp:243-270` | finds a range if and only if a slot has the id, and then the first one's |
| `UpdateBuffers.UpdateBuffer.NextNodeRangeShipped` | `src/quiltdb/utils/memstruct.cpp:277-306` | stays put with -1 at a free slot or at the end: the skipping loop never turns |
| `UpdateBuffers.UpdateBuffer.NextNodeRange` | `src/quiltdb/utils/memstruct.cpp:277-306` | repaired: the next occupied slot, never reading past the table |
| `UpdateBuffers.UpdateBuffer.Copy` | `src/quiltdb/comm/receiver.cpp:511-515` | the same bytes anywhere else are a valid buffer with the same updates and ranges |
| `Slots.UpdateIsMapUpdate` | `src/quiltdb/utils/memstruct.cpp:158-212` | an update is a map update for every id, on any table, and fails exactly when the id is new and no slot is free |
| `Slots.UpdateTakes` | `src/quiltdb/utils/memstruct.cpp:158-212` | on any table, holes or not: the first slot with the id, or when there is none the first free one, and no other slot changes; refused if and only if there is neither |
| `Slots.DeleteTakes` | `src/quiltdb/utils/memstruct.cpp:214-241` | on any table: it frees the first slot with the id if and only if no negative id comes before it; the range stays in the slot, and no other slot changes |
| `Slots.UpdateKeepsPacked` | `src/quiltdb/utils/memstruct.cpp:158-212` | updates keep the occupied slots a prefix of distinct ids |
| `Slots.DeleteIsMapRemove` | `src/quiltdb/utils/memstruct.cpp:214-241` | on such a table a deletion succeeds exactly for present ids and removes that one |
| `Slots.ShippedYields` | `src/quiltdb/utils/memstruct.cpp:277-306` | shipped iteration yields exactly the slots before the first hole |
| `Slots.StaysAtHole` | `src/quiltdb/utils/memstruct.cpp:277-306` | the n-th call of the shipped iterator yields slot n before the first hole, and from there on every call yields nothing |
| `Slots.RepairedYields` | `src/quiltdb/utils/memstruct.cpp:277-306` | repaired iteration yields every occupied slot once, in order, for any pattern of holes |
| `Slots.ShippedComplete` | `src/quiltdb/utils/memstruct.cpp:286` | the two agree if and only if no occupied slot follows a hole |
| `Slots.DeletionHides` | `src/quiltdb/utils/memstruct.cpp:286` | after a deletion from a packed table they agree if and only if the last occupied slot was deleted |
| `Slots.SeenAfterDeletion` | `src/quiltdb/utils/memstruct.cpp:277-306` | after a deletion shipped iteration yields exactly the slots packed before the deleted one, and so never the last one packed, which is the sender's own |
| `Slots.SenderHidden` | `src/quiltdb/utils/memstruct.cpp:286` | the two-slot table of a buffer that names its receiver and then its sender: the first deleted, shipped iteration yields nothing, repaired iteration the sender |
| `Packing.Pack` | `src/quiltdb/comm/propagator.cpp:465-511` | the buffer a flush builds holds exactly the store and the pending ranges, the sender's own range last; no append and no range is ever refused |
| `Packing.AddUpdates` | `src/quiltdb/comm/propagator.cpp:723-735` | iterating over the bytes adds the whole encoded table, for the propagator's store and the receiver's table alike |
| `Packing.MergeRanges` | `src/quiltdb/comm/propagator.cpp:737-763` | iterating over the slots extends the held ranges, holes or not, and aborts exactly when one does not continue them |
| `Packing.MergeRangesShipped` | `src/quiltdb/comm/propagator.cpp:737-763` | with the shipped iterator: only the origins before the first hole are merged, and the abort happens exactly when one of those does not continue what is held |
| `Packing.MergeShipped` | `src/quiltdb/comm/propagator.cpp:722-765` | on bytes, as shipped: all updates are added, the ranges before the first hole are merged, and the result or the abort is the ring's merge that reaches exactly those origins |
| `Packing.SubtractBatch` | `src/quiltdb/comm/receiver.cpp:487-501` | on bytes: afterwards the received buffer encodes the difference, and it fails exactly when a key is missing |
| `PackedReceive.CancelOne` | `src/quiltdb/comm/receiver.cpp:464-502` | one turn on bytes: the first check that fails, in the order that `Dedup.LoopDecides` gives, or the end of the batch subtracted in place |
| `PackedReceive.CancelOwn` | `src/quiltdb/comm/receiver.cpp:461-505` | the loop over a queue of byte buffers, repaired or shipped, with the deletion after it: the queue that is left, the bytes without the own updates and the own range, or the failing check, exactly as the ring's step says |
| `PackedReceive.NamesNobodyElse` | `src/quiltdb/comm/receiver.cpp:426-436` | the shipped drop test, one or two calls of the iterator, answers yes if and only if the buffer names nobody but its receiver |
| `PackedReceive.OnUpdateBuffer` | `src/quiltdb/comm/receiver.cpp:409-546` | the whole handler on bytes, repaired or shipped: the queue that is left, the table, and the copied bytes that are forwarded refine the ring's step, aborts included |
| `Packing.NamesFewer` | `src/quiltdb/comm/receiver.cpp:504` | deleting the own range from a packed table leaves slots that name exactly the others |
| `Packing.FlushThenMerge` | `src/quiltdb/comm/propagator.cpp:600-601` | pack, copy the bytes and read them back on the next node: the receiving propagator ends as the ring's step says, abort included |
| `Slices.KeepSelects` | `apps/pagerank/rspmat.h:163-182` | a sliced row is the order-preserving selection of exactly the entries in the columns, shifted to the slice's start, if the index type can hold them |
| `Slices.KeepWraps` | `apps/pagerank/rspmat.h:163-182` | for any index type: as many entries, in order, with their values, and each column reduced to the type |
| `Slices.OneBlock` | `apps/pagerank/rspmat.h:168-181` | between increasing cuts every column lies in exactly one block |
| `Slices.WeightsAddUp` | `apps/pagerank/rspmat.h:163-182` | any weighted sum over a row is the sum of the same over its slices: nothing lost, nothing counted twice |
| `Slices.SliceAgain` | `apps/pagerank/rspmat.h:166-174` | slicing a slice is right for every row if and only if the outer slice starts at column zero or nothing is asked for |
| `Matrix.CutsCover` | `apps/pagerank/pagerank.h:10-18` | the rounded cuts start at the start, end at the end and are in order |
| `Matrix.CutNearest` | `apps/pagerank/pagerank.h:15` | in integers: each cut is the integer nearest to its exact place, and of two equally near the one further from the start |
| `Matrix.NearestUnique` | `apps/pagerank/pagerank.h:15` | no other integer meets that |
| `Matrix.CutStep` | `apps/pagerank/pagerank.h:10-18` | no block differs from the exact width by a whole column |
| `Matrix.Linspace` | `apps/pagerank/pagerank.h:10-18` | every element the loop produces is, in integers, the one nearest to its exact place, halves away from the start; the first and the last are the ends and the order is increasing; a negative count gives none |
| `Matrix.BlocksAddUp` | `apps/pagerank/pagerank.h:10-18` | over the blocks so cut, any weighted sum of a row adds up, if a block fits the index type |
| `Matrix.RSpMat.Init` | `apps/pagerank/rspmat.h:112-123` | fresh arrays with room for every entry; only one offset per row is zeroed |
| `Matrix.RSpMat.Rebase` | `apps/pagerank/rspmat.h:153-159` | offsets start at zero afterwards and every row keeps its length |
| `Matrix.RSpMat.VSlice` | `apps/pagerank/rspmat.h:163-182` | aborts exactly when asked for columns that are not its own; otherwise a valid matrix, in bounds, with increasing offsets from zero, whose every row is the selection of the source row |

## Left out

- ZeroMQ sockets, endpoints, polling and the `zmq_util` and `comm_util` helpers: channels are FIFO sequences, and a lossy broadcast in the handshake.
- Pthreads, semaphores, nanosecond timing and the concurrent hash map: threads are interleaved steps; the timer's lockstep is a flush at any moment.
- User callbacks, the pairing of a horizontal and a vertical propagator and receiver, several tables: independent copies.
- A node without downstream that still flushes updates, and a batching interval of zero or less: the code has no working path for either.
- YAML configuration, logging, flags, scripts, file loading: only the loop in `Load` that shifts offsets is modelled.
- The PageRank iteration, the unfinished copy under `apps/pagarank`, and `Range::EvenDivide`: unused or floating point.
- Alignment of 64-bit fields at 4-byte offsets: the byte model reads and writes byte by byte.
- The shutdown keeps update traffic as a load; what the updates do to the tables while threads terminate is `Stopping`'s part. No increment follows `SignalTerm`, as `propagator.hpp:137` asks. A node without downstream neither logs nor forwards updates there, the code having no way to send them.
- The shutdown and handshake systems are state machines over values; of their code the termination handlers are also given as classes, the handshake is straight-line code and is not.
- ShutdownTheorems.StepFalls: assumes of a delivery to a running receiver that it shrinks the load; on a topology that is not a ring the code does not ensure it.
- ShutdownTheorems.RunsEnd: the same of every delivery of the run; `ShutdownTheorems.SignalledRunsEnd` needs no such assumption.
- RingTheorems.ExactlyOnce: does not say which of two application threads' increments is logged first; it holds for every order.
- Matrix.Linspace: exact arithmetic over reals; the original's rounding of a double quotient is not modelled, nor a count of zero, for which the original converts a value that is not a number.
- Matrix.RSpMat.VSlice: `nnz()` of a slice is the source's count, as in the code; the real count is the last offset.
- Handshake.Completes: says that completion is reachable from every state and never blocked, not that a scheduler reaches it; a publish whose message is lost again and again is a possible run of the original too.
- The check that an own batch holds an update (`src/quiltdb/comm/receiver.cpp:486-487`) is not a failure of its own: a batch is recorded only from a non-empty own store (`propagator.cpp:514`).
