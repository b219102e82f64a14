# Verified model of the Emcyphal transport

Emcyphal is a static-memory Cyphal/CAN transport. This project models its transport logic as Dafny classes and
state machines, and proves what a user of the stack relies on:

- a payload cut into frames is reassembled exactly, under every MTU schedule and repetition of frames, every transfer
  of a source arrives, and nothing is ever delivered that was not sent in the shape the Cyphal Specification v1.0
  prescribes (table 4.4);
- the receive buffer, which hands one-byte buffer indices around between sessions, queues and the reader, behaves
  like one private receiver per source and eight FIFO queues, and keeps the best transfers;
- the driver's filter, rebuilt from lazily reconstructed updates, agrees with the subscriptions however the
  critical sections interleave, and each frame reaches each subscription once;
- the transmit scheduler does not interleave transfers of one priority and serves endpoints in turn, and the double
  buffer never tears a transfer.

`dafny verify dfyconfig.toml` checks everything.

## How it is laid out

| file | part of the stack |
|---|---|
| `Format.dfy`, `Priorities.dfy` | transfer CRC, tail byte, frame lengths; priority sets and their bit representation |
| `Segmentation.dfy`, `Transfers.dfy` | `Scatter` and the shape of what it sends |
| `Reassembly.dfy`, `RoundTrip.dfy`, `Conversations.dfy`, `Soundness.dfy` | `Gather`, and how the two undo each other |
| `ClassQueues.dfy`, `PriorityQueues.dfy`, `IndexQueues.dfy` | cyclic lists in one array, and the two containers over them |
| `SessionTable.dfy` | the sessions and buffers both receive buffers have |
| `RxModel.dfy`, `RxEffects.dfy`, `RxRuns.dfy`, `Displacement.dfy`, `Isolation.dfy` | the receive buffer as its user sees it, over whole runs |
| `RxView.dfy`, `RxFifo.dfy` | buffer ownership, and the receive buffer object refining that model |
| `Lists.dfy`, `Registry.dfy`, `FilterAgreement.dfy`, `Delivery.dfy`, `Slots.dfy`, `Membership.dfy`, `RegularInner.dfy` | the subscription registry |
| `Scheduler.dfy`, `SchedulerRuns.dfy`, `RoundRobin.dfy`, `Turns.dfy`, `SinglePriority.dfy`, `LostTurns.dfy`, `TxQueue.dfy` | the transmit scheduler |
| `Signals.dfy`, `SignalRuns.dfy`, `SignalCalls.dfy`, `SignalBuffer.dfy` | the double buffer of a publisher |
| `Watches.dfy`, `WatchRuns.dfy`, `WatchBuffer.dfy` | the last-value receive buffer, beside the other one, and its object |
| `Replays.dfy` | both receive buffer objects, constructed and driven through whole runs |

## Conventions

- `Instant` is a number of ticks up to the 64-bit maximum with saturating addition; an index is a number below 256.
- Red-black trees are sequences ordered by subject, entries of one subject in the order they came; intrusive lists
  are sequences. A mutex-locked closure is one atomic step. A waker is a flag saying whether it was woken.
- A session stores its receiver as a value; taking a frame resumes the receiver object from it and stores it back.
  This stands for the in-place update through a mutable reference.
- The session fields that both receive buffers declare, and the code that works on them, are one class, `SessionTable`.
- The methods of `RxPriorityFifo` and `WatchBuffer` carry a ghost parameter, the model state the buffer represents:
  their contracts say that representing `m` before implies representing the next state of `m` after.
- Buffers of other endpoints are parameters of the scheduler: what a buffer answers and reports as ready is chosen
  freely, and restricted only where a property says so. `Signals.ReadyUntilEnd` shows the double buffer meets it.
- The reception rules in the comment of `Gather` speak of one transfer id; a start frame with a wrong toggle bit
  stops the reassembly of whatever id is in progress, and the model follows the code.

## Properties that hold under a condition

- Free subject slots and registered subjects add up only when filter updates are polled before a removal.
  `Slots.UnregisterConservesIff` is the exact condition for any state; `Slots.UndrainedLeak` and
  `Slots.UndrainedSurplusIsReachable` are inputs where it fails.
- A round trip from a receiver that has just assembled a transfer with the same id delivers nothing until the
  timeout of that transfer is over: `RoundTrip.Expected` says which start frames count.
- The hub is woken for what it waits for exactly as long as its polls are answered: a poll gets a frame, or neither
  the answer nor another entry has its most urgent priority in the mask (`SchedulerRuns.StepGood`).
  `Signals.ReadyUntilEnd` shows the double buffer answers.
- Another entry can send in the middle of a transfer exactly when the priority of the transfer is not the most urgent
  ready one of its own entry but is that of another (`Turns.InterleavesIff`). So transfers of one priority do not
  interleave as long as entries in one keep it first (`Turns.NoInterleaving`), as single-priority buffers always do
  (`SinglePriority`). `LostTurns.InterleavesWithTwoPriorities` is a run that interleaves.
- The round-robin bound counts what ends while an entry waits in the finished list (`RoundRobin.RoundRobinBound`).
  `RoundRobin.StaysIff` says exactly which steps leave it there, and single-priority buffers take no other until their
  first frame. `LostTurns.LosesTurnWithTwoPriorities` is a run in which a silent entry leaves it and the bound fails.
- Inserting a present key into an index queue breaks its table: `IndexQueue.Insert` keeps it valid exactly for new keys.

## Model

| member | source | states |
|---|---|---|
| `Format.CrcAdd` | emcyphal/src/format.rs:19-28 | the bitwise loop computes the CRC step of one byte |
| `Format.CrcAddBytes` | emcyphal/src/format.rs:30-32 | folding the loop over bytes computes the CRC of the bytes carried on from the given state |
| `Format.PayloadResidue` | emcyphal/src/format.rs:19-37 | any bytes followed by their big-endian CRC have CRC zero, so the zero test of the receiver accepts them |
| `Format.CrcResidue` | emcyphal/src/format.rs:19-28 | any CRC state followed by its own two bytes, high byte first, goes to zero |
| `Format.CrcAppend` | emcyphal/src/format.rs:30-32 | the CRC of a concatenation is the CRC of the second part carried on from the first |
| `Format.CrcBytesInjective` | emcyphal/src/format.rs:19-32 | different CRC states stay different over the same bytes |
| `Format.CrcDetectsByteError` | emcyphal/src/format.rs:19-32 | changing one byte anywhere in a sequence changes its CRC |
| `Format.CrcCheckValue` | emcyphal/src/format.rs:7-32 | the CRC of the digits 1 to 9 is 0x29b1, the check value of CRC-16/CCITT-FALSE |
| `Format.DecodeEncodeTail` | emcyphal/src/format.rs:48-90 | a tail byte decodes to the SOT, EOT, toggle and transfer id it was made of |
| `Format.EncodeDecodeTail` | emcyphal/src/format.rs:48-90 | every byte is the tail byte of what it decodes to |
| `Format.TailWeights` | emcyphal/src/format.rs:48-90 | in the tail byte start, end and toggle weigh 128, 64 and 32, and the transfer id is the rest |
| `Format.FloorIsGreatest` | emcyphal-driver/src/frame.rs:90-99 | new_floor is the greatest valid CAN FD length not above the value |
| `Format.CeilIsLeast` | emcyphal-driver/src/frame.rs:101-113 | new_ceil is the least valid CAN FD length not below the value, and absent exactly above 64 |
| `Format.FixedPointsAreValid` | emcyphal-driver/src/frame.rs:81-88 | a length is accepted as it is exactly when it is a valid CAN FD length |
| `Priorities.BitsInsertMembers` | emcyphal-core/src/lib.rs:172-174 | inserting into the bit set adds exactly that priority to the set it stands for |
| `Priorities.BitsRemoveMembers` | emcyphal-core/src/lib.rs:176-178 | removing from the bit set removes exactly that priority |
| `Priorities.BitsFirstIsFirst` | emcyphal-core/src/lib.rs:180-182 | first on the bits is the most urgent member of the set, or none |
| `Priorities.BitsLastIsLast` | emcyphal-core/src/lib.rs:184-187 | last on the bits is the least urgent member of the set, or none |
| `Priorities.BitsIntersect` | emcyphal-core/src/lib.rs:207-212 | bitwise and is intersection |
| `Priorities.BitsUnite` | emcyphal-core/src/lib.rs:220-225 | bitwise or is union |
| `Priorities.BitsComplement` | emcyphal-core/src/lib.rs:144-146 | complement is the set of the other priorities |
| `Segmentation.Scatter.FetchFrameData` | emcyphal/src/buffer/scatter.rs:38-82 | a fetch returns the bytes of exactly the frame, and leaves the offset and toggle bit, that the stream view of the transfer prescribes, or nothing when exhausted |
| `Segmentation.Scatter.FetchFullSegment` | emcyphal/src/buffer/scatter.rs:94-109 | a full segment is the next stretch of payload followed by CRC |
| `Segmentation.Scatter.FetchPaddedSegment` | emcyphal/src/buffer/scatter.rs:111-129 | the last segment is the rest of the payload, zero padding, and the CRC carried on over the padding |
| `Segmentation.FetchFits` | emcyphal/src/buffer/scatter.rs:34-82 | a frame comes out unless the transfer is exhausted, and ends the transfer exactly when it carries EOT |
| `Segmentation.PaddingPrecedesCrc` | emcyphal/src/buffer/scatter.rs:62-70 | padding is needed only while no CRC byte is out, for both MTUs: the assertion at line 68 holds |
| `Segmentation.FrameLength` | emcyphal/src/buffer/scatter.rs:38-82 | a fetched frame has the least CAN FD length that holds its tail byte and what is left to carry, or what the MTU allows of it |
| `Segmentation.FrameEnds` | emcyphal/src/buffer/scatter.rs:45-72 | a frame starts the transfer when nothing was sent before and ends it exactly when it holds all that is left |
| `Transfers.OutputLengths` | emcyphal/src/buffer/scatter.rs:38-82 | every frame sent has a valid length within the MTU of its fetch, and all but the last fill it |
| `Transfers.SenderTransfer` | emcyphal/src/buffer/scatter.rs:38-129 | under every schedule of MTUs the frames have the shape of table 4.4 and carry the payload, zero padding and a CRC with residue zero |
| `Reassembly.Gather.PushFrame` | emcyphal/src/buffer/gather.rs:158-212 | one frame takes the receiver and its buffer from any state to what the reception rules say, delivering exactly what they say; the buffer holds the collected bytes as far as they fit |
| `Reassembly.TableImplementsRules` | emcyphal/src/buffer/gather.rs:191-211 | the 19-arm table and the reception rules R2-R11 choose the same action for every frame |
| `Reassembly.StartHeard` | emcyphal/src/buffer/gather.rs:178-273 | in the fields alone, a start frame is ignored exactly when its id was just assembled and is not timed out; otherwise a single frame is delivered, and a first frame of 7 or 63 payload bytes begins anew with them |
| `Reassembly.OtherHeard` | emcyphal/src/buffer/gather.rs:178-298 | in the fields alone, what every other frame does: skipped, collected, finishing the transfer, or stopping it |
| `Reassembly.Gather.FinishAssembly` | emcyphal/src/buffer/gather.rs:275-298 | finishing delivers everything collected but the CRC when it is non-empty, fits 32 bits and has residue zero, and otherwise stops |
| `Reassembly.PayloadAccumulator.Append` | emcyphal/src/buffer/gather.rs:319-335 | appending extends the collected bytes, keeps as much as fits of them in the buffer, and fails exactly on 32-bit overflow |
| `Reassembly.StepWellFormed` | emcyphal/src/buffer/gather.rs:22-30 | the fields set in each state are the ones its comment names, in every reachable state |
| `RoundTrip.ScatterGatherRoundTrip` | emcyphal/src/buffer/scatter.rs:38-129 | for every payload, MTU schedule and repetition of frames within the timeout, and from every receiver state, the receiver delivers exactly one transfer, payload and zero padding, unless no start frame is acceptable or the length exceeds 32 bits |
| `RoundTrip.StutteredTransfer` | emcyphal/src/buffer/gather.rs:158-346 | any well-formed transfer with repeated frames is delivered exactly once, or not at all when its start is a duplicate |
| `RoundTrip.FetchingEnds` | emcyphal/src/buffer/scatter.rs:38-82 | enough fetches always send the whole transfer |
| `Conversations.EveryTransferArrives` | emcyphal/src/buffer/gather.rs:158-346 | a receiver delivers every transfer of a source, in order and once each, payload and zero padding, for every MTU schedule and repetition of frames, when each has another id than the one before or comes after its timeout |
| `Soundness.DeliveryIsWitnessed` | emcyphal/src/buffer/gather.rs:178-345 | in every frame history a delivered transfer has an in-order choice of frames: a start, MTU-sized frames with alternating toggle bit, a non-empty end, whose concatenation less the CRC is what was delivered; everything heard in between repeats the toggle bit of the frame before, with the same id and within the timeout |
| `Soundness.ByteDeliveriesAreWitnessed` | emcyphal/src/buffer/gather.rs:158-211 | the same for every history of raw frames, empty ones included |
| `ClassQueues.UnbindEncodes` | emcyphal/src/utils/multi_class_queue.rs:41-48 | unbinding an entry takes it out of the queue it is in and leaves every other cycle alone |
| `ClassQueues.MoveAfterEncodes` | emcyphal/src/utils/multi_class_queue.rs:50-58 | moving an entry behind a class node puts it at the front of that queue |
| `ClassQueues.MoveBeforeEncodes` | emcyphal/src/utils/multi_class_queue.rs:60-68 | moving an entry before a class node puts it at the back of that queue |
| `ClassQueues.MultiCycleList.UnbindNode` | emcyphal/src/utils/multi_class_queue.rs:41-48 | the link updates in place are the unbind step |
| `ClassQueues.MultiCycleList.MoveNodeAfter` | emcyphal/src/utils/multi_class_queue.rs:50-58 | the link updates in place are the move behind a node |
| `ClassQueues.MultiCycleList.MoveNodeBefore` | emcyphal/src/utils/multi_class_queue.rs:60-68 | the link updates in place are the move before a node |
| `ClassQueues.MultiClassQueue.Front` | emcyphal/src/utils/multi_class_queue.rs:85-88 | the node behind the class node is the front of its queue, none when empty |
| `ClassQueues.MultiClassQueue.Back` | emcyphal/src/utils/multi_class_queue.rs:90-93 | the node before the class node is the back of its queue |
| `ClassQueues.MultiClassQueue.IsFront` | emcyphal/src/utils/multi_class_queue.rs:100-108 | the class whose queue an entry is in front of, none otherwise |
| `ClassQueues.MultiClassQueue.RemoveEntry` | emcyphal/src/utils/multi_class_queue.rs:120-123 | the node array encodes the queues without the entry |
| `ClassQueues.MultiClassQueue.MoveFront` | emcyphal/src/utils/multi_class_queue.rs:125-129 | the node array encodes the queues with the entry at the front of the class |
| `ClassQueues.MultiClassQueue.MoveBack` | emcyphal/src/utils/multi_class_queue.rs:131-135 | the node array encodes the queues with the entry at the back of the class |
| `PriorityQueues.PriorityQueue.Push` | emcyphal/src/utils/priority_queue.rs:36-46 | appends to the FIFO of the priority, and fails exactly when all entries are in use |
| `PriorityQueues.PriorityQueue.Pop` | emcyphal/src/utils/priority_queue.rs:48-56 | takes the oldest value of the priority; the priority set stays the non-empty FIFOs |
| `PriorityQueues.PriorityQueue.MaxPriority` | emcyphal/src/utils/priority_queue.rs:62-64 | the least urgent non-empty priority |
| `PriorityQueues.PushRefines` | emcyphal/src/utils/priority_queue.rs:36-46 | moving a free entry to a class is appending to its FIFO |
| `PriorityQueues.PopRefines` | emcyphal/src/utils/priority_queue.rs:48-56 | moving the front entry to the free class is dropping the first element of its FIFO |
| `IndexQueues.IndexQueue.Insert` | emcyphal/src/utils/index_queue.rs:55-75 | a new key joins the map, and fails exactly when the key is too large or the table is full; the recency queue stays; a present key loses its value but not its index entry, and that breaks the table exactly then |
| `IndexQueues.IndexQueue.RemoveKey` | emcyphal/src/utils/index_queue.rs:77-83 | the key leaves the map and the recency queue |
| `IndexQueues.IndexQueue.EnqueueFront` | emcyphal/src/utils/index_queue.rs:95-99 | a present key becomes the least recent |
| `IndexQueues.IndexQueue.EnqueueBack` | emcyphal/src/utils/index_queue.rs:101-105 | a present key becomes the most recent |
| `IndexQueues.IndexQueue.Dequeue` | emcyphal/src/utils/index_queue.rs:107-111 | a present key leaves the recency queue and stays in the map |
| `IndexQueues.IndexQueue.Get` | emcyphal/src/utils/index_queue.rs:45-48 | the value the map has for the key |
| `IndexQueues.IndexQueue.Set` | emcyphal/src/utils/index_queue.rs:50-53 | writing through the reference to a value changes that key only |
| `IndexQueues.IndexQueue.Front` | emcyphal/src/utils/index_queue.rs:85-88 | the least recent key |
| `SessionTables.SessionTable.StartSlot` | emcyphal/src/buffer/rx_priority_fifo.rs:171-204 | a new source takes the next unused buffer, or the slot and buffer of an expired least recent session, or nothing |
| `SessionTables.SessionTable.FeedSlot` | emcyphal/src/buffer/rx_priority_fifo.rs:91-99 | the stored receiver takes the frame as the reception rules say and writes its own buffer only |
| `SessionTables.SessionTable.TouchSlot` | emcyphal/src/buffer/rx_priority_fifo.rs:125-127 | a session that just started a transfer becomes the most recent, and no other moves |
| `SessionTables.SessionTable.WriteBuffer` | emcyphal/src/buffer/rx_priority_fifo.rs:154-158 | what fits of the payload is at the start of that buffer, and no other buffer changes |
| `RxFifo.RxPriorityFifo.constructor` | emcyphal/src/buffer/rx_priority_fifo.rs:48-67 | a new buffer represents the empty model, every index with its one owner, and shares with its caller only the buffers given |
| `Replays.Replay` | emcyphal/src/buffer/rx_priority_fifo.rs:48-275 | over every run of frames and pops a new buffer object is where the model is, and its reader gets exactly what the model pops |
| `Replays.ReplayEvent` | emcyphal/src/buffer/rx_priority_fifo.rs:210-275 | one frame or pop takes the object from where the run is to where it is next |
| `RxFifo.RxPriorityFifo.PushFrame` | emcyphal/src/buffer/rx_priority_fifo.rs:210-232 | whatever model state the buffer represents, after a frame it represents the next model state, and the readout slot is untouched |
| `RxFifo.RxPriorityFifo.TryPop` | emcyphal/src/buffer/rx_priority_fifo.rs:252-275 | the popped transfer and its bytes are those at the head of the most urgent non-empty FIFO in the mask of the model |
| `RxFifo.RxPriorityFifo.PushRegularFrame` | emcyphal/src/buffer/rx_priority_fifo.rs:69-128 | a source's frame reassembles, is queued and touches the recency queue as in the model |
| `RxFifo.RxPriorityFifo.PushAnonymousFrame` | emcyphal/src/buffer/rx_priority_fifo.rs:130-169 | a valid anonymous frame is queued in the buffer it is granted, as in the model |
| `RxFifo.RxPriorityFifo.TryStartNewSession` | emcyphal/src/buffer/rx_priority_fifo.rs:171-194 | a new source takes the next unused buffer or that of an expired least recent session, as in the model |
| `RxFifo.RxPriorityFifo.DeliverTransfer` | emcyphal/src/buffer/rx_priority_fifo.rs:101-123 | a finished transfer and its session exchange buffers with the granted slot, or nothing changes |
| `RxFifo.TransferQueue.AllocateBuffer` | emcyphal/src/buffer/rx_priority_fifo.rs:301-312 | a free buffer, else that of the oldest least urgent transfer unless it is more urgent |
| `RxFifo.TransferQueue.Pop` | emcyphal/src/buffer/rx_priority_fifo.rs:326-331 | the oldest transfer of the most urgent priority in the mask |
| `RxView.DeliverRepresents` | emcyphal/src/buffer/rx_priority_fifo.rs:101-123 | exchanging a session's buffer with the granted one keeps every index owned once and represents offering the transfer |
| `RxView.AnonymousRepresents` | emcyphal/src/buffer/rx_priority_fifo.rs:147-168 | writing the granted buffer disturbs no session, no other queued transfer and not the readout |
| `RxView.PoppedRepresents` | emcyphal/src/buffer/rx_priority_fifo.rs:257-274 | the popped buffer becomes the readout and the previous one is free, every index still owned once |
| `RxView.FedRepresents` | emcyphal/src/buffer/rx_priority_fifo.rs:91-99 | a session writing its buffer disturbs no other owner |
| `RxView.StartRepresents` | emcyphal/src/buffer/rx_priority_fifo.rs:171-194 | taking an unused buffer or that of the expired session keeps every index owned once and represents starting the session |
| `RxView.EveryIndexIsOwned` | emcyphal/src/buffer/rx_priority_fifo.rs:28-36 | no index is lost: each of the SN + TN + 1 is unallocated, in a session, free, queued or being read |
| `RxView.PoolSize` | emcyphal/src/buffer/rx_priority_fifo.rs:289-330 | whatever model state is represented, free and queued buffers add up to TN |
| `RxModel.PushFrameSane` | emcyphal/src/buffer/rx_priority_fifo.rs:210-232 | no more than TN transfers are queued and SN sessions kept, and the recency queue names each session once, after every frame |
| `RxModel.PushFrameOffers` | emcyphal/src/buffer/rx_priority_fifo.rs:101-168 | a frame changes the queues only by offering them the transfer it completes |
| `RxEffects.SingleFrameIsQueued` | emcyphal/src/buffer/rx_priority_fifo.rs:69-128 | a single-frame transfer of a source with a session or a free session slot is queued at the back of its priority when a transfer slot is free, unless it repeats the transfer just received |
| `RxEffects.NamedCompletes` | emcyphal/src/buffer/rx_priority_fifo.rs:69-128 | a frame of a named source is heard by its session, or by a new one if it starts a transfer and gets a slot, and completes what that delivers, cut to the buffer |
| `RxEffects.AnonymousCompletes` | emcyphal/src/buffer/rx_priority_fifo.rs:130-169 | an anonymous frame completes a transfer exactly when its tail byte has start, end and toggle set |
| `RxEffects.IgnoresStrangers` | emcyphal/src/buffer/rx_priority_fifo.rs:210-232 | a frame of another data specifier, or of an unknown source that starts no transfer, changes nothing |
| `RxEffects.PopsMostUrgent` | emcyphal/src/buffer/rx_priority_fifo.rs:252-275 | a read gets the oldest transfer of the most urgent waiting priority in the mask and leaves all others, and none exactly when none waits there |
| `Isolation.PoppedAsAlone` | emcyphal/src/buffer/rx_priority_fifo.rs:69-128 | over every run of interleaved frames and pops, each transfer the reader gets is the one its own completing frame gives a receiver that hears its source alone since the session started; no frame accounts for two, and those of one priority come in the order of their frames |
| `Isolation.SinceIs` | emcyphal/src/buffer/rx_priority_fifo.rs:80-89 | the event a session is counted from is the one that started it: no session before, one ever after |
| `Isolation.LedgerIsRun` | emcyphal/src/buffer/rx_priority_fifo.rs:252-275 | the tagged queues without their tags are those of the buffer, and the pops noted are those the reader got |
| `Isolation.ReadoutIsStable` | emcyphal/src/buffer/rx_priority_fifo.rs:252-275 | no frame pushed after a pop changes the slice the pop returned |
| `Displacement.DisplacementIsOptimal` | emcyphal/src/buffer/rx_priority_fifo.rs:301-330 | after any arrivals with no pop the slots hold exactly the best transfers: more urgent first, then newest, each class in order of arrival |
| `Displacement.HeldCount` | emcyphal/src/buffer/rx_priority_fifo.rs:301-330 | as many transfers are held as there are, up to the slots |
| `Displacement.FramesKeepBest` | emcyphal/src/buffer/rx_priority_fifo.rs:101-168 | over any run of frames with no pop the queues hold exactly the best of what waited and what the frames completed |
| `RxRuns.SessionReuseIsExact` | emcyphal/src/buffer/rx_priority_fifo.rs:78-89 | over runs with non-decreasing timestamps a start of transfer of a new source leaves it without a session exactly when all slots are used by sessions whose last start is no more than the timeout ago |
| `RxRuns.EvictsTheOldest` | emcyphal/src/buffer/rx_priority_fifo.rs:171-194 | over such runs only the least recently started session loses its slot, to a new source, when all slots are used and its timeout is over |
| `RxRuns.RunSorted` | emcyphal/src/buffer/rx_priority_fifo.rs:125-127 | the recency queue stays sorted by last accepted start of transfer, none first |
| `RxRuns.UnexpiredKeepsSlot` | emcyphal/src/buffer/rx_priority_fifo.rs:174-185 | no frame evicts a session whose last start is no more than the timeout ago, or changes it unless it is of its source, whatever the clock does |
| `FilterAgreement.FilterAgreesInEveryRun` | emcyphal/src/registry/rx_msg.rs:264-526 | in every interleaving of steps active subjects are in the replayed filter, updates never add twice nor remove an active subject, and with no update left the filter is exactly the registered subjects |
| `FilterAgreement.PollAgrees` | emcyphal/src/registry/rx_msg.rs:440-526 | each poll keeps the agreement and emits only sound updates: the assertions at 460-477 and 492 hold |
| `FilterAgreement.RegisterAgrees` | emcyphal/src/registry/rx_msg.rs:264-309 | registration keeps the agreement |
| `FilterAgreement.UnregisterAgrees` | emcyphal/src/registry/rx_msg.rs:311-389 | each of the three removals keeps the agreement |
| `FilterAgreement.UpdatesWake` | emcyphal/src/registry/rx_msg.rs:301-456 | after every run the poller was woken if there is a filter update to poll |
| `Membership.RegisterIs` | emcyphal/src/registry/rx_msg.rs:264-309 | an entry is accepted, and then registered, exactly when its subject is registered or has a free slot, and nobody else comes or goes |
| `Membership.UnregisterIs` | emcyphal/src/registry/rx_msg.rs:311-389 | a removed entry is registered no more, and no other entry goes with it |
| `Membership.MembersAreRegistered` | emcyphal/src/registry/rx_msg.rs:264-456 | after every run exactly the accepted and not removed entries are registered, and when nothing is left to poll all of them are active |
| `Membership.PollingEnds` | emcyphal/src/registry/rx_msg.rs:440-526 | as many polls as there are pieces of backlog leave nothing to poll and every registered entry active |
| `Membership.EveryMemberIsServed` | emcyphal/src/registry/rx_msg.rs:36-47 | after any run with nothing left to poll, a push reaches every entry of its subject registered before it that still is active, whatever registry steps come between |
| `Registry.SweepMark` | emcyphal/src/registry/rx_msg.rs:458-480 | the range of a marked entry is not empty, touches no active subject, and stands for all subjects the mark covered |
| `Registry.LeaveAgree` | emcyphal/src/registry/rx_msg.rs:322-357 | a removed head leaves its subject covered by the next entry's mark or by the last range |
| `Delivery.DeliveredExactlyOnce` | emcyphal/src/registry/rx_msg.rs:36-47 | with any registry steps between the steps of one push no entry gets the frame twice or wrongly, the next entry is live, and at the end every entry active from start to end got it |
| `Delivery.LeaveProgress` | emcyphal/src/registry/rx_msg.rs:333-377 | when the entry to be served next is removed the push turns to its successor of the same subject, losing and repeating nobody |
| `Delivery.NextProgress` | emcyphal/src/registry/rx_msg.rs:418-438 | serving an entry advances to its successor of the same subject or ends the push with everyone served |
| `Delivery.PushServesAll` | emcyphal/src/registry/rx_msg.rs:402-438 | a push with nothing in between ends after at most as many steps as there are active entries, and exactly the active entries of its subject got the frame, once each |
| `Slots.SlotsAreConserved` | emcyphal/src/registry/rx_msg.rs:250-525 | in runs that poll to the end before each removal free slots and registered subjects add up to the slot count, and the filter never holds more |
| `Slots.UnregisterConservesIff` | emcyphal/src/registry/rx_msg.rs:311-389 | in any reachable state a removal conserves slots exactly under a guard on marks, heads and other entries of the subject |
| `Slots.UndrainedLeak` | emcyphal/src/registry/rx_msg.rs:379-389 | without the poll a removed inactive entry keeps its slot |
| `Slots.UndrainedSurplus` | emcyphal/src/registry/rx_msg.rs:342-349 | removing a marked head with a successor of its subject gives back exactly one slot too many |
| `Slots.UndrainedSurplusIsReachable` | emcyphal/src/registry/rx_msg.rs:342-349 | without the poll a removed marked head gives back a slot although its subject stays |
| `RegularRegistry.RegularInner.RegRegister` | emcyphal/src/registry/rx_msg.rs:264-309 | the registry object registers as the state machine does, keeping flags, queues and filter in agreement |
| `RegularRegistry.RegularInner.RegUnregister` | emcyphal/src/registry/rx_msg.rs:311-389 | the registry object removes as the state machine does |
| `RegularRegistry.RegularInner.HubPollPopFilterUpdate` | emcyphal/src/registry/rx_msg.rs:440-456 | the registry object polls as the state machine does, and the update is sound for the filter so far |
| `RegularRegistry.RegularInner.HubPushStart` | emcyphal/src/registry/rx_msg.rs:402-416 | a push starts at the first entry of the subject; the assertion at 409 holds |
| `RegularRegistry.RegularInner.HubPushNext` | emcyphal/src/registry/rx_msg.rs:418-438 | exactly the next entry gets the frame |
| `SchedulerRuns.EveryRunGood` | emcyphal/src/registry/tx_queue.rs:57-128 | in every run of a new scheduler, whatever buffers answer, each registered entry is in exactly the list its mark names, at its most urgent ready priority, and flags match lists; if every poll was answered, what the hub waits for wakes it |
| `SchedulerRuns.StepGood` | emcyphal/src/registry/tx_queue.rs:66-113 | the hub stays woken for what it waits for after a step exactly when the step is not a poll whose buffer has no frame although its answer or another entry has its most urgent ready priority in the mask |
| `SchedulerRuns.HubIsWoken` | emcyphal/src/registry/tx_queue.rs:66-113 | in every run of answered polls the hub was woken if the most urgent ready priority of an entry is in the mask of the last poll that got no frame |
| `SchedulerRuns.WakesIff` | emcyphal/src/registry/tx_queue.rs:66-88 | a registration, removal or push wakes the hub exactly when it moves its entry to a list the hub waits for |
| `SchedulerRuns.PendingIffNoneReady` | emcyphal/src/registry/tx_queue.rs:101-113 | the poll yields a frame exactly when some entry's most urgent ready priority is in the mask and the chosen buffer has a frame |
| `Scheduler.ChosenIffReady` | emcyphal/src/registry/tx_queue.rs:151-163 | a list is chosen exactly when an entry is ready in the mask, and no entry is more urgent |
| `Scheduler.TryPopIndexed` | emcyphal/src/registry/tx_queue.rs:115-149 | index agreement survives a pop whatever the buffer answers |
| `Scheduler.UpdateIndexed` | emcyphal/src/registry/tx_queue.rs:66-88 | updating its position puts an entry where it belongs from anywhere |
| `Scheduler.MoveBackRight` | emcyphal/src/registry/tx_queue.rs:193-213 | moving an entry keeps lists, marks and flags in agreement |
| `Turns.NoInterleaving` | emcyphal/src/registry/tx_queue.rs:66-149 | for any buffers, from a frame of an entry that does not end its transfer, nobody else being in a transfer at that priority, to the end of it or the removal of the entry, every frame at that priority is its own, if each push to it and answer of it keeps that priority its most urgent one |
| `Turns.InterleavesIff` | emcyphal/src/registry/tx_queue.rs:66-163 | with one entry in a transfer at a priority, some poll lets another entry send there exactly when the priority is not the most urgent ready one of the first entry but is that of another |
| `Turns.StaysFirstIff` | emcyphal/src/registry/tx_queue.rs:66-149 | while its transfer goes on, an entry stays most urgent at the priority after a step exactly when the push to it or the answer of it keeps it so |
| `Turns.SteadyNoInterleaving` | emcyphal/src/registry/tx_queue.rs:66-149 | when every entry in a transfer at a priority keeps it first, from a frame that does not end its transfer to the end of it or the removal of its entry, every frame at that priority is from the same entry |
| `Turns.AtMostOneStarted` | emcyphal/src/registry/tx_queue.rs:66-149 | after every run of a new scheduler in which entries in a transfer at a priority keep it first, at most one entry is in a transfer there and in the started list, and that priority is its most urgent one |
| `Turns.StartsTransfer` | emcyphal/src/registry/tx_queue.rs:130-148 | a frame that does not end its transfer leaves its entry the one in a transfer at that priority, and most urgent there |
| `SinglePriority.StepAllSingle` | emcyphal/src/registry/tx_queue.rs:115-149 | buffers that send at one priority each, and stay ready until their transfers end, stay so after every step |
| `SinglePriority.SingleNoInterleaving` | emcyphal/src/registry/tx_queue.rs:66-149 | with single-priority buffers, in every run of a new scheduler, between a frame that does not end its transfer and the end of it, or the removal of its entry, every frame at that priority is from the same entry |
| `SinglePriority.SingleOneStarted` | emcyphal/src/registry/tx_queue.rs:66-149 | with single-priority buffers, after every run of a new scheduler at most one transfer is under way at each priority |
| `SinglePriority.SingleRoundRobin` | emcyphal/src/registry/tx_queue.rs:115-213 | with single-priority buffers, an entry at position k of the finished list sees at most k plus the number of started transfers of others end before its own first frame |
| `RoundRobin.RoundRobinBound` | emcyphal/src/registry/tx_queue.rs:115-213 | for any buffers, an entry that stays at position k of the finished list of a priority and silent sees at most k plus the number of transfers under way there end |
| `RoundRobin.StaysIff` | emcyphal/src/registry/tx_queue.rs:66-149 | an entry stays in the finished list of a priority and silent exactly when it is not removed, no push to it and no answer of it makes another priority its most urgent one, and it is not asked for a frame it has |
| `RoundRobin.EachAheadEndsOnce` | emcyphal/src/registry/tx_queue.rs:115-213 | the transfers that end meanwhile are of different entries, all ahead of it from the start |
| `LostTurns.InterleavesWithTwoPriorities` | emcyphal/src/registry/tx_queue.rs:66-88 | a push of a more urgent transfer in the middle of another lets a second entry send at the priority in between |
| `LostTurns.LosesTurnWithTwoPriorities` | emcyphal/src/registry/tx_queue.rs:66-88 | a push of a more urgent transfer takes the first entry, still silent, out of a finished list, and a transfer of another ends there although the bound is zero |
| `LostTurns.TwoRegistered` | emcyphal/src/registry/tx_queue.rs:58-60 | the state those two runs start in is reached by two registrations |
| `TxQueues.TxQueue.HubPollPop` | emcyphal/src/registry/tx_queue.rs:101-113 | the scheduler object polls as the state machine does; lists, marks and readiness agree whatever the buffer answers, and the hub waits rightly exactly when the poll was answered |
| `TxQueues.TxQueue.HubTryPop` | emcyphal/src/registry/tx_queue.rs:115-149 | the scheduler object takes, marks and requeues as the state machine does; its assertions hold of a buffer that keeps to the priority and MTU it was asked for |
| `TxQueues.TxQueue.RegRegister` | emcyphal/src/registry/tx_queue.rs:58-60 | registration puts the entry where its readiness says |
| `TxQueues.TxQueue.RegUnregister` | emcyphal/src/registry/tx_queue.rs:62-64 | the entry leaves its list |
| `TxQueues.TxQueue.RegPush` | emcyphal/src/registry/tx_queue.rs:66-88 | a pushed transfer moves the entry only if its list changes |
| `SignalRuns.NeverTears` | emcyphal/src/buffer/tx_msg/signal.rs:130-260 | in every interleaving on a new double buffer the popped frames are those of an in-order choice of pushed transfers, one whole transfer after the other, with the bytes of their push, and both indices keep one owner |
| `SignalRuns.CutTold` | emcyphal/src/buffer/tx_msg/signal.rs:139-162 | each frame continues the transfer under way, from untouched bytes |
| `SignalRuns.PushTold` | emcyphal/src/buffer/tx_msg/signal.rs:222-259 | a push replaces the waiting transfer and never the one under way |
| `Signals.GetScratchpadSound` | emcyphal/src/buffer/tx_msg/signal.rs:200-220 | the two indices stay with one owner each, so the unwrap at 208 succeeds, and readiness does not change |
| `Signals.ReadyUntilEnd` | emcyphal/src/buffer/tx_msg/signal.rs:122-169 | a ready buffer always has a frame within the MTU and stays ready until the frame that ends its transfer |
| `SignalBuffers.SignalBuffer.Scratchpad` | emcyphal/src/buffer/tx_msg/signal.rs:200-220 | the returned buffer is owned by the writer alone |
| `SignalBuffers.SignalBuffer.PopFrame` | emcyphal/src/buffer/tx_msg/signal.rs:130-169 | the frame bytes, time and loop-back mark are those of the next frame of the transfer under way |
| `SignalBuffers.SignalBuffer.PushTransfer` | emcyphal/src/buffer/tx_msg/signal.rs:222-260 | the scratchpad becomes the waiting transfer, with the three error cases |
| `SignalRuns.NewIsTold` | emcyphal/src/buffer/tx_msg/signal.rs:99-118 | a new double buffer has told nothing and owns both indices |
| `Signals.PushIff` | emcyphal/src/buffer/tx_msg/signal.rs:222-260 | a push succeeds exactly when it names no address, is at the priority of the buffer and the scratchpad was taken, and then the scratchpad is the waiting transfer; otherwise nothing changes and the first reason is told |
| `SignalCalls.PushesAreCalls` | emcyphal/src/buffer/tx_msg/signal.rs:200-260 | over every run of a new buffer the recorded pushes are exactly the calls without an address, at its priority, with the scratchpad taken since the last of them, and with the bytes last written |
| `Signals.ScratchpadGivesUp` | emcyphal/src/buffer/tx_msg/signal.rs:200-220 | taking the scratchpad gives up the waiting transfer exactly when the other buffer is being sent from |
| `Signals.PopIff` | emcyphal/src/buffer/tx_msg/signal.rs:130-169 | a pop gets a frame exactly when a transfer is waiting or under way and the priority is in the mask, and begins the waiting one only when none is under way |
| `Signals.EachIsOwned` | emcyphal/src/buffer/tx_msg/signal.rs:86-95 | each of the two indices is waiting, being sent, being written or free |
| `Signals.TryPopSound` | emcyphal/src/buffer/tx_msg/signal.rs:130-169 | a pop keeps each index with one owner |
| `Watches.NewestIsKept` | emcyphal/src/buffer/rx_msg/watch.rs:147-365 | over every run of a new watch accepted and read transfers never go back in time, the minimum timestamp is that of the last accepted one, each read transfer is an accepted one with its bytes, and every index keeps one owner |
| `Watches.PushKeepsLatest` | emcyphal/src/buffer/rx_msg/watch.rs:147-256 | the waiting transfer and its bytes stay until a not older one is accepted |
| `Watches.TryPopValid` | emcyphal/src/buffer/rx_msg/watch.rs:341-365 | reading out keeps every index owned once |
| `Watches.ReadsWaiting` | emcyphal/src/buffer/rx_msg/watch.rs:341-365 | a read gets the waiting transfer exactly when its priority is in the mask, and leaves it waiting otherwise |
| `WatchRuns.AcceptsTheNewest` | emcyphal/src/buffer/rx_msg/watch.rs:147-256 | over every run of a new watch the accepted transfers are those of all completed ones that are not older than any accepted before |
| `WatchRuns.SessionReuseIsExact` | emcyphal/src/buffer/rx_msg/watch.rs:258-281 | over runs with non-decreasing timestamps a start of transfer of a new source leaves it without a session exactly when all slots are used by sessions whose last start is no more than the timeout ago |
| `WatchRuns.UnexpiredKeepsSlot` | emcyphal/src/buffer/rx_msg/watch.rs:258-281 | no frame evicts a session whose last start is no more than the timeout ago, or changes it unless it is of its source |
| `WatchRuns.FrameMatches` | emcyphal/src/buffer/rx_msg/watch.rs:147-317 | a frame keeps the sessions of the watch the same as those of the buffer with queues, and of what it completes there the watch accepts what is not older |
| `Watches.PushFrameValid` | emcyphal/src/buffer/rx_msg/watch.rs:258-317 | sessions, transfer slot and readout slot keep separate buffers after every frame |
| `Watches.NewIsKept` | emcyphal/src/buffer/rx_msg/watch.rs:124-145 | a new watch holds every buffer index once and has nothing to keep |
| `Watches.SettleLatest` | emcyphal/src/buffer/rx_msg/watch.rs:173-203 | a frame changes the latest transfer exactly by the delivery it completes, if that is not older, and then session and transfer exchange buffers |
| `Watches.StartKeepsLatest` | emcyphal/src/buffer/rx_msg/watch.rs:258-281 | starting a session touches neither the latest transfer nor its bytes |
| `WatchBuffers.WatchBuffer.constructor` | emcyphal/src/buffer/rx_msg/watch.rs:124-145 | a new object shows the new watch, and shares with its caller only the buffers given |
| `Replays.Watch` | emcyphal/src/buffer/rx_msg/watch.rs:124-365 | over every run of frames and reads a new object is where the watch is, and its reader gets exactly what the watch reads |
| `WatchBuffers.WatchBuffer.PushFrame` | emcyphal/src/buffer/rx_msg/watch.rs:295-317 | whatever watch state the object shows, after a frame it shows the next one, and the readout buffer is untouched |
| `WatchBuffers.WatchBuffer.PushRegularFrame` | emcyphal/src/buffer/rx_msg/watch.rs:147-209 | a source's frame is collected in its session's buffer, and a completed transfer is accepted, as in the watch |
| `WatchBuffers.WatchBuffer.AcceptTransfer` | emcyphal/src/buffer/rx_msg/watch.rs:177-203 | an accepted transfer and its session exchange buffers; an older one changes nothing |
| `WatchBuffers.WatchBuffer.PushAnonymousFrame` | emcyphal/src/buffer/rx_msg/watch.rs:211-256 | a valid anonymous frame not older than the newest overwrites the transfer buffer, as in the watch |
| `WatchBuffers.WatchBuffer.TryStartNewSession` | emcyphal/src/buffer/rx_msg/watch.rs:258-281 | a new source takes the next unused buffer or that of an expired least recent session, as in the watch |
| `WatchBuffers.WatchBuffer.TryPop` | emcyphal/src/buffer/rx_msg/watch.rs:341-365 | the transfer read and its bytes are those of the watch; transfer and readout exchange buffers |

## Left out

- RxFifo.RxPriorityFifo.PushFrame: requires a session slot for a start of transfer of a named source, because with none the unwrap at emcyphal/src/buffer/rx_priority_fifo.rs:176 fails.
- WatchBuffers.WatchBuffer.PushFrame: requires the same, because of the unwrap at emcyphal/src/buffer/rx_msg/watch.rs:263.
- Turns.NoInterleaving: assumes the entry keeps the priority its most urgent one, because another sends otherwise, as `Turns.InterleavesIff` says.
- RoundRobin.RoundRobinBound: assumes the entry stays in the list, because it fails otherwise, as `LostTurns.LosesTurnWithTwoPriorities` shows.
- SinglePriority.SingleRoundRobin: assumes a buffer that is asked has a frame, because a silent one may leave the list.
- Replays.Replay: requires frames the object may be given, because of the unwrap at emcyphal/src/buffer/rx_priority_fifo.rs:176.
- Replays.Watch: requires the same, because of the unwrap at emcyphal/src/buffer/rx_msg/watch.rs:263.
- Priority sets are sets of priorities in the objects; that the bit operations refine them is proved separately in `Priorities`.
- `LoopBackInner` and the request and response registries, `tx_msg::Blocking` and `tx_resp::Blocking`: the same arguments in easier form.
- `Signal` and `Watch` wakers for emptiness and readiness, and the poll functions around them.
- Drivers, message RAM, CAN-id packing and executors: they rest on hardware or library behaviour that is not part of this model.
- Serialization of data types: a payload is a byte sequence, and its CRC is a parameter of a push.
- Raw pointers, lifetimes and drops: objects are references, and a removed entry is not registered again during a push.
- The lifetime rule of `BufferToken`: a returned slice is a value; that its bytes stay put until the next pop is `Isolation.ReadoutIsStable`.
