# A verified model of the market-data feed

The repository is a market-data feed: generators that produce numbered messages, a fixed 44-byte
wire format, transports, and three engines that receive the messages and check their sequence
numbers. This project models the parts whose correctness is not evident from reading one function:
the lock-free ring and the pipelines built on it, the blocking queue, the latency histogram, and the
loops and parsers between the generator and the engines' metrics.

How the system is modelled:

- **Threads** are transition systems. One step is one atomic load, store, read-modify-write or slot
  byte, and every interleaving of steps is a run. A theorem about a run holds at every state of every
  run of any length. Memory is sequentially consistent.
- **In-place code** (the ring, the pool, the circular buffer, the codec, the trackers, the sender, the
  generators, reassembly, the histogram) is imperative: classes, arrays and loops, each method proved
  against a specification function that the lemmas beside it are about.
- **The kernel and other peers** are arbitrary functions or arbitrary inputs of a step: what `recvmmsg`
  delivers, what `sendmmsg` accepts, which sleeper a notification wakes.
- **Machine arithmetic** is explicit wherever it can wrap: ring counters, sequence numbers, bucket and
  sample counters, the quantile target, the random state, the signed and unsigned casts of the codec.

The modules, from the bottom up:

| module | what it covers |
|---|---|
| `Wrappers`, `Words`, `Codec`, `SequenceTracking`, `Lcg` | options, wrapping arithmetic, wire format, sequence tracker, random numbers |
| `RingBuffers`, `RingLinearizable`, `TwoPushers`, `FramePools` | the ring at load/store level, its linearizability, its use by two pushers, the pool |
| `LossyFifos`, `PipelineV1`, `PipelineV1Turns` | the specification of a pipeline, the first engine, and whole turns of its threads |
| `PipelineV2`, `PipelineV2Turns`, `PipelineV2Flow`, `PipelineV2Steps`, `PipelineV2Loss` | the second engine: its indices, whole turns of its threads and its frames with atomic ring calls; the same at load/store level, and what is lost there |
| `BlockingQueues`, `Monitors`, `MonitorCalls` | the circular buffer, the monitor around it, and what its calls return |
| `Latency`, `LatencyRace` | quantiles against order statistics, recorder against snapshot |
| `Reassembly`, `StreamServers`, `StreamServerTurns` | TCP reassembly into the pool, its server interleaved with the consumer, and whole calls of it |
| `Senders`, `Generators`, `FeedLaws`, `UdpFrames` | batch sender, both generators, the feed they send, raw-frame parser with the third engine |
| `EndToEnd` | generator, wire, lossy channel, each of the three engines, metrics |

The main results:

- **Ring.** With one pusher and one popper, interleaved at every load and store, every run is a
  linearization of a bounded FIFO of exactly `Capacity` elements, also after the counters wrap past
  2^64.
- **First engine.** Slot ownership, the fact that no push fails (so that each ring has one pusher and
  one popper) and the correctness of both rings hold by one simultaneous induction. The pipeline refines
  a lossy FIFO, byte for byte, and conserves datagrams; a datagram is dropped if and only if it is
  incomplete or no slot is free, and every turn of either thread ends after a fixed number of accesses.
- **Second engine.** The same refinement and conservation for the batched pipeline with its early exits,
  push and pop being atomic, up to the one batch that may be abandoned at a stop and the one batch that
  may be published after the consumer has left. The frames published are exactly the complete ones, and
  the engine stops itself only after a receive that failed. At load/store level every run in which the two pushers
  of `free` do not interfere is such an atomic run; in every run the number of indices missing is known
  exactly, and it is zero if and only if they did not interfere.
- **TCP reassembly.** For any number of connections, every chunking of their streams and every
  interleaving with the consumer, each slot between the threads holds one 44-byte frame of its stream,
  in stream order; frames are dropped exactly when no slot is free, and drops never shift the framing. A
  call made while the consumer rests computes what the in-place code is proved to compute.
- **Blocking queue.** Conservation and no deadlock in every run, and no lost wakeup exactly as long as
  every `clear()` meets a condition on the waiting threads, for any number of threads, spurious wakeups
  included. A closed queue still hands out everything it holds, in order.
- **Histogram.** Each quantile of a snapshot is the edge of the microsecond that holds the exact order
  statistic, and no sample or maximum is lost between recorder and snapshot in any interleaving.
- **Feed.** The random numbers have full period in every number of low bits; of any `gap_mod` consecutive
  draws exactly `gap_span` make a gap when `gap_mod` is a power of two; batched and unbatched generator
  send the same feed at every rate and burst size.
- **End to end.** Generator output through the codec, any in-order lossy channel and every interleaving
  of either threaded engine gives exact metrics, and so does the third engine among foreign packets.

Promises that turned out to hold only under a condition; each has the exact condition and an instance:

- The `free` ring of the second engine, on which the IO thread pops and pushes while the consumer pushes,
  loses no index if and only if no pusher loads the tail while the other holds it and no push is refused
  on a head that is no longer current (`TwoPushers.NothingLostIff` for every use of the ring,
  `PipelineV2Loss.NothingLostIff` for every run of the engine). `HeldTailLoses` loses any number of
  indices under one held tail, `StaleHeadRefuses` one without any overlap; `RefusedIff` says how many
  pushes between the two loads of a push make it fail.
- In every run of the blocking queue all sleepers stay covered if and only if every `clear()` finds the
  queue closed, no more sleeping enqueuers than notifications owed to them, or notifications and active
  enqueuers enough for the whole emptied queue (`CoveredIffSafeClears`). Covered means that the
  notifications owed suffice for the sleepers, or that these and the active threads suffice for the items
  or places there are. `ClearLosesWakeup` and, from the initial state, `LostWakeupIsReachable` end with a
  sleeper that nobody will wake.
- The next expected number is one past the maximum if and only if the maximum is below 2^64 - 1
  (`ExpectedIsNextIff`, `WrapProcessesDuplicate`).
- A quantile's target is the exact rank if and only if `samples * num + den - 1` fits in 64 bits
  (`TargetExactIff`, `WrappedMedian`).
- An extracted UDP payload stays inside the IP datagram if and only if the UDP length agrees with the IP
  total length (`StaysInsideDatagramIff`, `OverrunIsAccepted`).
- The second engine abandons a received batch if and only if it finds itself stopped at the check
  between receiving and publishing (`LeftBehindIff`, `AbandonedIff`; `AbandonedRun` for every pool and
  every first batch).

`docs/DESIGN.md` (lines 60-71) shows a message without a sequence number and with unsigned sizes; the
model follows the code, which has a sequence number and signed 32-bit sizes.

## Model

| member | source | states |
|---|---|---|
| Words.CapacityIsPow2 | src/containers/ring_buffer.hpp:12-13 | every capacity that passes the two static assertions is a power of two |
| Words.MaskPicksSlot | src/containers/ring_buffer.hpp:27 | masking a wrapped counter gives the position of the unwrapped one modulo the capacity, because the capacity divides 2^64 |
| Words.SlotsDistinct | src/containers/ring_buffer.hpp:66 | different elements of one window of at most `Capacity` never share a slot |
| RingBuffers.Occupancy | src/containers/ring_buffer.hpp:61 | the wrapping difference of the counters is the number of elements held; equal counters mean empty |
| RingBuffers.PushStepKeeps | src/containers/ring_buffer.hpp:55-69 | each load and store of `push` keeps the memory representing its history and keeps what the pusher and a concurrent popper know |
| RingBuffers.PopStepKeeps | src/containers/ring_buffer.hpp:71-85 | the same for each load and store of `pop` against a concurrent pusher |
| RingBuffers.PushAloneAppends | src/containers/ring_buffer.hpp:55-69 | the four accesses of an undisturbed `push` append, or refuse exactly when `Capacity` elements are held |
| RingBuffers.PopAloneRemoves | src/containers/ring_buffer.hpp:71-85 | the four accesses of an undisturbed `pop` remove the oldest element, or refuse exactly when empty |
| RingBuffers.RingBuffer.constructor | src/containers/ring_buffer.hpp:24-29 | a new ring is empty |
| RingBuffers.RingBuffer.Empty | src/containers/ring_buffer.hpp:32-38 | true exactly when nothing is held |
| RingBuffers.RingBuffer.Full | src/containers/ring_buffer.hpp:40-46 | true exactly when `Capacity` elements are held |
| RingBuffers.RingBuffer.Reset | src/containers/ring_buffer.hpp:48-53 | empties the ring whatever it held |
| RingBuffers.RingBuffer.Push | src/containers/ring_buffer.hpp:55-69 | in place: appends and succeeds iff there was room, and is the four accesses of the step model |
| RingBuffers.RingBuffer.Pop | src/containers/ring_buffer.hpp:71-85 | in place: returns and removes the oldest iff there was one, and is the four accesses of the step model |
| RingLinearizable.PushPointAllowed | src/containers/ring_buffer.hpp:55-69 | at its linearization point a push is a step that the bounded FIFO allows, failing pushes included |
| RingLinearizable.PopPointAllowed | src/containers/ring_buffer.hpp:71-85 | at its linearization point a pop is a step that the bounded FIFO allows, failing pops included |
| RingLinearizable.RunLinearizes | src/containers/ring_buffer.hpp:8-85 | every run of one pusher and one popper, of any length, is linearizable to a FIFO of exactly `Capacity` elements |
| TwoPushers.NothingLostIff | src/engine/v2/engine.cpp:295-331 | for every schedule of any pops and pushes of the IO thread and any pushes of the consumer, whenever neither holds the tail: the indices outside, in hand and between head and tail fall short by exactly `Lost`; `Lost` is 0 iff no pusher loaded the tail while the other held it and none was refused on a stale head; then the ring is right and every index is where it should be |
| TwoPushers.CountersShowLoss | src/containers/ring_buffer.hpp:58-67 | between calls the wrapping difference of the counters and the indices outside add up to the capacity under exactly the same condition |
| TwoPushers.RefusedIff | src/containers/ring_buffer.hpp:58-64 | without an overlap the consumer is refused exactly when as many indices were pushed between its two loads as there were places at the first |
| TwoPushers.IoNeverRefused | src/engine/v2/engine.cpp:312-331 | without an overlap the IO thread, which alone moves the head, is never refused |
| TwoPushers.HeldTailLoses | src/engine/v2/engine.cpp:444 | from every start, while the consumer holds the tail, any indices that the IO thread pushes with success are lost when the consumer stores it |
| TwoPushers.StaleHeadRefuses | src/engine/v2/engine.cpp:444 | from every start with an index in the ring, without overlap, the consumer is refused although there is a place, and its index is gone |
| FramePools.IndicesOnce | src/containers/frame_pool.hpp:20-22 | the initial free list holds every index exactly once and nothing else |
| FramePools.FramePool.constructor | src/containers/frame_pool.hpp:10-15 | slots and two separate rings of the same capacity |
| FramePools.FramePool.Init | src/containers/frame_pool.hpp:17-23 | whatever the rings held, afterwards every index is free, in order, and nothing is ready |
| Codec.WireBytesAreBigEndian | src/protocol/encode.hpp:15-48 | swapping and copying puts the big-endian bytes on the wire in either host byte order |
| Codec.ReadIsBigEndian | src/protocol/decode.hpp:10-32 | copying and swapping reads wire bytes as a big-endian number in either host byte order |
| Codec.ByteAt | src/protocol/encode.hpp:27-48 | byte `i` of `n` on the wire is the digit of weight 256^(n - 1 - i) |
| Codec.ValueOf | src/protocol/decode.hpp:10-32 | the value read is the sum of the digits by weight, most significant first |
| Codec.TwosComplement | src/protocol/encode.hpp:43-48 | a signed field travels as its value modulo 2^32 or 2^64 |
| Codec.FieldsOfWire | src/protocol/encode.hpp:10-12 | each of the seven fields lies at its absolute offset of the 44 bytes |
| Codec.ParseWire | src/protocol/decode.hpp:34-50 | decoding an encoded message gives the message back, negative fields included, whatever follows it |
| Codec.WireParse | src/protocol/encode.hpp:50-66 | every buffer of at least 44 bytes decodes, and encoding the result gives its first 44 bytes back; shorter ones do not decode |
| Codec.WriteWord | src/protocol/encode.hpp:27-48 | overwrites exactly `n` bytes at the offset with the big-endian value and advances the offset |
| Codec.Encode | src/protocol/encode.hpp:50-66 | the seven writes tile an uninitialised 44-byte buffer completely |
| Codec.ReadWord | src/protocol/decode.hpp:10-32 | reads the big-endian value at the offset and advances it |
| Codec.Decode | src/protocol/decode.hpp:34-50 | refuses short buffers and otherwise reads the parsed message |
| SequenceTracking.MeteredTracker.OnMessage | src/engine/v1/engine.cpp:97-115 | one message is one tracker step on state and all metrics |
| SequenceTracking.BareTracker.OnMessage | src/engine/v3/engine.cpp:312-327 | the third engine's tracker agrees with the metered one from every common state |
| SequenceTracking.RecordsShape | src/engine/v2/engine.cpp:411-430 | the left-to-right maxima of the arrivals strictly increase from the first arrival to the maximum |
| SequenceTracking.TrackerCountsRecords | src/engine/v1/engine.cpp:97-115 | for all arrivals below 2^64 - 1, in any order and with duplicates, as many are processed as there are left-to-right maxima, the rest are dropped, and expected is one past the maximum |
| SequenceTracking.ProcessedAreRecords | src/engine/v1/engine.cpp:97-115 | the numbers on which the tracker itself counts a message as processed are exactly the left-to-right maxima, in order |
| SequenceTracking.GapsAreMissingNumbers | src/engine/v1/engine.cpp:107-111 | the gap counter is the number of sequence numbers between the first arrival and the expected one that the tracker never processed; the processed ones strictly increase; processed and drops add up to received |
| SequenceTracking.ConservationModulo | src/engine/v2/engine.cpp:411-430 | on all arrivals, wrapping ones included, processed plus gaps is congruent to expected minus first modulo 2^64 |
| SequenceTracking.ExpectedIsNextIff | src/engine/v1/engine.cpp:100-111 | expected is one past the maximum iff the maximum is below 2^64 - 1 |
| SequenceTracking.WrapProcessesDuplicate | src/engine/v1/engine.cpp:100-111 | an instance of the wrap: a duplicate of the last representable number is processed twice |
| LossyFifos.TrackNext | src/engine/v1/engine.cpp:97-119 | every 44-byte frame decodes, and decoding one more frame is one more tracker step |
| PipelineV1.RunKeeps | src/common/net/v1/udp_server.hpp:208-235 | rings, program counters, ownership, slot contents, counts and order hold together at every state of every run |
| PipelineV1.EverySlotHasOneHolder | src/common/net/v1/udp_server.hpp:218-230 | each index is always in exactly one of free, the IO thread's hand, ready and the consumer's hand |
| PipelineV1.NoPushFails | src/common/net/v1/udp_server.hpp:227-230 | no push ever fails, the fallback push is unreachable, and every access stays inside its array |
| PipelineV1.OnlyHeldSlotsAreWritten | src/common/net/v1/udp_server.hpp:226 | a slot changes only while the IO thread alone holds it, never while it is free, ready or being decoded |
| PipelineV1.RunsAreLossyFifos | src/engine/v1/engine.cpp:92-125 | the k-th frame decoded is byte for byte the k-th datagram accepted, accepted datagrams keep their order, and the tracker has seen exactly those |
| PipelineV1.DatagramsAreConserved | src/common/net/v1/udp_server.hpp:208-234 | datagrams handled are IO drops plus processed plus out-of-order drops plus at most capacity plus one in flight; decode errors are 0 |
| PipelineV1.ConsumerDrainsBeforeExit | src/engine/v1/engine.cpp:94 | at the moment the consumer leaves its loop everything accepted has been decoded |
| PipelineV1.StrandedAtTheEnd | src/engine/v1/engine.cpp:94 | after the consumer has left nothing more is decoded, and at most as many frames as there are slots stay in `ready` |
| PipelineV1.DropsIff | src/common/net/v1/udp_server.hpp:212-225 | in every run a datagram is dropped at a step iff it is truncated or not 44 bytes long, or the step finds `free` empty |
| PipelineV1Turns.IoTurn | src/common/net/v1/udp_server.hpp:209-234 | a turn of the IO thread alone: a bad datagram is dropped, a complete one without a free slot too, and otherwise it is copied to the slot free longest and published, in 53 accesses |
| PipelineV1Turns.ConsumerTurn | src/engine/v1/engine.cpp:94-124 | a turn of the consumer alone: the oldest ready frame is decoded, tracked and its slot given back, running or not; with none ready it goes on while running and leaves otherwise |
| PipelineV2.RunKeeps | src/engine/v2/engine.cpp:290-450 | ownership and the bounds on both hands hold at every state of every run, on every exit path |
| PipelineV2.EveryIndexHasOneHolder | src/engine/v2/engine.cpp:295-349 | no index is ever lost or duplicated |
| PipelineV2.NoPushFails | src/engine/v2/engine.cpp:312-331 | whenever a thread is about to push, the ring has room, so the fallback is unreachable |
| PipelineV2.AtMostOneBatchLeftBehind | src/engine/v2/engine.cpp:338-392 | at the outer loop head the IO thread holds nothing while running, and after it left at most one batch is missing from circulation |
| PipelineV2.LeftBehindIff | src/engine/v2/engine.cpp:360 | a step leaves a batch behind iff it is the check between receiving and publishing, after a stop; then it is the whole batch |
| PipelineV2.AtMostOneBatchStranded | src/engine/v2/engine.cpp:360-361 | after the consumer has left, at most the one batch that was being published stays in `ready` |
| PipelineV2Turns.StopsOnlyOnError | src/engine/v2/engine.cpp:350-389 | in every run the engine stops only from outside, or through a receive that returned less than 0 earlier |
| PipelineV2Turns.ReserveTurn | src/engine/v2/engine.cpp:338-345 | at the loop head while running the IO thread asks for frames with the oldest free indices, at most 32, or starts over with none; once stopped it leaves |
| PipelineV2Turns.ReserveBatch | src/engine/v2/engine.cpp:295-309 | reserving takes the oldest free indices, at most 32 |
| PipelineV2Turns.BatchTurn | src/engine/v2/engine.cpp:318-368 | a receive that got frames: the good ones are published in order, the bad ones and the unused indices given back, and the IO thread reserves again |
| PipelineV2Turns.NothingTurn | src/engine/v2/engine.cpp:346-349 | a receive that got nothing: everything is given back and the loop starts over |
| PipelineV2Turns.FailedTurn | src/engine/v2/engine.cpp:351-389 | a receive that failed, first or while draining: everything is given back and the engine stops |
| PipelineV2Turns.ConsumerTurn | src/engine/v2/engine.cpp:400-447 | a turn of the consumer alone: the oldest ready indices, at most 32, are processed and given back in order, running or not; with none it goes on while running and leaves otherwise |
| PipelineV2Flow.CoresRun | src/engine/v2/engine.cpp:290-450 | the indices of every run with data are a run of the index machine, so its results carry over |
| PipelineV2Flow.ReceiveFills | src/engine/v2/engine.cpp:303-306 | the kernel writes every complete datagram into its reserved slot and leaves the slots of queued frames alone |
| PipelineV2Flow.RunKeeps | src/engine/v2/engine.cpp:295-445 | slot contents, batch, queue, counts and order hold together at every state of every run |
| PipelineV2Flow.RunsAreLossyFifos | src/engine/v2/engine.cpp:318-445 | the batched pipeline refines the same lossy FIFO as the first engine |
| PipelineV2Flow.PublishedAreComplete | src/engine/v2/engine.cpp:320-330 | in every run the frames published are exactly the untruncated 44-byte datagrams among those worked off, in order |
| PipelineV2Flow.DatagramsAreConserved | src/engine/v2/engine.cpp:318-430 | datagrams received are IO drops plus processed plus out-of-order drops plus in flight plus at most 32 abandoned at a stop; decode errors are 0 |
| PipelineV2Flow.OnlyHeldSlotsAreWritten | src/engine/v2/engine.cpp:295-309 | a slot changes only while the IO thread holds it, never while it is queued or being decoded |
| PipelineV2Flow.ConsumerDrainsBeforeExit | src/engine/v2/engine.cpp:400 | at the moment the consumer leaves its loop everything published has been decoded |
| PipelineV2Flow.StrandedAtTheEnd | src/engine/v2/engine.cpp:400 | after that the frames published and never decoded are those in `ready`, at most one batch |
| PipelineV2Flow.AbandonedIff | src/engine/v2/engine.cpp:360 | in every run, datagrams are abandoned at a step iff there the IO thread, with a batch received, finds the engine stopped; what is lost is that batch |
| PipelineV2Flow.AbandonedRun | src/engine/v2/engine.cpp:338-360 | for every pool and every first batch there is a run from the start that abandons all of it with its indices |
| PipelineV2Steps.CleanRunsAreAtomic | src/engine/v2/engine.cpp:290-450 | every run at load/store level, as far as the pushers of `free` have not interfered, is a run of the machine with atomic push and pop |
| PipelineV2Steps.CleanRunsLoseNothing | src/engine/v2/engine.cpp:312-331 | in such runs every index has exactly one holder at every single access |
| PipelineV2Steps.IoProgress | src/engine/v2/engine.cpp:295-331 | wait-free: in clean runs every access of the IO thread completes a step of the atomic machine or brings it nearer, five accesses at most |
| PipelineV2Steps.ConsumerProgress | src/engine/v2/engine.cpp:400-445 | the same for the consumer |
| PipelineV2Steps.PublishBegins | src/engine/v2/engine.cpp:320-330 | a good frame's index begins its way to `ready`, a bad one's back to `free` with a drop |
| PipelineV2Loss.RunKeeps | src/engine/v2/engine.cpp:290-450 | positions, refusals, `ready`, calls and the count of all indices hold together in every run at load/store level, interfering or not |
| PipelineV2Loss.NothingLostIff | src/engine/v2/engine.cpp:290-450 | in every run at load/store level, whenever nobody holds the tail of `free`, both hands, `ready` and the positions of `free` fall short of the capacity by exactly `Lost`, which is 0 iff the pushers never interfered |
| BlockingQueues.BoundedQueue.constructor | src/containers/blocked_bounded_queue.hpp:34-39 | a new queue is empty and open |
| BlockingQueues.BoundedQueue.EnqueueBody | src/containers/blocked_bounded_queue.hpp:51-63 | appends to the contents of the circular buffer, or refuses when closed |
| BlockingQueues.BoundedQueue.DequeueBody | src/containers/blocked_bounded_queue.hpp:74-86 | returns and removes the oldest element, or nothing when closed and empty |
| BlockingQueues.BoundedQueue.Clear | src/containers/blocked_bounded_queue.hpp:117-123 | forgets the contents |
| BlockingQueues.BoundedQueue.Close | src/containers/blocked_bounded_queue.hpp:126-129 | closes and keeps the contents |
| Monitors.DoKeeps | src/containers/blocked_bounded_queue.hpp:44-133 | every step keeps mutual exclusion and the queue, and keeps the cover of every sleeper iff it is not a `clear` outside the condition |
| Monitors.RunsKeepQueue | src/containers/blocked_bounded_queue.hpp:44-133 | in every run, `clear` included, what was enqueued is what was dequeued or cleared, in order, followed by what is queued, which never exceeds the capacity |
| Monitors.CoveredIffSafeClears | src/containers/blocked_bounded_queue.hpp:44-133 | over every run from the start, with spurious wakeups, `close` and `clear`: every sleeper is covered at every moment iff every `clear` met the condition |
| Monitors.RunsKeepInvariant | src/containers/blocked_bounded_queue.hpp:44-133 | in particular no lost wakeup in any run without `clear`, and there what was enqueued is what was dequeued followed by what is queued; after `close` a sleeper implies a pending `notify_all` |
| Monitors.SleepersHaveAReason | src/containers/blocked_bounded_queue.hpp:48-72 | when activity has died down, dequeuers sleep only on an empty and enqueuers only on a full open queue, never both |
| Monitors.SomeoneCanStep | src/containers/blocked_bounded_queue.hpp:44-133 | whenever the mutex is consistent, unless all are idle or asleep, some thread can take its next step |
| Monitors.RunsKeepLock | src/containers/blocked_bounded_queue.hpp:44-133 | mutual exclusion in every run, `clear` included: the mutex is held by the one thread inside it, if any |
| Monitors.NoDeadlock | src/containers/blocked_bounded_queue.hpp:44-133 | no deadlock in any run, `clear` included: all threads are idle or asleep, or the run can go on with a step inside a call |
| Monitors.ClearKeepsCoverIff | src/containers/blocked_bounded_queue.hpp:117-123 | one `clear` keeps the cover iff the queue is closed, the notifications owed suffice for the sleeping enqueuers, or these and the active enqueuers suffice for the whole capacity |
| Monitors.ClearLosesWakeup | src/containers/blocked_bounded_queue.hpp:117-123 | from any quiet, open, full queue of any capacity, an enqueuer that falls asleep before a `clear` sleeps on over an empty queue |
| Monitors.LostWakeupIsReachable | src/containers/blocked_bounded_queue.hpp:117-123 | a run from the initial state, for every capacity and any two threads or more, ends quiet with an empty open queue and an enqueuer asleep |
| MonitorCalls.BodiesAgree | src/containers/blocked_bounded_queue.hpp:51-81 | inside the mutex `enqueue` refuses iff closed, `dequeue` iff empty and closed, and otherwise they append and take the oldest, as the circular buffer does |
| MonitorCalls.ClosedQueueDrains | src/containers/blocked_bounded_queue.hpp:74-86 | a closed queue hands out exactly its items, oldest first, and then refuses, as does `enqueue` |
| MonitorCalls.DequeueSome | src/containers/blocked_bounded_queue.hpp:66-87 | k whole calls of `dequeue` return the k oldest items in order |
| MonitorCalls.WholeCloseWakes | src/containers/blocked_bounded_queue.hpp:126-133 | a whole `close` closes the queue, keeps its items and wakes every sleeper of both waits |
| MonitorCalls.SleeperMayWake | src/containers/blocked_bounded_queue.hpp:48-72 | a sleeper may wake spuriously at any time and tests again |
| Latency.KthUnique | src/engine/v2/engine.cpp:248-252 | order statistics are unique, monotone in the rank and at most the maximum |
| Latency.KthWhenSorted | src/engine/v2/engine.cpp:248-252 | the k-th smallest sample is the one at place k of the sorted samples |
| Latency.CeilIsLeast | src/engine/v2/engine.cpp:250-252 | the rank is the least number of samples that is at least the fraction asked for |
| Latency.Quantile | src/engine/v2/engine.cpp:248-264 | the loop reports the edge of the first bucket at which the wrapping running count reaches the wrapping target |
| Latency.ScanFindsRank | src/engine/v2/engine.cpp:253-263 | on the counts of a log the loop stops exactly at the bucket of the sample of that rank, never at the end |
| Latency.TargetExactIff | src/engine/v2/engine.cpp:250-252 | the wrapping target is the exact ceiling iff `n * num + den - 1` is below 2^64 |
| Latency.QuantileIsOrderStatistic | src/engine/v2/engine.cpp:248-264 | a quantile is the upper edge of the bucket that holds the sample of rank ceil(n num / den), or the exact maximum if that sample is 20 ms or more |
| Latency.QuantilesOrdered | src/engine/v2/engine.cpp:266-268 | p50, p99 and p99.9 of one snapshot are in order |
| Latency.WrappedMedian | src/engine/v2/engine.cpp:250-252 | an instance of the wrap: at 2^63 samples the median's target is the first sample |
| Latency.HistogramCounts | src/engine/v2/engine.cpp:217-222 | below 2^64 samples the recorder's counters are the exact bucket counts of its log, which the quantile results take as their premise |
| Latency.Recorder.Record | src/engine/v2/engine.cpp:217-230 | the counters and the maximum stay those of the log, which grows by the sample, however often the compare-and-swap fails |
| Latency.ReportedIsQuantile | src/engine/v2/engine.cpp:248-268 | what is reported for a fraction is the upper edge of the microsecond of the sample of that rank, or the maximum from 20 ms on |
| Latency.Recorder.TakeSnapshot | src/engine/v2/engine.cpp:232-270 | p50, p99 and p99.9 of the snapshot are the quantiles of the whole log in that sense, an empty log gives zeros, and the counters are left empty |
| LatencyRace.RunKeeps | src/engine/v2/engine.cpp:217-242 | per bucket, drained plus standing equals increments, modulo 2^64 and exactly below 2^64 samples, and no maximum is lost, at every state of every interleaving |
| LatencyRace.NothingIsLost | src/engine/v2/engine.cpp:221-241 | all bucket counts are the samples logged and all sample counts those but for at most one in flight, modulo 2^64 and exactly below 2^64 samples; drained and standing maxima dominate every finished record and were recorded |
| LatencyRace.RecordAlone | src/engine/v2/engine.cpp:217-230 | a whole record alone adds one to its bucket and to the samples and raises the maximum |
| LatencyRace.SnapshotAlone | src/engine/v2/engine.cpp:236-241 | a whole snapshot alone drains every counter and leaves it at 0 |
| Lcg.GeometricDivides | src/generator/v2/generator.cpp:33-37 | the geometric sum of the multiplier is divisible by 2^k exactly when its length is |
| Lcg.ReturnsIff | src/generator/v2/generator.cpp:33-37 | from every state, `n` draws return to the same low `k` bits iff 2^k divides `n`, for all `k` up to 32 |
| Lcg.FullPeriod | src/generator/v2/generator.cpp:33-37 | two draws agree in the low `k` bits iff their distance is a multiple of 2^k |
| Lcg.EveryValueOccurs | src/generator/v2/generator.cpp:33-37 | every `k`-bit value turns up within the first 2^k draws from every seed |
| Lcg.EvenlySpread | src/generator/v2/generator.cpp:33-37 | of any 2^k consecutive draws exactly as many have low bits below a bound as there are such values |
| Lcg.DrawsTellSeeds | src/generator/v2/generator.cpp:33-37 | different seeds never lead to the same state after the same number of draws |
| Lcg.FirstDraws | src/generator/v2/generator.cpp:33-37 | the first three draws from seed 1 |
| Senders.Gather | src/common/net/v2/udp_sender.cpp:196-213 | collects the payloads of a round iff every frame is valid |
| Senders.Sender.CountSent | src/common/net/v2/udp_sender.cpp:219-224 | packets and bytes grow by what the kernel took |
| Senders.Sender.SendRound | src/common/net/v2/udp_sender.cpp:215-253 | how a round ends, exactly: it takes what the kernel takes after interruptions and at most 200 requests to try again, and gives up on anything else; `eagain` counts those requests |
| Senders.RetryPays | src/common/net/v2/udp_sender.cpp:229-238 | with interruptions and at most 200 requests to try again first, what the kernel then takes is sent |
| Senders.Sender.SendBatch | src/common/net/v2/udp_sender.cpp:176-256 | terminates; the kernel accepted exactly the first `sent` frames, once each and in order, statistics agree, and one error is counted iff something was left unsent; closed sockets and null batches are refused |
| Senders.SendTwice | src/common/net/v2/udp_sender.cpp:219-226 | accounting for one prefix after another is accounting for the longer prefix |
| Generators.Message | src/generator/v2/generator.cpp:39-52 | every message carries the next number, also as its signed time stamp, a symbol from 1 to the symbol count, a bid from 10 to 1000, ask one above, a size from 1 to 100 |
| Generators.Symbol | src/generator/v2/generator.cpp:41 | symbols run from 1 to the symbol count |
| Generators.SlotsAdd | src/generator/v2/generator.cpp:137-143 | producing slots in two batches is producing them in one |
| Generators.SlotsAreCounted | src/generator/v2/generator.cpp:137-156 | sent messages plus gap slots are the slots, and the next number is messages plus (span + 1) per gap slot, without wrap for every count an int allows |
| Generators.NumbersIncrease | src/generator/v1/generator.cpp:44-55 | the numbers sent strictly increase |
| Generators.TimeKeepsRate | src/generator/v2/generator.cpp:169 | the interval keeps the rate asked for up to a nanosecond per slot |
| FeedLaws.SlotIsGapOrMessage | src/generator/v2/generator.cpp:143-156 | whether a slot is a gap is decided by the random state alone; otherwise it brings one message |
| FeedLaws.NoGaps | src/generator/v2/generator.cpp:110 | without both gap parameters positive every slot is a message |
| FeedLaws.OnlyGaps | src/generator/v2/generator.cpp:145-152 | with a span of at least the modulus no message is ever sent |
| FeedLaws.GapsPerPeriod | src/generator/v2/generator.cpp:145-152 | when the modulus is a power of two, of any modulus consecutive draws exactly span, or all, make a gap |
| FeedLaws.FeedIsDrawn | src/generator/v2/generator.cpp:137-156 | the feed is a function of the numbered draws from the seed: one draw a gap, two a message when gaps are possible, and which draw makes which message |
| FeedLaws.EveryValueOccurs | src/generator/v2/generator.cpp:40-50 | from every seed each of the 991 bids, 100 sizes and all symbols occurs |
| FeedLaws.FirstMessages | src/generator/v2/generator.cpp:137-156 | the first messages for seed 1, without gaps and with two choices of gaps |
| Generators.Generator.NextRand | src/generator/v2/generator.cpp:33-37 | one draw of the wrapping generator |
| Generators.Generator.MakeMessage | src/generator/v2/generator.cpp:39-52 | the message of the feed, and the number advances |
| Generators.Generator.NextSlot | src/generator/v2/generator.cpp:143-156 | one slot of the feed: a gap or a message |
| Generators.Generator.SendOrFail | src/generator/v2/generator.cpp:118-131 | a prefix of the batch is on the wire, success iff all of it; the failed message's index is in range |
| Generators.Generator.SleepUntil | src/generator/v2/generator.cpp:199 | returns no earlier than the time asked for |
| Generators.Generator.Unpaced | src/generator/v2/generator.cpp:136-166 | the unpaced loop: the whole feed on success, a proper prefix on failure |
| Generators.Generator.Paced | src/generator/v2/generator.cpp:168-203 | the paced loop: the same, and success takes at least one interval for every slot, however late each wake-up |
| Generators.Generator.Run | src/generator/v2/generator.cpp:92-204 | for every burst size and in both rate branches: on success the whole feed for this seed and these gap parameters is on the wire, on failure a proper prefix; success if the kernel only ever interrupts; with a rate at least the time it allows has passed |
| Generators.UnbatchedGenerator.SendSlot | src/generator/v1/generator.cpp:45-58 | one slot: nothing for a gap, otherwise one encoded message, or failure at a refused send |
| Generators.UnbatchedGenerator.Paced | src/generator/v1/generator.cpp:63-88 | the paced loop waits after every slot, gaps included, and sends the same feed |
| Generators.UnbatchedGenerator.Run | src/generator/v1/generator.cpp:27-89 | in both rate branches the unbatched generator puts the same feed on the wire as the batched one, and fails only at a refused send |
| Reassembly.ChunksConcat | src/common/net/v1/tcp_server_nonblock_epoll.hpp:89-115 | consuming a and then b is consuming a + b, for every state of the pool, drops included |
| Reassembly.ChunkIsFramed | src/common/net/v1/tcp_server_nonblock_epoll.hpp:92-114 | in closed form: after any chunk exactly the complete frames have left the partial one, each in its own slot, oldest free slot first, until none is free; the rest are dropped, `ready` never refuses, no other slot changes |
| Reassembly.TakeFitting | src/common/net/v1/tcp_server_nonblock_epoll.hpp:94-112 | copying what fits at once is taking the bytes one by one |
| Reassembly.Connection.constructor | src/common/net/v1/tcp_server_nonblock_epoll.hpp:40-44 | a new connection holds no bytes |
| Reassembly.Connection.CopyIn | src/common/net/v1/tcp_server_nonblock_epoll.hpp:96-97 | the new bytes follow the partial frame |
| Reassembly.Connection.PassOn | src/common/net/v1/tcp_server_nonblock_epoll.hpp:108-111 | the index goes to `ready`, or back to `free` with a drop counted when that is full |
| Reassembly.Connection.Finish | src/common/net/v1/tcp_server_nonblock_epoll.hpp:100-113 | on the real rings and slots: pop, copy, push, and push back if `ready` was full |
| Reassembly.Connection.ConsumeFrames | src/common/net/v1/tcp_server_nonblock_epoll.hpp:89-115 | whatever the chunk and however full the pool, connection, rings, slots and drops end up as if the bytes had come one by one |
| StreamServers.RunKeeps | src/common/net/v1/tcp_server_nonblock_epoll.hpp:89-115 | partial frames, calls in progress, origins of frames and the whole pipeline invariant hold together at every state of every run |
| StreamServers.StreamsReachSlots | src/common/net/v1/tcp_server_nonblock_epoll.hpp:101-111 | for every chunking of every stream and every interleaving with the consumer: each accepted frame is bytes 44 i to 44 i + 43 of its stream, in stream order; each slot that is ready still holds its frame; the frames decoded are the first of those accepted |
| StreamServers.StreamsAreCounted | src/common/net/v1/tcp_server_nonblock_epoll.hpp:92-113 | every byte received is consumed once and in order; the partial frame holds total mod 44 bytes; accepted plus dropped plus the one in hand are total / 44 summed over the streams; no push to `ready` fails |
| StreamServers.LosslessStreams | src/common/net/v1/tcp_server_nonblock_epoll.hpp:100-113 | without drops every complete frame of every stream has been accepted |
| StreamServers.DropsIff | src/common/net/v1/tcp_server_nonblock_epoll.hpp:102-106 | in every run a frame is dropped at a step iff the step finds `free` empty |
| StreamServerTurns.CallTurn | src/common/net/v1/tcp_server_nonblock_epoll.hpp:89-115 | a whole call while the consumer rests takes in all bytes, returns, and leaves connection, pool and drops exactly as the byte-at-a-time description says |
| StreamServerTurns.AcceptTurn | src/common/net/v1/tcp_server_nonblock_epoll.hpp:181-187 | an accepted connection starts with nothing received |
| UdpFrames.ExtractBuild | src/engine/v3/engine.cpp:27-92 | extraction returns exactly the payload of every acceptable frame, for any header length, options and padding |
| UdpFrames.ConformingFrame | src/engine/v3/engine.cpp:27-92 | in particular of every frame whose lengths conform to RFC 791 and RFC 768 |
| UdpFrames.AcceptedIsBuilt | src/engine/v3/engine.cpp:27-92 | conversely every accepted packet is such a frame and the payload lies inside it |
| UdpFrames.StaysInsideDatagramIff | src/engine/v3/engine.cpp:84-91 | the payload lies inside the IP datagram iff header and UDP length stay within the IP total length |
| UdpFrames.OverrunIsAccepted | src/engine/v3/engine.cpp:84-91 | every frame whose IP length ends with the UDP header yields its payload nevertheless |
| UdpFrames.Engine.constructor | src/engine/v3/engine.hpp:75-76 | an engine starts uninitialised |
| UdpFrames.Engine.ProcessOne | src/engine/v3/engine.cpp:284-328 | one tracker step on the number the packet brings, or no change at all |
| UdpFrames.Engine.ProcessAll | src/engine/v3/engine.cpp:267-270 | after any packets the tracker has seen exactly the numbers they bring |
| UdpFrames.FrameBringsMessage | src/engine/v3/engine.cpp:288-295 | a frame that carries an encoded message brings exactly that message's number |
| UdpFrames.ShortFrameBringsNothing | src/engine/v3/engine.cpp:295-298 | a frame with a payload too short for a message brings nothing |
| EndToEnd.InOrderDeliveryIsClean | src/generator/v2/generator.cpp:137-162 | through codec and any in-order lossy channel: no out-of-order drops, processed is delivered, gaps is last minus first plus one minus delivered |
| EndToEnd.LosslessGaps | src/generator/v2/generator.cpp:145-153 | without loss, gaps is (span + 1) times the gap slots between the first and the last message, for every seed and count |
| EndToEnd.LossyFifoIsClean | src/engine/v1/engine.cpp:97-115 | every engine that refines the lossy FIFO and is fed from a generator has exact metrics |
| EndToEnd.FirstEngineIsClean | src/engine/v1/engine.cpp:92-125 | in every interleaving of the first engine, for every seed and parameters of the generator |
| EndToEnd.SecondEngineIsClean | src/engine/v2/engine.cpp:395-445 | in every interleaving of the second engine, for every seed and parameters of the generator |
| EndToEnd.FirstEngineLossless | src/engine/v1/engine.cpp:92-125 | once all of a feed has been decoded, in any interleaving of the first engine, gaps is (span + 1) times the gap slots between first and last message |
| EndToEnd.SecondEngineLossless | src/engine/v2/engine.cpp:395-445 | the same for the second engine |
| EndToEnd.ThirdEngineIsClean | src/engine/v3/engine.cpp:267-328 | packets that carry the generator's messages in order, with losses and any other packets in between, give the third engine's tracker exactly those messages, none out of order |

## Left out

- Memory ordering below sequential consistency: acquire, release and relaxed accesses are interleaved, not reordered.
- Frames of the second engine at load/store level: `PipelineV2Flow` runs on the machine with atomic push and pop, to which `PipelineV2Steps` reduces every run whose pushers do not interfere.
- Receive timestamps of the second engine (`recv_ready_ns_`): clock values, no effect on indices, frames or sequence numbers.
- Byte-by-byte kernel writes in the second engine: a receive call fills its slots in one step, which nobody can observe because the IO thread holds them.
- Metrics counters as 64-bit atomics: they are unbounded naturals here, of which the atomics hold the residue; ring counters, sequence numbers and histogram counters do wrap.
- Senders.Sender.SendBatch: assumes that some later call of `sendmmsg` is not interrupted, without which the code itself does not terminate; the back-off sleeps and the non-Linux branch are not modelled.
- Generators.Generator.Run: how long encoding and sending take; the clock moves only while waiting, by an arbitrary amount past the time asked for; the `running_` flag.
- Generators.UnbatchedGenerator.Run: the UDP client behind `send` is an arbitrary answer for each message.
- Reassembly.Connection.ConsumeFrames: the consumer acts between calls here; its interleaving with every access of a call is in `StreamServers`.
- PipelineV1.RunKeeps: copying the metrics into the reporter and the pause instruction are not steps.
- Closing a TCP connection: a closed one receives nothing more, and its partial frame is lost; a reused descriptor is a new connection of `StreamServers`.
- The blocking TCP client and server and the v1 UDP client: repeats of the receive and send loops above.
- Sockets, epoll, eventfd and timerfd set-up and teardown: system calls without visible semantics, replaced by arbitrary answers.
- DPDK port and memory-pool handling, NUMA allocation and thread pinning: calls into libraries that are not part of this model.
- Starting, stopping and joining threads: only the `running_` flag is modelled, which may fall at any step.
- Logger, metrics formatting, command lines and environment: plumbing.
- `size`, `isEmpty`, `isFull`, `closed` and `capacity` of the blocking queue: one-line accessors.
