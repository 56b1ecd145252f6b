# Verified model of the shared-memory packet pipeline

A producer assembles packets in place in a shared-memory ring; a consumer reads them in place, validates them and keeps
statistics. This project models that pipeline in Dafny and proves what it delivers, from single accesses to shared
memory up to whole sessions. Run `dafny verify dfyconfig.toml`.

## How the model is built

- `Options`, `Words`: optional values; bytes, machine words as bit strings, little-endian integers, wrapping 64-bit
  counters, masking.
- `Crc`, `Packet`, `PacketBuilder`: the table-driven CRC engine against a bit-at-a-time definition (the polynomials of
  section 8 of RFC 1952 and section 12.1 of RFC 3720), the packet format, and the chunked builder.
- `CrcHistory`, `CheckValues`: the register in terms of the bits that have left it; with it, the published check values.
- `PayloadGenerator`, `PayloadNumbers`: SplitMix64, the eight xoshiro256+ lanes and the sequential generator on bit
  strings, and the same on numbers.
- `RingProtocol`, `RingSafety`, `RingQueue`: the ring as a step system. Every load and store of shared memory is a step
  (length prefix and payload byte by byte, head, tail), the two sides interleave freely and keep stale copies of each
  other's counter. The mirrored mapping is the assumption that virtual bytes v and v + capacity are one physical byte.
  Each side comes with what it may rely on and what it guarantees; together they refine a queue of byte strings.
- `RingBuffer`, `Transport`: the same as objects whose methods run undisturbed, on damaged rings as well.
- `ConsumerAttach`: any number of consumer processes that claim the ring, leave it and crash, composed with the ring.
- `Waiting`, `RateLimiter`: backoff, the bounded wait loop, pacing.
- `Damage`, `DamageExample`, `RelabelExample`: damage within 32 consecutive bits is noticed with two exceptions, at the
  end of the checksum field and at the algorithm byte. `Damage` states exactly when; the examples show that each of the
  two does occur, on checksums computed from the bits that leave the CRC register.
- `PacketValidator`, `ConsumerStats`, `ConsumerSession`, `PacketStream`: validator, statistics, the session loop with both
  pause policies, and the producer's loop. `SessionStory` tells a session from its rounds alone: records, verdicts,
  statistics.
- `Pipeline`, `PipelineSafety`, `Delivery`, `Restarts`, `Drain`, `Progress`: both programs on the step system. Building
  a packet is a sequence of single stores into the slot; processing one is a look at the clock and a sequence of single
  loads; `peer_status` is two separate looks. Pauses, stops, timeouts, clock ticks, reports, the death of either process
  and the restart of the consumer may happen anywhere. `Delivery.RealProgramsDeliver` is the end-to-end theorem, for the
  real builder and the real validator; `Restarts.SessionsCover` says that successive sessions skip nothing;
  `Drain.DrainsInTime` bounds what the consumer still does once the stream has ended, retries, pauses and restarts
  included; `Progress` says what each program gets done when it runs: packets sent, processed, dropped in one kind of
  pause and left alone in the other.

History variables (the queue, the position of the tail in the infinite byte stream, the packets committed, the session
log) are carried along for the proofs only; no step depends on them.

Inputs instead of effects: clocks, liveness of processes, pause and stop flags and the answers of the surroundings to a
session are parameters or events. The end-to-end theorem assumes one producer, process identifiers that are not reused,
one clock for both sides that does not go back, and a non-negative tolerance. It holds for payloads of any size: those of
4 GiB or more never fit the ring, so nothing is sent; a packet with such a payload, made in any other way, has a wrapped
size field and is reported (`PacketValidator.SealedIsIntact`).

## Where code and documentation differ

- The comment on `Backoff` (common/include/pc/backoff.hpp:18-20) and README.md:186-187 speak of sleeps up to 1 ms. The
  exponent stops at 4, so the longest sleep is 800 us and the cap is never reached (`Waiting.DelayValues`,
  `Waiting.DelaysGrow`).

## Model

| member | source | states |
|---|---|---|
| Delivery.RealProgramsDeliver | consumer/consumer_app.cpp:46-79 | End to end, for every checksum algorithm, generator, payload size, capacity, pause policy and tolerance, and for every interleaving of single shared accesses, clock ticks, pauses, stops, crashes and restarts: the records taken are the packets made, in order, from where the session began; every processed one is clean and every other one was dropped during a pause; packet and byte totals add up; and a session that ended with the stream left nothing behind |
| Delivery.EveryRunDelivers | consumer/consumer_app.cpp:46-79 | The same for any producer program that assembles its packets in the slot and any validator that accepts them in order |
| Delivery.BlockingLosesNothing | consumer/pause_policy.cpp:14-19 | Under the blocking policy, in one session, the processed records are a prefix of the packets made, all valid, and all of them once the session ended with the stream |
| Delivery.OverIsDrained | consumer/consumer_app.cpp:64-76 | A session that ends through the finished-or-dead branch leaves tail equal to head, every packet committed since it began taken, and no producer that could still commit |
| Delivery.EndedStreamStaysEnded | common/src/shm_transport.cpp:98-101 | After the finished store, or the death of the producer, no continuation of the run commits another record |
| Delivery.Start | common/src/shm_transport.cpp:71-96 | A new ring, a producer before its loop and a consumer constructed on the ring satisfy the invariant |
| Delivery.SenderNeverStuck | producer/producer_app.cpp:48-76 | Until it has finished or died the producer program always has a next step of its own |
| Delivery.ReceiverNeverStuck | consumer/consumer_app.cpp:46-79 | Until its session is over the consumer program always has a next step of its own |
| Delivery.InStepAccounts | consumer/consumer_app.cpp:82-89 | What the log of a session in step with the stream says: which records, all processed ones clean, the others dropped during a pause, packets and bytes of both parts adding up, none dropped under the blocking policy |
| Delivery.BaseStays | common/src/shm_transport.cpp:182-192 | Without a restart, what a session counts from never moves |
| Delivery.BuildStoresSeal | producer/packet_builder.cpp:9-21 | The stores of a build, one byte at a time into a slot with any content, leave the sealed packet |
| Delivery.FilledInThree | producer/packet_builder.cpp:9-21 | Header, payload and checksum patch stored one after the other, the patch overwriting part of the header |
| Delivery.RealSetupSound | producer/producer_app.cpp:69-70 | The real builder and the real validator meet what the end-to-end theorem asks of the two programs |
| Delivery.RealBlockingLosesNothing | consumer/pause_policy.cpp:14-19 | The same for the real programs |
| Drain.DrainsInTime | consumer/consumer_app.cpp:61-76 | Once the producer has finished or died, every run, with any retries of its receives, pauses, reports, stops and restarts, makes at most as many steps of the consumer as its position and the queued bytes give plus a fixed charge for each pause, each restart and each retry beyond those reckoned with; a run that makes that many, or that the consumer cannot continue, has ended the session, and without a stop the ring is drained |
| Drain.DrainsWithinTimeouts | common/src/shm_transport.cpp:31-54 | With receives that retry as often as their timeout allows at most, and without pauses and restarts, the bound is known from the queue and the position alone |
| Drain.DrainExists | consumer/consumer_app.cpp:61-76 | However often its receives retry before they give up, the consumer alone drains the ring and ends the session within the bound |
| Drain.OwnStepDescends | consumer/consumer_app.cpp:46-79 | Each step except a retry, a pause, a report and a restart uses up some of the bound by itself |
| Drain.RunPays | consumer/consumer_app.cpp:46-79 | Over any run, what is left and the steps made are at most what was left plus the charges |
| Restarts.RestartContinues | common/src/shm_transport.cpp:140-192 | A consumer that takes over begins exactly behind what was taken, or one record earlier when the last one had not been handed back |
| Restarts.SessionsConserve | consumer/consumer_app.cpp:33-80 | Over any run, the sessions together take as many records as the stretch of the stream they cover, plus at most one repeated record per restart |
| Restarts.SessionsCover | consumer/consumer_app.cpp:33-80 | Every packet of that stretch has been taken, as it is in the stream, by some session: a restart skips nothing |
| Restarts.RunIsTold | consumer/consumer_app.cpp:50-89 | Over any run, restarts included, the statistics of the session at hand are those of its records, drops and reports in the order of the events |
| Progress.TakesNext | consumer/consumer_app.cpp:47-63 | With a record waiting behind the one held, the consumer alone, within size + 13 steps, processes it clean, or in a pause of the discarding policy drops it: it is in the log and counted, the one before it handed back |
| Progress.PauseEmpties | consumer/pause_policy.cpp:21-25 | In a pause of the discarding policy the consumer alone drops all that waits, in order, counts each, and leaves an empty ring |
| Progress.BlockedTakesNothing | consumer/pause_policy.cpp:14-17 | In a pause of the blocking policy, over every run until the look that finds it ended or a restart: the log stays and what waited goes on waiting |
| Progress.BlockedHandsBack | consumer/pause_policy.cpp:15 | The look that finds such a pause is followed by handing back the record dealt with last, and by the next look |
| Progress.SendsNext | producer/producer_app.cpp:63-74 | With room in the ring, the producer alone makes, stores and commits the next packet of its source, within 8 steps more than the stores |
| Progress.EndIsReached | common/src/shm_transport.cpp:98-101 | Whenever the producer finishes or dies, the consumer alone, however patient, takes all that was committed, drains the ring and ends the session within the bound |
| Progress.StepNears | consumer/consumer_app.cpp:82-89 | Each step between looking at the flag and the log entry brings the record nearer and does nothing else but release the one before |
| Progress.SendingStep | producer/packet_builder.cpp:9-21 | Each step between reserve and commit brings the packet nearer and shows nothing yet |
| PipelineSafety.SenderKeepsProducing | producer/producer_app.cpp:48-76 | Every step of the producer program keeps the ring sound, its place in it, and the committed stream equal to the packets of its source at non-decreasing times |
| PipelineSafety.SenderKeepsConsuming | producer/producer_app.cpp:63-70 | No step of the producer disturbs what the consumer relies on; none commits after the end of the stream was noticed |
| PipelineSafety.CommitPacketSafe | producer/producer_app.cpp:69-72 | A commit publishes exactly the assembled packet, as the next of the stream |
| PipelineSafety.StoreNextSafe | producer/packet_builder.cpp:9-21 | Each store of a build brings the slot one store closer to the packet and touches nothing published |
| PipelineSafety.ReceiverKeepsProducing | consumer/consumer_app.cpp:46-79 | No step of the consumer disturbs the slot, the stream or the place of the producer |
| PipelineSafety.ReceiverKeepsPlaced | consumer/consumer_app.cpp:46-79 | Every step of the consumer program keeps its position in step with the ring; the extra read finds nothing only when nothing is left |
| PipelineSafety.AttemptSafe | common/src/shm_transport.cpp:194-201 | One access of try_peek inside receive; an attempt that finds nothing behind the end of the stream proves the queue empty |
| PipelineSafety.ReleaseFirstSafe | common/src/shm_transport.cpp:199-206 | The release before the next look frees exactly the record already dealt with |
| PipelineSafety.ConcludeInStep | consumer/consumer_app.cpp:82-89 | The record at hand is the next packet of the stream; processing finds it clean, dropping happens only in a pause of the discarding policy |
| PipelineSafety.ReceiverKeepsTimely | consumer/consumer_app.cpp:82-83 | The clock of a validation is read before the first byte of the packet and after the packet was made |
| PipelineSafety.ReceiverKeepsConsuming | consumer/consumer_app.cpp:33-80 | Every step of the consumer keeps its session in step with the stream, across pauses, resyncs, reports and restarts |
| PipelineSafety.SenderIsAllowed | common/src/ring_buffer.cpp:44-71 | The producer program never makes an access that the ring protocol does not allow at that point |
| PipelineSafety.ReceiverIsAllowed | common/src/ring_buffer.cpp:87-121 | Nor does the consumer program |
| PacketStream.ProducerApp.Run | producer/producer_app.cpp:16-81 | A record too large for the transport is refused; otherwise what is sent is exactly the packets 0, 1, 2 ... of the source, made at the times the rounds gave a slot, with the generator running through |
| PacketStream.EmittedAtMost | producer/producer_app.cpp:49-51 | With a limit set, never more packets than that are sent |
| PacketStream.EmittedFillsSlots | producer/producer_app.cpp:48-72 | One packet for each slot given outside a pause before the stop, in order, cut off at the limit if there is one |
| PacketStream.PacketReads | producer/producer_app.cpp:69-71 | Packet k reads back as number k modulo 2^64, with the time it was made, the algorithm, and the payload that k fills before it lead to |
| PacketStream.PayloadsContinue | producer/payload_generator.cpp:64-80 | Payloads of whole blocks, and those of the sequential generator, are one fill cut into packets |
| PacketStream.ValidatorAcceptsProducer | consumer/packet_validator.cpp:39-90 | Packets of any producer in order, not from the future, are judged clean and leave the expectations for the next one, also across the wrap of the sequence number |
| PacketStream.ProcessInStep | consumer/consumer_app.cpp:82-89 | Processing the next packet of the stream is clean and keeps all totals spotless |
| PacketStream.DropInStep | consumer/pause_policy.cpp:21-25 | Dropping during a pause of the discarding policy spoils no later verdict |
| PacketStream.SwitchInStep | consumer/pause_policy.cpp:19-27 | The resync on resume makes up for what was dropped |
| PacketStream.LongerInStep | producer/producer_app.cpp:69-72 | More packets behind those taken change nothing for the session |
| RingQueue.ReceivedIsPrefix | common/src/ring_buffer.cpp:44-121 | From an empty ring, over every interleaving of single accesses: the records read up to their release are a prefix of those in the slots at their commit, the shared bytes hold exactly the rest, and the ring is never reported corrupted |
| RingQueue.RunIsFifo | common/src/ring_buffer.cpp:44-121 | From any sound state: queue before + committed == received + queue after, as byte strings |
| RingQueue.NewRingIsFifo | common/src/ring_buffer.cpp:8-17 | The same from the creation of a ring over any leftover bytes |
| RingQueue.NewRing | common/src/ring_buffer.cpp:8-17 | A new ring of any capacity that is accepted satisfies the invariant |
| RingQueue.StepRefinesQueue | common/src/ring_buffer.cpp:62-121 | Each access is an enqueue of the slot, a dequeue of what the consumer has been reading, or invisible |
| RingQueue.StepSafe | common/src/ring_buffer.cpp:44-121 | Every access of either side keeps the invariant, with arbitrarily stale caches |
| RingQueue.MemoryHoldsQueue | common/src/ring_buffer.cpp:44-71 | Head, tail and bytes alone, parsed as length-prefixed records, give the queue |
| RingQueue.ParseStream | common/src/ring_buffer.cpp:55-57 | Length-prefixed records parse back to themselves |
| RingQueue.ViewIsFront | common/src/ring_buffer.cpp:87-110 | While a record is peeked, whatever the producer does meanwhile, its span holds the oldest unreleased record |
| RingQueue.ReserveAnswers | common/src/ring_buffer.cpp:44-54 | A reservation is refused exactly when the record is too large or does not fit behind the queue at the reload of the tail |
| RingQueue.LargestRecord | common/src/ring_buffer.cpp:38-42 | The largest size accepted is the largest that fits an empty ring and a 32-bit length |
| RingQueue.PeekAnswers | common/src/ring_buffer.cpp:95-100 | The consumer is told that the ring is empty exactly when, at the reload of the head, it is |
| RingQueue.UsedIsQueue | common/src/ring_buffer.cpp:73-75 | Both sides measure the bytes of the queue |
| RingQueue.AcceptedStaysInside | common/src/ring_buffer.cpp:101-109 | Whatever a damaged ring holds, an accepted record ends before the head that was seen and inside the doubled mapping |
| RingQueue.ClaimIsDisjoint | common/src/ring_buffer.cpp:55-59 | No byte of a reserved or half-reserved span is a physical byte of a queued record |
| RingQueue.ClaimInside | common/src/ring_buffer.cpp:55-59 | In every reachable state the reserved or half-reserved span lies inside the doubled mapping: offset + 4 + length <= 2 * capacity, also where it straddles the end of the ring |
| RingQueue.QueueInside | common/src/ring_buffer.cpp:91-109 | So do all queued records, and with them the one being read |
| RingSafety.ProducerStepSafe | common/src/ring_buffer.cpp:44-71 | Every access of the producer keeps memory and producer sound, and only stores into free space or commits |
| RingSafety.ConsumerStepSafe | common/src/ring_buffer.cpp:87-121 | Every access of the consumer keeps memory and consumer sound, never sets corrupted, and only releases |
| RingSafety.ProducerUndisturbed | common/src/ring_buffer.cpp:112-121 | Releases of the consumer, at any time, leave the producer sound |
| RingSafety.ConsumerUndisturbed | common/src/ring_buffer.cpp:62-71 | Stores and commits of the producer, at any time, leave the consumer sound |
| RingSafety.FreeIsRoom | common/src/ring_buffer.cpp:48-54 | capacity - (head - cached tail) on wrapped counters is the true free space: neither subtraction underflows |
| RingSafety.CountersTell | common/src/ring_buffer.cpp:95-107 | The difference of two wrapped counters is the true distance, at most the capacity, and they are equal only when nothing lies between |
| RingSafety.AcceptedRecordFits | common/src/ring_buffer.cpp:103-107 | A record that the cached head covers always passes the sanity check |
| RingSafety.StoreKeepsMemory | common/src/ring_buffer.cpp:55-59 | A store behind the head within the free space changes no published unreleased byte |
| RingSafety.StoreByteFills | common/src/ring_buffer.cpp:59 | A store through the reserved span changes exactly that byte of the slot |
| RingSafety.FrontIsStored | common/src/ring_buffer.cpp:91-109 | Every byte of the oldest record is where the consumer addresses it, also across the end of the ring and the wrap of the counters |
| RingSafety.PublishSafe | common/src/ring_buffer.cpp:62-71 | Advancing the head appends exactly the slot, framed, to what the memory holds |
| RingSafety.HandBackSafe | common/src/ring_buffer.cpp:112-121 | Advancing the tail removes exactly the oldest record |
| RingSafety.StorePrefixByteSafe | common/src/ring_buffer.cpp:55-58 | The length prefix, stored byte by byte, touches only free space |
| RingSafety.LoadPrefixByteSafe | common/src/ring_buffer.cpp:101-108 | The length prefix, loaded byte by byte, is that of the oldest record |
| RingSafety.LoadTailSafe | common/src/ring_buffer.cpp:49-54 | Reloading the tail only gains room |
| RingSafety.CreatedSafe | common/src/ring_buffer.cpp:8-17 | A new ring over any bytes is sound |
| RingProtocol.AtIsPosition | common/src/ring_buffer.cpp:55-57 | Masking a wrapped 64-bit counter and reducing modulo the capacity addresses the true stream position |
| RingProtocol.PositionsApart | common/src/ring_buffer.cpp:55-57 | Positions less than a capacity apart never share a physical byte |
| RingProtocol.CapacityTest | common/src/ring_buffer.cpp:24-25 | The capacity test accepts exactly the powers of two up to 2^63 |
| RingBuffer.RingControl.Initialize | common/src/ring_buffer.cpp:8-17 | The control block of an empty ring |
| RingBuffer.RingControl.IsReady | common/src/ring_buffer.cpp:19-26 | Ready exactly when the block is finished, of this format, and its capacity is usable |
| RingBuffer.RingProducer.TryReserve | common/src/ring_buffer.cpp:44-60 | Undisturbed: a span of the size asked for exactly when the record fits behind the queue; the queue stays, and a refused call changes no byte and no reservation |
| RingBuffer.RingProducer.Commit | common/src/ring_buffer.cpp:62-71 | Undisturbed: the bytes of the reserved span become the newest record; without a reservation nothing happens |
| RingBuffer.RingProducer.MaxRecord | common/src/ring_buffer.cpp:38-42 | The largest size for which a record fits |
| RingBuffer.RingProducer.Used | common/src/ring_buffer.cpp:73-75 | The bytes of the queue |
| RingBuffer.RingConsumer.constructor | common/src/ring_buffer.cpp:79-85 | Starts at the shared tail, whatever the memory holds; on a sound ring at the oldest unreleased record |
| RingBuffer.RingConsumer.TryPeek | common/src/ring_buffer.cpp:87-110 | Undisturbed, whatever the memory holds: the call computes the specification; on a sound ring it gives the oldest record, left in place, exactly when there is one, and a second call gives the same |
| RingBuffer.PeekedIsSound | common/src/ring_buffer.cpp:87-110 | On a sound ring: the oldest record exactly when there is one, and never corrupted |
| RingBuffer.PeekedStaysLinked | common/src/ring_buffer.cpp:88-109 | On a damaged ring: what is handed out lies inside the doubled mapping, and a ring once given up stays so |
| RingBuffer.RingConsumer.Release | common/src/ring_buffer.cpp:112-121 | Undisturbed: the tail moves behind the peeked record; on a sound ring that removes the oldest record; without one nothing happens |
| RingBuffer.RingConsumer.Used | common/src/ring_buffer.cpp:123-125 | The bytes of the queue |
| RingBuffer.LoadedInSteps | common/src/ring_buffer.cpp:101-108 | Loading the prefix at once ends where loading it byte by byte ends |
| ConsumerAttach.EveryRun | common/src/shm_transport.cpp:140-192 | From a new ring, over every interleaving of starts, attempts to attach, leaves, crashes and ring accesses of any number of processes: at most one live process uses the ring, it owns consumer_pid, and what all of them receive is a prefix of what was sent |
| ConsumerAttach.StepSafe | common/src/shm_transport.cpp:140-192 | Every step keeps: users own the claim, an owner that is not using the ring is dead, a checked claim is void, and the ring is sound for every user |
| ConsumerAttach.Exclusive | common/src/shm_transport.cpp:155-162 | Two live processes that use the ring are the same one, and it owns consumer_pid |
| ConsumerAttach.SwapReplacesNobody | common/src/shm_transport.cpp:160-162 | The compare-exchange succeeds only when nobody alive uses the ring |
| ConsumerAttach.AttemptSucceedsIffFree | common/src/shm_transport.cpp:155-166 | An undisturbed attempt succeeds exactly when no living process uses the ring, whatever a crash has left behind |
| ConsumerAttach.LeaveClears | common/src/shm_transport.cpp:186-191 | Leaving always finds the own claim in place and clears it |
| ConsumerAttach.RunIsFifo | common/src/shm_transport.cpp:140-201 | However processes come, go and crash, from any sound state: queue before + committed == released by all of them + queue after |
| ConsumerAttach.StepIsRingStep | common/src/shm_transport.cpp:140-192 | Seen from the ring, every step of any number of processes is an access of the producer, an access of one consumer, the attachment of a new one where a user leaves or crashes, or nothing |
| ConsumerAttach.AttachedSeesFront | common/src/shm_transport.cpp:163-166 | What a user has peeked is the oldest unreleased record |
| Transport.NormalizeCapacity | common/src/shm_transport.cpp:60-69 | The smallest doubling of the page size that holds the request, refused exactly above 2^63 |
| Transport.ShmPacketSource.TryAttach | common/src/shm_transport.cpp:140-167 | Undisturbed and whatever the ring holds, each of the four outcomes exactly when: not ready or its producer dead, capacity mismatch, another consumer alive, and otherwise attached; nothing but the claim changes |
| Transport.ShmPacketSource.ReceiveNow | common/src/shm_transport.cpp:194-201 | Without a timeout: releases the previous record and gives the next exactly when there is one; on a damaged ring nothing, or a span inside the doubled mapping |
| Transport.ShmPacketSource.Disconnect | common/src/shm_transport.cpp:182-192 | Releases the peeked record and clears the claim only if it is its own |
| Transport.ShmPacketSource.Peer | common/src/shm_transport.cpp:216-224 | Present, alive, and finished exactly when the producer has said so or the ring was found damaged |
| Waiting.WaitUntil | common/src/shm_transport.cpp:31-54 | Ends at the first moment an attempt succeeds, the timeout has expired or a stop is requested, with what that attempt gave; within the smaller of 80 + ceil(t/50) and 85 + ceil((t - 1550)/800) waits |
| Waiting.BoundSuffices | common/include/pc/backoff.hpp:23-43 | After that many waits the requested sleeps add up to the timeout |
| Waiting.DelayValues | common/include/pc/backoff.hpp:23-43 | The delays in closed form: none for 80 waits, then 50, 100, 200, 400 and 800 us for ever |
| Waiting.DelaysGrow | common/include/pc/backoff.hpp:23-43 | Delays never decrease and stay below the cap |
| Waiting.Backoff.Wait | common/include/pc/backoff.hpp:23-39 | One wait: its delay, and the saturating step |
| RateLimiter.RateLimiter.WaitForSlot | producer/rate_limiter.cpp:18-39 | Ends at the first reading at or after the deadline or with a stop; exactly which sleeps it requests on the way, none of them past the deadline; the new deadline |
| RateLimiter.RateLimiter.WaitForSlots | producer/rate_limiter.cpp:18-39 | Call after call without a stop: no slot is granted before its deadline, and the deadline in force is the one that follows from the grants |
| RateLimiter.NoBurst | producer/rate_limiter.cpp:36-38 | For any clock readings and stalls, slot k + n comes more than (n - 1) intervals after slot k |
| RateLimiter.DeadlineAfterGrant | producer/rate_limiter.cpp:36-38 | The next deadline always lies behind the grant |
| RateLimiter.NoDriftIffOnTime | producer/rate_limiter.cpp:36-38 | The deadlines are exactly start + k * interval as long as, and only as long as, every call is on time |
| RateLimiter.LateGrantRestarts | producer/rate_limiter.cpp:36-38 | A slot granted an interval late or later is followed by one at least an interval after it: what was missed is not made up for |
| RateLimiter.DeadlineIsNear | producer/rate_limiter.cpp:36-38 | Behind a grant, late or not, the next deadline is at most an interval away |
| RateLimiter.NapsEndBefore | producer/rate_limiter.cpp:27-31 | Every nap ends at least 100 us before the deadline |
| ConsumerSession.ConsumerApp.RunSession | consumer/consumer_app.cpp:33-80 | The loop computes the session over the rounds: pause changes, policies, processing, the extra read, reports, the end; it takes from the source exactly what the rounds take, and has handed back every record in the end |
| ConsumerSession.ConsumerApp.ProcessRecord | consumer/consumer_app.cpp:82-89 | Validation, statistics and the bounded count of reported defects |
| ConsumerSession.ConsumerApp.SwitchPause | consumer/consumer_app.cpp:47-54 | A pause change; leaving a pause of the discarding policy resyncs |
| ConsumerSession.ConsumerApp.WhilePaused | consumer/pause_policy.cpp:14-25 | The blocking policy hands back the last record and takes none; the discarding policy hands it back, takes what comes and counts it as dropped |
| ConsumerSession.TakenIsPartitioned | consumer/pause_policy.cpp:21-25 | For every schedule: each record taken is processed or dropped exactly once, in order; the packet and byte totals are those of the two parts and add up to what was taken |
| ConsumerSession.BytesPartition | consumer/consumer_stats.cpp:18-45 | The bytes processed and the bytes dropped add up to all bytes taken |
| SessionStory.SessionFollowsRounds | consumer/consumer_app.cpp:46-79 | What is taken, and whether it is processed or dropped, is what the rounds offer by policy and pause, in order, up to the first round in which the stream is over and the extra read finds nothing, and no further |
| SessionStory.VerdictsAreFresh | consumer/packet_validator.cpp:39-90 | The verdicts of a session are those of a fresh validator on each stretch between the resumptions of the discarding policy |
| SessionStory.BlockIsOneStretch | consumer/pause_policy.cpp:19 | Under the blocking policy there is one stretch, whatever the pauses: no gap is hidden by a pause |
| SessionStory.StatisticsAreTold | consumer/consumer_app.cpp:50-88 | The statistics of a session are those of its records, drops and due reports, in the order of the rounds |
| ConsumerSession.BlockingDropsNothing | consumer/pause_policy.cpp:14-19 | Under the blocking policy nothing is dropped |
| ConsumerSession.RoundsTake | consumer/consumer_app.cpp:46-79 | The log of a session is what its rounds took |
| ConsumerSession.DefectLogsAreBounded | consumer/consumer_app.cpp:82-89 | The number of defects reported is the smaller of the limit and the unclean packets so far |
| ConsumerStats.StatisticsConserve | consumer/consumer_stats.cpp:18-51 | Over any order of records, drops and reports: windows add up to the totals, latencies to the uncorrupted records, received == valid + corrupted + anomalous, gaps <= missing, and every window has min * count <= sum <= max * count |
| ConsumerStats.AddStaysBounded | consumer/consumer_stats.cpp:5-14 | One more latency keeps the mean between the extremes |
| ConsumerStats.ValidatedIsPlausible | consumer/packet_validator.cpp:71-81 | A reported gap always has missing packets |
| ConsumerStats.ConsumerStats.Record | consumer/consumer_stats.cpp:18-40 | Which counters one verdict moves |
| ConsumerStats.ConsumerStats.RecordDropped | consumer/consumer_stats.cpp:42-45 | A dropped record moves only its two totals |
| ConsumerStats.ConsumerStats.TakeInterval | consumer/consumer_stats.cpp:47-51 | Hands out the window and the latencies and opens new ones |
| ConsumerStats.ConsumerStats.Reset | consumer/consumer_stats.cpp:57-62 | All counters start again |
| ConsumerStats.TotalsCount | consumer/consumer_stats.cpp:18-51 | Over any history each of the ten totals counts exactly what it is named after; corrupted packets show up only as received, bytes and corrupted; reports change no total |
| ConsumerStats.WindowShows | consumer/consumer_stats.cpp:5-51 | The open window holds the records and bytes since the last report; minimum and maximum of the latencies occur among those of the uncorrupted records since then and enclose them all, and the sum is theirs |
| ConsumerStats.ReportShows | consumer/consumer_stats.cpp:47-51 | So does every snapshot handed out, for the time between two reports, with the totals up to it |
| ConsumerStats.AddSummarises | consumer/consumer_stats.cpp:5-14 | One more latency keeps minimum, maximum, sum and count those of all |
| PacketValidator.PacketValidator.Validate | consumer/packet_validator.cpp:39-90 | The verdict and the new expectations are those of the specification, for every record |
| PacketValidator.PacketValidator.Track | consumer/packet_validator.cpp:71-89 | What an uncorrupted packet is held against, and what is expected next |
| PacketValidator.PacketValidator.Resync | consumer/packet_validator.hpp:62 | Only the baseline is forgotten |
| PacketValidator.Corruption | consumer/packet_validator.cpp:41-66 | Integrity defects are all of the corrupting kind |
| PacketValidator.CorruptedIffCorruption | consumer/packet_validator.cpp:67-69 | A verdict is corrupted exactly when the record itself is defective, whatever the expectations |
| PacketValidator.IntegrityDefectsMean | consumer/packet_validator.cpp:46-66 | Each integrity defect is reported exactly when its own check fails on the header fields or the bytes, whatever the others find and the tracker expects |
| PacketValidator.AnomaliesMean | consumer/packet_validator.cpp:71-84 | Each anomaly is reported exactly when an intact packet is ahead of or behind the expected number, too far in the future, or older than the last |
| PacketValidator.ShortRecordMeans | consumer/packet_validator.cpp:41-44 | A record shorter than a header has the two size defects and leaves the expectations alone |
| PacketValidator.CorruptedLeaveNoTrace | consumer/packet_validator.cpp:67-69 | Deleting all corrupted records from any stream changes no other verdict and not the final expectations |
| PacketValidator.FreshRunBalances | consumer/packet_validator.cpp:75-88 | Over any uncorrupted run from a fresh baseline: count + missing - rewound == final expected - first sequence, with every wrap of the 64-bit number accounted for |
| PacketValidator.RunBalances | consumer/packet_validator.cpp:75-88 | The same from any baseline |
| PacketValidator.SealedIsIntact | consumer/packet_validator.cpp:46-66 | A sealed packet passes the integrity checks exactly when its payload size fits 32 bits |
| PacketValidator.SealedInOrderIsClean | consumer/packet_validator.cpp:39-90 | A sealed packet is clean exactly when its sequence number and timestamp are as expected |
| Damage.DamageIsReported | consumer/packet_validator.cpp:46-69 | A sealed packet damaged anywhere within 32 consecutive bits is reported as corrupted, and then leaves the expectations alone, if and only if neither exception applies: the algorithm byte alone became the other code and the two checksums agree, or the damage crosses the end of the checksum field with a pattern that cancels |
| Damage.PlainDamageIsReported | consumer/packet_validator.cpp:46-69 | Whatever does not name the other algorithm and does not cross the end of the checksum field is reported |
| Damage.UnnoticedIff | consumer/packet_validator.cpp:46-69 | The same exceptions for any intact record, not only sealed ones |
| Damage.IntactIff | consumer/packet_validator.cpp:48-66 | A record as long as an intact one is intact exactly when the fields with fixed values are unchanged and its checksum matches under the algorithm it names |
| Damage.PatternDecides | common/src/packet.cpp:38-50 | Whether damage keeps the checksum matching depends on the error pattern alone, not on the packet |
| Damage.EffectOfDifference | common/src/checksum.cpp:53-69 | The difference of two checksums is the CRC of the difference of the inputs |
| DamageExample.EvenBecomesOdd | consumer/packet_validator.cpp:60-69 | The exception at the end of the checksum field occurs: without payload and with CRC-32C, every packet of even number turns into its intact successor by damage within 32 consecutive bits |
| DamageExample.LowBitUntouched | common/src/checksum.cpp:53-69 | What makes it occur: bit 128 of a 32-byte message does not show in the lowest bit of its CRC-32C |
| RelabelExample.IntactEitherWay | consumer/packet_validator.cpp:60-69 | The exception at the algorithm byte occurs: an empty packet whose CRC-32 and CRC-32C, each over the header that names it, are equal, so that it is intact under either code |
| PacketBuilder.PacketBuilder.Build | producer/packet_builder.cpp:9-21 | The chunked build leaves exactly the packet that sealing the whole payload leaves, and the generator where one whole fill would |
| PacketBuilder.PacketBuilder.BuildPayload | producer/packet_builder.cpp:13-19 | The chunk loop writes the whole payload and hashes header and payload |
| PacketBuilder.PieceContinues | producer/packet_builder.cpp:14-16 | Writing the next chunk behind what is written continues the record |
| PacketBuilder.HashContinues | producer/packet_builder.cpp:17 | The hash of the next chunk continues the hash |
| Packet.WriteHeader | common/src/packet.cpp:8-20 | The header bytes in place, checksum field zero, payload untouched |
| Packet.PatchChecksum | common/src/packet.cpp:22-24 | Only the checksum field changes |
| Packet.SealPacket | common/src/packet.cpp:26-30 | The record becomes the sealed packet of its payload |
| Packet.PacketChecksum | common/src/packet.cpp:38-50 | The checksum over the record with its checksum field cleared, computed without a copy of the payload |
| Packet.HeaderSlices | common/include/pc/packet.hpp:17-26 | Where each field lies, little-endian |
| Packet.ReadHeaderOfHeaderBytes | common/src/packet.cpp:32-36 | Reading a header gives every field that was written |
| Packet.HeaderBytesOfReadHeader | common/src/packet.cpp:32-36 | No byte of a header is lost by reading it |
| Packet.SealedReadsBack | common/src/packet.cpp:26-50 | A sealed packet reads back its fields and payload, and the recomputed checksum is the stored one |
| Packet.BurstChangesChecksum | common/src/packet.cpp:38-50 | Two records that differ within 32 consecutive bits outside the checksum field have different checksums |
| Packet.DamageDetected | common/src/packet.cpp:38-50 | A sealed packet damaged within 32 consecutive bits, in the checksum field or outside it, no longer matches |
| Crc.CrcSliceBy8 | common/src/checksum.cpp:53-69 | For every table, state and length, the eight-table loop with its byte tail computes the bit-at-a-time CRC |
| Crc.MakeCrcTable | common/src/checksum.cpp:27-43 | Entry i of slice k is byte i advanced by k further zero bytes |
| Crc.BlockByTables | common/src/checksum.cpp:57-61 | The eight lookups of one block are 64 single-bit steps |
| Crc.ReferenceAdds | common/src/checksum.cpp:53-69 | update(update(s, a), b) == update(s, a + b), for splits at any byte |
| Crc.StepLinear | common/src/checksum.cpp:32 | The step is linear over xor |
| Crc.StepInjective | common/src/checksum.cpp:32 | The step loses no state |
| Crc.AdvanceInjective | common/src/checksum.cpp:31-33 | Nor do any number of steps |
| Crc.PolynomialTopBit | common/src/checksum.cpp:45-46 | Both polynomials have their top bit set |
| Crc.BurstDetected | common/src/checksum.cpp:53-69 | Any two equally long inputs that differ only within 32 consecutive bits have different CRCs |
| Crc.ResidueLaw | common/src/checksum.cpp:48-69 | Hashing the stored checksum behind the data it belongs to ends in the same register for all data |
| CheckValues.Crc32OfDigits | tests/test_crc32.cpp:50-52 | The check value of CRC-32: start value, polynomial, bit order and final complement |
| CheckValues.Crc32cOfDigits | tests/test_crc32.cpp:57-61 | The check value of CRC-32C |
| Crc.ReferenceIsOverBits | common/src/checksum.cpp:27-43 | Feeding bytes is feeding their bits one at a time |
| Crc.AdvanceSplits | common/src/checksum.cpp:57-61 | A word advanced is the xor of its four bytes advanced, one table entry each |
| Crc.FindKind | common/src/checksum.cpp:148-154 | Exactly the two codes of the header name an algorithm |
| Crc.Checksum.Update | common/src/checksum.cpp:117-144 | The update of either algorithm, software path, is the bit-at-a-time CRC |
| PayloadGenerator.NeverDegenerates | producer/payload_generator.cpp:99-109 | For every seed and any sequence of fills no lane is ever all zero |
| PayloadGenerator.MixInjective | producer/payload_generator.cpp:15-18 | The mix of SplitMix64 is injective on 64-bit words |
| PayloadGenerator.DrawsDiffer | producer/payload_generator.cpp:14-19 | Consecutive draws differ, for every seed |
| PayloadGenerator.StepInjective | producer/payload_generator.cpp:52-59 | The xoshiro step of a lane is injective |
| PayloadGenerator.StepStaysAlive | producer/payload_generator.cpp:52-59 | It never takes a lane into the all-zero state |
| PayloadGenerator.ChunksInvisible | producer/payload_generator.cpp:64-80 | fill(a) then fill(b) gives the bytes and the state of fill(a + b) when a is a multiple of 64 |
| PayloadGenerator.SequentialChunks | producer/payload_generator.cpp:125-133 | For the sequential generator the same, for any a |
| PayloadGenerator.PayloadGenerator.Fill | producer/payload_generator.cpp:115-133 | Fills the span in place with the generator's bytes and leaves its next state |
| PayloadGenerator.FillLanes | producer/payload_generator.cpp:64-80 | The block loop with its partial last block |
| PayloadGenerator.XoshiroStep | producer/payload_generator.cpp:50-62 | One step of all lanes: 64 output bytes and the next state |
| PayloadGenerator.StepInPlace | producer/payload_generator.cpp:52-59 | The in-place sequence of xors, shifts and rotation gives the next state in terms of the old words |
| PayloadGenerator.SplitMix64 | producer/payload_generator.cpp:14-19 | One draw |
| PayloadGenerator.SeedState | producer/payload_generator.cpp:103-108 | The 32 state words are the draws in lane-major order |
| PayloadGenerator.FillSequential | producer/payload_generator.cpp:125-133 | A running byte counter that wraps |
| PayloadNumbers.PayloadIsPublished | producer/payload_generator.cpp:50-109 | For every seed and size, byte i of the payload is that of the published generators on 64-bit numbers: lane i/8 mod 8, step i/64, seeded with the draws 4l to 4l + 3 |
| PayloadNumbers.StepOnNumbers | producer/payload_generator.cpp:50-62 | A step of a lane is the sequence of shifts, xors and the rotation on numbers |
| PayloadNumbers.OutputOnNumbers | producer/payload_generator.cpp:52 | The output is the sum of the first and the last word modulo 2^64 |
| PayloadNumbers.DrawOnNumbers | producer/payload_generator.cpp:14-19 | Draw k of SplitMix64 in closed form: the mix of seed + (k + 1) * gamma |
| PayloadNumbers.MixOnNumbers | producer/payload_generator.cpp:15-18 | The mix on numbers |

## Left out

- The CRC instructions of the CPU and the AVX2 build of the generator loop: foreign instructions; the software paths
  are modelled.
- Creating, mapping and unlinking the shared memory, and two producers racing for one name: operating system calls; the
  mirrored mapping is an assumption.
- Weak memory: steps are sequentially consistent; release and acquire make data visible with the counter store.
- A second producer's region: each ring is one region; a new producer makes a new one.
- Signals, keyboard, terminal, reporters, option parsing and formatting: they only set the pause and stop flags or show
  numbers.
- Names and factories (`make_checksum`, `make_pause_policy`, `make_payload_generator`): easy members.
- The conversion of a rate to an interval (producer/rate_limiter.cpp:9-16): floating point.
- `ShmPacketSink` only passes calls on to `RingProducer`; its finished store is the event `Finish` of `Pipeline`.
- `wait_for_peer`, `connect` and elapsed times: loops around members that are modelled.
- Statistical quality of the random payload.
- Overflow of int64 timestamp sums and of the 64-bit statistics counters: timestamps are int64, their sums and
  differences and the counters are unbounded.
- 64-bit and 32-bit words are sequences of bits, defects are sets of flags: the same values in another form.
- In `RingBuffer`, `Transport`, `ConsumerSession` and `PacketStream` the objects run undisturbed; what others do
  meanwhile is in the step systems. There the builder works on an array of its own, and a span into the ring is a pair
  of start and length over the mirrored mapping.
- The validator reads a packet once in `Pipeline`; the program reads header bytes several times, which is the same
  because a peeked record does not change (`RingQueue.ViewIsFront`).
- Waiting.WaitUntil: the attempts, clock readings and looks at the stop flag are functions of the number of waits, and
  the clock is assumed to advance by at least each requested sleep.
- RateLimiter.RateLimiter.WaitForSlot: the readings are given as a sequence in which one lets the loop end; a clock that
  stands still would wait for ever.
- Progress under fairness: both programs have a next step in every state (`Delivery.SenderNeverStuck`,
  `Delivery.ReceiverNeverStuck`) and the consumer's steps behind the end of the stream are bounded
  (`Drain.DrainsInTime`), but that a step is eventually taken is up to the scheduler.
