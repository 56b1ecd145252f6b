/** The stream of packets a producer makes, the loop that makes it, and what a session makes of it. */
module PacketStream {
  import opened Words
  import Crc
  import opened Packet
  import opened PayloadGenerator
  import PacketBuilder
  import opened PacketValidator
  import opened ConsumerStats
  import opened ConsumerSession

  /** What a producer sends: its packet number k, made at a given time. */
  type Source = (nat, int64) -> Record

  /** The generator after k packets of n payload bytes. */
  function Fills(g: Generator, n: nat, k: nat): Generator {
    if k == 0 then g else Fills(g, n, k - 1).After(n)
  }

  /** The packets of a producer with this generator; the sequence number is a 64-bit counter. */
  function PacketSource(kind: Crc.ChecksumKind, g: Generator, n: nat): Source {
    (k: nat, now: int64) => Sealed(kind, Low64(k), now, Fills(g, n, k).Bytes(n))
  }

  /** The packets made at these times. */
  function Packets(source: Source, times: seq<int64>): (r: seq<Record>)
    ensures |r| == |times|
  {
    seq<Record>(|times|, k requires 0 <= k < |times| => source(k, times[k]))
  }

  lemma OneMorePacket(source: Source, times: seq<int64>, now: int64, k: nat, sequence: nat)
    requires k == |times| && sequence == Low64(k)
    ensures Packets(source, times + [now]) == Packets(source, times) + [source(k, now)]
    ensures Add64(sequence, 1) == Low64(|times + [now]|)
  {
    Low64Adds(k, 1);
  }

  /** A producer has made packets at these times; where that leaves its counter and its generator. */
  predicate Sent(kind: Crc.ChecksumKind, g: Generator, n: nat, times: seq<int64>,
                 sequence: nat, packets: seq<Record>, state: Generator) {
    && sequence == Low64(|times|)
    && packets == Packets(PacketSource(kind, g, n), times)
    && state == Fills(g, n, |times|)
  }

  lemma OneMoreSent(kind: Crc.ChecksumKind, g: Generator, n: nat, times: seq<int64>, sequence: nat,
                    packets: seq<Record>, state: Generator, now: int64, packet: Record)
    requires Sent(kind, g, n, times, sequence, packets, state)
    requires packet == Sealed(kind, sequence, now, state.Bytes(n))
    ensures Sent(kind, g, n, times + [now], Add64(sequence, 1), packets + [packet], state.After(n))
  {
    OneMorePacket(PacketSource(kind, g, n), times, now, |times|, sequence);
  }

  /** Packet k reads back as number k modulo 2^64, its time, and the payload that k earlier fills leave the generator at. */
  lemma PacketReads(kind: Crc.ChecksumKind, g: Generator, n: nat, k: nat, now: int64)
    ensures var r := PacketSource(kind, g, n)(k, now); var h := ReadHeader(r);
      && h.sequence == k % 0x1_0000_0000_0000_0000 && h.timestamp == now && h.checksumKind == Crc.KindCode(kind)
      && h.payloadSize == n % 0x1_0000_0000 && r[HEADER_SIZE..] == Fills(g, n, k).Bytes(n)
  {
    SealedReadsBack(kind, Low64(k), now, Fills(g, n, k).Bytes(n));
  }

  /** Where payload k begins in the stream of all payloads. */
  function Offset(n: nat, k: nat): nat {
    if k == 0 then 0 else Offset(n, k - 1) + n
  }

  lemma {:induction false} OffsetInBlocks(n: nat, blocks: nat, k: nat)
    requires n == BLOCK_BYTES * blocks
    ensures Offset(n, k) == BLOCK_BYTES * Offset(blocks, k)
  {
    if k != 0 {
      OffsetInBlocks(n, blocks, k - 1);
    }
  }

  /** Payloads of whole blocks, or of the sequential generator, are one fill cut into packets. */
  lemma {:induction false} PayloadsContinue(g: Generator, n: nat, blocks: nat, k: nat)
    requires g.Random? ==> n == BLOCK_BYTES * blocks
    ensures Fills(g, n, k) == g.After(Offset(n, k))
    ensures g.Bytes(Offset(n, k) + n) == g.Bytes(Offset(n, k)) + Fills(g, n, k).Bytes(n)
    decreases k
  {
    if k == 0 {
      NothingFilled(g, Offset(n, k));
    } else {
      PayloadsContinue(g, n, blocks, k - 1);
      OneMoreFill(g, n, blocks, k - 1, Offset(n, k - 1), Offset(n, k));
    }
    OneMoreFill(g, n, blocks, k, Offset(n, k), Offset(n, k) + n);
  }

  lemma NothingFilled(g: Generator, none: nat)
    requires none == 0
    ensures g.After(none) == g
  {
  }

  lemma OneMoreFill(g: Generator, n: nat, blocks: nat, k: nat, before: nat, all: nat)
    requires all == before + n && before == Offset(n, k) && (g.Random? ==> n == BLOCK_BYTES * blocks)
    ensures g.After(all) == g.After(before).After(n) && g.Bytes(all) == g.Bytes(before) + g.After(before).Bytes(n)
  {
    if g.Random? {
      OffsetInBlocks(n, blocks, k);
    }
    ChunksInvisible(g, before, Offset(blocks, k), n, all);
  }

  // ------------------------------------------------------------ the producer's loop

  /** What one round of the producer's loop gets to see. */
  datatype ProducerTurn = ProducerTurn(stop: bool, paused: bool, slot: bool, now: int64)

  /** When the loop makes packets, behind those already made. */
  function Emitted(maxPackets: nat, times: seq<int64>, turns: seq<ProducerTurn>): seq<int64>
    decreases |turns|
  {
    if turns == [] || turns[0].stop || (maxPackets != 0 && Low64(|times|) >= maxPackets) then times
    else if turns[0].paused || !turns[0].slot then Emitted(maxPackets, times, turns[1..])
    else Emitted(maxPackets, times + [turns[0].now], turns[1..])
  }

  lemma {:induction false} EmittedAtMost(maxPackets: nat, times: seq<int64>, turns: seq<ProducerTurn>)
    requires 0 < maxPackets < TWO_64 && |times| <= maxPackets
    ensures times <= Emitted(maxPackets, times, turns) && |Emitted(maxPackets, times, turns)| <= maxPackets
    decreases |turns|
  {
    if turns == [] || turns[0].stop || Low64(|times|) >= maxPackets {
    } else if turns[0].paused || !turns[0].slot {
      EmittedAtMost(maxPackets, times, turns[1..]);
    } else {
      EmittedAtMost(maxPackets, times + [turns[0].now], turns[1..]);
    }
  }

  /** When the rounds before a stop give a slot outside a pause. */
  function Slots(turns: seq<ProducerTurn>): seq<int64> {
    if turns == [] || turns[0].stop then []
    else (if turns[0].slot && !turns[0].paused then [turns[0].now] else []) + Slots(turns[1..])
  }

  /** One packet for each such slot, up to the limit if there is one. */
  lemma {:induction false} EmittedFillsSlots(maxPackets: nat, times: seq<int64>, turns: seq<ProducerTurn>)
    requires maxPackets == 0 || |times| <= maxPackets < TWO_64
    ensures var all := times + Slots(turns);
      Emitted(maxPackets, times, turns) == if maxPackets == 0 || |all| <= maxPackets then all else all[..maxPackets]
    decreases |turns|
  {
    if turns != [] && !turns[0].stop && (maxPackets == 0 || |times| < maxPackets) {
      var now := if turns[0].slot && !turns[0].paused then [turns[0].now] else [];
      EmittedFillsSlots(maxPackets, times + now, turns[1..]);
      assert times + now + Slots(turns[1..]) == times + Slots(turns) && times + [] == times;
    } else {
      assert times + [] == times && (times + Slots(turns))[..|times|] == times;
    }
  }

  /** One round of the loop that is neither stopped nor at the limit. */
  lemma EmittedGoesOn(maxPackets: nat, times: seq<int64>, turns: seq<ProducerTurn>, i: nat, next: nat)
    requires next == i + 1 <= |turns| && !turns[i].stop && !(maxPackets != 0 && Low64(|times|) >= maxPackets)
    ensures Emitted(maxPackets, times, turns[i..])
         == Emitted(maxPackets, if turns[i].paused || !turns[i].slot then times else times + [turns[i].now], turns[next..])
  {
    assert turns[i..][0] == turns[i] && turns[i..][1..] == turns[next..];
  }

  lemma EmittedEnds(maxPackets: nat, times: seq<int64>, turns: seq<ProducerTurn>, i: nat)
    requires i <= |turns| && (i == |turns| || turns[i].stop || (maxPackets != 0 && Low64(|times|) >= maxPackets))
    ensures Emitted(maxPackets, times, turns[i..]) == times
  {
    assert i < |turns| ==> turns[i..][0] == turns[i];
  }

  class ProducerApp {
    const builder: PacketBuilder.PacketBuilder
    const payloadSize: nat
    const maxPackets: nat

    constructor (builder: PacketBuilder.PacketBuilder, payloadSize: nat, maxPackets: nat)
      ensures this.builder == builder && this.payloadSize == payloadSize && this.maxPackets == maxPackets
    {
      this.builder, this.payloadSize, this.maxPackets := builder, payloadSize, maxPackets;
    }

    /** Sends contiguous packets until a stop is requested, the limit is reached or the rounds end. */
    method Run(maxPacketSize: nat, turns: seq<ProducerTurn>) returns (fits: bool, packets: seq<Record>)
      requires builder.checksum.Valid()
      modifies builder.generator
      ensures fits <==> HEADER_SIZE + payloadSize <= maxPacketSize
      ensures var g := old(builder.generator.state);
        packets == if fits then Packets(PacketSource(builder.checksum.kind, g, payloadSize), Emitted(maxPackets, [], turns))
                   else []
    {
      packets := [];
      fits := HEADER_SIZE + payloadSize <= maxPacketSize;
      if fits {
        packets := SendAll(turns);
      }
    }

    method SendAll(turns: seq<ProducerTurn>) returns (packets: seq<Record>)
      requires builder.checksum.Valid()
      modifies builder.generator
      ensures var g := old(builder.generator.state);
        packets == Packets(PacketSource(builder.checksum.kind, g, payloadSize), Emitted(maxPackets, [], turns))
    {
      var sequence: nat, i: nat := 0, 0;
      packets := [];
      ghost var times: seq<int64>, g, all := [], builder.generator.state, Emitted(maxPackets, [], turns);
      while i < |turns| && !turns[i].stop && !(maxPackets != 0 && sequence >= maxPackets)
        invariant 0 <= i <= |turns|
        invariant Sent(builder.checksum.kind, g, payloadSize, times, sequence, packets, builder.generator.state)
        invariant Emitted(maxPackets, times, turns[i..]) == all
      {
        EmittedGoesOn(maxPackets, times, turns, i, i + 1);
        if !turns[i].paused && turns[i].slot {
          sequence, packets := SendOne(g, times, sequence, packets, turns[i].now);
          times := times + [turns[i].now];
        }
        i := i + 1;
      }
      EmittedEnds(maxPackets, times, turns, i);
    }

    /** Builds the next packet in a slot and counts it. */
    method SendOne(ghost g: Generator, ghost times: seq<int64>, sequence: nat, packets: seq<Record>, now: int64)
      returns (next: nat, sent: seq<Record>)
      requires builder.checksum.Valid()
      requires Sent(builder.checksum.kind, g, payloadSize, times, sequence, packets, builder.generator.state)
      modifies builder.generator
      ensures Sent(builder.checksum.kind, g, payloadSize, times + [now], next, sent, builder.generator.state)
    {
      ghost var state := builder.generator.state;
      var packet := BuildOne(sequence, now);
      next, sent := Add64(sequence, 1), packets + [packet];
      OneMoreSent(builder.checksum.kind, g, payloadSize, times, sequence, packets, state, now, packet);
    }

    method BuildOne(sequence: nat, now: int64) returns (packet: Record)
      requires builder.checksum.Valid() && sequence < TWO_64
      modifies builder.generator
      ensures packet == Sealed(builder.checksum.kind, sequence, now, old(builder.generator.state).Bytes(payloadSize))
      ensures builder.generator.state == old(builder.generator.state).After(payloadSize)
    {
      var slot := new byte[HEADER_SIZE + payloadSize];
      builder.Build(slot, sequence, now);
      packet := slot[..];
    }
  }

  // ------------------------------------------------------------ a session on such a stream

  ghost predicate Ordered(times: seq<int64>) {
    forall i, j :: 0 <= i <= j < |times| ==> times[i] <= times[j]
  }

  /** The session has taken the packets from `base` on, one after the other, and found nothing to complain about. */
  ghost predicate InStep(s: Session, config: Config, packets: seq<Record>, times: seq<int64>, base: nat) {
    && base + |s.log| <= |packets| == |times|
    && (forall i :: 0 <= i < |s.log| ==> s.log[i].record == packets[base + i])
    && (forall i :: 0 <= i < |s.log| ==>
          if s.log[i].Processed? then s.log[i].result.Clean() else s.log[i].paused && config.policy == Discard)
    && Expects(s, config, times, base + |s.log|)
    && Spotless(s.stats.totals)
    && Accounted(s)
  }

  /** The tracker expects the next packet, unless records were dropped and it will be resynced first. */
  ghost predicate Expects(s: Session, config: Config, times: seq<int64>, next: nat)
    requires next <= |times|
  {
    s.tracker.hasBaseline ==>
      && next > 0 && s.tracker.lastTimestamp <= times[next - 1]
      && (s.tracker.expected == Low64(next) || (s.wasPaused && config.policy == Discard))
  }

  ghost predicate Spotless(t: ConsumerTotals) {
    && t.valid == t.received
    && t.corrupted == t.sequenceGaps == t.missing == t.sequenceRewinds == t.timestampAnomalies == 0
  }

  lemma BegunInStep(tracker: Tracker, config: Config, packets: seq<Record>, times: seq<int64>, base: nat)
    requires base <= |packets| == |times|
    ensures InStep(Begun(tracker), config, packets, times, base)
  {
  }

  /** In order, and not from the future: the packets of this source are judged clean. */
  ghost predicate Accepts(config: Config, tolerance: int, source: Source) {
    forall t: Tracker, k: nat, time: int64, now: int :: InOrder(t, k, time) && time <= now + tolerance ==>
      Approved(k, time, config.judge(t, source(k, time), now))
  }

  predicate InOrder(t: Tracker, k: nat, time: int64) {
    t.hasBaseline ==> t.expected == Low64(k) && t.lastTimestamp <= time
  }

  /** No complaint, and packet k + 1 expected next. */
  predicate Approved(k: nat, time: int64, verdict: (Tracker, ValidationResult)) {
    verdict.1.Clean() && verdict.0 == Tracker(true, Low64(k + 1), time)
  }

  lemma SealedIsApproved(t: Tracker, tolerance: int, kind: Crc.ChecksumKind, k: nat, time: int64,
                         payload: seq<byte>, now: int)
    requires InOrder(t, k, time) && time <= now + tolerance && |payload| < TWO_32
    ensures Approved(k, time, Validated(t, tolerance, Sealed(kind, Low64(k), time, payload), now))
  {
    SealedInOrderIsClean(t, tolerance, kind, Low64(k), time, payload, now);
    NextSequenceCounts(k);
  }

  lemma NextSequenceCounts(k: nat)
    ensures NextSequence(Low64(k)) == Low64(k + 1)
  {
    Low64Adds(k, 1);
  }

  /** The real validator accepts the packets of a real producer, with any generator, algorithm and payload size. */
  lemma ValidatorAcceptsProducer(config: Config, tolerance: int, kind: Crc.ChecksumKind, g: Generator, n: nat)
    requires JudgesLike(config, tolerance) && n < TWO_32
    ensures Accepts(config, tolerance, PacketSource(kind, g, n))
  {
    var source := PacketSource(kind, g, n);
    forall t: Tracker, k: nat, time: int64, now: int | InOrder(t, k, time) && time <= now + tolerance
      ensures Approved(k, time, config.judge(t, source(k, time), now))
    {
      SealedIsApproved(t, tolerance, kind, k, time, Fills(g, n, k).Bytes(n), now);
    }
  }

  /** The next packet of the stream is judged clean, and leaves the expectations for the one behind it. */
  lemma ProcessInStep(s: Session, config: Config, tolerance: int, source: Source,
                      packets: seq<Record>, times: seq<int64>, base: nat, next: nat, now: int)
    requires InStep(s, config, packets, times, base) && next == base + |s.log| < |packets| && Ordered(times)
    requires !s.wasPaused && Accepts(config, tolerance, source)
    requires packets[next] == source(next, times[next]) && times[next] <= now + tolerance
    ensures InStep(AfterProcessing(s, config, packets[next], now), config, packets, times, base)
  {
    var f := Processed(packets[next], config.judge(s.tracker, packets[next], now).1);
    NextIsApproved(s, config, tolerance, source, times, next, now);
    ProcessAccounted(s, config, packets[next], now);
    CleanStaysSpotless(s.stats, f.result, |packets[next]|);
    InStepGrows(s, AfterProcessing(s, config, packets[next], now), config, packets, times, base, next, next + 1, f);
  }

  lemma NextIsApproved(s: Session, config: Config, tolerance: int, source: Source, times: seq<int64>, next: nat, now: int)
    requires next < |times| && Expects(s, config, times, next) && Ordered(times)
    requires !s.wasPaused && Accepts(config, tolerance, source) && times[next] <= now + tolerance
    ensures Approved(next, times[next], config.judge(s.tracker, source(next, times[next]), now))
  {
    assert InOrder(s.tracker, next, times[next]);
  }

  /** One more fate of the next packet keeps a session in step. */
  lemma InStepGrows(s: Session, t: Session, config: Config, packets: seq<Record>, times: seq<int64>, base: nat,
                    next: nat, after: nat, f: Fate)
    requires InStep(s, config, packets, times, base) && next == base + |s.log| < |packets| && after == next + 1
    requires t.log == s.log + [f] && f.record == packets[next]
    requires if f.Processed? then f.result.Clean() else f.paused && config.policy == Discard
    requires Expects(t, config, times, after) && Spotless(t.stats.totals) && Accounted(t)
    ensures InStep(t, config, packets, times, base)
  {
  }

  lemma CleanStaysSpotless(s: Stats, result: ValidationResult, size: nat)
    requires Spotless(s.totals) && result.Clean()
    ensures Spotless(Recorded(s, result, size).totals)
  {
    assert !result.Corrupted();
  }

  lemma DropInStep(s: Session, config: Config, packets: seq<Record>, times: seq<int64>, base: nat, next: nat)
    requires InStep(s, config, packets, times, base) && next == base + |s.log| < |packets| && Ordered(times)
    requires s.wasPaused && config.policy == Discard
    ensures InStep(AfterDropping(s, packets[next]), config, packets, times, base)
  {
    DropAccounted(s, packets[next]);
    InStepGrows(s, AfterDropping(s, packets[next]), config, packets, times, base, next, next + 1,
                Discarded(packets[next], s.wasPaused));
  }

  lemma SwitchInStep(s: Session, config: Config, packets: seq<Record>, times: seq<int64>, base: nat, paused: bool)
    requires InStep(s, config, packets, times, base)
    ensures InStep(Switched(s, config, paused), config, packets, times, base)
  {
  }

  lemma ReportInStep(s: Session, config: Config, packets: seq<Record>, times: seq<int64>, base: nat)
    requires InStep(s, config, packets, times, base)
    ensures InStep(Reported(s), config, packets, times, base)
  {
  }

  lemma LongerInStep(s: Session, config: Config, packets: seq<Record>, times: seq<int64>, base: nat, p: Record, t: int64)
    requires InStep(s, config, packets, times, base)
    ensures InStep(s, config, packets + [p], times + [t], base)
  {
  }
}
