/** What the pipeline delivers, over every run: from the producer's loop through the ring to the consumer's verdicts. */
module Delivery {
  import opened Words
  import opened Crc
  import opened Packet
  import opened PayloadGenerator
  import opened PacketValidator
  import opened RingProtocol
  import RingQueue
  import opened ConsumerSession
  import opened PacketStream
  import opened Pipeline
  import opened PipelineSafety

  // ------------------------------------------------------------ runs

  datatype Event = Send(s: SenderEvent) | Receive(r: ReceiverEvent)

  predicate Enabled(p: Pipe, e: Event) {
    match e
    case Send(s) => SenderEnabled(p, s)
    case Receive(r) => ReceiverEnabled(p, r)
  }

  ghost function Next(setup: Setup, p: Pipe, e: Event): (n: Pipe)
    requires setup.Sound() && Safe(setup, p) && Enabled(p, e)
    ensures Safe(setup, n)
  {
    match e
    case Send(s) =>
      SenderKeepsProducing(setup, p, s);
      SenderKeepsConsuming(setup, p, s);
      SenderNext(setup, p, s)
    case Receive(r) =>
      ReceiverKeepsProducing(setup, p, r);
      ReceiverKeepsConsuming(setup, p, r);
      ReceiverNext(setup, p, r)
  }

  ghost predicate Possible(setup: Setup, p: Pipe, events: seq<Event>)
    requires setup.Sound() && Safe(setup, p)
    decreases |events|
  {
    events != [] ==> Enabled(p, events[0]) && Possible(setup, Next(setup, p, events[0]), events[1..])
  }

  ghost function After(setup: Setup, p: Pipe, events: seq<Event>): (n: Pipe)
    requires setup.Sound() && Safe(setup, p) && Possible(setup, p, events)
    ensures Safe(setup, n)
    decreases |events|
  {
    if events == [] then p else After(setup, Next(setup, p, events[0]), events[1..])
  }

  /** A new ring, the producer about to start its loop, and the consumer constructed on it from the start. */
  function Start(setup: Setup, data: seq<byte>, clock: int64, tracker: Tracker): (p: Pipe)
    requires IsPowerOfTwo(|data|) && |data| < TWO_64
    ensures Safe(setup, p)
  {
    BegunInStep(tracker, setup.config, [], [], 0);
    Pipe(RingQueue.NewRing(data), Sender(Looping, false, true), Receiver(Starting, Begun(tracker), 0), clock, [], [])
  }

  /** The producer is never stuck: until it has finished or died, it has a next step of its own. */
  lemma SenderNeverStuck(setup: Setup, p: Pipe)
    requires Producing(setup, p) && p.sender.alive && !p.sender.mode.Gone?
    ensures SenderEnabled(p, SenderChoice(p)) && !SenderChoice(p).Die? && !SenderChoice(p).Tick?
  {
  }

  /** Nor is the consumer, until its session is over. */
  lemma ReceiverNeverStuck(setup: Setup, p: Pipe)
    requires Invariant(p.ring) && Placed(setup, p) && !p.receiver.mode.Over?
    ensures ReceiverEnabled(p, ReceiverChoice(p)) && !ReceiverChoice(p).Restart?
  {
  }

  function SenderChoice(p: Pipe): SenderEvent {
    match p.sender.mode
    case Reserving =>
      if !p.ring.producer.phase.Idle? then Advance else if p.ring.producer.pending != 0 then Build else GiveUp
    case Building(_, left) => if left != [] then StoreNext else CommitPacket
    case _ => Reserve
  }

  function ReceiverChoice(p: Pipe): ReceiverEvent {
    match p.receiver.mode
    case Starting => Construct
    case Top => LookAtPause(false)
    case Trying(_) => Attempt
    case Failed(_) => NothingCame
    case Peeked(purpose) => if purpose == ToDrop then Conclude else ReadClock
    case Reading(_, _, copy) => if |copy| + PREFIX < p.ring.consumer.pending then LoadByte else Conclude
    case Asking => LoadState
    case Asked(_) => CheckAlive
    case _ => ReleaseFirst
  }

  // ------------------------------------------------------------ the stream has ended

  /** Once the producer has finished or died, no run commits anything more. */
  lemma {:induction false} EndedStreamStaysEnded(setup: Setup, p: Pipe, events: seq<Event>)
    requires setup.Sound() && Safe(setup, p) && Possible(setup, p, events)
    requires p.sender.finished || !p.sender.alive
    ensures After(setup, p, events).packets == p.packets
    decreases |events|
  {
    if events != [] {
      EndedStepCommitsNothing(setup, p, events[0]);
      EndedStreamStaysEnded(setup, Next(setup, p, events[0]), events[1..]);
    }
  }

  lemma EndedStepCommitsNothing(setup: Setup, p: Pipe, e: Event)
    requires setup.Sound() && Safe(setup, p) && Enabled(p, e) && (p.sender.finished || !p.sender.alive)
    ensures var n := Next(setup, p, e); n.packets == p.packets && (n.sender.finished || !n.sender.alive)
  {
    match e
    case Send(s) => OthersLeave(setup, p, s);
    case Receive(r) => ReceiverLeaves(setup, p, r);
  }

  lemma {:induction false} BaseStays(setup: Setup, p: Pipe, events: seq<Event>)
    requires setup.Sound() && Safe(setup, p) && Possible(setup, p, events)
    requires forall e :: e in events ==> !(e.Receive? && e.r.Restart?)
    ensures After(setup, p, events).receiver.base == p.receiver.base
    decreases |events|
  {
    if events != [] {
      assert events[0] in events;
      assert Next(setup, p, events[0]).receiver.base == p.receiver.base;
      BaseStays(setup, Next(setup, p, events[0]), events[1..]);
    }
  }

  // ------------------------------------------------------------ what has been delivered

  /** The session's account of the stream. */
  ghost predicate Delivered(setup: Setup, p: Pipe) {
    var s, base, k := p.receiver.session, p.receiver.base, |p.receiver.session.log|;
    && p.packets == Packets(setup.source, p.times) && Ordered(p.times)
    && base + k <= |p.packets| && RecordsOf(s.log) == p.packets[base..base + k]
    && (forall f :: f in s.log ==> if f.Processed? then f.result.Clean() else f.paused)
    && Spotless(s.stats.totals) && Accounted(s)
    && s.stats.totals.received + s.stats.totals.dropped == k
    && s.stats.totals.bytes + s.stats.totals.droppedBytes == Length(p.packets[base..base + k])
    && (setup.config.policy == Block ==> s.stats.totals.dropped == 0)
    && (p.receiver.mode == Over(true) ==> Drained(p))
  }

  /** Nothing is left in the ring, and everything committed since the session began has been taken. */
  ghost predicate Drained(p: Pipe) {
    && p.ring.memory.head == p.ring.memory.tail
    && p.receiver.base + |p.receiver.session.log| == |p.packets|
    && (p.sender.finished || !p.sender.alive)
  }

  lemma SafeDelivers(setup: Setup, p: Pipe)
    requires setup.Sound() && Safe(setup, p)
    ensures Delivered(setup, p)
  {
    InStepAccounts(p.receiver.session, setup.config, p.packets, p.times, p.receiver.base);
    if p.receiver.mode == Over(true) {
      OverIsDrained(setup, p);
    }
  }

  lemma InStepAccounts(s: Session, config: Config, packets: seq<Record>, times: seq<int64>, base: nat)
    requires InStep(s, config, packets, times, base)
    ensures RecordsOf(s.log) == packets[base..base + |s.log|]
    ensures forall f :: f in s.log ==> if f.Processed? then f.result.Clean() else f.paused
    ensures s.stats.totals.received + s.stats.totals.dropped == |s.log|
    ensures s.stats.totals.bytes + s.stats.totals.droppedBytes == Length(packets[base..base + |s.log|])
    ensures config.policy == Block ==> s.stats.totals.dropped == 0
  {
    assert RecordsOf(s.log) == packets[base..base + |s.log|];
    CountsPartition(s.log);
    BytesPartition(s.log);
    if config.policy == Block {
      NothingDiscarded(s.log);
    }
  }

  /** The extra read behind the end of the stream found nothing: the counters meet and every packet is accounted for. */
  lemma OverIsDrained(setup: Setup, p: Pipe)
    requires Invariant(p.ring) && Placed(setup, p) && p.receiver.mode == Over(true)
    ensures Drained(p)
  {
  }

  lemma {:induction false} NothingDiscarded(log: seq<Fate>)
    requires forall i :: 0 <= i < |log| ==> log[i].Processed?
    ensures CountOf(log, false) == 0
  {
    if log != [] {
      NothingDiscarded(log[..|log| - 1]);
    }
  }

  /**
   * The end-to-end theorem. Whatever the ring held before and however the steps of the producer, of the consumer, of
   * the clock, of pauses, stops, crashes and restarts interleave: the records taken are the packets made, from where
   * the session began, in order; every processed one is clean; what is not processed was dropped during a pause; and
   * a session that ended with the stream has left nothing behind.
   */
  lemma EveryRunDelivers(setup: Setup, data: seq<byte>, clock: int64, tracker: Tracker, events: seq<Event>)
    requires setup.Sound() && IsPowerOfTwo(|data|) && |data| < TWO_64
    requires Possible(setup, Start(setup, data, clock, tracker), events)
    ensures Delivered(setup, After(setup, Start(setup, data, clock, tracker), events))
  {
    SafeDelivers(setup, After(setup, Start(setup, data, clock, tracker), events));
  }

  /** Blocking policy, one session: what is processed is a prefix of what was made, and all of it once the stream ended. */
  lemma BlockingLosesNothing(setup: Setup, data: seq<byte>, clock: int64, tracker: Tracker, events: seq<Event>)
    requires setup.Sound() && IsPowerOfTwo(|data|) && |data| < TWO_64 && setup.config.policy == Block
    requires Possible(setup, Start(setup, data, clock, tracker), events)
    requires forall e :: e in events ==> !(e.Receive? && e.r.Restart?)
    ensures var n := After(setup, Start(setup, data, clock, tracker), events);
      var s := n.receiver.session; var processed := RecordsOf(s.log); var made := Packets(setup.source, n.times);
      && processed <= made && s.stats.totals.received == s.stats.totals.valid == |processed|
      && (n.receiver.mode == Over(true) ==> processed == made)
  {
    var p := Start(setup, data, clock, tracker);
    BaseStays(setup, p, events);
    SafeDelivers(setup, After(setup, p, events));
  }

  // ------------------------------------------------------------ the real programs

  /** The stores that put bytes at a position, in order. */
  function StoresAt(at: nat, bytes: seq<byte>): (r: seq<Store>)
    ensures |r| == |bytes|
  {
    seq<Store>(|bytes|, i requires 0 <= i < |bytes| => Store(at + i, bytes[i]))
  }

  /** What building a packet stores: the header, the payload, then the checksum over both into its field. */
  function BuildStores(kind: ChecksumKind, sequence: nat, now: int64, payload: seq<byte>): seq<Store> {
    var header := HeaderBytes(NewHeader(kind, sequence, now, |payload|));
    StoresAt(0, header) + StoresAt(HEADER_SIZE, payload)
    + StoresAt(12, Le(Value(Compute(kind, header + payload)), 4))
  }

  lemma {:induction false} FilledAdds(slot: seq<byte>, a: seq<Store>, b: seq<Store>)
    ensures Filled(slot, a + b) == Filled(Filled(slot, a), b)
    decreases |a|
  {
    if a == [] {
      assert a + b == b;
    } else {
      assert (a + b)[1..] == a[1..] + b;
      FilledAdds(if a[0].j < |slot| then slot[a[0].j := a[0].b] else slot, a[1..], b);
    }
  }

  lemma {:induction false} FilledAt(slot: seq<byte>, at: nat, bytes: seq<byte>)
    requires at + |bytes| <= |slot|
    ensures Filled(slot, StoresAt(at, bytes)) == Overwritten(slot, at, bytes)
    decreases |bytes|
  {
    if bytes != [] {
      var next := at + 1;
      assert StoresAt(at, bytes)[1..] == StoresAt(next, bytes[1..]);
      FilledAt(slot[at := bytes[0]], next, bytes[1..]);
      assert Overwritten(slot[at := bytes[0]], next, bytes[1..]) == Overwritten(slot, at, bytes);
    } else {
      assert Overwritten(slot, at, bytes) == slot;
    }
  }

  lemma FilledInThree(slot: seq<byte>, header: seq<byte>, payload: seq<byte>, check: seq<byte>)
    requires |header| == HEADER_SIZE && |check| == 4 && |slot| == HEADER_SIZE + |payload|
    ensures var whole := header + payload;
      Assembles(slot, StoresAt(0, header) + StoresAt(HEADER_SIZE, payload) + StoresAt(12, check),
                whole[..12] + check + whole[16..])
  {
    var whole := header + payload;
    FilledAdds(slot, StoresAt(0, header) + StoresAt(HEADER_SIZE, payload), StoresAt(12, check));
    FilledAdds(slot, StoresAt(0, header), StoresAt(HEADER_SIZE, payload));
    FilledAt(slot, 0, header);
    FilledAt(Overwritten(slot, 0, header), HEADER_SIZE, payload);
    assert Overwritten(Overwritten(slot, 0, header), HEADER_SIZE, payload) == whole;
    FilledAt(whole, 12, check);
    assert Overwritten(whole, 12, check) == whole[..12] + check + whole[16..];
  }

  /** Building a packet store by store seals it, whatever was in the slot. */
  lemma BuildStoresSeal(slot: seq<byte>, kind: ChecksumKind, sequence: nat, now: int64, payload: seq<byte>)
    requires |slot| == HEADER_SIZE + |payload|
    ensures Assembles(slot, BuildStores(kind, sequence, now, payload), Sealed(kind, sequence, now, payload))
  {
    var header := HeaderBytes(NewHeader(kind, sequence, now, |payload|));
    FilledInThree(slot, header, payload, Le(Value(Compute(kind, header + payload)), 4));
  }

  /** The programs as they are: any algorithm, generator and payload size, either pause policy. */
  function RealSetup(policy: Policy, tolerance: int, maxDefectLogs: nat, kind: ChecksumKind, g: Generator, n: nat): Setup {
    Setup(Config(policy, (t, record, now) => Validated(t, tolerance, record, now), maxDefectLogs), tolerance,
          HEADER_SIZE + n, PacketSource(kind, g, n),
          (k: nat, now: int64) => BuildStores(kind, Low64(k), now, Fills(g, n, k).Bytes(n)))
  }

  lemma RealSetupSound(policy: Policy, tolerance: int, maxDefectLogs: nat, kind: ChecksumKind, g: Generator, n: nat)
    requires 0 <= tolerance
    ensures RealSetup(policy, tolerance, maxDefectLogs, kind, g, n).Sound()
  {
    var setup := RealSetup(policy, tolerance, maxDefectLogs, kind, g, n);
    if setup.size < TWO_32 {
      ValidatorAcceptsProducer(setup.config, tolerance, kind, g, n);
    }
    forall k: nat, now: int64, slot: seq<byte> | |slot| == setup.size
      ensures Assembles(slot, setup.stores(k, now), setup.source(k, now))
    {
      BuildStoresSeal(slot, kind, Low64(k), now, Fills(g, n, k).Bytes(n));
    }
  }

  /** The end-to-end theorem for them, with any seed or the sequential payload and any ring capacity. */
  lemma RealProgramsDeliver(policy: Policy, tolerance: int, maxDefectLogs: nat, kind: ChecksumKind, g: Generator, n: nat,
                            data: seq<byte>, clock: int64, tracker: Tracker, events: seq<Event>)
    requires 0 <= tolerance && IsPowerOfTwo(|data|) && |data| < TWO_64
    ensures var setup := RealSetup(policy, tolerance, maxDefectLogs, kind, g, n);
      var start := Start(setup, data, clock, tracker);
      setup.Sound() && (Possible(setup, start, events) ==> Delivered(setup, After(setup, start, events)))
  {
    RealSetupSound(policy, tolerance, maxDefectLogs, kind, g, n);
    var setup := RealSetup(policy, tolerance, maxDefectLogs, kind, g, n);
    if Possible(setup, Start(setup, data, clock, tracker), events) {
      EveryRunDelivers(setup, data, clock, tracker, events);
    }
  }

  /** Nothing is lost under the blocking policy, for them. */
  lemma RealBlockingLosesNothing(tolerance: int, maxDefectLogs: nat, kind: ChecksumKind, g: Generator, n: nat,
                                 data: seq<byte>, clock: int64, tracker: Tracker, events: seq<Event>)
    requires 0 <= tolerance && IsPowerOfTwo(|data|) && |data| < TWO_64
    requires forall e :: e in events ==> !(e.Receive? && e.r.Restart?)
    ensures var setup := RealSetup(Block, tolerance, maxDefectLogs, kind, g, n);
      var start := Start(setup, data, clock, tracker);
      && setup.Sound()
      && (Possible(setup, start, events) ==>
            var end := After(setup, start, events); var s := end.receiver.session;
            var made := Packets(PacketSource(kind, g, n), end.times);
            && RecordsOf(s.log) <= made && s.stats.totals.received == s.stats.totals.valid == |s.log|
            && (end.receiver.mode == Over(true) ==> RecordsOf(s.log) == made))
  {
    var setup := RealSetup(Block, tolerance, maxDefectLogs, kind, g, n);
    RealSetupSound(Block, tolerance, maxDefectLogs, kind, g, n);
    if Possible(setup, Start(setup, data, clock, tracker), events) {
      BlockingLosesNothing(setup, data, clock, tracker, events);
    }
  }
}
