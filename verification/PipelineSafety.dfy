/** No step of either program, in any state of the pipeline, breaks what the delivery of packets rests on. */
module PipelineSafety {
  import opened Words
  import opened Packet
  import opened RingProtocol
  import opened RingSafety
  import RingQueue
  import opened PacketStream
  import opened Pipeline

  // ------------------------------------------------------------ the producer program

  /** The program never asks the ring for something it would not allow. */
  lemma SenderIsAllowed(setup: Setup, p: Pipe, e: SenderEvent)
    requires Producing(setup, p) && SenderEnabled(p, e)
    ensures var a := SenderAction(setup, p, e); a.Some? ==> ProducerEnabled(p.ring.producer, a.value)
  {
    if e.StoreNext? {
      assert |Slot(p.ring.memory, p.ring.producer)| == setup.size;
    }
  }

  function SenderNext(setup: Setup, p: Pipe, e: SenderEvent): (n: Pipe)
    requires Producing(setup, p) && SenderEnabled(p, e)
    ensures Invariant(n.ring)
  {
    SenderIsAllowed(setup, p, e);
    var a := SenderAction(setup, p, e);
    if a.Some? then
      RingQueue.StepSafe(p.ring, RingQueue.Produce(a.value));
      SenderStep(setup, p, e)
    else SenderStep(setup, p, e)
  }

  lemma StoreNextSafe(setup: Setup, p: Pipe)
    requires Producing(setup, p) && SenderEnabled(p, StoreNext)
    ensures Producing(setup, SenderNext(setup, p, StoreNext))
  {
    var store := p.sender.mode.left[0];
    var slot := Slot(p.ring.memory, p.ring.producer);
    assert store.j < |slot|;
    StoreByteFills(p.ring.memory, p.ring.producer, store.j, store.b);
    var n := SenderNext(setup, p, StoreNext);
    assert Slot(n.ring.memory, n.ring.producer) == slot[store.j := store.b];
  }

  lemma BuildSafe(setup: Setup, p: Pipe)
    requires setup.Sound() && Producing(setup, p) && SenderEnabled(p, Build)
    ensures Producing(setup, SenderNext(setup, p, Build))
  {
    var slot := Slot(p.ring.memory, p.ring.producer);
    assert Assembles(slot, setup.stores(|p.times|, p.clock), setup.source(|p.times|, p.clock));
  }

  lemma ReservingSafe(setup: Setup, p: Pipe, e: SenderEvent)
    requires Producing(setup, p) && SenderEnabled(p, e) && (e.Reserve? || e.Advance?)
    ensures Producing(setup, SenderNext(setup, p, e))
  {
  }

  /** A commit publishes exactly the packet that was assembled. */
  lemma CommitPacketSafe(setup: Setup, p: Pipe)
    requires Producing(setup, p) && SenderEnabled(p, CommitPacket)
    ensures Producing(setup, SenderNext(setup, p, CommitPacket))
  {
    var k, now := |p.times|, p.sender.mode.now;
    assert Slot(p.ring.memory, p.ring.producer) == setup.source(k, now);
    OneMorePacket(setup.source, p.times, now, k, Low64(k));
    LaterStaysOrdered(p.times, now);
  }

  lemma LaterStaysOrdered(times: seq<int64>, now: int64)
    requires Ordered(times) && forall t :: t in times ==> t <= now
    ensures Ordered(times + [now])
  {
    forall i | 0 <= i < |times| ensures times[i] <= now { assert times[i] in times; }
  }

  lemma SenderKeepsProducing(setup: Setup, p: Pipe, e: SenderEvent)
    requires setup.Sound() && Producing(setup, p) && SenderEnabled(p, e)
    ensures Producing(setup, SenderNext(setup, p, e))
  {
    match e
    case StoreNext => StoreNextSafe(setup, p);
    case Build => BuildSafe(setup, p);
    case Reserve => ReservingSafe(setup, p, e);
    case Advance => ReservingSafe(setup, p, e);
    case CommitPacket => CommitPacketSafe(setup, p);
    case GiveUp =>
    case Finish =>
    case Die =>
    case Tick(_) =>
  }

  /** What a commit leaves to the consumer: one packet more, in the queue and in the stream. */
  lemma CommitLeaves(setup: Setup, p: Pipe)
    requires Producing(setup, p) && SenderEnabled(p, CommitPacket)
    ensures var n := SenderNext(setup, p, CommitPacket); var packet := Slot(p.ring.memory, p.ring.producer);
      && n.ring.consumer == p.ring.consumer && n.receiver == p.receiver
      && n.ring.memory.queue == p.ring.memory.queue + [packet]
      && n.packets == p.packets + [packet] && n.times == p.times + [p.sender.mode.now]
      && n.sender == p.sender.(mode := Looping) && n.clock == p.clock && p.sender.alive && !p.sender.finished
  {
  }

  /** What any other step of the producer leaves to the consumer: all as it was, but for the end of the stream. */
  lemma OthersLeave(setup: Setup, p: Pipe, e: SenderEvent)
    requires Producing(setup, p) && SenderEnabled(p, e) && !e.CommitPacket?
    ensures var n := SenderNext(setup, p, e);
      && n.ring.consumer == p.ring.consumer && n.receiver == p.receiver
      && n.ring.memory.queue == p.ring.memory.queue && n.packets == p.packets && n.times == p.times
      && p.clock <= n.clock
      && (p.sender.finished ==> n.sender.finished) && (!p.sender.alive ==> !n.sender.alive)
  {
  }

  /** A longer queue of a longer stream holds the same places. */
  lemma LongerHolds(queue: seq<Record>, packets: seq<Record>, packet: Record)
    requires QueueHolds(queue, packets)
    ensures QueueHolds(queue + [packet], packets + [packet])
  {
  }

  lemma CommitKeepsPlaced(setup: Setup, p: Pipe)
    requires Producing(setup, p) && Placed(setup, p) && SenderEnabled(p, CommitPacket)
    ensures Placed(setup, SenderNext(setup, p, CommitPacket))
  {
    CommitLeaves(setup, p);
    LongerHolds(p.ring.memory.queue, p.packets, Slot(p.ring.memory, p.ring.producer));
  }

  lemma CommitKeepsInStep(setup: Setup, p: Pipe)
    requires Producing(setup, p) && Consuming(setup, p) && SenderEnabled(p, CommitPacket)
    ensures var n := SenderNext(setup, p, CommitPacket);
      && InStep(n.receiver.session, setup.config, n.packets, n.times, n.receiver.base)
      && Timely(n.receiver.mode, |n.ring.memory.queue|, n.times, n.clock)
  {
    CommitLeaves(setup, p);
    var packet := Slot(p.ring.memory, p.ring.producer);
    LongerInStep(p.receiver.session, setup.config, p.packets, p.times, p.receiver.base, packet, p.sender.mode.now);
  }

  lemma SenderKeepsConsuming(setup: Setup, p: Pipe, e: SenderEvent)
    requires Producing(setup, p) && Consuming(setup, p) && SenderEnabled(p, e)
    ensures Consuming(setup, SenderNext(setup, p, e))
  {
    if e.CommitPacket? {
      CommitKeepsPlaced(setup, p);
      CommitKeepsInStep(setup, p);
    } else {
      OthersLeave(setup, p, e);
    }
  }

  // ------------------------------------------------------------ the consumer program

  lemma ReceiverIsAllowed(setup: Setup, p: Pipe, e: ReceiverEvent)
    requires Invariant(p.ring) && Placed(setup, p) && ReceiverEnabled(p, e)
    ensures var a := ReceiverAction(p, e); a.Some? ==> ConsumerEnabled(p.ring.consumer, a.value)
  {
  }

  function ReceiverNext(setup: Setup, p: Pipe, e: ReceiverEvent): (n: Pipe)
    requires Invariant(p.ring) && Placed(setup, p) && ReceiverEnabled(p, e)
    ensures Invariant(n.ring)
  {
    ReceiverIsAllowed(setup, p, e);
    var a := ReceiverAction(p, e);
    if a.Some? then
      RingQueue.StepSafe(p.ring, RingQueue.Consume(a.value));
      ReceiverStep(setup, p, e)
    else
      RingQueue.StepSafe(p.ring, RingQueue.Attach);
      ReceiverStep(setup, p, e)
  }

  /** What the consumer leaves to the producer. */
  lemma ReceiverLeaves(setup: Setup, p: Pipe, e: ReceiverEvent)
    requires Invariant(p.ring) && Placed(setup, p) && ReceiverEnabled(p, e)
    ensures var n := ReceiverNext(setup, p, e);
      && n.ring.producer == p.ring.producer && n.ring.memory.data == p.ring.memory.data
      && n.ring.memory.capacity == p.ring.memory.capacity
      && n.sender == p.sender && n.clock == p.clock && n.packets == p.packets && n.times == p.times
      && n.receiver.session == SessionMoves(setup, p, e)
      && n.receiver.base == if e.Restart? then |p.packets| - |p.ring.memory.queue| else p.receiver.base
  {
  }

  lemma SenderUndisturbed(setup: Setup, m: Memory, n: Memory, p: Producer, s: Sender, times: seq<int64>, clock: int64)
    requires MemoryInvariant(m) && MemoryInvariant(n) && m.data == n.data && m.capacity == n.capacity
    requires SenderSafe(setup, m, p, s, times, clock)
    ensures SenderSafe(setup, n, p, s, times, clock)
  {
    if p.pending >= PREFIX {
      assert Slot(m, p) == Slot(n, p);
    }
  }

  lemma ReceiverKeepsProducing(setup: Setup, p: Pipe, e: ReceiverEvent)
    requires Producing(setup, p) && Placed(setup, p) && ReceiverEnabled(p, e)
    ensures Producing(setup, ReceiverNext(setup, p, e))
  {
    var n := ReceiverNext(setup, p, e);
    ReceiverLeaves(setup, p, e);
    SenderUndisturbed(setup, p.ring.memory, n.ring.memory, p.ring.producer, p.sender, p.times, p.clock);
  }

  /** The events of the consumer program that leave the ring alone. */
  predicate Private(e: ReceiverEvent) {
    !e.Construct? && !e.ReleaseFirst? && !e.Attempt? && !e.Restart?
  }

  function PrivatelyMoved(setup: Setup, p: Pipe, e: ReceiverEvent): Pipe
    requires Mapped(p.ring.memory) && ReceiverEnabled(p, e)
  {
    p.(receiver := Receiver(ReceiverMoves(setup, p, e, p.ring.consumer), SessionMoves(setup, p, e), p.receiver.base))
  }

  lemma PrivateStep(setup: Setup, p: Pipe, e: ReceiverEvent)
    requires Invariant(p.ring) && Placed(setup, p) && ReceiverEnabled(p, e) && Private(e)
    ensures ReceiverNext(setup, p, e) == PrivatelyMoved(setup, p, e)
  {
  }

  lemma ReleaseEffect(r: Ring)
    requires Invariant(r) && r.consumer.phase.Ready?
    ensures var n := RingQueue.Step(r, RingQueue.Consume(Release));
      && n.consumer.pending == 0 && n.consumer.phase.Ready?
      && n.memory.queue == if r.consumer.pending != 0 then r.memory.queue[1..] else r.memory.queue
  {
  }

  lemma ReleaseFirstSafe(setup: Setup, p: Pipe)
    requires Invariant(p.ring) && Placed(setup, p) && ReceiverEnabled(p, ReleaseFirst)
    ensures Placed(setup, ReceiverNext(setup, p, ReleaseFirst))
  {
    var n := ReceiverNext(setup, p, ReleaseFirst);
    ReleaseEffect(p.ring);
    QueueAfterRelease(p.ring.memory.queue, n.ring.memory.queue, p.packets);
  }

  lemma QueueAfterRelease(queue: seq<Record>, rest: seq<Record>, packets: seq<Record>)
    requires QueueHolds(queue, packets) && (rest == queue || (queue != [] && rest == queue[1..]))
    ensures QueueHolds(rest, packets)
  {
  }

  lemma AttemptSafe(setup: Setup, p: Pipe)
    requires Invariant(p.ring) && Placed(setup, p) && ReceiverEnabled(p, Attempt)
    ensures Placed(setup, ReceiverNext(setup, p, Attempt))
  {
    var n := ReceiverNext(setup, p, Attempt);
    assert n.ring.memory == p.ring.memory && !n.ring.consumer.corrupted;
    if p.ring.consumer.phase.LoadingHead? {
      RingQueue.PeekAnswers(p.ring.memory, p.ring.consumer);
    }
  }

  lemma ConstructEffect(r: Ring, a: ConsumerAction)
    requires Invariant(r) && ConsumerEnabled(r.consumer, a) && (a == TakeTail || a == TakeHead)
    ensures var n := RingQueue.Step(r, RingQueue.Consume(a));
      && n.memory == r.memory && n.consumer.pending == r.consumer.pending
      && (if a == TakeTail then n.consumer.phase.AttachingHead? else n.consumer.phase.Ready?)
  {
  }

  lemma ConstructSafe(setup: Setup, p: Pipe)
    requires Invariant(p.ring) && Placed(setup, p) && ReceiverEnabled(p, Construct)
    ensures Placed(setup, ReceiverNext(setup, p, Construct))
  {
    ConstructEffect(p.ring, ReceiverAction(p, Construct).value);
  }

  lemma RestartSafe(setup: Setup, p: Pipe, tracker: PacketValidator.Tracker)
    requires Invariant(p.ring) && Placed(setup, p)
    ensures Placed(setup, ReceiverNext(setup, p, Restart(tracker)))
  {
  }

  lemma LoadByteSafe(setup: Setup, p: Pipe)
    requires Invariant(p.ring) && Placed(setup, p) && ReceiverEnabled(p, LoadByte)
    ensures Placed(setup, PrivatelyMoved(setup, p, LoadByte))
  {
    FrontIsStored(p.ring.memory, PREFIX + |p.receiver.mode.copy|);
  }

  lemma LoopSafe(setup: Setup, p: Pipe, e: ReceiverEvent)
    requires Mapped(p.ring.memory) && Placed(setup, p) && ReceiverEnabled(p, e)
    requires e.LookAtPause? || e.Stop? || e.Report? || e.ReadClock? || e.Conclude?
    ensures Placed(setup, PrivatelyMoved(setup, p, e))
  {
  }

  lemma WaitingSafe(setup: Setup, p: Pipe, e: ReceiverEvent)
    requires Mapped(p.ring.memory) && !p.ring.consumer.corrupted && Placed(setup, p) && ReceiverEnabled(p, e)
    requires e.TryAgain? || e.NothingCame? || e.LoadState? || e.CheckAlive?
    ensures Placed(setup, PrivatelyMoved(setup, p, e))
  {
  }

  lemma PrivateSafe(setup: Setup, p: Pipe, e: ReceiverEvent)
    requires Invariant(p.ring) && Placed(setup, p) && ReceiverEnabled(p, e) && Private(e)
    ensures Placed(setup, PrivatelyMoved(setup, p, e))
  {
    match e
    case LoadByte => LoadByteSafe(setup, p);
    case TryAgain => WaitingSafe(setup, p, e);
    case NothingCame => WaitingSafe(setup, p, e);
    case LoadState => WaitingSafe(setup, p, e);
    case CheckAlive => WaitingSafe(setup, p, e);
    case _ => LoopSafe(setup, p, e);
  }

  lemma ReceiverKeepsPlaced(setup: Setup, p: Pipe, e: ReceiverEvent)
    requires Invariant(p.ring) && Placed(setup, p) && ReceiverEnabled(p, e)
    ensures Placed(setup, ReceiverNext(setup, p, e))
  {
    match e
    case Construct => ConstructSafe(setup, p);
    case ReleaseFirst => ReleaseFirstSafe(setup, p);
    case Attempt => AttemptSafe(setup, p);
    case Restart(tracker) => RestartSafe(setup, p, tracker);
    case _ =>
      PrivateStep(setup, p, e);
      PrivateSafe(setup, p, e);
  }

  /** All packets fill their slots. */
  lemma PacketSize(setup: Setup, k: nat, now: int64)
    requires setup.Sound()
    ensures |setup.source(k, now)| == setup.size
  {
    var slot := seq<byte>(setup.size, _ => 0);
    assert Assembles(slot, setup.stores(k, now), setup.source(k, now));
  }

  /** The record at hand is the next packet of the stream, and what is done with it is what the stream needs. */
  lemma ConcludeInStep(setup: Setup, p: Pipe)
    requires setup.Sound() && Safe(setup, p) && ReceiverEnabled(p, Conclude)
    ensures InStep(SessionMoves(setup, p, Conclude), setup.config, p.packets, p.times, p.receiver.base)
  {
    var s, next, base := p.receiver.session, |p.packets| - |p.ring.memory.queue|, p.receiver.base;
    var front := p.ring.memory.queue[0];
    assert front == p.packets[next] == setup.source(next, p.times[next]);
    PacketSize(setup, next, p.times[next]);
    assert front in p.ring.memory.queue;
    if p.receiver.mode.Peeked? {
      RingQueue.ViewIsFront(p.ring.memory, p.ring.consumer);
      DropInStep(s, setup.config, p.packets, p.times, base, next);
    } else {
      assert p.receiver.mode.copy == front;
      ProcessInStep(s, setup.config, setup.tolerance, setup.source, p.packets, p.times, base, next, p.receiver.mode.now);
    }
  }

  /** The clock is read before the first byte of the packet, and the packet had been made by then. */
  lemma ReceiverKeepsTimely(setup: Setup, p: Pipe, e: ReceiverEvent)
    requires Invariant(p.ring) && Placed(setup, p) && ReceiverEnabled(p, e)
    requires Timely(p.receiver.mode, |p.ring.memory.queue|, p.times, p.clock)
    requires |p.packets| == |p.times| && forall t :: t in p.times ==> t <= p.clock
    ensures var n := ReceiverNext(setup, p, e); Timely(n.receiver.mode, |n.ring.memory.queue|, n.times, n.clock)
  {
    if Private(e) {
      PrivateStep(setup, p, e);
      PrivateTimely(setup, p, e);
    }
  }

  lemma PrivateTimely(setup: Setup, p: Pipe, e: ReceiverEvent)
    requires Mapped(p.ring.memory) && Placed(setup, p) && ReceiverEnabled(p, e) && Private(e)
    requires Timely(p.receiver.mode, |p.ring.memory.queue|, p.times, p.clock)
    requires |p.packets| == |p.times| && forall t :: t in p.times ==> t <= p.clock
    ensures Timely(PrivatelyMoved(setup, p, e).receiver.mode, |p.ring.memory.queue|, p.times, p.clock)
  {
    PacketWasMade(p.ring.memory.queue, p.times, p.clock);
  }

  lemma PacketWasMade(queue: seq<Record>, times: seq<int64>, clock: int64)
    requires |queue| <= |times| && forall t :: t in times ==> t <= clock
    ensures queue != [] ==> times[|times| - |queue|] <= clock
  {
    if queue != [] {
      assert times[|times| - |queue|] in times;
    }
  }

  lemma ReceiverKeepsInStep(setup: Setup, p: Pipe, e: ReceiverEvent)
    requires setup.Sound() && Safe(setup, p) && ReceiverEnabled(p, e)
    ensures InStep(SessionMoves(setup, p, e), setup.config, p.packets, p.times,
                   if e.Restart? then |p.packets| - |p.ring.memory.queue| else p.receiver.base)
  {
    match e
    case Conclude => ConcludeInStep(setup, p);
    case Restart(tracker) =>
      BegunInStep(tracker, setup.config, p.packets, p.times, |p.packets| - |p.ring.memory.queue|);
    case LookAtPause(paused) =>
      SwitchInStep(p.receiver.session, setup.config, p.packets, p.times, p.receiver.base, paused);
    case Report => ReportInStep(p.receiver.session, setup.config, p.packets, p.times, p.receiver.base);
    case _ =>
  }

  lemma ReceiverKeepsConsuming(setup: Setup, p: Pipe, e: ReceiverEvent)
    requires setup.Sound() && Safe(setup, p) && ReceiverEnabled(p, e)
    ensures Consuming(setup, ReceiverNext(setup, p, e))
  {
    ReceiverLeaves(setup, p, e);
    ReceiverKeepsPlaced(setup, p, e);
    ReceiverKeepsTimely(setup, p, e);
    ReceiverKeepsInStep(setup, p, e);
  }
}
