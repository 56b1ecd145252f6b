/** The ring is a queue of records: what the two sides get to see, over any run and any interleaving. */
module RingQueue {
  import opened Words
  import opened RingProtocol
  import opened RingSafety

  // ------------------------------------------------------------ the queue in the shared bytes

  datatype Parsed = Records(records: seq<Record>) | Malformed

  /** Reads a stretch of bytes as length-prefixed records. */
  function Parse(bytes: seq<byte>): Parsed
    decreases |bytes|
  {
    if bytes == [] then Records([])
    else if |bytes| < PREFIX then Malformed
    else
      var end := PREFIX + FromLe(bytes[..PREFIX]);
      if |bytes| < end then Malformed
      else
        match Parse(bytes[end..])
        case Malformed => Malformed
        case Records(rest) => Records([bytes[PREFIX..end]] + rest)
  }

  lemma {:induction false} ParseStream(queue: seq<Record>)
    requires forall record :: record in queue ==> |record| < TWO_32
    ensures Parse(Stream(queue)) == Records(queue)
  {
    if queue != [] {
      var first, rest, bytes := queue[0], queue[1..], Stream(queue);
      assert first in queue;
      PrefixDecodes(|first|);
      assert bytes[..PREFIX] == Le(|first|, PREFIX);
      assert bytes[PREFIX..PREFIX + |first|] == first && bytes[PREFIX + |first|..] == Stream(rest);
      ParseStream(rest);
      assert queue == [first] + rest;
    }
  }

  /** The bytes between the two shared counters, as both sides address them. */
  function Between(m: Memory): seq<byte>
    requires Mapped(m)
  {
    seq<byte>(Sub64(m.head, m.tail), i requires 0 <= i < Sub64(m.head, m.tail) => m.data[At(m.tail, i, m.capacity)])
  }

  /** The shared memory alone determines the queue. */
  lemma MemoryHoldsQueue(m: Memory)
    requires MemoryInvariant(m)
    ensures Between(m) == Stream(m.queue) && Parse(Between(m)) == Records(m.queue)
  {
    var lo, hi := m.consumed, Sent(m);
    Low64Subtracts(hi, lo);
    forall i | 0 <= i < |Stream(m.queue)| ensures m.data[At(m.tail, i, m.capacity)] == Stream(m.queue)[i] {
      Addressed(m.data, m.tail, lo, hi, i);
    }
    assert Between(m) == Stream(m.queue);
    ParseStream(m.queue);
  }

  // ------------------------------------------------------------ what the calls answer

  /** A reservation is refused exactly when the record is too large or, at the reload, would not fit behind the queue. */
  lemma ReserveAnswers(m: Memory, p: Producer, size: nat)
    requires MemoryInvariant(m) && ProducerInvariant(m, p)
    ensures p.phase.Idle? ==> (ReserveBegin(m, p, size) == p <==> size > MaxRecordSize(m.capacity))
    ensures p.phase == LoadingTail(size) ==>
      (LoadTail(m, p).phase.Idle? <==> |Stream(m.queue)| + PREFIX + size > m.capacity)
  {
    if p.phase == LoadingTail(size) {
      FreeIsRoom(m, p.(cachedTail := m.tail, freed := m.consumed));
    }
  }

  /** A record that fits the empty ring is the largest that is ever accepted. */
  lemma LargestRecord(capacity: nat, size: nat)
    requires IsCapacity(capacity) && PREFIX <= capacity
    ensures size <= MaxRecordSize(capacity) <==> PREFIX + size <= capacity && size < TWO_32
  {
    CapacityBound(capacity);
  }

  /** The consumer is told that the ring is empty exactly when, at the reload, the queue is. */
  lemma PeekAnswers(m: Memory, c: Consumer)
    requires MemoryInvariant(m) && ConsumerInvariant(m, c) && c.phase.LoadingHead?
    ensures LoadHead(m, c).phase.Ready? <==> m.queue == []
  {
    CountersTell(m, |m.queue|);
    assert m.queue[..|m.queue|] == m.queue;
  }

  /** The record the consumer is looking at. */
  function View(m: Memory, c: Consumer): (record: Record)
    requires Mapped(m) && c.pending >= PREFIX
  {
    seq<byte>(c.pending - PREFIX, j requires 0 <= j < c.pending - PREFIX => Observed(m, c, j))
  }

  /** Whenever a record is peeked, whatever the producer does meanwhile, it is the front of the queue. */
  lemma ViewIsFront(m: Memory, c: Consumer)
    requires MemoryInvariant(m) && ConsumerInvariant(m, c) && c.pending != 0
    ensures m.queue != [] && View(m, c) == m.queue[0]
  {
    forall j | 0 <= j < c.pending - PREFIX ensures Observed(m, c, j) == m.queue[0][j] {
      FrontIsStored(m, PREFIX + j);
    }
  }

  /** Both sides measure the same queue. */
  lemma UsedIsQueue(m: Memory, p: Producer, c: Consumer)
    requires MemoryInvariant(m) && ProducerInvariant(m, p) && ConsumerInvariant(m, c) && c.phase.Ready?
    ensures Sub64(p.head, m.tail) == Sub64(m.head, c.tail) == |Stream(m.queue)| <= m.capacity
  {
    Low64Subtracts(Sent(m), m.consumed);
  }

  /** Whatever a damaged ring holds: an accepted record ends before the head seen and inside the doubled mapping. */
  lemma AcceptedStaysInside(m: Memory, c: Consumer, length: nat)
    requires IsCapacity(m.capacity) && !c.corrupted
    ensures var d := Accepted(m, c, length);
      !d.corrupted ==> d.pending <= Sub64(c.cachedHead, c.tail)
                       && Offset(d.tail, m.capacity) + d.pending <= 2 * m.capacity
  {
    OffsetInside(c.tail, m.capacity);
  }

  lemma OffsetInside(counter: nat, capacity: nat)
    requires IsCapacity(capacity)
    ensures Offset(counter, capacity) < capacity
  {
    var k: nat :| k <= 63 && capacity == Pow2(k);
    AndMask(counter, k);
  }

  // ------------------------------------------------------------ physical disjointness

  /** The bytes the producer is entitled to store: the prefix and record it has reserved or is reserving. */
  function Claimed(p: Producer): nat {
    if p.phase.WritingPrefix? then PREFIX + p.phase.size else p.pending
  }

  /** No claimed byte is a byte of a queued record. */
  lemma ClaimIsDisjoint(m: Memory, p: Producer, i: nat, j: nat)
    requires MemoryInvariant(m) && ProducerInvariant(m, p) && i < Claimed(p) && j < |Stream(m.queue)|
    ensures At(p.head, i, m.capacity) != At(m.tail, j, m.capacity)
  {
    AtIsPosition(Sent(m), i, m.capacity);
    AtIsPosition(m.consumed, j, m.capacity);
    PositionsApart(m.consumed + j, Sent(m) + i, m.capacity);
  }

  /** Every claimed span lies inside the doubled mapping, also where it straddles the end of the ring. */
  lemma ClaimInside(m: Memory, p: Producer)
    requires MemoryInvariant(m) && ProducerInvariant(m, p)
    ensures Offset(p.head, m.capacity) + Claimed(p) <= 2 * m.capacity
  {
    AtIsPosition(Sent(m), 0, m.capacity);
  }

  /** So does everything queued, and with it the record the consumer is reading. */
  lemma QueueInside(m: Memory)
    requires MemoryInvariant(m)
    ensures Offset(m.tail, m.capacity) + |Stream(m.queue)| <= 2 * m.capacity
  {
    AtIsPosition(m.consumed, 0, m.capacity);
  }

  // ------------------------------------------------------------ runs

  /** One step of either side, or the arrival of a new consumer in place of one that left or died anywhere. */
  datatype Event = Produce(p: ProducerAction) | Consume(c: ConsumerAction) | Attach

  predicate Enabled(r: Ring, e: Event) {
    match e
    case Produce(a) => ProducerEnabled(r.producer, a)
    case Consume(a) => ConsumerEnabled(r.consumer, a)
    case Attach => true
  }

  function Step(r: Ring, e: Event): Ring
    requires Invariant(r) && Enabled(r, e)
  {
    match e
    case Produce(a) => var (m, p) := ProducerStep(r.memory, r.producer, a); Ring(m, p, r.consumer)
    case Consume(a) => var (m, c) := ConsumerStep(r.memory, r.consumer, a); Ring(m, r.producer, c)
    case Attach => r.(consumer := NEW_CONSUMER)
  }

  /** Every step keeps the invariant, whoever takes it. */
  lemma StepSafe(r: Ring, e: Event)
    requires Invariant(r) && Enabled(r, e)
    ensures Invariant(Step(r, e))
  {
    var s := Step(r, e);
    match e
    case Produce(a) =>
      ProducerStepSafe(r.memory, r.producer, a);
      ConsumerUndisturbed(r.memory, s.memory, r.consumer);
    case Consume(a) =>
      ConsumerStepSafe(r.memory, r.consumer, a);
      ProducerUndisturbed(r.memory, s.memory, r.producer);
    case Attach =>
  }

  /** The records a step enqueues: what the memory holds in the slot at a commit. */
  function Enqueues(r: Ring, e: Event): seq<Record>
    requires Invariant(r)
  {
    if e == Produce(Commit) && r.producer.pending != 0 && r.producer.phase.Idle? then [Slot(r.memory, r.producer)] else []
  }

  /** The records a step dequeues: what the consumer reads up to the release. */
  function Dequeues(r: Ring, e: Event): seq<Record>
    requires Invariant(r)
  {
    if e == Consume(Release) && r.consumer.pending != 0 then [View(r.memory, r.consumer)] else []
  }

  /** Each step is an enqueue, a dequeue, or invisible. */
  lemma StepRefinesQueue(r: Ring, e: Event)
    requires Invariant(r) && Enabled(r, e)
    ensures r.memory.queue + Enqueues(r, e) == Dequeues(r, e) + Step(r, e).memory.queue
  {
    if e == Consume(Release) && r.consumer.pending != 0 {
      ViewIsFront(r.memory, r.consumer);
    }
  }

  predicate Possible(r: Ring, events: seq<Event>)
    requires Invariant(r)
    decreases |events|
  {
    events != [] ==> Enabled(r, events[0]) && (StepSafe(r, events[0]); Possible(Step(r, events[0]), events[1..]))
  }

  /** The ring after a run, the records enqueued and the records dequeued by it. */
  function Execute(r: Ring, events: seq<Event>): (result: (seq<Record>, seq<Record>, Ring))
    requires Invariant(r) && Possible(r, events)
    ensures Invariant(result.2)
    decreases |events|
  {
    if events == [] then ([], [], r)
    else
      StepSafe(r, events[0]);
      var (sent, received, end) := Execute(Step(r, events[0]), events[1..]);
      (Enqueues(r, events[0]) + sent, Dequeues(r, events[0]) + received, end)
  }

  /** Records come out exactly as and in the order in which they went in; what is missing is still queued. */
  lemma {:induction false} RunIsFifo(r: Ring, events: seq<Event>)
    requires Invariant(r) && Possible(r, events)
    ensures var (sent, received, end) := Execute(r, events);
      Invariant(end) && r.memory.queue + sent == received + end.memory.queue
    decreases |events|
  {
    if events != [] {
      var e := events[0];
      StepSafe(r, e);
      StepRefinesQueue(r, e);
      var s := Step(r, e);
      RunIsFifo(s, events[1..]);
      var (sent, received, end) := Execute(s, events[1..]);
      QueueLaw(r.memory.queue, Enqueues(r, e), sent, Dequeues(r, e), received, s.memory.queue, end.memory.queue);
    }
  }

  lemma QueueLaw(q: seq<Record>, e: seq<Record>, sent: seq<Record>, d: seq<Record>, received: seq<Record>,
                 mid: seq<Record>, end: seq<Record>)
    requires q + e == d + mid && mid + sent == received + end
    ensures q + (e + sent) == (d + received) + end
  {
    assert q + (e + sent) == (d + mid) + sent;
    assert d + (mid + sent) == d + (received + end);
    assert (d + mid) + sent == d + (mid + sent);
  }

  /** A new ring over zeroed or leftover bytes of any capacity that ring_control_ready accepts. */
  function NewRing(data: seq<byte>): (r: Ring)
    requires IsPowerOfTwo(|data|) && |data| < TWO_64
    ensures Invariant(r)
  {
    CapacityTest(|data|);
    CreatedSafe(data);
    Ring(Created(data), NEW_PRODUCER, NEW_CONSUMER)
  }

  /** From an empty ring on, any interleaving: the received records are a prefix of the sent ones. */
  lemma ReceivedIsPrefix(r: Ring, events: seq<Event>)
    requires Invariant(r) && r.memory.queue == [] && Possible(r, events)
    ensures var (sent, received, end) := Execute(r, events);
      received <= sent && Parse(Between(end.memory)) == Records(sent[|received|..]) && !end.consumer.corrupted
  {
    RunIsFifo(r, events);
    var (sent, received, end) := Execute(r, events);
    EmptyStart(r.memory.queue, sent, received, end.memory.queue);
    MemoryHoldsQueue(end.memory);
  }

  lemma EmptyStart(queue: seq<Record>, sent: seq<Record>, received: seq<Record>, left: seq<Record>)
    requires queue == [] && queue + sent == received + left
    ensures received <= sent && sent[|received|..] == left
  {
    assert queue + sent == sent;
  }

  lemma NewRingIsFifo(data: seq<byte>, events: seq<Event>)
    requires IsPowerOfTwo(|data|) && |data| < TWO_64 && Possible(NewRing(data), events)
    ensures Execute(NewRing(data), events).1 <= Execute(NewRing(data), events).0
  {
    ReceivedIsPrefix(NewRing(data), events);
  }
}
