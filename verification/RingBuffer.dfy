/** The ring's two end points as objects: each call, run without interruption, is a sequence of the protocol's steps. */
module RingBuffer {
  import opened Words
  import opened RingProtocol
  import opened RingSafety
  import opened RingQueue

  const RING_MAGIC: nat := 0x42524350
  const RING_VERSION: nat := 1

  datatype RingState = Initializing | Ready | ProducerFinished

  /** The control block, and the ring's history. */
  class RingControl {
    var magic: nat
    var version: nat
    var capacity: nat
    var state: RingState
    var producerPid: int
    var consumerPid: int
    var head: nat
    var tail: nat
    ghost var queue: seq<Record>
    ghost var consumed: nat

    ghost function Shared(data: array<byte>): Memory
      reads this, data
    {
      Memory(capacity, data[..], head, tail, queue, consumed)
    }

    /** initialize_ring_control: an empty ring that the peer's check accepts if its capacity is a power of two. */
    method Initialize(capacity: nat, producerPid: int)
      modifies this
      ensures magic == RING_MAGIC && version == RING_VERSION && state == RingState.Ready
      ensures this.capacity == capacity && this.producerPid == producerPid && consumerPid == 0
      ensures head == tail == consumed == 0 && queue == []
    {
      magic, version, this.capacity := RING_MAGIC, RING_VERSION, capacity;
      this.producerPid, consumerPid := producerPid, 0;
      head, tail, state := 0, 0, RingState.Ready;
      queue, consumed := [], 0;
    }

    /** ring_control_ready: what is accepted is a finished control block with a capacity the protocol can use. */
    method IsReady() returns (ready: bool)
      requires capacity < TWO_64
      ensures ready <==> state == RingState.Ready && magic == RING_MAGIC && version == RING_VERSION && IsCapacity(capacity)
    {
      CapacityTest(capacity);
      ready := state == RingState.Ready && magic == RING_MAGIC && version == RING_VERSION && capacity != 0
               && And(capacity, capacity - 1) == 0;
    }
  }

  /** A span of the mirrored mapping: virtual byte `start + j` is physical byte (start + j) % capacity. */
  datatype Span = Span(start: nat, length: nat) | Nothing

  /** The bytes of a span. */
  function Bytes(data: seq<byte>, span: Span): seq<byte>
    requires span.Span? && |data| > 0
  {
    seq<byte>(span.length, j requires 0 <= j < span.length => data[Physical(span.start + j, |data|)])
  }

  /** The span behind a length prefix is what both sides address from their counters. */
  lemma SpanBytes(data: seq<byte>, counter: nat, offset: nat, span: Span, bytes: seq<byte>)
    requires |data| > 0 && offset == Offset(counter, |data|) && span == Span(offset + PREFIX, |bytes|)
    requires forall j :: 0 <= j < |bytes| ==> bytes[j] == data[At(counter, PREFIX + j, |data|)]
    ensures Bytes(data, span) == bytes
  {
    forall j | 0 <= j < |bytes| ensures Bytes(data, span)[j] == bytes[j] {
      assert span.start + j == offset + (PREFIX + j);
    }
  }

  // ------------------------------------------------------------ producer

  class RingProducer {
    const control: RingControl
    const data: array<byte>
    const capacity: nat
    var head: nat
    var cachedTail: nat
    var pending: nat
    ghost var freed: nat

    ghost function State(): Producer
      reads this
    {
      Producer(head, cachedTail, pending, Idle, freed)
    }

    ghost predicate Valid()
      reads this, control, data
    {
      && capacity == control.capacity
      && MemoryInvariant(control.Shared(data)) && ProducerInvariant(control.Shared(data), State())
    }

    constructor (control: RingControl, data: array<byte>)
      requires MemoryInvariant(control.Shared(data))
      ensures this.control == control && this.data == data && pending == 0 && Valid()
    {
      this.control, this.data, capacity := control, data, control.capacity;
      head, cachedTail, pending := control.head, control.tail, 0;
      freed := control.consumed;
    }

    /** The largest size that fits an empty ring and the length prefix. */
    method MaxRecord() returns (size: nat)
      requires Valid()
      ensures size == MaxRecordSize(capacity)
      ensures PREFIX <= capacity ==> PREFIX + size <= capacity && size < TWO_32
                                     && (PREFIX + size == capacity || size == TWO_32 - 1)
    {
      var byCapacity := Sub64(capacity, PREFIX);
      size := if byCapacity < TWO_32 - 1 then byCapacity else TWO_32 - 1;
    }

    /** Room for one record behind the queue, or nothing exactly when it does not fit. */
    method TryReserve(bytes: nat) returns (span: Span)
      requires Valid()
      modifies this, data
      ensures Valid() && OnlyCommits(old(control.Shared(data)), control.Shared(data))
      ensures control.queue == old(control.queue) && head == old(head)
      ensures span.Span? <==> bytes <= MaxRecordSize(capacity) && |Stream(control.queue)| + PREFIX + bytes <= capacity
      ensures span.Span? ==> pending == PREFIX + bytes && span.length == bytes
                             && Bytes(data[..], span) == Slot(control.Shared(data), State())
      ensures span.Nothing? ==> pending == old(pending) && data[..] == old(data[..])
    {
      if bytes > MaxRecordSize(capacity) {
        return Nothing;
      }
      var needed := PREFIX + bytes;
      ghost var m, p := control.Shared(data), ReserveBegin(control.Shared(data), State(), bytes);
      ReserveBeginSafe(m, State(), bytes);
      FreeIsRoom(m, State());
      if Sub64(capacity, Sub64(head, cachedTail)) < needed {
        ReserveAnswers(m, p, bytes);
        LoadTailSafe(m, p);
        p := LoadTail(m, p);
        cachedTail, freed := control.tail, control.consumed;
        if Sub64(capacity, Sub64(head, cachedTail)) < needed {
          assert State() == p;
          return Nothing;
        }
      }
      span := StorePrefix(bytes, p);
    }

    /** The tail end of try_reserve: the length prefix is stored through the mirrored mapping. */
    method StorePrefix(bytes: nat, ghost start: Producer) returns (span: Span)
      requires MemoryInvariant(control.Shared(data)) && ProducerInvariant(control.Shared(data), start)
      requires capacity == control.capacity
      requires start == State().(phase := WritingPrefix(bytes, 0))
      modifies this`pending, data
      ensures Valid() && OnlyCommits(old(control.Shared(data)), control.Shared(data))
      ensures pending == PREFIX + bytes && span.Span? && span.length == bytes
      ensures Bytes(data[..], span) == Slot(control.Shared(data), State())
    {
      var offset := And(head, capacity - 1);
      ghost var p := start;
      for i := 0 to PREFIX
        invariant MemoryInvariant(control.Shared(data)) && ProducerInvariant(control.Shared(data), p)
        invariant p == if i < PREFIX then start.(phase := WritingPrefix(bytes, i))
                       else start.(phase := Idle, pending := PREFIX + bytes)
      {
        StoreNext(offset, bytes, i, p);
        p := PrefixByteStored(p);
      }
      pending := PREFIX + bytes;
      span := Span(offset + PREFIX, bytes);
      assert State() == p;
      SpanBytes(data[..], head, offset, span, Slot(control.Shared(data), p));
    }

    method StoreNext(offset: nat, bytes: nat, i: nat, ghost p: Producer)
      requires MemoryInvariant(control.Shared(data)) && ProducerInvariant(control.Shared(data), p)
      requires capacity == control.capacity && offset == Offset(head, capacity) && p.head == head
      requires p.phase == WritingPrefix(bytes, i)
      modifies data
      ensures MemoryInvariant(control.Shared(data)) && ProducerInvariant(control.Shared(data), PrefixByteStored(p))
    {
      StorePrefixByteSafe(control.Shared(data), p);
      StoreOne(offset, bytes, i, p);
    }

    /** One byte of the prefix, addressed from the offset computed beforehand. */
    method StoreOne(offset: nat, bytes: nat, i: nat, ghost p: Producer)
      requires Mapped(control.Shared(data)) && capacity == control.capacity && i < PREFIX
      requires offset == Offset(head, capacity) && p.head == head && p.phase == WritingPrefix(bytes, i)
      modifies data
      ensures control.Shared(data) == StorePrefixByte(old(control.Shared(data)), p)
    {
      data[Physical(offset + i, capacity)] := Le(bytes, PREFIX)[i];
    }

    /** Publishes the bytes of the reserved span as the newest record. */
    method Commit()
      requires Valid()
      modifies this, control
      ensures Valid() && OnlyCommits(old(control.Shared(data)), control.Shared(data)) && pending == 0
      ensures control.queue == old(control.queue)
              + (if old(pending) == 0 then [] else [old(Slot(control.Shared(data), State()))])
      ensures (control.magic, control.version, control.state, control.producerPid, control.consumerPid)
           == old((control.magic, control.version, control.state, control.producerPid, control.consumerPid))
    {
      if pending == 0 {
        return;
      }
      ghost var m, p := control.Shared(data), State();
      PublishSafe(m, p);
      head := Add64(head, pending);
      pending := 0;
      control.head := head;
      control.queue := control.queue + [Slot(m, p)];
      assert control.Shared(data) == Publish(m, p) && State() == Published(p);
    }

    method Used() returns (bytes: nat)
      requires Valid()
      ensures bytes == |Stream(control.queue)| <= capacity
    {
      bytes := Sub64(head, control.tail);
      Low64Subtracts(Sent(control.Shared(data)), control.consumed);
    }
  }

  // ------------------------------------------------------------ consumer

  /** The length prefix of the record at the tail. */
  function Loaded(m: Memory, tail: nat): (read: seq<byte>)
    requires Mapped(m)
    ensures |read| == PREFIX
  {
    seq<byte>(PREFIX, i requires 0 <= i < PREFIX => m.data[At(tail, i, m.capacity)])
  }

  /** Loading the prefix at once is loading it byte by byte. */
  lemma LoadedInSteps(m: Memory, c: Consumer, i: nat)
    requires MemoryInvariant(m) && i < PREFIX
    requires c.phase == ReadingPrefix(Loaded(m, c.tail)[..i]) && ConsumerInvariant(m, c)
    ensures ConsumerInvariant(m, Accepted(m, c, FromLe(Loaded(m, c.tail))))
    decreases PREFIX - i
  {
    LoadPrefixByteSafe(m, c);
    var read := Loaded(m, c.tail);
    assert read[..i] + [read[i]] == read[..i + 1] && read[..PREFIX] == read;
    if i + 1 < PREFIX {
      LoadedInSteps(m, LoadPrefixByte(m, c), i + 1);
    }
  }

  lemma LoadedIsFront(m: Memory, c: Consumer)
    requires MemoryInvariant(m) && ConsumerInvariant(m, c)
    requires c.phase == RingProtocol.Ready && c.pending == 0 && c.visible > 0
    ensures ConsumerInvariant(m, Accepted(m, c, FromLe(Loaded(m, c.tail))))
  {
    LoadedInSteps(m, c.(phase := ReadingPrefix([])), 0);
  }

  /** try_peek at one go, on whatever the memory holds. */
  function Peeked(m: Memory, c: Consumer): Consumer
    requires Mapped(m)
  {
    if c.corrupted || c.pending != 0 then c
    else
      var d := if c.cachedHead == c.tail then c.(cachedHead := m.head, visible := |m.queue|) else c;
      if d.cachedHead == d.tail then d else Accepted(m, d, FromLe(Loaded(m, d.tail)))
  }

  /** What it hands out. */
  function Handed(capacity: nat, c: Consumer): Span
    requires capacity > 0
  {
    if c.corrupted || c.pending < PREFIX then Nothing else Span(Offset(c.tail, capacity) + PREFIX, c.pending - PREFIX)
  }

  /** Even on a damaged ring what is handed out lies inside the doubled mapping, and a damaged ring stays given up. */
  lemma PeekedStaysLinked(m: Memory, c: Consumer)
    requires Mapped(m) && IsCapacity(m.capacity) && (c.pending != 0 ==> PREFIX <= c.pending <= m.capacity)
    ensures var d := Peeked(m, c); var span := Handed(m.capacity, d);
      && (d.pending != 0 ==> PREFIX <= d.pending <= m.capacity)
      && (c.corrupted ==> d == c) && (d.corrupted ==> span == Nothing)
      && (span.Span? ==> span.start + span.length <= 2 * m.capacity)
  {
    OffsetInside(c.tail, m.capacity);
  }

  /** On a sound ring it finds the oldest record exactly when there is one. */
  lemma PeekedIsSound(m: Memory, c: Consumer)
    requires MemoryInvariant(m) && ConsumerInvariant(m, c) && c.phase == RingProtocol.Ready
    ensures var d := Peeked(m, c); var span := Handed(m.capacity, d);
      && ConsumerInvariant(m, d) && (span.Span? <==> m.queue != [])
      && (span.Span? ==> d.pending == PREFIX + span.length && Bytes(m.data, span) == m.queue[0])
  {
    var d := Peeked(m, c);
    PeekedKeepsInvariant(m, c);
    if d.pending != 0 {
      ViewIsFront(m, d);
      SpanBytes(m.data, d.tail, Offset(d.tail, m.capacity), Handed(m.capacity, d), View(m, d));
    }
  }

  lemma PeekedKeepsInvariant(m: Memory, c: Consumer)
    requires MemoryInvariant(m) && ConsumerInvariant(m, c) && c.phase == RingProtocol.Ready
    ensures ConsumerInvariant(m, Peeked(m, c)) && (Peeked(m, c).pending != 0 <==> m.queue != [])
  {
    if c.pending == 0 {
      CountersTell(m, c.visible);
      var d := if c.cachedHead == c.tail then c.(cachedHead := m.head, visible := |m.queue|) else c;
      RefreshedIsSound(m, c, d);
      if d.cachedHead != d.tail {
        LoadedIsFront(m, d);
      }
    }
  }

  lemma AttachedIsSound(m: Memory)
    ensures MemoryInvariant(m) ==>
              ConsumerInvariant(m, Consumer(m.tail, m.head, 0, false, RingProtocol.Ready, |m.queue|))
  {
    assert m.queue[..|m.queue|] == m.queue;
  }

  lemma RefreshedIsSound(m: Memory, c: Consumer, d: Consumer)
    requires MemoryInvariant(m) && ConsumerInvariant(m, c) && c.phase == RingProtocol.Ready && c.pending == 0
    requires d == if c.cachedHead == c.tail then c.(cachedHead := m.head, visible := |m.queue|) else c
    ensures ConsumerInvariant(m, d) && (d.cachedHead == d.tail <==> m.queue == [])
    ensures d.cachedHead != d.tail ==> d.visible > 0
  {
    CountersTell(m, c.visible);
    CountersTell(m, d.visible);
    assert m.queue[..|m.queue|] == m.queue;
  }

  class RingConsumer {
    const control: RingControl
    const data: array<byte>
    const capacity: nat
    var tail: nat
    var cachedHead: nat
    var pending: nat
    var corrupted: bool
    ghost var visible: nat

    ghost function State(): Consumer
      reads this
    {
      Consumer(tail, cachedHead, pending, corrupted, RingProtocol.Ready, visible)
    }

    /** The object fits the memory it looks at, whatever that holds. */
    ghost predicate Linked()
      reads this, control, data
    {
      && capacity == control.capacity == data.Length && IsCapacity(capacity)
      && (pending != 0 ==> PREFIX <= pending <= capacity)
    }

    ghost predicate Valid()
      reads this, control, data
    {
      Linked() && MemoryInvariant(control.Shared(data)) && ConsumerInvariant(control.Shared(data), State())
    }

    /** Starts at the oldest unreleased record. */
    constructor (control: RingControl, data: array<byte>)
      requires IsCapacity(control.capacity) && control.capacity == data.Length
      ensures this.control == control && this.data == data && pending == 0 && !corrupted
      ensures tail == control.tail && cachedHead == control.head && Linked()
      ensures MemoryInvariant(control.Shared(data)) ==> Valid()
    {
      this.control, this.data, capacity := control, data, control.capacity;
      tail, cachedHead, pending, corrupted := control.tail, control.head, 0, false;
      visible := |control.queue|;
      new;
      AttachedIsSound(control.Shared(data));
    }

    /**
     * Gives the record at the tail, or nothing if the ring is empty or turns out to be damaged. On a sound ring: the
     * oldest record, left in place, or nothing exactly when there is none.
     */
    method TryPeek() returns (span: Span)
      requires Linked()
      modifies this
      ensures Linked() && State() == Peeked(control.Shared(data), old(State()))
      ensures span == Handed(capacity, State())
      ensures old(Valid()) ==> Valid() && (span.Span? <==> control.queue != [])
      ensures old(Valid()) && span.Span? ==> pending == PREFIX + span.length && Bytes(data[..], span) == control.queue[0]
    {
      ghost var m, c, sound := control.Shared(data), State(), Valid();
      PeekedStaysLinked(m, c);
      if sound {
        PeekedIsSound(m, c);
      }
      span := Peek();
    }

    /** try_peek itself. */
    method Peek() returns (span: Span)
      requires Linked()
      modifies this
      ensures State() == Peeked(control.Shared(data), old(State())) && span == Handed(capacity, State())
    {
      if corrupted {
        return Nothing;
      }
      var offset := And(tail, capacity - 1);
      if pending != 0 {
        return Span(offset + PREFIX, pending - PREFIX);
      }
      if cachedHead == tail {
        cachedHead, visible := control.head, |control.queue|;
        if cachedHead == tail {
          return Nothing;
        }
      }
      var read := LoadPrefix(offset);
      span := Check(offset, FromLe(read));
    }

    method LoadPrefix(offset: nat) returns (read: seq<byte>)
      requires Linked() && offset == And(tail, capacity - 1)
      ensures read == Loaded(control.Shared(data), tail)
    {
      read := [];
      for i := 0 to PREFIX
        invariant |read| == i && forall k :: 0 <= k < i ==> read[k] == Loaded(control.Shared(data), tail)[k]
      {
        read := read + [data[Physical(offset + i, capacity)]];
      }
    }

    /** The end of try_peek, whatever the loaded length. */
    method Check(offset: nat, length: nat) returns (span: Span)
      requires capacity == control.capacity && !corrupted
      modifies this`pending, this`corrupted
      ensures State() == Accepted(control.Shared(data), old(State()), length)
      ensures span == if corrupted then Nothing else Span(offset + PREFIX, length)
    {
      var record := PREFIX + length;
      if record > Sub64(cachedHead, tail) || record > capacity {
        corrupted := true;
        return Nothing;
      }
      pending := record;
      span := Span(offset + PREFIX, length);
    }

    /** Gives the peeked record's space back; on a sound ring that removes the oldest record. */
    method Release()
      requires Linked()
      modifies this, control
      ensures Linked() && pending == 0 && corrupted == old(corrupted) && cachedHead == old(cachedHead)
      ensures old(pending) == 0 ==> tail == old(tail) && control.tail == old(control.tail)
      ensures old(pending) != 0 ==> tail == control.tail == Add64(old(tail), old(pending))
      ensures old(Valid()) ==>
        && Valid() && OnlyReleases(old(control.Shared(data)), control.Shared(data))
        && control.queue == if old(pending) == 0 then old(control.queue) else old(control.queue)[1..]
      ensures (control.magic, control.version, control.capacity, control.state, control.producerPid, control.consumerPid)
           == old((control.magic, control.version, control.capacity, control.state,
                   control.producerPid, control.consumerPid))
      ensures control.head == old(control.head)
    {
      if pending != 0 {
        HandOver();
      }
    }

    /** The store of the tail. */
    method HandOver()
      requires Linked() && pending != 0
      modifies this`tail, this`pending, this`visible, control`tail, control`queue, control`consumed
      ensures capacity == control.capacity && pending == 0 && tail == control.tail == Add64(old(tail), old(pending))
      ensures old(Valid()) ==>
        var m, c := old(control.Shared(data)), old(State());
        m.queue != [] && c.visible > 0 && control.Shared(data) == HandBack(m, c) && State() == HandedBack(c)
      ensures old(Valid()) ==> Valid() && OnlyReleases(old(control.Shared(data)), control.Shared(data))
    {
      ghost var m, c, sound := control.Shared(data), State(), Valid();
      if sound {
        HandBackSafe(m, c);
        control.queue, visible := control.queue[1..], visible - 1;
      }
      control.consumed := control.consumed + pending;
      tail := Add64(tail, pending);
      pending := 0;
      control.tail := tail;
    }

    method Used() returns (bytes: nat)
      requires Valid()
      ensures bytes == |Stream(control.queue)| <= capacity
    {
      bytes := Sub64(control.head, tail);
      Low64Subtracts(Sent(control.Shared(data)), control.consumed);
    }
  }
}
