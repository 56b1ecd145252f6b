/** What every step of the ring protocol keeps, from any reachable state and under any interleaving. */
module RingSafety {
  import opened Words
  import opened RingProtocol

  // ------------------------------------------------------------ counters

  /** The free space computed from wrapped counters is the true one: the subtractions never underflow. */
  lemma FreeIsRoom(m: Memory, p: Producer)
    requires MemoryInvariant(m) && p.freed <= m.consumed && Room(m, p) >= 0
    requires p.head == m.head && p.cachedTail == Low64(p.freed)
    ensures Free(m.capacity, p.head, p.cachedTail) == Room(m, p) <= m.capacity
  {
    FreeIsTrue(m.capacity, Sent(m), p.freed);
  }

  lemma FreeIsTrue(capacity: nat, head: nat, tail: nat)
    requires tail <= head <= tail + capacity && capacity <= TWO_63
    ensures Free(capacity, Low64(head), Low64(tail)) == capacity - (head - tail)
  {
    Low64Subtracts(head, tail);
    Low64Subtracts(capacity, head - tail);
  }

  /** What the consumer sees between its counters is the true distance, and zero only when nothing is there. */
  lemma CountersTell(m: Memory, k: nat)
    requires MemoryInvariant(m) && k <= |m.queue|
    ensures var covered := |Stream(m.queue[..k])|; var h := Low64(m.consumed + covered);
      Sub64(h, m.tail) == covered <= m.capacity && (h == m.tail <==> k == 0)
  {
    StreamSplits(m.queue, k);
    var covered := |Stream(m.queue[..k])|;
    Low64Subtracts(m.consumed + covered, m.consumed);
  }

  lemma {:induction false} StreamSplits(queue: seq<Record>, k: nat)
    requires k <= |queue|
    ensures Stream(queue) == Stream(queue[..k]) + Stream(queue[k..])
  {
    if k > 0 {
      StreamSplits(queue[1..], k - 1);
      assert queue[..k][1..] == queue[1..][..k - 1] && queue[1..][k - 1..] == queue[k..];
    }
  }

  // ------------------------------------------------------------ memory

  /** The memory after byte q of the infinite stream is stored. */
  function Stored(data: seq<byte>, q: nat, b: byte): (r: seq<byte>)
    requires |data| > 0
    ensures |r| == |data|
  {
    seq<byte>(|data|, i requires 0 <= i < |data| => if i == q % |data| then b else data[i])
  }

  /** A store outside a window, less than a capacity away from all of it, leaves it alone. */
  lemma StoreOutside(data: seq<byte>, lo: nat, hi: nat, q: nat, b: byte)
    requires |data| > 0 && lo <= hi
    requires hi <= q < lo + |data| || q < lo <= hi <= q + |data|
    ensures Window(Stored(data, q, b), lo, hi) == Window(data, lo, hi)
  {
    forall i | 0 <= i < hi - lo
      ensures Window(Stored(data, q, b), lo, hi)[i] == Window(data, lo, hi)[i]
    {
      if lo + i < q { PositionsApart(lo + i, q, |data|); } else { PositionsApart(q, lo + i, |data|); }
    }
  }

  lemma StoreInside(data: seq<byte>, lo: nat, hi: nat, q: nat, b: byte)
    requires |data| > 0 && lo <= q < hi <= lo + |data|
    ensures Window(Stored(data, q, b), lo, hi) == Window(data, lo, hi)[q - lo := b]
  {
    var after := Stored(data, q, b);
    WindowSplit(data, lo, q, hi);
    WindowSplit(after, lo, q, hi);
    StoreOutside(data, lo, q, q, b);
    WindowSplit(data, q, q + 1, hi);
    WindowSplit(after, q, q + 1, hi);
    StoreOutside(data, q + 1, hi, q, b);
  }

  lemma WindowSplit(data: seq<byte>, lo: nat, mid: nat, hi: nat)
    requires |data| > 0 && lo <= mid <= hi
    ensures Window(data, lo, hi) == Window(data, lo, mid) + Window(data, mid, hi)
  {
  }

  /** Addressing by a wrapped counter finds the byte at the true position. */
  lemma Addressed(data: seq<byte>, counter: nat, lo: nat, hi: nat, i: nat)
    requires IsCapacity(|data|) && counter == Low64(lo) && i < hi - lo
    ensures 0 <= At(counter, i, |data|) < |data|
    ensures data[At(counter, i, |data|)] == Window(data, lo, hi)[i]
  {
    AtIsPosition(lo, i, |data|);
  }

  lemma AddressedStore(data: seq<byte>, counter: nat, lo: nat, i: nat, q: nat, b: byte)
    requires IsCapacity(|data|) && counter == Low64(lo) && q == lo + i
    ensures 0 <= At(counter, i, |data|) < |data|
    ensures data[At(counter, i, |data|) := b] == Stored(data, q, b)
  {
    AtIsPosition(lo, i, |data|);
  }

  /** Every byte of the record the consumer is at is in memory where the consumer looks for it. */
  lemma FrontIsStored(m: Memory, i: nat)
    requires MemoryInvariant(m) && m.queue != [] && i < PREFIX + |m.queue[0]|
    ensures 0 <= At(m.tail, i, m.capacity) < |m.data|
    ensures m.data[At(m.tail, i, m.capacity)] == Frame(m.queue[0])[i]
  {
    Addressed(m.data, m.tail, m.consumed, Sent(m), i);
  }

  /** The span handed to the caller is the stream's next stretch behind the length prefix. */
  lemma SlotIsWindow(m: Memory, p: Producer)
    requires Mapped(m) && IsCapacity(m.capacity) && p.head == Low64(Sent(m)) && p.pending >= PREFIX
    ensures Slot(m, p) == Window(m.data, Sent(m) + PREFIX, Sent(m) + p.pending)
  {
    var lo, hi := Sent(m), Sent(m) + p.pending;
    WindowSplit(m.data, lo, lo + PREFIX, hi);
    forall i | 0 <= i < |Slot(m, p)|
      ensures Slot(m, p)[i] == Window(m.data, lo + PREFIX, hi)[i]
    {
      Addressed(m.data, p.head, lo, hi, PREFIX + i);
    }
  }

  // ------------------------------------------------------------ what the sides may rely on

  /** All a consumer ever does to the memory is to release records. */
  predicate OnlyReleases(m: Memory, n: Memory) {
    n == m.(tail := n.tail, queue := n.queue, consumed := n.consumed) && m.consumed <= n.consumed && Sent(m) == Sent(n)
  }

  lemma ProducerUndisturbed(m: Memory, n: Memory, p: Producer)
    requires MemoryInvariant(m) && MemoryInvariant(n) && OnlyReleases(m, n) && ProducerInvariant(m, p)
    ensures ProducerInvariant(n, p)
  {
  }

  /** All a producer ever does to the memory is to store into free space and to commit records. */
  predicate OnlyCommits(m: Memory, n: Memory) {
    n == m.(data := n.data, head := n.head, queue := n.queue) && m.queue <= n.queue
  }

  lemma ConsumerUndisturbed(m: Memory, n: Memory, c: Consumer)
    requires MemoryInvariant(m) && MemoryInvariant(n) && OnlyCommits(m, n) && ConsumerInvariant(m, c)
    ensures ConsumerInvariant(n, c)
  {
    assert m.queue[..c.visible] == n.queue[..c.visible];
  }

  // ------------------------------------------------------------ the producer's stores

  /** A store into the room behind everything published changes no published unreleased byte. */
  lemma StoreKeepsMemory(m: Memory, p: Producer, i: nat, q: nat, b: byte)
    requires MemoryInvariant(m) && p.freed <= m.consumed && p.head == m.head && i < Room(m, p) && q == Sent(m) + i
    ensures 0 <= At(p.head, i, m.capacity) < |m.data|
    ensures m.data[At(p.head, i, m.capacity) := b] == Stored(m.data, q, b)
    ensures MemoryInvariant(m.(data := Stored(m.data, q, b)))
    ensures q < Sent(m) + m.capacity
  {
    AddressedStore(m.data, p.head, Sent(m), i, q, b);
    StoreOutside(m.data, m.consumed, Sent(m), q, b);
  }

  lemma StorePrefixByteSafe(m: Memory, p: Producer)
    requires MemoryInvariant(m) && ProducerInvariant(m, p) && p.phase.WritingPrefix?
    ensures MemoryInvariant(StorePrefixByte(m, p)) && OnlyCommits(m, StorePrefixByte(m, p))
    ensures ProducerInvariant(StorePrefixByte(m, p), PrefixByteStored(p))
  {
    var n, h := StorePrefixByte(m, p), Sent(m);
    var size, at := p.phase.size, p.phase.at;
    var b, q := Le(size, PREFIX)[at], h + at;
    StoreKeepsMemory(m, p, at, q, b);
    PrefixGrows(m.data, h, at, q, b, Le(size, PREFIX));
    assert PrefixStored(n, size, at + 1);
  }

  lemma PrefixGrows(data: seq<byte>, h: nat, at: nat, q: nat, b: byte, prefix: seq<byte>)
    requires at < |prefix| && b == prefix[at] && q == h + at < h + |data|
    requires Window(data, h, h + at) == prefix[..at]
    ensures Window(Stored(data, q, b), h, h + (at + 1)) == prefix[..at + 1]
  {
    StoreOutside(data, h, h + at, q, b);
    WindowSplit(Stored(data, q, b), h, h + at, h + (at + 1));
    assert Window(Stored(data, q, b), q, q + 1) == [b];
    assert prefix[..at + 1] == prefix[..at] + [b];
  }

  lemma StoreByteSafe(m: Memory, p: Producer, j: nat, b: byte)
    requires MemoryInvariant(m) && ProducerInvariant(m, p) && ProducerEnabled(p, Write(j, b))
    ensures MemoryInvariant(StoreByte(m, p, j, b)) && OnlyCommits(m, StoreByte(m, p, j, b))
    ensures ProducerInvariant(StoreByte(m, p, j, b), p)
  {
    var n, h, i := StoreByte(m, p, j, b), Sent(m), PREFIX + j;
    var q := h + i;
    StoreKeepsMemory(m, p, i, q, b);
    StoreOutside(m.data, h, h + PREFIX, q, b);
    assert Reserved(n, p);
  }

  /** The caller's stores fill the slot byte by byte. */
  lemma StoreByteFills(m: Memory, p: Producer, j: nat, b: byte)
    requires MemoryInvariant(m) && ProducerInvariant(m, p) && ProducerEnabled(p, Write(j, b))
    ensures Mapped(StoreByte(m, p, j, b)) && Slot(StoreByte(m, p, j, b), p) == Slot(m, p)[j := b]
  {
    var h, i := Sent(m), PREFIX + j;
    var q := h + i;
    AddressedStore(m.data, p.head, h, i, q, b);
    SlotAfterStore(m, StoreByte(m, p, j, b), p, h + PREFIX, j, q, b);
  }

  lemma SlotAfterStore(m: Memory, n: Memory, p: Producer, lo: nat, j: nat, q: nat, b: byte)
    requires Mapped(m) && IsCapacity(m.capacity) && p.head == Low64(Sent(m)) && PREFIX <= p.pending <= m.capacity
    requires lo == Sent(m) + PREFIX && q == lo + j && j < p.pending - PREFIX
    requires n == m.(data := Stored(m.data, q, b))
    ensures Slot(n, p) == Slot(m, p)[j := b]
  {
    SlotIsWindow(m, p);
    SlotIsWindow(n, p);
    StoreInside(m.data, lo, lo + (p.pending - PREFIX), q, b);
  }

  // ------------------------------------------------------------ the producer's commit

  lemma PublishSafe(m: Memory, p: Producer)
    requires MemoryInvariant(m) && ProducerInvariant(m, p) && p.phase.Idle? && p.pending != 0
    ensures MemoryInvariant(Publish(m, p)) && OnlyCommits(m, Publish(m, p))
    ensures ProducerInvariant(Publish(m, p), Published(p))
  {
    var n, record, lo, h, hi := Publish(m, p), Slot(m, p), m.consumed, Sent(m), Sent(m) + p.pending;
    StreamAppend(m.queue, record);
    assert Sent(n) == hi;
    Low64Adds(h, p.pending);
    SlotIsWindow(m, p);
    assert Le(|record|, PREFIX)[..PREFIX] == Le(|record|, PREFIX);
    WindowExtends(m.data, lo, h, h + PREFIX, hi, Stream(m.queue), Le(|record|, PREFIX), record);
    assert MemoryInvariant(n);
  }

  lemma WindowExtends(data: seq<byte>, lo: nat, h: nat, mid: nat, hi: nat,
                      stream: seq<byte>, prefix: seq<byte>, record: seq<byte>)
    requires |data| > 0 && lo <= h <= mid <= hi
    requires Window(data, lo, h) == stream && Window(data, h, mid) == prefix && Window(data, mid, hi) == record
    ensures Window(data, lo, hi) == stream + (prefix + record)
  {
    WindowSplit(data, lo, h, hi);
    WindowSplit(data, h, mid, hi);
  }

  lemma StreamAppend(queue: seq<Record>, record: Record)
    ensures Stream(queue + [record]) == Stream(queue) + Frame(record)
  {
    StreamSplits(queue + [record], |queue|);
    assert (queue + [record])[..|queue|] == queue && (queue + [record])[|queue|..] == [record];
    assert Stream([record]) == Frame(record) + Stream([]);
  }

  // ------------------------------------------------------------ reservations

  lemma ReserveBeginSafe(m: Memory, p: Producer, size: nat)
    requires MemoryInvariant(m) && ProducerInvariant(m, p) && p.phase.Idle?
    ensures ProducerInvariant(m, ReserveBegin(m, p, size))
  {
    FreeIsRoom(m, p);
    assert Window(m.data, Sent(m), Sent(m)) == Le(size, PREFIX)[..0];
  }

  lemma LoadTailSafe(m: Memory, p: Producer)
    requires MemoryInvariant(m) && ProducerInvariant(m, p) && p.phase.LoadingTail?
    ensures ProducerInvariant(m, LoadTail(m, p))
  {
    var q := LoadTail(m, p);
    assert Room(m, q) >= Room(m, p);
    FreeIsRoom(m, q);
    assert Window(m.data, Sent(m), Sent(m)) == Le(p.phase.size, PREFIX)[..0];
  }

  // ------------------------------------------------------------ the consumer

  lemma PrefixDecodes(size: nat)
    requires size < TWO_32
    ensures FromLe(Le(size, PREFIX)) == size
  {
    Pow2Of32();
    FromLeOfLe(size, PREFIX);
  }

  lemma LoadPrefixByteSafe(m: Memory, c: Consumer)
    requires MemoryInvariant(m) && ConsumerInvariant(m, c) && c.phase.ReadingPrefix?
    ensures ConsumerInvariant(m, LoadPrefixByte(m, c))
  {
    var front, i := m.queue[0], |c.phase.read|;
    FrontIsStored(m, i);
    var read := c.phase.read + [m.data[At(c.tail, i, m.capacity)]];
    assert read == Le(|front|, PREFIX)[..i + 1];
    if i + 1 == PREFIX {
      assert front in m.queue;
      PrefixDecodes(|front|);
      assert read == Le(|front|, PREFIX);
      AcceptedRecordFits(m, c);
    }
  }

  /** A record that the cached head covers passes the sanity check. */
  lemma AcceptedRecordFits(m: Memory, c: Consumer)
    requires MemoryInvariant(m) && ConsumerInvariant(m, c) && c.phase.ReadingPrefix?
    ensures PREFIX + |m.queue[0]| <= Sub64(c.cachedHead, c.tail) <= m.capacity
  {
    CountersTell(m, c.visible);
    assert Stream(m.queue[..c.visible]) == Frame(m.queue[0]) + Stream(m.queue[..c.visible][1..]);
  }

  lemma HandBackSafe(m: Memory, c: Consumer)
    requires MemoryInvariant(m) && ConsumerInvariant(m, c) && c.pending != 0
    ensures MemoryInvariant(HandBack(m, c)) && OnlyReleases(m, HandBack(m, c))
    ensures ConsumerInvariant(HandBack(m, c), HandedBack(c))
  {
    FrontLeaves(m, c.pending);
    CoverAfterFront(m.queue, c.visible, c.pending);
  }

  /** Without the oldest record, the cached head covers one record less. */
  lemma CoverAfterFront(queue: seq<Record>, visible: nat, size: nat)
    requires 0 < visible <= |queue| && size == PREFIX + |queue[0]|
    ensures |Stream(queue[..visible])| == size + |Stream(queue[1..][..visible - 1])|
  {
    assert queue[..visible][1..] == queue[1..][..visible - 1];
  }

  /** Moving the tail past the oldest record leaves the others in place. */
  lemma FrontLeaves(m: Memory, size: nat)
    requires MemoryInvariant(m) && m.queue != [] && size == PREFIX + |m.queue[0]|
    ensures var n := m.(tail := Add64(m.tail, size), queue := m.queue[1..], consumed := m.consumed + size);
      MemoryInvariant(n) && OnlyReleases(m, n)
  {
    var n := m.(tail := Add64(m.tail, size), queue := m.queue[1..], consumed := m.consumed + size);
    Low64Adds(m.consumed, size);
    assert Stream(m.queue) == Frame(m.queue[0]) + Stream(n.queue);
    assert Sent(n) == Sent(m);
    WindowDrops(m.data, m.consumed, n.consumed, Sent(m), Frame(m.queue[0]), Stream(n.queue));
  }

  lemma WindowDrops(data: seq<byte>, lo: nat, mid: nat, hi: nat, first: seq<byte>, rest: seq<byte>)
    requires |data| > 0 && lo <= mid <= hi && |first| == mid - lo && Window(data, lo, hi) == first + rest
    ensures Window(data, mid, hi) == rest
  {
    WindowSplit(data, lo, mid, hi);
    assert rest == (first + rest)[|first|..];
  }

  // ------------------------------------------------------------ any step

  lemma CreatedSafe(data: seq<byte>)
    requires IsCapacity(|data|)
    ensures Invariant(Ring(Created(data), NEW_PRODUCER, NEW_CONSUMER))
  {
    CapacityBound(|data|);
  }

  /** Every step of the producer, from any state that satisfies the invariant. */
  lemma ProducerStepSafe(m: Memory, p: Producer, a: ProducerAction)
    requires MemoryInvariant(m) && ProducerInvariant(m, p) && ProducerEnabled(p, a)
    ensures var (n, q) := ProducerStep(m, p, a);
      MemoryInvariant(n) && ProducerInvariant(n, q) && OnlyCommits(m, n)
  {
    match a
    case BeginReserve(size) => ReserveBeginSafe(m, p, size);
    case ReloadTail => LoadTailSafe(m, p);
    case WritePrefix => StorePrefixByteSafe(m, p);
    case Write(j, b) => StoreByteSafe(m, p, j, b);
    case Commit => if p.pending != 0 { PublishSafe(m, p); }
  }

  /** Every step of the consumer, likewise. */
  lemma ConsumerStepSafe(m: Memory, c: Consumer, a: ConsumerAction)
    requires MemoryInvariant(m) && ConsumerInvariant(m, c) && ConsumerEnabled(c, a)
    ensures var (n, d) := ConsumerStep(m, c, a);
      MemoryInvariant(n) && ConsumerInvariant(n, d) && OnlyReleases(m, n)
  {
    match a
    case BeginPeek => CountersTell(m, c.visible);
    case ReloadHead => {
      CountersTell(m, |m.queue|);
      assert m.queue[..|m.queue|] == m.queue;
    }
    case ReadPrefix => LoadPrefixByteSafe(m, c);
    case Release => if c.pending != 0 { HandBackSafe(m, c); }
    case TakeTail =>
    case TakeHead => assert m.queue[..|m.queue|] == m.queue;
  }
}
