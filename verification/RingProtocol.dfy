/**
 * The single-producer single-consumer ring as a concurrent step system. Every access to shared memory is a step of
 * its own; the two sides interleave freely, with stale copies of each other's counter.
 */
module RingProtocol {
  import opened Words

  type Record = seq<byte>

  const PREFIX: nat := 4

  // ------------------------------------------------------------ state

  /**
   * The shared memory (capacity, data, head, tail) and its history: the records published and not yet released, and
   * the number of bytes ever released. No step of either side depends on the history.
   */
  datatype Memory = Memory(capacity: nat, data: seq<byte>, head: nat, tail: nat, queue: seq<Record>, consumed: nat)

  datatype ProducerPhase =
    | Idle
    | LoadingTail(size: nat)              // try_reserve, about to reload the tail
    | WritingPrefix(size: nat, at: nat)   // try_reserve, about to store byte `at` of the length prefix

  /** The producer's private variables; `freed` is history: the bytes released up to its cached tail. */
  datatype Producer = Producer(head: nat, cachedTail: nat, pending: nat, phase: ProducerPhase, freed: nat)

  datatype ConsumerPhase =
    | Ready
    | LoadingHead                    // try_peek, about to reload the head
    | ReadingPrefix(read: seq<byte>) // try_peek, has loaded these bytes of the length prefix
    | AttachingTail                  // constructor, about to load the tail
    | AttachingHead                  // constructor, about to load the head

  /** The consumer's private variables; `visible` is history: how many queued records its cached head covers. */
  datatype Consumer =
    Consumer(tail: nat, cachedHead: nat, pending: nat, corrupted: bool, phase: ConsumerPhase, visible: nat)

  datatype Ring = Ring(memory: Memory, producer: Producer, consumer: Consumer)

  const NEW_PRODUCER := Producer(0, 0, 0, Idle, 0)
  const NEW_CONSUMER := Consumer(0, 0, 0, false, AttachingTail, 0)

  /** A new ring over zeroed or leftover bytes. */
  function Created(data: seq<byte>): Memory {
    Memory(|data|, data, 0, 0, [], 0)
  }

  // ------------------------------------------------------------ addresses

  predicate IsCapacity(capacity: nat) {
    exists k: nat :: k <= 63 && capacity == Pow2(k)
  }

  /** The source's test accepts exactly the powers of two; 2^63 is the largest a 64-bit size can hold. */
  lemma CapacityTest(capacity: nat)
    requires capacity < TWO_64
    ensures IsPowerOfTwo(capacity) <==> IsCapacity(capacity)
  {
    if IsPowerOfTwo(capacity) {
      var k := PowerOfTwoExponent(capacity);
      if k >= 64 {
        Pow2Large(k);
        assert false;
      }
      assert k <= 63 && capacity == Pow2(k);
    }
    if IsCapacity(capacity) {
      var k :| k <= 63 && capacity == Pow2(k);
      Pow2IsPowerOfTwo(k);
    }
  }

  lemma Pow2Large(k: nat)
    requires k >= 64
    ensures Pow2(k) >= TWO_64
  {
    Pow2Of64();
    Pow2Adds(64, k - 64);
    assert TWO_64 * Pow2(k - 64) >= TWO_64;
  }

  lemma Factor(a: nat, b: nat)
    requires b > 0
    ensures a <= a * b
  {
  }

  lemma CapacityBound(capacity: nat)
    requires IsCapacity(capacity)
    ensures capacity <= TWO_63
  {
    var k: nat :| k <= 63 && capacity == Pow2(k);
    Pow2Of64();
    Pow2Adds(k, 63 - k);
    Pow2Adds(1, 63);
    Factor(capacity, Pow2(63 - k));
  }

  function Offset(counter: nat, capacity: nat): nat
    requires capacity > 0
  {
    And(counter, capacity - 1)
  }

  /** The mirrored mapping: virtual bytes v and v + capacity are the same physical byte. */
  function Physical(v: nat, capacity: nat): nat
    requires capacity > 0
  {
    v % capacity
  }

  /** The physical byte at distance i from the byte a counter points to. */
  function At(counter: nat, i: nat, capacity: nat): (r: nat)
    requires capacity > 0
  {
    Physical(Offset(counter, capacity) + i, capacity)
  }

  /** Masking a 64-bit counter is reducing the true position. */
  lemma AtIsPosition(x: nat, i: nat, capacity: nat)
    requires IsCapacity(capacity)
    ensures At(Low64(x), i, capacity) == (x + i) % capacity
    ensures Offset(Low64(x), capacity) < capacity
  {
    var k :| k <= 63 && capacity == Pow2(k);
    AndMask(Low64(x), k);
    Low64Modulo(x, capacity, k);
    ModuloAdds(x, i, capacity);
  }

  lemma ModuloAdds(x: nat, i: nat, m: nat)
    requires m > 0
    ensures (x % m + i) % m == (x + i) % m
  {
    var q := x / m;
    var q2, r := (x % m + i) / m, (x % m + i) % m;
    assert x + i == m * (q + q2) + r by {
      assert x == m * q + x % m;
      assert x % m + i == m * q2 + r;
      assert m * (q + q2) == m * q + m * q2;
    }
    ModuloUnique(x + i, m, q + q2, r);
  }

  lemma Low64Modulo(x: nat, m: nat, k: nat)
    requires m == Pow2(k) && k <= 64
    ensures Low64(x) % m == x % m
  {
    Pow2Of64();
    Pow2Adds(k, 64 - k);
    SplitModulo(x, m, Pow2(64 - k));
  }

  lemma SplitModulo(x: nat, m: nat, n: nat)
    requires m > 0 && m * n == TWO_64
    ensures Low64(x) % m == x % m
  {
    var q := x / TWO_64;
    assert x == TWO_64 * q + Low64(x);
    var d, r := Low64(x) / m, Low64(x) % m;
    assert Low64(x) == m * d + r;
    assert m * n * q == m * (n * q);
    assert m * (n * q + d) == m * (n * q) + m * d;
    ModuloUnique(x, m, n * q + d, r);
  }

  /** Different positions less than a capacity apart never share a byte. */
  lemma PositionsApart(a: nat, b: nat, m: nat)
    requires a < b < a + m
    ensures a % m != b % m
  {
    if a % m == b % m {
      SameByteIsFar(a, b, m);
    }
  }

  lemma SameByteIsFar(a: nat, b: nat, m: nat)
    requires m > 0 && a < b && a % m == b % m
    ensures a + m <= b
  {
    var d := b / m - a / m;
    assert a == m * (a / m) + a % m && b == m * (b / m) + b % m;
    assert m * (b / m) - m * (a / m) == m * d;
    MultipleIsLarge(m, d);
  }

  /** The bytes of a record with its length prefix. */
  function Frame(record: Record): (r: seq<byte>)
    ensures |r| == PREFIX + |record|
  {
    Le(|record|, PREFIX) + record
  }

  /** Records, framed, one after the other. */
  function Stream(queue: seq<Record>): seq<byte> {
    if queue == [] then [] else Frame(queue[0]) + Stream(queue[1..])
  }

  // ------------------------------------------------------------ the producer's steps

  predicate Mapped(m: Memory) {
    |m.data| == m.capacity > 0
  }

  /** The largest record that can be reserved, in the source's wrapping arithmetic. */
  function MaxRecordSize(capacity: nat): nat {
    var byCapacity := Sub64(capacity, PREFIX);
    if byCapacity < TWO_32 - 1 then byCapacity else TWO_32 - 1
  }

  /** The free space as the producer computes it from its cached tail. */
  function Free(capacity: nat, head: nat, cachedTail: nat): nat {
    Sub64(capacity, Sub64(head, cachedTail))
  }

  /** try_reserve up to its first shared access. */
  function ReserveBegin(m: Memory, p: Producer, size: nat): Producer {
    if size > MaxRecordSize(m.capacity) then p
    else if Free(m.capacity, p.head, p.cachedTail) < PREFIX + size then p.(phase := LoadingTail(size))
    else p.(phase := WritingPrefix(size, 0))
  }

  /** The tail is reloaded; too little space even so makes try_reserve return empty-handed. */
  function LoadTail(m: Memory, p: Producer): Producer
    requires p.phase.LoadingTail?
  {
    var size := p.phase.size;
    var q := p.(cachedTail := m.tail, freed := m.consumed);
    q.(phase := if Free(m.capacity, q.head, q.cachedTail) < PREFIX + size then Idle else WritingPrefix(size, 0))
  }

  /** One byte of the length prefix is stored. */
  function StorePrefixByte(m: Memory, p: Producer): Memory
    requires Mapped(m) && p.phase.WritingPrefix? && p.phase.at < PREFIX
  {
    m.(data := m.data[At(p.head, p.phase.at, m.capacity) := Le(p.phase.size, PREFIX)[p.phase.at]])
  }

  /** After the last byte of the prefix the reservation is made. */
  function PrefixByteStored(p: Producer): Producer
    requires p.phase.WritingPrefix?
  {
    var size, at := p.phase.size, p.phase.at;
    if at + 1 < PREFIX then p.(phase := WritingPrefix(size, at + 1)) else p.(phase := Idle, pending := PREFIX + size)
  }

  /** The producer stores byte j of the record it has reserved. */
  function StoreByte(m: Memory, p: Producer, j: nat, b: byte): Memory
    requires Mapped(m)
  {
    m.(data := m.data[At(p.head, PREFIX + j, m.capacity) := b])
  }

  /** What the memory holds in the reserved span. */
  function Slot(m: Memory, p: Producer): (s: Record)
    requires Mapped(m) && p.pending >= PREFIX
    ensures |s| == p.pending - PREFIX
  {
    seq<byte>(p.pending - PREFIX,
              j requires 0 <= j < p.pending - PREFIX => m.data[At(p.head, PREFIX + j, m.capacity)])
  }

  /** The store of the head that publishes the reserved record. */
  function Publish(m: Memory, p: Producer): Memory
    requires Mapped(m) && p.pending >= PREFIX
  {
    m.(head := Add64(p.head, p.pending), queue := m.queue + [Slot(m, p)])
  }

  function Published(p: Producer): Producer {
    p.(head := Add64(p.head, p.pending), pending := 0)
  }

  // ------------------------------------------------------------ the consumer's steps

  /** try_peek up to its first shared access. */
  function PeekBegin(c: Consumer): Consumer {
    if c.corrupted || c.pending != 0 then c
    else c.(phase := if c.cachedHead == c.tail then LoadingHead else ReadingPrefix([]))
  }

  /** The head is reloaded; a ring that looks empty even so makes try_peek return empty-handed. */
  function LoadHead(m: Memory, c: Consumer): Consumer {
    c.(cachedHead := m.head, visible := |m.queue|, phase := if m.head == c.tail then Ready else ReadingPrefix([]))
  }

  /** One byte of the length prefix is loaded; after the last one the record is accepted or the ring given up. */
  function LoadPrefixByte(m: Memory, c: Consumer): Consumer
    requires Mapped(m) && c.phase.ReadingPrefix?
  {
    var read := c.phase.read + [m.data[At(c.tail, |c.phase.read|, m.capacity)]];
    if |read| < PREFIX then c.(phase := ReadingPrefix(read)) else Accepted(m, c, FromLe(read))
  }

  /** The end of try_peek: the sanity check of the loaded length. */
  function Accepted(m: Memory, c: Consumer, length: nat): Consumer {
    var record := PREFIX + length;
    if record > Sub64(c.cachedHead, c.tail) || record > m.capacity then c.(phase := Ready, corrupted := true)
    else c.(phase := Ready, pending := record)
  }

  /** What the consumer sees when it reads byte j of the record it has peeked. */
  function Observed(m: Memory, c: Consumer, j: nat): byte
    requires Mapped(m)
  {
    m.data[At(c.tail, PREFIX + j, m.capacity)]
  }

  /** The store of the tail that hands the peeked record's space back. */
  function HandBack(m: Memory, c: Consumer): Memory
    requires m.queue != []
  {
    m.(tail := Add64(c.tail, c.pending), queue := m.queue[1..], consumed := m.consumed + c.pending)
  }

  function HandedBack(c: Consumer): Consumer
    requires c.visible > 0
  {
    c.(tail := Add64(c.tail, c.pending), pending := 0, visible := c.visible - 1)
  }

  function AttachTail(m: Memory, c: Consumer): Consumer {
    c.(tail := m.tail, phase := AttachingHead)
  }

  function AttachHead(m: Memory, c: Consumer): Consumer {
    c.(cachedHead := m.head, visible := |m.queue|, phase := Ready)
  }

  // ------------------------------------------------------------ the invariant

  /** How many bytes were ever published. */
  function Sent(m: Memory): nat {
    m.consumed + |Stream(m.queue)|
  }

  /** The bytes the memory holds for the positions lo up to hi of the infinite stream. */
  function Window(data: seq<byte>, lo: nat, hi: nat): (r: seq<byte>)
    requires lo <= hi && |data| > 0
    ensures |r| == hi - lo
  {
    seq<byte>(hi - lo, i requires 0 <= i < hi - lo => data[(lo + i) % |data|])
  }

  /** The memory holds every published unreleased byte; the counters show the true positions. */
  predicate MemoryInvariant(m: Memory) {
    && IsCapacity(m.capacity) && m.capacity <= TWO_63 && Mapped(m)
    && m.tail == Low64(m.consumed) && m.head == Low64(Sent(m))
    && |Stream(m.queue)| <= m.capacity
    && (forall record :: record in m.queue ==> |record| < TWO_32)
    && Window(m.data, m.consumed, Sent(m)) == Stream(m.queue)
  }

  /** The free bytes as far as the producer knows; negative when it claims more than there are. */
  function Room(m: Memory, p: Producer): int {
    p.freed + m.capacity - Sent(m)
  }

  /** The first n bytes behind the published ones are those of the length prefix for a record of this size. */
  predicate PrefixStored(m: Memory, size: nat, n: nat)
    requires n <= PREFIX && Mapped(m)
  {
    Window(m.data, Sent(m), Sent(m) + n) == Le(size, PREFIX)[..n]
  }

  predicate Reserved(m: Memory, p: Producer)
    requires Mapped(m)
  {
    && PREFIX <= p.pending <= Room(m, p) && p.pending - PREFIX < TWO_32
    && PrefixStored(m, p.pending - PREFIX, PREFIX)
  }

  /** The producer's reservation lies in free space and has its length prefix. */
  predicate ProducerInvariant(m: Memory, p: Producer)
    requires MemoryInvariant(m)
  {
    && p.freed <= m.consumed && p.cachedTail == Low64(p.freed)
    && p.head == m.head && Room(m, p) >= 0
    && match p.phase
       case Idle => p.pending == 0 || Reserved(m, p)
       case LoadingTail(size) => size < TWO_32 && (p.pending == 0 || Reserved(m, p))
       case WritingPrefix(size, at) =>
         at < PREFIX && size < TWO_32 && PREFIX + size <= Room(m, p) && PrefixStored(m, size, at)
  }

  /** The consumer is at a record boundary and trusts only published records. */
  predicate ConsumerInvariant(m: Memory, c: Consumer)
    requires MemoryInvariant(m)
  {
    && !c.corrupted
    && (c.pending != 0 ==> c.phase.Ready?)
    && (!c.phase.AttachingTail? ==> c.tail == m.tail)
    && c.visible <= |m.queue|
    && (!c.phase.AttachingTail? && !c.phase.AttachingHead? ==>
          c.cachedHead == Low64(m.consumed + |Stream(m.queue[..c.visible])|))
    && (c.pending != 0 || c.phase.ReadingPrefix? ==> c.visible > 0)
    && (c.pending != 0 ==> c.pending == PREFIX + |m.queue[0]|)
    && (c.phase.ReadingPrefix? ==>
          && |c.phase.read| < PREFIX
          && c.phase.read == Le(|m.queue[0]|, PREFIX)[..|c.phase.read|])
  }

  predicate Invariant(r: Ring) {
    MemoryInvariant(r.memory) && ProducerInvariant(r.memory, r.producer) && ConsumerInvariant(r.memory, r.consumer)
  }

  // ------------------------------------------------------------ interleavings

  datatype ProducerAction =
    | BeginReserve(size: nat) | ReloadTail | WritePrefix | Write(j: nat, b: byte) | Commit

  datatype ConsumerAction =
    | BeginPeek | ReloadHead | ReadPrefix | Release | TakeTail | TakeHead

  /** The next access of a side is determined by where it is; between calls its caller chooses. */
  predicate ProducerEnabled(p: Producer, a: ProducerAction) {
    match a
    case BeginReserve(_) => p.phase.Idle?
    case ReloadTail => p.phase.LoadingTail?
    case WritePrefix => p.phase.WritingPrefix?
    case Write(j, _) => p.phase.Idle? && PREFIX + j < p.pending
    case Commit => p.phase.Idle?
  }

  function ProducerStep(m: Memory, p: Producer, a: ProducerAction): (Memory, Producer)
    requires MemoryInvariant(m) && ProducerInvariant(m, p) && ProducerEnabled(p, a)
  {
    match a
    case BeginReserve(size) => (m, ReserveBegin(m, p, size))
    case ReloadTail => (m, LoadTail(m, p))
    case WritePrefix => (StorePrefixByte(m, p), PrefixByteStored(p))
    case Write(j, b) => (StoreByte(m, p, j, b), p)
    case Commit => if p.pending == 0 then (m, p) else (Publish(m, p), Published(p))
  }

  predicate ConsumerEnabled(c: Consumer, a: ConsumerAction) {
    match a
    case BeginPeek => c.phase.Ready?
    case ReloadHead => c.phase.LoadingHead?
    case ReadPrefix => c.phase.ReadingPrefix?
    case Release => c.phase.Ready?
    case TakeTail => c.phase.AttachingTail?
    case TakeHead => c.phase.AttachingHead?
  }

  function ConsumerStep(m: Memory, c: Consumer, a: ConsumerAction): (Memory, Consumer)
    requires MemoryInvariant(m) && ConsumerInvariant(m, c) && ConsumerEnabled(c, a)
  {
    match a
    case BeginPeek => (m, PeekBegin(c))
    case ReloadHead => (m, LoadHead(m, c))
    case ReadPrefix => (m, LoadPrefixByte(m, c))
    case Release => if c.pending == 0 then (m, c) else (HandBack(m, c), HandedBack(c))
    case TakeTail => (m, AttachTail(m, c))
    case TakeHead => (m, AttachHead(m, c))
  }
}
