/** The shared-memory transport around the ring: its size, and the consumer's and producer's hold on it. */
module Transport {
  import opened Words
  import opened Options
  import opened RingProtocol
  import opened RingBuffer

  const TWO_62: nat := 0x4000_0000_0000_0000

  /** The capacity is the smallest doubling of the page size that holds the request; too large a request is refused. */
  method NormalizeCapacity(pageSize: nat, requested: nat) returns (capacity: Option<nat>)
    requires IsCapacity(pageSize)
    ensures capacity.Some? <==> requested <= TWO_63
    ensures capacity.Some? ==> IsCapacity(capacity.value) && pageSize <= capacity.value && requested <= capacity.value
    ensures capacity.Some? ==> capacity.value == pageSize || capacity.value < 2 * requested
  {
    var c := pageSize;
    CapacityBound(pageSize);
    while c < requested
      invariant IsCapacity(c) && pageSize <= c <= TWO_63 && (c == pageSize || c < 2 * requested)
      decreases TWO_63 - c
    {
      if c > TWO_62 {
        Between62And63(c);
        return None;
      }
      DoubleCapacity(c);
      c := 2 * c;
    }
    capacity := Some(c);
  }

  lemma Pow2Of63()
    ensures Pow2(63) == TWO_63
  {
    Pow2Of64();
    Pow2Adds(1, 63);
  }

  lemma SmallPower(k: nat)
    requires k <= 62
    ensures Pow2(k) <= TWO_62
  {
    Pow2Of63();
    Pow2Adds(1, 62);
    Pow2Adds(k, 62 - k);
    Factor(Pow2(k), Pow2(62 - k));
  }

  lemma DoubleCapacity(c: nat)
    requires IsCapacity(c) && c <= TWO_62
    ensures IsCapacity(2 * c)
  {
    var k: nat :| k <= 63 && c == Pow2(k);
    Pow2Of63();
    assert k != 63;
    assert Pow2(k + 1) == 2 * c;
  }

  /** No capacity lies strictly between 2^62 and 2^63. */
  lemma Between62And63(c: nat)
    requires IsCapacity(c) && c > TWO_62
    ensures c == TWO_63
  {
    var k: nat :| k <= 63 && c == Pow2(k);
    Pow2Of63();
    if k <= 62 {
      SmallPower(k);
      assert false;
    }
  }

  /** A liveness check. */
  predicate ProcessAlive(alive: set<int>, pid: int) {
    pid > 0 && pid in alive
  }

  datatype Attachment = Attached | NotYet | AnotherConsumer | CapacityMismatch

  datatype PeerStatus = PeerStatus(present: bool, alive: bool, finished: bool)

  /** What an attempt to attach finds when nothing interferes with it. */
  ghost function Attempt(control: RingControl, mapped: nat, alive: set<int>, me: int): Attachment
    reads control
  {
    if control.state != RingState.Ready || control.magic != RING_MAGIC || control.version != RING_VERSION
       || !IsCapacity(control.capacity) then NotYet
    else if control.capacity != mapped then CapacityMismatch
    else if !ProcessAlive(alive, control.producerPid) then NotYet
    else if control.consumerPid != 0 && control.consumerPid != me && ProcessAlive(alive, control.consumerPid)
    then AnotherConsumer
    else Attached
  }

  class ShmPacketSource {
    const me: int
    const control: RingControl
    const data: array<byte>
    var ring: RingConsumer?

    constructor (me: int, control: RingControl, data: array<byte>)
      ensures this.me == me && this.control == control && this.data == data && ring == null
    {
      this.me, this.control, this.data, ring := me, control, data, null;
    }

    predicate Connected()
      reads this
    {
      ring != null
    }

    /** The ring object, if any, belongs to the mapping. */
    ghost predicate Linked()
      reads this, control, data, ring
    {
      ring != null ==> ring.control == control && ring.data == data && ring.Linked()
    }

    /** And finds a sound ring there. */
    ghost predicate Valid()
      reads this, control, data, ring
    {
      Linked() && (ring != null ==> ring.Valid())
    }

    /** Takes the ring exactly when it is ready, its producer lives and nobody alive has it, whatever it holds. */
    method TryAttach(alive: set<int>) returns (outcome: Attachment)
      requires !Connected() && control.capacity < TWO_64
      modifies this, control`consumerPid
      ensures outcome == old(Attempt(control, data.Length, alive, me))
      ensures var usable := old(control.state == RingState.Ready && control.magic == 0x42524350 && control.version == 1
                                && IsCapacity(control.capacity));
        var fits, lives := old(control.capacity) == data.Length, old(control.producerPid > 0 && control.producerPid in alive);
        var taken := old(control.consumerPid > 0 && control.consumerPid != me && control.consumerPid in alive);
        && (outcome == NotYet <==> !usable || (fits && !lives))
        && (outcome == CapacityMismatch <==> usable && !fits)
        && (outcome == AnotherConsumer <==> usable && fits && lives && taken)
        && (outcome == Attached <==> usable && fits && lives && !taken)
      ensures Connected() <==> outcome == Attached
      ensures Linked() && control.Shared(data) == old(control.Shared(data))
      ensures MemoryInvariant(control.Shared(data)) ==> Valid()
      ensures control.consumerPid == if outcome == Attached then me else old(control.consumerPid)
    {
      var ready := control.IsReady();
      if !ready {
        return NotYet;
      }
      if control.capacity != data.Length {
        return CapacityMismatch;
      }
      if !ProcessAlive(alive, control.producerPid) {
        return NotYet;
      }
      var expected := control.consumerPid;
      if expected != 0 && expected != me && ProcessAlive(alive, expected) {
        return AnotherConsumer;
      }
      control.consumerPid := me;
      ring := new RingConsumer(control, data);
      outcome := Attached;
    }

    /** One non-blocking look for the next record, the previous one being released first. */
    method ReceiveNow() returns (span: Span)
      requires Connected() && Linked()
      modifies ring, control
      ensures Connected() && Linked() && ring == old(ring)
      ensures ring.corrupted ==> span == Nothing
      ensures span.Span? ==> span.start + span.length <= 2 * data.Length
      ensures old(Valid()) ==>
        && Valid() && control.queue == (if old(ring.pending) == 0 then old(control.queue) else old(control.queue)[1..])
        && (span.Span? <==> control.queue != []) && (span.Span? ==> Bytes(data[..], span) == control.queue[0])
    {
      ring.Release();
      PeekedStaysLinked(control.Shared(data), ring.State());
      span := ring.TryPeek();
    }

    /** Gives back the record and the claim, and only the own claim. */
    method Disconnect()
      requires Linked()
      modifies this, ring, control
      ensures !Connected()
      ensures old(ring) == null ==> control.queue == old(control.queue) && control.consumerPid == old(control.consumerPid)
      ensures old(ring) != null ==>
        control.consumerPid == if old(control.consumerPid) == me then 0 else old(control.consumerPid)
      ensures old(ring) != null && old(Valid()) ==>
        && MemoryInvariant(control.Shared(data))
        && control.queue == if old(ring.pending) == 0 then old(control.queue) else old(control.queue)[1..]
    {
      if ring != null {
        ring.Release();
        if control.consumerPid == me {
          control.consumerPid := 0;
        }
        ring := null;
      }
    }

    /** The producer, as far as it can be told; a damaged ring counts as finished. */
    method Peer(alive: set<int>) returns (status: PeerStatus)
      requires Linked()
      ensures status == if ring == null then PeerStatus(false, false, false)
                        else PeerStatus(control.producerPid != 0, ProcessAlive(alive, control.producerPid),
                                        control.state == RingState.ProducerFinished || ring.corrupted)
      ensures Valid() && ring != null ==> (status.finished <==> control.state == RingState.ProducerFinished)
    {
      if ring == null {
        return PeerStatus(false, false, false);
      }
      status := PeerStatus(control.producerPid != 0, ProcessAlive(alive, control.producerPid),
                           control.state == RingState.ProducerFinished || ring.corrupted);
    }
  }
}
