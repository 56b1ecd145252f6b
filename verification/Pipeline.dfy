/**
 * Producer, ring and consumer together: every shared access of the two programs is a step, and the steps interleave
 * freely with each other, with the clock, with pauses and stops, and with the death of either process.
 */
module Pipeline {
  import opened Words
  import Packet
  import opened RingProtocol
  import RingQueue
  import opened ConsumerSession
  import opened PacketStream
  import opened Options

  /** One store into the reserved slot. */
  datatype Store = Store(j: nat, b: byte)

  /** The slot after a sequence of stores. */
  function Filled(slot: seq<byte>, stores: seq<Store>): (r: seq<byte>)
    ensures |r| == |slot|
    decreases |stores|
  {
    if stores == [] then slot
    else if stores[0].j < |slot| then Filled(slot[stores[0].j := stores[0].b], stores[1..])
    else Filled(slot, stores[1..])
  }

  /** What the two programs are run with: `stores(k, now)` is how packet k is assembled in its slot. */
  datatype Setup = Setup(config: Config, tolerance: int, size: nat, source: Source,
                         stores: (nat, Packet.int64) -> seq<Store>)
  {
    /** Assembling leaves the packet, whatever was in the slot; and the validator accepts packets in order that fit. */
    ghost predicate Sound() {
      && 0 <= tolerance && (size < TWO_32 ==> Accepts(config, tolerance, source))
      && forall k: nat, now: Packet.int64, slot: seq<byte> :: |slot| == size ==> Assembles(slot, stores(k, now), source(k, now))
    }
  }

  predicate Assembles(slot: seq<byte>, stores: seq<Store>, packet: seq<byte>) {
    (forall i :: 0 <= i < |stores| ==> stores[i].j < |slot|) && Filled(slot, stores) == packet
  }

  // ------------------------------------------------------------ state

  datatype SenderMode =
    | Looping                                // between packets
    | Reserving                              // inside reserve
    | Building(now: Packet.int64, left: seq<Store>) // has a slot and still these stores to make
    | Gone                                   // has marked the stream finished

  /** `finished` is the shared state word, `alive` what a liveness check of the process finds. */
  datatype Sender = Sender(mode: SenderMode, finished: bool, alive: bool)

  datatype Purpose = ToProcess | ToDrop | LastLook

  datatype ReceiverMode =
    | Starting                                // constructing the RingConsumer
    | Top                                     // top of the session loop
    | Pausing                                 // blocking policy, about to release
    | Receiving(purpose: Purpose)             // receive, about to release
    | Trying(purpose: Purpose)                // receive, inside try_peek
    | Failed(purpose: Purpose)                // receive, after an attempt that found nothing
    | Peeked(purpose: Purpose)                // has a record, about to read the clock or to count it as dropped
    | Reading(purpose: Purpose, now: Packet.int64, copy: Record) // validates the record, has loaded these bytes
    | Asking                                  // peer_status, about to load the state
    | Asked(finished: bool)                   // peer_status, about to check liveness
    | Stopping                                // left the loop, about to release
    | Over(drained: bool)                     // session ended, by a stop or because the stream had ended

  /** `base` is history: how many packets had been released when the session began. */
  datatype Receiver = Receiver(mode: ReceiverMode, session: Session, base: nat)

  /** `packets` and `times` are history: everything committed, and when it was made. */
  datatype Pipe = Pipe(
    ring: Ring, sender: Sender, receiver: Receiver, clock: Packet.int64, packets: seq<Record>, times: seq<Packet.int64>)

  // ------------------------------------------------------------ the producer program

  datatype SenderEvent = Reserve | Advance | GiveUp | Build | StoreNext | CommitPacket | Finish | Die | Tick(now: Packet.int64)

  predicate SenderEnabled(p: Pipe, e: SenderEvent) {
    var mode, ring := p.sender.mode, p.ring.producer;
    if e.Tick? then p.clock <= e.now
    else
      && p.sender.alive
      && match e
         case Reserve => (mode.Looping? || mode.Reserving?) && ring.phase.Idle? && ring.pending == 0
         case Advance => mode.Reserving? && !ring.phase.Idle?
         case GiveUp => mode.Reserving? && ring.phase.Idle? && ring.pending == 0
         case Build => mode.Reserving? && ring.phase.Idle? && ring.pending != 0
         case StoreNext => mode.Building? && mode.left != []
         case CommitPacket => mode.Building? && mode.left == []
         case Finish => mode.Looping?
         case Die => true
  }

  /** The producer's access to the ring that an event makes, if any. */
  function SenderAction(setup: Setup, p: Pipe, e: SenderEvent): Option<ProducerAction>
    requires SenderEnabled(p, e)
  {
    match e
    case Reserve => Some(BeginReserve(setup.size))
    case Advance => Some(if p.ring.producer.phase.LoadingTail? then ReloadTail else WritePrefix)
    case StoreNext => Some(Write(p.sender.mode.left[0].j, p.sender.mode.left[0].b))
    case CommitPacket => Some(Commit)
    case _ => None
  }

  function SenderMoves(setup: Setup, p: Pipe, e: SenderEvent): Sender
    requires SenderEnabled(p, e)
  {
    var s := p.sender;
    match e
    case Reserve => s.(mode := Reserving)
    case GiveUp => s.(mode := Looping)
    case Build => s.(mode := Building(p.clock, setup.stores(|p.times|, p.clock)))
    case StoreNext => s.(mode := Building(s.mode.now, s.mode.left[1..]))
    case CommitPacket => s.(mode := Looping)
    case Finish => s.(mode := Gone, finished := true)
    case Die => s.(alive := false)
    case _ => s
  }

  function SenderStep(setup: Setup, p: Pipe, e: SenderEvent): Pipe
    requires Invariant(p.ring) && SenderEnabled(p, e)
    requires var a := SenderAction(setup, p, e); a.Some? ==> ProducerEnabled(p.ring.producer, a.value)
  {
    var a := SenderAction(setup, p, e);
    p.(ring := if a.Some? then RingQueue.Step(p.ring, RingQueue.Produce(a.value)) else p.ring,
       sender := SenderMoves(setup, p, e),
       clock := if e.Tick? then e.now else p.clock,
       packets := if e.CommitPacket? then p.packets + RingQueue.Enqueues(p.ring, RingQueue.Produce(Commit)) else p.packets,
       times := if e.CommitPacket? then p.times + [p.sender.mode.now] else p.times)
  }

  // ------------------------------------------------------------ the consumer program

  datatype ReceiverEvent =
    | Construct | LookAtPause(paused: bool) | Stop | Report
    | ReleaseFirst | Attempt | TryAgain | NothingCame | LoadByte | Conclude
    | ReadClock | LoadState | CheckAlive | Restart(tracker: PacketValidator.Tracker)

  predicate ReceiverEnabled(p: Pipe, e: ReceiverEvent) {
    var mode, c := p.receiver.mode, p.ring.consumer;
    match e
    case Construct => mode.Starting? && (c.phase.AttachingTail? || c.phase.AttachingHead?)
    case LookAtPause(_) => mode.Top?
    case Stop => mode.Top?
    case Report => mode.Top?
    case ReleaseFirst => mode.Pausing? || mode.Receiving? || mode.Stopping?
    case Attempt => mode.Trying?
    case TryAgain => mode.Failed? && mode.purpose != LastLook
    case NothingCame => mode.Failed?
    case ReadClock => mode.Peeked? && mode.purpose != ToDrop
    case LoadByte => mode.Reading? && |mode.copy| + PREFIX < c.pending
    case Conclude =>
      if mode.Peeked? then mode.purpose == ToDrop && c.pending >= PREFIX
      else mode.Reading? && |mode.copy| + PREFIX == c.pending
    case LoadState => mode.Asking?
    case CheckAlive => mode.Asked?
    case Restart(_) => true
  }

  /** The consumer's access to the ring's shared words that an event makes, if any. */
  function ReceiverAction(p: Pipe, e: ReceiverEvent): Option<ConsumerAction>
    requires ReceiverEnabled(p, e)
  {
    var phase := p.ring.consumer.phase;
    match e
    case Construct => Some(if phase.AttachingTail? then TakeTail else TakeHead)
    case ReleaseFirst => Some(Release)
    case Attempt => Some(if phase.LoadingHead? then ReloadHead else if phase.ReadingPrefix? then ReadPrefix else BeginPeek)
    case _ => None
  }

  /** Where the program is after an event that left the ring's consumer like this. */
  function ReceiverMoves(setup: Setup, p: Pipe, e: ReceiverEvent, c: Consumer): ReceiverMode
    requires Mapped(p.ring.memory) && ReceiverEnabled(p, e)
  {
    var mode := p.receiver.mode;
    match e
    case Construct => if c.phase.Ready? then Top else Starting
    case LookAtPause(paused) =>
      if !paused then Receiving(ToProcess) else if setup.config.policy == Block then Pausing else Receiving(ToDrop)
    case Stop => Stopping
    case Report => mode
    case ReleaseFirst => if mode.Pausing? then Top else if mode.Receiving? then Trying(mode.purpose) else Over(false)
    case Attempt => AfterAttempt(mode, c)
    case TryAgain => Trying(mode.purpose)
    case NothingCame => (match mode.purpose case ToProcess => Asking case ToDrop => Top case LastLook => Over(true))
    case ReadClock => Reading(mode.purpose, p.clock, [])
    case LoadByte => mode.(copy := mode.copy + [Observed(p.ring.memory, c, |mode.copy|)])
    case Conclude => Top
    case LoadState => Asked(p.sender.finished || c.corrupted)
    case CheckAlive => if mode.finished || !p.sender.alive then Receiving(LastLook) else Top
    case Restart(_) => Starting
  }

  function SessionMoves(setup: Setup, p: Pipe, e: ReceiverEvent): Session
    requires Mapped(p.ring.memory) && ReceiverEnabled(p, e)
  {
    var s := p.receiver.session;
    match e
    case LookAtPause(paused) => Switched(s, setup.config, paused)
    case Report => Reported(s)
    case Conclude =>
      if p.receiver.mode.Peeked? then AfterDropping(s, RingQueue.View(p.ring.memory, p.ring.consumer))
      else AfterProcessing(s, setup.config, p.receiver.mode.copy, p.receiver.mode.now)
    case Restart(tracker) => Begun(tracker)
    case _ => s
  }

  function ReceiverStep(setup: Setup, p: Pipe, e: ReceiverEvent): Pipe
    requires Invariant(p.ring) && ReceiverEnabled(p, e) && |p.ring.memory.queue| <= |p.packets|
    requires var a := ReceiverAction(p, e); a.Some? ==> ConsumerEnabled(p.ring.consumer, a.value)
  {
    var a := ReceiverAction(p, e);
    var ring := if a.Some? then RingQueue.Step(p.ring, RingQueue.Consume(a.value))
                else if e.Restart? then RingQueue.Step(p.ring, RingQueue.Attach) else p.ring;
    p.(ring := ring,
       receiver := Receiver(ReceiverMoves(setup, p, e, ring.consumer), SessionMoves(setup, p, e),
                            if e.Restart? then |p.packets| - |p.ring.memory.queue| else p.receiver.base))
  }

  /** try_peek has returned when the consumer is ready again. */
  function AfterAttempt(mode: ReceiverMode, c: Consumer): ReceiverMode
    requires mode.Trying?
  {
    if !c.phase.Ready? then mode else if c.pending != 0 then Peeked(mode.purpose) else Failed(mode.purpose)
  }

  // ------------------------------------------------------------ the invariant

  ghost predicate Safe(setup: Setup, p: Pipe) {
    Producing(setup, p) && Consuming(setup, p)
  }

  /** The producer's side: the ring, the program's place in it, and the stream committed. */
  ghost predicate Producing(setup: Setup, p: Pipe) {
    && Invariant(p.ring)
    && SenderSafe(setup, p.ring.memory, p.ring.producer, p.sender, p.times, p.clock)
    && StreamSafe(setup, p.packets, p.times, p.clock)
  }

  /** The consumer's side: its program's place, and its session. */
  ghost predicate Consuming(setup: Setup, p: Pipe) {
    && Placed(setup, p) && Timely(p.receiver.mode, |p.ring.memory.queue|, p.times, p.clock)
    && InStep(p.receiver.session, setup.config, p.packets, p.times, p.receiver.base)
  }

  /** The clock of a validation was read after the packet at hand had been made. */
  predicate Timely(mode: ReceiverMode, queued: nat, times: seq<Packet.int64>, clock: Packet.int64) {
    mode.Reading? ==> 0 < queued <= |times| && times[|times| - queued] <= mode.now <= clock
  }

  ghost predicate Placed(setup: Setup, p: Pipe) {
    && QueueHolds(p.ring.memory.queue, p.packets)
    && ReceiverSafe(setup, p.ring.memory.queue, p.ring.consumer, p.receiver, |p.packets|)
    && Quiet(p.sender, p.receiver.mode, p.ring.memory.queue)
  }

  /** Everything committed is the producer's stream, made at non-decreasing times. */
  ghost predicate StreamSafe(setup: Setup, packets: seq<Record>, times: seq<Packet.int64>, clock: Packet.int64) {
    packets == Packets(setup.source, times) && Ordered(times) && forall t :: t in times ==> t <= clock
  }

  /** The ring holds the newest packets. */
  ghost predicate QueueHolds(queue: seq<Record>, packets: seq<Record>) {
    |queue| <= |packets| && queue == packets[|packets| - |queue|..]
  }

  ghost predicate SenderSafe(setup: Setup, m: Memory, p: Producer, s: Sender, times: seq<Packet.int64>, clock: Packet.int64)
    requires MemoryInvariant(m)
  {
    && (s.finished ==> s.mode.Gone?)
    && match s.mode
       case Looping => p.phase.Idle? && p.pending == 0
       case Gone => p.phase.Idle? && p.pending == 0
       case Reserving =>
         && (p.pending == 0 || (p.phase.Idle? && p.pending == PREFIX + setup.size))
         && (!p.phase.Idle? ==> p.phase.size == setup.size)
       case Building(now, left) =>
         && p.phase.Idle? && p.pending == PREFIX + setup.size && now <= clock && (forall t :: t in times ==> t <= now)
         && Assembles(Slot(m, p), left, setup.source(|times|, now))
  }

  /** The consumer program is where the ring's consumer is, and its log reaches up to the record it holds. */
  ghost predicate ReceiverSafe(setup: Setup, queue: seq<Record>, c: Consumer, r: Receiver, committed: nat)
    requires |queue| <= committed
  {
    && r.base + |r.session.log| == committed - |queue| + (if Held(c, r.mode) then 1 else 0)
    && (c.pending != 0 ==> queue != [])
    && (!r.mode.Starting? && !r.mode.Trying? ==> c.phase.Ready?)
    && match r.mode
       case Starting => (c.phase.AttachingTail? || c.phase.AttachingHead?) && c.pending == 0
       case Trying(purpose) =>
         c.pending == 0 && !c.phase.AttachingTail? && !c.phase.AttachingHead? && Meant(setup, r.session, purpose)
       case Failed(purpose) => c.pending == 0 && Meant(setup, r.session, purpose)
       case Peeked(purpose) =>
         c.pending != 0 && queue != [] && c.pending == PREFIX + |queue[0]| && Meant(setup, r.session, purpose)
       case Reading(purpose, _, copy) =>
         && c.pending != 0 && queue != [] && copy <= queue[0] && c.pending == PREFIX + |queue[0]|
         && purpose != ToDrop && Meant(setup, r.session, purpose)
       case Receiving(purpose) => Meant(setup, r.session, purpose)
       case Asking => c.pending == 0 && !r.session.wasPaused
       case Asked(_) => c.pending == 0 && !r.session.wasPaused
       case Over(_) => c.pending == 0
       case _ => true
  }

  /** Records are dropped during pauses of the discarding policy, and processed outside pauses. */
  predicate Meant(setup: Setup, s: Session, purpose: Purpose) {
    s.wasPaused == purpose.ToDrop? && (purpose.ToDrop? ==> setup.config.policy == Discard)
  }

  /** The peeked record has been dealt with and awaits its release. */
  predicate Held(c: Consumer, mode: ReceiverMode) {
    c.pending != 0 && !mode.Peeked? && !mode.Reading?
  }

  /** Once the end of the stream has been noticed, nothing more is committed; an end with nothing left is a drained ring. */
  predicate Quiet(s: Sender, mode: ReceiverMode, queue: seq<Record>) {
    && (mode.Asked? && mode.finished ==> s.finished)
    && (LastLooking(mode) || mode == Over(true) ==> s.finished || !s.alive)
    && (mode == Failed(LastLook) || mode == Over(true) ==> queue == [])
  }

  predicate LastLooking(mode: ReceiverMode) {
    match mode
    case Receiving(purpose) => purpose.LastLook?
    case Trying(purpose) => purpose.LastLook?
    case Failed(purpose) => purpose.LastLook?
    case Peeked(purpose) => purpose.LastLook?
    case Reading(purpose, _, _) => purpose.LastLook?
    case _ => false
  }
}
