/**
 * Any number of consumer processes that attach to one ring, leave it and crash at any point: the claim on
 * consumer_pid, step by step, together with the ring itself.
 */
module ConsumerAttach {
  import opened Words
  import opened RingProtocol
  import opened RingSafety
  import opened RingQueue

  type Pid = int

  datatype Phase =
    | Detached
    | Loaded(expected: Pid)         // try_attach, has read consumer_pid
    | Checked(expected: Pid)        // try_attach, found that nobody alive stands behind it
    | Attached(consumer: Consumer)  // owns a RingConsumer

  datatype Process = Process(alive: bool, phase: Phase)

  datatype World = World(memory: Memory, producer: Producer, owner: Pid, processes: map<Pid, Process>)

  datatype Event =
    | Produce(p: ProducerAction)
    | Start(pid: Pid) | Crash(pid: Pid)
    | LoadOwner(pid: Pid) | CheckOwner(pid: Pid) | SwapOwner(pid: Pid)
    | Consume(pid: Pid, a: ConsumerAction)
    | Leave(pid: Pid)

  predicate Alive(w: World, pid: Pid) {
    pid in w.processes && w.processes[pid].alive
  }

  predicate Using(w: World, pid: Pid) {
    Alive(w, pid) && w.processes[pid].phase.Attached?
  }

  /** What may happen next. Process identifiers are positive and not reused; only the living act. */
  predicate Enabled(w: World, e: Event) {
    match e
    case Produce(a) => ProducerEnabled(w.producer, a)
    case Start(pid) => pid > 0 && pid !in w.processes
    case Crash(pid) => Alive(w, pid)
    case LoadOwner(pid) => Alive(w, pid) && w.processes[pid].phase.Detached?
    case CheckOwner(pid) => Alive(w, pid) && w.processes[pid].phase.Loaded?
    case SwapOwner(pid) => Alive(w, pid) && w.processes[pid].phase.Checked?
    case Consume(pid, a) => Using(w, pid) && ConsumerEnabled(w.processes[pid].phase.consumer, a)
    case Leave(pid) => Using(w, pid) && var c := w.processes[pid].phase.consumer; c.phase.Ready? && c.pending == 0
  }

  function Moved(w: World, pid: Pid, phase: Phase): World {
    w.(processes := w.processes[pid := Process(true, phase)])
  }

  function Step(w: World, e: Event): World
    requires Invariant(w) && Enabled(w, e)
  {
    match e
    case Produce(a) => var (m, p) := ProducerStep(w.memory, w.producer, a); w.(memory := m, producer := p)
    case Start(pid) => Moved(w, pid, Detached)
    case Crash(pid) => w.(processes := w.processes[pid := w.processes[pid].(alive := false)])
    case LoadOwner(pid) => Moved(w, pid, Loaded(w.owner))
    case CheckOwner(pid) =>
      var expected := w.processes[pid].phase.expected;
      Moved(w, pid, if expected != 0 && expected != pid && Alive(w, expected) then Detached else Checked(expected))
    case SwapOwner(pid) =>
      if w.owner == w.processes[pid].phase.expected then Moved(w, pid, Attached(NEW_CONSUMER)).(owner := pid)
      else Moved(w, pid, Detached)
    case Consume(pid, a) =>
      var (m, c) := ConsumerStep(w.memory, w.processes[pid].phase.consumer, a);
      Moved(w, pid, Attached(c)).(memory := m)
    case Leave(pid) =>
      Moved(w, pid, Detached).(owner := if w.owner == pid then 0 else w.owner)
  }

  // ------------------------------------------------------------ the invariant

  ghost predicate Invariant(w: World) {
    RingInvariant(w) && ClaimInvariant(w.owner, w.processes)
  }

  /** The ring is sound from the producer's side and from that of every process using it. */
  ghost predicate RingInvariant(w: World) {
    && MemoryInvariant(w.memory) && ProducerInvariant(w.memory, w.producer)
    && forall pid :: Using(w, pid) ==> ConsumerInvariant(w.memory, w.processes[pid].phase.consumer)
  }

  /** Whoever uses the ring has the claim; an owner that is not using it is dead; a checked claim is void. */
  ghost predicate ClaimInvariant(owner: Pid, processes: map<Pid, Process>) {
    && (forall pid :: pid in processes ==> pid > 0)
    && (owner != 0 ==> owner in processes && (processes[owner].alive ==> processes[owner].phase.Attached?))
    && (forall pid :: pid in processes && processes[pid].alive ==>
          && (processes[pid].phase.Attached? ==> owner == pid)
          && (processes[pid].phase.Loaded? ==> Claimant(processes, pid, processes[pid].phase.expected))
          && (processes[pid].phase.Checked? ==> Vacant(processes, pid, processes[pid].phase.expected)))
  }

  /** A value of consumer_pid that a detached process may have seen. */
  predicate Claimant(processes: map<Pid, Process>, pid: Pid, expected: Pid) {
    expected == 0 || (expected in processes && expected != pid)
  }

  predicate Vacant(processes: map<Pid, Process>, pid: Pid, expected: Pid) {
    expected == 0 || (expected in processes && expected != pid && !processes[expected].alive)
  }

  lemma StepKeepsClaim(w: World, e: Event)
    requires Invariant(w) && Enabled(w, e)
    ensures var v := Step(w, e); ClaimInvariant(v.owner, v.processes)
  {
  }

  lemma StepKeepsRing(w: World, e: Event)
    requires Invariant(w) && Enabled(w, e)
    ensures RingInvariant(Step(w, e))
  {
    var v := Step(w, e);
    match e
    case Produce(a) =>
      ProducerStepSafe(w.memory, w.producer, a);
      forall pid | Using(v, pid) ensures ConsumerInvariant(v.memory, v.processes[pid].phase.consumer) {
        assert Using(w, pid);
        ConsumerUndisturbed(w.memory, v.memory, w.processes[pid].phase.consumer);
      }
    case Consume(pid, a) =>
      ConsumerStepSafe(w.memory, w.processes[pid].phase.consumer, a);
      ProducerUndisturbed(w.memory, v.memory, w.producer);
      forall other | Using(v, other) ensures other == pid {
        assert Using(w, other);
      }
    case _ =>
  }

  /** At most one live process uses the ring, and it owns consumer_pid. */
  lemma Exclusive(w: World, p: Pid, q: Pid)
    requires Invariant(w) && Using(w, p) && Using(w, q)
    ensures p == q == w.owner
  {
  }

  lemma StepSafe(w: World, e: Event)
    requires Invariant(w) && Enabled(w, e)
    ensures Invariant(Step(w, e))
  {
    StepKeepsClaim(w, e);
    StepKeepsRing(w, e);
  }

  // ------------------------------------------------------------ the claim

  /** The exchange never takes the ring from a living process. */
  lemma SwapReplacesNobody(w: World, pid: Pid)
    requires Invariant(w) && Enabled(w, SwapOwner(pid))
    ensures var v := Step(w, SwapOwner(pid));
      if w.owner == w.processes[pid].phase.expected
      then Using(v, pid) && v.owner == pid && !Alive(w, w.owner) && forall q :: !Using(w, q)
      else v == Moved(w, pid, Detached)
  {
  }

  /** Leaving always finds the own claim and clears it. */
  lemma LeaveClears(w: World, pid: Pid)
    requires Invariant(w) && Enabled(w, Leave(pid))
    ensures w.owner == pid && Step(w, Leave(pid)).owner == 0
  {
  }

  /** An undisturbed attempt to attach succeeds exactly when no living process uses the ring. */
  lemma AttemptSucceedsIffFree(w: World, pid: Pid)
    requires Invariant(w) && Enabled(w, LoadOwner(pid))
    ensures var loaded := Step(w, LoadOwner(pid));
      Invariant(loaded) && Enabled(loaded, CheckOwner(pid))
      && var checked := Step(loaded, CheckOwner(pid));
      Invariant(checked)
      && if exists q :: Using(w, q) then checked.processes == w.processes[pid := Process(true, Detached)]
         else Enabled(checked, SwapOwner(pid)) && Using(Step(checked, SwapOwner(pid)), pid)
  {
    var loaded := Step(w, LoadOwner(pid));
    StepSafe(w, LoadOwner(pid));
    var checked := Step(loaded, CheckOwner(pid));
    StepSafe(loaded, CheckOwner(pid));
    if q :| Using(w, q) {
      assert w.owner == q && Alive(loaded, q) && q != pid;
      assert checked.processes == w.processes[pid := Process(true, Detached)];
    } else if Alive(w, w.owner) {
      assert Using(w, w.owner);
      assert false;
    }
  }

  // ------------------------------------------------------------ the ring as its one user sees it

  /** The ring with the private variables of whoever uses it; between users, those a new one starts with. */
  function Seen(w: World): Ring {
    Ring(w.memory, w.producer, if Using(w, w.owner) then w.processes[w.owner].phase.consumer else NEW_CONSUMER)
  }

  datatype RingStep = Nothing | One(event: RingQueue.Event)

  /** What an event is to the ring: an access of a side, or the end of the consumer there was. */
  function Means(w: World, e: Event): RingStep
    requires Enabled(w, e)
  {
    match e
    case Produce(a) => One(RingQueue.Produce(a))
    case Consume(_, a) => One(RingQueue.Consume(a))
    case Leave(_) => One(RingQueue.Attach)
    case Crash(pid) => if Using(w, pid) then One(RingQueue.Attach) else Nothing
    case _ => Nothing
  }

  /** All these processes are to the ring one consumer after the other, each starting anew. */
  lemma StepIsRingStep(w: World, e: Event)
    requires Invariant(w) && Enabled(w, e)
    ensures RingProtocol.Invariant(Seen(w))
    ensures match Means(w, e)
            case Nothing => Seen(Step(w, e)) == Seen(w)
            case One(r) => RingQueue.Enabled(Seen(w), r) && Seen(Step(w, e)) == RingQueue.Step(Seen(w), r)
  {
    StepKeepsClaim(w, e);
  }

  // ------------------------------------------------------------ runs

  /** The records a step enqueues. */
  function Enqueues(w: World, e: Event): seq<Record>
    requires Invariant(w)
  {
    if e == Event.Produce(Commit) && w.producer.pending != 0 && w.producer.phase.Idle?
    then [Slot(w.memory, w.producer)] else []
  }

  /** The records a step dequeues: what the process releasing them has been reading. */
  function Dequeues(w: World, e: Event): seq<Record>
    requires Invariant(w) && Enabled(w, e)
  {
    if e.Consume? && e.a == Release && w.processes[e.pid].phase.consumer.pending != 0
    then [View(w.memory, w.processes[e.pid].phase.consumer)]
    else []
  }

  lemma StepRefinesQueue(w: World, e: Event)
    requires Invariant(w) && Enabled(w, e)
    ensures w.memory.queue + Enqueues(w, e) == Dequeues(w, e) + Step(w, e).memory.queue
  {
    if e.Consume? && e.a == Release && w.processes[e.pid].phase.consumer.pending != 0 {
      ViewIsFront(w.memory, w.processes[e.pid].phase.consumer);
    }
  }

  ghost predicate Possible(w: World, events: seq<Event>)
    requires Invariant(w)
    decreases |events|
  {
    events != [] ==> Enabled(w, events[0]) && (StepSafe(w, events[0]); Possible(Step(w, events[0]), events[1..]))
  }

  ghost function Execute(w: World, events: seq<Event>): (result: (seq<Record>, seq<Record>, World))
    requires Invariant(w) && Possible(w, events)
    ensures Invariant(result.2)
    decreases |events|
  {
    if events == [] then ([], [], w)
    else
      StepSafe(w, events[0]);
      var (sent, received, end) := Execute(Step(w, events[0]), events[1..]);
      (Enqueues(w, events[0]) + sent, Dequeues(w, events[0]) + received, end)
  }

  /**
   * However processes come, go and crash: together they receive each record once and in order, each attachment
   * continuing with the oldest record its predecessors have not released.
   */
  lemma {:induction false} RunIsFifo(w: World, events: seq<Event>)
    requires Invariant(w) && Possible(w, events)
    ensures var (sent, received, end) := Execute(w, events);
      w.memory.queue + sent == received + end.memory.queue
    decreases |events|
  {
    if events != [] {
      var e := events[0];
      StepSafe(w, e);
      StepRefinesQueue(w, e);
      var v := Step(w, e);
      RunIsFifo(v, events[1..]);
      var (sent, received, end) := Execute(v, events[1..]);
      QueueLaw(w.memory.queue, Enqueues(w, e), sent, Dequeues(w, e), received, v.memory.queue, end.memory.queue);
    }
  }

  /** A process that has peeked sees the oldest unreleased record, also one that took over from a crashed process. */
  lemma AttachedSeesFront(w: World, pid: Pid)
    requires Invariant(w) && Using(w, pid) && w.processes[pid].phase.consumer.pending != 0
    ensures w.memory.queue != [] && View(w.memory, w.processes[pid].phase.consumer) == w.memory.queue[0]
  {
    ViewIsFront(w.memory, w.processes[pid].phase.consumer);
  }

  /** A new ring, before any consumer. */
  function NewWorld(data: seq<byte>): World {
    World(Created(data), NEW_PRODUCER, 0, map[])
  }

  /** From creation on, in every reachable state: one user at most, its claim standing, and the records in order. */
  lemma EveryRun(data: seq<byte>, events: seq<Event>)
    requires IsCapacity(|data|)
    ensures Invariant(NewWorld(data))
    ensures Possible(NewWorld(data), events) ==>
      var (sent, received, end) := Execute(NewWorld(data), events);
      && received <= sent
      && forall p, q :: Using(end, p) && Using(end, q) ==> p == q == end.owner
  {
    var w := NewWorld(data);
    CreatedSafe(data);
    if Possible(w, events) {
      RunIsFifo(w, events);
      var (sent, received, end) := Execute(w, events);
      assert [] + sent == sent;
      forall p, q | Using(end, p) && Using(end, q) ensures p == q == end.owner {
        Exclusive(end, p, q);
      }
    }
  }
}
