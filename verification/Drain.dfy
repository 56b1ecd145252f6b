/** After the end of the stream the consumer's session ends as well, within a number of steps known beforehand. */
module Drain {
  import opened RingProtocol
  import RingQueue
  import opened Pipeline
  import opened PipelineSafety
  import opened Delivery
  import Waiting

  // ------------------------------------------------------------ the bound

  /** One packet costs a step a byte and at most this many besides; a retry within a receive costs at most so many. */
  const ROUND: nat := 22
  const RETRY: nat := 8

  /** What the packets of a queue cost when a receive may retry so many times. */
  function Cost(queue: seq<Record>, patience: nat): nat {
    if queue == [] then 0 else |queue[0]| + ROUND + RETRY * patience + Cost(queue[1..], patience)
  }

  /** The queued records not yet dealt with. */
  function Untaken(queue: seq<Record>, c: Consumer, mode: ReceiverMode): seq<Record> {
    if Held(c, mode) && queue != [] then queue[1..] else queue
  }

  /** The accesses a look for the next record still needs at most. */
  function PeekRank(c: Consumer): nat {
    match c.phase
    case ReadingPrefix(read) => if |read| <= 3 then 7 - |read| else 4
    case LoadingHead => 8
    case _ => 9
  }

  /** The steps the program still makes at most if it finds no further record; `left` retries are left in a receive. */
  function Rank(mode: ReceiverMode, c: Consumer, finished: bool, patience: nat, left: nat): nat {
    var all, rest := RETRY * patience, RETRY * left;
    match mode
    case Over(_) => 0
    case Stopping => 1
    case Reading(_, _, _) => 1
    case Peeked(_) => 2
    case Failed(purpose) => (match purpose case LastLook => 1 case ToProcess => 13 + rest case ToDrop => 23 + all + rest)
    case Trying(purpose) =>
      PeekRank(c) + (match purpose case LastLook => 0 case ToProcess => 11 + rest case ToDrop => 21 + all + rest)
    case Receiving(purpose) =>
      (match purpose case LastLook => 10 case ToProcess => 21 + all case ToDrop => 31 + all + all)
    case Asked(known) => if known || !finished then 11 else 23 + all
    case Asking => 12
    case Top => 22 + all
    case Pausing => 23 + all
    case Starting => (if c.phase.AttachingTail? then 24 else 23) + all
  }

  /** How many steps the consumer has left at most, when each receive retries at most `patience` times. */
  function Remaining(p: Pipe, patience: nat, left: nat): int {
    Cost(Untaken(p.ring.memory.queue, p.ring.consumer, p.receiver.mode), patience)
    - (if p.receiver.mode.Reading? then |p.receiver.mode.copy| else 0)
    + Rank(p.receiver.mode, p.ring.consumer, p.sender.finished, patience, left)
  }

  /** The retries left in the current receive after an event. */
  function Left(patience: nat, left: nat, e: ReceiverEvent): nat {
    if e.ReleaseFirst? then patience else if e.TryAgain? && left > 0 then left - 1 else left
  }

  /** What an event adds to the steps left: a retry too many, a pause, or a restart of the consumer. */
  function Extra(size: nat, patience: nat, left: nat, e: ReceiverEvent): nat {
    if e.TryAgain? then if left > 0 then 0 else RETRY
    else if e == LookAtPause(true) then 10 + RETRY * patience
    else if e.Restart? then size + 47 + 2 * (RETRY * patience)
    else 0
  }

  /** Reports are not counted as steps. */
  function Counted(e: ReceiverEvent): nat {
    if e.Report? then 0 else 1
  }

  predicate Ended(p: Pipe) {
    p.sender.finished || !p.sender.alive
  }

  /** A step that brings the end nearer by itself. */
  predicate Progress(e: ReceiverEvent) {
    !e.Report? && !e.TryAgain? && !e.Restart? && e != LookAtPause(true)
  }

  // ------------------------------------------------------------ each step counts

  lemma RemainingIsNat(setup: Setup, p: Pipe, patience: nat, left: nat)
    requires Placed(setup, p)
    ensures Remaining(p, patience, left) >= 0
  {
  }

  lemma PrivateDescends(setup: Setup, p: Pipe, e: ReceiverEvent, patience: nat, left: nat)
    requires Mapped(p.ring.memory) && Placed(setup, p) && !p.ring.consumer.corrupted && Ended(p)
    requires ReceiverEnabled(p, e) && Private(e) && Progress(e)
    ensures Remaining(PrivatelyMoved(setup, p, e), patience, left) < Remaining(p, patience, left)
  {
  }

  /** Releasing the record just dealt with leaves as much to do. */
  lemma ReleaseKeepsUntaken(r: Ring, mode: ReceiverMode, next: ReceiverMode)
    requires Invariant(r) && r.consumer.phase.Ready? && !mode.Peeked? && !mode.Reading?
    ensures var n := RingQueue.Step(r, RingQueue.Consume(Release));
      Untaken(n.memory.queue, n.consumer, next) == Untaken(r.memory.queue, r.consumer, mode)
      && n.consumer.phase.Ready?
  {
    ReleaseEffect(r);
  }

  lemma ReleaseArrives(setup: Setup, p: Pipe)
    requires Invariant(p.ring) && Placed(setup, p) && ReceiverEnabled(p, ReleaseFirst)
    ensures var n := ReceiverNext(setup, p, ReleaseFirst);
      && n.ring == RingQueue.Step(p.ring, RingQueue.Consume(Release)) && n.sender == p.sender
      && n.receiver.mode == ReceiverMoves(setup, p, ReleaseFirst, n.ring.consumer)
      && p.ring.consumer.phase.Ready?
  {
  }

  lemma ReleaseDescends(setup: Setup, p: Pipe, patience: nat, left: nat)
    requires Invariant(p.ring) && Placed(setup, p) && ReceiverEnabled(p, ReleaseFirst)
    ensures Remaining(ReceiverNext(setup, p, ReleaseFirst), patience, patience) < Remaining(p, patience, left)
  {
    var n := ReceiverNext(setup, p, ReleaseFirst);
    ReleaseArrives(setup, p);
    ReleaseKeepsUntaken(p.ring, p.receiver.mode, n.receiver.mode);
    ReleaseCounts(p, n, patience, left);
  }

  lemma ReleaseCounts(p: Pipe, n: Pipe, patience: nat, left: nat)
    requires n.sender == p.sender && p.ring.consumer.phase.Ready? && n.ring.consumer.phase.Ready?
    requires Untaken(n.ring.memory.queue, n.ring.consumer, n.receiver.mode)
          == Untaken(p.ring.memory.queue, p.ring.consumer, p.receiver.mode)
    requires match p.receiver.mode
             case Pausing => n.receiver.mode == Top
             case Receiving(purpose) => n.receiver.mode == Trying(purpose)
             case Stopping => n.receiver.mode == Over(false)
             case _ => false
    ensures Remaining(n, patience, patience) < Remaining(p, patience, left)
  {
  }

  lemma ConstructDescends(setup: Setup, p: Pipe, patience: nat, left: nat)
    requires Invariant(p.ring) && Placed(setup, p) && ReceiverEnabled(p, Construct)
    ensures Remaining(ReceiverNext(setup, p, Construct), patience, left) < Remaining(p, patience, left)
  {
    ConstructEffect(p.ring, ReceiverAction(p, Construct).value);
  }

  /** An access of try_peek brings its end nearer, and the end finds a record only behind its prefix. */
  lemma AttemptEffect(r: Ring, a: ConsumerAction)
    requires Invariant(r) && ConsumerEnabled(r.consumer, a) && (a == BeginPeek || a == ReloadHead || a == ReadPrefix)
    requires r.consumer.pending == 0
    ensures var n := RingQueue.Step(r, RingQueue.Consume(a));
      && n.memory == r.memory && PeekRank(r.consumer) >= 4
      && (n.consumer.phase.Ready? ==> PeekRank(r.consumer) < 9)
      && (!n.consumer.phase.Ready? ==> PeekRank(n.consumer) < PeekRank(r.consumer) && n.consumer.pending == 0)
  {
    RingQueue.StepSafe(r, RingQueue.Consume(a));
  }

  lemma AttemptArrives(setup: Setup, p: Pipe)
    requires Invariant(p.ring) && Placed(setup, p) && ReceiverEnabled(p, Attempt)
    ensures var n := ReceiverNext(setup, p, Attempt); var a := ReceiverAction(p, Attempt).value;
      && (a == BeginPeek || a == ReloadHead || a == ReadPrefix) && ConsumerEnabled(p.ring.consumer, a)
      && p.ring.consumer.pending == 0
      && n.ring == RingQueue.Step(p.ring, RingQueue.Consume(a)) && n.sender == p.sender
      && n.receiver.mode == AfterAttempt(p.receiver.mode, n.ring.consumer)
  {
    ReceiverIsAllowed(setup, p, Attempt);
  }

  lemma AttemptDescends(setup: Setup, p: Pipe, patience: nat, left: nat)
    requires Invariant(p.ring) && Placed(setup, p) && ReceiverEnabled(p, Attempt)
    ensures Remaining(ReceiverNext(setup, p, Attempt), patience, left) < Remaining(p, patience, left)
  {
    var n := ReceiverNext(setup, p, Attempt);
    AttemptArrives(setup, p);
    AttemptEffect(p.ring, ReceiverAction(p, Attempt).value);
    AttemptCounts(p, n, patience, left);
  }

  lemma AttemptCounts(p: Pipe, n: Pipe, patience: nat, left: nat)
    requires n.sender == p.sender && n.ring.memory == p.ring.memory && p.ring.consumer.pending == 0
    requires p.receiver.mode.Trying? && n.receiver.mode == AfterAttempt(p.receiver.mode, n.ring.consumer)
    requires PeekRank(p.ring.consumer) >= 4 && (n.ring.consumer.phase.Ready? ==> PeekRank(p.ring.consumer) < 9)
    requires !n.ring.consumer.phase.Ready? ==>
               PeekRank(n.ring.consumer) < PeekRank(p.ring.consumer) && n.ring.consumer.pending == 0
    ensures Remaining(n, patience, left) < Remaining(p, patience, left)
  {
  }

  lemma OwnStepDescends(setup: Setup, p: Pipe, e: ReceiverEvent, patience: nat, left: nat)
    requires Safe(setup, p) && Ended(p) && ReceiverEnabled(p, e) && Progress(e)
    ensures Remaining(ReceiverNext(setup, p, e), patience, Left(patience, left, e)) < Remaining(p, patience, left)
  {
    match e
    case Construct => ConstructDescends(setup, p, patience, left);
    case ReleaseFirst => ReleaseDescends(setup, p, patience, left);
    case Attempt => AttemptDescends(setup, p, patience, left);
    case _ =>
      PrivateStep(setup, p, e);
      PrivateDescends(setup, p, e, patience, left);
  }

  /** A retry uses up one of those left, or comes on top. */
  lemma RetryCosts(setup: Setup, p: Pipe, patience: nat, left: nat)
    requires Mapped(p.ring.memory) && Placed(setup, p) && ReceiverEnabled(p, TryAgain)
    ensures Remaining(PrivatelyMoved(setup, p, TryAgain), patience, Left(patience, left, TryAgain)) + 1
         <= Remaining(p, patience, left) + Extra(setup.size, patience, left, TryAgain)
  {
  }

  lemma PauseCosts(setup: Setup, p: Pipe, patience: nat, left: nat)
    requires Mapped(p.ring.memory) && Placed(setup, p) && ReceiverEnabled(p, LookAtPause(true))
    ensures Remaining(PrivatelyMoved(setup, p, LookAtPause(true)), patience, left) + 1
         <= Remaining(p, patience, left) + Extra(setup.size, patience, left, LookAtPause(true))
  {
  }

  lemma ReportIsFree(setup: Setup, p: Pipe, patience: nat, left: nat)
    requires Mapped(p.ring.memory) && Placed(setup, p) && ReceiverEnabled(p, Report)
    ensures Remaining(PrivatelyMoved(setup, p, Report), patience, left) == Remaining(p, patience, left)
  {
  }

  /** A new consumer starts over with the record its predecessor had not handed back. */
  lemma RestartCosts(setup: Setup, p: Pipe, e: ReceiverEvent, patience: nat, left: nat)
    requires setup.Sound() && Safe(setup, p) && e.Restart?
    ensures Remaining(ReceiverNext(setup, p, e), patience, left) + 1
         <= Remaining(p, patience, left) + Extra(setup.size, patience, left, e)
  {
    var queue := p.ring.memory.queue;
    if queue != [] {
      var next := |p.packets| - |queue|;
      assert queue[0] == p.packets[next] == setup.source(next, p.times[next]);
      PacketSize(setup, next, p.times[next]);
    }
    StartsOver(setup, p, e);
    StartCounts(p, ReceiverNext(setup, p, e), setup.size, patience, left);
  }

  lemma StartsOver(setup: Setup, p: Pipe, e: ReceiverEvent)
    requires Invariant(p.ring) && Placed(setup, p) && e.Restart?
    ensures var n := ReceiverNext(setup, p, e);
      && n.ring.memory == p.ring.memory && n.ring.consumer == NEW_CONSUMER && n.receiver.mode == Starting
    ensures p.receiver.mode.Reading? ==> p.ring.memory.queue != [] && |p.receiver.mode.copy| <= |p.ring.memory.queue[0]|
  {
  }

  lemma StartCounts(p: Pipe, n: Pipe, size: nat, patience: nat, left: nat)
    requires n.ring.memory == p.ring.memory && n.ring.consumer == NEW_CONSUMER && n.receiver.mode == Starting
    requires p.ring.memory.queue != [] ==> |p.ring.memory.queue[0]| == size
    requires p.receiver.mode.Reading? ==> p.ring.memory.queue != [] && |p.receiver.mode.copy| <= size
    ensures Remaining(n, patience, left) + 1 <= Remaining(p, patience, left) + size + 47 + 2 * (RETRY * patience)
  {
  }

  /** Every step of the consumer is paid for by what was left or by what it adds. */
  lemma ReceiverPays(setup: Setup, p: Pipe, e: ReceiverEvent, patience: nat, left: nat)
    requires setup.Sound() && Safe(setup, p) && Ended(p) && ReceiverEnabled(p, e)
    ensures Remaining(ReceiverNext(setup, p, e), patience, Left(patience, left, e)) + Counted(e)
         <= Remaining(p, patience, left) + Extra(setup.size, patience, left, e)
  {
    if Progress(e) {
      OwnStepDescends(setup, p, e, patience, left);
    } else if e.Restart? {
      RestartCosts(setup, p, e, patience, left);
    } else {
      PrivateStep(setup, p, e);
      if e.TryAgain? {
        RetryCosts(setup, p, patience, left);
      } else if e.Report? {
        ReportIsFree(setup, p, patience, left);
      } else {
        PauseCosts(setup, p, patience, left);
      }
    }
  }

  // ------------------------------------------------------------ whole runs

  function StepOf(e: Event): nat {
    if e.Receive? then Counted(e.r) else 0
  }

  function LeftOf(patience: nat, left: nat, e: Event): nat {
    if e.Receive? then Left(patience, left, e.r) else left
  }

  function ExtraOf(size: nat, patience: nat, left: nat, e: Event): nat {
    if e.Receive? then Extra(size, patience, left, e.r) else 0
  }

  /** The consumer's steps in a run, whatever they are. */
  function Steps(events: seq<Event>): nat {
    if events == [] then 0 else StepOf(events[0]) + Steps(events[1..])
  }

  function LeftAfter(patience: nat, left: nat, events: seq<Event>): nat
    decreases |events|
  {
    if events == [] then left else LeftAfter(patience, LeftOf(patience, left, events[0]), events[1..])
  }

  /** What retries beyond the patience, pauses and restarts add over a run. */
  function Extras(size: nat, patience: nat, left: nat, events: seq<Event>): nat
    decreases |events|
  {
    if events == [] then 0
    else ExtraOf(size, patience, left, events[0]) + Extras(size, patience, LeftOf(patience, left, events[0]), events[1..])
  }

  /** The session is not on its way out because of a stop. */
  predicate Running(p: Pipe) {
    !p.receiver.mode.Stopping? && p.receiver.mode != Over(false)
  }

  predicate Stops(e: Event) {
    e.Receive? && e.r.Stop?
  }

  lemma SenderKeepsRemaining(setup: Setup, p: Pipe, e: SenderEvent, patience: nat, left: nat)
    requires Producing(setup, p) && SenderEnabled(p, e) && Ended(p)
    ensures Remaining(SenderNext(setup, p, e), patience, left) == Remaining(p, patience, left)
    ensures SenderNext(setup, p, e).receiver == p.receiver
  {
    OthersLeave(setup, p, e);
  }

  lemma KeepsRunning(setup: Setup, p: Pipe, e: ReceiverEvent)
    requires Invariant(p.ring) && Placed(setup, p) && ReceiverEnabled(p, e) && !e.Stop? && Running(p)
    ensures Running(ReceiverNext(setup, p, e))
  {
  }

  lemma EventPays(setup: Setup, p: Pipe, e: Event, patience: nat, left: nat)
    requires setup.Sound() && Safe(setup, p) && Enabled(p, e) && Ended(p)
    ensures Remaining(Next(setup, p, e), patience, LeftOf(patience, left, e)) + StepOf(e)
         <= Remaining(p, patience, left) + ExtraOf(setup.size, patience, left, e)
  {
    match e
    case Send(s) => SenderKeepsRemaining(setup, p, s, patience, left);
    case Receive(r) => ReceiverPays(setup, p, r, patience, left);
  }

  lemma EventKeepsRunning(setup: Setup, p: Pipe, e: Event)
    requires setup.Sound() && Safe(setup, p) && Enabled(p, e) && Ended(p)
    ensures var n := Next(setup, p, e); Ended(n) && (Running(p) && !Stops(e) ==> Running(n))
  {
    EndedStepCommitsNothing(setup, p, e);
    match e
    case Send(s) => SenderKeepsRemaining(setup, p, s, 0, 0);
    case Receive(r) =>
      if Running(p) && !Stops(e) {
        KeepsRunning(setup, p, r);
      }
  }

  lemma {:induction false} RunPays(setup: Setup, p: Pipe, events: seq<Event>, patience: nat, left: nat)
    requires setup.Sound() && Safe(setup, p) && Possible(setup, p, events) && Ended(p)
    ensures Remaining(After(setup, p, events), patience, LeftAfter(patience, left, events)) + Steps(events)
         <= Remaining(p, patience, left) + Extras(setup.size, patience, left, events)
    decreases |events|
  {
    if events != [] {
      var e := events[0];
      EventPays(setup, p, e, patience, left);
      EventKeepsRunning(setup, p, e);
      RunPays(setup, Next(setup, p, e), events[1..], patience, LeftOf(patience, left, e));
    }
  }

  lemma {:induction false} RunKeepsRunning(setup: Setup, p: Pipe, events: seq<Event>)
    requires setup.Sound() && Safe(setup, p) && Possible(setup, p, events) && Ended(p)
    ensures var n := After(setup, p, events);
      Ended(n) && (Running(p) && (forall e :: e in events ==> !Stops(e)) ==> Running(n))
    decreases |events|
  {
    if events != [] {
      EventKeepsRunning(setup, p, events[0]);
      RunKeepsRunning(setup, Next(setup, p, events[0]), events[1..]);
      assert forall e :: e in events[1..] ==> e in events;
    }
  }

  /**
   * Once the producer has finished or died, every run, with any retries, pauses, reports, stops and restarts, makes at
   * most as many of the consumer's steps as remained and were added. One that makes that many, or that the consumer
   * cannot continue, has ended the session; without a stop that is with a drained ring.
   */
  lemma DrainsInTime(setup: Setup, p: Pipe, events: seq<Event>, patience: nat, left: nat)
    requires setup.Sound() && Safe(setup, p) && Possible(setup, p, events) && Ended(p)
    ensures var n := After(setup, p, events);
      var bound := Remaining(p, patience, left) + Extras(setup.size, patience, left, events);
      && Steps(events) <= bound && n.packets == p.packets
      && (Steps(events) == bound || !CanGoOn(n) ==> n.receiver.mode.Over?)
      && (n.receiver.mode.Over? && Running(p) && (forall e :: e in events ==> !Stops(e)) ==>
            n.receiver.mode == Over(true) && Drained(n))
  {
    var n, l := After(setup, p, events), LeftAfter(patience, left, events);
    RunPays(setup, p, events, patience, left);
    RunKeepsRunning(setup, p, events);
    EndedStreamStaysEnded(setup, p, events);
    AtTheEnd(setup, n, patience, l);
  }

  /** The consumer has a step that brings its end nearer. */
  ghost predicate CanGoOn(p: Pipe) {
    exists e :: ReceiverEnabled(p, e) && Progress(e)
  }

  /** With nothing remaining, or no step to make, the session is over; and if not by a stop, then drained. */
  lemma AtTheEnd(setup: Setup, p: Pipe, patience: nat, left: nat)
    requires Safe(setup, p) && Ended(p)
    ensures Remaining(p, patience, left) >= 0
    ensures Remaining(p, patience, left) == 0 || !CanGoOn(p) ==> p.receiver.mode.Over?
    ensures p.receiver.mode.Over? && Running(p) ==> p.receiver.mode == Over(true) && Drained(p)
  {
    RemainingIsNat(setup, p, patience, left);
    if !p.receiver.mode.Over? {
      OwnStepExists(setup, p, patience, left);
    } else if p.receiver.mode == Over(true) {
      OverIsDrained(setup, p);
    }
  }

  lemma OwnStepExists(setup: Setup, p: Pipe, patience: nat, left: nat)
    requires Safe(setup, p) && Ended(p) && !p.receiver.mode.Over?
    ensures CanGoOn(p) && Remaining(p, patience, left) > 0
  {
    ReceiverNeverStuck(setup, p);
    var e := ReceiverChoice(p);
    assert ReceiverEnabled(p, e) && Progress(e);
    OwnStepDescends(setup, p, e, patience, left);
    ReceiverKeepsPlaced(setup, p, e);
    RemainingIsNat(setup, ReceiverNext(setup, p, e), patience, Left(patience, left, e));
  }

  // ------------------------------------------------------------ with the timeouts of the program

  /** No receive retries more often than `patience` allows, and there are no pauses or restarts. */
  predicate Patient(patience: nat, left: nat, events: seq<Event>)
    decreases |events|
  {
    events != [] ==>
      && (events[0].Receive? ==> Undisturbed(events[0].r, left))
      && Patient(patience, LeftOf(patience, left, events[0]), events[1..])
  }

  predicate Undisturbed(e: ReceiverEvent, left: nat) {
    !e.Restart? && e != LookAtPause(true) && (e.TryAgain? ==> left > 0)
  }

  lemma {:induction false} PatienceAddsNothing(size: nat, patience: nat, left: nat, events: seq<Event>)
    requires Patient(patience, left, events)
    ensures Extras(size, patience, left, events) == 0
    decreases |events|
  {
    if events != [] {
      PatienceAddsNothing(size, patience, LeftOf(patience, left, events[0]), events[1..]);
    }
  }

  /**
   * With a receive that retries as often as waiting for its timeout takes at most, a bound known from the queue and the
   * program's place alone.
   */
  lemma DrainsWithinTimeouts(setup: Setup, p: Pipe, events: seq<Event>, timeout: int)
    requires setup.Sound() && Safe(setup, p) && Possible(setup, p, events) && Ended(p)
    requires Patient(Waiting.MostWaits(timeout), Waiting.MostWaits(timeout), events)
    ensures var patience := Waiting.MostWaits(timeout); Steps(events) <= Remaining(p, patience, patience)
  {
    var patience := Waiting.MostWaits(timeout);
    DrainsInTime(setup, p, events, patience, patience);
    PatienceAddsNothing(setup.size, patience, patience, events);
  }

  // ------------------------------------------------------------ such runs exist

  /** The next step of a consumer that retries while it may. */
  function PatientChoice(p: Pipe, left: nat): ReceiverEvent {
    if p.receiver.mode.Failed? && p.receiver.mode.purpose != LastLook && left > 0 then TryAgain else ReceiverChoice(p)
  }

  lemma PatientStep(setup: Setup, p: Pipe, patience: nat, left: nat)
    requires setup.Sound() && Safe(setup, p) && Ended(p) && Running(p) && !p.receiver.mode.Over?
    ensures var e := PatientChoice(p, left);
      && Enabled(p, Receive(e)) && (e.TryAgain? ==> left > 0) && !e.Restart? && e != LookAtPause(true) && !e.Stop?
      && var n := Next(setup, p, Receive(e));
      Ended(n) && Running(n) && Remaining(n, patience, Left(patience, left, e)) < Remaining(p, patience, left)
  {
    ReceiverNeverStuck(setup, p);
    var e := PatientChoice(p, left);
    EndedStepCommitsNothing(setup, p, Receive(e));
    ReceiverPays(setup, p, e, patience, left);
    KeepsRunning(setup, p, e);
  }

  /** The run of the consumer alone in which every receive with a timeout retries so many times. */
  ghost predicate Stubborn(setup: Setup, p: Pipe, patience: nat, left: nat, events: seq<Event>)
    requires setup.Sound() && Safe(setup, p) && Possible(setup, p, events)
    decreases |events|
  {
    events != [] ==>
      && events[0] == Receive(PatientChoice(p, left))
      && Stubborn(setup, Next(setup, p, events[0]), patience, Left(patience, left, events[0].r), events[1..])
  }

  /** However patient its receives are, the consumer alone drains the ring within the bound. */
  lemma {:induction false} DrainExists(setup: Setup, p: Pipe, patience: nat, left: nat) returns (events: seq<Event>)
    requires setup.Sound() && Safe(setup, p) && Ended(p) && Running(p)
    ensures Possible(setup, p, events) && Stubborn(setup, p, patience, left, events)
    ensures |events| <= Remaining(p, patience, left) && forall e :: e in events ==> e.Receive?
    ensures var n := After(setup, p, events); n.receiver.mode == Over(true) && Drained(n)
    decreases Remaining(p, patience, left)
  {
    RemainingIsNat(setup, p, patience, left);
    if p.receiver.mode.Over? {
      OverIsDrained(setup, p);
      events := [];
    } else {
      var e := Receive(PatientChoice(p, left));
      PatientStep(setup, p, patience, left);
      var rest := DrainExists(setup, Next(setup, p, e), patience, Left(patience, left, e.r));
      events := [e] + rest;
      assert events[0] == e && events[1..] == rest;
    }
  }
}
