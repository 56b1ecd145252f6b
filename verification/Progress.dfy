/** What the two programs get done when they get to run: packets are sent, processed, and dropped or left alone in a pause. */
module Progress {
  import opened Words
  import opened RingProtocol
  import RingQueue
  import opened ConsumerSession
  import opened Pipeline
  import opened PipelineSafety
  import opened Delivery
  import opened Drain

  lemma RunOfMore(setup: Setup, p: Pipe, e: Event, rest: seq<Event>)
    requires setup.Sound() && Safe(setup, p) && Enabled(p, e) && Possible(setup, Next(setup, p, e), rest)
    ensures Possible(setup, p, [e] + rest) && After(setup, p, [e] + rest) == After(setup, Next(setup, p, e), rest)
  {
    assert ([e] + rest)[1..] == rest;
  }

  /** The events are possible and lead from the one state to the other; no events lead from a safe state to itself. */
  ghost predicate Leads(setup: Setup, p: Pipe, events: seq<Event>, n: Pipe)
    decreases |events|
  {
    && setup.Sound() && Safe(setup, p)
    && if events == [] then n == p
       else Enabled(p, events[0]) && Leads(setup, Next(setup, p, events[0]), events[1..], n)
  }

  lemma LeadsFurther(setup: Setup, p: Pipe, e: Event, rest: seq<Event>, n: Pipe)
    requires Leads(setup, p, [], p) && Enabled(p, e) && Leads(setup, Next(setup, p, e), rest, n)
    ensures Leads(setup, p, [e] + rest, n)
  {
    assert ([e] + rest)[1..] == rest;
  }

  lemma {:induction false} LeadsIsAfter(setup: Setup, p: Pipe, events: seq<Event>, n: Pipe)
    requires Leads(setup, p, events, n)
    ensures Possible(setup, p, events) && After(setup, p, events) == n
    decreases |events|
  {
    if events != [] {
      LeadsIsAfter(setup, Next(setup, p, events[0]), events[1..], n);
    }
  }

  // ------------------------------------------------------------ the consumer deals with the next record

  /** The queued records not yet dealt with. */
  function Waiting(p: Pipe): seq<Record> {
    Untaken(p.ring.memory.queue, p.ring.consumer, p.receiver.mode)
  }

  /** On the way to dealing with the first of them in this manner. */
  ghost predicate Bound(p: Pipe, purpose: Purpose) {
    && Waiting(p) != []
    && match p.receiver.mode
       case Receiving(q) => q == purpose
       case Trying(q) => q == purpose
       case Peeked(q) => q == purpose
       case Reading(q, _, _) => q == purpose
       case _ => false
  }

  /** How many steps that still takes at most. */
  function Way(p: Pipe): int {
    (if Waiting(p) == [] then 0 else |Waiting(p)[0]|)
    + match p.receiver.mode
      case Receiving(_) => 12
      case Trying(_) => 2 + PeekRank(p.ring.consumer)
      case Peeked(_) => 2
      case Reading(_, _, copy) => 1 - |copy|
      case _ => 0
  }

  /** An access of try_peek that ends it, with records in the queue, has found one. */
  lemma AttemptFinds(r: Ring, a: ConsumerAction)
    requires Invariant(r) && ConsumerEnabled(r.consumer, a) && (a == BeginPeek || a == ReloadHead || a == ReadPrefix)
    requires r.consumer.pending == 0 && r.memory.queue != []
    ensures var c := RingQueue.Step(r, RingQueue.Consume(a)).consumer; c.phase.Ready? ==> c.pending != 0
  {
    RingQueue.StepSafe(r, RingQueue.Consume(a));
    if a == ReloadHead {
      RingQueue.PeekAnswers(r.memory, r.consumer);
    }
  }

  /** One more step: nearer to the record, and nothing done yet but the release of the one before. */
  ghost predicate Nearer(p: Pipe, n: Pipe, purpose: Purpose) {
    Bound(n, purpose) && Way(n) < Way(p) && Waiting(n) == Waiting(p) && n.receiver.session == p.receiver.session
  }

  lemma ReleaseNears(setup: Setup, p: Pipe, purpose: Purpose)
    requires Invariant(p.ring) && Placed(setup, p) && Bound(p, purpose) && p.receiver.mode.Receiving?
    ensures Nearer(p, ReceiverNext(setup, p, ReleaseFirst), purpose)
  {
    var n := ReceiverNext(setup, p, ReleaseFirst);
    ReleaseArrives(setup, p);
    ReleaseEffect(p.ring);
    ReleaseKeepsUntaken(p.ring, p.receiver.mode, n.receiver.mode);
    ReceiverLeaves(setup, p, ReleaseFirst);
  }

  lemma AttemptNears(setup: Setup, p: Pipe, purpose: Purpose)
    requires Invariant(p.ring) && Placed(setup, p) && Bound(p, purpose) && p.receiver.mode.Trying?
    ensures Nearer(p, ReceiverNext(setup, p, Attempt), purpose)
  {
    AttemptArrives(setup, p);
    AttemptEffect(p.ring, ReceiverAction(p, Attempt).value);
    AttemptFinds(p.ring, ReceiverAction(p, Attempt).value);
    ReceiverLeaves(setup, p, Attempt);
  }

  lemma PrivateNears(setup: Setup, p: Pipe, purpose: Purpose, e: ReceiverEvent)
    requires Mapped(p.ring.memory) && Placed(setup, p) && Bound(p, purpose) && ReceiverEnabled(p, e)
    requires e == ReadClock || e == LoadByte
    ensures Nearer(p, PrivatelyMoved(setup, p, e), purpose)
  {
  }

  /** What has become of the record: it is in the log, and held until its release. */
  ghost predicate DealtWith(s: Session, n: Pipe, record: Record, purpose: Purpose) {
    var t := n.receiver.session;
    && n.receiver.mode.Top? && Held(n.ring.consumer, Top)
    && |t.log| == |s.log| + 1 && t.log[..|s.log|] == s.log
    && (if purpose == ToDrop then t.log[|s.log|] == Discarded(record, true)
        else t.log[|s.log|].Processed? && t.log[|s.log|].record == record && t.log[|s.log|].result.Clean())
    && t.stats.totals.dropped == s.stats.totals.dropped + (if purpose == ToDrop then 1 else 0)
    && t.stats.totals.received == s.stats.totals.received + (if purpose == ToDrop then 0 else 1)
  }

  ghost predicate Took(p: Pipe, n: Pipe, purpose: Purpose)
    requires Waiting(p) != []
  {
    DealtWith(p.receiver.session, n, Waiting(p)[0], purpose) && n.ring.memory.queue == Waiting(p)
  }

  lemma ConcludeDeals(setup: Setup, p: Pipe, purpose: Purpose)
    requires setup.Sound() && Safe(setup, p) && Bound(p, purpose) && ReceiverEnabled(p, Conclude)
    ensures var n := Next(setup, p, Receive(Conclude));
      Took(p, n, purpose)
  {
    var s := p.receiver.session;
    PrivateStep(setup, p, Conclude);
    var n := Next(setup, p, Receive(Conclude));
    if purpose == ToDrop {
      RingQueue.ViewIsFront(p.ring.memory, p.ring.consumer);
    }
    assert n.receiver.session.log[|s.log|] in n.receiver.session.log;
  }

  lemma StepNears(setup: Setup, p: Pipe, purpose: Purpose)
    requires Leads(setup, p, [], p) && Bound(p, purpose)
    ensures Enabled(p, Receive(ReceiverChoice(p))) && Way(p) > 0 && Alone(Receive(ReceiverChoice(p)))
    ensures var n := Next(setup, p, Receive(ReceiverChoice(p)));
      if ReceiverChoice(p).Conclude? then Took(p, n, purpose) else Nearer(p, n, purpose)
  {
    ReceiverNeverStuck(setup, p);
    var e := ReceiverChoice(p);
    match e
    case ReleaseFirst => ReleaseNears(setup, p, purpose);
    case Attempt => AttemptNears(setup, p, purpose);
    case Conclude => ConcludeDeals(setup, p, purpose);
    case _ =>
      PrivateStep(setup, p, e);
      PrivateNears(setup, p, purpose, e);
  }

  /** A step of the consumer program that takes no luck and no decision. */
  predicate Alone(e: Event) {
    e.Receive? && (e.r.ReleaseFirst? || e.r.Attempt? || e.r.ReadClock? || e.r.LoadByte? || e.r.Conclude? || e.r.NothingCame?)
  }

  lemma StillTook(p: Pipe, n: Pipe, end: Pipe, purpose: Purpose)
    requires Waiting(p) != [] && Nearer(p, n, purpose) && Took(n, end, purpose)
    ensures Took(p, end, purpose)
  {
  }

  lemma {:induction false} Deals(setup: Setup, p: Pipe, purpose: Purpose) returns (events: seq<Event>, end: Pipe)
    requires Leads(setup, p, [], p) && Bound(p, purpose)
    ensures Leads(setup, p, events, end) && Took(p, end, purpose)
    ensures |events| <= Way(p) && forall e :: e in events ==> Alone(e)
    decreases Way(p)
  {
    StepNears(setup, p, purpose);
    var e := Receive(ReceiverChoice(p));
    end := Next(setup, p, e);
    events := [];
    if !e.r.Conclude? {
      var n := end;
      events, end := Deals(setup, n, purpose);
      StillTook(p, n, end, purpose);
    }
    LeadsFurther(setup, p, e, events, end);
    events := [e] + events;
  }

  lemma WaitingFits(setup: Setup, p: Pipe)
    requires setup.Sound() && Safe(setup, p) && Waiting(p) != []
    ensures |Waiting(p)[0]| == setup.size
  {
    var queue := p.ring.memory.queue;
    var i := if Held(p.ring.consumer, p.receiver.mode) then 1 else 0;
    var k := |p.packets| - |queue| + i;
    assert Waiting(p)[0] == queue[i] == p.packets[k] == setup.source(k, p.times[k]);
    PacketSize(setup, k, p.times[k]);
  }

  /** Looking at the pause flag does nothing to the log, the totals and the records waiting. */
  lemma LookLeaves(setup: Setup, p: Pipe, paused: bool)
    requires Mapped(p.ring.memory) && ReceiverEnabled(p, LookAtPause(paused))
    ensures var n := PrivatelyMoved(setup, p, LookAtPause(paused)); var s, t := p.receiver.session, n.receiver.session;
      && t.log == s.log && t.stats == s.stats && t.wasPaused == paused
      && n.ring == p.ring && Waiting(n) == Waiting(p)
      && n.receiver.mode == if !paused then Receiving(ToProcess) else if setup.config.policy == Block then Pausing
                            else Receiving(ToDrop)
  {
  }

  function Aim(paused: bool): Purpose {
    if paused then ToDrop else ToProcess
  }

  lemma LookBegins(setup: Setup, p: Pipe, paused: bool)
    requires Leads(setup, p, [], p) && p.receiver.mode.Top? && Waiting(p) != []
    requires paused ==> setup.config.policy == Discard
    ensures var n := Next(setup, p, Receive(LookAtPause(paused)));
      && Bound(n, Aim(paused)) && Way(n) == setup.size + 12 && Waiting(n) == Waiting(p)
      && n.receiver.session.log == p.receiver.session.log && n.receiver.session.stats == p.receiver.session.stats
  {
    PrivateStep(setup, p, LookAtPause(paused));
    LookLeaves(setup, p, paused);
    WaitingFits(setup, p);
  }

  /**
   * With a record waiting, the consumer alone processes it, or drops it if the policy discards and a pause is on; the
   * record is then in the log and counted, and the one before it has been handed back.
   */
  lemma TakesNext(setup: Setup, p: Pipe, paused: bool) returns (rest: seq<Event>)
    requires setup.Sound() && Safe(setup, p) && p.receiver.mode.Top? && Waiting(p) != []
    requires paused ==> setup.config.policy == Discard
    ensures |rest| <= setup.size + 12 && forall e :: e in rest ==> Alone(e)
    ensures var events := [Receive(LookAtPause(paused))] + rest;
      Possible(setup, p, events) && Took(p, After(setup, p, events), Aim(paused))
  {
    LookBegins(setup, p, paused);
    ghost var end;
    rest, end := Deals(setup, Next(setup, p, Receive(LookAtPause(paused))), Aim(paused));
    LeadsFurther(setup, p, Receive(LookAtPause(paused)), rest, end);
    LeadsIsAfter(setup, p, [Receive(LookAtPause(paused))] + rest, end);
  }

  // ------------------------------------------------------------ a whole pause under the discarding policy

  /** In a pause, somewhere between looking at the flag and being back. */
  ghost predicate Discarding(setup: Setup, p: Pipe) {
    && setup.config.policy == Discard
    && match p.receiver.mode
       case Top => true
       case Receiving(q) => q == ToDrop
       case Trying(q) => q == ToDrop
       case Peeked(q) => q == ToDrop
       case Failed(q) => q == ToDrop && Waiting(p) == []
       case _ => false
  }

  /** How far it is to the next record waiting, or with none to the top of the loop with an empty ring. */
  function Distance(p: Pipe): nat {
    if p.receiver.mode.Top? then (if p.ring.memory.queue == [] then 0 else 13 + FrontSize(p))
    else if p.receiver.mode.Failed? then 1
    else if Way(p) < 0 then 0 else Way(p)
  }

  function FrontSize(p: Pipe): nat {
    if Waiting(p) == [] then 0 else |Waiting(p)[0]|
  }

  function Drops(records: seq<Record>): (r: seq<Fate>)
    ensures |r| == |records|
  {
    seq(|records|, i requires 0 <= i < |records| => Discarded(records[i], true))
  }

  /** One step of the pause, which drops the first record waiting or none. */
  ghost predicate Advanced(setup: Setup, p: Pipe, n: Pipe, dropped: bool) {
    var s, t := p.receiver.session, n.receiver.session;
    && Discarding(setup, n) && (dropped ==> Waiting(p) != [])
    && Waiting(n) == (if dropped then Waiting(p)[1..] else Waiting(p)) && (!dropped ==> Distance(n) < Distance(p))
    && t.log == s.log + (if dropped then [Discarded(Waiting(p)[0], true)] else [])
    && t.stats.totals.dropped == s.stats.totals.dropped + (if dropped then 1 else 0)
  }

  function PauseChoice(p: Pipe): ReceiverEvent {
    if p.receiver.mode.Top? then LookAtPause(true) else ReceiverChoice(p)
  }

  /** With nothing waiting, an access of try_peek leads to nothing. */
  lemma AttemptMisses(setup: Setup, p: Pipe)
    requires Invariant(p.ring) && Placed(setup, p) && Discarding(setup, p) && Waiting(p) == [] && p.receiver.mode.Trying?
    ensures Advanced(setup, p, ReceiverNext(setup, p, Attempt), false)
  {
    AttemptArrives(setup, p);
    AttemptEffect(p.ring, ReceiverAction(p, Attempt).value);
    ReceiverKeepsPlaced(setup, p, Attempt);
    ReceiverLeaves(setup, p, Attempt);
  }

  lemma ReleaseMisses(setup: Setup, p: Pipe)
    requires Invariant(p.ring) && Placed(setup, p) && Discarding(setup, p) && Waiting(p) == [] && p.receiver.mode.Receiving?
    ensures Advanced(setup, p, ReceiverNext(setup, p, ReleaseFirst), false)
  {
    var n := ReceiverNext(setup, p, ReleaseFirst);
    ReleaseArrives(setup, p);
    ReleaseEffect(p.ring);
    ReleaseKeepsUntaken(p.ring, p.receiver.mode, n.receiver.mode);
    ReceiverLeaves(setup, p, ReleaseFirst);
  }

  lemma NothingCameMisses(setup: Setup, p: Pipe)
    requires Mapped(p.ring.memory) && Placed(setup, p) && Discarding(setup, p) && p.receiver.mode.Failed? && Waiting(p) == []
    ensures Advanced(setup, p, PrivatelyMoved(setup, p, NothingCame), false)
  {
  }

  lemma LookAdvances(setup: Setup, p: Pipe)
    requires Mapped(p.ring.memory) && Placed(setup, p) && Discarding(setup, p)
    requires p.receiver.mode.Top? && p.ring.memory.queue != []
    ensures Advanced(setup, p, PrivatelyMoved(setup, p, LookAtPause(true)), false)
  {
    LookLeaves(setup, p, true);
  }

  lemma MissAdvances(setup: Setup, p: Pipe)
    requires Invariant(p.ring) && Placed(setup, p) && Discarding(setup, p) && !p.receiver.mode.Top? && Waiting(p) == []
    ensures ReceiverEnabled(p, ReceiverChoice(p)) && Advanced(setup, p, ReceiverNext(setup, p, ReceiverChoice(p)), false)
  {
    match p.receiver.mode
    case Receiving(_) => ReleaseMisses(setup, p);
    case Trying(_) => AttemptMisses(setup, p);
    case _ =>
      PrivateStep(setup, p, NothingCame);
      NothingCameMisses(setup, p);
  }

  lemma NearerAdvances(setup: Setup, p: Pipe, n: Pipe)
    requires setup.config.policy == Discard && Waiting(p) != [] && Nearer(p, n, ToDrop) && Bound(p, ToDrop)
    requires !p.receiver.mode.Reading? && !n.receiver.mode.Reading?
    ensures Advanced(setup, p, n, false)
  {
  }

  lemma TookAdvances(setup: Setup, p: Pipe, n: Pipe)
    requires setup.config.policy == Discard && Waiting(p) != [] && Took(p, n, ToDrop)
    ensures Advanced(setup, p, n, true)
  {
    var s, t := p.receiver.session, n.receiver.session;
    assert t.log == s.log + [Discarded(Waiting(p)[0], true)];
  }

  lemma TakeAdvances(setup: Setup, p: Pipe)
    requires Leads(setup, p, [], p) && Discarding(setup, p) && !p.receiver.mode.Top? && Waiting(p) != []
    ensures ReceiverEnabled(p, ReceiverChoice(p))
    ensures Advanced(setup, p, ReceiverNext(setup, p, ReceiverChoice(p)), ReceiverChoice(p).Conclude?)
  {
    StepNears(setup, p, ToDrop);
    if ReceiverChoice(p).Conclude? {
      TookAdvances(setup, p, ReceiverNext(setup, p, ReceiverChoice(p)));
    } else {
      ReceiverKeepsPlaced(setup, p, ReceiverChoice(p));
      NearerAdvances(setup, p, ReceiverNext(setup, p, ReceiverChoice(p)));
    }
  }

  lemma PauseAdvances(setup: Setup, p: Pipe)
    requires Leads(setup, p, [], p) && Discarding(setup, p) && (p.receiver.mode.Top? ==> p.ring.memory.queue != [])
    ensures ReceiverEnabled(p, PauseChoice(p))
    ensures Advanced(setup, p, ReceiverNext(setup, p, PauseChoice(p)), PauseChoice(p).Conclude?)
  {
    if p.receiver.mode.Top? {
      PrivateStep(setup, p, LookAtPause(true));
      LookAdvances(setup, p);
    } else if Waiting(p) == [] {
      MissAdvances(setup, p);
    } else {
      TakeAdvances(setup, p);
    }
  }

  lemma {:induction false} Empties(setup: Setup, p: Pipe) returns (events: seq<Event>, end: Pipe)
    requires Leads(setup, p, [], p) && Discarding(setup, p)
    ensures Leads(setup, p, events, end) && forall e :: e in events ==> e == Receive(LookAtPause(true)) || Alone(e)
    ensures end.receiver.mode.Top? && end.ring.memory.queue == [] && Discards(p, end, Waiting(p))
    decreases |Waiting(p)|, Distance(p)
  {
    if p.receiver.mode.Top? && p.ring.memory.queue == [] {
      events, end := [], p;
      assert p.receiver.session.log + Drops([]) == p.receiver.session.log;
    } else {
      var e := PauseChoice(p);
      PauseAdvances(setup, p);
      var n := Next(setup, p, Receive(e));
      events, end := Empties(setup, n);
      LeadsFurther(setup, p, Receive(e), events, end);
      events := [Receive(e)] + events;
      DiscardsAdd(p, n, end, e.Conclude?, Waiting(p));
    }
  }

  /** In a pause of the discarding policy the consumer alone drops whatever waits, in order, and leaves an empty ring. */
  lemma PauseEmpties(setup: Setup, p: Pipe) returns (events: seq<Event>)
    requires setup.Sound() && Safe(setup, p) && Discarding(setup, p)
    ensures Possible(setup, p, events) && forall e :: e in events ==> e == Receive(LookAtPause(true)) || Alone(e)
    ensures var n := After(setup, p, events);
      n.receiver.mode.Top? && n.ring.memory.queue == [] && Discards(p, n, Waiting(p))
  {
    ghost var end;
    events, end := Empties(setup, p);
    LeadsIsAfter(setup, p, events, end);
  }

  /** All of these, and only these, have been dropped. */
  ghost predicate Discards(p: Pipe, n: Pipe, records: seq<Record>) {
    var s, t := p.receiver.session, n.receiver.session;
    t.log == s.log + Drops(records) && t.stats.totals.dropped == s.stats.totals.dropped + |records|
  }

  lemma DiscardsAdd(p: Pipe, n: Pipe, end: Pipe, dropped: bool, records: seq<Record>)
    requires dropped ==> records != []
    requires Discards(n, end, if dropped then records[1..] else records)
    requires n.receiver.session.log == p.receiver.session.log + (if dropped then [Discarded(records[0], true)] else [])
    requires n.receiver.session.stats.totals.dropped == p.receiver.session.stats.totals.dropped + (if dropped then 1 else 0)
    ensures Discards(p, end, records)
  {
    if dropped {
      assert Drops(records) == [Discarded(records[0], true)] + Drops(records[1..]);
    }
  }

  // ------------------------------------------------------------ a whole pause under the blocking policy

  /** What a consumer that waits for the end of a pause, or stops, may be doing. */
  predicate Blocked(mode: ReceiverMode) {
    mode.Top? || mode.Pausing? || mode.Stopping? || mode == Over(false)
  }

  /** Nothing taken, and nothing handed back but what had been dealt with. */
  ghost predicate LeftAlone(p: Pipe, n: Pipe) {
    n.receiver.session.log == p.receiver.session.log && Waiting(p) <= Waiting(n)
  }

  predicate EndsPause(e: Event) {
    e == Receive(LookAtPause(false)) || (e.Receive? && e.r.Restart?)
  }

  lemma BlockedStep(setup: Setup, p: Pipe, e: ReceiverEvent)
    requires Invariant(p.ring) && Placed(setup, p) && ReceiverEnabled(p, e)
    requires setup.config.policy == Block && Blocked(p.receiver.mode) && !EndsPause(Receive(e))
    ensures var n := ReceiverNext(setup, p, e); Blocked(n.receiver.mode) && LeftAlone(p, n)
  {
    if e.ReleaseFirst? {
      ReleaseArrives(setup, p);
      ReleaseKeepsUntaken(p.ring, p.receiver.mode, ReceiverNext(setup, p, e).receiver.mode);
      ReceiverLeaves(setup, p, e);
    } else {
      PrivateStep(setup, p, e);
    }
  }

  lemma SenderLeavesWaiting(setup: Setup, p: Pipe, e: SenderEvent)
    requires Producing(setup, p) && Placed(setup, p) && SenderEnabled(p, e)
    ensures var n := SenderNext(setup, p, e); n.receiver == p.receiver && LeftAlone(p, n)
  {
    if e.CommitPacket? {
      CommitLeaves(setup, p);
    } else {
      OthersLeave(setup, p, e);
    }
  }

  lemma BlockedEvent(setup: Setup, p: Pipe, e: Event)
    requires setup.Sound() && Safe(setup, p) && Enabled(p, e)
    requires setup.config.policy == Block && Blocked(p.receiver.mode) && !EndsPause(e)
    ensures var n := Next(setup, p, e); Blocked(n.receiver.mode) && LeftAlone(p, n)
  {
    match e
    case Send(s) => SenderLeavesWaiting(setup, p, s);
    case Receive(r) => BlockedStep(setup, p, r);
  }

  lemma StillAlone(p: Pipe, n: Pipe, end: Pipe)
    requires LeftAlone(p, n) && LeftAlone(n, end)
    ensures LeftAlone(p, end)
  {
  }

  /**
   * In a pause of the blocking policy, over every run up to the look that finds it ended or a restart, nothing is taken:
   * the log stays, and what waited goes on waiting, with new packets behind it.
   */
  lemma {:induction false} BlockedTakesNothing(setup: Setup, p: Pipe, events: seq<Event>)
    requires setup.Sound() && Safe(setup, p) && Possible(setup, p, events)
    requires setup.config.policy == Block && Blocked(p.receiver.mode)
    requires forall e :: e in events ==> !EndsPause(e)
    ensures LeftAlone(p, After(setup, p, events))
    decreases |events|
  {
    if events != [] {
      var n := Next(setup, p, events[0]);
      BlockedEvent(setup, p, events[0]);
      BlockedTakesNothing(setup, n, events[1..]);
      StillAlone(p, n, After(setup, n, events[1..]));
    }
  }

  /** The look that finds the pause is followed by handing back the record dealt with last, and by the next look. */
  lemma BlockedHandsBack(setup: Setup, p: Pipe)
    requires Invariant(p.ring) && Placed(setup, p) && setup.config.policy == Block
    ensures p.receiver.mode.Top? ==> ReceiverNext(setup, p, LookAtPause(true)).receiver.mode == Pausing
    ensures p.receiver.mode.Pausing? ==>
      var n := ReceiverNext(setup, p, ReleaseFirst); n.receiver.mode == Top && n.ring.memory.queue == Waiting(p)
  {
    if p.receiver.mode.Top? {
      PrivateStep(setup, p, LookAtPause(true));
    } else if p.receiver.mode.Pausing? {
      ReleaseArrives(setup, p);
      ReleaseEffect(p.ring);
    }
  }

  // ------------------------------------------------------------ the producer sends the next packet

  /** The ring has room for one more record. */
  predicate HasRoom(setup: Setup, p: Pipe) {
    |Stream(p.ring.memory.queue)| + PREFIX + setup.size <= p.ring.memory.capacity && setup.size < TWO_32
  }

  /** Inside reserve, or assembling a packet made at this time. */
  predicate Sending(p: Pipe, now: Packet.int64) {
    && p.sender.alive
    && match p.sender.mode
       case Reserving => p.clock == now && (p.ring.producer.phase.Idle? ==> p.ring.producer.pending != 0)
       case Building(made, _) => made == now
       case _ => false
  }

  /** How many steps the packet still takes. */
  function Toil(setup: Setup, p: Pipe): nat {
    match p.sender.mode
    case Building(_, left) => |left| + 1
    case _ =>
      |setup.stores(|p.times|, p.clock)| + 2
      + match p.ring.producer.phase
        case LoadingTail(_) => 5
        case WritingPrefix(_, at) => if at < 4 then 4 - at else 0
        case _ => 0
  }

  /** One more step: nearer to the commit, and nothing visible done yet. */
  ghost predicate Approaches(setup: Setup, p: Pipe, n: Pipe, now: Packet.int64) {
    && Sending(n, now) && Toil(setup, n) < Toil(setup, p)
    && n.ring.memory.queue == p.ring.memory.queue && n.ring.memory.capacity == p.ring.memory.capacity
    && n.packets == p.packets && n.times == p.times && n.clock == p.clock && n.receiver == p.receiver
  }

  lemma AdvanceApproaches(setup: Setup, p: Pipe, now: Packet.int64)
    requires Producing(setup, p) && Sending(p, now) && HasRoom(setup, p) && SenderEnabled(p, Advance)
    ensures Approaches(setup, p, SenderNext(setup, p, Advance), now)
  {
    OthersLeave(setup, p, Advance);
    if p.ring.producer.phase.LoadingTail? {
      RingQueue.ReserveAnswers(p.ring.memory, p.ring.producer, setup.size);
    }
  }

  lemma BuildApproaches(setup: Setup, p: Pipe, now: Packet.int64, e: SenderEvent)
    requires Producing(setup, p) && Sending(p, now) && SenderEnabled(p, e) && (e.Build? || e.StoreNext?)
    ensures Approaches(setup, p, SenderNext(setup, p, e), now)
  {
    OthersLeave(setup, p, e);
  }

  /** The next packet of the source is behind all others, in the stream and in the ring. */
  ghost predicate Published(setup: Setup, p: Pipe, n: Pipe, now: Packet.int64) {
    var packet := setup.source(|p.times|, now);
    && n.sender.mode.Looping? && n.packets == p.packets + [packet] && n.times == p.times + [now]
    && n.ring.memory.queue == p.ring.memory.queue + [packet] && n.receiver == p.receiver
  }

  lemma CommitPublishes(setup: Setup, p: Pipe, now: Packet.int64)
    requires Producing(setup, p) && Sending(p, now) && SenderEnabled(p, CommitPacket)
    ensures Published(setup, p, SenderNext(setup, p, CommitPacket), now)
  {
    CommitLeaves(setup, p);
  }

  /** A step of the producer program. */
  predicate Working(e: Event) {
    e.Send? && (e.s.Reserve? || e.s.Advance? || e.s.Build? || e.s.StoreNext? || e.s.CommitPacket?)
  }

  lemma SendingStep(setup: Setup, p: Pipe, now: Packet.int64)
    requires Producing(setup, p) && Sending(p, now) && HasRoom(setup, p)
    ensures var e := SenderChoice(p); SenderEnabled(p, e) && Working(Send(e)) && Toil(setup, p) > 0
    ensures var e := SenderChoice(p); var n := SenderNext(setup, p, e);
      if e.CommitPacket? then Published(setup, p, n, now) else Approaches(setup, p, n, now)
  {
    SenderNeverStuck(setup, p);
    var e := SenderChoice(p);
    match e
    case Advance => AdvanceApproaches(setup, p, now);
    case CommitPacket => CommitPublishes(setup, p, now);
    case _ => BuildApproaches(setup, p, now, e);
  }

  lemma SendingNext(setup: Setup, p: Pipe, now: Packet.int64)
    requires Leads(setup, p, [], p) && Sending(p, now) && HasRoom(setup, p)
    ensures Enabled(p, Send(SenderChoice(p))) && Working(Send(SenderChoice(p))) && Toil(setup, p) > 0
    ensures var n := Next(setup, p, Send(SenderChoice(p)));
      if SenderChoice(p).CommitPacket? then Published(setup, p, n, now) else Approaches(setup, p, n, now) && HasRoom(setup, n)
  {
    SendingStep(setup, p, now);
  }

  lemma StillPublished(setup: Setup, p: Pipe, n: Pipe, end: Pipe, now: Packet.int64)
    requires Approaches(setup, p, n, now) && Published(setup, n, end, now)
    ensures Published(setup, p, end, now)
  {
  }

  lemma {:induction false} Sends(setup: Setup, p: Pipe, now: Packet.int64) returns (events: seq<Event>, end: Pipe)
    requires Leads(setup, p, [], p) && Sending(p, now) && HasRoom(setup, p)
    ensures Leads(setup, p, events, end) && Published(setup, p, end, now)
    ensures |events| <= Toil(setup, p) && forall e :: e in events ==> Working(e)
    decreases Toil(setup, p)
  {
    SendingNext(setup, p, now);
    var e := Send(SenderChoice(p));
    end := Next(setup, p, e);
    events := [];
    if !e.s.CommitPacket? {
      var n := end;
      events, end := Sends(setup, n, now);
      StillPublished(setup, p, n, end, now);
    }
    LeadsFurther(setup, p, e, events, end);
    events := [e] + events;
  }

  lemma ReserveBegins(setup: Setup, p: Pipe)
    requires Producing(setup, p) && SenderEnabled(p, Reserve) && HasRoom(setup, p)
    ensures var n := SenderNext(setup, p, Reserve);
      && Sending(n, p.clock) && Toil(setup, n) <= |setup.stores(|p.times|, p.clock)| + 7
      && n.ring.memory == p.ring.memory && n.packets == p.packets && n.times == p.times && n.receiver == p.receiver
  {
    RingQueue.LargestRecord(p.ring.memory.capacity, setup.size);
    RingQueue.ReserveAnswers(p.ring.memory, p.ring.producer, setup.size);
  }

  /** With room for it in the ring, the producer alone makes, stores and commits the next packet of its source. */
  lemma SendsNext(setup: Setup, p: Pipe) returns (events: seq<Event>)
    requires setup.Sound() && Safe(setup, p) && p.sender.mode.Looping? && p.sender.alive && HasRoom(setup, p)
    ensures Possible(setup, p, events) && forall e :: e in events ==> Working(e)
    ensures |events| <= |setup.stores(|p.times|, p.clock)| + 8
    ensures Published(setup, p, After(setup, p, events), p.clock)
  {
    ReserveBegins(setup, p);
    var rest, end := Sends(setup, Next(setup, p, Send(Reserve)), p.clock);
    LeadsFurther(setup, p, Send(Reserve), rest, end);
    events := [Send(Reserve)] + rest;
    LeadsIsAfter(setup, p, events, end);
  }

  // ------------------------------------------------------------ the stream ends

  /** Whenever the producer finishes or dies, the consumer alone can take all that is left and end the session. */
  lemma EndIsReached(setup: Setup, p: Pipe, end: SenderEvent, patience: nat) returns (rest: seq<Event>)
    requires setup.Sound() && Safe(setup, p) && SenderEnabled(p, end) && (end.Finish? || end.Die?) && Running(p)
    ensures Possible(setup, p, [Send(end)] + rest)
    ensures var n := After(setup, p, [Send(end)] + rest);
      n.receiver.mode == Over(true) && Drained(n) && n.packets == p.packets
    ensures |rest| <= Remaining(SenderNext(setup, p, end), patience, patience) && forall e :: e in rest ==> e.Receive?
  {
    var n := Next(setup, p, Send(end));
    OthersLeave(setup, p, end);
    rest := DrainExists(setup, n, patience, patience);
    EndedStreamStaysEnded(setup, n, rest);
    RunOfMore(setup, p, Send(end), rest);
  }
}
