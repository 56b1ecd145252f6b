/** What successive sessions make of one stream when consumers leave or crash and others take over. */
module Restarts {
  import opened RingProtocol
  import opened PacketStream
  import opened Pipeline
  import opened PipelineSafety
  import opened Delivery
  import opened ConsumerSession
  import opened ConsumerStats
  import opened SessionStory

  /** A new session begins behind what was taken, or with the record that had been dealt with but not handed back. */
  lemma RestartContinues(setup: Setup, p: Pipe, e: ReceiverEvent)
    requires Invariant(p.ring) && Placed(setup, p) && e.Restart?
    ensures var n := ReceiverNext(setup, p, e);
      n.receiver.base == p.receiver.base + |p.receiver.session.log| - Repeated(p) && n.receiver.session.log == []
  {
  }

  /** Whether a restart now would repeat a record. */
  function Repeated(p: Pipe): nat {
    if Held(p.ring.consumer, p.receiver.mode) then 1 else 0
  }

  predicate Restarting(e: Event) {
    e.Receive? && e.r.Restart?
  }

  // ------------------------------------------------------------ the sessions of a run

  /** The sessions that a run ends by restarts, and the one it leaves, as they were in the end. */
  ghost function Sessions(setup: Setup, p: Pipe, events: seq<Event>): seq<Receiver>
    requires setup.Sound() && Safe(setup, p) && Possible(setup, p, events)
    decreases |events|
  {
    if events == [] then [p.receiver]
    else (if Restarting(events[0]) then [p.receiver] else []) + Sessions(setup, Next(setup, p, events[0]), events[1..])
  }

  /** How many records the restarts of a run repeat; at most one each. */
  ghost function Repeats(setup: Setup, p: Pipe, events: seq<Event>): nat
    requires setup.Sound() && Safe(setup, p) && Possible(setup, p, events)
    decreases |events|
  {
    if events == [] then 0
    else (if Restarting(events[0]) then Repeated(p) else 0) + Repeats(setup, Next(setup, p, events[0]), events[1..])
  }

  /** How many records some sessions have taken. */
  function Taken(sessions: seq<Receiver>): nat {
    if sessions == [] then 0 else |sessions[0].session.log| + Taken(sessions[1..])
  }

  function Restartings(events: seq<Event>): nat {
    if events == [] then 0 else (if Restarting(events[0]) then 1 else 0) + Restartings(events[1..])
  }

  lemma BaseOfStep(setup: Setup, p: Pipe, e: Event)
    requires setup.Sound() && Safe(setup, p) && Enabled(p, e)
    ensures var n := Next(setup, p, e);
      n.receiver.base == if Restarting(e) then p.receiver.base + |p.receiver.session.log| - Repeated(p) else p.receiver.base
  {
    if Restarting(e) {
      RestartContinues(setup, p, e.r);
    }
  }

  lemma StreamGrows(setup: Setup, p: Pipe, e: Event)
    requires setup.Sound() && Safe(setup, p) && Enabled(p, e)
    ensures p.packets <= Next(setup, p, e).packets
  {
    match e
    case Send(s) =>
      if s.CommitPacket? {
        CommitLeaves(setup, p);
      } else {
        OthersLeave(setup, p, s);
      }
    case Receive(r) => ReceiverLeaves(setup, p, r);
  }

  /** All sessions together take each packet of their stretch once, but for the repeats. */
  lemma {:induction false} SessionsConserve(setup: Setup, p: Pipe, events: seq<Event>)
    requires setup.Sound() && Safe(setup, p) && Possible(setup, p, events)
    ensures var r := After(setup, p, events).receiver;
      Taken(Sessions(setup, p, events)) == r.base + |r.session.log| - p.receiver.base + Repeats(setup, p, events)
    ensures Repeats(setup, p, events) <= Restartings(events)
    decreases |events|
  {
    if events != [] {
      var e, rest := events[0], events[1..];
      var n := Next(setup, p, e);
      BaseOfStep(setup, p, e);
      SessionsConserve(setup, n, rest);
      if Restarting(e) {
        assert Sessions(setup, p, events)[1..] == Sessions(setup, n, rest);
      } else {
        assert Sessions(setup, p, events) == Sessions(setup, n, rest);
      }
    } else {
      assert Taken([p.receiver]) == |p.receiver.session.log| + Taken([]);
    }
  }

  /** A session has taken packet i, as it is in the stream. */
  predicate Has(r: Receiver, packets: seq<Record>, i: nat) {
    r.base <= i < r.base + |r.session.log| && i < |packets| && r.session.log[i - r.base].record == packets[i]
  }

  ghost predicate SomeHas(sessions: seq<Receiver>, packets: seq<Record>, i: nat) {
    exists k :: 0 <= k < |sessions| && Has(sessions[k], packets, i)
  }

  lemma {:induction false} StreamKept(setup: Setup, p: Pipe, events: seq<Event>)
    requires setup.Sound() && Safe(setup, p) && Possible(setup, p, events)
    ensures p.packets <= After(setup, p, events).packets
    decreases |events|
  {
    if events != [] {
      StreamGrows(setup, p, events[0]);
      StreamKept(setup, Next(setup, p, events[0]), events[1..]);
    }
  }

  lemma OwnHas(setup: Setup, p: Pipe, packets: seq<Record>, i: nat)
    requires InStep(p.receiver.session, setup.config, p.packets, p.times, p.receiver.base) && p.packets <= packets
    requires p.receiver.base <= i < p.receiver.base + |p.receiver.session.log|
    ensures Has(p.receiver, packets, i)
  {
  }

  lemma FirstHas(r: Receiver, later: seq<Receiver>, packets: seq<Record>, i: nat)
    requires Has(r, packets, i)
    ensures SomeHas([r] + later, packets, i)
  {
    assert Has(([r] + later)[0], packets, i);
  }

  lemma LaterHas(first: seq<Receiver>, later: seq<Receiver>, packets: seq<Record>, i: nat)
    requires SomeHas(later, packets, i)
    ensures SomeHas(first + later, packets, i)
  {
    var k :| 0 <= k < |later| && Has(later[k], packets, i);
    assert Has((first + later)[|first| + k], packets, i);
  }

  /** Between them the sessions skip nothing. */
  lemma {:induction false} SessionsCover(setup: Setup, p: Pipe, events: seq<Event>, i: nat)
    requires setup.Sound() && Safe(setup, p) && Possible(setup, p, events)
    requires var r := After(setup, p, events).receiver; p.receiver.base <= i < r.base + |r.session.log|
    ensures SomeHas(Sessions(setup, p, events), After(setup, p, events).packets, i)
    decreases |events|
  {
    var packets := After(setup, p, events).packets;
    if events == [] {
      OwnHas(setup, p, packets, i);
      FirstHas(p.receiver, [], packets, i);
    } else {
      var n := Next(setup, p, events[0]);
      var first := if Restarting(events[0]) then [p.receiver] else [];
      var later := Sessions(setup, n, events[1..]);
      BaseOfStep(setup, p, events[0]);
      if i < n.receiver.base {
        StreamKept(setup, p, events);
        OwnHas(setup, p, packets, i);
        FirstHas(p.receiver, later, packets, i);
      } else {
        SessionsCover(setup, n, events[1..], i);
        LaterHas(first, later, packets, i);
      }
    }
  }

  // ------------------------------------------------------------ the statistics of the session at hand

  /** What an event does to the statistics, when it leaves this log; a restart begins with new ones. */
  function OpsAfter(ops: seq<Op>, e: Event, log: seq<Fate>): seq<Op> {
    if !e.Receive? then ops
    else
      match e.r
      case Restart(_) => []
      case Report => ops + [Take]
      case Conclude => if log == [] then ops else ops + [OpOf(log[|log| - 1])]
      case _ => ops
  }

  /** The operations since the session began, when these were made before. */
  ghost function OpsOver(setup: Setup, p: Pipe, events: seq<Event>, ops: seq<Op>): seq<Op>
    requires setup.Sound() && Safe(setup, p) && Possible(setup, p, events)
    decreases |events|
  {
    if events == [] then ops
    else
      var n := Next(setup, p, events[0]);
      OpsOver(setup, n, events[1..], OpsAfter(ops, events[0], n.receiver.session.log))
  }

  lemma MovesAreTold(setup: Setup, p: Pipe, e: ReceiverEvent, ops: seq<Op>)
    requires Mapped(p.ring.memory) && ReceiverEnabled(p, e) && ApplyAll(ops).stats == p.receiver.session.stats
    ensures var s := SessionMoves(setup, p, e); ApplyAll(OpsAfter(ops, Receive(e), s.log)).stats == s.stats
  {
    if e.Report? {
      ApplyOne(ops, Take);
    } else if e.Conclude? {
      var log := SessionMoves(setup, p, e).log;
      ApplyOne(ops, OpOf(log[|log| - 1]));
    }
  }

  lemma EventIsTold(setup: Setup, p: Pipe, e: Event, ops: seq<Op>)
    requires setup.Sound() && Safe(setup, p) && Enabled(p, e) && ApplyAll(ops).stats == p.receiver.session.stats
    ensures var n := Next(setup, p, e); ApplyAll(OpsAfter(ops, e, n.receiver.session.log)).stats == n.receiver.session.stats
  {
    match e
    case Send(s) =>
      if s.CommitPacket? {
        CommitLeaves(setup, p);
      } else {
        OthersLeave(setup, p, s);
      }
    case Receive(r) =>
      ReceiverLeaves(setup, p, r);
      MovesAreTold(setup, p, r, ops);
  }

  /** Over any run, the statistics of the session at hand are the history of its records, drops and reports. */
  lemma {:induction false} RunIsTold(setup: Setup, p: Pipe, events: seq<Event>, ops: seq<Op>)
    requires setup.Sound() && Safe(setup, p) && Possible(setup, p, events)
    requires ApplyAll(ops).stats == p.receiver.session.stats
    ensures ApplyAll(OpsOver(setup, p, events, ops)).stats == After(setup, p, events).receiver.session.stats
    decreases |events|
  {
    if events != [] {
      var n := Next(setup, p, events[0]);
      EventIsTold(setup, p, events[0], ops);
      RunIsTold(setup, n, events[1..], OpsAfter(ops, events[0], n.receiver.session.log));
    }
  }
}
