/** What a session amounts to, told from its rounds alone: the records it takes, the verdicts, the statistics. */
module SessionStory {
  import opened PacketValidator
  import opened ConsumerStats
  import opened ConsumerSession

  // ------------------------------------------------------------ which records, and until when

  /** The stream is over and the extra read has found nothing more. */
  predicate Ends(turn: Turn) {
    !turn.paused && turn.offered.None? && turn.over && turn.last.None?
  }

  /** A record, and whether it was dropped instead of processed. */
  datatype Entry = Entry(record: Record, dropped: bool)

  /** A round's record: in a pause only the discarding policy takes one; otherwise receive or else the extra read gives it. */
  function Offered(policy: Policy, turn: Turn): seq<Entry> {
    if turn.offered.Some? then
      (if !turn.paused then [Entry(turn.offered.value, false)]
       else if policy == Discard then [Entry(turn.offered.value, true)] else [])
    else if !turn.paused && turn.over && turn.last.Some? then [Entry(turn.last.value, false)]
    else []
  }

  /** What the rounds before the first that ends the session offer; all rounds if none does. */
  function OfferedUntilEnd(policy: Policy, turns: seq<Turn>): seq<Entry> {
    if turns == [] || Ends(turns[0]) then [] else Offered(policy, turns[0]) + OfferedUntilEnd(policy, turns[1..])
  }

  function Entries(log: seq<Fate>): (r: seq<Entry>)
    ensures |r| == |log|
  {
    seq(|log|, i requires 0 <= i < |log| => Entry(log[i].record, log[i].Discarded?))
  }

  function RecordsIn(entries: seq<Entry>): (r: seq<Record>)
    ensures |r| == |entries|
  {
    seq(|entries|, i requires 0 <= i < |entries| => entries[i].record)
  }

  lemma RoundFollows(s: Session, config: Config, turn: Turn)
    ensures var (next, ended) := Round(s, config, turn);
      Entries(next.log) == Entries(s.log) + Offered(config.policy, turn) && (ended <==> Ends(turn))
    ensures TakenBy(config, turn) == RecordsIn(Offered(config.policy, turn))
  {
  }

  /** A session takes and treats exactly what its rounds offer, up to the first round that ends it. */
  lemma {:induction false} SessionFollowsRounds(s: Session, config: Config, turns: seq<Turn>)
    ensures Entries(Rounds(s, config, turns).log) == Entries(s.log) + OfferedUntilEnd(config.policy, turns)
    ensures TakenByAll(s, config, turns) == RecordsIn(OfferedUntilEnd(config.policy, turns))
    decreases |turns|
  {
    if turns != [] {
      var (next, ended) := Round(s, config, turns[0]);
      RoundFollows(s, config, turns[0]);
      if !ended {
        SessionFollowsRounds(next, config, turns[1..]);
      }
    }
  }

  // ------------------------------------------------------------ the verdicts

  /** The verdicts on the processed records. */
  function Results(log: seq<Fate>): seq<ValidationResult> {
    if log == [] then []
    else
      var f := log[|log| - 1];
      Results(log[..|log| - 1]) + (if f.Processed? then [f.result] else [])
  }

  function Heard(turn: Turn): seq<Arrival> {
    if turn.paused then []
    else if turn.offered.Some? then [Arrival(turn.offered.value, turn.now)]
    else if turn.over && turn.last.Some? then [Arrival(turn.last.value, turn.now)]
    else []
  }

  /** The records processed between the resumptions of a session that discards; under the blocking policy all of them. */
  function Stretches(policy: Policy, wasPaused: bool, turns: seq<Turn>): (r: seq<seq<Arrival>>)
    ensures r != []
    decreases |turns|
  {
    if turns == [] || Ends(turns[0]) then [[]]
    else
      var rest := Stretches(policy, turns[0].paused, turns[1..]);
      var joined := [Heard(turns[0]) + rest[0]] + rest[1..];
      if policy == Discard && wasPaused && !turns[0].paused then [[]] + joined else joined
  }

  /** A validator before its first packet. */
  const FRESH := Tracker(false, 0, 0)

  /** What a fresh validator for each stretch would say. */
  function Verdicts(tolerance: int, stretches: seq<seq<Arrival>>): seq<ValidationResult> {
    if stretches == [] then [] else Run(FRESH, tolerance, stretches[0]).1 + Verdicts(tolerance, stretches[1..])
  }

  lemma FreshStep(t: Tracker, tolerance: int, record: Record, now: int)
    requires !t.hasBaseline
    ensures var (next, result) := Validated(t, tolerance, record, now);
      var (other, same) := Validated(FRESH, tolerance, record, now);
      result == same && (next == other || (!next.hasBaseline && !other.hasBaseline))
  {
  }

  /** Without a baseline it does not matter what else a tracker remembers. */
  lemma {:induction false} NoBaselineNoMemory(t: Tracker, u: Tracker, tolerance: int, stream: seq<Arrival>)
    requires !t.hasBaseline && !u.hasBaseline
    ensures Run(t, tolerance, stream).1 == Run(u, tolerance, stream).1
    decreases |stream|
  {
    if stream != [] {
      var first := stream[0];
      FreshStep(t, tolerance, first.record, first.now);
      FreshStep(u, tolerance, first.record, first.now);
      var n, m := Validated(t, tolerance, first.record, first.now).0, Validated(u, tolerance, first.record, first.now).0;
      if n != m {
        NoBaselineNoMemory(n, m, tolerance, stream[1..]);
      }
    }
  }

  lemma Associates<T>(a: seq<T>, b: seq<T>, c: seq<T>)
    ensures a + b + c == a + (b + c)
  {
  }

  lemma RunOfMore(t: Tracker, tolerance: int, a: Arrival, rest: seq<Arrival>)
    ensures var (next, result) := Validated(t, tolerance, a.record, a.now); var (last, results) := Run(next, tolerance, rest);
      Run(t, tolerance, [a] + rest) == (last, [result] + results)
  {
    var all := [a] + rest;
    assert all[0] == a && all[1..] == rest;
    assert Run(t, tolerance, all) ==
      (Run(Validated(t, tolerance, all[0].record, all[0].now).0, tolerance, all[1..]).0,
       [Validated(t, tolerance, all[0].record, all[0].now).1]
       + Run(Validated(t, tolerance, all[0].record, all[0].now).0, tolerance, all[1..]).1);
  }

  lemma {:induction false} RunAdds(t: Tracker, tolerance: int, a: seq<Arrival>, b: seq<Arrival>)
    ensures var (next, first) := Run(t, tolerance, a); var (last, second) := Run(next, tolerance, b);
      Run(t, tolerance, a + b) == (last, first + second)
    decreases |a|
  {
    if a == [] {
      assert a + b == b && Run(t, tolerance, a) == (t, []);
      assert [] + Run(t, tolerance, b).1 == Run(t, tolerance, b).1;
    } else {
      var (u, result) := Validated(t, tolerance, a[0].record, a[0].now);
      RunAdds(u, tolerance, a[1..], b);
      RunOfMore(t, tolerance, a[0], a[1..] + b);
      RunOfMore(t, tolerance, a[0], a[1..]);
      assert a + b == [a[0]] + (a[1..] + b) && a == [a[0]] + a[1..];
      var first, second := Run(u, tolerance, a[1..]).1, Run(Run(t, tolerance, a).0, tolerance, b).1;
      Associates([result], first, second);
    }
  }

  lemma RunOfOne(t: Tracker, tolerance: int, a: Arrival)
    ensures var (next, result) := Validated(t, tolerance, a.record, a.now); Run(t, tolerance, [a]) == (next, [result])
  {
    var (next, result) := Validated(t, tolerance, a.record, a.now);
    RunOfMore(t, tolerance, a, []);
    assert [a] + [] == [a] && [result] + [] == [result] && Run(next, tolerance, []) == (next, []);
  }

  lemma ResultsGrow(log: seq<Fate>, f: Fate)
    ensures Results(log + [f]) == Results(log) + (if f.Processed? then [f.result] else [])
  {
    assert (log + [f])[..|log|] == log;
  }

  lemma RoundJudges(s: Session, config: Config, tolerance: int, turn: Turn)
    requires JudgesLike(config, tolerance)
    ensures var (next, ended) := Round(s, config, turn);
      var (last, results) := Run(Switched(s, config, turn.paused).tracker, tolerance, Heard(turn));
      next.tracker == last && next.wasPaused == turn.paused && Results(next.log) == Results(s.log) + results
  {
    var t := Switched(s, config, turn.paused).tracker;
    var next := Round(s, config, turn).0;
    if |next.log| > |s.log| {
      ResultsGrow(s.log, next.log[|s.log|]);
    }
    if Heard(turn) != [] {
      RunOfOne(t, tolerance, Heard(turn)[0]);
    }
  }

  /** What a validator in this state says on the first stretch, and fresh ones on the others. */
  function VerdictsFrom(t: Tracker, tolerance: int, stretches: seq<seq<Arrival>>): seq<ValidationResult>
    requires stretches != []
  {
    Run(t, tolerance, stretches[0]).1 + Verdicts(tolerance, stretches[1..])
  }

  lemma HeardFirst(t: Tracker, tolerance: int, heard: seq<Arrival>, rest: seq<seq<Arrival>>)
    requires rest != []
    ensures var (next, results) := Run(t, tolerance, heard);
      VerdictsFrom(t, tolerance, [heard + rest[0]] + rest[1..]) == results + VerdictsFrom(next, tolerance, rest)
  {
    RunAdds(t, tolerance, heard, rest[0]);
    var (next, results) := Run(t, tolerance, heard);
    var joined, more, others := [heard + rest[0]] + rest[1..], Run(next, tolerance, rest[0]).1, Verdicts(tolerance, rest[1..]);
    assert joined[0] == heard + rest[0] && joined[1..] == rest[1..];
    Associates(results, more, others);
  }

  lemma NewStretch(s: Tracker, t: Tracker, tolerance: int, stretches: seq<seq<Arrival>>)
    requires stretches != [] && !t.hasBaseline
    ensures VerdictsFrom(s, tolerance, [[]] + stretches) == VerdictsFrom(t, tolerance, stretches)
  {
    NoBaselineNoMemory(t, FRESH, tolerance, stretches[0]);
    assert ([[]] + stretches)[1..] == stretches;
  }

  lemma StretchesOfRound(s: Session, config: Config, tolerance: int, turns: seq<Turn>)
    requires turns != [] && !Ends(turns[0])
    ensures var rest := Stretches(config.policy, turns[0].paused, turns[1..]);
      var (next, results) := Run(Switched(s, config, turns[0].paused).tracker, tolerance, Heard(turns[0]));
      VerdictsFrom(s.tracker, tolerance, Stretches(config.policy, s.wasPaused, turns))
      == results + VerdictsFrom(next, tolerance, rest)
  {
    var t, rest := Switched(s, config, turns[0].paused).tracker, Stretches(config.policy, turns[0].paused, turns[1..]);
    HeardFirst(t, tolerance, Heard(turns[0]), rest);
    if config.policy == Discard && s.wasPaused && !turns[0].paused {
      NewStretch(s.tracker, t, tolerance, [Heard(turns[0]) + rest[0]] + rest[1..]);
    }
  }

  /** The verdicts of a session are those of one validator a stretch, whatever it was paused for in between. */
  lemma {:induction false} SessionJudges(s: Session, config: Config, tolerance: int, turns: seq<Turn>)
    requires JudgesLike(config, tolerance)
    ensures Results(Rounds(s, config, turns).log)
         == Results(s.log) + VerdictsFrom(s.tracker, tolerance, Stretches(config.policy, s.wasPaused, turns))
    decreases |turns|
  {
    NothingHeard(s.tracker, tolerance);
    var before := Results(s.log);
    if turns == [] {
      assert before + [] == before;
    } else {
      var (next, ended) := Round(s, config, turns[0]);
      RoundFollows(s, config, turns[0]);
      RoundJudges(s, config, tolerance, turns[0]);
      var said := Run(Switched(s, config, turns[0].paused).tracker, tolerance, Heard(turns[0])).1;
      if ended {
        assert said == [] && before + [] == before;
      } else {
        SessionJudges(next, config, tolerance, turns[1..]);
        StretchesOfRound(s, config, tolerance, turns);
        var rest := VerdictsFrom(next.tracker, tolerance, Stretches(config.policy, turns[0].paused, turns[1..]));
        Associates(before, said, rest);
      }
    }
  }

  lemma NothingHeard(t: Tracker, tolerance: int)
    ensures VerdictsFrom(t, tolerance, [[]]) == []
  {
  }

  /** From the beginning of a session: a fresh validator a stretch. */
  lemma VerdictsAreFresh(tracker: Tracker, config: Config, tolerance: int, turns: seq<Turn>)
    requires JudgesLike(config, tolerance)
    ensures Results(Rounds(Begun(tracker), config, turns).log)
         == Verdicts(tolerance, Stretches(config.policy, false, turns))
  {
    var stretches := Stretches(config.policy, false, turns);
    SessionJudges(Begun(tracker), config, tolerance, turns);
    NoBaselineNoMemory(Begun(tracker).tracker, FRESH, tolerance, stretches[0]);
  }

  function HeardUntilEnd(turns: seq<Turn>): seq<Arrival> {
    if turns == [] || Ends(turns[0]) then [] else Heard(turns[0]) + HeardUntilEnd(turns[1..])
  }

  /** Under the blocking policy a pause changes no expectation: nothing that a gap would show is hidden by it. */
  lemma {:induction false} BlockIsOneStretch(wasPaused: bool, turns: seq<Turn>)
    ensures Stretches(Block, wasPaused, turns) == [HeardUntilEnd(turns)]
    decreases |turns|
  {
    if turns != [] && !Ends(turns[0]) {
      BlockIsOneStretch(turns[0].paused, turns[1..]);
    }
  }

  // ------------------------------------------------------------ the statistics

  function OpOf(f: Fate): Op {
    match f
    case Processed(record, result) => Op.Record(result, |record|)
    case Discarded(record, _) => Drop(|record|)
  }

  function OpsOf(fates: seq<Fate>): (r: seq<Op>)
    ensures |r| == |fates|
  {
    seq(|fates|, i requires 0 <= i < |fates| => OpOf(fates[i]))
  }

  /** A round that takes a report: not the one that runs into the end of the stream, even if the extra read finds more. */
  predicate Reports(turn: Turn) {
    turn.due && (turn.paused || turn.offered.Some? || !turn.over)
  }

  /** The operations of the rounds on the statistics, when these became of the records offered. */
  function Told(policy: Policy, turns: seq<Turn>, fates: seq<Fate>): seq<Op>
    decreases |turns|
  {
    if turns == [] || Ends(turns[0]) || |Offered(policy, turns[0])| > |fates| then []
    else
      var n := |Offered(policy, turns[0])|;
      OpsOf(fates[..n]) + (if Reports(turns[0]) then [Take] else []) + Told(policy, turns[1..], fates[n..])
  }

  /** What one operation makes of the statistics. */
  function Became(stats: Stats, op: Op): Stats {
    Apply(History(stats, []), op).stats
  }

  lemma ApplyOne(ops: seq<Op>, op: Op)
    ensures ApplyAll(ops + [op]).stats == Became(ApplyAll(ops).stats, op)
  {
    assert (ops + [op])[..|ops|] == ops;
  }

  function AfterReport(stats: Stats, turn: Turn): Stats {
    if Reports(turn) then Became(stats, Take) else stats
  }

  /** A round appends its record to the log and counts it, and then perhaps takes a report. */
  lemma RoundCounts(s: Session, config: Config, turn: Turn)
    ensures var next, n := Round(s, config, turn).0, |Offered(config.policy, turn)|;
      && n <= 1 && |next.log| == |s.log| + n && next.log[..|s.log|] == s.log
      && next.stats == AfterReport(if n == 0 then s.stats else Became(s.stats, OpOf(next.log[|s.log|])), turn)
  {
  }

  /** One round does to the statistics what its operations do. */
  lemma RoundIsTold(s: Session, config: Config, turn: Turn, ops: seq<Op>, fates: seq<Fate>)
    requires ApplyAll(ops).stats == s.stats
    requires var next := Round(s, config, turn).0; |s.log| <= |next.log| && fates == next.log[|s.log|..]
    ensures ApplyAll(ops + OpsOf(fates) + (if Reports(turn) then [Take] else [])).stats == Round(s, config, turn).0.stats
  {
    RoundCounts(s, config, turn);
    var mine := OpsOf(fates);
    if fates == [] {
      assert ops + mine == ops;
    } else {
      assert mine == [OpOf(fates[0])];
      ApplyOne(ops, mine[0]);
    }
    ApplyOne(ops + mine, Take);
    assert ops + mine + [] == ops + mine;
  }

  lemma {:induction false} LogGrowsOnly(s: Session, config: Config, turns: seq<Turn>)
    ensures s.log <= Rounds(s, config, turns).log
    decreases |turns|
  {
    if turns != [] {
      var (next, ended) := Round(s, config, turns[0]);
      if !ended {
        LogGrowsOnly(next, config, turns[1..]);
      }
    }
  }

  lemma {:induction false} StatisticsFollow(s: Session, config: Config, turns: seq<Turn>, ops: seq<Op>, fates: seq<Fate>)
    requires ApplyAll(ops).stats == s.stats && Rounds(s, config, turns).log == s.log + fates
    ensures Rounds(s, config, turns).stats == ApplyAll(ops + Told(config.policy, turns, fates)).stats
    decreases |turns|
  {
    assert ops + [] == ops;
    if turns != [] {
      var turn, later := turns[0], turns[1..];
      var (next, ended) := Round(s, config, turn);
      RoundFollows(s, config, turn);
      RoundCounts(s, config, turn);
      if !ended {
        var n := |Offered(config.policy, turn)|;
        LogGrowsOnly(next, config, later);
        Apart(s.log, fates, next.log, n);
        RoundIsTold(s, config, turn, ops, fates[..n]);
        var mine, report := OpsOf(fates[..n]), if Reports(turn) then [Take] else [];
        StatisticsFollow(next, config, later, ops + mine + report, fates[n..]);
        Regrouped(ops, mine, report, Told(config.policy, later, fates[n..]));
      }
    }
  }

  lemma Apart(log: seq<Fate>, fates: seq<Fate>, next: seq<Fate>, n: nat)
    requires next <= log + fates && |next| == |log| + n
    ensures n <= |fates| && next[|log|..] == fates[..n] && log + fates == next + fates[n..]
  {
  }

  lemma Regrouped(a: seq<Op>, b: seq<Op>, c: seq<Op>, d: seq<Op>)
    ensures a + b + c + d == a + (b + c + d)
  {
  }

  /** A session's statistics are the history of its records, drops and reports, in the order of the rounds. */
  lemma StatisticsAreTold(tracker: Tracker, config: Config, turns: seq<Turn>)
    ensures var s := Rounds(Begun(tracker), config, turns);
      s.stats == ApplyAll(Told(config.policy, turns, s.log)).stats
  {
    var s := Rounds(Begun(tracker), config, turns);
    assert [] + s.log == s.log && [] + Told(config.policy, turns, s.log) == Told(config.policy, turns, s.log);
    StatisticsFollow(Begun(tracker), config, turns, [], s.log);
  }
}
