/** One consumer session: the receive loop with its pause policies, over any answers of its surroundings. */
module ConsumerSession {
  import Words
  import opened PacketValidator
  import opened ConsumerStats
  import opened Options

  type Record = seq<Words.byte>

  datatype Policy = Block | Discard

  /** What became of a record taken from the ring. */
  datatype Fate =
    | Processed(record: Record, result: ValidationResult)
    | Discarded(record: Record, paused: bool)

  /** The state of a session; the log is history. */
  datatype Session = Session(tracker: Tracker, stats: Stats, wasPaused: bool, defectLogs: nat, log: seq<Fate>)

  /** `judge` is the validator: expectations, record and clock to new expectations and the verdict. */
  datatype Config = Config(policy: Policy, judge: (Tracker, Record, int) -> (Tracker, ValidationResult), maxDefectLogs: nat)

  /** The validator that the consumer is built with. */
  ghost predicate JudgesLike(config: Config, tolerance: int) {
    forall t, record, now :: config.judge(t, record, now) == Validated(t, tolerance, record, now)
  }

  // ------------------------------------------------------------ what a session does

  function Begun(tracker: Tracker): Session {
    Session(tracker.(hasBaseline := false), RESET, false, 0, [])
  }

  /** The pause flag is looked at; leaving a pause under the discarding policy forgets the baseline. */
  function Switched(s: Session, config: Config, paused: bool): Session {
    var t := if s.wasPaused && !paused && config.policy == Discard then s.tracker.(hasBaseline := false) else s.tracker;
    s.(tracker := t, wasPaused := paused)
  }

  function AfterProcessing(s: Session, config: Config, record: Record, now: int): Session {
    var (t, result) := config.judge(s.tracker, record, now);
    s.(tracker := t, stats := Recorded(s.stats, result, |record|),
       defectLogs := if !result.Clean() && s.defectLogs < config.maxDefectLogs then s.defectLogs + 1 else s.defectLogs,
       log := s.log + [Processed(record, result)])
  }

  function AfterDropping(s: Session, record: Record): Session {
    s.(stats := Dropped(s.stats, |record|), log := s.log + [Discarded(record, s.wasPaused)])
  }

  /** A report takes the current window; the totals stay. */
  function Reported(s: Session): Session {
    s.(stats := Stats(s.stats.totals, RateWindow(0, 0), NO_LATENCY))
  }

  /** What one round of the loop gets to see. */
  datatype Turn = Turn(
    paused: bool,
    offered: Option<Record>, // what receive returns within its timeout
    over: bool,              // the producer has finished the stream or is dead
    last: Option<Record>,    // what the extra read behind that finding returns
    now: int, due: bool)

  function ReportedIf(s: Session, due: bool): Session {
    if due then Reported(s) else s
  }

  /** One round of the loop, and whether the session is over. */
  function Round(s: Session, config: Config, turn: Turn): (r: (Session, bool)) {
    var s := Switched(s, config, turn.paused);
    if turn.paused then
      var t := if config.policy == Discard && turn.offered.Some? then AfterDropping(s, turn.offered.value) else s;
      (ReportedIf(t, turn.due), false)
    else if turn.offered.Some? then
      (ReportedIf(AfterProcessing(s, config, turn.offered.value, turn.now), turn.due), false)
    else if turn.over then
      if turn.last.Some? then (AfterProcessing(s, config, turn.last.value, turn.now), false) else (s, true)
    else
      (ReportedIf(s, turn.due), false)
  }

  /** A session over the given rounds; it ends with them or before. */
  function Rounds(s: Session, config: Config, turns: seq<Turn>): Session
    decreases |turns|
  {
    if turns == [] then s
    else
      var (next, ended) := Round(s, config, turns[0]);
      if ended then next else Rounds(next, config, turns[1..])
  }

  /** The transport as a session sees it: the records handed out so far, and how many of them were handed back. */
  class RecordSource {
    var taken: seq<Record>
    var released: nat

    constructor ()
      ensures taken == [] && released == 0
    {
      taken, released := [], 0;
    }

    /** receive: the previous record goes back first; `answer` is what comes within the timeout. */
    method Receive(answer: Option<Record>) returns (record: Option<Record>)
      modifies this
      ensures record == answer && taken == old(taken) + Listed(answer) && released == |old(taken)|
    {
      released := |taken|;
      taken := taken + Listed(answer);
      record := answer;
    }

    method Release()
      modifies this
      ensures taken == old(taken) && released == |taken|
    {
      released := |taken|;
    }
  }

  function Listed(record: Option<Record>): seq<Record> {
    if record.Some? then [record.value] else []
  }

  class ConsumerApp {
    const config: Config
    const source: RecordSource
    const validator: PacketValidator
    const stats: ConsumerStats
    var defectLogs: nat
    ghost var log: seq<Fate>

    ghost predicate Valid() {
      validator.Valid() && JudgesLike(config, validator.tolerance)
    }

    ghost function State(wasPaused: bool): Session
      reads this, validator, stats
    {
      Session(validator.State(), stats.State(), wasPaused, defectLogs, log)
    }

    constructor (policy: Policy, tolerance: int, maxDefectLogs: nat, source: RecordSource)
      ensures Valid() && config.policy == policy && validator.tolerance == tolerance && fresh(validator) && fresh(stats)
      ensures defectLogs == 0 && log == [] && this.source == source
    {
      this.source := source;
      config := Config(policy, (t, record, now) => Validated(t, tolerance, record, now), maxDefectLogs);
      validator := new PacketValidator(tolerance);
      stats := new ConsumerStats();
      defectLogs, log := 0, [];
    }

    method ProcessRecord(record: Record, now: int, ghost wasPaused: bool)
      requires Valid()
      modifies this, validator, stats
      ensures State(wasPaused) == AfterProcessing(old(State(wasPaused)), config, record, now)
    {
      ghost var before := State(wasPaused);
      var result := validator.Validate(record, now);
      assert (validator.State(), result) == config.judge(before.tracker, record, now);
      stats.Record(result, |record|);
      if !result.Clean() && defectLogs < config.maxDefectLogs {
        defectLogs := defectLogs + 1;
      }
      log := log + [Processed(record, result)];
    }

    /** The pause policy: hand back the last record and wait, or take and drop what comes. */
    method WhilePaused(offered: Option<Record>)
      modifies this`log, stats, source
      ensures config.policy == Block ==>
        State(true) == old(State(true)) && source.taken == old(source.taken) && source.released == |source.taken|
      ensures config.policy == Discard ==>
        && State(true) == (if offered.Some? then AfterDropping(old(State(true)), offered.value) else old(State(true)))
        && source.taken == old(source.taken) + Listed(offered) && source.released == |old(source.taken)|
    {
      if config.policy == Block {
        source.Release();
      } else {
        var record := source.Receive(offered);
        if record.Some? {
          stats.RecordDropped(|record.value|);
          log := log + [Discarded(record.value, true)];
        }
      }
    }

    method SwitchPause(wasPaused: bool, paused: bool)
      modifies validator
      ensures State(paused) == Switched(old(State(wasPaused)), config, paused)
    {
      if paused != wasPaused {
        if !paused && config.policy == Discard {
          validator.Resync();
        }
      }
    }

    method ReportIfDue(due: bool, ghost wasPaused: bool)
      modifies stats
      ensures State(wasPaused) == ReportedIf(old(State(wasPaused)), due)
    {
      if due {
        var _ := stats.TakeInterval();
      }
    }

    /** One round of the loop. */
    method OneRound(wasPaused: bool, turn: Turn) returns (ended: bool)
      requires Valid()
      modifies this, validator, stats, source
      ensures (State(turn.paused), ended) == Round(old(State(wasPaused)), config, turn)
      ensures source.taken == old(source.taken) + TakenBy(config, turn)
    {
      ended := false;
      SwitchPause(wasPaused, turn.paused);
      if turn.paused {
        WhilePaused(turn.offered);
      } else {
        var record := source.Receive(turn.offered);
        if record.Some? {
          ProcessRecord(record.value, turn.now, turn.paused);
        } else if turn.over {
          var last := source.Receive(turn.last);
          if last.Some? {
            ProcessRecord(last.value, turn.now, turn.paused);
          } else {
            ended := true;
          }
          return;
        }
      }
      ReportIfDue(turn.due, turn.paused);
    }

    /**
     * The loop over all rounds until a stop is requested or the stream has ended: the session over the rounds, exactly
     * the records the rounds take, and every one of them handed back in the end.
     */
    method RunSession(turns: seq<Turn>) returns (wasPaused: bool)
      requires Valid()
      modifies this, validator, stats, source
      ensures State(wasPaused) == Rounds(Begun(old(validator.State())), config, turns)
      ensures source.taken == old(source.taken) + TakenByAll(Begun(old(validator.State())), config, turns)
      ensures source.released == |source.taken|
    {
      ghost var start := Begun(validator.State());
      ghost var before := source.taken;
      stats.Reset();
      validator.Resync();
      defectLogs, log, wasPaused := 0, [], false;
      var i, ended := 0, false;
      while i < |turns| && !ended
        invariant 0 <= i <= |turns|
        invariant Underway(start, before, turns, i, wasPaused, ended)
      {
        UnderwayContinues(start, before, State(wasPaused), source.taken, turns, i);
        ended := OneRound(wasPaused, turns[i]);
        wasPaused := turns[i].paused;
        i := i + 1;
      }
      source.Release();
    }

    /** What the rest of the rounds adds leads to what all of them amount to. */
    ghost predicate Underway(start: Session, before: seq<Record>, turns: seq<Turn>, i: nat, wasPaused: bool, ended: bool)
      requires i <= |turns|
      reads this, validator, stats, source
    {
      OnTrack(start, config, before, State(wasPaused), source.taken, turns, i, ended)
    }

    lemma UnderwayContinues(start: Session, before: seq<Record>, s: Session, taken: seq<Record>, turns: seq<Turn>, i: nat)
      requires i < |turns| && OnTrack(start, config, before, s, taken, turns, i, false)
      ensures var (next, ended) := Round(s, config, turns[i]);
        OnTrack(start, config, before, next, taken + TakenBy(config, turns[i]), turns, i + 1, ended)
    {
      RestOfRounds(start, config, before, s, taken, turns, i, i + 1);
    }
  }

  ghost predicate OnTrack(start: Session, config: Config, before: seq<Record>, s: Session, taken: seq<Record>,
                          turns: seq<Turn>, i: nat, ended: bool)
    requires i <= |turns|
  {
    var rest := if ended then [] else turns[i..];
    && Rounds(s, config, rest) == Rounds(start, config, turns)
    && taken + TakenByAll(s, config, rest) == before + TakenByAll(start, config, turns)
  }

  lemma RestOfRounds(start: Session, config: Config, before: seq<Record>, s: Session, taken: seq<Record>,
                     turns: seq<Turn>, i: nat, next: nat)
    requires next == i + 1 <= |turns| && OnTrack(start, config, before, s, taken, turns, i, false)
    ensures var round := Round(s, config, turns[i]);
      OnTrack(start, config, before, round.0, taken + TakenBy(config, turns[i]), turns, next, round.1)
  {
    var round := Round(s, config, turns[i]);
    var now, later := TakenBy(config, turns[i]), TakenByAll(round.0, config, turns[next..]);
    assert turns[i..][0] == turns[i] && turns[i..][1..] == turns[next..];
    assert (taken + now) + later == taken + (now + later);
  }

  // ------------------------------------------------------------ the partition of what was taken

  function BytesOf(log: seq<Fate>, processed: bool): nat {
    if log == [] then 0
    else BytesOf(log[..|log| - 1], processed)
         + (if log[|log| - 1].Processed? == processed then |log[|log| - 1].record| else 0)
  }

  function CountOf(log: seq<Fate>, processed: bool): nat {
    if log == [] then 0
    else CountOf(log[..|log| - 1], processed) + (if log[|log| - 1].Processed? == processed then 1 else 0)
  }

  lemma {:induction false} CountsPartition(log: seq<Fate>)
    ensures CountOf(log, true) + CountOf(log, false) == |log|
  {
    if log != [] {
      CountsPartition(log[..|log| - 1]);
    }
  }

  /** The bytes of some records. */
  function Length(records: seq<Record>): nat {
    if records == [] then 0 else Length(records[..|records| - 1]) + |records[|records| - 1]|
  }

  lemma {:induction false} BytesPartition(log: seq<Fate>)
    ensures BytesOf(log, true) + BytesOf(log, false) == Length(RecordsOf(log))
  {
    if log != [] {
      BytesPartition(log[..|log| - 1]);
      assert RecordsOf(log)[..|log| - 1] == RecordsOf(log[..|log| - 1]);
    }
  }

  /** The totals count exactly the fates in the log. */
  ghost predicate Accounted(s: Session) {
    && s.stats.totals.received == CountOf(s.log, true) && s.stats.totals.bytes == BytesOf(s.log, true)
    && s.stats.totals.dropped == CountOf(s.log, false) && s.stats.totals.droppedBytes == BytesOf(s.log, false)
  }

  lemma LogGrows(log: seq<Fate>, f: Fate, processed: bool)
    ensures CountOf(log + [f], processed) == CountOf(log, processed) + (if f.Processed? == processed then 1 else 0)
    ensures BytesOf(log + [f], processed) == BytesOf(log, processed) + (if f.Processed? == processed then |f.record| else 0)
  {
    assert (log + [f])[..|log|] == log;
  }

  lemma ProcessAccounted(s: Session, config: Config, record: Record, now: int)
    requires Accounted(s)
    ensures Accounted(AfterProcessing(s, config, record, now))
  {
    var f := Processed(record, config.judge(s.tracker, record, now).1);
    LogGrows(s.log, f, true);
    LogGrows(s.log, f, false);
  }

  lemma DropAccounted(s: Session, record: Record)
    requires Accounted(s)
    ensures Accounted(AfterDropping(s, record))
  {
    LogGrows(s.log, Discarded(record, s.wasPaused), true);
    LogGrows(s.log, Discarded(record, s.wasPaused), false);
  }

  /** The records a round takes from the ring, in order. */
  function TakenBy(config: Config, turn: Turn): seq<Record> {
    if turn.paused && config.policy == Block then []
    else if turn.offered.Some? then [turn.offered.value]
    else if !turn.paused && turn.over && turn.last.Some? then [turn.last.value]
    else []
  }

  function TakenByAll(s: Session, config: Config, turns: seq<Turn>): seq<Record>
    decreases |turns|
  {
    if turns == [] then []
    else
      var (next, ended) := Round(s, config, turns[0]);
      TakenBy(config, turns[0]) + (if ended then [] else TakenByAll(next, config, turns[1..]))
  }

  function RecordsOf(log: seq<Fate>): (r: seq<Record>)
    ensures |r| == |log|
  {
    seq(|log|, i requires 0 <= i < |log| => log[i].record)
  }

  lemma RoundAccounted(s: Session, config: Config, turn: Turn)
    requires Accounted(s)
    ensures Accounted(Round(s, config, turn).0)
  {
    var s := Switched(s, config, turn.paused);
    if turn.paused {
      if config.policy == Discard && turn.offered.Some? { DropAccounted(s, turn.offered.value); }
    } else if turn.offered.Some? {
      ProcessAccounted(s, config, turn.offered.value, turn.now);
    } else if turn.over && turn.last.Some? {
      ProcessAccounted(s, config, turn.last.value, turn.now);
    }
  }

  lemma {:induction false} RoundsAccounted(s: Session, config: Config, turns: seq<Turn>)
    requires Accounted(s)
    ensures Accounted(Rounds(s, config, turns))
    decreases |turns|
  {
    if turns != [] {
      RoundAccounted(s, config, turns[0]);
      var (next, ended) := Round(s, config, turns[0]);
      if !ended {
        RoundsAccounted(next, config, turns[1..]);
      }
    }
  }

  lemma {:induction false} RoundsTake(s: Session, config: Config, turns: seq<Turn>)
    ensures RecordsOf(Rounds(s, config, turns).log) == RecordsOf(s.log) + TakenByAll(s, config, turns)
    decreases |turns|
  {
    if turns != [] {
      var (next, ended) := Round(s, config, turns[0]);
      var before, taken := RecordsOf(s.log), TakenBy(config, turns[0]);
      assert RecordsOf(next.log) == before + taken;
      if !ended {
        RoundsTake(next, config, turns[1..]);
        var later := TakenByAll(next, config, turns[1..]);
        assert (before + taken) + later == before + (taken + later);
      }
    }
  }

  /** Whatever the rounds: each record taken is processed or dropped exactly once and in order. */
  lemma TakenIsPartitioned(tracker: Tracker, config: Config, turns: seq<Turn>)
    ensures var s := Rounds(Begun(tracker), config, turns); var taken := TakenByAll(Begun(tracker), config, turns);
      && RecordsOf(s.log) == taken && Accounted(s)
      && s.stats.totals.received + s.stats.totals.dropped == |taken|
      && s.stats.totals.bytes + s.stats.totals.droppedBytes == Length(taken)
  {
    var begun := Begun(tracker);
    BegunIsAccounted(tracker);
    RoundsAccounted(begun, config, turns);
    RoundsTake(begun, config, turns);
    PartsAddUp(Rounds(begun, config, turns), TakenByAll(begun, config, turns));
  }

  lemma BegunIsAccounted(tracker: Tracker)
    ensures Accounted(Begun(tracker)) && RecordsOf(Begun(tracker).log) == []
  {
  }

  lemma PartsAddUp(s: Session, taken: seq<Record>)
    requires Accounted(s) && RecordsOf(s.log) == taken
    ensures s.stats.totals.received + s.stats.totals.dropped == |taken|
    ensures s.stats.totals.bytes + s.stats.totals.droppedBytes == Length(taken)
  {
    CountsPartition(s.log);
    BytesPartition(s.log);
  }

  /** Under the blocking policy nothing is ever dropped. */
  lemma {:induction false} BlockingDropsNothing(s: Session, config: Config, turns: seq<Turn>)
    requires config.policy == Block && s.stats.totals.dropped == 0
    ensures Rounds(s, config, turns).stats.totals.dropped == 0
    decreases |turns|
  {
    if turns != [] {
      var (next, ended) := Round(s, config, turns[0]);
      if !ended {
        BlockingDropsNothing(next, config, turns[1..]);
      }
    }
  }

  /** How many processed records were not clean. */
  function Unclean(log: seq<Fate>): nat {
    if log == [] then 0
    else
      var f := log[|log| - 1];
      Unclean(log[..|log| - 1]) + (if f.Processed? && !f.result.Clean() then 1 else 0)
  }

  /** Unclean packets are reported one by one, up to the limit. */
  ghost predicate LogsDefects(s: Session, config: Config) {
    s.defectLogs == if Unclean(s.log) < config.maxDefectLogs then Unclean(s.log) else config.maxDefectLogs
  }

  lemma UncleanGrows(log: seq<Fate>, f: Fate)
    ensures Unclean(log + [f]) == Unclean(log) + (if f.Processed? && !f.result.Clean() then 1 else 0)
  {
    assert (log + [f])[..|log|] == log;
  }

  lemma ProcessLogsDefects(s: Session, config: Config, record: Record, now: int)
    requires LogsDefects(s, config)
    ensures LogsDefects(AfterProcessing(s, config, record, now), config)
  {
    UncleanGrows(s.log, Processed(record, config.judge(s.tracker, record, now).1));
  }

  lemma RoundLogsDefects(s: Session, config: Config, turn: Turn)
    requires LogsDefects(s, config)
    ensures LogsDefects(Round(s, config, turn).0, config)
  {
    var s := Switched(s, config, turn.paused);
    if turn.paused {
      if turn.offered.Some? { UncleanGrows(s.log, Discarded(turn.offered.value, s.wasPaused)); }
    } else if turn.offered.Some? {
      ProcessLogsDefects(s, config, turn.offered.value, turn.now);
    } else if turn.over && turn.last.Some? {
      ProcessLogsDefects(s, config, turn.last.value, turn.now);
    }
  }

  lemma {:induction false} DefectLogsAreBounded(s: Session, config: Config, turns: seq<Turn>)
    requires LogsDefects(s, config)
    ensures LogsDefects(Rounds(s, config, turns), config)
    decreases |turns|
  {
    if turns != [] {
      RoundLogsDefects(s, config, turns[0]);
      var (next, ended) := Round(s, config, turns[0]);
      if !ended {
        DefectLogsAreBounded(next, config, turns[1..]);
      }
    }
  }
}
