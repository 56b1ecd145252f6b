/** The consumer's statistics: totals, the current report window and the latency sample. */
module ConsumerStats {
  import opened Words
  import opened Packet
  import opened PacketValidator

  datatype ConsumerTotals = ConsumerTotals(
    received: nat, bytes: nat, valid: nat, corrupted: nat, sequenceGaps: nat, missing: nat,
    sequenceRewinds: nat, timestampAnomalies: nat, dropped: nat, droppedBytes: nat)

  datatype LatencySample = LatencySample(min: int, max: int, sum: int, count: nat)

  datatype RateWindow = RateWindow(packets: nat, bytes: nat)

  datatype Snapshot = Snapshot(totals: ConsumerTotals, interval: RateWindow, latency: LatencySample)

  const NO_TOTALS := ConsumerTotals(0, 0, 0, 0, 0, 0, 0, 0, 0, 0)
  const NO_LATENCY := LatencySample(TWO_63 - 1, -TWO_63, 0, 0)

  /** The three accumulators, as a value. */
  datatype Stats = Stats(totals: ConsumerTotals, window: RateWindow, latency: LatencySample)

  const RESET := Stats(NO_TOTALS, RateWindow(0, 0), NO_LATENCY)

  function Add(s: LatencySample, latency: int): LatencySample {
    LatencySample(if latency < s.min then latency else s.min, if latency > s.max then latency else s.max,
                  s.sum + latency, s.count + 1)
  }

  function One(condition: bool): nat {
    if condition then 1 else 0
  }

  function Recorded(s: Stats, result: ValidationResult, size: nat): Stats {
    var t := s.totals;
    var intact := !result.Corrupted();
    Stats(
      t.(received := t.received + 1, bytes := t.bytes + size, valid := t.valid + One(result.Clean()),
         corrupted := t.corrupted + One(!intact),
         sequenceGaps := t.sequenceGaps + One(intact && SequenceGap in result.defects),
         missing := t.missing + (if intact && SequenceGap in result.defects then result.missing else 0),
         sequenceRewinds := t.sequenceRewinds + One(intact && SequenceRewind in result.defects),
         timestampAnomalies := t.timestampAnomalies
           + One(intact && (TimestampFuture in result.defects || TimestampBackward in result.defects))),
      RateWindow(s.window.packets + 1, s.window.bytes + size),
      if intact then Add(s.latency, result.latency) else s.latency)
  }

  function Dropped(s: Stats, size: nat): Stats {
    s.(totals := s.totals.(dropped := s.totals.dropped + 1, droppedBytes := s.totals.droppedBytes + size))
  }

  class ConsumerStats {
    var totals: ConsumerTotals
    var window: RateWindow
    var latency: LatencySample

    function State(): Stats
      reads this
    {
      Stats(totals, window, latency)
    }

    constructor ()
      ensures State() == RESET
    {
      totals, window, latency := NO_TOTALS, RateWindow(0, 0), NO_LATENCY;
    }

    method Record(result: ValidationResult, size: nat)
      modifies this
      ensures State() == Recorded(old(State()), result, size)
    {
      totals := totals.(received := totals.received + 1, bytes := totals.bytes + size);
      window := RateWindow(window.packets + 1, window.bytes + size);
      if result.Clean() {
        totals := totals.(valid := totals.valid + 1);
      }
      if result.Corrupted() {
        totals := totals.(corrupted := totals.corrupted + 1);
        return;
      }
      latency := Add(latency, result.latency);
      if SequenceGap in result.defects {
        totals := totals.(sequenceGaps := totals.sequenceGaps + 1, missing := totals.missing + result.missing);
      }
      if SequenceRewind in result.defects {
        totals := totals.(sequenceRewinds := totals.sequenceRewinds + 1);
      }
      if TimestampFuture in result.defects || TimestampBackward in result.defects {
        totals := totals.(timestampAnomalies := totals.timestampAnomalies + 1);
      }
    }

    method RecordDropped(size: nat)
      modifies this
      ensures State() == Dropped(old(State()), size)
    {
      totals := totals.(dropped := totals.dropped + 1, droppedBytes := totals.droppedBytes + size);
    }

    /** Hands out the current window and opens the next one. */
    method TakeInterval() returns (snapshot: Snapshot)
      modifies this
      ensures snapshot == Snapshot(old(totals), old(window), old(latency))
      ensures State() == Stats(old(totals), RateWindow(0, 0), NO_LATENCY)
    {
      snapshot := Snapshot(totals, window, latency);
      window, latency := RateWindow(0, 0), NO_LATENCY;
    }

    method Reset()
      modifies this
      ensures State() == RESET
    {
      totals, window, latency := NO_TOTALS, RateWindow(0, 0), NO_LATENCY;
    }
  }

  // ------------------------------------------------------------ conservation over whole sessions

  datatype Op = Record(result: ValidationResult, size: nat) | Drop(size: nat) | Take

  /** The statistics and the snapshots handed out after a sequence of operations. */
  datatype History = History(stats: Stats, taken: seq<Snapshot>)

  function Apply(h: History, op: Op): History {
    match op
    case Record(result, size) => h.(stats := Recorded(h.stats, result, size))
    case Drop(size) => h.(stats := Dropped(h.stats, size))
    case Take =>
      History(Stats(h.stats.totals, RateWindow(0, 0), NO_LATENCY),
              h.taken + [Snapshot(h.stats.totals, h.stats.window, h.stats.latency)])
  }

  function ApplyAll(ops: seq<Op>): History {
    if ops == [] then History(RESET, []) else Apply(ApplyAll(ops[..|ops| - 1]), ops[|ops| - 1])
  }

  function PacketsTaken(taken: seq<Snapshot>): nat {
    if taken == [] then 0 else PacketsTaken(taken[..|taken| - 1]) + taken[|taken| - 1].interval.packets
  }

  function BytesTaken(taken: seq<Snapshot>): nat {
    if taken == [] then 0 else BytesTaken(taken[..|taken| - 1]) + taken[|taken| - 1].interval.bytes
  }

  function LatenciesTaken(taken: seq<Snapshot>): nat {
    if taken == [] then 0 else LatenciesTaken(taken[..|taken| - 1]) + taken[|taken| - 1].latency.count
  }

  /** Records that were intact but not clean. */
  function Anomalous(ops: seq<Op>): nat {
    if ops == [] then 0
    else
      var op := ops[|ops| - 1];
      Anomalous(ops[..|ops| - 1]) + One(op.Record? && !op.result.Corrupted() && !op.result.Clean())
  }

  /** What a validator guarantees about its verdicts, given that latencies fit 64 bits. */
  ghost predicate Plausible(op: Op) {
    op.Record? ==> -TWO_63 <= op.result.latency < TWO_63 && (SequenceGap in op.result.defects ==> op.result.missing > 0)
  }

  /** Every verdict the validator gives is of that kind. */
  lemma ValidatedIsPlausible(t: Tracker, tolerance: int, record: seq<byte>, now: int, size: nat)
    requires -TWO_63 <= Validated(t, tolerance, record, now).1.latency < TWO_63
    ensures Plausible(Record(Validated(t, tolerance, record, now).1, size))
  {
    if |record| >= HEADER_SIZE {
      var h := ReadHeader(record);
      GapsHaveMissing(t, tolerance, Corruption(record), h.sequence, h.timestamp, now);
    }
  }

  lemma GapsHaveMissing(t: Tracker, tolerance: int, corruption: set<Defect>, sequence: nat, timestamp: int, now: int)
    requires corruption <= CORRUPTION
    ensures var result := Judge(t, tolerance, corruption, sequence, timestamp, now).1;
      SequenceGap in result.defects ==> result.missing > 0
  {
  }

  /** The mean lies between the extremes, and the extremes are int64 values. */
  ghost predicate Bounded(l: LatencySample) {
    && (l.count == 0 ==> l == NO_LATENCY)
    && (l.count > 0 ==> -TWO_63 <= l.min <= l.max < TWO_63 && l.min * l.count <= l.sum <= l.max * l.count)
  }

  ghost predicate Conserved(ops: seq<Op>) {
    var h := ApplyAll(ops);
    var t := h.stats.totals;
    && PacketsTaken(h.taken) + h.stats.window.packets == t.received
    && BytesTaken(h.taken) + h.stats.window.bytes == t.bytes
    && LatenciesTaken(h.taken) + h.stats.latency.count == t.received - t.corrupted
    && t.received == t.valid + t.corrupted + Anomalous(ops)
    && t.sequenceGaps <= t.missing
    && Bounded(h.stats.latency)
    && forall i :: 0 <= i < |h.taken| ==> Bounded(h.taken[i].latency)
  }

  lemma AddStaysBounded(l: LatencySample, latency: int)
    requires Bounded(l) && -TWO_63 <= latency < TWO_63
    ensures Bounded(Add(l, latency))
  {
    var m := Add(l, latency);
    if l.count > 0 {
      MeanStaysBounded(m.min, l.min, l.count, l.sum, latency);
      MeanStaysBounded(-m.max, -l.max, l.count, -l.sum, -latency);
    }
  }

  lemma MeanStaysBounded(lower: int, before: int, count: nat, sum: int, latency: int)
    requires lower <= before && lower <= latency && before * count <= sum
    ensures lower * (count + 1) <= sum + latency
  {
    assert lower * count <= before * count;
  }

  /** Reports lose nothing and count nothing twice, whatever the order of records, drops and reports. */
  lemma {:induction false} StatisticsConserve(ops: seq<Op>)
    requires forall op :: op in ops ==> Plausible(op)
    ensures Conserved(ops)
  {
    if ops != [] {
      var n := |ops| - 1;
      var h, op := ApplyAll(ops[..n]), ops[n];
      StatisticsConserve(ops[..n]);
      assert op in ops;
      match op
      case Record(result, size) =>
        assert ApplyAll(ops).taken == h.taken;
        if !result.Corrupted() {
          AddStaysBounded(h.stats.latency, result.latency);
        } else {
          assert !result.Clean();
        }
      case Drop(size) =>
      case Take =>
        assert ApplyAll(ops).taken[..|h.taken|] == h.taken;
    }
  }

  // ------------------------------------------------------------ what each total means

  datatype Total =
    | Received | Bytes | Valid | Corrupted | Gaps | Missing | Rewinds | TimestampAnomalies | DroppedRecords | DroppedBytes

  function Of(t: ConsumerTotals, total: Total): nat {
    match total
    case Received => t.received
    case Bytes => t.bytes
    case Valid => t.valid
    case Corrupted => t.corrupted
    case Gaps => t.sequenceGaps
    case Missing => t.missing
    case Rewinds => t.sequenceRewinds
    case TimestampAnomalies => t.timestampAnomalies
    case DroppedRecords => t.dropped
    case DroppedBytes => t.droppedBytes
  }

  /** What one operation has to do with a total. Corrupted packets are nothing but received and corrupted. */
  function Weight(op: Op, total: Total): nat {
    match total
    case Received => One(op.Record?)
    case Bytes => if op.Record? then op.size else 0
    case Valid => One(op.Record? && op.result.defects == {})
    case Corrupted => One(op.Record? && exists d :: d in op.result.defects && d in CORRUPTION)
    case Gaps => One(op.Record? && Tells(op.result, SequenceGap))
    case Missing => if op.Record? && Tells(op.result, SequenceGap) then op.result.missing else 0
    case Rewinds => One(op.Record? && Tells(op.result, SequenceRewind))
    case TimestampAnomalies =>
      One(op.Record? && (Tells(op.result, TimestampFuture) || Tells(op.result, TimestampBackward)))
    case DroppedRecords => One(op.Drop?)
    case DroppedBytes => if op.Drop? then op.size else 0
  }

  /** An uncorrupted packet with this defect. */
  predicate Tells(result: ValidationResult, defect: Defect) {
    defect in result.defects && !result.Corrupted()
  }

  function Sum(ops: seq<Op>, total: Total): nat {
    if ops == [] then 0 else Sum(ops[..|ops| - 1], total) + Weight(ops[|ops| - 1], total)
  }

  lemma CorruptedMeans(result: ValidationResult)
    ensures result.Corrupted() <==> exists d :: d in result.defects && d in CORRUPTION
  {
    if result.Corrupted() {
      var d :| d in result.defects * CORRUPTION;
      assert d in result.defects && d in CORRUPTION;
    }
    if d :| d in result.defects && d in CORRUPTION {
      assert d in result.defects * CORRUPTION;
    }
  }

  lemma OneMoreCounts(h: History, op: Op, total: Total)
    ensures Of(Apply(h, op).stats.totals, total) == Of(h.stats.totals, total) + Weight(op, total)
  {
    if op.Record? {
      CorruptedMeans(op.result);
    }
  }

  /** Every total counts what it is named after, over any history, and reports change none. */
  lemma {:induction false} TotalsCount(ops: seq<Op>, total: Total)
    ensures Of(ApplyAll(ops).stats.totals, total) == Sum(ops, total)
  {
    if ops != [] {
      TotalsCount(ops[..|ops| - 1], total);
      OneMoreCounts(ApplyAll(ops[..|ops| - 1]), ops[|ops| - 1], total);
    }
  }

  // ------------------------------------------------------------ what a report shows

  /** The operations since the last report. */
  function Since(ops: seq<Op>): seq<Op> {
    if ops == [] || ops[|ops| - 1].Take? then [] else Since(ops[..|ops| - 1]) + [ops[|ops| - 1]]
  }

  /** The latencies of the uncorrupted records. */
  function Latencies(ops: seq<Op>): seq<int> {
    if ops == [] then []
    else
      var op := ops[|ops| - 1];
      Latencies(ops[..|ops| - 1]) + (if op.Record? && !op.result.Corrupted() then [op.result.latency] else [])
  }

  function SumOf(x: seq<int>): int {
    if x == [] then 0 else SumOf(x[..|x| - 1]) + x[|x| - 1]
  }

  /** The sample's extremes occur among these latencies and enclose them all; an empty sample has the widest bounds. */
  ghost predicate Summarises(l: LatencySample, x: seq<int>) {
    && l.count == |x| && l.sum == SumOf(x)
    && (forall i :: 0 <= i < |x| ==> l.min <= x[i] <= l.max)
    && (if x == [] then l.min == 0x7FFF_FFFF_FFFF_FFFF && l.max == -0x8000_0000_0000_0000 else l.min in x && l.max in x)
  }

  lemma AddSummarises(l: LatencySample, x: seq<int>, latency: int)
    requires Summarises(l, x) && -TWO_63 <= latency < TWO_63
    ensures Summarises(Add(l, latency), x + [latency])
  {
    var y := x + [latency];
    assert y[..|x|] == x && latency in y;
    assert forall v :: v in x ==> v in y;
    if x != [] {
      assert l.min in y && l.max in y;
    }
  }

  /** The open window is that of these operations. */
  ghost predicate Shows(interval: RateWindow, latency: LatencySample, ops: seq<Op>) {
    interval == RateWindow(Sum(ops, Received), Sum(ops, Bytes)) && Summarises(latency, Latencies(ops))
  }

  lemma NothingShown()
    ensures Shows(RateWindow(0, 0), NO_LATENCY, [])
  {
    var none: seq<Op> := [];
    assert Latencies(none) == [] && SumOf([]) == 0 && Sum(none, Received) == 0 && Sum(none, Bytes) == 0;
  }

  lemma OpShows(h: History, ops: seq<Op>, op: Op)
    requires Shows(h.stats.window, h.stats.latency, ops) && Plausible(op) && !op.Take?
    ensures var s := Apply(h, op).stats; Shows(s.window, s.latency, ops + [op])
  {
    var x, s := Latencies(ops), Apply(h, op).stats;
    OneMoreOp(ops, op);
    if op.Record? && !op.result.Corrupted() {
      AddSummarises(h.stats.latency, x, op.result.latency);
    } else {
      assert x + [] == x && s.latency == h.stats.latency;
    }
  }

  lemma OneMoreOp(ops: seq<Op>, op: Op)
    ensures Sum(ops + [op], Received) == Sum(ops, Received) + Weight(op, Received)
    ensures Sum(ops + [op], Bytes) == Sum(ops, Bytes) + Weight(op, Bytes)
    ensures Latencies(ops + [op])
         == Latencies(ops) + (if op.Record? && !op.result.Corrupted() then [op.result.latency] else [])
  {
    var all := ops + [op];
    assert all[..|all| - 1] == ops && all[|all| - 1] == op;
  }

  /** The open window shows the records since the last report and nothing else. */
  lemma {:induction false} WindowShows(ops: seq<Op>)
    requires forall op :: op in ops ==> Plausible(op)
    ensures var s := ApplyAll(ops).stats; Shows(s.window, s.latency, Since(ops))
  {
    NothingShown();
    if ops != [] {
      var before, op := ops[..|ops| - 1], ops[|ops| - 1];
      WindowShows(before);
      assert op in ops;
      assert ApplyAll(ops) == Apply(ApplyAll(before), op);
      if op.Take? {
        assert Since(ops) == [];
      } else {
        OpShows(ApplyAll(before), Since(before), op);
        assert Since(ops) == Since(before) + [op];
      }
    } else {
      assert Since(ops) == [];
    }
  }

  function Reports(ops: seq<Op>): nat {
    if ops == [] then 0 else Reports(ops[..|ops| - 1]) + One(ops[|ops| - 1].Take?)
  }

  /** Each report hands out the totals so far and the window since the report before it. */
  lemma {:induction false} ReportShows(ops: seq<Op>, k: nat, total: Total)
    requires k < |ops| && ops[k].Take? && forall op :: op in ops ==> Plausible(op)
    ensures var taken := ApplyAll(ops).taken; var before := ops[..k];
      && Reports(before) < |taken| == Reports(ops)
      && var shown := taken[Reports(before)];
      Of(shown.totals, total) == Sum(before, total) && Shows(shown.interval, shown.latency, Since(before))
  {
    TakenIsKept(ops, k);
    TotalsCount(ops[..k], total);
    WindowShows(ops[..k]);
  }

  lemma {:induction false} TakenIsKept(ops: seq<Op>, k: nat)
    requires k < |ops| && ops[k].Take?
    ensures var s := ApplyAll(ops[..k]).stats; var taken := ApplyAll(ops).taken;
      && Reports(ops[..k]) < |taken| == Reports(ops)
      && taken[Reports(ops[..k])] == Snapshot(s.totals, s.window, s.latency)
  {
    var before := ops[..|ops| - 1];
    ReportsAreTaken(before);
    if k < |before| {
      TakenIsKept(before, k);
      assert before[..k] == ops[..k];
    }
  }

  lemma {:induction false} ReportsAreTaken(ops: seq<Op>)
    ensures |ApplyAll(ops).taken| == Reports(ops)
  {
    if ops != [] {
      ReportsAreTaken(ops[..|ops| - 1]);
    }
  }
}
