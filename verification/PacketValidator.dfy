/** What the receiver holds against a record by itself, and against the records before it. */
module PacketValidator {
  import opened Words
  import opened Crc
  import opened Packet

  datatype Defect =
    | BadMagic | BadVersion | BadHeaderSize | SizeMismatch | BadChecksum
    | SequenceGap | SequenceRewind | TimestampFuture | TimestampBackward | UnknownChecksum

  /** The defects that make a packet count as corrupted. */
  const CORRUPTION: set<Defect> := {BadMagic, BadVersion, BadHeaderSize, SizeMismatch, BadChecksum, UnknownChecksum}

  datatype ValidationResult = ValidationResult(defects: set<Defect>, sequence: nat, missing: nat, latency: int) {
    predicate Corrupted() { defects * CORRUPTION != {} }
    predicate Clean() { defects == {} }
  }

  /** The validator's expectations about the next packet. */
  datatype Tracker = Tracker(hasBaseline: bool, expected: nat, lastTimestamp: int)

  // ------------------------------------------------------------ one packet

  function Flag(condition: bool, defect: Defect): set<Defect> {
    if condition then {defect} else {}
  }

  function ChecksumDefects(record: seq<byte>): (r: set<Defect>)
    requires |record| >= HEADER_SIZE
    ensures r <= {UnknownChecksum, BadChecksum}
  {
    var known := FindKind(record[5]);
    if known == [] then {UnknownChecksum}
    else Flag(Value(Compute(known[0], Hashed(record))) != ReadHeader(record).checksum, BadChecksum)
  }

  /** What is wrong with the fields of a header in front of so many bytes. */
  function FieldDefects(h: PacketHeader, size: nat): (r: set<Defect>)
    ensures r <= {BadMagic, BadVersion, BadHeaderSize, SizeMismatch}
  {
    Flag(h.magic != PACKET_MAGIC, BadMagic) + Flag(h.version != PACKET_VERSION, BadVersion)
    + Flag(h.headerSize != HEADER_SIZE, BadHeaderSize) + Flag(h.payloadSize != size - HEADER_SIZE, SizeMismatch)
  }

  /** Everything that can be wrong with a record on its own. */
  function Corruption(record: seq<byte>): (r: set<Defect>)
    ensures r <= CORRUPTION
  {
    if |record| < HEADER_SIZE then {BadHeaderSize, SizeMismatch}
    else FieldDefects(ReadHeader(record), |record|) + ChecksumDefects(record)
  }

  /** What the tracker holds against an uncorrupted packet. */
  function Anomalies(t: Tracker, tolerance: int, sequence: nat, timestamp: int, now: int): (r: set<Defect>)
    ensures r !! CORRUPTION
  {
    Flag(timestamp > now + tolerance, TimestampFuture)
    + Flag(t.hasBaseline && sequence > t.expected, SequenceGap)
    + Flag(t.hasBaseline && sequence < t.expected, SequenceRewind)
    + Flag(t.hasBaseline && timestamp < t.lastTimestamp, TimestampBackward)
  }

  function Missing(t: Tracker, sequence: nat): nat {
    if t.hasBaseline && sequence > t.expected then sequence - t.expected else 0
  }

  function NextSequence(sequence: nat): (r: nat)
    ensures r < TWO_64
  {
    (sequence + 1) % 0x1_0000_0000_0000_0000
  }

  /** The verdict on a record whose header could be read, and the expectations it leaves. */
  function Judge(t: Tracker, tolerance: int, corruption: set<Defect>, sequence: nat, timestamp: int, now: int)
    : (Tracker, ValidationResult)
  {
    if corruption != {} then (t, ValidationResult(corruption, sequence, 0, 0))
    else
      (Tracker(true, NextSequence(sequence), timestamp),
       ValidationResult(Anomalies(t, tolerance, sequence, timestamp, now), sequence, Missing(t, sequence), now - timestamp))
  }

  /** The verdict on any record. */
  function Validated(t: Tracker, tolerance: int, record: seq<byte>, now: int): (Tracker, ValidationResult) {
    if |record| < HEADER_SIZE then (t, ValidationResult({BadHeaderSize, SizeMismatch}, 0, 0, 0))
    else
      var h := ReadHeader(record);
      Judge(t, tolerance, Corruption(record), h.sequence, h.timestamp, now)
  }

  /** Anomalies never count as corruption, and corruption is never missed. */
  lemma CorruptedIffCorruption(t: Tracker, tolerance: int, record: seq<byte>, now: int)
    ensures Validated(t, tolerance, record, now).1.Corrupted() <==> Corruption(record) != {}
  {
    var c := Corruption(record);
    assert c * CORRUPTION == c;
  }

  class PacketValidator {
    const crc32: Checksum
    const crc32c: Checksum
    const tolerance: int
    var hasBaseline: bool
    var expectedSequence: nat
    var lastTimestamp: int

    ghost predicate Valid() {
      crc32.Valid() && crc32c.Valid() && crc32.kind == Crc32 && crc32c.kind == Crc32c
    }

    function State(): Tracker
      reads this
    {
      Tracker(hasBaseline, expectedSequence, lastTimestamp)
    }

    constructor (tolerance: int)
      ensures Valid() && this.tolerance == tolerance && State() == Tracker(false, 0, 0)
    {
      this.tolerance := tolerance;
      crc32 := new Checksum(Crc32);
      crc32c := new Checksum(Crc32c);
      hasBaseline, expectedSequence, lastTimestamp := false, 0, 0;
    }

    method ChecksumDefectsOf(record: seq<byte>, kind: byte, stored: nat) returns (defects: set<Defect>)
      requires Valid() && |record| >= HEADER_SIZE && kind == record[5] && stored == ReadHeader(record).checksum
      ensures defects == ChecksumDefects(record)
    {
      if kind == 1 {
        defects := Compare(record, stored, crc32);
      } else if kind == 2 {
        defects := Compare(record, stored, crc32c);
      } else {
        defects := {UnknownChecksum};
      }
    }

    method Compare(record: seq<byte>, stored: nat, checksum: Checksum) returns (defects: set<Defect>)
      requires checksum.Valid() && |record| >= HEADER_SIZE
      ensures defects == Flag(Value(Compute(checksum.kind, Hashed(record))) != stored, BadChecksum)
    {
      var computed := Packet.PacketChecksum(record, checksum);
      defects := if Value(computed) != stored then {BadChecksum} else {};
    }

    method Validate(record: seq<byte>, now: int) returns (result: ValidationResult)
      requires Valid()
      modifies this
      ensures (State(), result) == Validated(old(State()), tolerance, record, now)
    {
      if |record| < HEADER_SIZE {
        return ValidationResult({BadHeaderSize, SizeMismatch}, 0, 0, 0);
      }
      var header := ReadHeader(record);
      var defects := FieldDefectsOf(header, |record|);
      var more := ChecksumDefectsOf(record, header.checksumKind, header.checksum);
      result := Conclude(defects + more, header, now);
    }

    /** The part of validate behind the integrity checks. */
    method Conclude(corruption: set<Defect>, header: PacketHeader, now: int) returns (result: ValidationResult)
      modifies this
      ensures (State(), result) == Judge(old(State()), tolerance, corruption, header.sequence, header.timestamp, now)
    {
      if corruption != {} {
        return ValidationResult(corruption, header.sequence, 0, 0);
      }
      result := Track(header, now);
    }

    method FieldDefectsOf(header: PacketHeader, size: nat) returns (defects: set<Defect>)
      requires size >= HEADER_SIZE
      ensures defects == FieldDefects(header, size)
    {
      defects := {};
      if header.magic != PACKET_MAGIC { defects := defects + {BadMagic}; }
      if header.version != PACKET_VERSION { defects := defects + {BadVersion}; }
      if header.headerSize != HEADER_SIZE { defects := defects + {BadHeaderSize}; }
      if header.payloadSize != size - HEADER_SIZE { defects := defects + {SizeMismatch}; }
    }

    /** The part of validate that an uncorrupted packet reaches. */
    method Track(header: PacketHeader, now: int) returns (result: ValidationResult)
      modifies this
      ensures State() == Tracker(true, NextSequence(header.sequence), header.timestamp)
      ensures var t := old(State());
        result == ValidationResult(Anomalies(t, tolerance, header.sequence, header.timestamp, now),
                                   header.sequence, Missing(t, header.sequence), now - header.timestamp)
    {
      var defects, missing := {}, 0;
      if header.timestamp > now + tolerance { defects := defects + {TimestampFuture}; }
      if hasBaseline {
        if header.sequence > expectedSequence {
          defects := defects + {SequenceGap};
          missing := header.sequence - expectedSequence;
        } else if header.sequence < expectedSequence {
          defects := defects + {SequenceRewind};
        }
        if header.timestamp < lastTimestamp { defects := defects + {TimestampBackward}; }
      }
      hasBaseline, expectedSequence, lastTimestamp := true, NextSequence(header.sequence), header.timestamp;
      result := ValidationResult(defects, header.sequence, missing, now - header.timestamp);
    }

    /** After a resync any sequence number and timestamp are accepted, and expected of what follows. */
    method Resync()
      modifies this
      ensures State() == old(State()).(hasBaseline := false)
    {
      hasBaseline := false;
    }
  }

  // ------------------------------------------------------------ what each defect means

  lemma FieldDefectsMean(h: PacketHeader, size: nat)
    ensures var d := FieldDefects(h, size);
      && (BadMagic in d <==> h.magic != 0x544B4350) && (BadVersion in d <==> h.version != 2)
      && (BadHeaderSize in d <==> h.headerSize != 32) && (SizeMismatch in d <==> h.payloadSize != size - 32)
  {
  }

  lemma ChecksumDefectsMean(record: seq<byte>)
    requires |record| >= HEADER_SIZE
    ensures var d, kinds := ChecksumDefects(record), FindKind(record[5]);
      && (UnknownChecksum in d <==> kinds == [])
      && (BadChecksum in d <==> kinds != [] && Value(Compute(kinds[0], Hashed(record))) != ReadHeader(record).checksum)
  {
  }

  lemma KindsOfCodes(code: byte)
    ensures FindKind(code) == if code == 1 then [Crc32] else if code == 2 then [Crc32c] else []
  {
    assert FindKind(code) == [Crc32] <==> KindCode(Crc32) == code;
    assert FindKind(code) == [Crc32c] <==> KindCode(Crc32c) == code;
  }

  /** Integrity defects are reported whatever the tracker expects. */
  lemma IntegrityComesFirst(t: Tracker, tolerance: int, c: set<Defect>, sequence: nat, timestamp: int, now: int, d: Defect)
    requires d in CORRUPTION
    ensures d in Judge(t, tolerance, c, sequence, timestamp, now).1.defects <==> d in c
  {
    if c == {} {
      assert d !in Anomalies(t, tolerance, sequence, timestamp, now);
    }
  }

  /** The integrity defects, each exactly when its own check fails, and whatever the others find. */
  lemma IntegrityDefectsMean(t: Tracker, tolerance: int, record: seq<byte>, now: int)
    requires |record| >= 32
    ensures var d, h := Validated(t, tolerance, record, now).1.defects, ReadHeader(record);
      var cleared := record[..12] + [0, 0, 0, 0] + record[16..];
      && (BadMagic in d <==> h.magic != 0x544B4350)
      && (BadVersion in d <==> h.version != 2)
      && (BadHeaderSize in d <==> h.headerSize != 32)
      && (SizeMismatch in d <==> h.payloadSize != |record| - 32)
      && (UnknownChecksum in d <==> h.checksumKind != 1 && h.checksumKind != 2)
      && (BadChecksum in d <==>
           (h.checksumKind == 1 && Value(Compute(Crc32, cleared)) != h.checksum)
           || (h.checksumKind == 2 && Value(Compute(Crc32c, cleared)) != h.checksum))
  {
    var h, c := ReadHeader(record), Corruption(record);
    forall d | d in CORRUPTION ensures d in Validated(t, tolerance, record, now).1.defects <==> d in c {
      IntegrityComesFirst(t, tolerance, c, h.sequence, h.timestamp, now, d);
    }
    HashedClearsField(record);
    KindsOfCodes(record[5]);
    ChecksumDefectsMean(record);
    FieldDefectsMean(h, |record|);
  }

  /** A record too short for a header has the two defects of its size and no others. */
  lemma ShortRecordMeans(t: Tracker, tolerance: int, record: seq<byte>, now: int)
    requires |record| < 32
    ensures Validated(t, tolerance, record, now) == (t, ValidationResult({BadHeaderSize, SizeMismatch}, 0, 0, 0))
  {
  }

  lemma JudgedAnomaliesMean(t: Tracker, tolerance: int, c: set<Defect>, sequence: nat, timestamp: int, now: int)
    requires c <= CORRUPTION
    ensures var d := Judge(t, tolerance, c, sequence, timestamp, now).1.defects;
      && (TimestampFuture in d <==> c == {} && timestamp > now + tolerance)
      && (SequenceGap in d <==> c == {} && t.hasBaseline && sequence > t.expected)
      && (SequenceRewind in d <==> c == {} && t.hasBaseline && sequence < t.expected)
      && (TimestampBackward in d <==> c == {} && t.hasBaseline && timestamp < t.lastTimestamp)
  {
  }

  /** The anomalies, each exactly when an intact packet is out of its order or time. */
  lemma AnomaliesMean(t: Tracker, tolerance: int, record: seq<byte>, now: int)
    requires |record| >= 32
    ensures var d, h := Validated(t, tolerance, record, now).1.defects, ReadHeader(record);
      var intact := Corruption(record) == {};
      && (TimestampFuture in d <==> intact && h.timestamp > now + tolerance)
      && (SequenceGap in d <==> intact && t.hasBaseline && h.sequence > t.expected)
      && (SequenceRewind in d <==> intact && t.hasBaseline && h.sequence < t.expected)
      && (TimestampBackward in d <==> intact && t.hasBaseline && h.timestamp < t.lastTimestamp)
  {
    var h := ReadHeader(record);
    JudgedAnomaliesMean(t, tolerance, Corruption(record), h.sequence, h.timestamp, now);
  }

  // ------------------------------------------------------------ sealed packets

  lemma ChecksumOfSealed(kind: ChecksumKind, sequence: nat, timestamp: int64, payload: seq<byte>)
    requires sequence < TWO_64
    ensures ChecksumDefects(Sealed(kind, sequence, timestamp, payload)) == {}
  {
    var r := Sealed(kind, sequence, timestamp, payload);
    SealedReadsBack(kind, sequence, timestamp, payload);
    assert ReadHeader(r).checksumKind == r[5];
    assert FindKind(r[5]) == [kind];
  }

  /** A sealed packet passes the integrity checks exactly when its payload size fits its 32-bit field. */
  lemma SealedIsIntact(kind: ChecksumKind, sequence: nat, timestamp: int64, payload: seq<byte>)
    requires sequence < TWO_64
    ensures Corruption(Sealed(kind, sequence, timestamp, payload)) == {} <==> |payload| < TWO_32
  {
    var r := Sealed(kind, sequence, timestamp, payload);
    SealedReadsBack(kind, sequence, timestamp, payload);
    ChecksumOfSealed(kind, sequence, timestamp, payload);
    FieldsOfNewHeader(kind, sequence, timestamp, |payload|, ReadHeader(r).checksum);
  }

  lemma FieldsOfNewHeader(kind: ChecksumKind, sequence: nat, timestamp: int64, n: nat, checksum: nat)
    ensures var h := NewHeader(kind, sequence, timestamp, n).(checksum := checksum);
      FieldDefects(h, HEADER_SIZE + n) == {} <==> n < TWO_32
  {
    var h := NewHeader(kind, sequence, timestamp, n).(checksum := checksum);
    assert n % TWO_32 == n <==> n < TWO_32;
    assert SizeMismatch in FieldDefects(h, HEADER_SIZE + n) <==> n % TWO_32 != n;
  }

  /** Within the expected order and not from the future: nothing to report. */
  lemma SealedInOrderIsClean(t: Tracker, tolerance: int, kind: ChecksumKind, sequence: nat, timestamp: int64,
                             payload: seq<byte>, now: int)
    requires sequence < TWO_64 && |payload| < TWO_32
    ensures var (next, result) := Validated(t, tolerance, Sealed(kind, sequence, timestamp, payload), now);
      && next == Tracker(true, NextSequence(sequence), timestamp)
      && result.sequence == sequence && result.latency == now - timestamp
      && (result.Clean() <==> (timestamp <= now + tolerance
                                && (t.hasBaseline ==> sequence == t.expected && timestamp >= t.lastTimestamp)))
  {
    SealedIsIntact(kind, sequence, timestamp, payload);
    SealedReadsBack(kind, sequence, timestamp, payload);
    var a := Anomalies(t, tolerance, sequence, timestamp, now);
    assert timestamp > now + tolerance ==> TimestampFuture in a;
    assert t.hasBaseline && sequence > t.expected ==> SequenceGap in a;
    assert t.hasBaseline && sequence < t.expected ==> SequenceRewind in a;
    assert t.hasBaseline && timestamp < t.lastTimestamp ==> TimestampBackward in a;
  }

  // ------------------------------------------------------------ whole runs

  datatype Arrival = Arrival(record: seq<byte>, now: int)

  /** The verdicts on a stream of records, and the expectations at its end. */
  function Run(t: Tracker, tolerance: int, stream: seq<Arrival>): (r: (Tracker, seq<ValidationResult>))
    ensures |r.1| == |stream|
    decreases |stream|
  {
    if stream == [] then (t, [])
    else
      var (next, result) := Validated(t, tolerance, stream[0].record, stream[0].now);
      var (last, results) := Run(next, tolerance, stream[1..]);
      (last, [result] + results)
  }

  function WithoutCorrupted(stream: seq<Arrival>): seq<Arrival> {
    if stream == [] then []
    else (if Corruption(stream[0].record) == {} then [stream[0]] else []) + WithoutCorrupted(stream[1..])
  }

  function UncorruptedResults(results: seq<ValidationResult>): seq<ValidationResult> {
    if results == [] then []
    else (if results[0].Corrupted() then [] else [results[0]]) + UncorruptedResults(results[1..])
  }

  /** Corrupted records leave no trace: dropping them changes no other verdict and not the final expectations. */
  lemma {:induction false} CorruptedLeaveNoTrace(t: Tracker, tolerance: int, stream: seq<Arrival>)
    ensures Run(t, tolerance, WithoutCorrupted(stream)).0 == Run(t, tolerance, stream).0
    ensures Run(t, tolerance, WithoutCorrupted(stream)).1 == UncorruptedResults(Run(t, tolerance, stream).1)
    decreases |stream|
  {
    if stream != [] {
      var first, rest := stream[0], stream[1..];
      var (next, result) := Validated(t, tolerance, first.record, first.now);
      CorruptedIffCorruption(t, tolerance, first.record, first.now);
      CorruptedLeaveNoTrace(next, tolerance, rest);
      var results := Run(t, tolerance, stream).1;
      assert results[0] == result && results[1..] == Run(next, tolerance, rest).1;
      if Corruption(first.record) == {} {
        var kept := WithoutCorrupted(stream);
        assert kept[0] == first && kept[1..] == WithoutCorrupted(rest);
      } else {
        assert next == t;
        assert WithoutCorrupted(stream) == WithoutCorrupted(rest);
      }
    }
  }

  function RewindDistance(t: Tracker, sequence: nat): nat {
    if t.hasBaseline && sequence < t.expected then t.expected - sequence else 0
  }

  /** Packets reported missing, over a run. */
  function TotalMissing(results: seq<ValidationResult>): nat {
    if results == [] then 0 else results[0].missing + TotalMissing(results[1..])
  }

  /** The distances the sequence numbers of a run jumped back. */
  function TotalRewind(t: Tracker, tolerance: int, stream: seq<Arrival>): nat
    decreases |stream|
  {
    if stream == [] then 0
    else
      var (next, result) := Validated(t, tolerance, stream[0].record, stream[0].now);
      RewindDistance(t, result.sequence) + TotalRewind(next, tolerance, stream[1..])
  }

  /** How often the 64-bit sequence number wrapped around. */
  function Wraps(results: seq<ValidationResult>): nat {
    if results == [] then 0 else (if results[0].sequence == TWO_64 - 1 then 1 else 0) + Wraps(results[1..])
  }

  lemma JudgeBalances(t: Tracker, tolerance: int, sequence: nat, timestamp: int, now: int)
    requires sequence < TWO_64
    ensures var (next, result) := Judge(t, tolerance, {}, sequence, timestamp, now);
      && next.hasBaseline && result.sequence == sequence
      && next.expected == sequence + 1 - (if sequence == TWO_64 - 1 then TWO_64 else 0)
      && (t.hasBaseline ==> result.missing - RewindDistance(t, sequence) == sequence - t.expected)
      && (!t.hasBaseline ==> result.missing == RewindDistance(t, sequence) == 0)
  {
  }

  lemma SequenceFits(record: seq<byte>)
    requires |record| >= HEADER_SIZE
    ensures ReadHeader(record).sequence < TWO_64
  {
    FieldSizes();
  }

  lemma OneStepBalances(t: Tracker, tolerance: int, record: seq<byte>, now: int)
    requires Corruption(record) == {}
    ensures var (next, result) := Validated(t, tolerance, record, now);
      && next.hasBaseline
      && next.expected == result.sequence + 1 - (if result.sequence == TWO_64 - 1 then TWO_64 else 0)
      && (t.hasBaseline ==> result.missing - RewindDistance(t, result.sequence) == result.sequence - t.expected)
      && (!t.hasBaseline ==> result.missing == RewindDistance(t, result.sequence) == 0)
  {
    var h := ReadHeader(record);
    SequenceFits(record);
    JudgeBalances(t, tolerance, h.sequence, h.timestamp, now);
  }

  lemma {:induction false} RunBalances(t: Tracker, tolerance: int, stream: seq<Arrival>)
    requires t.hasBaseline && forall a :: a in stream ==> Corruption(a.record) == {}
    ensures var (last, results) := Run(t, tolerance, stream);
      |stream| + TotalMissing(results) - TotalRewind(t, tolerance, stream)
      == last.expected - t.expected + TWO_64 * Wraps(results)
    decreases |stream|
  {
    if stream != [] {
      var next := FirstOfRun(t, tolerance, stream);
      RunBalances(next, tolerance, stream[1..]);
    }
  }

  /** Conservation of sequence numbers over any uncorrupted run from a fresh baseline. */
  lemma FreshRunBalances(t: Tracker, tolerance: int, stream: seq<Arrival>)
    requires !t.hasBaseline && stream != [] && forall a :: a in stream ==> Corruption(a.record) == {}
    ensures var (last, results) := Run(t, tolerance, stream);
      |stream| + TotalMissing(results) - TotalRewind(t, tolerance, stream)
      == last.expected - results[0].sequence + TWO_64 * Wraps(results)
  {
    var next := FirstOfRun(t, tolerance, stream);
    RunBalances(next, tolerance, stream[1..]);
  }

  /** Peels the first record off a run. */
  lemma FirstOfRun(t: Tracker, tolerance: int, stream: seq<Arrival>) returns (next: Tracker)
    requires stream != [] && forall a :: a in stream ==> Corruption(a.record) == {}
    ensures var (last, results) := Run(t, tolerance, stream); var rest := Run(next, tolerance, stream[1..]);
      var sequence := results[0].sequence; var wrap := if sequence == TWO_64 - 1 then 1 else 0;
      && last == rest.0 && next.hasBaseline
      && Wraps(results) == wrap + Wraps(rest.1)
      && next.expected == sequence + 1 - TWO_64 * wrap
      && TotalMissing(results) - TotalRewind(t, tolerance, stream)
         == TotalMissing(rest.1) - TotalRewind(next, tolerance, stream[1..])
            + (if t.hasBaseline then sequence - t.expected else 0)
    ensures forall a :: a in stream[1..] ==> Corruption(a.record) == {}
  {
    assert stream[0] in stream;
    next := Validated(t, tolerance, stream[0].record, stream[0].now).0;
    var result := Validated(t, tolerance, stream[0].record, stream[0].now).1;
    OneStepBalances(t, tolerance, stream[0].record, stream[0].now);
    FirstOfSums(t, tolerance, stream, next, result);
  }

  lemma FirstOfSums(t: Tracker, tolerance: int, stream: seq<Arrival>, next: Tracker, result: ValidationResult)
    requires stream != [] && (next, result) == Validated(t, tolerance, stream[0].record, stream[0].now)
    ensures var results, rest := Run(t, tolerance, stream).1, Run(next, tolerance, stream[1..]);
      && results[0] == result && Run(t, tolerance, stream).0 == rest.0
      && Wraps(results) == (if result.sequence == TWO_64 - 1 then 1 else 0) + Wraps(rest.1)
      && TotalMissing(results) == result.missing + TotalMissing(rest.1)
      && TotalRewind(t, tolerance, stream)
         == RewindDistance(t, result.sequence) + TotalRewind(next, tolerance, stream[1..])
  {
    var results, rest := Run(t, tolerance, stream).1, Run(next, tolerance, stream[1..]).1;
    assert results[0] == result && results[1..] == rest;
  }
}
