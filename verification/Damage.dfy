/** Which damage to a packet the receiver notices, exactly. */
module Damage {
  import opened Words
  import opened Crc
  import opened Packet
  import opened PacketValidator

  // ------------------------------------------------------------ error patterns

  lemma FeedLinear(a: Word32, b: Word32, m: seq<bool>, n: seq<bool>)
    requires |m| == |n| <= 32
    ensures Feed(Xor(a, b), Xor(m, n)) == Xor(Feed(a, m), Feed(b, n))
  {
  }

  lemma {:induction false} OverBitsLinear(p: Word32, a: Word32, b: Word32, m: seq<bool>, n: seq<bool>)
    requires |m| == |n|
    ensures OverBits(p, Xor(a, b), Xor(m, n)) == Xor(OverBits(p, a, m), OverBits(p, b, n))
    decreases |m|
  {
    if m != [] {
      var fa, fb := Feed(a, m[..1]), Feed(b, n[..1]);
      FeedLinear(a, b, m[..1], n[..1]);
      StepLinear(p, fa, fb);
      assert Xor(m, n)[..1] == Xor(m[..1], n[..1]) && Xor(m, n)[1..] == Xor(m[1..], n[1..]);
      OverBitsLinear(p, Step(p, fa), Step(p, fb), m[1..], n[1..]);
    }
  }

  /** The bits in which two byte strings differ. */
  function Difference(a: seq<byte>, b: seq<byte>): (d: seq<bool>)
    requires |a| == |b|
    ensures |d| == 8 * |a|
  {
    Xor(MessageBits(a), MessageBits(b))
  }

  /** What an error pattern does to the CRC, whatever the content. */
  function Effect(kind: ChecksumKind, pattern: seq<bool>): Word32 {
    OverBits(Polynomial(kind), Zeros(32), pattern)
  }

  lemma EffectOfDifference(kind: ChecksumKind, x: seq<byte>, y: seq<byte>)
    requires |x| == |y|
    ensures Xor(Compute(kind, x), Compute(kind, y)) == Effect(kind, Difference(x, y))
  {
    var p := Polynomial(kind);
    ReferenceIsOverBits(p, Begin(), x);
    ReferenceIsOverBits(p, Begin(), y);
    assert Xor(Begin(), Begin()) == Zeros(32);
    OverBitsLinear(p, Begin(), Begin(), MessageBits(x), MessageBits(y));
    FinishCancels(Reference(p, Begin(), x), Reference(p, Begin(), y));
  }

  lemma FinishCancels(a: Word32, b: Word32)
    ensures Xor(Finish(a), Finish(b)) == Xor(a, b)
  {
  }

  // ------------------------------------------------------------ the checksum field

  predicate Matches(kind: ChecksumKind, record: seq<byte>)
    requires |record| >= HEADER_SIZE
  {
    Value(Compute(kind, Hashed(record))) == ReadHeader(record).checksum
  }

  lemma MatchesIsEquality(kind: ChecksumKind, record: seq<byte>)
    requires |record| >= HEADER_SIZE
    ensures Matches(kind, record) <==> Compute(kind, Hashed(record)) == MessageBits(record[12..16])
  {
    FieldIsValue(record[12..16]);
    if Matches(kind, record) {
      ValueInjective(Compute(kind, Hashed(record)), MessageBits(record[12..16]));
    }
  }

  /** The damage outside the checksum field changes the checksum by just what the damage inside changes the field. */
  predicate Cancels(kind: ChecksumKind, r: seq<byte>, s: seq<byte>)
    requires |r| == |s| >= HEADER_SIZE
  {
    Effect(kind, Difference(Hashed(r), Hashed(s))) == Difference(r[12..16], s[12..16])
  }

  /** Whether damage keeps the checksum matching depends on the error pattern alone. */
  lemma PatternDecides(kind: ChecksumKind, r: seq<byte>, s: seq<byte>)
    requires |r| == |s| >= HEADER_SIZE && Matches(kind, r)
    ensures Matches(kind, s) <==> Cancels(kind, r, s)
  {
    MatchesIsEquality(kind, r);
    MatchesIsEquality(kind, s);
    EffectOfDifference(kind, Hashed(r), Hashed(s));
    XorDecides(Compute(kind, Hashed(r)), Compute(kind, Hashed(s)), MessageBits(s[12..16]));
  }

  lemma XorDecides(a: seq<bool>, b: seq<bool>, c: seq<bool>)
    requires |a| == |b| == |c|
    ensures b == c <==> Xor(a, b) == Xor(a, c)
  {
    if Xor(a, b) == Xor(a, c) {
      forall i | 0 <= i < |b| ensures b[i] == c[i] { assert Xor(a, b)[i] == Xor(a, c)[i]; }
    }
  }

  // ------------------------------------------------------------ the other header fields

  lemma HeaderPart(record: seq<byte>)
    requires |record| >= HEADER_SIZE
    ensures var h := ReadHeader(record);
      && record[0..4] == Le(h.magic, 4) && record[4] == h.version && record[6..8] == Le(h.headerSize, 2)
      && record[8..12] == Le(h.payloadSize, 4)
  {
    LeOfFromLe(record[0..4]);
    LeOfFromLe(record[6..8]);
    LeOfFromLe(record[8..12]);
  }

  lemma SameFields(r: seq<byte>, s: seq<byte>)
    requires |r| == |s| >= HEADER_SIZE
    ensures var h, g := ReadHeader(r), ReadHeader(s);
      (h.magic == g.magic && h.version == g.version && h.headerSize == g.headerSize && h.payloadSize == g.payloadSize)
      <==> s[..5] == r[..5] && s[6..12] == r[6..12]
  {
    HeaderPart(r);
    HeaderPart(s);
    PiecesAgree(r, s);
  }

  lemma PiecesAgree(r: seq<byte>, s: seq<byte>)
    requires |r| == |s| >= HEADER_SIZE
    ensures (s[0..4] == r[0..4] && s[4] == r[4] && s[6..8] == r[6..8] && s[8..12] == r[8..12])
      <==> s[..5] == r[..5] && s[6..12] == r[6..12]
  {
    assert forall t: seq<byte> :: |t| >= 12 ==> t[..5] == t[0..4] + [t[4]] && t[6..12] == t[6..8] + t[8..12];
    if s[..5] == r[..5] && s[6..12] == r[6..12] {
      assert s[0..4] == s[..5][..4] && r[0..4] == r[..5][..4] && s[4] == s[..5][4] && r[4] == r[..5][4];
      assert s[6..8] == s[6..12][..2] && r[6..8] == r[6..12][..2];
      assert s[8..12] == s[6..12][2..] && r[8..12] == r[6..12][2..];
    }
  }

  lemma FieldDefectsDecide(r: seq<byte>, s: seq<byte>)
    requires |r| == |s| >= HEADER_SIZE && FieldDefects(ReadHeader(r), |r|) == {}
    ensures FieldDefects(ReadHeader(s), |s|) == {} <==> s[..5] == r[..5] && s[6..12] == r[6..12]
  {
    SameFields(r, s);
    NoFieldDefects(ReadHeader(r), |r|);
    NoFieldDefects(ReadHeader(s), |s|);
  }

  lemma NoFieldDefects(h: PacketHeader, size: nat)
    ensures FieldDefects(h, size) == {} <==>
      && h.magic == PACKET_MAGIC && h.version == PACKET_VERSION && h.headerSize == HEADER_SIZE
      && h.payloadSize == size - HEADER_SIZE
  {
    var d := FieldDefects(h, size);
    assert BadMagic in d <==> h.magic != PACKET_MAGIC;
    assert BadVersion in d <==> h.version != PACKET_VERSION;
    assert BadHeaderSize in d <==> h.headerSize != HEADER_SIZE;
    assert SizeMismatch in d <==> h.payloadSize != size - HEADER_SIZE;
  }

  // ------------------------------------------------------------ damaged packets

  function Other(kind: ChecksumKind): ChecksumKind {
    if kind == Crc32 then Crc32c else Crc32
  }

  /** Damage that changes no field with a fixed value, and leaves the named algorithm or makes it the other one. */
  lemma IntactIff(kind: ChecksumKind, r: seq<byte>, s: seq<byte>)
    requires |r| == |s| >= HEADER_SIZE && Corruption(r) == {} && r[5] == KindCode(kind)
    ensures Corruption(s) == {} <==>
      && s[..5] == r[..5] && s[6..12] == r[6..12]
      && ((s[5] == r[5] && Matches(kind, s)) || (s[5] == KindCode(Other(kind)) && Matches(Other(kind), s)))
  {
    FieldDefectsDecide(r, s);
    ChecksumDefectsDecide(kind, s);
    NothingIn(FieldDefects(ReadHeader(r), |r|), ChecksumDefects(r));
    NothingIn(FieldDefects(ReadHeader(s), |s|), ChecksumDefects(s));
  }

  lemma NothingIn(a: set<Defect>, b: set<Defect>)
    ensures a + b == {} <==> a == {} && b == {}
  {
    assert a <= a + b && b <= a + b;
  }

  lemma ChecksumDefectsDecide(kind: ChecksumKind, s: seq<byte>)
    requires |s| >= HEADER_SIZE
    ensures ChecksumDefects(s) == {} <==>
      (s[5] == KindCode(kind) && Matches(kind, s)) || (s[5] == KindCode(Other(kind)) && Matches(Other(kind), s))
  {
    var known := FindKind(s[5]);
    if s[5] == KindCode(kind) {
      assert known == [kind];
    } else if s[5] == KindCode(Other(kind)) {
      assert known == [Other(kind)];
    } else {
      assert forall k: ChecksumKind :: KindCode(k) != s[5];
      assert UnknownChecksum in ChecksumDefects(s);
    }
  }

  /** Only the algorithm byte is damaged, into the other code, and the two checksums happen to agree. */
  predicate Relabelled(kind: ChecksumKind, r: seq<byte>, s: seq<byte>)
    requires |r| == |s| >= HEADER_SIZE
  {
    s == r[5 := KindCode(Other(kind))] && Compute(Other(kind), Hashed(s)) == Compute(kind, Hashed(r))
  }

  /** The damage reaches from the checksum field into what follows it, and its two parts cancel. */
  predicate Straddles(kind: ChecksumKind, r: seq<byte>, s: seq<byte>)
    requires |r| == |s| >= HEADER_SIZE
  {
    s[..12] == r[..12] && s[12..16] != r[12..16] && s[16..] != r[16..] && Cancels(kind, r, s)
  }

  /** A burst leaves the bytes it does not reach alone. */
  lemma OutsideBurst(r: seq<byte>, s: seq<byte>, from: nat, k: nat)
    requires |r| == |s| && DifferWithinBurst(r, s, from) && k < |r|
    requires 8 * k + 8 <= from || from + 32 <= 8 * k
    ensures r[k] == s[k]
  {
    forall j | 0 <= j < 8 ensures Bits(r[k], 8)[j] == Bits(s[k], 8)[j] {
      var i := 8 * k + j;
      MessageBitAt(r, i, k, j);
      MessageBitAt(s, i, k, j);
      assert MessageBits(r)[i] == MessageBits(s)[i];
    }
    assert Bits(r[k], 8) == Bits(s[k], 8);
    ByteRoundTrip(r[k]);
    ByteRoundTrip(s[k]);
  }

  /** A burst that hits the algorithm byte does not get as far as the checksum field. */
  lemma AlgorithmByteBurst(r: seq<byte>, s: seq<byte>, from: nat)
    requires |r| == |s| >= HEADER_SIZE && DifferWithinBurst(r, s, from) && s[5] != r[5]
    ensures s[12..] == r[12..]
  {
    if from + 32 <= 40 || 48 <= from {
      OutsideBurst(r, s, from, 5);
      assert false;
    }
    forall k | 12 <= k < |r| ensures s[k] == r[k] {
      OutsideBurst(r, s, from, k);
    }
  }

  lemma OnlyOneByte(r: seq<byte>, s: seq<byte>, code: byte)
    requires |r| == |s| >= HEADER_SIZE && s[12..] == r[12..]
    ensures s == r[5 := code] <==> s[..5] == r[..5] && s[6..12] == r[6..12] && s[5] == code
  {
    if s[..5] == r[..5] && s[6..12] == r[6..12] && s[5] == code {
      assert s == s[..5] + [s[5]] + s[6..12] + s[12..];
      assert r == r[..5] + [r[5]] + r[6..12] + r[12..];
    }
  }

  lemma SameField(kind: ChecksumKind, other: ChecksumKind, r: seq<byte>, s: seq<byte>)
    requires |r| == |s| >= HEADER_SIZE && Matches(kind, r) && s[12..16] == r[12..16]
    ensures Matches(other, s) <==> Compute(other, Hashed(s)) == Compute(kind, Hashed(r))
  {
    MatchesIsEquality(kind, r);
    MatchesIsEquality(other, s);
  }

  lemma SameTail(r: seq<byte>, s: seq<byte>)
    requires |r| == |s| >= HEADER_SIZE && s[12..] == r[12..]
    ensures s[12..16] == r[12..16]
  {
    assert s[12..16] == s[12..][..4] && r[12..16] == r[12..][..4];
  }

  lemma RelabelledIff(kind: ChecksumKind, r: seq<byte>, s: seq<byte>, from: nat)
    requires |r| == |s| >= HEADER_SIZE && Corruption(r) == {} && r[5] == KindCode(kind)
    requires DifferWithinBurst(r, s, from) && s[5] != r[5]
    ensures Corruption(s) == {} <==> Relabelled(kind, r, s)
  {
    IntactIff(kind, r, r);
    IntactIff(kind, r, s);
    AlgorithmByteBurst(r, s, from);
    OnlyOneByte(r, s, KindCode(Other(kind)));
    SameTail(r, s);
    SameField(kind, Other(kind), r, s);
  }

  lemma StraddlesIff(kind: ChecksumKind, r: seq<byte>, s: seq<byte>, from: nat)
    requires |r| == |s| >= HEADER_SIZE && Corruption(r) == {} && r[5] == KindCode(kind)
    requires DifferWithinBurst(r, s, from) && s[5] == r[5] && s != r
    ensures Corruption(s) == {} <==> Straddles(kind, r, s)
  {
    IntactIff(kind, r, r);
    IntactIff(kind, r, s);
    PatternDecides(kind, r, s);
    HeadsAgree(r, s);
    if s[..12] == r[..12] && Matches(kind, s) {
      if s[12..16] == r[12..16] {
        BurstChangesChecksum(kind, r, s, from);
        ValueInjective(Compute(kind, Hashed(r)), Compute(kind, Hashed(s)));
        assert false;
      }
      if s[16..] == r[16..] {
        HashedClearsField(r);
        HashedClearsField(s);
        FieldDetermines(r, s);
        assert false;
      }
    }
  }

  lemma HeadsAgree(r: seq<byte>, s: seq<byte>)
    requires |r| == |s| >= HEADER_SIZE && s[5] == r[5]
    ensures s[..12] == r[..12] <==> s[..5] == r[..5] && s[6..12] == r[6..12]
  {
    assert s[..12] == s[..5] + [s[5]] + s[6..12] && r[..12] == r[..5] + [r[5]] + r[6..12];
    if s[..12] == r[..12] {
      assert s[..5] == s[..12][..5] && s[6..12] == s[..12][6..];
    }
  }

  /**
   * Exactly which damage within 32 consecutive bits of an intact packet goes unnoticed: the algorithm byte alone
   * turned into the other code with agreeing checksums, or a pattern across the end of the checksum field that cancels.
   */
  lemma UnnoticedIff(kind: ChecksumKind, r: seq<byte>, s: seq<byte>, from: nat)
    requires |r| == |s| >= HEADER_SIZE && Corruption(r) == {} && r[5] == KindCode(kind)
    requires DifferWithinBurst(r, s, from) && s != r
    ensures Corruption(s) == {} <==> Relabelled(kind, r, s) || Straddles(kind, r, s)
  {
    if s[5] == r[5] {
      StraddlesIff(kind, r, s, from);
    } else {
      RelabelledIff(kind, r, s, from);
      assert s[..12][5] != r[..12][5];
    }
  }

  /** What the receiver makes of a sealed packet damaged within 32 consecutive bits. */
  lemma DamageIsReported(t: Tracker, tolerance: int, kind: ChecksumKind, sequence: nat, timestamp: int64,
                         payload: seq<byte>, s: seq<byte>, from: nat, now: int)
    requires sequence < TWO_64 && |payload| < TWO_32
    requires var r := Sealed(kind, sequence, timestamp, payload); |s| == |r| && s != r && DifferWithinBurst(r, s, from)
    ensures var r := Sealed(kind, sequence, timestamp, payload); var (next, result) := Validated(t, tolerance, s, now);
      && (result.Corrupted() <==> !Relabelled(kind, r, s) && !Straddles(kind, r, s))
      && (result.Corrupted() ==> next == t)
  {
    var r := Sealed(kind, sequence, timestamp, payload);
    SealedIsIntact(kind, sequence, timestamp, payload);
    SealedReadsBack(kind, sequence, timestamp, payload);
    assert r[5] == ReadHeader(r).checksumKind == KindCode(kind);
    UnnoticedIff(kind, r, s, from);
    CorruptedIffCorruption(t, tolerance, s, now);
  }

  /** Whatever does not name the other algorithm and does not cross the end of the checksum field is reported. */
  lemma PlainDamageIsReported(t: Tracker, tolerance: int, kind: ChecksumKind, sequence: nat, timestamp: int64,
                              payload: seq<byte>, s: seq<byte>, from: nat, now: int)
    requires sequence < TWO_64 && |payload| < TWO_32
    requires var r := Sealed(kind, sequence, timestamp, payload);
      && |s| == |r| && s != r && DifferWithinBurst(r, s, from)
      && s[5] != KindCode(Other(kind)) && (s[12..16] == r[12..16] || s[16..] == r[16..])
    ensures var (next, result) := Validated(t, tolerance, s, now); result.Corrupted() && next == t
  {
    var r := Sealed(kind, sequence, timestamp, payload);
    DamageIsReported(t, tolerance, kind, sequence, timestamp, payload, s, from, now);
    RelabelledNames(kind, r, s);
  }

  lemma RelabelledNames(kind: ChecksumKind, r: seq<byte>, s: seq<byte>)
    requires |r| == |s| >= HEADER_SIZE
    ensures Relabelled(kind, r, s) ==> s[5] == KindCode(Other(kind))
  {
  }
}
