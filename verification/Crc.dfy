/** The CRC engine: reference definition, tables, the slice-by-8 loop and its error detection. */
module Crc {
  import opened Words

  type Word32 = w: seq<bool> | |w| == 32 witness Zeros(32)

  datatype ChecksumKind = Crc32 | Crc32c

  /** The number stored in a packet header (one byte). */
  function KindCode(kind: ChecksumKind): byte {
    match kind
    case Crc32 => 1
    case Crc32c => 2
  }

  /** ChecksumRegistry::find: the algorithm a header names, if this build knows it. */
  function FindKind(code: byte): (r: seq<ChecksumKind>)
    ensures forall kind :: r == [kind] <==> KindCode(kind) == code
    ensures r == [] <==> forall kind :: KindCode(kind) != code
  {
    if code == 1 then [Crc32]
    else if code == 2 then [Crc32c]
    else
      assert forall kind :: KindCode(kind) == 1 || KindCode(kind) == 2;
      []
  }

  /** The reflected polynomials of section 8 of RFC 1952 and section 12.1 of RFC 3720. */
  function Polynomial(kind: ChecksumKind): Word32 {
    match kind
    case Crc32 => Bits(0xEDB88320, 32)
    case Crc32c => Bits(0x82F63B78, 32)
  }

  // ------------------------------------------------------------ reference definition

  /** One zero bit: shift right, and subtract the polynomial if a one fell out. */
  function Step(p: Word32, c: Word32): Word32 {
    if c[0] then Xor(p, c[1..] + [false]) else c[1..] + [false]
  }

  function Advance(p: Word32, c: Word32, n: nat): Word32
    decreases n, |c|
  {
    if n == 0 then c else Advance(p, Step(p, c), n - 1)
  }

  /** Combines up to 32 message bits with the low bits of the state. */
  function Feed(c: Word32, m: seq<bool>): Word32
    requires |m| <= 32
  {
    Xor(c, m + Zeros(32 - |m|))
  }

  /** The bit-at-a-time CRC, byte by byte. */
  function Reference(p: Word32, c: Word32, data: seq<byte>): Word32
    decreases |data|
  {
    if data == [] then c
    else Reference(p, Advance(p, Feed(c, Bits(data[0], 8)), 8), data[1..])
  }

  /** The same register driven by single message bits. */
  function OverBits(p: Word32, c: Word32, m: seq<bool>): Word32
    decreases |m|
  {
    if m == [] then c else OverBits(p, Step(p, Feed(c, m[..1])), m[1..])
  }

  /** The order in which the register sees the bits of a byte string. */
  function MessageBits(data: seq<byte>): (m: seq<bool>)
    ensures |m| == 8 * |data|
  {
    if data == [] then [] else Bits(data[0], 8) + MessageBits(data[1..])
  }

  // ------------------------------------------------------------ algebra of the register

  lemma StepLinear(p: Word32, a: Word32, b: Word32)
    ensures Step(p, Xor(a, b)) == Xor(Step(p, a), Step(p, b))
  {
  }

  lemma {:induction false} AdvanceLinear(p: Word32, a: Word32, b: Word32, n: nat)
    ensures Advance(p, Xor(a, b), n) == Xor(Advance(p, a, n), Advance(p, b, n))
    decreases n
  {
    if n != 0 {
      StepLinear(p, a, b);
      AdvanceLinear(p, Step(p, a), Step(p, b), n - 1);
    }
  }

  lemma {:induction false} AdvanceAdds(p: Word32, c: Word32, m: nat, n: nat)
    ensures Advance(p, c, m + n) == Advance(p, Advance(p, c, m), n)
    decreases m
  {
    if m != 0 {
      AdvanceAdds(p, Step(p, c), m - 1, n);
    }
  }

  /** Zero low bits are simply shifted out. */
  lemma {:induction false} AdvanceShifts(p: Word32, c: Word32, n: nat)
    requires n <= 32 && c[..n] == Zeros(n)
    ensures Advance(p, c, n) == c[n..] + Zeros(n)
    decreases n
  {
    if n != 0 {
      var d := c[1..] + [false];
      OneZeroLess(c, d, n);
      AdvanceShifts(p, d, n - 1);
    }
  }

  lemma OneZeroLess(c: Word32, d: Word32, n: nat)
    requires 0 < n <= 32 && c[..n] == Zeros(n) && d == c[1..] + [false]
    ensures !c[0] && d[..n - 1] == Zeros(n - 1) && d[n - 1..] + Zeros(n - 1) == c[n..] + Zeros(n)
  {
    assert c[0] == c[..n][0];
    assert forall i :: 0 <= i < n - 1 ==> d[i] == c[..n][i + 1];
  }

  lemma StepInjective(p: Word32, a: Word32, b: Word32)
    requires p[31] && Step(p, a) == Step(p, b)
    ensures a == b
  {
    var x, y := a[1..] + [false], b[1..] + [false];
    assert Step(p, a)[31] == a[0] && Step(p, b)[31] == b[0];
    assert x == y by {
      assert forall i :: 0 <= i < 32 ==> x[i] == (Step(p, a)[i] != (a[0] && p[i]));
      assert forall i :: 0 <= i < 32 ==> y[i] == (Step(p, b)[i] != (b[0] && p[i]));
    }
    assert forall i :: 1 <= i < 32 ==> a[i] == x[i - 1] && b[i] == y[i - 1];
  }

  lemma {:induction false} AdvanceInjective(p: Word32, a: Word32, b: Word32, n: nat)
    requires p[31] && Advance(p, a, n) == Advance(p, b, n)
    ensures a == b
    decreases n
  {
    if n != 0 {
      AdvanceInjective(p, Step(p, a), Step(p, b), n - 1);
      StepInjective(p, a, b);
    }
  }

  /** Both polynomials have their top bit set, which is what makes the register invertible. */
  lemma PolynomialTopBit(kind: ChecksumKind)
    ensures Polynomial(kind)[31]
  {
    TopBit(0xEDB88320);
    TopBit(0x82F63B78);
  }

  lemma TopBit(x: nat)
    requires TWO_32 / 2 <= x < TWO_32
    ensures Bits(x, 32)[31]
  {
    Pow2Of32();
    BitsSplit(x, 31, 1);
    ShrBounds(x, 31, 0);
    ShrBounds(x, 31, 1);
  }

  // ------------------------------------------------------------ bits, bytes and splits

  lemma {:induction false} OverBitsAdds(p: Word32, c: Word32, m: seq<bool>, n: seq<bool>)
    ensures OverBits(p, c, m + n) == OverBits(p, OverBits(p, c, m), n)
    decreases |m|
  {
    if m == [] {
      assert m + n == n;
    } else {
      assert (m + n)[..1] == m[..1] && (m + n)[1..] == m[1..] + n;
      OverBitsAdds(p, Step(p, Feed(c, m[..1])), m[1..], n);
    }
  }

  /** Combining all of m and taking one step leaves the rest of m combined. */
  lemma FeedThenStep(p: Word32, c: Word32, m: seq<bool>)
    requires 0 < |m| <= 32
    ensures Step(p, Feed(c, m)) == Feed(Step(p, Feed(c, m[..1])), m[1..])
  {
    var first, rest := m[..1], m[1..];
    var r := [false] + rest + Zeros(31 - |rest|);
    assert Feed(c, m) == Xor(Feed(c, first), r);
    StepLinear(p, Feed(c, first), r);
    assert Step(p, r) == rest + Zeros(32 - |rest|);
  }

  /** Up to 32 message bits may be combined with the register at once and then advanced together. */
  lemma {:induction false} OverBitsIsAdvance(p: Word32, c: Word32, m: seq<bool>)
    requires |m| <= 32
    ensures OverBits(p, c, m) == Advance(p, Feed(c, m), |m|)
    decreases |m|
  {
    if m == [] {
      assert Feed(c, m) == c;
    } else {
      var d, rest := Step(p, Feed(c, m[..1])), m[1..];
      FeedThenStep(p, c, m);
      OverBitsIsAdvance(p, d, rest);
      assert OverBits(p, c, m) == OverBits(p, d, rest) == Advance(p, Feed(d, rest), |rest|);
    }
  }

  lemma {:induction false} ReferenceIsOverBits(p: Word32, c: Word32, data: seq<byte>)
    ensures Reference(p, c, data) == OverBits(p, c, MessageBits(data))
    decreases |data|
  {
    if data != [] {
      var m := Bits(data[0], 8);
      OverBitsIsAdvance(p, c, m);
      OverBitsAdds(p, c, m, MessageBits(data[1..]));
      ReferenceIsOverBits(p, Advance(p, Feed(c, m), 8), data[1..]);
    }
  }

  /** Hashing in pieces, cut anywhere, is hashing in one go. */
  lemma {:induction false} ReferenceAdds(p: Word32, c: Word32, a: seq<byte>, b: seq<byte>)
    ensures Reference(p, c, a + b) == Reference(p, Reference(p, c, a), b)
    decreases |a|
  {
    if a == [] {
      assert a + b == b;
    } else {
      assert (a + b)[1..] == a[1..] + b;
      ReferenceAdds(p, Advance(p, Feed(c, Bits(a[0], 8)), 8), a[1..], b);
    }
  }

  lemma {:induction false} MessageBitAt(a: seq<byte>, i: nat, k: nat, j: nat)
    requires k < |a| && j < 8 && i == 8 * k + j
    ensures MessageBits(a)[i] == Bits(a[k], 8)[j]
    decreases k
  {
    if k > 0 {
      MessageBitAt(a[1..], i - 8, k - 1, j);
    }
  }

  lemma {:induction false} FieldIsValue(field: seq<byte>)
    ensures FromLe(field) == Value(MessageBits(field))
  {
    if field != [] {
      FieldIsValue(field[1..]);
      ByteRoundTrip(field[0]);
      Pow2Of8();
      ValueAdds(Bits(field[0], 8), MessageBits(field[1..]));
    }
  }

  lemma BitsOfField(w: Word32)
    ensures MessageBits(Le(Value(w), 4)) == w
  {
    Pow2Of32();
    FieldIsValue(Le(Value(w), 4));
    FromLeOfLe(Value(w), 4);
    ValueInjective(MessageBits(Le(Value(w), 4)), w);
  }

  // ------------------------------------------------------------ tables

  /** What entry [k][i] of the tables must hold: byte i followed by k zero bytes. */
  function Entry(p: Word32, k: nat, b: seq<bool>): Word32
    requires |b| == 8
  {
    Advance(p, b + Zeros(24), 8 * (k + 1))
  }

  /** Eight slices of 256 entries. */
  type CrcTable = t: seq<seq<Word32>> | |t| == 8 && forall k :: 0 <= k < 8 ==> |t[k]| == 256
    witness seq(8, _ => seq(256, _ => Zeros(32)))

  ghost predicate TableFor(table: CrcTable, p: Word32) {
    forall k, i :: 0 <= k < 8 && 0 <= i < 256 ==> table[k][i] == Entry(p, k, Bits(i, 8))
  }

  lemma Lookup(table: CrcTable, p: Word32, k: nat, b: seq<bool>)
    requires TableFor(table, p) && k < 8 && |b| == 8
    ensures Value(b) < 256 && table[k][Value(b)] == Entry(p, k, b)
  {
    Pow2Of8();
    BitsOfValue(b);
  }

  /** Eight steps at once: the low byte goes through the table, the rest shifts. */
  lemma AdvanceByByte(p: Word32, c: Word32)
    ensures Advance(p, c, 8) == Xor(c[8..] + Zeros(8), Entry(p, 0, c[0..8]))
  {
    var low, high := c[0..8] + Zeros(24), Zeros(8) + c[8..];
    assert c == Xor(high, low);
    AdvanceLinear(p, high, low, 8);
    AdvanceShifts(p, high, 8);
    assert high[8..] == c[8..];
  }

  method MakeCrcTable(p: Word32) returns (table: CrcTable)
    ensures TableFor(table, p)
  {
    var first := MakeByteRow(p);
    table := [first] + seq(7, _ => seq(256, _ => Zeros(32)));
    for i := 0 to 256
      invariant FilledTo(table, p, i, 1)
    {
      for slice := 1 to 8
        invariant FilledTo(table, p, i, slice)
      {
        var prev := table[slice - 1][i];
        NextEntry(p, slice, Bits(i, 8));
        var entry: Word32 := Xor(prev[8..] + Zeros(8), table[0][Value(prev[0..8])]);
        var row: seq<Word32> := table[slice][i := entry];
        table := table[slice := row];
      }
    }
  }

  /** The first loop of the table builder: eight single-bit steps for every byte value. */
  method MakeByteRow(p: Word32) returns (row: seq<Word32>)
    ensures |row| == 256 && forall j :: 0 <= j < 256 ==> row[j] == Entry(p, 0, Bits(j, 8))
  {
    row := [];
    for i := 0 to 256
      invariant |row| == i && forall j :: 0 <= j < i ==> row[j] == Entry(p, 0, Bits(j, 8))
    {
      var crc := ByteEntry(p, i);
      row := row + [crc];
    }
  }

  method ByteEntry(p: Word32, i: nat) returns (crc: Word32)
    requires i < 256
    ensures crc == Entry(p, 0, Bits(i, 8))
  {
    crc := Bits(i, 32);
    ByteAsWord(i);
    for bit := 0 to 8
      invariant Entry(p, 0, Bits(i, 8)) == Advance(p, crc, 8 - bit)
    {
      crc := if crc[0] then Xor(p, crc[1..] + [false]) else crc[1..] + [false];
    }
  }

  /** Slice 0, all columns before i, and the first `slice` entries of column i are in place. */
  ghost predicate FilledTo(table: CrcTable, p: Word32, i: nat, slice: nat) {
    forall k, j :: 0 <= k < 8 && 0 <= j < 256 && (k == 0 || j < i || (j == i && k < slice)) ==>
      table[k][j] == Entry(p, k, Bits(j, 8))
  }

  lemma NextEntry(p: Word32, k: nat, b: seq<bool>)
    requires k > 0 && |b| == 8
    ensures var prev := Entry(p, k - 1, b);
      && Value(prev[0..8]) < 256 && Bits(Value(prev[0..8]), 8) == prev[0..8]
      && Entry(p, k, b) == Xor(prev[8..] + Zeros(8), Entry(p, 0, prev[0..8]))
  {
    var prev := Entry(p, k - 1, b);
    Pow2Of8();
    BitsOfValue(prev[0..8]);
    AdvanceByByte(p, prev);
    AdvanceAdds(p, b + Zeros(24), 8 * k, 8);
  }

  lemma ByteAsWord(i: nat)
    requires i < 256
    ensures Bits(i, 32) == Bits(i, 8) + Zeros(24)
  {
    Pow2Of8();
    BitsSplit(i, 8, 24);
    ShrBounds(i, 8, 0);
    BitsOfZero(24);
  }

  lemma {:induction false} BitsOfZero(n: nat)
    ensures Bits(0, n) == Zeros(n)
  {
    if n != 0 {
      BitsOfZero(n - 1);
    }
  }

  // ------------------------------------------------------------ slice-by-8

  function LoadLe32(d: seq<byte>): Word32
    requires |d| == 4
  {
    Bits(d[0], 8) + Bits(d[1], 8) + Bits(d[2], 8) + Bits(d[3], 8)
  }

  lemma {:induction false} MessageBitsAdds(a: seq<byte>, b: seq<byte>)
    ensures MessageBits(a + b) == MessageBits(a) + MessageBits(b)
    decreases |a|
  {
    if a == [] {
      assert a + b == b;
    } else {
      assert (a + b)[1..] == a[1..] + b;
      MessageBitsAdds(a[1..], b);
    }
  }

  lemma MessageBitsOfWord(d: seq<byte>)
    requires |d| == 4
    ensures MessageBits(d) == LoadLe32(d)
  {
    var d1 := d[1..];
    var d2 := d1[1..];
    var d3 := d2[1..];
    assert MessageBits(d3) == Bits(d[3], 8) + [];
    assert MessageBits(d2) == Bits(d[2], 8) + MessageBits(d3);
    assert MessageBits(d1) == Bits(d[1], 8) + MessageBits(d2);
  }

  /** c is what remains of w when all bits outside lo..hi are cleared. */
  ghost predicate Keeps(c: Word32, w: Word32, lo: nat, hi: nat) {
    forall i :: 0 <= i < 32 ==> c[i] == (lo <= i < hi && w[i])
  }

  /** The bits lo..hi of w, the others cleared. */
  function Alone(w: Word32, lo: nat, hi: nat): (c: Word32)
    requires lo <= hi <= 32
    ensures Keeps(c, w, lo, hi)
  {
    seq(32, i requires 0 <= i < 32 => lo <= i < hi && w[i])
  }

  lemma AloneShifted(w: Word32, c: Word32, lo: nat, hi: nat)
    requires hi == lo + 8 <= 32 && Keeps(c, w, lo, hi)
    ensures c[..lo] == Zeros(lo) && c[lo..] + Zeros(lo) == w[lo..hi] + Zeros(24)
  {
    var x, y := c[lo..] + Zeros(lo), w[lo..hi] + Zeros(24);
    assert |x| == |y| == 32;
    assert forall i :: 0 <= i < 8 ==> x[i] == c[lo + i] == w[lo + i] == y[i];
    assert forall i :: 8 <= i < 32 ==> !x[i] && !y[i];
  }

  /** A byte that sits lo bits up in the register needs lo steps fewer. */
  lemma OneByte(p: Word32, w: Word32, lo: nat, hi: nat, slice: nat, n: nat) returns (c: Word32)
    requires hi == lo + 8 <= 32 && n == lo + 8 * slice + 8
    ensures Keeps(c, w, lo, hi)
    ensures Advance(p, c, n) == Entry(p, slice, w[lo..hi])
  {
    c := Alone(w, lo, hi);
    var rest := n - lo;
    AdvanceAdds(p, c, lo, rest);
    AloneShifted(w, c, lo, hi);
    AdvanceShifts(p, c, lo);
    assert rest == 8 * (slice + 1);
  }

  function Xor4(a: Word32, b: Word32, c: Word32, d: Word32): Word32 {
    Xor(Xor(Xor(a, b), c), d)
  }

  /** Four table entries, one per byte of the register, most significant byte first. */
  function FourEntries(p: Word32, k: nat, w: Word32): Word32 {
    Xor4(Entry(p, k, w[24..32]), Entry(p, k + 1, w[16..24]), Entry(p, k + 2, w[8..16]), Entry(p, k + 3, w[0..8]))
  }

  lemma AdvanceXor4(p: Word32, a: Word32, b: Word32, c: Word32, d: Word32, n: nat)
    ensures Advance(p, Xor4(a, b, c, d), n)
         == Xor4(Advance(p, a, n), Advance(p, b, n), Advance(p, c, n), Advance(p, d, n))
  {
    AdvanceLinear(p, Xor(Xor(a, b), c), d, n);
    AdvanceLinear(p, Xor(a, b), c, n);
    AdvanceLinear(p, a, b, n);
  }

  lemma EntriesCombine(p: Word32, w: Word32, k: nat, n: nat, a: Word32, b: Word32, c: Word32, d: Word32)
    requires Keeps(a, w, 24, 32) && Keeps(b, w, 16, 24) && Keeps(c, w, 8, 16) && Keeps(d, w, 0, 8)
    requires Advance(p, a, n) == Entry(p, k, w[24..32]) && Advance(p, b, n) == Entry(p, k + 1, w[16..24])
    requires Advance(p, c, n) == Entry(p, k + 2, w[8..16]) && Advance(p, d, n) == Entry(p, k + 3, w[0..8])
    ensures Advance(p, w, n) == FourEntries(p, k, w)
  {
    assert w == Xor4(a, b, c, d);
    AdvanceXor4(p, a, b, c, d, n);
  }

  /** Advancing a whole register is four table entries. */
  lemma AdvanceSplits(p: Word32, w: Word32, k: nat, n: nat)
    requires n == 8 * k + 32
    ensures Advance(p, w, n) == FourEntries(p, k, w)
  {
    var a := OneByte(p, w, 24, 32, k, n);
    var b := OneByte(p, w, 16, 24, k + 1, n);
    var c := OneByte(p, w, 8, 16, k + 2, n);
    var d := OneByte(p, w, 0, 8, k + 3, n);
    EntriesCombine(p, w, k, n, a, b, c, d);
  }

  /** Eight message bytes are two registers full. */
  lemma ReferenceOfBlock(p: Word32, c: Word32, d: seq<byte>)
    requires |d| == 8
    ensures Reference(p, c, d)
         == Xor(Advance(p, LoadLe32(d[4..]), 32), Advance(p, Xor(LoadLe32(d[..4]), c), 64))
  {
    var m: seq<bool>, n: seq<bool> := LoadLe32(d[..4]), LoadLe32(d[4..]);
    var one := Xor(m, c);
    ReferenceIsOverBits(p, c, d);
    assert MessageBits(d) == m + n by {
      assert d == d[..4] + d[4..];
      MessageBitsAdds(d[..4], d[4..]);
      MessageBitsOfWord(d[..4]);
      MessageBitsOfWord(d[4..]);
    }
    OverBitsAdds(p, c, m, n);
    FeedWord(p, c, m);
    FeedWord(p, Advance(p, one, 32), n);
    AdvanceLinear(p, n, Advance(p, one, 32), 32);
    AdvanceAdds(p, one, 32, 32);
  }

  lemma FeedWord(p: Word32, c: Word32, m: Word32)
    ensures OverBits(p, c, m) == Advance(p, Xor(m, c), 32)
  {
    OverBitsIsAdvance(p, c, m);
    assert Feed(c, m) == Xor(m, c);
  }

  lemma BlockByTables(p: Word32, c: Word32, d: seq<byte>)
    requires |d| == 8
    ensures Reference(p, c, d)
         == Xor(FourEntries(p, 0, LoadLe32(d[4..])), FourEntries(p, 4, Xor(LoadLe32(d[..4]), c)))
  {
    ReferenceOfBlock(p, c, d);
    AdvanceSplits(p, LoadLe32(d[4..]), 0, 32);
    AdvanceSplits(p, Xor(LoadLe32(d[..4]), c), 4, 64);
  }

  lemma ConsumeBlock(p: Word32, c: Word32, data: seq<byte>, at: nat)
    requires at + 8 <= |data|
    ensures Reference(p, c, data[at..]) == Reference(p, Reference(p, c, data[at..at + 8]), data[at + 8..])
  {
    assert data[at..] == data[at..at + 8] + data[at + 8..];
    ReferenceAdds(p, c, data[at..at + 8], data[at + 8..]);
  }

  lemma ConsumeByte(p: Word32, c: Word32, data: seq<byte>, at: nat)
    requires at < |data|
    ensures var next := Xor(Entry(p, 0, Xor(c[0..8], Bits(data[at], 8))), c[8..] + Zeros(8));
      Reference(p, c, data[at..]) == Reference(p, next, data[at + 1..])
  {
    var fed := Feed(c, Bits(data[at], 8));
    AdvanceByByte(p, fed);
    assert fed[0..8] == Xor(c[0..8], Bits(data[at], 8));
    assert fed[8..] == c[8..];
    var b := Entry(p, 0, fed[0..8]);
    assert Xor(c[8..] + Zeros(8), b) == Xor(b, c[8..] + Zeros(8));
  }

  /** The eight-table loop with its byte tail computes the bit-at-a-time CRC. */
  method CrcSliceBy8(table: CrcTable, ghost p: Word32, start: Word32, data: seq<byte>) returns (crc: Word32)
    requires TableFor(table, p)
    ensures crc == Reference(p, start, data)
  {
    crc := start;
    var at := 0;
    while |data| - at >= 8
      invariant 0 <= at <= |data|
      invariant Reference(p, crc, data[at..]) == Reference(p, start, data)
    {
      ConsumeBlock(p, crc, data, at);
      crc := BlockStep(table, p, crc, data[at..at + 8]);
      at := at + 8;
    }
    while at < |data|
      invariant 0 <= at <= |data|
      invariant Reference(p, crc, data[at..]) == Reference(p, start, data)
    {
      ConsumeByte(p, crc, data, at);
      crc := ByteStep(table, p, crc, data[at]);
      at := at + 1;
    }
  }

  /** The body of the eight-byte loop. */
  method BlockStep(table: CrcTable, ghost p: Word32, c: Word32, d: seq<byte>) returns (r: Word32)
    requires TableFor(table, p) && |d| == 8
    ensures r == Reference(p, c, d)
  {
    BlockByTables(p, c, d);
    var low := LookupFour(table, p, 0, LoadLe32(d[4..]));
    var high := LookupFour(table, p, 4, Xor(LoadLe32(d[..4]), c));
    r := Xor(low, high);
  }

  /** The body of the single-byte loop. */
  method ByteStep(table: CrcTable, ghost p: Word32, c: Word32, b: byte) returns (r: Word32)
    requires TableFor(table, p)
    ensures r == Xor(Entry(p, 0, Xor(c[0..8], Bits(b, 8))), c[8..] + Zeros(8))
  {
    var index := Xor(c[0..8], Bits(b, 8));
    Lookup(table, p, 0, index);
    r := Xor(table[0][Value(index)], c[8..] + Zeros(8));
  }

  method LookupFour(table: CrcTable, ghost p: Word32, k: nat, w: Word32) returns (r: Word32)
    requires TableFor(table, p) && k <= 4
    ensures r == FourEntries(p, k, w)
  {
    Lookup(table, p, k, w[24..32]);
    Lookup(table, p, k + 1, w[16..24]);
    Lookup(table, p, k + 2, w[8..16]);
    Lookup(table, p, k + 3, w[0..8]);
    r := Xor4(table[k][Value(w[24..32])], table[k + 1][Value(w[16..24])],
              table[k + 2][Value(w[8..16])], table[k + 3][Value(w[0..8])]);
  }

  // ------------------------------------------------------------ error detection

  lemma {:induction false} OverBitsInjectiveInState(p: Word32, a: Word32, b: Word32, m: seq<bool>)
    requires p[31] && OverBits(p, a, m) == OverBits(p, b, m)
    ensures a == b
    decreases |m|
  {
    if m != [] {
      var fa, fb := Feed(a, m[..1]), Feed(b, m[..1]);
      OverBitsInjectiveInState(p, Step(p, fa), Step(p, fb), m[1..]);
      StepInjective(p, fa, fb);
      FeedInjective(a, b, m[..1], m[..1]);
    }
  }

  /** The same state with equally long inputs, or the same input: Feed loses neither. */
  lemma FeedInjective(a: Word32, b: Word32, m: seq<bool>, n: seq<bool>)
    requires |m| == |n| <= 32 && Feed(a, m) == Feed(b, n)
    ensures m == n ==> a == b
    ensures a == b ==> m == n
  {
    assert forall i :: 0 <= i < 32 ==> Feed(a, m)[i] == (a[i] != (i < |m| && m[i]));
    assert forall i :: 0 <= i < 32 ==> Feed(b, n)[i] == (b[i] != (i < |n| && n[i]));
  }

  /** Two bit streams that differ only inside 32 consecutive bits never have the same CRC. */
  lemma BurstChangesRegister(p: Word32, c: Word32, pre: seq<bool>, m: seq<bool>, n: seq<bool>, post: seq<bool>)
    requires p[31] && |m| == |n| <= 32 && m != n
    ensures OverBits(p, c, pre + m + post) != OverBits(p, c, pre + n + post)
  {
    var start := OverBits(p, c, pre);
    var x, y := OverBits(p, start, m), OverBits(p, start, n);
    OverBitsAdds(p, c, pre + m, post);
    OverBitsAdds(p, c, pre + n, post);
    OverBitsAdds(p, c, pre, m);
    OverBitsAdds(p, c, pre, n);
    if OverBits(p, x, post) == OverBits(p, y, post) {
      OverBitsInjectiveInState(p, x, y, post);
      OverBitsIsAdvance(p, start, m);
      OverBitsIsAdvance(p, start, n);
      AdvanceInjective(p, Feed(start, m), Feed(start, n), |m|);
      FeedInjective(start, start, m, n);
      assert false;
    }
  }

  lemma {:induction false} MessageBitsInjective(a: seq<byte>, b: seq<byte>)
    requires |a| == |b| && MessageBits(a) == MessageBits(b)
    ensures a == b
    decreases |a|
  {
    if a != [] {
      assert MessageBits(a)[..8] == Bits(a[0], 8) && MessageBits(b)[..8] == Bits(b[0], 8);
      assert MessageBits(a)[8..] == MessageBits(a[1..]) && MessageBits(b)[8..] == MessageBits(b[1..]);
      ByteRoundTrip(a[0]);
      ByteRoundTrip(b[0]);
      MessageBitsInjective(a[1..], b[1..]);
    }
  }

  /** The bits of a and b agree everywhere outside the 32 bits that start at `from`. */
  ghost predicate DifferWithinBurst(a: seq<byte>, b: seq<byte>, from: nat)
    requires |a| == |b|
  {
    forall i :: 0 <= i < 8 * |a| && !(from <= i < from + 32) ==> MessageBits(a)[i] == MessageBits(b)[i]
  }

  /** Any error burst of at most 32 bits, wherever it starts, changes the CRC. */
  lemma BurstDetected(kind: ChecksumKind, c: Word32, a: seq<byte>, b: seq<byte>, from: nat)
    requires |a| == |b| && a != b && DifferWithinBurst(a, b, from)
    ensures Reference(Polynomial(kind), c, a) != Reference(Polynomial(kind), c, b)
  {
    var p, x, y := Polynomial(kind), MessageBits(a), MessageBits(b);
    if x == y {
      MessageBitsInjective(a, b);
      assert false;
    }
    var lo := if from < |x| then from else |x|;
    var hi := if lo + 32 < |x| then lo + 32 else |x|;
    CutOut(x, y, lo, hi);
    PolynomialTopBit(kind);
    BurstChangesRegister(p, c, x[..lo], x[lo..hi], y[lo..hi], x[hi..]);
    ReferenceIsOverBits(p, c, a);
    ReferenceIsOverBits(p, c, b);
  }

  lemma CutOut(x: seq<bool>, y: seq<bool>, lo: nat, hi: nat)
    requires |x| == |y| && lo <= hi <= |x|
    requires forall i :: 0 <= i < |x| && !(lo <= i < hi) ==> x[i] == y[i]
    ensures x == x[..lo] + x[lo..hi] + x[hi..]
    ensures y == x[..lo] + y[lo..hi] + x[hi..]
  {
  }

  // ------------------------------------------------------------ the checksum object

  function Begin(): Word32 { Ones(32) }

  function Finish(state: Word32): Word32 { Xor(state, Ones(32)) }

  function Compute(kind: ChecksumKind, data: seq<byte>): Word32 {
    Finish(Reference(Polynomial(kind), Begin(), data))
  }

  lemma FinishInjective(a: Word32, b: Word32)
    requires Finish(a) == Finish(b)
    ensures a == b
  {
    assert forall i :: 0 <= i < 32 ==> a[i] == !Finish(a)[i] && b[i] == !Finish(b)[i];
  }

  /** The stored number is what is missing from the register to all ones. */
  lemma {:induction false} ValueOfComplement(w: seq<bool>)
    ensures Value(Xor(w, Ones(|w|))) == Pow2(|w|) - 1 - Value(w)
    decreases |w|
  {
    if w != [] {
      var n := |w| - 1;
      assert Xor(w, Ones(|w|))[1..] == Xor(w[1..], Ones(n));
      ValueOfComplement(w[1..]);
    }
  }

  /** Hashing the stored checksum behind the data it belongs to always ends in the same register, whatever the data. */
  lemma ResidueLaw(kind: ChecksumKind, data: seq<byte>)
    ensures Reference(Polynomial(kind), Begin(), data + Le(Value(Compute(kind, data)), 4))
         == Advance(Polynomial(kind), Ones(32), 32)
  {
    var p, field := Polynomial(kind), Le(Value(Compute(kind, data)), 4);
    ReferenceAdds(p, Begin(), data, field);
    var c := Reference(p, Begin(), data);
    FieldFeeds(p, c, Compute(kind, data), field);
    ComplementFills(c);
  }

  lemma ComplementFills(c: Word32)
    ensures Xor(Finish(c), c) == Ones(32)
  {
  }

  lemma FieldFeeds(p: Word32, c: Word32, w: Word32, field: seq<byte>)
    requires field == Le(Value(w), 4)
    ensures Reference(p, c, field) == Advance(p, Xor(w, c), 32)
  {
    BitsOfField(w);
    ReferenceIsOverBits(p, c, field);
    FeedWord(p, c, w);
  }

  /** Crc32, and Crc32c without hardware support: the constant tables and the loop over them. */
  class Checksum {
    const kind: ChecksumKind
    const table: CrcTable

    ghost predicate Valid() {
      TableFor(table, Polynomial(kind))
    }

    constructor (kind: ChecksumKind)
      ensures Valid() && this.kind == kind
    {
      this.kind := kind;
      var t := MakeCrcTable(Polynomial(kind));
      table := t;
    }

    method Update(state: Word32, data: seq<byte>) returns (r: Word32)
      requires Valid()
      ensures r == Reference(Polynomial(kind), state, data)
    {
      r := CrcSliceBy8(table, Polynomial(kind), state, data);
    }
  }
}
