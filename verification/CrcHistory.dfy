/**
 * The CRC register in terms of the bits that have left it: each bit of it is the sum of those that the polynomial has fed
 * back, so the next one follows from the 32 before it. Concrete checksums are computed this way.
 */
module CrcHistory {
  import opened Words
  import opened Crc

  // ------------------------------------------------------------ the polynomials, bit by bit

  lemma Byte78()
    ensures var b := Bits(0x78, 8); !b[0] && !b[1] && !b[2] && b[3] && b[4] && b[5] && b[6] && !b[7]
  {
  }

  lemma Byte3B()
    ensures var b := Bits(0x3B, 8); b[0] && b[1] && !b[2] && b[3] && b[4] && b[5] && !b[6] && !b[7]
  {
  }

  lemma ByteF6()
    ensures var b := Bits(0xF6, 8); !b[0] && b[1] && b[2] && !b[3] && b[4] && b[5] && b[6] && b[7]
  {
  }

  lemma Byte82()
    ensures var b := Bits(0x82, 8); !b[0] && b[1] && !b[2] && !b[3] && !b[4] && !b[5] && !b[6] && b[7]
  {
  }

  lemma Byte20()
    ensures var b := Bits(0x20, 8); !b[0] && !b[1] && !b[2] && !b[3] && !b[4] && b[5] && !b[6] && !b[7]
  {
  }

  lemma Byte83()
    ensures var b := Bits(0x83, 8); b[0] && b[1] && !b[2] && !b[3] && !b[4] && !b[5] && !b[6] && b[7]
  {
  }

  lemma ByteB8()
    ensures var b := Bits(0xB8, 8); !b[0] && !b[1] && !b[2] && b[3] && b[4] && b[5] && !b[6] && b[7]
  {
  }

  lemma ByteED()
    ensures var b := Bits(0xED, 8); b[0] && !b[1] && b[2] && b[3] && !b[4] && b[5] && b[6] && b[7]
  {
  }

  lemma {:induction false} ShrDivides(x: nat, n: nat)
    ensures Shr(x, n) == x / Pow2(n)
    decreases n
  {
    if n != 0 {
      ShrDivides(x / 2, n - 1);
      Halve(x, Pow2(n - 1));
    }
  }

  lemma LowByte(x: nat, high: nat, low: nat, n: nat)
    requires low < 256 && x == 256 * high + low
    ensures Bits(x, 8 + n) == Bits(low, 8) + Bits(high, n)
  {
    BitsSplit(x, 8, n);
    HighPart(x, high, low);
    LowPart(x, high, low);
  }

  lemma HighPart(x: nat, high: nat, low: nat)
    requires low < 256 && x == 256 * high + low
    ensures Shr(x, 8) == high
  {
    Pow2Of8();
    ShrDivides(x, 8);
  }

  lemma LowPart(x: nat, high: nat, low: nat)
    requires low < 256 && x == 256 * high + low
    ensures Bits(x, 8) == Bits(low, 8)
  {
    var w, n := Bits(x, 8), 8;
    Pow2Of8();
    ValueOfBits(x, n);
    ModuloUnique(x, 256, high, low);
    assert Value(w) == low && |w| == n;
    BitsOfValue(w);
  }

  lemma FourBytes(x: nat, x1: nat, x2: nat, b0: nat, b1: nat, b2: nat, b3: nat)
    requires b0 < 256 && b1 < 256 && b2 < 256 && b3 < 256
    requires x == 256 * x1 + b0 && x1 == 256 * x2 + b1 && x2 == 256 * b3 + b2
    ensures Bits(x, 32) == Bits(b0, 8) + (Bits(b1, 8) + (Bits(b2, 8) + Bits(b3, 8)))
  {
    LowByte(x, x1, b0, 24);
    LowByte(x1, x2, b1, 16);
    LowByte(x2, b3, b2, 8);
  }

  /** The bits of 0x82F63B78. */
  predicate Castagnoli(p: Word32) {
    !p[0] && !p[1] && !p[2] && p[3] && p[4] && p[5] && p[6] && !p[7] && p[8] && p[9] && !p[10] && p[11] && p[12]
    && p[13] && !p[14] && !p[15] && !p[16] && p[17] && p[18] && !p[19] && p[20] && p[21] && p[22] && p[23] && !p[24]
    && p[25] && !p[26] && !p[27] && !p[28] && !p[29] && !p[30] && p[31]
  }

  lemma CastagnoliBits()
    ensures Castagnoli(Polynomial(Crc32c))
  {
    FourBytes(0x82F63B78, 0x82F63B, 0x82F6, 0x78, 0x3B, 0xF6, 0x82);
    Byte78(); Byte3B(); ByteF6(); Byte82();
  }

  /** The bits of 0xEDB88320. */
  predicate Ieee(p: Word32) {
    !p[0] && !p[1] && !p[2] && !p[3] && !p[4] && p[5] && !p[6] && !p[7] && p[8] && p[9] && !p[10] && !p[11] && !p[12]
    && !p[13] && !p[14] && p[15] && !p[16] && !p[17] && !p[18] && p[19] && p[20] && p[21] && !p[22] && p[23] && p[24]
    && !p[25] && p[26] && p[27] && !p[28] && p[29] && p[30] && p[31]
  }

  lemma IeeeBits()
    ensures Ieee(Polynomial(Crc32))
  {
    FourBytes(0xEDB88320, 0xEDB883, 0xEDB8, 0x20, 0x83, 0xB8, 0xED);
    Byte20(); Byte83(); ByteB8(); ByteED();
  }

  // ------------------------------------------------------------ the register

  /** The register, zero at first, after t bits of a message. */
  function Register(p: Word32, m: nat -> bool, t: nat): Word32
    decreases t, p
  {
    if t == 0 then Zeros(32) else Step(p, Feed(Register(p, m, t - 1), [m(t - 1)]))
  }

  /** The bit that leaves the register next. */
  function Out(p: Word32, m: nat -> bool, t: nat): bool {
    Register(p, m, t)[0] != m(t)
  }

  /** What the bits that have left it so far amount to in bit i. */
  function Tap(p: Word32, out: nat -> bool, t: nat, i: nat): bool
    decreases t, p
  {
    if t == 0 || i >= 32 then false else (p[i] && out(t - 1)) != Tap(p, out, t - 1, i + 1)
  }

  lemma RegisterAfter(p: Word32, c: Word32, d: Word32, m: bool, i: nat)
    requires i < 32 && d == Step(p, Feed(c, [m]))
    ensures d[i] == ((i < 31 && c[i + 1]) != (p[i] && (c[0] != m)))
  {
    var f := Feed(c, [m]);
    assert f[0] == (c[0] != m);
    assert i < 31 ==> f[i + 1] == c[i + 1];
  }

  lemma {:induction false} RegisterIsTap(p: Word32, m: nat -> bool, out: nat -> bool, t: nat, i: nat)
    requires i < 32 && forall k :: 0 <= k < t ==> out(k) == Out(p, m, k)
    ensures Register(p, m, t)[i] == Tap(p, out, t, i)
    decreases t
  {
    if t != 0 {
      var k, next := t - 1, i + 1;
      if next < 32 {
        RegisterIsTap(p, m, out, k, next);
      }
      RegisterAfter(p, Register(p, m, k), Register(p, m, t), m(k), i);
      assert out(k) == Out(p, m, k);
    }
  }

  lemma EightTaps(p: Word32, out: nat -> bool, t: nat, i: nat)
    requires t >= 8 && i + 8 <= 32
    ensures Tap(p, out, t, i) ==
      ((p[i] && out(t - 1)) != ((p[i + 1] && out(t - 2)) != ((p[i + 2] && out(t - 3)) != ((p[i + 3] && out(t - 4)) !=
      ((p[i + 4] && out(t - 5)) != ((p[i + 5] && out(t - 6)) != ((p[i + 6] && out(t - 7)) != ((p[i + 7] && out(t - 8)) !=
      Tap(p, out, t - 8, i + 8)))))))))
  {
    var t2, t4, t6 := t - 2, t - 4, t - 6;
    assert Tap(p, out, t, i) == ((p[i] && out(t - 1)) != ((p[i + 1] && out(t - 2)) != Tap(p, out, t2, i + 2)));
    assert Tap(p, out, t2, i + 2) == ((p[i + 2] && out(t2 - 1)) != ((p[i + 3] && out(t2 - 2)) != Tap(p, out, t4, i + 4)));
    assert Tap(p, out, t4, i + 4) == ((p[i + 4] && out(t4 - 1)) != ((p[i + 5] && out(t4 - 2)) != Tap(p, out, t6, i + 6)));
    assert Tap(p, out, t6, i + 6) == ((p[i + 6] && out(t6 - 1)) != ((p[i + 7] && out(t6 - 2)) != Tap(p, out, t - 8, i + 8)));
  }

  lemma StillZero(p: Word32, c: Word32)
    requires c == Zeros(32)
    ensures Step(p, Feed(c, [false])) == c
  {
  }

  lemma {:induction false} ZeroSoFar(p: Word32, m: nat -> bool, t: nat)
    requires forall k :: 0 <= k < t ==> !m(k)
    ensures Register(p, m, t) == Zeros(32)
    decreases t
  {
    if t != 0 {
      ZeroSoFar(p, m, t - 1);
      StillZero(p, Zeros(32));
    }
  }

  lemma Quiet(p: Word32, m: nat -> bool, start: nat)
    requires forall k :: 0 <= k < start ==> !m(k)
    ensures forall t :: 0 <= t < start ==> !Out(p, m, t)
  {
    forall t | 0 <= t < start ensures !Out(p, m, t) {
      ZeroSoFar(p, m, t);
    }
  }

  lemma {:induction false} RegisterIsOverBits(p: Word32, m: nat -> bool, s: seq<bool>, t: nat)
    requires t <= |s| && forall i :: 0 <= i < |s| ==> s[i] == m(i)
    ensures OverBits(p, Zeros(32), s[..t]) == Register(p, m, t)
    decreases t
  {
    if t != 0 {
      RegisterIsOverBits(p, m, s, t - 1);
      var first, last := s[..t - 1], [s[t - 1]];
      assert s[..t] == first + last;
      OverBitsAdds(p, Zeros(32), first, last);
      var c := OverBits(p, Zeros(32), first);
      assert last[..1] == last && last[1..] == [];
      assert OverBits(p, c, last) == Step(p, Feed(c, last));
    }
  }

  // ------------------------------------------------------------ the next bit from the 32 before it

  function Xor17(a: bool, b: bool, c: bool, d: bool, e: bool, f: bool, g: bool, h: bool, i: bool, j: bool, k: bool,
                 l: bool, m: bool, n: bool, o: bool, q: bool, r: bool): bool
  {
    a != (b != (c != (d != (e != (f != (g != (h != (i != (j != (k != (l != (m != (n != (o != (q != (r))))))))))))))))
  }

  function Xor14(a: bool, b: bool, c: bool, d: bool, e: bool, f: bool, g: bool, h: bool, i: bool, j: bool, k: bool,
                 l: bool, m: bool, n: bool): bool
  {
    a != (b != (c != (d != (e != (f != (g != (h != (i != (j != (k != (l != (m != (n)))))))))))))
  }

  /** The next bit under CRC-32C. */
  predicate Follows32c(out: nat -> bool, m: nat -> bool, t: nat)
    requires t >= 32
  {
    out(t) == (m(t) != Xor17(out(t - 4), out(t - 5), out(t - 6), out(t - 7), out(t - 9), out(t - 10),
                                   out(t - 12), out(t - 13), out(t - 14), out(t - 18), out(t - 19), out(t - 21),
                                   out(t - 22), out(t - 23), out(t - 24), out(t - 26), out(t - 32)))
  }

  lemma Follows32cFromTaps(p: Word32, out: nat -> bool, m: nat -> bool, t: nat)
    requires Castagnoli(p) && t >= 32 && out(t) == (Tap(p, out, t, 0) != m(t))
    ensures Follows32c(out, m, t)
  {
    EightTaps(p, out, t, 0);
    EightTaps(p, out, t - 8, 8);
    EightTaps(p, out, t - 16, 16);
    EightTaps(p, out, t - 24, 24);
  }

  /** Nothing before bit `start`, and from there on each bit as it follows. */
  ghost predicate Follows32cFrom(out: nat -> bool, m: nat -> bool, start: nat)
    requires start >= 32
  {
    && (forall t :: 0 <= t < start ==> !out(t))
    && forall t :: t >= start ==> Follows32c(out, m, t)
  }

  lemma RegisterFollows32c(p: Word32, out: nat -> bool, m: nat -> bool, start: nat)
    requires Castagnoli(p) && start >= 32 && (forall t :: 0 <= t < start ==> !m(t))
    requires forall t :: out(t) == Out(p, m, t)
    ensures Follows32cFrom(out, m, start)
  {
    Quiet(p, m, start);
    forall t | t >= start ensures Follows32c(out, m, t) {
      RegisterIsTap(p, m, out, t, 0);
      Follows32cFromTaps(p, out, m, t);
    }
  }

  /** The next bit under CRC-32. */
  predicate Follows32(out: nat -> bool, m: nat -> bool, t: nat)
    requires t >= 32
  {
    out(t) == (m(t) != Xor14(out(t - 6), out(t - 9), out(t - 10), out(t - 16), out(t - 20), out(t - 21),
                                   out(t - 22), out(t - 24), out(t - 25), out(t - 27), out(t - 28), out(t - 30),
                                   out(t - 31), out(t - 32)))
  }

  lemma Follows32FromTaps(p: Word32, out: nat -> bool, m: nat -> bool, t: nat)
    requires Ieee(p) && t >= 32 && out(t) == (Tap(p, out, t, 0) != m(t))
    ensures Follows32(out, m, t)
  {
    EightTaps(p, out, t, 0);
    EightTaps(p, out, t - 8, 8);
    EightTaps(p, out, t - 16, 16);
    EightTaps(p, out, t - 24, 24);
  }

  /** Nothing before bit `start`, and from there on each bit as it follows. */
  ghost predicate Follows32From(out: nat -> bool, m: nat -> bool, start: nat)
    requires start >= 32
  {
    && (forall t :: 0 <= t < start ==> !out(t))
    && forall t :: t >= start ==> Follows32(out, m, t)
  }

  lemma RegisterFollows32(p: Word32, out: nat -> bool, m: nat -> bool, start: nat)
    requires Ieee(p) && start >= 32 && (forall t :: 0 <= t < start ==> !m(t))
    requires forall t :: out(t) == Out(p, m, t)
    ensures Follows32From(out, m, start)
  {
    Quiet(p, m, start);
    forall t | t >= start ensures Follows32(out, m, t) {
      RegisterIsTap(p, m, out, t, 0);
      Follows32FromTaps(p, out, m, t);
    }
  }

  lemma NextIeee(out: nat -> bool, m: nat -> bool, u: nat)
    requires Follows32From(out, m, 32) && u >= 32
    ensures Follows32(out, m, u)
  {
  }

  lemma NextCastagnoli(out: nat -> bool, m: nat -> bool, u: nat)
    requires Follows32cFrom(out, m, 32) && u >= 32
    ensures Follows32c(out, m, u)
  {
  }

  // ------------------------------------------------------------ bytes, bit by bit

  function One(x: bool): nat {
    if x then 1 else 0
  }

  /** A byte given by its bits, the lowest first. */
  function Octet(a: bool, b: bool, c: bool, d: bool, e: bool, f: bool, g: bool, h: bool): nat {
    One(a) + 2 * One(b) + 4 * One(c) + 8 * One(d) + 16 * One(e) + 32 * One(f) + 64 * One(g) + 128 * One(h)
  }

  lemma ValueOfFour(a: bool, b: bool, c: bool, d: bool)
    ensures Value([a, b, c, d]) == One(a) + 2 * One(b) + 4 * One(c) + 8 * One(d)
  {
    assert [a, b, c, d][1..] == [b, c, d] && [b, c, d][1..] == [c, d] && [c, d][1..] == [d] && [d][1..] == [];
    assert Value([d]) == One(d) && Value([c, d]) == One(c) + 2 * One(d);
    assert Value([b, c, d]) == One(b) + 2 * Value([c, d]);
  }

  lemma BitsOfOctet(x: nat, a: bool, b: bool, c: bool, d: bool, e: bool, f: bool, g: bool, h: bool)
    requires x == Octet(a, b, c, d, e, f, g, h)
    ensures Bits(x, 8) == [a, b, c, d] + [e, f, g, h]
  {
    var low, high := [a, b, c, d], [e, f, g, h];
    ValueOfFour(a, b, c, d);
    ValueOfFour(e, f, g, h);
    ValueAdds(low, high);
    assert Pow2(4) == 16;
    OctetBits(x, low + high);
  }

  lemma OctetBits(x: nat, w: seq<bool>)
    requires x == Value(w) && |w| == 8
    ensures Bits(x, 8) == w
  {
    BitsOfValue(w);
  }

  // ------------------------------------------------------------ messages that clear the register

  lemma {:induction false} NothingTapped(p: Word32, out: nat -> bool, t: nat, i: nat)
    requires i <= 32 <= t + i && forall k :: 0 <= k < t && t + i - 32 <= k ==> !out(k)
    ensures !Tap(p, out, t, i)
    decreases t
  {
    if t != 0 && i < 32 {
      NothingTapped(p, out, t - 1, i + 1);
    }
  }

  /** With nothing leaving for 32 bits the register is zero, and stays so under zero bits. */
  lemma {:induction false} Cleared(p: Word32, out: nat -> bool, m: nat -> bool, end: nat, t: nat)
    requires 32 <= end <= t && (forall k :: out(k) == Out(p, m, k)) && (forall k :: end - 32 <= k < end ==> !out(k))
    requires forall k :: end <= k < t ==> !m(k)
    ensures Register(p, m, t) == Zeros(32)
    decreases t
  {
    if t == end {
      forall i | 0 <= i < 32 ensures !Register(p, m, t)[i] {
        RegisterIsTap(p, m, out, t, i);
        NothingTapped(p, out, t, i);
      }
    } else {
      Cleared(p, out, m, end, t - 1);
      StillZero(p, Zeros(32));
    }
  }

  /** The message behind 32 zero bits, its first 32 bits turned over, does to a zero register what it does to ones. */
  lemma TurnedOver(p: Word32, s: seq<bool>)
    requires |s| >= 32
    ensures OverBits(p, Zeros(32), Zeros(32) + (Xor(s[..32], Ones(32)) + s[32..])) == OverBits(p, Ones(32), s)
  {
    var first, rest := s[..32], s[32..];
    var over := Xor(first, Ones(32));
    OverBitsAdds(p, Zeros(32), Zeros(32), over + rest);
    ZeroBits(p, 32);
    OverBitsAdds(p, Zeros(32), over, rest);
    assert s == first + rest;
    OverBitsAdds(p, Ones(32), first, rest);
    FeedWord(p, Zeros(32), over);
    FeedWord(p, Ones(32), first);
    assert Xor(over, Zeros(32)) == over;
  }

  lemma {:induction false} ZeroBits(p: Word32, n: nat)
    ensures OverBits(p, Zeros(32), Zeros(n)) == Zeros(32)
  {
    if n != 0 {
      StillZero(p, Zeros(32));
      assert Zeros(n)[..1] == [false] && Zeros(n)[1..] == Zeros(n - 1);
      ZeroBits(p, n - 1);
    }
  }

  function Message(x: seq<byte>): (s: seq<bool>)
    requires |x| >= 4
    ensures |s| == 32 + 8 * |x|
  {
    var bits := MessageBits(x);
    Zeros(32) + (Xor(bits[..32], Ones(32)) + bits[32..])
  }

  lemma MessageBit(x: seq<byte>, k: nat, j: nat, i: nat, u: nat)
    requires |x| >= 4 && k < |x| && j < 8 && i == 8 * k + j && u == 32 + i
    ensures Message(x)[u] == (Bits(x[k], 8)[j] != (k < 4))
  {
    MessageBitAt(x, i, k, j);
    var bits := MessageBits(x);
    if k < 4 {
      assert Message(x)[u] == Xor(bits[..32], Ones(32))[i];
    } else {
      assert Message(x)[u] == bits[32..][i - 32];
    }
  }

  /** A message whose bits behind 32 zero bits clear the register leaves it clear from the start value as well. */
  lemma ClearedFromOnes(kind: ChecksumKind, x: seq<byte>, m: nat -> bool, n: nat)
    requires |x| >= 4 && n == 32 + 8 * |x| && (forall u: nat :: m(u) == (u < n && Message(x)[u]))
    requires Register(Polynomial(kind), m, n) == Zeros(32)
    ensures Reference(Polynomial(kind), Begin(), x) == Zeros(32)
  {
    var p, s := Polynomial(kind), Message(x);
    RegisterIsOverBits(p, m, s, n);
    assert s[..n] == s;
    TurnedOver(p, MessageBits(x));
    ReferenceIsOverBits(p, Begin(), x);
  }
}
