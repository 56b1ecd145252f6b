/** Bytes, machine words as bit strings (bit 0 first), powers of two and little-endian integers. */
module Words {

  type byte = x: int | 0 <= x < 256

  const TWO_32 := 0x1_0000_0000
  const TWO_63 := 0x8000_0000_0000_0000
  const TWO_64 := 0x1_0000_0000_0000_0000

  function Pow2(n: nat): (r: nat)
    ensures r > 0
  {
    if n == 0 then 1 else 2 * Pow2(n - 1)
  }

  // ------------------------------------------------------------ bit strings

  function Zeros(n: nat): (r: seq<bool>)
    ensures |r| == n
  {
    seq(n, _ => false)
  }

  function Ones(n: nat): (r: seq<bool>)
    ensures |r| == n
  {
    seq(n, _ => true)
  }

  function Xor(a: seq<bool>, b: seq<bool>): (r: seq<bool>)
    requires |a| == |b|
    ensures |r| == |a|
    ensures forall i :: 0 <= i < |r| ==> r[i] == (a[i] != b[i])
  {
    seq(|a|, i requires 0 <= i < |a| => a[i] != b[i])
  }

  /** The low n bits of x, least significant first. */
  function Bits(x: nat, n: nat): (r: seq<bool>)
    ensures |r| == n
  {
    if n == 0 then [] else [x % 2 == 1] + Bits(x / 2, n - 1)
  }

  /** x >> n. */
  function Shr(x: nat, n: nat): nat {
    if n == 0 then x else Shr(x / 2, n - 1)
  }

  lemma {:induction false} BitsSplit(x: nat, m: nat, n: nat)
    ensures Bits(x, m + n) == Bits(x, m) + Bits(Shr(x, m), n)
  {
    if m != 0 {
      BitsSplit(x / 2, m - 1, n);
      assert Bits(x, m + n) == [x % 2 == 1] + Bits(x / 2, m - 1 + n);
    }
  }

  lemma {:induction false} ShrBounds(x: nat, m: nat, n: nat)
    ensures x < Pow2(m + n) <==> Shr(x, m) < Pow2(n)
  {
    if m != 0 {
      ShrBounds(x / 2, m - 1, n);
    }
  }

  /** The number a bit string denotes. */
  function Value(w: seq<bool>): (v: nat)
    ensures v < Pow2(|w|)
  {
    if w == [] then 0 else (if w[0] then 1 else 0) + 2 * Value(w[1..])
  }

  lemma {:induction false} BitsOfValue(w: seq<bool>)
    ensures Bits(Value(w), |w|) == w
  {
    if w != [] {
      BitsOfValue(w[1..]);
    }
  }

  lemma {:induction false} ValueOfBits(x: nat, n: nat)
    ensures Value(Bits(x, n)) == x % Pow2(n)
  {
    if n != 0 {
      ValueOfBits(x / 2, n - 1);
      Halve(x, Pow2(n - 1));
    }
  }

  lemma Halve(x: nat, m: nat)
    requires m > 0
    ensures x % (2 * m) == x % 2 + 2 * ((x / 2) % m)
    ensures x / (2 * m) == x / 2 / m
  {
    var q, r := x / 2 / m, x / 2 % m;
    assert x == (2 * m) * q + (x % 2 + 2 * r);
    ModuloUnique(x, 2 * m, q, x % 2 + 2 * r);
  }

  lemma ModuloUnique(x: int, m: int, q: int, r: int)
    requires 0 <= r < m && x == m * q + r
    ensures x / m == q && x % m == r
  {
    var d := x / m - q;
    assert m * d == r - x % m;
    assert d == 0 by {
      if d != 0 {
        MultipleIsLarge(m, d);
        assert false;
      }
    }
  }

  lemma MultipleIsLarge(m: int, d: int)
    requires m > 0 && d != 0
    ensures m * d >= m || m * d <= -m
  {
    if d >= 1 {
      assert m * (d - 1) >= 0;
    } else {
      assert m * (-d - 1) >= 0;
    }
  }

  lemma ValueInjective(a: seq<bool>, b: seq<bool>)
    requires |a| == |b| && Value(a) == Value(b)
    ensures a == b
  {
    BitsOfValue(a);
    BitsOfValue(b);
  }

  lemma {:induction false} ValueAdds(a: seq<bool>, b: seq<bool>)
    ensures Value(a + b) == Value(a) + Pow2(|a|) * Value(b)
  {
    if a == [] {
      assert a + b == b;
    } else {
      assert (a + b)[0] == a[0] && (a + b)[1..] == a[1..] + b;
      ValueAdds(a[1..], b);
      Doubled(if a[0] then 1 else 0, Value(a[1..]), Pow2(|a| - 1), Value(b));
    }
  }

  lemma Doubled(x: nat, y: nat, m: nat, z: nat)
    ensures x + 2 * (y + m * z) == x + 2 * y + (2 * m) * z
  {
  }

  lemma ByteRoundTrip(b: byte)
    ensures Value(Bits(b, 8)) == b
  {
    Pow2Of8();
    ByBits(b, 8);
  }

  lemma ByBits(x: nat, n: nat)
    requires x < Pow2(n)
    ensures Value(Bits(x, n)) == x
  {
    ValueOfBits(x, n);
  }

  // ------------------------------------------------------------ little-endian integers

  /** The n low-order bytes of x, least significant first: what memcpy of an n-byte integer stores. */
  function Le(x: nat, n: nat): (r: seq<byte>)
    ensures |r| == n
  {
    if n == 0 then [] else [x % 256] + Le(x / 256, n - 1)
  }

  function FromLe(s: seq<byte>): (v: nat)
    ensures v < Pow2(8 * |s|)
  {
    if s == [] then 0
    else
      PowerOfNextByte(|s|);
      s[0] + 256 * FromLe(s[1..])
  }

  lemma {:induction false} FromLeOfLe(x: nat, n: nat)
    requires x < Pow2(8 * n)
    ensures FromLe(Le(x, n)) == x
  {
    if n != 0 {
      PowerOfNextByte(n);
      FromLeOfLe(x / 256, n - 1);
    }
  }

  lemma {:induction false} LeOfFromLe(s: seq<byte>)
    ensures Le(FromLe(s), |s|) == s
  {
    if s != [] {
      LeOfFromLe(s[1..]);
    }
  }

  lemma Pow2Of8()
    ensures Pow2(8) == 256
  {
    assert Pow2(4) == 16;
    Pow2Adds(4, 4);
  }

  lemma PowerOfNextByte(n: nat)
    requires n > 0
    ensures Pow2(8 * n) == 256 * Pow2(8 * (n - 1))
  {
    Pow2Of8();
    Pow2Adds(8, 8 * (n - 1));
  }

  lemma Pow2Of32()
    ensures Pow2(32) == TWO_32
  {
    Pow2Of8();
    Pow2Adds(8, 8);
    Pow2Adds(16, 16);
  }

  lemma Pow2Of64()
    ensures Pow2(64) == TWO_64
  {
    Pow2Of32();
    Pow2Adds(32, 32);
  }

  lemma {:induction false} Pow2Adds(m: nat, n: nat)
    ensures Pow2(m + n) == Pow2(m) * Pow2(n)
  {
    if m != 0 {
      Pow2Adds(m - 1, n);
    }
  }

  /** The buffer `before` with `done` written at position `at`. */
  function Overwritten(before: seq<byte>, at: nat, done: seq<byte>): (r: seq<byte>)
    requires at + |done| <= |before|
    ensures |r| == |before|
  {
    seq<byte>(|before|, i requires 0 <= i < |before| => if at <= i < at + |done| then done[i - at] else before[i])
  }

  /** Writing the next piece right behind what was written extends it. */
  lemma OverwrittenAdds(before: seq<byte>, at: nat, done: seq<byte>, next: nat, piece: seq<byte>)
    requires next == at + |done| && next + |piece| <= |before|
    ensures Overwritten(Overwritten(before, at, done), next, piece) == Overwritten(before, at, done + piece)
  {
  }

  /** memcpy into a buffer. */
  method Copy(dst: array<byte>, at: nat, src: seq<byte>)
    requires at + |src| <= dst.Length
    modifies dst
    ensures dst[..] == Overwritten(old(dst[..]), at, src)
  {
    forall i | 0 <= i < |src| {
      dst[at + i] := src[i];
    }
  }

  // ------------------------------------------------------------ 64-bit counters

  function Add64(a: nat, b: nat): (r: nat)
    ensures r < TWO_64
  {
    (a + b) % 0x1_0000_0000_0000_0000
  }

  /** a - b, wrapping around. */
  function Sub64(a: nat, b: nat): (r: nat)
    ensures r < TWO_64
  {
    (a as int - b as int) % 0x1_0000_0000_0000_0000
  }

  /** The value a 64-bit counter shows for the number x. */
  function Low64(x: nat): (r: nat)
    ensures r < TWO_64
  {
    x % 0x1_0000_0000_0000_0000
  }

  lemma Low64Adds(x: nat, n: nat)
    ensures Add64(Low64(x), n) == Low64(x + n)
  {
  }

  /** Subtracting counters gives the true difference as long as it fits 64 bits. */
  lemma Low64Subtracts(x: nat, y: nat)
    requires y <= x < y + TWO_64
    ensures Sub64(Low64(x), Low64(y)) == x - y
  {
  }

  /** Bitwise and. */
  function And(x: nat, y: nat): nat {
    if x == 0 || y == 0 then 0 else (x % 2) * (y % 2) + 2 * And(x / 2, y / 2)
  }

  /** Masking with 2^k - 1 is reduction modulo 2^k. */
  lemma {:induction false} AndMask(x: nat, k: nat)
    ensures And(x, Pow2(k) - 1) == x % Pow2(k)
    decreases k
  {
    if k == 0 {
      assert x % 1 == 0;
    } else {
      var m := Pow2(k - 1);
      assert (2 * m - 1) / 2 == m - 1 && (2 * m - 1) % 2 == 1;
      AndMask(x / 2, k - 1);
      Halve(x, m);
    }
  }

  /** The test that accepts a ring capacity. */
  predicate IsPowerOfTwo(c: nat) {
    c != 0 && And(c, c - 1) == 0
  }

  lemma {:induction false} AndSelf(x: nat)
    ensures And(x, x) == x
  {
    if x != 0 {
      AndSelf(x / 2);
    }
  }

  /** It accepts exactly the powers of two. */
  lemma {:induction false} PowerOfTwoExponent(c: nat) returns (k: nat)
    requires IsPowerOfTwo(c)
    ensures c == Pow2(k)
  {
    if c == 1 {
      k := 0;
    } else {
      if c % 2 == 1 {
        assert (c - 1) / 2 == c / 2;
        AndSelf(c / 2);
        assert false;
      }
      assert (c - 1) / 2 == c / 2 - 1;
      k := PowerOfTwoExponent(c / 2);
      k := k + 1;
    }
  }

  lemma Pow2IsPowerOfTwo(k: nat)
    ensures IsPowerOfTwo(Pow2(k))
  {
    AndMask(Pow2(k), k);
  }
}
