/** The random generator by its published definition, on 64-bit unsigned numbers, and that the words compute it. */
module PayloadNumbers {
  import opened Words
  import opened PayloadGenerator

  // ------------------------------------------------------------ the operators

  /** x ^ y. */
  function XorOf(x: nat, y: nat): nat
    decreases x + y
  {
    if x == 0 && y == 0 then 0 else (if x % 2 == y % 2 then 0 else 1) + 2 * XorOf(x / 2, y / 2)
  }

  lemma {:induction false} ValueOfXor(a: seq<bool>, b: seq<bool>)
    requires |a| == |b|
    ensures Value(Xor(a, b)) == XorOf(Value(a), Value(b))
    decreases |a|
  {
    if a != [] {
      ValueOfXor(a[1..], b[1..]);
      assert Xor(a, b)[1..] == Xor(a[1..], b[1..]);
      XorOfBits(a[0], b[0], Value(a[1..]), Value(b[1..]), Value(a), Value(b));
    }
  }

  lemma XorOfBits(a: bool, b: bool, x: nat, y: nat, u: nat, v: nat)
    requires u == (if a then 1 else 0) + 2 * x && v == (if b then 1 else 0) + 2 * y
    ensures XorOf(u, v) == (if a == b then 0 else 1) + 2 * XorOf(x, y)
  {
    assert u / 2 == x && v / 2 == y && (u % 2 == v % 2 <==> a == b);
  }

  lemma {:induction false} ValueOfZeros(n: nat)
    ensures Value(Zeros(n)) == 0
  {
    if n != 0 {
      assert Zeros(n)[1..] == Zeros(n - 1);
      ValueOfZeros(n - 1);
    }
  }

  /** A word in two parts. */
  lemma Parts(w: seq<bool>, n: nat)
    requires n <= |w|
    ensures Value(w) == Value(w[..n]) + Pow2(n) * Value(w[n..])
    ensures Value(w) % Pow2(n) == Value(w[..n]) && Value(w) / Pow2(n) == Value(w[n..])
  {
    assert w == w[..n] + w[n..];
    ValueAdds(w[..n], w[n..]);
    ModuloUnique(Value(w), Pow2(n), Value(w[n..]), Value(w[..n]));
  }

  lemma ValueOfRight(w: Word64, n: nat)
    requires n <= 64
    ensures Value(Right(w, n)) == Value(w) / Pow2(n)
  {
    Parts(w, n);
    ValueAdds(w[n..], Zeros(n));
    ValueOfZeros(n);
  }

  lemma ValueOfLeft(w: Word64, n: nat)
    requires n <= 64
    ensures Value(Left(w, n)) == Pow2(n) * Value(w[..64 - n]) == Value(w) * Pow2(n) % TWO_64
  {
    var k := 64 - n;
    Parts(w, k);
    ValueAdds(Zeros(n), w[..k]);
    ValueOfZeros(n);
    assert Value(Left(w, n)) == Pow2(n) * Value(w[..k]);
    Pow2Of64();
    Pow2Adds(n, k);
    HighPartFallsOut(Value(w[..k]), Value(w[k..]), Pow2(n), Pow2(k), TWO_64);
  }

  lemma HighPartFallsOut(low: nat, high: nat, a: nat, b: nat, m: nat)
    requires m == a * b && low < b && a > 0
    ensures (low + b * high) * a % m == a * low
  {
    assert (low + b * high) * a == m * high + a * low;
    assert a * low < a * b;
    ModuloUnique((low + b * high) * a, m, high, a * low);
  }

  /** (x << n) | (x >> (64 - n)). */
  lemma ValueOfRotate(w: Word64, n: nat)
    requires n <= 64
    ensures Value(RotateLeft(w, n)) == Value(w) * Pow2(n) % TWO_64 + Value(w) / Pow2(64 - n)
  {
    var k := 64 - n;
    ValueOfLeft(w, n);
    Parts(w, k);
    ValueAdds(w[k..], w[..k]);
    assert |w[k..]| == n;
  }

  lemma Fits64(w: Word64)
    ensures Value(w) < TWO_64
  {
    Pow2Of64();
  }

  lemma ValueOfAdd(a: Word64, b: Word64)
    ensures Value(Add(a, b)) == (Value(a) + Value(b)) % TWO_64
  {
    Pow2Of64();
    ReducedValue(Value(a) + Value(b), 64, TWO_64);
  }

  lemma Shifts()
    ensures Pow2(17) == 0x2_0000 && Pow2(19) == 0x8_0000 && Pow2(27) == 0x800_0000 && Pow2(30) == 0x4000_0000
    ensures Pow2(31) == 0x8000_0000 && Pow2(45) == 0x2000_0000_0000
  {
    Pow2Of8();
    assert Pow2(3) == 8;
    Pow2Adds(8, 8);
    Pow2Adds(1, 16);
    Pow2Adds(3, 16);
    Pow2Adds(8, 19);
    Pow2Adds(3, 27);
    Pow2Adds(1, 30);
    Pow2Adds(15, 30);
    Pow2Adds(15, 16);
    assert Pow2(15) == 0x8000;
  }

  // ------------------------------------------------------------ SplitMix64

  function Mixed(z: nat): nat {
    var a := XorOf(z, z / 0x4000_0000) * 0xBF58476D1CE4E5B9 % 0x1_0000_0000_0000_0000;
    var b := XorOf(a, a / 0x800_0000) * 0x94D049BB133111EB % 0x1_0000_0000_0000_0000;
    XorOf(b, b / 0x8000_0000)
  }

  /** Draw k behind a seed, in closed form. */
  function Drawn(seed: nat, k: nat): nat {
    Mixed((seed + (k + 1) * 0x9E3779B97F4A7C15) % 0x1_0000_0000_0000_0000)
  }

  lemma ShiftXor(w: Word64, n: nat, x: nat)
    requires n <= 64 && x == Value(w)
    ensures Value(Xor(w, Right(w, n))) == XorOf(x, x / Pow2(n))
  {
    ValueOfXor(w, Right(w, n));
    ValueOfRight(w, n);
  }

  lemma MixOnNumbers(z: Word64)
    ensures Value(Mix(z)) == Mixed(Value(z))
  {
    Shifts();
    var x := Xor(z, Right(z, 30));
    ShiftXor(z, 30, Value(z));
    var a := Times(x, 0xBF58476D1CE4E5B9);
    ValueOfTimes(x, 0xBF58476D1CE4E5B9);
    var y := Xor(a, Right(a, 27));
    ShiftXor(a, 27, Value(a));
    var b := Times(y, 0x94D049BB133111EB);
    ValueOfTimes(y, 0x94D049BB133111EB);
    ShiftXor(b, 31, Value(b));
  }

  lemma {:induction false} StateInClosedForm(seed: nat, k: nat)
    requires seed < TWO_64
    ensures StateAfter(seed, k) == (seed + k * 0x9E3779B97F4A7C15) % 0x1_0000_0000_0000_0000
    decreases k
  {
    if k != 0 {
      StateInClosedForm(seed, k - 1);
      ReducedSum(seed + (k - 1) * 0x9E3779B97F4A7C15, 0x9E3779B97F4A7C15, TWO_64);
    } else {
      ModuloUnique(seed, TWO_64, 0, seed);
    }
  }

  lemma ReducedSum(x: nat, y: nat, m: nat)
    requires m > 0
    ensures (x % m + y) % m == (x + y) % m
  {
    var q, r := (x % m + y) / m, (x % m + y) % m;
    assert x + y == m * (x / m + q) + r by {
      assert x == m * (x / m) + x % m;
    }
    ModuloUnique(x + y, m, x / m + q, r);
  }

  lemma DrawIsMixed(seed: nat, k: nat, state: nat)
    requires seed < TWO_64 && state == StateAfter(seed, k + 1)
    ensures Value(Draw(seed, k)) == Mixed(state)
  {
    StateBits(state);
    MixOnNumbers(Bits(state, 64));
  }

  lemma DrawOnNumbers(seed: nat, k: nat)
    requires seed < TWO_64
    ensures Value(Draw(seed, k)) == Drawn(seed, k)
  {
    var n := k + 1;
    StateInClosedForm(seed, n);
    DrawIsMixed(seed, k, StateAfter(seed, n));
    DrawnIsMixed(seed, k, n, StateAfter(seed, n));
  }

  lemma DrawnIsMixed(seed: nat, k: nat, n: nat, state: nat)
    requires n == k + 1 && state == (seed + n * 0x9E3779B97F4A7C15) % 0x1_0000_0000_0000_0000
    ensures Drawn(seed, k) == Mixed(state)
  {
  }

  // ------------------------------------------------------------ xoshiro256+

  datatype State = State(s0: nat, s1: nat, s2: nat, s3: nat)

  function Sum(s: State): nat {
    (s.s0 + s.s3) % 0x1_0000_0000_0000_0000
  }

  /** The step, one assignment after the other. */
  function Stepped(s: State): State {
    var t := s.s1 * 0x2_0000 % 0x1_0000_0000_0000_0000;
    var s2 := XorOf(s.s2, s.s0);
    var s3 := XorOf(s.s3, s.s1);
    var s1 := XorOf(s.s1, s2);
    var s0 := XorOf(s.s0, s3);
    State(s0, s1, XorOf(s2, t), s3 * 0x2000_0000_0000 % 0x1_0000_0000_0000_0000 + s3 / 0x8_0000)
  }

  function Numbers(v: Lane): State {
    State(Value(v.s0), Value(v.s1), Value(v.s2), Value(v.s3))
  }

  lemma StepOnNumbers(v: Lane)
    ensures Numbers(StepLane(v)) == Stepped(Numbers(v))
  {
    var c, d := Xor(v.s2, v.s0), Xor(v.s3, v.s1);
    ValueOfXor(v.s2, v.s0);
    ValueOfXor(v.s3, v.s1);
    ValueOfXor(v.s0, d);
    ValueOfXor(v.s1, c);
    ValueOfXor(c, Left(v.s1, 17));
    ValueOfLeft(v.s1, 17);
    ValueOfRotate(d, 45);
    Shifts();
  }

  lemma OutputOnNumbers(v: Lane)
    ensures Value(Output(v)) == Sum(Numbers(v))
  {
    ValueOfAdd(v.s0, v.s3);
  }

  // ------------------------------------------------------------ the payload

  /** Lane l after k steps; it was seeded with four draws in a row. */
  function LaneAfter(seed: nat, l: nat, k: nat): State {
    if k == 0 then State(Drawn(seed, 4 * l), Drawn(seed, 4 * l + 1), Drawn(seed, 4 * l + 2), Drawn(seed, 4 * l + 3))
    else Stepped(LaneAfter(seed, l, k - 1))
  }

  /** Byte i of the payload: eight little-endian bytes a lane, eight lanes a step. */
  function PayloadByte(seed: nat, i: nat): nat {
    Sum(LaneAfter(seed, i / 8 % 8, i / 64)) / Pow2(8 * (i % 8)) % 256
  }

  lemma SeedLaneOnNumbers(seed: nat, l: nat)
    requires seed < TWO_64
    ensures Numbers(SeedLane(seed, l)) == LaneAfter(seed, l, 0)
  {
    DrawOnNumbers(seed, 4 * l);
    DrawOnNumbers(seed, 4 * l + 1);
    DrawOnNumbers(seed, 4 * l + 2);
    DrawOnNumbers(seed, 4 * l + 3);
  }

  lemma StartOnNumbers(seed: nat, lanes: Lanes, l: nat)
    requires seed < TWO_64 && l < LANES && lanes == SeedLanes(seed, LANES)
    ensures Numbers(lanes[l]) == LaneAfter(seed, l, 0)
  {
    LaneOfSeed(seed, LANES, l);
    SeedLaneOnNumbers(seed, l);
  }

  lemma StepOfLane(lanes: Lanes, l: nat, before: nat, k: nat)
    requires l < LANES && k == before + 1
    ensures Steps(lanes, k)[l] == StepLane(Steps(lanes, before)[l])
  {
    assert Steps(lanes, k) == StepAll(Steps(lanes, before));
  }

  lemma {:induction false} LanesOnNumbers(seed: nat, lanes: Lanes, l: nat, k: nat)
    requires l < LANES && Numbers(lanes[l]) == LaneAfter(seed, l, 0)
    ensures Numbers(Steps(lanes, k)[l]) == LaneAfter(seed, l, k)
    decreases k
  {
    if k != 0 {
      var before := k - 1;
      LanesOnNumbers(seed, lanes, l, before);
      StepOfLane(lanes, l, before, k);
      StepOnNumbers(Steps(lanes, before)[l]);
      OneMoreStep(seed, l, before, k);
    }
  }

  lemma OneMoreStep(seed: nat, l: nat, before: nat, k: nat)
    requires k == before + 1
    ensures LaneAfter(seed, l, k) == Stepped(LaneAfter(seed, l, before))
  {
  }

  lemma {:induction false} ByteOfLe(x: nat, n: nat, j: nat)
    requires j < n
    ensures Le(x, n)[j] == x / Pow2(8 * j) % 256
    decreases n
  {
    if j != 0 {
      ByteOfLe(x / 256, n - 1, j - 1);
      PowerOfNextByte(j);
      DivideTwice(x, Pow2(8 * (j - 1)));
    }
  }

  lemma DivideTwice(x: nat, b: nat)
    requires b > 0
    ensures x / (256 * b) == x / 256 / b
  {
    var q, r := x / 256 / b, x / 256 % b;
    assert x / 256 == b * q + r;
    assert x == 256 * (b * q) + (256 * r + x % 256);
    assert 256 * (b * q) == (256 * b) * q;
    ModuloUnique(x, 256 * b, q, 256 * r + x % 256);
  }

  /** For every seed and size, the generator fills in the bytes of the published definition. */
  lemma PayloadIsPublished(seed: nat, n: nat, i: nat)
    requires seed < TWO_64 && i < n
    ensures Generator.Random(SeedLanes(seed, LANES)).Bytes(n)[i] == PayloadByte(seed, i)
  {
    var lanes, k := SeedLanes(seed, LANES), i / 64;
    var l, j := i / 8 % 8, i % 8;
    PlaceOfByte(i);
    StartOnNumbers(seed, lanes, l);
    LanesOnNumbers(seed, lanes, l, k);
    var v := Steps(lanes, k)[l];
    OutputOnNumbers(v);
    ByteOfLe(Value(Output(v)), 8, j);
  }

  lemma PlaceOfByte(i: nat)
    ensures i % 64 / 8 == i / 8 % 8 && i % 64 % 8 == i % 8
  {
  }
}
