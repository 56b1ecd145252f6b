/** The payload generators: SplitMix64 seeding, eight xoshiro256+ lanes, and the byte counter. */
module PayloadGenerator {
  import opened Words

  type Word64 = w: seq<bool> | |w| == 64 witness Zeros(64)

  function Left(w: Word64, n: nat): Word64
    requires n <= 64
  {
    Zeros(n) + w[..64 - n]
  }

  function Right(w: Word64, n: nat): Word64
    requires n <= 64
  {
    w[n..] + Zeros(n)
  }

  function RotateLeft(w: Word64, n: nat): Word64
    requires n <= 64
  {
    w[64 - n..] + w[..64 - n]
  }

  function Add(a: Word64, b: Word64): Word64 {
    Bits((Value(a) + Value(b)) % TWO_64, 64)
  }

  function Times(a: Word64, c: nat): Word64 {
    Bits(Value(a) * c % TWO_64, 64)
  }

  // ------------------------------------------------------------ SplitMix64

  const GAMMA := 0x9E3779B97F4A7C15

  /** The output function of SplitMix64 on an already advanced state. */
  function Mix(z: Word64): Word64 {
    var a := Times(Xor(z, Right(z, 30)), 0xBF58476D1CE4E5B9);
    var b := Times(Xor(a, Right(a, 27)), 0x94D049BB133111EB);
    Xor(b, Right(b, 31))
  }

  function Advanced(state: nat): (r: nat)
    ensures r < TWO_64
  {
    (state + GAMMA) % 0x1_0000_0000_0000_0000
  }

  /** The state after k draws. */
  function StateAfter(seed: nat, k: nat): (r: nat)
    requires seed < TWO_64
    ensures r < TWO_64
  {
    if k == 0 then seed else Advanced(StateAfter(seed, k - 1))
  }

  /** The k-th draw, counting from zero. */
  function Draw(seed: nat, k: nat): Word64
    requires seed < TWO_64
  {
    Mix(Bits(StateAfter(seed, k + 1), 64))
  }

  lemma {:induction false} RightShiftBit(x: Word64, y: Word64, n: nat, i: nat)
    requires 0 < n <= 64 && i < 64 && Xor(x, Right(x, n)) == Xor(y, Right(y, n))
    ensures x[i] == y[i]
    decreases 64 - i
  {
    assert Xor(x, Right(x, n))[i] == Xor(y, Right(y, n))[i];
    if i + n < 64 {
      RightShiftBit(x, y, n, i + n);
    }
  }

  /** z ^ (z >> n) loses nothing. */
  lemma XorRightInjective(x: Word64, y: Word64, n: nat)
    requires 0 < n <= 64 && Xor(x, Right(x, n)) == Xor(y, Right(y, n))
    ensures x == y
  {
    forall i | 0 <= i < 64
      ensures x[i] == y[i]
    {
      RightShiftBit(x, y, n, i);
    }
  }

  lemma {:induction false} LeftShiftBit(x: Word64, y: Word64, n: nat, i: nat)
    requires 0 < n <= 64 && i < 64 && Xor(x, Left(x, n)) == Xor(y, Left(y, n))
    ensures x[i] == y[i]
    decreases i
  {
    assert Xor(x, Left(x, n))[i] == Xor(y, Left(y, n))[i];
    if i >= n {
      LeftShiftBit(x, y, n, i - n);
    }
  }

  lemma XorLeftInjective(x: Word64, y: Word64, n: nat)
    requires 0 < n <= 64 && Xor(x, Left(x, n)) == Xor(y, Left(y, n))
    ensures x == y
  {
    forall i | 0 <= i < 64
      ensures x[i] == y[i]
    {
      LeftShiftBit(x, y, n, i);
    }
  }

  /** Multiplying by c is undone by multiplying by its inverse modulo m. */
  lemma ModularInverse(x: nat, c: nat, inverse: nat, k: nat, m: nat)
    requires x < m && c * inverse == m * k + 1
    ensures (x * c % m) * inverse % m == x
  {
    var q, r := x * c / m, x * c % m;
    assert r == x * c - m * q;
    calc {
      r * inverse;
      (x * c - m * q) * inverse;
      x * c * inverse - m * q * inverse;
      { assert x * c * inverse == x * (c * inverse); }
      x * (m * k + 1) - m * q * inverse;
      { assert x * (m * k + 1) == m * (x * k) + x; assert m * q * inverse == m * (q * inverse); }
      m * (x * k) - m * (q * inverse) + x;
      m * (x * k - q * inverse) + x;
    }
    ModuloUnique(r * inverse, m, x * k - q * inverse, x);
  }

  lemma ReducedValue(x: nat, n: nat, m: nat)
    requires m == Pow2(n)
    ensures Value(Bits(x % m, n)) == x % m
  {
    ValueOfBits(x % m, n);
    ModuloUnique(x % m, m, 0, x % m);
  }

  lemma ValueOfTimes(a: Word64, c: nat)
    ensures Value(a) < TWO_64 && Value(Times(a, c)) == Value(a) * c % TWO_64
  {
    Pow2Of64();
    ReducedValue(Value(a) * c, |a|, TWO_64);
  }

  lemma TimesInjective(a: Word64, b: Word64, c: nat, inverse: nat, k: nat)
    requires c * inverse == TWO_64 * k + 1 && Times(a, c) == Times(b, c)
    ensures a == b
  {
    ValueOfTimes(a, c);
    ValueOfTimes(b, c);
    ModularInverse(Value(a), c, inverse, k, TWO_64);
    ModularInverse(Value(b), c, inverse, k, TWO_64);
    ValueInjective(a, b);
  }

  /** The mixing function is injective: xor-shifts and odd multipliers lose nothing. */
  lemma MixInjective(x: Word64, y: Word64)
    requires Mix(x) == Mix(y)
    ensures x == y
  {
    var xs, ys := Xor(x, Right(x, 30)), Xor(y, Right(y, 30));
    var xa, ya := Times(xs, 0xBF58476D1CE4E5B9), Times(ys, 0xBF58476D1CE4E5B9);
    var xt, yt := Xor(xa, Right(xa, 27)), Xor(ya, Right(ya, 27));
    var xb, yb := Times(xt, 0x94D049BB133111EB), Times(yt, 0x94D049BB133111EB);
    XorRightInjective(xb, yb, 31);
    TimesInjective(xt, yt, 0x94D049BB133111EB, 0x319642B2D24D8EC3, 0x1CD336EDA85F1453);
    XorRightInjective(xa, ya, 27);
    TimesInjective(xs, ys, 0xBF58476D1CE4E5B9, 0x96DE1B173F119089, 0x70C3BCA78F27F46C);
    XorRightInjective(x, y, 30);
  }

  lemma AdvancedMoves(state: nat)
    requires state < TWO_64
    ensures Advanced(state) != state
  {
  }

  /** Two draws in a row are never equal. */
  lemma DrawsDiffer(seed: nat, k: nat)
    requires seed < TWO_64
    ensures Draw(seed, k) != Draw(seed, k + 1)
  {
    var x, y := StateAfter(seed, k + 1), StateAfter(seed, k + 2);
    AdvancedMoves(x);
    if Draw(seed, k) == Draw(seed, k + 1) {
      MixInjective(Bits(x, 64), Bits(y, 64));
      StateBits(x);
      StateBits(y);
      assert false;
    }
  }

  lemma StateBits(x: nat)
    requires x < TWO_64
    ensures Value(Bits(x, 64)) == x
  {
    Pow2Of64();
    ValueOfBits(x, 64);
    ModuloUnique(x, TWO_64, 0, x);
  }

  // ------------------------------------------------------------ xoshiro256+

  datatype Lane = Lane(s0: Word64, s1: Word64, s2: Word64, s3: Word64) {
    /** The one state xoshiro never leaves. */
    predicate Dead() {
      s0 == s1 == s2 == s3 == Zeros(64)
    }
  }

  function Output(v: Lane): Word64 {
    Add(v.s0, v.s3)
  }

  /** The next state, every word in terms of the old ones. */
  function StepLane(v: Lane): Lane {
    var d := Xor(v.s3, v.s1);
    Lane(Xor(v.s0, d), Xor(v.s1, Xor(v.s2, v.s0)), Xor(Xor(v.s2, v.s0), Left(v.s1, 17)), RotateLeft(d, 45))
  }

  lemma XorCancels(a: Word64, x: Word64, y: Word64)
    ensures Xor(a, x) == Xor(a, y) ==> x == y
    ensures Xor(x, a) == Xor(y, a) ==> x == y
  {
    assert forall i :: 0 <= i < 64 ==> x[i] == (Xor(a, x)[i] != a[i]) && y[i] == (Xor(a, y)[i] != a[i]);
    assert forall i :: 0 <= i < 64 ==> x[i] == (Xor(x, a)[i] != a[i]) && y[i] == (Xor(y, a)[i] != a[i]);
  }

  lemma RotateInjective(x: Word64, y: Word64)
    requires RotateLeft(x, 45) == RotateLeft(y, 45)
    ensures x == y
  {
    var rx, ry := RotateLeft(x, 45), RotateLeft(y, 45);
    assert forall i :: 0 <= i < 64 ==> x[i] == (if i < 19 then rx[i + 45] else rx[i - 19]);
    assert forall i :: 0 <= i < 64 ==> y[i] == (if i < 19 then ry[i + 45] else ry[i - 19]);
  }

  /** Adding s1 and s2 of the next state leaves s1 ^ (s1 << 17) of this one. */
  lemma SecondWord(v: Lane)
    ensures Xor(StepLane(v).s1, StepLane(v).s2) == Xor(v.s1, Left(v.s1, 17))
  {
  }

  /** The xoshiro step is invertible. */
  lemma StepInjective(v: Lane, w: Lane)
    requires StepLane(v) == StepLane(w)
    ensures v == w
  {
    var d, e := Xor(v.s3, v.s1), Xor(w.s3, w.s1);
    RotateInjective(d, e);
    XorCancels(d, v.s0, w.s0);
    SecondWord(v);
    SecondWord(w);
    XorLeftInjective(v.s1, w.s1, 17);
    XorCancels(v.s1, v.s3, w.s3);
    XorCancels(v.s1, Xor(v.s2, v.s0), Xor(w.s2, w.s0));
    XorCancels(v.s0, v.s2, w.s2);
  }

  lemma StepStaysAlive(v: Lane)
    requires !v.Dead()
    ensures !StepLane(v).Dead()
  {
    var z := Lane(Zeros(64), Zeros(64), Zeros(64), Zeros(64));
    if StepLane(v).Dead() {
      var n := StepLane(z);
      assert n.s0 == Zeros(64) && n.s1 == Zeros(64) && n.s2 == Zeros(64) && n.s3 == Zeros(64);
      StepInjective(v, z);
      assert false;
    }
  }

  // ------------------------------------------------------------ the random generator

  const LANES: nat := 8
  const BLOCK_BYTES: nat := 64

  function StepAll(lanes: seq<Lane>): (r: seq<Lane>)
    ensures |r| == |lanes|
  {
    seq(|lanes|, i requires 0 <= i < |lanes| => StepLane(lanes[i]))
  }

  type Lanes = s: seq<Lane> | |s| == LANES
    witness seq(8, _ => Lane(Zeros(64), Zeros(64), Zeros(64), Zeros(64)))

  /** The bytes one step writes: eight little-endian bytes per lane. */
  function Block(lanes: Lanes): (r: seq<byte>)
    ensures |r| == BLOCK_BYTES
  {
    seq<byte>(BLOCK_BYTES, i requires 0 <= i < BLOCK_BYTES => Le(Value(Output(lanes[i / 8])), 8)[i % 8])
  }

  lemma LaneInBlock(lanes: Lanes, l: nat)
    requires l < LANES
    ensures Block(lanes)[8 * l..8 * l + 8] == Le(Value(Output(lanes[l])), 8)
  {
    var piece, word := Block(lanes)[8 * l..8 * l + 8], Le(Value(Output(lanes[l])), 8);
    forall i | 0 <= i < 8
      ensures piece[i] == word[i]
    {
      ModuloUnique(8 * l + i, 8, l, i);
    }
  }

  function Steps(lanes: Lanes, k: nat): Lanes
    decreases k, |lanes|
  {
    if k == 0 then lanes else StepAll(Steps(lanes, k - 1))
  }

  /** Blocks needed for n bytes. */
  function BlocksFor(n: nat): nat {
    (n + (BLOCK_BYTES - 1)) / BLOCK_BYTES
  }

  /** The n bytes one fill writes: the blocks of successive states. */
  function RandomBytes(lanes: Lanes, n: nat): (r: seq<byte>)
    ensures |r| == n
  {
    seq<byte>(n, i requires 0 <= i < n => Block(Steps(lanes, i / BLOCK_BYTES))[i % BLOCK_BYTES])
  }

  /** The state it leaves; what is left of the last block is thrown away. */
  function RandomAfter(lanes: Lanes, n: nat): Lanes {
    Steps(lanes, BlocksFor(n))
  }

  ghost predicate AllAlive(lanes: seq<Lane>) {
    forall l :: 0 <= l < |lanes| ==> !lanes[l].Dead()
  }

  lemma {:induction false} StepsStayAlive(lanes: Lanes, k: nat)
    requires AllAlive(lanes)
    ensures AllAlive(Steps(lanes, k))
    decreases k
  {
    if k != 0 {
      StepsStayAlive(lanes, k - 1);
      forall l | 0 <= l < LANES
        ensures !Steps(lanes, k)[l].Dead()
      {
        StepStaysAlive(Steps(lanes, k - 1)[l]);
      }
    }
  }

  function SeedLane(seed: nat, l: nat): Lane
    requires seed < TWO_64
  {
    Lane(Draw(seed, 4 * l), Draw(seed, 4 * l + 1), Draw(seed, 4 * l + 2), Draw(seed, 4 * l + 3))
  }

  /** The first l lanes of a freshly seeded generator. */
  function SeedLanes(seed: nat, l: nat): (r: seq<Lane>)
    requires seed < TWO_64
    ensures |r| == l
    decreases l, seed
  {
    if l == 0 then [] else SeedLanes(seed, l - 1) + [SeedLane(seed, l - 1)]
  }

  lemma {:induction false} LaneOfSeed(seed: nat, n: nat, l: nat)
    requires seed < TWO_64 && l < n
    ensures SeedLanes(seed, n)[l] == SeedLane(seed, l)
    decreases n
  {
    var m := n - 1;
    var before, last := SeedLanes(seed, m), SeedLane(seed, m);
    assert SeedLanes(seed, n) == before + [last];
    if l < m {
      LaneOfSeed(seed, m, l);
      assert SeedLanes(seed, n)[l] == before[l];
    } else {
      assert l == m;
      assert SeedLanes(seed, n)[l] == last;
    }
  }

  /** The states of the lanes after filling buffers of the given sizes. */
  function AfterFills(lanes: Lanes, sizes: seq<nat>): Lanes
    decreases |sizes|
  {
    if sizes == [] then lanes else AfterFills(RandomAfter(lanes, sizes[0]), sizes[1..])
  }

  lemma {:induction false} FillsStayAlive(lanes: Lanes, sizes: seq<nat>)
    requires AllAlive(lanes)
    ensures AllAlive(AfterFills(lanes, sizes))
    decreases |sizes|
  {
    if sizes != [] {
      StepsStayAlive(lanes, BlocksFor(sizes[0]));
      FillsStayAlive(RandomAfter(lanes, sizes[0]), sizes[1..]);
    }
  }

  lemma SeedLaneAlive(seed: nat, l: nat)
    requires seed < TWO_64
    ensures !SeedLane(seed, l).Dead()
  {
    DrawsDiffer(seed, 4 * l);
  }

  lemma {:induction false} SeedLanesAlive(seed: nat, l: nat)
    requires seed < TWO_64
    ensures AllAlive(SeedLanes(seed, l))
    decreases l
  {
    if l != 0 {
      SeedLanesAlive(seed, l - 1);
      SeedLaneAlive(seed, l - 1);
    }
  }

  /** Whatever the seed, no lane is ever caught in the all-zero state. */
  lemma NeverDegenerates(seed: nat, sizes: seq<nat>)
    requires seed < TWO_64
    ensures AllAlive(AfterFills(SeedLanes(seed, LANES), sizes))
  {
    SeedLanesAlive(seed, LANES);
    FillsStayAlive(SeedLanes(seed, LANES), sizes);
  }

  lemma {:induction false} StepsAdd(lanes: Lanes, j: nat, k: nat)
    ensures Steps(lanes, j + k) == Steps(Steps(lanes, j), k)
    decreases k
  {
    if k != 0 {
      StepsAdd(lanes, j, k - 1);
    }
  }

  lemma BlocksAfterBlocks(a: nat, blocks: nat, b: nat, n: nat)
    requires a == BLOCK_BYTES * blocks && n == a + b
    ensures BlocksFor(a) == blocks && BlocksFor(n) == blocks + BlocksFor(b)
  {
    ModuloUnique(a + 63, 64, blocks, 63);
    ModuloUnique(n + 63, 64, blocks + BlocksFor(b), (b + 63) % 64);
  }

  lemma ByteAfterBlocks(lanes: Lanes, later: Lanes, a: nat, blocks: nat, b: nat, n: nat, i: nat, at: nat)
    requires a == BLOCK_BYTES * blocks && n == a + b && at == a + i && i < b && later == Steps(lanes, blocks)
    ensures RandomBytes(lanes, n)[at] == RandomBytes(later, b)[i]
  {
    var q, r := i / 64, i % 64;
    ModuloUnique(at, 64, blocks + q, r);
    StepsAdd(lanes, blocks, q);
    assert at / BLOCK_BYTES == blocks + q && at % BLOCK_BYTES == r;
    assert Steps(lanes, at / BLOCK_BYTES) == Steps(later, q);
  }

  /** Cutting a fill after whole blocks changes neither its bytes nor the state it leaves. */
  lemma RandomChunks(lanes: Lanes, a: nat, blocks: nat, b: nat, n: nat)
    requires a == BLOCK_BYTES * blocks && n == a + b
    ensures RandomBytes(lanes, n) == RandomBytes(lanes, a) + RandomBytes(RandomAfter(lanes, a), b)
    ensures RandomAfter(lanes, n) == RandomAfter(RandomAfter(lanes, a), b)
  {
    StatesContinue(lanes, a, blocks, b, n);
    var later := RandomAfter(lanes, a);
    var whole, first, rest := RandomBytes(lanes, n), RandomBytes(lanes, a), RandomBytes(later, b);
    forall i, at | 0 <= i < b && at == a + i
      ensures whole[at] == rest[i]
    {
      ByteAfterBlocks(lanes, later, a, blocks, b, n, i, at);
    }
    SamePrefix(lanes, a, n);
    Glued(whole, first, rest);
  }

  lemma Glued(whole: seq<byte>, first: seq<byte>, rest: seq<byte>)
    requires |whole| == |first| + |rest| && whole[..|first|] == first
    requires forall i, at :: 0 <= i < |rest| && at == |first| + i ==> whole[at] == rest[i]
    ensures whole == first + rest
  {
  }

  lemma StatesContinue(lanes: Lanes, a: nat, blocks: nat, b: nat, n: nat)
    requires a == BLOCK_BYTES * blocks && n == a + b
    ensures RandomAfter(lanes, a) == Steps(lanes, blocks)
    ensures RandomAfter(lanes, n) == RandomAfter(RandomAfter(lanes, a), b)
  {
    BlocksAfterBlocks(a, blocks, b, n);
    StepsAdd(lanes, blocks, BlocksFor(b));
  }

  lemma SamePrefix(lanes: Lanes, a: nat, n: nat)
    requires a <= n
    ensures RandomBytes(lanes, n)[..a] == RandomBytes(lanes, a)
  {
  }

  /** splitmix64: advances the state and returns its output. */
  method SplitMix64(ghost seed: nat, ghost k: nat, ghost after: nat, state: nat) returns (next: nat, z: Word64)
    requires seed < TWO_64 && state == StateAfter(seed, k) && after == k + 1
    ensures next == StateAfter(seed, after) && z == Draw(seed, k)
  {
    next := Advanced(state);
    assert next == StateAfter(seed, after);
    z := Bits(next, 64);
    z := Times(Xor(z, Right(z, 30)), 0xBF58476D1CE4E5B9);
    z := Times(Xor(z, Right(z, 27)), 0x94D049BB133111EB);
    z := Xor(z, Right(z, 31));
  }

  /** The inner seeding loop: four words for lane l. */
  method SeedOneLane(ghost seed: nat, ghost l: nat, state: nat) returns (next: nat, lane: Lane)
    requires seed < TWO_64 && state == StateAfter(seed, 4 * l)
    ensures next == StateAfter(seed, 4 * (l + 1)) && lane == SeedLane(seed, l)
  {
    ghost var k, k1, k2, k3 := 4 * l, 4 * l + 1, 4 * l + 2, 4 * l + 3;
    var s0, s1, s2, s3;
    next, s0 := SplitMix64(seed, k, k1, state);
    next, s1 := SplitMix64(seed, k1, k2, next);
    next, s2 := SplitMix64(seed, k2, k3, next);
    next, s3 := SplitMix64(seed, k3, 4 * (l + 1), next);
    lane := Lane(s0, s1, s2, s3);
  }

  /** The step of one lane, word after word in place. */
  method StepInPlace(v: Lane) returns (result: Word64, w: Lane)
    ensures result == Output(v) && w == StepLane(v)
  {
    var s0, s1, s2, s3 := v.s0, v.s1, v.s2, v.s3;
    result := Add(s0, s3);
    var t := Left(s1, 17);
    s2 := Xor(s2, s0);
    s3 := Xor(s3, s1);
    s1 := Xor(s1, s2);
    s0 := Xor(s0, s3);
    s2 := Xor(s2, t);
    s3 := RotateLeft(s3, 45);
    w := Lane(s0, s1, s2, s3);
  }

  /** One step of all lanes; writes 64 bytes at out[at..]. */
  method XoshiroStep(v: Lanes, out: array<byte>, at: nat) returns (w: Lanes)
    requires at + BLOCK_BYTES <= out.Length
    modifies out
    ensures w == StepAll(v)
    ensures out[..] == Overwritten(old(out[..]), at, Block(v))
  {
    ghost var before := out[..];
    w := v;
    for l := 0 to LANES
      invariant forall i :: 0 <= i < LANES ==> w[i] == if i < l then StepLane(v[i]) else v[i]
      invariant out[..] == Overwritten(before, at, Block(v)[..8 * l])
    {
      var next := StepInto(w[l], out, at, l, before, v);
      w := w[l := next];
    }
    assert Block(v)[..64] == Block(v);
  }

  /** The step of lane l and its eight output bytes. */
  method StepInto(lane: Lane, out: array<byte>, at: nat, l: nat, ghost before: seq<byte>, ghost v: Lanes)
    returns (next: Lane)
    requires l < LANES && at + BLOCK_BYTES <= out.Length && lane == v[l] && |before| == out.Length
    requires out[..] == Overwritten(before, at, Block(v)[..8 * l])
    modifies out
    ensures next == StepLane(lane) && out[..] == Overwritten(before, at, Block(v)[..8 * (l + 1)])
  {
    var result;
    result, next := StepInPlace(lane);
    var bytes := Le(Value(result), 8);
    BlockContinues(before, at, v, l, bytes);
    Copy(out, at + 8 * l, bytes);
  }

  lemma BlockContinues(before: seq<byte>, at: nat, v: Lanes, l: nat, result: seq<byte>)
    requires l < LANES && at + BLOCK_BYTES <= |before| && result == Le(Value(Output(v[l])), 8)
    ensures Overwritten(Overwritten(before, at, Block(v)[..8 * l]), at + 8 * l, result)
         == Overwritten(before, at, Block(v)[..8 * (l + 1)])
  {
    LaneInBlock(v, l);
    PartContinues(before, at, Block(v), 8 * l, 8 * l + 8, at + 8 * l);
  }

  lemma PartContinues(before: seq<byte>, at: nat, block: seq<byte>, lo: nat, hi: nat, next: nat)
    requires lo <= hi <= |block| && at + |block| <= |before| && next == at + lo
    ensures Overwritten(Overwritten(before, at, block[..lo]), next, block[lo..hi]) == Overwritten(before, at, block[..hi])
  {
    assert block[..hi] == block[..lo] + block[lo..hi];
    OverwrittenAdds(before, at, block[..lo], next, block[lo..hi]);
  }

  /** Filling b more bytes behind a number of whole blocks. */
  lemma FillContinues(before: seq<byte>, current: seq<byte>, after: seq<byte>, lo: nat, at: nat,
                      lanes: Lanes, v: Lanes, w: Lanes, a: nat, blocks: nat, b: nat, n: nat)
    requires lo + n <= |before| && a == BLOCK_BYTES * blocks && n == a + b && at == lo + a
    requires current == Overwritten(before, lo, RandomBytes(lanes, a)) && v == RandomAfter(lanes, a)
    requires after == Overwritten(current, at, RandomBytes(v, b)) && w == RandomAfter(v, b)
    ensures after == Overwritten(before, lo, RandomBytes(lanes, n)) && w == RandomAfter(lanes, n)
  {
    RandomChunks(lanes, a, blocks, b, n);
    OverwrittenAdds(before, lo, RandomBytes(lanes, a), at, RandomBytes(v, b));
  }

  /** The first `done` bytes of the fill are in place, and v is the state that goes on. */
  ghost predicate Filling(payload: array<byte>, before: seq<byte>, lo: nat, lanes: Lanes, done: nat, v: Lanes)
    reads payload
  {
    && lo + done <= |before|
    && payload[..] == Overwritten(before, lo, RandomBytes(lanes, done))
    && v == RandomAfter(lanes, done)
  }

  /** The tail of a fill: one more step into a local block, of which only a part is copied. */
  method LastBlock(v: Lanes, payload: array<byte>, lo: nat, done: nat, size: nat,
                   ghost before: seq<byte>, ghost lanes: Lanes, ghost blocks: nat) returns (w: Lanes)
    requires done < size < done + BLOCK_BYTES && lo + size <= payload.Length && done == BLOCK_BYTES * blocks
    requires Filling(payload, before, lo, lanes, done, v)
    modifies payload
    ensures Filling(payload, before, lo, lanes, size, w)
  {
    ghost var current := payload[..];
    var rest, at := size - done, lo + done;
    var piece;
    piece, w := PartialStep(v, rest);
    Copy(payload, at, piece);
    FillContinues(before, current, payload[..], lo, at, lanes, v, w, done, blocks, rest, size);
  }

  /** One step into a block of its own, of which the first n bytes are used. */
  method PartialStep(v: Lanes, n: nat) returns (piece: seq<byte>, w: Lanes)
    requires 0 < n < BLOCK_BYTES
    ensures piece == RandomBytes(v, n) && w == RandomAfter(v, n)
  {
    var out := new byte[BLOCK_BYTES](_ => 0);
    w := XoshiroStep(v, out, 0);
    assert out[..] == Block(v);
    PartOfBlock(v, n);
    piece := out[..n];
  }

  /** A whole block, written directly into the payload. */
  method WholeBlock(v: Lanes, payload: array<byte>, lo: nat, done: nat, next: nat,
                    ghost before: seq<byte>, ghost lanes: Lanes, ghost blocks: nat) returns (w: Lanes)
    requires next == done + BLOCK_BYTES && lo + next <= payload.Length && done == BLOCK_BYTES * blocks
    requires Filling(payload, before, lo, lanes, done, v)
    modifies payload
    ensures Filling(payload, before, lo, lanes, next, w)
  {
    ghost var current := payload[..];
    var at := lo + done;
    w := XoshiroStep(v, payload, at);
    OneBlock(v);
    FillContinues(before, current, payload[..], lo, at, lanes, v, w, done, blocks, BLOCK_BYTES, next);
  }

  /** fill_impl: whole blocks while they fit, then part of one more. */
  method FillLanes(lanes: Lanes, payload: array<byte>, lo: nat, size: nat) returns (v: Lanes)
    requires lo + size <= payload.Length
    modifies payload
    ensures payload[..] == Overwritten(old(payload[..]), lo, RandomBytes(lanes, size))
    ensures v == RandomAfter(lanes, size)
  {
    ghost var before := payload[..];
    var done := 0;
    v := lanes;
    ghost var blocks := 0;
    while size - done >= BLOCK_BYTES
      invariant done <= size && done == BLOCK_BYTES * blocks
      invariant Filling(payload, before, lo, lanes, done, v)
    {
      v := WholeBlock(v, payload, lo, done, done + BLOCK_BYTES, before, lanes, blocks);
      done, blocks := done + BLOCK_BYTES, blocks + 1;
    }
    if done < size {
      v := LastBlock(v, payload, lo, done, size, before, lanes, blocks);
    }
    assert Filling(payload, before, lo, lanes, size, v);
  }

  /** The random generator's constructor: eight lanes from one seed. */
  method SeedState(seed: nat) returns (lanes: Lanes)
    requires seed < TWO_64
    ensures lanes == SeedLanes(seed, LANES)
  {
    var done: seq<Lane> := [];
    var sm := seed;
    for l := 0 to LANES
      invariant sm == StateAfter(seed, 4 * l)
      invariant done == SeedLanes(seed, l)
    {
      var lane;
      sm, lane := SeedOneLane(seed, l, sm);
      done := done + [lane];
    }
    lanes := done;
  }

  lemma OneBlock(lanes: Lanes)
    ensures RandomBytes(lanes, BLOCK_BYTES) == Block(lanes) && RandomAfter(lanes, BLOCK_BYTES) == StepAll(lanes)
  {
    assert Steps(lanes, 1) == StepAll(Steps(lanes, 0));
  }

  lemma PartOfBlock(lanes: Lanes, n: nat)
    requires 0 < n < BLOCK_BYTES
    ensures RandomBytes(lanes, n) == Block(lanes)[..n] && RandomAfter(lanes, n) == StepAll(lanes)
  {
    assert Steps(lanes, 1) == StepAll(Steps(lanes, 0));
    assert BlocksFor(n) == 1;
  }

  // ------------------------------------------------------------ the sequential generator

  /** Truncation of a counter to eight bits. */
  function Wrap(x: nat): byte {
    x % 256
  }

  lemma WrapAdds(x: nat, i: nat)
    ensures Wrap(x + i) == Wrap(Wrap(x) + i)
  {
    var r := x % 256 + i;
    ModuloUnique(x + i, 256, x / 256 + r / 256, r % 256);
  }

  function SequentialBytes(next: byte, n: nat): (r: seq<byte>)
    ensures |r| == n
  {
    seq<byte>(n, i requires 0 <= i < n => Wrap(next as nat + i))
  }

  /** The sequential generator's fill loop. */
  method FillSequential(next: byte, payload: array<byte>, lo: nat, size: nat) returns (value: byte)
    requires lo + size <= payload.Length
    modifies payload
    ensures payload[..] == Overwritten(old(payload[..]), lo, SequentialBytes(next, size))
    ensures value == Wrap(next + size)
  {
    value := next;
    for i := 0 to size
      invariant payload[..] == Overwritten(old(payload[..]), lo, SequentialBytes(next, i))
      invariant value == Wrap(next + i)
    {
      SequentialContinues(next, i);
      OverwrittenAdds(old(payload[..]), lo, SequentialBytes(next, i), lo + i, [value]);
      Copy(payload, lo + i, [value]);
      value := Wrap(value as nat + 1);
    }
  }

  lemma SequentialContinues(next: byte, k: nat)
    ensures SequentialBytes(next, k + 1) == SequentialBytes(next, k) + [Wrap(next + k)]
    ensures Wrap(Wrap(next + k) as nat + 1) == Wrap(next + (k + 1))
  {
    WrapAdds(next + k, 1);
  }

  // ------------------------------------------------------------ either generator

  /** The state of a generator, as a value. */
  datatype Generator = Random(lanes: Lanes) | Sequential(next: byte) {
    /** What the next fill of n bytes writes. */
    function Bytes(n: nat): (r: seq<byte>)
      ensures |r| == n
    {
      match this
      case Random(lanes) => RandomBytes(lanes, n)
      case Sequential(next) => SequentialBytes(next, n)
    }

    /** The state it leaves. */
    function After(n: nat): Generator {
      match this
      case Random(lanes) => Random(RandomAfter(lanes, n))
      case Sequential(next) => Sequential(Wrap(next as nat + n))
    }
  }

  lemma SequentialChunks(next: byte, a: nat, b: nat)
    ensures SequentialBytes(next, a + b) == SequentialBytes(next, a) + SequentialBytes(Wrap(next + a), b)
    ensures Wrap(next + (a + b)) == Wrap(Wrap(next + a) + b)
  {
    WrapAdds(next + a, b);
    var whole, rest := SequentialBytes(next, a + b), SequentialBytes(Wrap(next + a), b);
    forall i | 0 <= i < b
      ensures rest[i] == whole[a + i]
    {
      WrapAdds(next + a, i);
    }
  }

  /** Cutting a fill into two is invisible: after whole blocks for the random generator, anywhere for the sequential. */
  lemma ChunksInvisible(g: Generator, a: nat, blocks: nat, b: nat, n: nat)
    requires n == a + b
    requires g.Random? ==> a == BLOCK_BYTES * blocks
    ensures g.Bytes(n) == g.Bytes(a) + g.After(a).Bytes(b)
    ensures g.After(n) == g.After(a).After(b)
  {
    match g
    case Random(lanes) => RandomChunks(lanes, a, blocks, b, n);
    case Sequential(next) => SequentialChunks(next, a, b);
  }

  /** A payload generator of either kind; it writes straight into the destination buffer. */
  class PayloadGenerator {
    var state: Generator

    constructor Random(seed: nat)
      requires seed < TWO_64
      ensures state == Generator.Random(SeedLanes(seed, LANES))
    {
      var lanes := SeedState(seed);
      state := Generator.Random(lanes);
    }

    constructor Sequential()
      ensures state == Generator.Sequential(0)
    {
      state := Generator.Sequential(0);
    }

    /** Fills payload[lo..lo + size] in place. */
    method Fill(payload: array<byte>, lo: nat, size: nat)
      requires lo + size <= payload.Length
      modifies this, payload
      ensures payload[..] == Overwritten(old(payload[..]), lo, old(state).Bytes(size))
      ensures state == old(state).After(size)
    {
      match state
      case Random(lanes) =>
        var v := FillLanes(lanes, payload, lo, size);
        state := Generator.Random(v);
      case Sequential(next) =>
        var value := FillSequential(next, payload, lo, size);
        state := Generator.Sequential(value);
    }
  }
}
