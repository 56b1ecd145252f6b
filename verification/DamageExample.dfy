/**
 * Damage within 32 consecutive bits that goes unnoticed does occur, at the end of the checksum field: in a stream of empty
 * packets with CRC-32C checksums every even packet turns into its successor by such damage.
 */
module DamageExample {
  import opened Words
  import opened Crc
  import opened CrcHistory
  import opened Packet
  import opened PacketValidator
  import opened Damage

  // ------------------------------------------------------------ the bits that leave the register

  /** An error pattern that consists of bit 128. */
  ghost predicate Damaged(m: nat -> bool) {
    forall t :: m(t) <==> t == 128
  }

  lemma Next(out: nat -> bool, m: nat -> bool, t: nat)
    requires Damaged(m) && Follows32cFrom(out, m, 128) && t >= 128
    ensures Follows32c(out, m, t) && (m(t) <==> t == 128)
  {
  }

  lemma First(out: nat -> bool, m: nat -> bool)
    requires Damaged(m) && Follows32cFrom(out, m, 128)
    ensures out(128) && !out(129) && !out(130) && !out(131) && out(132) && out(133) && out(134) && out(135) && out(136)
      && out(137) && !out(138) && !out(139) && out(140) && !out(141) && !out(142) && !out(143) && out(144)
      && out(145) && out(146) && !out(147) && !out(148) && out(149) && !out(150) && out(151) && !out(152) && out(153)
      && out(154) && out(155) && out(156) && !out(157) && out(158) && out(159)
  {
    Next(out, m, 128); Next(out, m, 129); Next(out, m, 130); Next(out, m, 131); Next(out, m, 132); Next(out, m, 133);
    Next(out, m, 134); Next(out, m, 135); Next(out, m, 136); Next(out, m, 137); Next(out, m, 138); Next(out, m, 139);
    Next(out, m, 140); Next(out, m, 141); Next(out, m, 142); Next(out, m, 143); Next(out, m, 144); Next(out, m, 145);
    Next(out, m, 146); Next(out, m, 147); Next(out, m, 148); Next(out, m, 149); Next(out, m, 150); Next(out, m, 151);
    Next(out, m, 152); Next(out, m, 153); Next(out, m, 154); Next(out, m, 155); Next(out, m, 156); Next(out, m, 157);
    Next(out, m, 158); Next(out, m, 159);
  }

  lemma Second(out: nat -> bool, m: nat -> bool)
    requires Damaged(m) && Follows32cFrom(out, m, 128)
    ensures !out(160) && !out(161) && !out(162) && out(163) && out(164) && out(165) && !out(166) && !out(167) && !out(168)
      && !out(169) && out(170) && out(171) && !out(172) && out(173) && out(174) && out(175) && out(176) && !out(177)
      && !out(178) && out(179) && !out(180) && out(181) && out(182) && !out(183) && !out(184) && !out(185)
      && !out(186) && out(187) && !out(188) && !out(189) && out(190) && !out(191)
  {
    First(out, m);
    Next(out, m, 160); Next(out, m, 161); Next(out, m, 162); Next(out, m, 163); Next(out, m, 164); Next(out, m, 165);
    Next(out, m, 166); Next(out, m, 167); Next(out, m, 168); Next(out, m, 169); Next(out, m, 170); Next(out, m, 171);
    Next(out, m, 172); Next(out, m, 173); Next(out, m, 174); Next(out, m, 175); Next(out, m, 176); Next(out, m, 177);
    Next(out, m, 178); Next(out, m, 179); Next(out, m, 180); Next(out, m, 181); Next(out, m, 182); Next(out, m, 183);
    Next(out, m, 184); Next(out, m, 185); Next(out, m, 186); Next(out, m, 187); Next(out, m, 188); Next(out, m, 189);
    Next(out, m, 190); Next(out, m, 191);
  }

  lemma Third(out: nat -> bool, m: nat -> bool)
    requires Damaged(m) && Follows32cFrom(out, m, 128)
    ensures out(192) && out(193) && out(194) && !out(195) && out(196) && out(197) && out(198) && out(199) && !out(200)
      && !out(201) && !out(202) && out(203) && !out(204) && !out(205) && out(206) && out(207) && out(208)
      && !out(209) && out(210) && !out(211) && out(212) && !out(213) && !out(214) && out(215) && out(216)
      && !out(217) && !out(218) && !out(219) && out(220) && out(221) && !out(222) && !out(223)
  {
    Second(out, m);
    Next(out, m, 192); Next(out, m, 193); Next(out, m, 194); Next(out, m, 195); Next(out, m, 196); Next(out, m, 197);
    Next(out, m, 198); Next(out, m, 199); Next(out, m, 200); Next(out, m, 201); Next(out, m, 202); Next(out, m, 203);
    Next(out, m, 204); Next(out, m, 205); Next(out, m, 206); Next(out, m, 207); Next(out, m, 208); Next(out, m, 209);
    Next(out, m, 210); Next(out, m, 211); Next(out, m, 212); Next(out, m, 213); Next(out, m, 214); Next(out, m, 215);
    Next(out, m, 216); Next(out, m, 217); Next(out, m, 218); Next(out, m, 219); Next(out, m, 220); Next(out, m, 221);
    Next(out, m, 222); Next(out, m, 223);
  }

  lemma Fourth(out: nat -> bool, m: nat -> bool)
    requires Damaged(m) && Follows32cFrom(out, m, 128)
    ensures !out(224) && !out(225) && !out(226) && !out(227) && out(228) && out(229) && !out(230) && !out(231) && out(232)
      && !out(233) && out(234) && !out(235) && out(236) && !out(237) && out(238) && !out(239) && !out(240)
      && out(241) && out(242) && !out(243) && !out(244) && out(245) && out(246) && !out(247) && out(248) && !out(249)
      && !out(250) && !out(251) && out(252) && out(253) && out(254) && out(255)
  {
    Third(out, m);
    Next(out, m, 224); Next(out, m, 225); Next(out, m, 226); Next(out, m, 227); Next(out, m, 228); Next(out, m, 229);
    Next(out, m, 230); Next(out, m, 231); Next(out, m, 232); Next(out, m, 233); Next(out, m, 234); Next(out, m, 235);
    Next(out, m, 236); Next(out, m, 237); Next(out, m, 238); Next(out, m, 239); Next(out, m, 240); Next(out, m, 241);
    Next(out, m, 242); Next(out, m, 243); Next(out, m, 244); Next(out, m, 245); Next(out, m, 246); Next(out, m, 247);
    Next(out, m, 248); Next(out, m, 249); Next(out, m, 250); Next(out, m, 251); Next(out, m, 252); Next(out, m, 253);
    Next(out, m, 254); Next(out, m, 255);
  }

  lemma Fifth(out: nat -> bool, m: nat -> bool)
    requires Damaged(m) && Follows32cFrom(out, m, 128)
    ensures !out(256)
  {
    Fourth(out, m);
    Next(out, m, 256);
  }

  // ------------------------------------------------------------ two packets one burst apart

  lemma OutIsClear(p: Word32, out: nat -> bool, m: nat -> bool, n: nat)
    requires Castagnoli(p) && n == 256 && Damaged(m) && forall t :: out(t) == Out(p, m, t)
    ensures !Out(p, m, n)
  {
    RegisterFollows32c(p, out, m, 128);
    Fifth(out, m);
    assert out(n) == Out(p, m, n);
  }

  lemma LowBit(p: Word32, m: nat -> bool, pattern: seq<bool>, n: nat)
    requires n == |pattern| == 256 && Damaged(m) && !Out(p, m, n) && forall i :: 0 <= i < n ==> pattern[i] == (i == 128)
    ensures !OverBits(p, Zeros(32), pattern)[0]
  {
    RegisterIsOverBits(p, m, pattern, n);
    assert pattern[..n] == pattern;
  }

  /** Bit 128 of a 32-byte message does not show in the lowest bit of its CRC-32C. */
  lemma LowBitUntouched(pattern: seq<bool>)
    requires |pattern| == 256 && forall i :: 0 <= i < 256 ==> pattern[i] == (i == 128)
    ensures !Effect(Crc32c, pattern)[0]
  {
    var m := (t: nat) => t == 128;
    CastagnoliBits();
    OutIsClear(Polynomial(Crc32c), (t: nat) => Out(Polynomial(Crc32c), m, t), m, 256);
    LowBit(Polynomial(Crc32c), m, pattern, 256);
  }

  lemma EvenByte(b: byte, i: nat)
    requires b % 2 == 0 && i < 8
    ensures Bits(b, 8)[i] != Bits(b + 1, 8)[i] <==> i == 0
  {
    OddSuccessor(b, b + 1, b / 2, 8, i);
  }

  lemma OddSuccessor(even: nat, odd: nat, half: nat, n: nat, i: nat)
    requires even == 2 * half && odd == even + 1 && i < n
    ensures Bits(even, n)[i] != Bits(odd, n)[i] <==> i == 0
  {
    FirstBit(even, half, n);
    FirstBit(odd, half, n);
  }

  lemma FirstBit(x: nat, half: nat, n: nat)
    requires n > 0 && half == x / 2
    ensures Bits(x, n) == [x % 2 == 1] + Bits(half, n - 1)
  {
  }

  lemma OneBitApart(x: seq<byte>, y: seq<byte>, at: nat, i: nat)
    requires at < |x| && x[at] % 2 == 0 && y == x[at := x[at] + 1] && i < 8 * |x|
    ensures Difference(x, y)[i] == (i == 8 * at)
  {
    var k, j := i / 8, i % 8;
    MessageBitAt(x, i, k, j);
    MessageBitAt(y, i, k, j);
    if k == at {
      EvenByte(x[at], j);
    }
  }

  lemma NextNumber(x: nat, n: nat)
    requires x % 2 == 0 && n > 0
    ensures Le(x, n)[0] % 2 == 0 && Le(x, n)[0] < 255
    ensures Le(x + 1, n) == [Le(x, n)[0] + 1] + Le(x, n)[1..]
  {
    assert (x + 1) % 256 == x % 256 + 1 && (x + 1) / 256 == x / 256;
  }

  /** The header of an even packet becomes that of its successor in one bit. */
  lemma NextHeader(h: PacketHeader, a: seq<byte>, b: seq<byte>)
    requires h.sequence % 2 == 0
    requires a == AfterChecksum(h) && b == AfterChecksum(h.(sequence := h.sequence + 1))
    ensures a[0] % 2 == 0 && a[0] < 255 && b == [a[0] + 1] + a[1..]
  {
    NextNumber(h.sequence, 8);
  }

  lemma HeaderOf(h: PacketHeader, pre: seq<byte>, a: seq<byte>, b: seq<byte>)
    requires pre == BeforeChecksum(h) + Le(h.checksum, 4)
    requires a == AfterChecksum(h) && b == AfterChecksum(h.(sequence := h.sequence + 1))
    ensures HeaderBytes(h) == pre + a && HeaderBytes(h.(sequence := h.sequence + 1)) == pre + b
    ensures |pre| == 16
  {
  }

  lemma BitsOfPatched(x: seq<byte>, w: Word32)
    requires |x| == HEADER_SIZE
    ensures MessageBits(Patched(x, Value(w))) == MessageBits(x[..12]) + (w + MessageBits(x[16..]))
  {
    BitsOfField(w);
    MessageBitsAdds(Le(Value(w), 4), x[16..]);
    MessageBitsAdds(x[..12], Le(Value(w), 4) + x[16..]);
    assert Patched(x, Value(w)) == x[..12] + (Le(Value(w), 4) + x[16..]);
  }

  lemma TailsAgree(a: seq<byte>, b: seq<byte>)
    requires |a| == |b| == 16 && a[0] % 2 == 0 && b == a[0 := a[0] + 1]
    ensures MessageBits(a)[1..] == MessageBits(b)[1..]
  {
    var x, y := MessageBits(a), MessageBits(b);
    forall i | 1 <= i < 128 ensures x[i] == y[i] {
      OneBitApart(a, b, 0, i);
      assert Difference(a, b)[i] == (x[i] != y[i]);
    }
    assert forall i :: 0 <= i < 127 ==> x[1..][i] == x[i + 1] && y[1..][i] == y[i + 1];
  }

  lemma BurstApart(x: seq<byte>, y: seq<byte>, v: Word32, w: Word32)
    requires |x| == HEADER_SIZE && x[16] % 2 == 0 && y == x[16 := x[16] + 1] && v[0] == w[0]
    ensures DifferWithinBurst(Patched(x, Value(v)), Patched(y, Value(w)), 97)
  {
    BitsOfPatched(x, v);
    BitsOfPatched(y, w);
    assert x[..12] == y[..12];
    var a, b := x[16..], y[16..];
    assert b == a[0 := a[0] + 1];
    TailsAgree(a, b);
    OnlyBetween(MessageBits(x[..12]), v, w, MessageBits(a), MessageBits(b));
  }

  lemma OnlyBetween(pre: seq<bool>, v: Word32, w: Word32, a: seq<bool>, b: seq<bool>)
    requires |pre| == 96 && |a| == |b| == 128 && v[0] == w[0] && a[1..] == b[1..]
    ensures forall i :: 0 <= i < 256 && !(97 <= i < 129) ==> (pre + (v + a))[i] == (pre + (w + b))[i]
  {
    forall i | 129 <= i < 256 ensures (pre + (v + a))[i] == (pre + (w + b))[i] {
      assert a[i - 128] == a[1..][i - 129] && b[i - 128] == b[1..][i - 129];
    }
  }

  /** Each even packet without payload lies within 32 consecutive bits of its successor: such damage is not noticed. */
  lemma EvenBecomesOdd(sequence: nat, timestamp: int64)
    requires sequence % 2 == 0 && sequence + 1 < TWO_64
    ensures var r, s := Sealed(Crc32c, sequence, timestamp, []), Sealed(Crc32c, sequence + 1, timestamp, []);
      r != s && DifferWithinBurst(r, s, 97) && Corruption(r) == {} && Corruption(s) == {}
  {
    var h := NewHeader(Crc32c, sequence, timestamp, 0);
    var pre := BeforeChecksum(h) + Le(h.checksum, 4);
    var a, b := AfterChecksum(h), AfterChecksum(h.(sequence := sequence + 1));
    HeaderOf(h, pre, a, b);
    NextHeader(h, a, b);
    var x, y := pre + a, pre + b;
    OneByteMore(pre, a, b, x, y);
    SameLowBit(x, y);
    BurstApart(x, y, Compute(Crc32c, x), Compute(Crc32c, y));
    PatchedIsSealed(sequence, timestamp, x);
    PatchedIsSealed(sequence + 1, timestamp, y);
    SealedIsIntact(Crc32c, sequence, timestamp, []);
    SealedIsIntact(Crc32c, sequence + 1, timestamp, []);
    NumbersTell(sequence, timestamp);
  }

  lemma NumbersTell(sequence: nat, timestamp: int64)
    requires sequence + 1 < TWO_64
    ensures Sealed(Crc32c, sequence, timestamp, []) != Sealed(Crc32c, sequence + 1, timestamp, [])
  {
    SealedReadsBack(Crc32c, sequence, timestamp, []);
    SealedReadsBack(Crc32c, sequence + 1, timestamp, []);
  }

  lemma PatchedIsSealed(sequence: nat, timestamp: int64, x: seq<byte>)
    requires x == HeaderBytes(NewHeader(Crc32c, sequence, timestamp, 0))
    ensures Patched(x, Value(Compute(Crc32c, x))) == Sealed(Crc32c, sequence, timestamp, [])
  {
    assert x + [] == x;
  }

  lemma OneByteMore(pre: seq<byte>, a: seq<byte>, b: seq<byte>, x: seq<byte>, y: seq<byte>)
    requires |pre| == |a| == 16 && a[0] % 2 == 0 && a[0] < 255 && b == [a[0] + 1] + a[1..]
    requires x == pre + a && y == pre + b
    ensures |x| == HEADER_SIZE && x[16] % 2 == 0 && y == x[16 := x[16] + 1]
  {
  }

  lemma SameLowBit(x: seq<byte>, y: seq<byte>)
    requires |x| == HEADER_SIZE && x[16] % 2 == 0 && y == x[16 := x[16] + 1]
    ensures Compute(Crc32c, x)[0] == Compute(Crc32c, y)[0]
  {
    forall i | 0 <= i < 256 ensures Difference(x, y)[i] == (i == 128) {
      OneBitApart(x, y, 16, i);
    }
    LowBitUntouched(Difference(x, y));
    EffectOfDifference(Crc32c, x, y);
  }
}
