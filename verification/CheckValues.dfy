/**
 * The check values of both algorithms, the checksums of the text "123456789". Behind the text comes the register that is
 * to be shown; that the register is clear then shows it.
 */
module CheckValues {
  import opened Words
  import opened Crc
  import opened CrcHistory

  const DIGITS: seq<byte> := [0x31, 0x32, 0x33, 0x34, 0x35, 0x36, 0x37, 0x38, 0x39]

  predicate Digits(x: seq<byte>) {
    |x| == 13 && x[0] == 0x31 && x[1] == 0x32 && x[2] == 0x33 && x[3] == 0x34 && x[4] == 0x35 && x[5] == 0x36
    && x[6] == 0x37 && x[7] == 0x38 && x[8] == 0x39
  }

  predicate IeeeField(x: seq<byte>)
    requires |x| == 13
  {
    x[9] == 0xD9 && x[10] == 0xC6 && x[11] == 0x0B && x[12] == 0x34
  }

  predicate CastagnoliField(x: seq<byte>)
    requires |x| == 13
  {
    x[9] == 0x7C && x[10] == 0x6D && x[11] == 0xF9 && x[12] == 0x1C
  }

  /** Bit j of byte k, turned over if it meets the initial ones of the register. */
  predicate BitIs(m: nat -> bool, b: byte, k: nat, j: nat, u: nat)
    requires j < 8
  {
    m(u) == (Bits(b, 8)[j] != (k < 4))
  }

  /** The bytes behind 32 zero bits. */
  ghost predicate Spells(m: nat -> bool, x: seq<byte>) {
    && (forall u: nat :: u < 32 ==> !m(u))
    && forall k: nat, j: nat, u: nat :: k < |x| && j < 8 && u == 32 + 8 * k + j ==> BitIs(m, x[k], k, j, u)
  }

  lemma ByteOf(m: nat -> bool, x: seq<byte>, k: nat, u: nat,
               a: bool, b: bool, c: bool, d: bool, e: bool, f: bool, g: bool, h: bool)
    requires Spells(m, x) && k < |x| && u == 32 + 8 * k && x[k] == Octet(a, b, c, d, e, f, g, h)
    ensures m(u) == (a != (k < 4)) && m(u + 1) == (b != (k < 4)) && m(u + 2) == (c != (k < 4))
    ensures m(u + 3) == (d != (k < 4)) && m(u + 4) == (e != (k < 4)) && m(u + 5) == (f != (k < 4))
    ensures m(u + 6) == (g != (k < 4)) && m(u + 7) == (h != (k < 4))
  {
    BitsOfOctet(x[k], a, b, c, d, e, f, g, h);
    EightBits(m, x, k, u, [a, b, c, d], [e, f, g, h]);
  }

  lemma EightBits(m: nat -> bool, x: seq<byte>, k: nat, u: nat, low: seq<bool>, high: seq<bool>)
    requires Spells(m, x) && k < |x| && u == 32 + 8 * k && |low| == |high| == 4 && Bits(x[k], 8) == low + high
    ensures m(u) == (low[0] != (k < 4)) && m(u + 1) == (low[1] != (k < 4)) && m(u + 2) == (low[2] != (k < 4))
    ensures m(u + 3) == (low[3] != (k < 4)) && m(u + 4) == (high[0] != (k < 4)) && m(u + 5) == (high[1] != (k < 4))
    ensures m(u + 6) == (high[2] != (k < 4)) && m(u + 7) == (high[3] != (k < 4))
  {
    assert BitIs(m, x[k], k, 0, u) && BitIs(m, x[k], k, 1, u + 1) && BitIs(m, x[k], k, 2, u + 2);
    assert BitIs(m, x[k], k, 3, u + 3) && BitIs(m, x[k], k, 4, u + 4) && BitIs(m, x[k], k, 5, u + 5);
    assert BitIs(m, x[k], k, 6, u + 6) && BitIs(m, x[k], k, 7, u + 7);
  }

  lemma MessageSpells(x: seq<byte>, m: nat -> bool)
    requires |x| == 13 && forall u: nat :: m(u) == (u < 136 && Message(x)[u])
    ensures Spells(m, x)
  {
    forall k: nat, j: nat, u: nat | k < |x| && j < 8 && u == 32 + 8 * k + j ensures BitIs(m, x[k], k, j, u) {
      MessageBit(x, k, j, 8 * k + j, u);
    }
  }

  // ------------------------------------------------------------ the bits that leave the registers

  lemma FirstDigits(m: nat -> bool, x: seq<byte>)
    requires Spells(m, x) && Digits(x)
    ensures !m(32) && m(33) && m(34) && m(35) && !m(36) && !m(37) && m(38) && m(39) && m(40) && !m(41) && m(42) && m(43)
      && !m(44) && !m(45) && m(46) && m(47) && !m(48) && !m(49) && m(50) && m(51) && !m(52) && !m(53) && m(54)
      && m(55) && m(56) && m(57) && !m(58) && m(59) && !m(60) && !m(61) && m(62) && m(63)
  {
    ByteOf(m, x, 0, 32, true, false, false, false, true, true, false, false);
    ByteOf(m, x, 1, 40, false, true, false, false, true, true, false, false);
    ByteOf(m, x, 2, 48, true, true, false, false, true, true, false, false);
    ByteOf(m, x, 3, 56, false, false, true, false, true, true, false, false);
  }

  lemma NextDigits(m: nat -> bool, x: seq<byte>)
    requires Spells(m, x) && Digits(x)
    ensures m(64) && !m(65) && m(66) && !m(67) && m(68) && m(69) && !m(70) && !m(71) && !m(72) && m(73) && m(74) && !m(75)
      && m(76) && m(77) && !m(78) && !m(79) && m(80) && m(81) && m(82) && !m(83) && m(84) && m(85) && !m(86)
      && !m(87) && !m(88) && !m(89) && !m(90) && m(91) && m(92) && m(93) && !m(94) && !m(95)
  {
    ByteOf(m, x, 4, 64, true, false, true, false, true, true, false, false);
    ByteOf(m, x, 5, 72, false, true, true, false, true, true, false, false);
    ByteOf(m, x, 6, 80, true, true, true, false, true, true, false, false);
    ByteOf(m, x, 7, 88, false, false, false, true, true, true, false, false);
  }

  lemma LastDigitIeee(m: nat -> bool, x: seq<byte>)
    requires Spells(m, x) && Digits(x) && IeeeField(x)
    ensures m(96) && !m(97) && !m(98) && m(99) && m(100) && m(101) && !m(102) && !m(103) && m(104) && !m(105) && !m(106)
      && m(107) && m(108) && !m(109) && m(110) && m(111) && !m(112) && m(113) && m(114) && !m(115) && !m(116)
      && !m(117) && m(118) && m(119) && m(120) && m(121) && !m(122) && m(123) && !m(124) && !m(125) && !m(126)
      && !m(127)
  {
    ByteOf(m, x, 8, 96, true, false, false, true, true, true, false, false);
    ByteOf(m, x, 9, 104, true, false, false, true, true, false, true, true);
    ByteOf(m, x, 10, 112, false, true, true, false, false, false, true, true);
    ByteOf(m, x, 11, 120, true, true, false, true, false, false, false, false);
  }

  lemma LastByteIeee(m: nat -> bool, x: seq<byte>)
    requires Spells(m, x) && Digits(x) && IeeeField(x)
    ensures !m(128) && !m(129) && m(130) && !m(131) && m(132) && m(133) && !m(134) && !m(135)
  {
    ByteOf(m, x, 12, 128, false, false, true, false, true, true, false, false);
  }

  lemma LastDigitCastagnoli(m: nat -> bool, x: seq<byte>)
    requires Spells(m, x) && Digits(x) && CastagnoliField(x)
    ensures m(96) && !m(97) && !m(98) && m(99) && m(100) && m(101) && !m(102) && !m(103) && !m(104) && !m(105) && m(106)
      && m(107) && m(108) && m(109) && m(110) && !m(111) && m(112) && !m(113) && m(114) && m(115) && !m(116)
      && m(117) && m(118) && !m(119) && m(120) && !m(121) && !m(122) && m(123) && m(124) && m(125) && m(126)
      && m(127)
  {
    ByteOf(m, x, 8, 96, true, false, false, true, true, true, false, false);
    ByteOf(m, x, 9, 104, false, false, true, true, true, true, true, false);
    ByteOf(m, x, 10, 112, true, false, true, true, false, true, true, false);
    ByteOf(m, x, 11, 120, true, false, false, true, true, true, true, true);
  }

  lemma LastByteCastagnoli(m: nat -> bool, x: seq<byte>)
    requires Spells(m, x) && Digits(x) && CastagnoliField(x)
    ensures !m(128) && !m(129) && m(130) && m(131) && m(132) && !m(133) && !m(134) && !m(135)
  {
    ByteOf(m, x, 12, 128, false, false, true, true, true, false, false, false);
  }

  lemma ZerothIeee(out: nat -> bool, m: nat -> bool)
    requires Follows32From(out, m, 32)
    ensures !out(0) && !out(1) && !out(2) && !out(3) && !out(4) && !out(5) && !out(6) && !out(7) && !out(8) && !out(9)
      && !out(10) && !out(11) && !out(12) && !out(13) && !out(14) && !out(15) && !out(16) && !out(17) && !out(18)
      && !out(19) && !out(20) && !out(21) && !out(22) && !out(23) && !out(24) && !out(25) && !out(26) && !out(27)
      && !out(28) && !out(29) && !out(30) && !out(31)
  {
  }

  lemma FirstIeee(out: nat -> bool, m: nat -> bool, x: seq<byte>)
    requires Spells(m, x) && Digits(x) && IeeeField(x) && Follows32From(out, m, 32)
    ensures !out(32) && out(33) && out(34) && out(35) && !out(36) && !out(37) && out(38) && !out(39) && !out(40) && out(41)
      && !out(42) && out(43) && out(44) && out(45) && out(46) && out(47) && out(48) && !out(49) && !out(50)
      && !out(51) && !out(52) && !out(53) && out(54) && !out(55) && out(56) && !out(57) && !out(58) && out(59)
      && out(60) && !out(61) && out(62) && !out(63)
  {
    ZerothIeee(out, m);
    FirstDigits(m, x);
    NextIeee(out, m, 32); NextIeee(out, m, 33); NextIeee(out, m, 34); NextIeee(out, m, 35); NextIeee(out, m, 36);
    NextIeee(out, m, 37); NextIeee(out, m, 38); NextIeee(out, m, 39); NextIeee(out, m, 40); NextIeee(out, m, 41);
    NextIeee(out, m, 42); NextIeee(out, m, 43); NextIeee(out, m, 44); NextIeee(out, m, 45); NextIeee(out, m, 46);
    NextIeee(out, m, 47); NextIeee(out, m, 48); NextIeee(out, m, 49); NextIeee(out, m, 50); NextIeee(out, m, 51);
    NextIeee(out, m, 52); NextIeee(out, m, 53); NextIeee(out, m, 54); NextIeee(out, m, 55); NextIeee(out, m, 56);
    NextIeee(out, m, 57); NextIeee(out, m, 58); NextIeee(out, m, 59); NextIeee(out, m, 60); NextIeee(out, m, 61);
    NextIeee(out, m, 62); NextIeee(out, m, 63);
  }

  lemma SecondIeee(out: nat -> bool, m: nat -> bool, x: seq<byte>)
    requires Spells(m, x) && Digits(x) && IeeeField(x) && Follows32From(out, m, 32)
    ensures out(64) && !out(65) && !out(66) && out(67) && !out(68) && out(69) && !out(70) && !out(71) && out(72)
      && !out(73) && out(74) && !out(75) && out(76) && !out(77) && !out(78) && out(79) && out(80) && !out(81)
      && !out(82) && out(83) && !out(84) && out(85) && out(86) && out(87) && !out(88) && !out(89) && !out(90)
      && out(91) && out(92) && !out(93) && out(94) && !out(95)
  {
    FirstIeee(out, m, x);
    NextDigits(m, x);
    NextIeee(out, m, 64); NextIeee(out, m, 65); NextIeee(out, m, 66); NextIeee(out, m, 67); NextIeee(out, m, 68);
    NextIeee(out, m, 69); NextIeee(out, m, 70); NextIeee(out, m, 71); NextIeee(out, m, 72); NextIeee(out, m, 73);
    NextIeee(out, m, 74); NextIeee(out, m, 75); NextIeee(out, m, 76); NextIeee(out, m, 77); NextIeee(out, m, 78);
    NextIeee(out, m, 79); NextIeee(out, m, 80); NextIeee(out, m, 81); NextIeee(out, m, 82); NextIeee(out, m, 83);
    NextIeee(out, m, 84); NextIeee(out, m, 85); NextIeee(out, m, 86); NextIeee(out, m, 87); NextIeee(out, m, 88);
    NextIeee(out, m, 89); NextIeee(out, m, 90); NextIeee(out, m, 91); NextIeee(out, m, 92); NextIeee(out, m, 93);
    NextIeee(out, m, 94); NextIeee(out, m, 95);
  }

  lemma ThirdIeee(out: nat -> bool, m: nat -> bool, x: seq<byte>)
    requires Spells(m, x) && Digits(x) && IeeeField(x) && Follows32From(out, m, 32)
    ensures out(96) && !out(97) && !out(98) && out(99) && !out(100) && out(101) && !out(102) && !out(103) && !out(104)
      && !out(105) && !out(106) && !out(107) && !out(108) && !out(109) && !out(110) && !out(111) && !out(112)
      && !out(113) && !out(114) && !out(115) && !out(116) && !out(117) && !out(118) && !out(119) && !out(120)
      && !out(121) && !out(122) && !out(123) && !out(124) && !out(125) && !out(126) && !out(127)
  {
    SecondIeee(out, m, x);
    LastDigitIeee(m, x);
    NextIeee(out, m, 96); NextIeee(out, m, 97); NextIeee(out, m, 98); NextIeee(out, m, 99); NextIeee(out, m, 100);
    NextIeee(out, m, 101); NextIeee(out, m, 102); NextIeee(out, m, 103); NextIeee(out, m, 104);
    NextIeee(out, m, 105); NextIeee(out, m, 106); NextIeee(out, m, 107); NextIeee(out, m, 108);
    NextIeee(out, m, 109); NextIeee(out, m, 110); NextIeee(out, m, 111); NextIeee(out, m, 112);
    NextIeee(out, m, 113); NextIeee(out, m, 114); NextIeee(out, m, 115); NextIeee(out, m, 116);
    NextIeee(out, m, 117); NextIeee(out, m, 118); NextIeee(out, m, 119); NextIeee(out, m, 120);
    NextIeee(out, m, 121); NextIeee(out, m, 122); NextIeee(out, m, 123); NextIeee(out, m, 124);
    NextIeee(out, m, 125); NextIeee(out, m, 126); NextIeee(out, m, 127);
  }

  lemma FourthIeee(out: nat -> bool, m: nat -> bool, x: seq<byte>)
    requires Spells(m, x) && Digits(x) && IeeeField(x) && Follows32From(out, m, 32)
    ensures !out(128) && !out(129) && !out(130) && !out(131) && !out(132) && !out(133) && !out(134) && !out(135)
  {
    ThirdIeee(out, m, x);
    LastByteIeee(m, x);
    NextIeee(out, m, 128); NextIeee(out, m, 129); NextIeee(out, m, 130); NextIeee(out, m, 131);
    NextIeee(out, m, 132); NextIeee(out, m, 133); NextIeee(out, m, 134); NextIeee(out, m, 135);
  }

  lemma ZerothCastagnoli(out: nat -> bool, m: nat -> bool)
    requires Follows32cFrom(out, m, 32)
    ensures !out(0) && !out(1) && !out(2) && !out(3) && !out(4) && !out(5) && !out(6) && !out(7) && !out(8) && !out(9)
      && !out(10) && !out(11) && !out(12) && !out(13) && !out(14) && !out(15) && !out(16) && !out(17) && !out(18)
      && !out(19) && !out(20) && !out(21) && !out(22) && !out(23) && !out(24) && !out(25) && !out(26) && !out(27)
      && !out(28) && !out(29) && !out(30) && !out(31)
  {
  }

  lemma FirstCastagnoli(out: nat -> bool, m: nat -> bool, x: seq<byte>)
    requires Spells(m, x) && Digits(x) && CastagnoliField(x) && Follows32cFrom(out, m, 32)
    ensures !out(32) && out(33) && out(34) && out(35) && !out(36) && out(37) && out(38) && !out(39) && !out(40) && out(41)
      && out(42) && out(43) && !out(44) && !out(45) && !out(46) && out(47) && !out(48) && !out(49) && out(50)
      && out(51) && !out(52) && out(53) && out(54) && out(55) && out(56) && !out(57) && !out(58) && out(59)
      && !out(60) && !out(61) && !out(62) && !out(63)
  {
    ZerothCastagnoli(out, m);
    FirstDigits(m, x);
    NextCastagnoli(out, m, 32); NextCastagnoli(out, m, 33); NextCastagnoli(out, m, 34); NextCastagnoli(out, m, 35);
    NextCastagnoli(out, m, 36); NextCastagnoli(out, m, 37); NextCastagnoli(out, m, 38); NextCastagnoli(out, m, 39);
    NextCastagnoli(out, m, 40); NextCastagnoli(out, m, 41); NextCastagnoli(out, m, 42); NextCastagnoli(out, m, 43);
    NextCastagnoli(out, m, 44); NextCastagnoli(out, m, 45); NextCastagnoli(out, m, 46); NextCastagnoli(out, m, 47);
    NextCastagnoli(out, m, 48); NextCastagnoli(out, m, 49); NextCastagnoli(out, m, 50); NextCastagnoli(out, m, 51);
    NextCastagnoli(out, m, 52); NextCastagnoli(out, m, 53); NextCastagnoli(out, m, 54); NextCastagnoli(out, m, 55);
    NextCastagnoli(out, m, 56); NextCastagnoli(out, m, 57); NextCastagnoli(out, m, 58); NextCastagnoli(out, m, 59);
    NextCastagnoli(out, m, 60); NextCastagnoli(out, m, 61); NextCastagnoli(out, m, 62); NextCastagnoli(out, m, 63);
  }

  lemma SecondCastagnoli(out: nat -> bool, m: nat -> bool, x: seq<byte>)
    requires Spells(m, x) && Digits(x) && CastagnoliField(x) && Follows32cFrom(out, m, 32)
    ensures !out(64) && !out(65) && out(66) && !out(67) && !out(68) && out(69) && out(70) && out(71) && !out(72)
      && !out(73) && out(74) && out(75) && out(76) && out(77) && !out(78) && out(79) && !out(80) && out(81)
      && out(82) && out(83) && !out(84) && out(85) && out(86) && out(87) && out(88) && !out(89) && out(90) && out(91)
      && out(92) && !out(93) && !out(94) && out(95)
  {
    FirstCastagnoli(out, m, x);
    NextDigits(m, x);
    NextCastagnoli(out, m, 64); NextCastagnoli(out, m, 65); NextCastagnoli(out, m, 66); NextCastagnoli(out, m, 67);
    NextCastagnoli(out, m, 68); NextCastagnoli(out, m, 69); NextCastagnoli(out, m, 70); NextCastagnoli(out, m, 71);
    NextCastagnoli(out, m, 72); NextCastagnoli(out, m, 73); NextCastagnoli(out, m, 74); NextCastagnoli(out, m, 75);
    NextCastagnoli(out, m, 76); NextCastagnoli(out, m, 77); NextCastagnoli(out, m, 78); NextCastagnoli(out, m, 79);
    NextCastagnoli(out, m, 80); NextCastagnoli(out, m, 81); NextCastagnoli(out, m, 82); NextCastagnoli(out, m, 83);
    NextCastagnoli(out, m, 84); NextCastagnoli(out, m, 85); NextCastagnoli(out, m, 86); NextCastagnoli(out, m, 87);
    NextCastagnoli(out, m, 88); NextCastagnoli(out, m, 89); NextCastagnoli(out, m, 90); NextCastagnoli(out, m, 91);
    NextCastagnoli(out, m, 92); NextCastagnoli(out, m, 93); NextCastagnoli(out, m, 94); NextCastagnoli(out, m, 95);
  }

  lemma ThirdCastagnoli(out: nat -> bool, m: nat -> bool, x: seq<byte>)
    requires Spells(m, x) && Digits(x) && CastagnoliField(x) && Follows32cFrom(out, m, 32)
    ensures !out(96) && !out(97) && out(98) && out(99) && out(100) && !out(101) && !out(102) && !out(103) && !out(104)
      && !out(105) && !out(106) && !out(107) && !out(108) && !out(109) && !out(110) && !out(111) && !out(112)
      && !out(113) && !out(114) && !out(115) && !out(116) && !out(117) && !out(118) && !out(119) && !out(120)
      && !out(121) && !out(122) && !out(123) && !out(124) && !out(125) && !out(126) && !out(127)
  {
    SecondCastagnoli(out, m, x);
    LastDigitCastagnoli(m, x);
    NextCastagnoli(out, m, 96); NextCastagnoli(out, m, 97); NextCastagnoli(out, m, 98); NextCastagnoli(out, m, 99);
    NextCastagnoli(out, m, 100); NextCastagnoli(out, m, 101); NextCastagnoli(out, m, 102);
    NextCastagnoli(out, m, 103); NextCastagnoli(out, m, 104); NextCastagnoli(out, m, 105);
    NextCastagnoli(out, m, 106); NextCastagnoli(out, m, 107); NextCastagnoli(out, m, 108);
    NextCastagnoli(out, m, 109); NextCastagnoli(out, m, 110); NextCastagnoli(out, m, 111);
    NextCastagnoli(out, m, 112); NextCastagnoli(out, m, 113); NextCastagnoli(out, m, 114);
    NextCastagnoli(out, m, 115); NextCastagnoli(out, m, 116); NextCastagnoli(out, m, 117);
    NextCastagnoli(out, m, 118); NextCastagnoli(out, m, 119); NextCastagnoli(out, m, 120);
    NextCastagnoli(out, m, 121); NextCastagnoli(out, m, 122); NextCastagnoli(out, m, 123);
    NextCastagnoli(out, m, 124); NextCastagnoli(out, m, 125); NextCastagnoli(out, m, 126);
    NextCastagnoli(out, m, 127);
  }

  lemma FourthCastagnoli(out: nat -> bool, m: nat -> bool, x: seq<byte>)
    requires Spells(m, x) && Digits(x) && CastagnoliField(x) && Follows32cFrom(out, m, 32)
    ensures !out(128) && !out(129) && !out(130) && !out(131) && !out(132) && !out(133) && !out(134) && !out(135)
  {
    ThirdCastagnoli(out, m, x);
    LastByteCastagnoli(m, x);
    NextCastagnoli(out, m, 128); NextCastagnoli(out, m, 129); NextCastagnoli(out, m, 130);
    NextCastagnoli(out, m, 131); NextCastagnoli(out, m, 132); NextCastagnoli(out, m, 133);
    NextCastagnoli(out, m, 134); NextCastagnoli(out, m, 135);
  }

  // ------------------------------------------------------------ the check values

  lemma NothingLeaves(out: nat -> bool)
    requires !out(104) && !out(105) && !out(106) && !out(107) && !out(108) && !out(109) && !out(110) && !out(111)
      && !out(112) && !out(113) && !out(114) && !out(115) && !out(116) && !out(117) && !out(118) && !out(119)
      && !out(120) && !out(121) && !out(122) && !out(123) && !out(124) && !out(125) && !out(126) && !out(127)
      && !out(128) && !out(129) && !out(130) && !out(131) && !out(132) && !out(133) && !out(134) && !out(135)
    ensures forall k :: 104 <= k < 136 ==> !out(k)
  {
  }

  lemma IeeeClears(x: seq<byte>, p: Word32, m: nat -> bool, out: nat -> bool)
    requires Digits(x) && IeeeField(x) && Spells(m, x) && (forall u: nat :: m(u) == (u < 136 && Message(x)[u]))
    requires p == Polynomial(Crc32) && forall t :: out(t) == Out(p, m, t)
    ensures Reference(p, Begin(), x) == Zeros(32)
  {
    IeeeBits();
    RegisterFollows32(p, out, m, 32);
    IeeeQuiet(out, m, x);
    Cleared(p, out, m, 136, 136);
    ClearedFromOnes(Crc32, x, m, 136);
  }

  lemma IeeeQuiet(out: nat -> bool, m: nat -> bool, x: seq<byte>)
    requires Spells(m, x) && Digits(x) && IeeeField(x) && Follows32From(out, m, 32)
    ensures forall k :: 104 <= k < 136 ==> !out(k)
  {
    ThirdIeee(out, m, x);
    FourthIeee(out, m, x);
    NothingLeaves(out);
  }

  lemma CastagnoliClears(x: seq<byte>, p: Word32, m: nat -> bool, out: nat -> bool)
    requires Digits(x) && CastagnoliField(x) && Spells(m, x) && (forall u: nat :: m(u) == (u < 136 && Message(x)[u]))
    requires p == Polynomial(Crc32c) && forall t :: out(t) == Out(p, m, t)
    ensures Reference(p, Begin(), x) == Zeros(32)
  {
    CastagnoliBits();
    RegisterFollows32c(p, out, m, 32);
    CastagnoliQuiet(out, m, x);
    Cleared(p, out, m, 136, 136);
    ClearedFromOnes(Crc32c, x, m, 136);
  }

  lemma CastagnoliQuiet(out: nat -> bool, m: nat -> bool, x: seq<byte>)
    requires Spells(m, x) && Digits(x) && CastagnoliField(x) && Follows32cFrom(out, m, 32)
    ensures forall k :: 104 <= k < 136 ==> !out(k)
  {
    ThirdCastagnoli(out, m, x);
    FourthCastagnoli(out, m, x);
    NothingLeaves(out);
  }

  lemma NextFour(x: nat, b: seq<byte>, first: nat, second: nat, third: nat)
    requires |b| == 4 && x == 256 * first + b[0] && first == 256 * second + b[1]
    requires second == 256 * third + b[2] && third == b[3]
    ensures FromLe(b) == x
  {
    assert b[1..][0] == b[1] && b[1..][1..] == b[2..] && b[2..][0] == b[2] && b[2..][1..] == b[3..];
    assert b[3..][0] == b[3] && b[3..][1..] == [];
    assert FromLe(b[3..]) == third && FromLe(b[2..]) == second && FromLe(b[1..]) == first;
  }

  /** The bytes that clear the register are the register. */
  lemma ChecksumFromField(kind: ChecksumKind, data: seq<byte>, field: seq<byte>, x: nat)
    requires |field| == 4 && Reference(Polynomial(kind), Begin(), data + field) == Zeros(32) && FromLe(field) == x
    ensures Value(Compute(kind, data)) == TWO_32 - 1 - x
  {
    var p := Polynomial(kind);
    var c, w := Reference(p, Begin(), data), MessageBits(field);
    ReferenceAdds(p, Begin(), data, field);
    ReferenceIsOverBits(p, c, field);
    FeedWord(p, c, w);
    PolynomialTopBit(kind);
    StaysClear(p, 32);
    AdvanceInjective(p, Xor(w, c), Zeros(32), 32);
    SameWord(w, c);
    FieldIsValue(field);
    ValueOfComplement(c);
    Pow2Of32();
  }

  lemma {:induction false} StaysClear(p: Word32, n: nat)
    ensures Advance(p, Zeros(32), n) == Zeros(32)
  {
    if n != 0 {
      assert Step(p, Zeros(32)) == Zeros(32);
      StaysClear(p, n - 1);
    }
  }

  lemma SameWord(a: Word32, b: Word32)
    requires Xor(a, b) == Zeros(32)
    ensures a == b
  {
    assert forall i :: 0 <= i < 32 ==> !Xor(a, b)[i];
  }

  lemma IeeeEnds(x: seq<byte>)
    requires Digits(x) && IeeeField(x)
    ensures Reference(Polynomial(Crc32), Begin(), x) == Zeros(32)
  {
    var p := Polynomial(Crc32);
    var m := (u: nat) => u < 136 && Message(x)[u];
    var out := (t: nat) => Out(p, m, t);
    MessageSpells(x, m);
    IeeeClears(x, p, m, out);
  }

  /** The check value of CRC-32. */
  lemma Crc32OfDigits()
    ensures Value(Compute(Crc32, DIGITS)) == 0xCBF43926
  {
    var field: seq<byte> := [0xD9, 0xC6, 0x0B, 0x34];
    DigitsAndField(field, DIGITS + field);
    IeeeEnds(DIGITS + field);
    NextFour(0x340BC6D9, field, 0x340BC6, 0x340B, 0x34);
    ChecksumFromField(Crc32, DIGITS, field, 0x340BC6D9);
  }

  lemma CastagnoliEnds(x: seq<byte>)
    requires Digits(x) && CastagnoliField(x)
    ensures Reference(Polynomial(Crc32c), Begin(), x) == Zeros(32)
  {
    var p := Polynomial(Crc32c);
    var m := (u: nat) => u < 136 && Message(x)[u];
    var out := (t: nat) => Out(p, m, t);
    MessageSpells(x, m);
    CastagnoliClears(x, p, m, out);
  }

  /** The check value of CRC-32C. */
  lemma Crc32cOfDigits()
    ensures Value(Compute(Crc32c, DIGITS)) == 0xE3069283
  {
    var field: seq<byte> := [0x7C, 0x6D, 0xF9, 0x1C];
    DigitsAndField(field, DIGITS + field);
    CastagnoliEnds(DIGITS + field);
    NextFour(0x1CF96D7C, field, 0x1CF96D, 0x1CF9, 0x1C);
    ChecksumFromField(Crc32c, DIGITS, field, 0x1CF96D7C);
  }

  lemma DigitsAndField(field: seq<byte>, x: seq<byte>)
    requires |field| == 4 && x == DIGITS + field
    ensures Digits(x) && x[9] == field[0] && x[10] == field[1] && x[11] == field[2] && x[12] == field[3]
  {
  }
}
