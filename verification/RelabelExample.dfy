/**
 * The other kind of damage that goes unnoticed occurs as well: a packet that is intact under either algorithm. Its header
 * takes both registers to zero, so both checksums are that of a zero register.
 */
module RelabelExample {
  import opened Words
  import opened Crc
  import opened CrcHistory
  import opened Packet
  import opened PacketValidator

  const SEQUENCE: nat := 0x83035694E66DF949

  // ------------------------------------------------------------ the header as bits

  /** The first 24 bytes of the header, with a zero in the checksum field; the timestamp behind them is zero. */
  function ByteAt(code: byte, k: nat): byte {
    if k == 0 then 0x50 else if k == 1 then 0x43 else if k == 2 then 0x4B else if k == 3 then 0x54 else
    if k == 4 then 0x02 else if k == 5 then code else if k == 6 then 0x20 else if k == 16 then 0x49 else
    if k == 17 then 0xF9 else if k == 18 then 0x6D else if k == 19 then 0xE6 else if k == 20 then 0x94 else
    if k == 21 then 0x56 else if k == 22 then 0x03 else if k == 23 then 0x83 else 0
  }

  /** Bit j of a byte, turned over if it meets the initial ones of the register. */
  predicate BitIs(m: nat -> bool, code: byte, k: nat, j: nat, u: nat)
    requires j < 8
  {
    m(u) == (Bits(ByteAt(code, k), 8)[j] != (k < 4))
  }

  /** The message behind 32 zero bits. */
  ghost predicate Header(m: nat -> bool, code: byte) {
    && (forall u: nat :: u < 32 || u >= 224 ==> !m(u))
    && forall k: nat, j: nat, u: nat :: k < 24 && j < 8 && u == 32 + 8 * k + j ==> BitIs(m, code, k, j, u)
  }

  lemma ByteOf(m: nat -> bool, code: byte, k: nat, u: nat,
               a: bool, b: bool, c: bool, d: bool, e: bool, f: bool, g: bool, h: bool)
    requires Header(m, code) && k < 24 && u == 32 + 8 * k && ByteAt(code, k) == Octet(a, b, c, d, e, f, g, h)
    ensures m(u) == (a != (k < 4)) && m(u + 1) == (b != (k < 4)) && m(u + 2) == (c != (k < 4))
    ensures m(u + 3) == (d != (k < 4)) && m(u + 4) == (e != (k < 4)) && m(u + 5) == (f != (k < 4))
    ensures m(u + 6) == (g != (k < 4)) && m(u + 7) == (h != (k < 4))
  {
    BitsOfOctet(ByteAt(code, k), a, b, c, d, e, f, g, h);
    assert BitIs(m, code, k, 0, u) && BitIs(m, code, k, 1, u + 1) && BitIs(m, code, k, 2, u + 2);
    assert BitIs(m, code, k, 3, u + 3) && BitIs(m, code, k, 4, u + 4) && BitIs(m, code, k, 5, u + 5);
    assert BitIs(m, code, k, 6, u + 6) && BitIs(m, code, k, 7, u + 7);
  }

  // ------------------------------------------------------------ the bits that leave the registers

  lemma Word0(m: nat -> bool, code: byte)
    requires Header(m, code)
    ensures m(32) && m(33) && m(34) && m(35) && !m(36) && m(37) && !m(38) && m(39) && !m(40) && !m(41) && m(42) && m(43)
      && m(44) && m(45) && !m(46) && m(47) && !m(48) && !m(49) && m(50) && !m(51) && m(52) && m(53) && !m(54)
      && m(55) && m(56) && m(57) && !m(58) && m(59) && !m(60) && m(61) && !m(62) && m(63)
  {
    ByteOf(m, code, 0, 32, false, false, false, false, true, false, true, false);
    ByteOf(m, code, 1, 40, true, true, false, false, false, false, true, false);
    ByteOf(m, code, 2, 48, true, true, false, true, false, false, true, false);
    ByteOf(m, code, 3, 56, false, false, true, false, true, false, true, false);
  }

  lemma Word1_1(m: nat -> bool)
    requires Header(m, 1)
    ensures !m(64) && m(65) && !m(66) && !m(67) && !m(68) && !m(69) && !m(70) && !m(71) && m(72) && !m(73) && !m(74)
      && !m(75) && !m(76) && !m(77) && !m(78) && !m(79) && !m(80) && !m(81) && !m(82) && !m(83) && !m(84) && m(85)
      && !m(86) && !m(87) && !m(88) && !m(89) && !m(90) && !m(91) && !m(92) && !m(93) && !m(94) && !m(95)
  {
    ByteOf(m, 1, 4, 64, false, true, false, false, false, false, false, false);
    ByteOf(m, 1, 5, 72, true, false, false, false, false, false, false, false);
    ByteOf(m, 1, 6, 80, false, false, false, false, false, true, false, false);
    ByteOf(m, 1, 7, 88, false, false, false, false, false, false, false, false);
  }

  lemma Word1_2(m: nat -> bool)
    requires Header(m, 2)
    ensures !m(64) && m(65) && !m(66) && !m(67) && !m(68) && !m(69) && !m(70) && !m(71) && !m(72) && m(73) && !m(74)
      && !m(75) && !m(76) && !m(77) && !m(78) && !m(79) && !m(80) && !m(81) && !m(82) && !m(83) && !m(84) && m(85)
      && !m(86) && !m(87) && !m(88) && !m(89) && !m(90) && !m(91) && !m(92) && !m(93) && !m(94) && !m(95)
  {
    ByteOf(m, 2, 4, 64, false, true, false, false, false, false, false, false);
    ByteOf(m, 2, 5, 72, false, true, false, false, false, false, false, false);
    ByteOf(m, 2, 6, 80, false, false, false, false, false, true, false, false);
    ByteOf(m, 2, 7, 88, false, false, false, false, false, false, false, false);
  }

  lemma Word2(m: nat -> bool, code: byte)
    requires Header(m, code)
    ensures !m(96) && !m(97) && !m(98) && !m(99) && !m(100) && !m(101) && !m(102) && !m(103) && !m(104) && !m(105)
      && !m(106) && !m(107) && !m(108) && !m(109) && !m(110) && !m(111) && !m(112) && !m(113) && !m(114) && !m(115)
      && !m(116) && !m(117) && !m(118) && !m(119) && !m(120) && !m(121) && !m(122) && !m(123) && !m(124) && !m(125)
      && !m(126) && !m(127)
  {
    ByteOf(m, code, 8, 96, false, false, false, false, false, false, false, false);
    ByteOf(m, code, 9, 104, false, false, false, false, false, false, false, false);
    ByteOf(m, code, 10, 112, false, false, false, false, false, false, false, false);
    ByteOf(m, code, 11, 120, false, false, false, false, false, false, false, false);
  }

  lemma Word3(m: nat -> bool, code: byte)
    requires Header(m, code)
    ensures !m(128) && !m(129) && !m(130) && !m(131) && !m(132) && !m(133) && !m(134) && !m(135) && !m(136) && !m(137)
      && !m(138) && !m(139) && !m(140) && !m(141) && !m(142) && !m(143) && !m(144) && !m(145) && !m(146) && !m(147)
      && !m(148) && !m(149) && !m(150) && !m(151) && !m(152) && !m(153) && !m(154) && !m(155) && !m(156) && !m(157)
      && !m(158) && !m(159)
  {
    ByteOf(m, code, 12, 128, false, false, false, false, false, false, false, false);
    ByteOf(m, code, 13, 136, false, false, false, false, false, false, false, false);
    ByteOf(m, code, 14, 144, false, false, false, false, false, false, false, false);
    ByteOf(m, code, 15, 152, false, false, false, false, false, false, false, false);
  }

  lemma Word4(m: nat -> bool, code: byte)
    requires Header(m, code)
    ensures m(160) && !m(161) && !m(162) && m(163) && !m(164) && !m(165) && m(166) && !m(167) && m(168) && !m(169)
      && !m(170) && m(171) && m(172) && m(173) && m(174) && m(175) && m(176) && !m(177) && m(178) && m(179)
      && !m(180) && m(181) && m(182) && !m(183) && !m(184) && m(185) && m(186) && !m(187) && !m(188) && m(189)
      && m(190) && m(191)
  {
    ByteOf(m, code, 16, 160, true, false, false, true, false, false, true, false);
    ByteOf(m, code, 17, 168, true, false, false, true, true, true, true, true);
    ByteOf(m, code, 18, 176, true, false, true, true, false, true, true, false);
    ByteOf(m, code, 19, 184, false, true, true, false, false, true, true, true);
  }

  lemma Word5(m: nat -> bool, code: byte)
    requires Header(m, code)
    ensures !m(192) && !m(193) && m(194) && !m(195) && m(196) && !m(197) && !m(198) && m(199) && !m(200) && m(201)
      && m(202) && !m(203) && m(204) && !m(205) && m(206) && !m(207) && m(208) && m(209) && !m(210) && !m(211)
      && !m(212) && !m(213) && !m(214) && !m(215) && m(216) && m(217) && !m(218) && !m(219) && !m(220) && !m(221)
      && !m(222) && m(223)
  {
    ByteOf(m, code, 20, 192, false, false, true, false, true, false, false, true);
    ByteOf(m, code, 21, 200, false, true, true, false, true, false, true, false);
    ByteOf(m, code, 22, 208, true, true, false, false, false, false, false, false);
    ByteOf(m, code, 23, 216, true, true, false, false, false, false, false, true);
  }

  lemma ZerothIeee(out: nat -> bool, m: nat -> bool)
    requires Follows32From(out, m, 32)
    ensures !out(0) && !out(1) && !out(2) && !out(3) && !out(4) && !out(5) && !out(6) && !out(7) && !out(8) && !out(9)
      && !out(10) && !out(11) && !out(12) && !out(13) && !out(14) && !out(15) && !out(16) && !out(17) && !out(18)
      && !out(19) && !out(20) && !out(21) && !out(22) && !out(23) && !out(24) && !out(25) && !out(26) && !out(27)
      && !out(28) && !out(29) && !out(30) && !out(31)
  {
  }

  lemma FirstIeee(out: nat -> bool, m: nat -> bool)
    requires Header(m, 1) && Follows32From(out, m, 32)
    ensures out(32) && out(33) && out(34) && out(35) && !out(36) && out(37) && out(38) && !out(39) && out(40) && !out(41)
      && out(42) && !out(43) && !out(44) && !out(45) && !out(46) && out(47) && out(48) && !out(49) && out(50)
      && !out(51) && out(52) && out(53) && out(54) && !out(55) && out(56) && out(57) && out(58) && !out(59)
      && out(60) && !out(61) && !out(62) && !out(63)
  {
    ZerothIeee(out, m);
    Word0(m, 1);
    NextIeee(out, m, 32); NextIeee(out, m, 33); NextIeee(out, m, 34); NextIeee(out, m, 35); NextIeee(out, m, 36);
    NextIeee(out, m, 37); NextIeee(out, m, 38); NextIeee(out, m, 39); NextIeee(out, m, 40); NextIeee(out, m, 41);
    NextIeee(out, m, 42); NextIeee(out, m, 43); NextIeee(out, m, 44); NextIeee(out, m, 45); NextIeee(out, m, 46);
    NextIeee(out, m, 47); NextIeee(out, m, 48); NextIeee(out, m, 49); NextIeee(out, m, 50); NextIeee(out, m, 51);
    NextIeee(out, m, 52); NextIeee(out, m, 53); NextIeee(out, m, 54); NextIeee(out, m, 55); NextIeee(out, m, 56);
    NextIeee(out, m, 57); NextIeee(out, m, 58); NextIeee(out, m, 59); NextIeee(out, m, 60); NextIeee(out, m, 61);
    NextIeee(out, m, 62); NextIeee(out, m, 63);
  }

  lemma SecondIeee(out: nat -> bool, m: nat -> bool)
    requires Header(m, 1) && Follows32From(out, m, 32)
    ensures out(64) && !out(65) && !out(66) && out(67) && out(68) && out(69) && !out(70) && out(71) && !out(72) && out(73)
      && out(74) && !out(75) && !out(76) && out(77) && !out(78) && !out(79) && !out(80) && out(81) && out(82)
      && !out(83) && out(84) && !out(85) && out(86) && out(87) && !out(88) && out(89) && out(90) && out(91)
      && out(92) && out(93) && !out(94) && !out(95)
  {
    FirstIeee(out, m);
    Word1_1(m);
    NextIeee(out, m, 64); NextIeee(out, m, 65); NextIeee(out, m, 66); NextIeee(out, m, 67); NextIeee(out, m, 68);
    NextIeee(out, m, 69); NextIeee(out, m, 70); NextIeee(out, m, 71); NextIeee(out, m, 72); NextIeee(out, m, 73);
    NextIeee(out, m, 74); NextIeee(out, m, 75); NextIeee(out, m, 76); NextIeee(out, m, 77); NextIeee(out, m, 78);
    NextIeee(out, m, 79); NextIeee(out, m, 80); NextIeee(out, m, 81); NextIeee(out, m, 82); NextIeee(out, m, 83);
    NextIeee(out, m, 84); NextIeee(out, m, 85); NextIeee(out, m, 86); NextIeee(out, m, 87); NextIeee(out, m, 88);
    NextIeee(out, m, 89); NextIeee(out, m, 90); NextIeee(out, m, 91); NextIeee(out, m, 92); NextIeee(out, m, 93);
    NextIeee(out, m, 94); NextIeee(out, m, 95);
  }

  lemma ThirdIeee(out: nat -> bool, m: nat -> bool)
    requires Header(m, 1) && Follows32From(out, m, 32)
    ensures !out(96) && out(97) && out(98) && out(99) && !out(100) && !out(101) && !out(102) && out(103) && !out(104)
      && out(105) && out(106) && out(107) && !out(108) && out(109) && !out(110) && !out(111) && out(112) && !out(113)
      && !out(114) && out(115) && out(116) && !out(117) && out(118) && out(119) && !out(120) && out(121) && !out(122)
      && out(123) && out(124) && out(125) && out(126) && !out(127)
  {
    SecondIeee(out, m);
    Word2(m, 1);
    NextIeee(out, m, 96); NextIeee(out, m, 97); NextIeee(out, m, 98); NextIeee(out, m, 99); NextIeee(out, m, 100);
    NextIeee(out, m, 101); NextIeee(out, m, 102); NextIeee(out, m, 103); NextIeee(out, m, 104);
    NextIeee(out, m, 105); NextIeee(out, m, 106); NextIeee(out, m, 107); NextIeee(out, m, 108);
    NextIeee(out, m, 109); NextIeee(out, m, 110); NextIeee(out, m, 111); NextIeee(out, m, 112);
    NextIeee(out, m, 113); NextIeee(out, m, 114); NextIeee(out, m, 115); NextIeee(out, m, 116);
    NextIeee(out, m, 117); NextIeee(out, m, 118); NextIeee(out, m, 119); NextIeee(out, m, 120);
    NextIeee(out, m, 121); NextIeee(out, m, 122); NextIeee(out, m, 123); NextIeee(out, m, 124);
    NextIeee(out, m, 125); NextIeee(out, m, 126); NextIeee(out, m, 127);
  }

  lemma FourthIeee(out: nat -> bool, m: nat -> bool)
    requires Header(m, 1) && Follows32From(out, m, 32)
    ensures !out(128) && !out(129) && !out(130) && !out(131) && !out(132) && out(133) && !out(134) && out(135) && out(136)
      && !out(137) && !out(138) && !out(139) && out(140) && !out(141) && out(142) && !out(143) && !out(144)
      && !out(145) && !out(146) && !out(147) && out(148) && out(149) && !out(150) && out(151) && out(152) && out(153)
      && out(154) && !out(155) && !out(156) && out(157) && out(158) && out(159)
  {
    ThirdIeee(out, m);
    Word3(m, 1);
    NextIeee(out, m, 128); NextIeee(out, m, 129); NextIeee(out, m, 130); NextIeee(out, m, 131);
    NextIeee(out, m, 132); NextIeee(out, m, 133); NextIeee(out, m, 134); NextIeee(out, m, 135);
    NextIeee(out, m, 136); NextIeee(out, m, 137); NextIeee(out, m, 138); NextIeee(out, m, 139);
    NextIeee(out, m, 140); NextIeee(out, m, 141); NextIeee(out, m, 142); NextIeee(out, m, 143);
    NextIeee(out, m, 144); NextIeee(out, m, 145); NextIeee(out, m, 146); NextIeee(out, m, 147);
    NextIeee(out, m, 148); NextIeee(out, m, 149); NextIeee(out, m, 150); NextIeee(out, m, 151);
    NextIeee(out, m, 152); NextIeee(out, m, 153); NextIeee(out, m, 154); NextIeee(out, m, 155);
    NextIeee(out, m, 156); NextIeee(out, m, 157); NextIeee(out, m, 158); NextIeee(out, m, 159);
  }

  lemma FifthIeee(out: nat -> bool, m: nat -> bool)
    requires Header(m, 1) && Follows32From(out, m, 32)
    ensures out(160) && out(161) && out(162) && !out(163) && out(164) && out(165) && !out(166) && !out(167) && !out(168)
      && !out(169) && !out(170) && out(171) && out(172) && out(173) && out(174) && out(175) && out(176) && !out(177)
      && out(178) && !out(179) && !out(180) && out(181) && !out(182) && out(183) && out(184) && out(185) && out(186)
      && !out(187) && out(188) && !out(189) && out(190) && out(191)
  {
    FourthIeee(out, m);
    Word4(m, 1);
    NextIeee(out, m, 160); NextIeee(out, m, 161); NextIeee(out, m, 162); NextIeee(out, m, 163);
    NextIeee(out, m, 164); NextIeee(out, m, 165); NextIeee(out, m, 166); NextIeee(out, m, 167);
    NextIeee(out, m, 168); NextIeee(out, m, 169); NextIeee(out, m, 170); NextIeee(out, m, 171);
    NextIeee(out, m, 172); NextIeee(out, m, 173); NextIeee(out, m, 174); NextIeee(out, m, 175);
    NextIeee(out, m, 176); NextIeee(out, m, 177); NextIeee(out, m, 178); NextIeee(out, m, 179);
    NextIeee(out, m, 180); NextIeee(out, m, 181); NextIeee(out, m, 182); NextIeee(out, m, 183);
    NextIeee(out, m, 184); NextIeee(out, m, 185); NextIeee(out, m, 186); NextIeee(out, m, 187);
    NextIeee(out, m, 188); NextIeee(out, m, 189); NextIeee(out, m, 190); NextIeee(out, m, 191);
  }

  lemma SixthIeee(out: nat -> bool, m: nat -> bool)
    requires Header(m, 1) && Follows32From(out, m, 32)
    ensures !out(192) && !out(193) && !out(194) && !out(195) && !out(196) && !out(197) && !out(198) && !out(199)
      && !out(200) && !out(201) && !out(202) && !out(203) && !out(204) && !out(205) && !out(206) && !out(207)
      && !out(208) && !out(209) && !out(210) && !out(211) && !out(212) && !out(213) && !out(214) && !out(215)
      && !out(216) && !out(217) && !out(218) && !out(219) && !out(220) && !out(221) && !out(222) && !out(223)
  {
    FifthIeee(out, m);
    Word5(m, 1);
    NextIeee(out, m, 192); NextIeee(out, m, 193); NextIeee(out, m, 194); NextIeee(out, m, 195);
    NextIeee(out, m, 196); NextIeee(out, m, 197); NextIeee(out, m, 198); NextIeee(out, m, 199);
    NextIeee(out, m, 200); NextIeee(out, m, 201); NextIeee(out, m, 202); NextIeee(out, m, 203);
    NextIeee(out, m, 204); NextIeee(out, m, 205); NextIeee(out, m, 206); NextIeee(out, m, 207);
    NextIeee(out, m, 208); NextIeee(out, m, 209); NextIeee(out, m, 210); NextIeee(out, m, 211);
    NextIeee(out, m, 212); NextIeee(out, m, 213); NextIeee(out, m, 214); NextIeee(out, m, 215);
    NextIeee(out, m, 216); NextIeee(out, m, 217); NextIeee(out, m, 218); NextIeee(out, m, 219);
    NextIeee(out, m, 220); NextIeee(out, m, 221); NextIeee(out, m, 222); NextIeee(out, m, 223);
  }

  lemma ZerothCastagnoli(out: nat -> bool, m: nat -> bool)
    requires Follows32cFrom(out, m, 32)
    ensures !out(0) && !out(1) && !out(2) && !out(3) && !out(4) && !out(5) && !out(6) && !out(7) && !out(8) && !out(9)
      && !out(10) && !out(11) && !out(12) && !out(13) && !out(14) && !out(15) && !out(16) && !out(17) && !out(18)
      && !out(19) && !out(20) && !out(21) && !out(22) && !out(23) && !out(24) && !out(25) && !out(26) && !out(27)
      && !out(28) && !out(29) && !out(30) && !out(31)
  {
  }

  lemma FirstCastagnoli(out: nat -> bool, m: nat -> bool)
    requires Header(m, 2) && Follows32cFrom(out, m, 32)
    ensures out(32) && out(33) && out(34) && out(35) && out(36) && out(37) && out(38) && out(39) && !out(40) && out(41)
      && out(42) && out(43) && out(44) && !out(45) && !out(46) && out(47) && out(48) && out(49) && !out(50)
      && out(51) && out(52) && out(53) && !out(54) && !out(55) && !out(56) && !out(57) && !out(58) && out(59)
      && out(60) && !out(61) && !out(62) && !out(63)
  {
    ZerothCastagnoli(out, m);
    Word0(m, 2);
    NextCastagnoli(out, m, 32); NextCastagnoli(out, m, 33); NextCastagnoli(out, m, 34); NextCastagnoli(out, m, 35);
    NextCastagnoli(out, m, 36); NextCastagnoli(out, m, 37); NextCastagnoli(out, m, 38); NextCastagnoli(out, m, 39);
    NextCastagnoli(out, m, 40); NextCastagnoli(out, m, 41); NextCastagnoli(out, m, 42); NextCastagnoli(out, m, 43);
    NextCastagnoli(out, m, 44); NextCastagnoli(out, m, 45); NextCastagnoli(out, m, 46); NextCastagnoli(out, m, 47);
    NextCastagnoli(out, m, 48); NextCastagnoli(out, m, 49); NextCastagnoli(out, m, 50); NextCastagnoli(out, m, 51);
    NextCastagnoli(out, m, 52); NextCastagnoli(out, m, 53); NextCastagnoli(out, m, 54); NextCastagnoli(out, m, 55);
    NextCastagnoli(out, m, 56); NextCastagnoli(out, m, 57); NextCastagnoli(out, m, 58); NextCastagnoli(out, m, 59);
    NextCastagnoli(out, m, 60); NextCastagnoli(out, m, 61); NextCastagnoli(out, m, 62); NextCastagnoli(out, m, 63);
  }

  lemma SecondCastagnoli(out: nat -> bool, m: nat -> bool)
    requires Header(m, 2) && Follows32cFrom(out, m, 32)
    ensures out(64) && out(65) && !out(66) && !out(67) && out(68) && out(69) && !out(70) && out(71) && !out(72) && out(73)
      && !out(74) && out(75) && !out(76) && !out(77) && out(78) && out(79) && !out(80) && out(81) && !out(82)
      && !out(83) && out(84) && !out(85) && out(86) && !out(87) && !out(88) && !out(89) && !out(90) && !out(91)
      && !out(92) && out(93) && !out(94) && out(95)
  {
    FirstCastagnoli(out, m);
    Word1_2(m);
    NextCastagnoli(out, m, 64); NextCastagnoli(out, m, 65); NextCastagnoli(out, m, 66); NextCastagnoli(out, m, 67);
    NextCastagnoli(out, m, 68); NextCastagnoli(out, m, 69); NextCastagnoli(out, m, 70); NextCastagnoli(out, m, 71);
    NextCastagnoli(out, m, 72); NextCastagnoli(out, m, 73); NextCastagnoli(out, m, 74); NextCastagnoli(out, m, 75);
    NextCastagnoli(out, m, 76); NextCastagnoli(out, m, 77); NextCastagnoli(out, m, 78); NextCastagnoli(out, m, 79);
    NextCastagnoli(out, m, 80); NextCastagnoli(out, m, 81); NextCastagnoli(out, m, 82); NextCastagnoli(out, m, 83);
    NextCastagnoli(out, m, 84); NextCastagnoli(out, m, 85); NextCastagnoli(out, m, 86); NextCastagnoli(out, m, 87);
    NextCastagnoli(out, m, 88); NextCastagnoli(out, m, 89); NextCastagnoli(out, m, 90); NextCastagnoli(out, m, 91);
    NextCastagnoli(out, m, 92); NextCastagnoli(out, m, 93); NextCastagnoli(out, m, 94); NextCastagnoli(out, m, 95);
  }

  lemma ThirdCastagnoli(out: nat -> bool, m: nat -> bool)
    requires Header(m, 2) && Follows32cFrom(out, m, 32)
    ensures !out(96) && !out(97) && out(98) && out(99) && out(100) && out(101) && out(102) && out(103) && out(104)
      && out(105) && !out(106) && out(107) && out(108) && !out(109) && out(110) && out(111) && !out(112) && out(113)
      && !out(114) && !out(115) && !out(116) && !out(117) && out(118) && out(119) && out(120) && out(121)
      && !out(122) && out(123) && out(124) && out(125) && out(126) && out(127)
  {
    SecondCastagnoli(out, m);
    Word2(m, 2);
    NextCastagnoli(out, m, 96); NextCastagnoli(out, m, 97); NextCastagnoli(out, m, 98); NextCastagnoli(out, m, 99);
    NextCastagnoli(out, m, 100); NextCastagnoli(out, m, 101); NextCastagnoli(out, m, 102);
    NextCastagnoli(out, m, 103); NextCastagnoli(out, m, 104); NextCastagnoli(out, m, 105);
    NextCastagnoli(out, m, 106); NextCastagnoli(out, m, 107); NextCastagnoli(out, m, 108);
    NextCastagnoli(out, m, 109); NextCastagnoli(out, m, 110); NextCastagnoli(out, m, 111);
    NextCastagnoli(out, m, 112); NextCastagnoli(out, m, 113); NextCastagnoli(out, m, 114);
    NextCastagnoli(out, m, 115); NextCastagnoli(out, m, 116); NextCastagnoli(out, m, 117);
    NextCastagnoli(out, m, 118); NextCastagnoli(out, m, 119); NextCastagnoli(out, m, 120);
    NextCastagnoli(out, m, 121); NextCastagnoli(out, m, 122); NextCastagnoli(out, m, 123);
    NextCastagnoli(out, m, 124); NextCastagnoli(out, m, 125); NextCastagnoli(out, m, 126);
    NextCastagnoli(out, m, 127);
  }

  lemma FourthCastagnoli(out: nat -> bool, m: nat -> bool)
    requires Header(m, 2) && Follows32cFrom(out, m, 32)
    ensures !out(128) && out(129) && !out(130) && out(131) && !out(132) && !out(133) && out(134) && out(135) && !out(136)
      && !out(137) && !out(138) && out(139) && out(140) && out(141) && out(142) && !out(143) && out(144) && !out(145)
      && !out(146) && out(147) && out(148) && !out(149) && out(150) && out(151) && !out(152) && !out(153) && out(154)
      && out(155) && !out(156) && !out(157) && out(158) && !out(159)
  {
    ThirdCastagnoli(out, m);
    Word3(m, 2);
    NextCastagnoli(out, m, 128); NextCastagnoli(out, m, 129); NextCastagnoli(out, m, 130);
    NextCastagnoli(out, m, 131); NextCastagnoli(out, m, 132); NextCastagnoli(out, m, 133);
    NextCastagnoli(out, m, 134); NextCastagnoli(out, m, 135); NextCastagnoli(out, m, 136);
    NextCastagnoli(out, m, 137); NextCastagnoli(out, m, 138); NextCastagnoli(out, m, 139);
    NextCastagnoli(out, m, 140); NextCastagnoli(out, m, 141); NextCastagnoli(out, m, 142);
    NextCastagnoli(out, m, 143); NextCastagnoli(out, m, 144); NextCastagnoli(out, m, 145);
    NextCastagnoli(out, m, 146); NextCastagnoli(out, m, 147); NextCastagnoli(out, m, 148);
    NextCastagnoli(out, m, 149); NextCastagnoli(out, m, 150); NextCastagnoli(out, m, 151);
    NextCastagnoli(out, m, 152); NextCastagnoli(out, m, 153); NextCastagnoli(out, m, 154);
    NextCastagnoli(out, m, 155); NextCastagnoli(out, m, 156); NextCastagnoli(out, m, 157);
    NextCastagnoli(out, m, 158); NextCastagnoli(out, m, 159);
  }

  lemma FifthCastagnoli(out: nat -> bool, m: nat -> bool)
    requires Header(m, 2) && Follows32cFrom(out, m, 32)
    ensures out(160) && !out(161) && !out(162) && out(163) && out(164) && out(165) && out(166) && out(167) && !out(168)
      && out(169) && !out(170) && !out(171) && !out(172) && out(173) && out(174) && out(175) && out(176) && out(177)
      && !out(178) && !out(179) && out(180) && out(181) && out(182) && out(183) && out(184) && !out(185) && !out(186)
      && !out(187) && !out(188) && !out(189) && !out(190) && out(191)
  {
    FourthCastagnoli(out, m);
    Word4(m, 2);
    NextCastagnoli(out, m, 160); NextCastagnoli(out, m, 161); NextCastagnoli(out, m, 162);
    NextCastagnoli(out, m, 163); NextCastagnoli(out, m, 164); NextCastagnoli(out, m, 165);
    NextCastagnoli(out, m, 166); NextCastagnoli(out, m, 167); NextCastagnoli(out, m, 168);
    NextCastagnoli(out, m, 169); NextCastagnoli(out, m, 170); NextCastagnoli(out, m, 171);
    NextCastagnoli(out, m, 172); NextCastagnoli(out, m, 173); NextCastagnoli(out, m, 174);
    NextCastagnoli(out, m, 175); NextCastagnoli(out, m, 176); NextCastagnoli(out, m, 177);
    NextCastagnoli(out, m, 178); NextCastagnoli(out, m, 179); NextCastagnoli(out, m, 180);
    NextCastagnoli(out, m, 181); NextCastagnoli(out, m, 182); NextCastagnoli(out, m, 183);
    NextCastagnoli(out, m, 184); NextCastagnoli(out, m, 185); NextCastagnoli(out, m, 186);
    NextCastagnoli(out, m, 187); NextCastagnoli(out, m, 188); NextCastagnoli(out, m, 189);
    NextCastagnoli(out, m, 190); NextCastagnoli(out, m, 191);
  }

  lemma SixthCastagnoli(out: nat -> bool, m: nat -> bool)
    requires Header(m, 2) && Follows32cFrom(out, m, 32)
    ensures !out(192) && !out(193) && !out(194) && !out(195) && !out(196) && !out(197) && !out(198) && !out(199)
      && !out(200) && !out(201) && !out(202) && !out(203) && !out(204) && !out(205) && !out(206) && !out(207)
      && !out(208) && !out(209) && !out(210) && !out(211) && !out(212) && !out(213) && !out(214) && !out(215)
      && !out(216) && !out(217) && !out(218) && !out(219) && !out(220) && !out(221) && !out(222) && !out(223)
  {
    FifthCastagnoli(out, m);
    Word5(m, 2);
    NextCastagnoli(out, m, 192); NextCastagnoli(out, m, 193); NextCastagnoli(out, m, 194);
    NextCastagnoli(out, m, 195); NextCastagnoli(out, m, 196); NextCastagnoli(out, m, 197);
    NextCastagnoli(out, m, 198); NextCastagnoli(out, m, 199); NextCastagnoli(out, m, 200);
    NextCastagnoli(out, m, 201); NextCastagnoli(out, m, 202); NextCastagnoli(out, m, 203);
    NextCastagnoli(out, m, 204); NextCastagnoli(out, m, 205); NextCastagnoli(out, m, 206);
    NextCastagnoli(out, m, 207); NextCastagnoli(out, m, 208); NextCastagnoli(out, m, 209);
    NextCastagnoli(out, m, 210); NextCastagnoli(out, m, 211); NextCastagnoli(out, m, 212);
    NextCastagnoli(out, m, 213); NextCastagnoli(out, m, 214); NextCastagnoli(out, m, 215);
    NextCastagnoli(out, m, 216); NextCastagnoli(out, m, 217); NextCastagnoli(out, m, 218);
    NextCastagnoli(out, m, 219); NextCastagnoli(out, m, 220); NextCastagnoli(out, m, 221);
    NextCastagnoli(out, m, 222); NextCastagnoli(out, m, 223);
  }

  // ------------------------------------------------------------ both registers are cleared

  lemma IeeeCleared(p: Word32, out: nat -> bool, m: nat -> bool, t: nat)
    requires p == Polynomial(Crc32) && Header(m, 1) && t >= 224 && forall k :: out(k) == Out(p, m, k)
    ensures Register(p, m, t) == Zeros(32)
  {
    IeeeBits();
    RegisterFollows32(p, out, m, 32);
    IeeeQuiet(out, m);
    Cleared(p, out, m, 224, t);
  }

  lemma IeeeQuiet(out: nat -> bool, m: nat -> bool)
    requires Header(m, 1) && Follows32From(out, m, 32)
    ensures forall k :: 192 <= k < 224 ==> !out(k)
  {
    SixthIeee(out, m);
    AllClear(out);
  }

  lemma CastagnoliCleared(p: Word32, out: nat -> bool, m: nat -> bool, t: nat)
    requires p == Polynomial(Crc32c) && Header(m, 2) && t >= 224 && forall k :: out(k) == Out(p, m, k)
    ensures Register(p, m, t) == Zeros(32)
  {
    CastagnoliBits();
    RegisterFollows32c(p, out, m, 32);
    CastagnoliQuiet(out, m);
    Cleared(p, out, m, 224, t);
  }

  lemma CastagnoliQuiet(out: nat -> bool, m: nat -> bool)
    requires Header(m, 2) && Follows32cFrom(out, m, 32)
    ensures forall k :: 192 <= k < 224 ==> !out(k)
  {
    SixthCastagnoli(out, m);
    AllClear(out);
  }

  lemma AllClear(out: nat -> bool)
    requires !out(192) && !out(193) && !out(194) && !out(195) && !out(196) && !out(197) && !out(198) && !out(199)
      && !out(200) && !out(201) && !out(202) && !out(203) && !out(204) && !out(205) && !out(206) && !out(207)
      && !out(208) && !out(209) && !out(210) && !out(211) && !out(212) && !out(213) && !out(214) && !out(215)
      && !out(216) && !out(217) && !out(218) && !out(219) && !out(220) && !out(221) && !out(222) && !out(223)
    ensures forall k :: 192 <= k < 224 ==> !out(k)
  {
  }

  // ------------------------------------------------------------ the header

  lemma NextByte(x: nat, n: nat, b: byte, rest: nat)
    requires x == 256 * rest + b && n > 0
    ensures Le(x, n) == [b] + Le(rest, n - 1)
  {
    assert x % 256 == b && x / 256 == rest;
  }

  lemma LeOfNothing(n: nat)
    ensures forall k :: 0 <= k < n ==> Le(0, n)[k] == 0
  {
    if n != 0 {
      LeOfNothing(n - 1);
      NextByte(0, n, 0, 0);
    }
  }

  lemma LeOfMagic()
    ensures Le(PACKET_MAGIC, 4) == [0x50, 0x43, 0x4B, 0x54]
  {
    NextByte(PACKET_MAGIC, 4, 0x50, 0x544B43);
    NextByte(0x544B43, 3, 0x43, 0x544B);
    NextByte(0x544B, 2, 0x4B, 0x54);
    NextByte(0x54, 1, 0x54, 0);
  }

  lemma LeOfSize()
    ensures Le(HEADER_SIZE, 2) == [0x20, 0]
  {
    NextByte(HEADER_SIZE, 2, 0x20, 0);
    NextByte(0, 1, 0, 0);
  }

  lemma LeOfSequence(x: nat)
    requires x == SEQUENCE
    ensures Le(x, 8) == [0x49, 0xF9, 0x6D, 0xE6, 0x94, 0x56, 0x03, 0x83]
  {
    var lower, upper := [0x49, 0xF9, 0x6D, 0xE6], [0x94, 0x56, 0x03, 0x83];
    NextFour(x, 8, lower, 0x83035694E66DF9, 0x83035694E66D, 0x83035694E6, 0x83035694);
    NextFour(0x83035694, 4, upper, 0x830356, 0x8303, 0x83, 0);
    assert lower + (upper + []) == [0x49, 0xF9, 0x6D, 0xE6, 0x94, 0x56, 0x03, 0x83];
  }

  lemma NextFour(x: nat, n: nat, b: seq<byte>, first: nat, second: nat, third: nat, rest: nat)
    requires |b| == 4 <= n && x == 256 * first + b[0] && first == 256 * second + b[1]
    requires second == 256 * third + b[2] && third == 256 * rest + b[3]
    ensures Le(x, n) == b + Le(rest, n - 4)
  {
    NextByte(x, n, b[0], first);
    NextByte(first, n - 1, b[1], second);
    NextByte(second, n - 2, b[2], third);
    NextByte(third, n - 3, b[3], rest);
    InFront(b, Le(rest, n - 4));
  }

  lemma InFront(b: seq<byte>, tail: seq<byte>)
    requires |b| == 4
    ensures [b[0]] + ([b[1]] + ([b[2]] + ([b[3]] + tail))) == b + tail
  {
  }

  /** The header as it is hashed, byte by byte. */
  lemma HeaderIs(kind: ChecksumKind, x: seq<byte>)
    requires x == HeaderBytes(NewHeader(kind, SEQUENCE, 0, 0))
    ensures |x| == 32 && forall k :: 0 <= k < 32 ==> x[k] == ByteAt(KindCode(kind), k)
  {
    var h := NewHeader(kind, SEQUENCE, 0, 0);
    LeOfMagic();
    LeOfSize();
    LeOfSequence(h.sequence);
    LeOfNothing(4);
    LeOfNothing(8);
    var none, zeros := Le(0, 4), Le(0, 8);
    HeaderPieces(h, none, zeros);
    FourPieces(KindCode(kind), [0x50, 0x43, 0x4B, 0x54, 2, KindCode(kind), 0x20, 0], none, Le(h.sequence, 8), zeros);
  }

  lemma HeaderPieces(h: PacketHeader, none: seq<byte>, zeros: seq<byte>)
    requires Le(h.magic, 4) == [0x50, 0x43, 0x4B, 0x54] && h.version == 2 && Le(h.headerSize, 2) == [0x20, 0]
    requires Le(h.payloadSize, 4) == Le(h.checksum, 4) == none && Le(Unsigned64(h.timestamp), 8) == zeros
    ensures HeaderBytes(h)
         == [0x50, 0x43, 0x4B, 0x54, 2, h.checksumKind, 0x20, 0] + none + none + (Le(h.sequence, 8) + zeros)
  {
    assert [0x50, 0x43, 0x4B, 0x54] + [2, h.checksumKind] + [0x20, 0]
        == [0x50, 0x43, 0x4B, 0x54, 2, h.checksumKind, 0x20, 0];
  }

  lemma FourPieces(code: byte, first: seq<byte>, none: seq<byte>, number: seq<byte>, zeros: seq<byte>)
    requires first == [0x50, 0x43, 0x4B, 0x54, 2, code, 0x20, 0]
    requires number == [0x49, 0xF9, 0x6D, 0xE6, 0x94, 0x56, 0x03, 0x83]
    requires |none| == 4 && |zeros| == 8
    requires (forall k :: 0 <= k < 4 ==> none[k] == 0) && (forall k :: 0 <= k < 8 ==> zeros[k] == 0)
    ensures forall k :: 0 <= k < 32 ==> (first + none + none + (number + zeros))[k] == ByteAt(code, k)
  {
  }

  // ------------------------------------------------------------ the checksums

  lemma MessageIsHeader(x: seq<byte>, code: byte, m: nat -> bool)
    requires |x| == 32 && forall k :: 0 <= k < 32 ==> x[k] == ByteAt(code, k)
    requires forall u: nat :: m(u) == (u < 288 && Message(x)[u])
    ensures Header(m, code)
  {
    forall k: nat, j: nat, u: nat | k < 24 && j < 8 && u == 32 + 8 * k + j ensures BitIs(m, code, k, j, u) {
      MessageBit(x, k, j, 8 * k + j, u);
    }
    forall u: nat | u < 32 || u >= 224 ensures !m(u) {
      if 224 <= u < 288 {
        var i := u - 32;
        MessageBit(x, i / 8, i % 8, i, u);
        BitsOfZero(8);
      }
    }
  }

  lemma IeeeChecksum(x: seq<byte>, p: Word32, m: nat -> bool, out: nat -> bool)
    requires |x| == 32 && (forall u: nat :: m(u) == (u < 288 && Message(x)[u])) && Header(m, 1)
    requires p == Polynomial(Crc32) && forall t :: out(t) == Out(p, m, t)
    ensures Compute(Crc32, x) == Finish(Zeros(32))
  {
    IeeeCleared(p, out, m, 288);
    ClearedFromOnes(Crc32, x, m, 288);
  }

  lemma CastagnoliChecksum(x: seq<byte>, p: Word32, m: nat -> bool, out: nat -> bool)
    requires |x| == 32 && (forall u: nat :: m(u) == (u < 288 && Message(x)[u])) && Header(m, 2)
    requires p == Polynomial(Crc32c) && forall t :: out(t) == Out(p, m, t)
    ensures Compute(Crc32c, x) == Finish(Zeros(32))
  {
    CastagnoliCleared(p, out, m, 288);
    ClearedFromOnes(Crc32c, x, m, 288);
  }

  lemma ChecksumOfHeader(kind: ChecksumKind, x: seq<byte>, p: Word32)
    requires |x| == 32 && (forall k :: 0 <= k < 32 ==> x[k] == ByteAt(KindCode(kind), k)) && p == Polynomial(kind)
    ensures Compute(kind, x) == Finish(Zeros(32))
  {
    var m := (u: nat) => u < 288 && Message(x)[u];
    var out := (t: nat) => Out(p, m, t);
    MessageIsHeader(x, KindCode(kind), m);
    match kind
    case Crc32 => IeeeChecksum(x, p, m, out);
    case Crc32c => CastagnoliChecksum(x, p, m, out);
  }

  lemma SealedIs(kind: ChecksumKind, x: seq<byte>)
    requires x == HeaderBytes(NewHeader(kind, SEQUENCE, 0, 0))
    ensures Sealed(kind, SEQUENCE, 0, []) == x[..12] + Le(Value(Finish(Zeros(32))), 4) + x[16..]
  {
    HeaderIs(kind, x);
    ChecksumOfHeader(kind, x, Polynomial(kind));
    assert x + [] == x;
  }

  /** This packet is intact under either algorithm: damage to its algorithm byte is not noticed. */
  lemma IntactEitherWay()
    ensures var r, s := Sealed(Crc32, SEQUENCE, 0, []), Sealed(Crc32c, SEQUENCE, 0, []);
      s == r[5 := KindCode(Crc32c)] && Corruption(r) == {} && Corruption(s) == {}
  {
    var x, y := HeaderBytes(NewHeader(Crc32, SEQUENCE, 0, 0)), HeaderBytes(NewHeader(Crc32c, SEQUENCE, 0, 0));
    SealedIs(Crc32, x);
    SealedIs(Crc32c, y);
    HeaderIs(Crc32, x);
    HeaderIs(Crc32c, y);
    OnlyTheCode(x, y, Le(Value(Finish(Zeros(32))), 4));
    SealedIsIntact(Crc32, SEQUENCE, 0, []);
    SealedIsIntact(Crc32c, SEQUENCE, 0, []);
  }

  lemma OnlyTheCode(x: seq<byte>, y: seq<byte>, field: seq<byte>)
    requires |x| == |y| == 32 && |field| == 4
    requires forall k :: 0 <= k < 32 ==> x[k] == ByteAt(1, k) && y[k] == ByteAt(2, k)
    ensures y[..12] + field + y[16..] == (x[..12] + field + x[16..])[5 := 2]
  {
    assert y == x[5 := 2] by {
      forall k | 0 <= k < 32 && k != 5 ensures x[k] == y[k] {
        assert ByteAt(1, k) == ByteAt(2, k);
      }
    }
  }
}
