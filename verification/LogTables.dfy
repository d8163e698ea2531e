/** The logarithm and exponential tables of the field: each inverts the other, and
    multiplying by three adds eight to the logarithm. */
module LogTables {
  import opened Galois

  // ---- the tables, sixteen entries a line

  /** Entry j of a row of sixteen. */
  function Row(j: int,
               a0: byte, a1: byte, a2: byte, a3: byte, a4: byte, a5: byte, a6: byte, a7: byte,
               a8: byte, a9: byte, a10: byte, a11: byte, a12: byte, a13: byte, a14: byte, a15: byte): (r: byte)
  {
    if j < 8 then
      (if j < 4 then (if j < 2 then (if j < 1 then a0 else a1) else (if j < 3 then a2 else a3)) else (if j < 6 then (if j < 5 then a4 else a5) else (if j < 7 then a6 else a7)))
    else
      (if j < 12 then (if j < 10 then (if j < 9 then a8 else a9) else (if j < 11 then a10 else a11)) else (if j < 14 then (if j < 13 then a12 else a13) else (if j < 15 then a14 else a15)))
  }

  function LogTable(i: nat): (r: byte)
    requires i < 256
  {
    if i < 0x10 then Row(i - 0x00, 0x00, 0xff, 0xc8, 0x08, 0x91, 0x10, 0xd0, 0x36, 0x5a, 0x3e, 0xd8, 0x43, 0x99, 0x77, 0xfe, 0x18)
    else if i < 0x20 then Row(i - 0x10, 0x23, 0x20, 0x07, 0x70, 0xa1, 0x6c, 0x0c, 0x7f, 0x62, 0x8b, 0x40, 0x46, 0xc7, 0x4b, 0xe0, 0x0e)
    else if i < 0x30 then Row(i - 0x20, 0xeb, 0x16, 0xe8, 0xad, 0xcf, 0xcd, 0x39, 0x53, 0x6a, 0x27, 0x35, 0x93, 0xd4, 0x4e, 0x48, 0xc3)
    else if i < 0x40 then Row(i - 0x30, 0x2b, 0x79, 0x54, 0x28, 0x09, 0x78, 0x0f, 0x21, 0x90, 0x87, 0x14, 0x2a, 0xa9, 0x9c, 0xd6, 0x74)
    else if i < 0x50 then Row(i - 0x40, 0xb4, 0x7c, 0xde, 0xed, 0xb1, 0x86, 0x76, 0xa4, 0x98, 0xe2, 0x96, 0x8f, 0x02, 0x32, 0x1c, 0xc1)
    else if i < 0x60 then Row(i - 0x50, 0x33, 0xee, 0xef, 0x81, 0xfd, 0x30, 0x5c, 0x13, 0x9d, 0x29, 0x17, 0xc4, 0x11, 0x44, 0x8c, 0x80)
    else if i < 0x70 then Row(i - 0x60, 0xf3, 0x73, 0x42, 0x1e, 0x1d, 0xb5, 0xf0, 0x12, 0xd1, 0x5b, 0x41, 0xa2, 0xd7, 0x2c, 0xe9, 0xd5)
    else if i < 0x80 then Row(i - 0x70, 0x59, 0xcb, 0x50, 0xa8, 0xdc, 0xfc, 0xf2, 0x56, 0x72, 0xa6, 0x65, 0x2f, 0x9f, 0x9b, 0x3d, 0xba)
    else if i < 0x90 then Row(i - 0x80, 0x7d, 0xc2, 0x45, 0x82, 0xa7, 0x57, 0xb6, 0xa3, 0x7a, 0x75, 0x4f, 0xae, 0x3f, 0x37, 0x6d, 0x47)
    else if i < 0xa0 then Row(i - 0x90, 0x61, 0xbe, 0xab, 0xd3, 0x5f, 0xb0, 0x58, 0xaf, 0xca, 0x5e, 0xfa, 0x85, 0xe4, 0x4d, 0x8a, 0x05)
    else if i < 0xb0 then Row(i - 0xa0, 0xfb, 0x60, 0xb7, 0x7b, 0xb8, 0x26, 0x4a, 0x67, 0xc6, 0x1a, 0xf8, 0x69, 0x25, 0xb3, 0xdb, 0xbd)
    else if i < 0xc0 then Row(i - 0xb0, 0x66, 0xdd, 0xf1, 0xd2, 0xdf, 0x03, 0x8d, 0x34, 0xd9, 0x92, 0x0d, 0x63, 0x55, 0xaa, 0x49, 0xec)
    else if i < 0xd0 then Row(i - 0xc0, 0xbc, 0x95, 0x3c, 0x84, 0x0b, 0xf5, 0xe6, 0xe7, 0xe5, 0xac, 0x7e, 0x6e, 0xb9, 0xf9, 0xda, 0x8e)
    else if i < 0xe0 then Row(i - 0xd0, 0x9a, 0xc9, 0x24, 0xe1, 0x0a, 0x15, 0x6b, 0x3a, 0xa0, 0x51, 0xf4, 0xea, 0xb2, 0x97, 0x9e, 0x5d)
    else if i < 0xf0 then Row(i - 0xe0, 0x22, 0x88, 0x94, 0xce, 0x19, 0x01, 0x71, 0x4c, 0xa5, 0xe3, 0xc5, 0x31, 0xbb, 0xcc, 0x1f, 0x2d)
    else Row(i - 0xf0, 0x3b, 0x52, 0x6f, 0xf6, 0x2e, 0x89, 0xf7, 0xc0, 0x68, 0x1b, 0x64, 0x04, 0x06, 0xbf, 0x83, 0x38)
  }

  function Exp(i: nat): (r: byte)
    requires i < 256
  {
    if i < 0x10 then Row(i - 0x00, 0x01, 0xe5, 0x4c, 0xb5, 0xfb, 0x9f, 0xfc, 0x12, 0x03, 0x34, 0xd4, 0xc4, 0x16, 0xba, 0x1f, 0x36)
    else if i < 0x20 then Row(i - 0x10, 0x05, 0x5c, 0x67, 0x57, 0x3a, 0xd5, 0x21, 0x5a, 0x0f, 0xe4, 0xa9, 0xf9, 0x4e, 0x64, 0x63, 0xee)
    else if i < 0x30 then Row(i - 0x20, 0x11, 0x37, 0xe0, 0x10, 0xd2, 0xac, 0xa5, 0x29, 0x33, 0x59, 0x3b, 0x30, 0x6d, 0xef, 0xf4, 0x7b)
    else if i < 0x40 then Row(i - 0x30, 0x55, 0xeb, 0x4d, 0x50, 0xb7, 0x2a, 0x07, 0x8d, 0xff, 0x26, 0xd7, 0xf0, 0xc2, 0x7e, 0x09, 0x8c)
    else if i < 0x50 then Row(i - 0x40, 0x1a, 0x6a, 0x62, 0x0b, 0x5d, 0x82, 0x1b, 0x8f, 0x2e, 0xbe, 0xa6, 0x1d, 0xe7, 0x9d, 0x2d, 0x8a)
    else if i < 0x60 then Row(i - 0x50, 0x72, 0xd9, 0xf1, 0x27, 0x32, 0xbc, 0x77, 0x85, 0x96, 0x70, 0x08, 0x69, 0x56, 0xdf, 0x99, 0x94)
    else if i < 0x70 then Row(i - 0x60, 0xa1, 0x90, 0x18, 0xbb, 0xfa, 0x7a, 0xb0, 0xa7, 0xf8, 0xab, 0x28, 0xd6, 0x15, 0x8e, 0xcb, 0xf2)
    else if i < 0x80 then Row(i - 0x70, 0x13, 0xe6, 0x78, 0x61, 0x3f, 0x89, 0x46, 0x0d, 0x35, 0x31, 0x88, 0xa3, 0x41, 0x80, 0xca, 0x17)
    else if i < 0x90 then Row(i - 0x80, 0x5f, 0x53, 0x83, 0xfe, 0xc3, 0x9b, 0x45, 0x39, 0xe1, 0xf5, 0x9e, 0x19, 0x5e, 0xb6, 0xcf, 0x4b)
    else if i < 0xa0 then Row(i - 0x90, 0x38, 0x04, 0xb9, 0x2b, 0xe2, 0xc1, 0x4a, 0xdd, 0x48, 0x0c, 0xd0, 0x7d, 0x3d, 0x58, 0xde, 0x7c)
    else if i < 0xb0 then Row(i - 0xa0, 0xd8, 0x14, 0x6b, 0x87, 0x47, 0xe8, 0x79, 0x84, 0x73, 0x3c, 0xbd, 0x92, 0xc9, 0x23, 0x8b, 0x97)
    else if i < 0xc0 then Row(i - 0xb0, 0x95, 0x44, 0xdc, 0xad, 0x40, 0x65, 0x86, 0xa2, 0xa4, 0xcc, 0x7f, 0xec, 0xc0, 0xaf, 0x91, 0xfd)
    else if i < 0xd0 then Row(i - 0xc0, 0xf7, 0x4f, 0x81, 0x2f, 0x5b, 0xea, 0xa8, 0x1c, 0x02, 0xd1, 0x98, 0x71, 0xed, 0x25, 0xe3, 0x24)
    else if i < 0xe0 then Row(i - 0xd0, 0x06, 0x68, 0xb3, 0x93, 0x2c, 0x6f, 0x3e, 0x6c, 0x0a, 0xb8, 0xce, 0xae, 0x74, 0xb1, 0x42, 0xb4)
    else if i < 0xf0 then Row(i - 0xe0, 0x1e, 0xd3, 0x49, 0xe9, 0x9c, 0xc8, 0xc6, 0xc7, 0x22, 0x6e, 0xdb, 0x20, 0xbf, 0x43, 0x51, 0x52)
    else Row(i - 0xf0, 0x66, 0xb2, 0x76, 0x60, 0xda, 0xc5, 0xf3, 0xf6, 0xaa, 0xcd, 0x9a, 0xa0, 0x75, 0x54, 0x0e, 0x01)
  }

  function Log(a: byte): (r: byte) { LogTable(a as nat) }

  // ---- what the entries say

  /** Multiplication by x + 1, the entry at exponent 8. */
  function Times3(a: byte): (r: byte) { Add(a, Times2(a)) }

  /** Eight exponents further on, modulo 255, among 1 to 255. */
  function Ahead(l: byte): (r: byte) { if l < 248 then l + 8 else l - 247 }

  // The entries one by one, a row of the table each.

  lemma Steps0()
    ensures Log(Times3(1)) == Ahead(Log(1)) && Log(Times3(2)) == Ahead(Log(2)) && Log(Times3(3)) == Ahead(Log(3)) && Log(Times3(4)) == Ahead(Log(4))
    ensures Log(Times3(5)) == Ahead(Log(5)) && Log(Times3(6)) == Ahead(Log(6)) && Log(Times3(7)) == Ahead(Log(7)) && Log(Times3(8)) == Ahead(Log(8))
    ensures Log(Times3(9)) == Ahead(Log(9)) && Log(Times3(10)) == Ahead(Log(10)) && Log(Times3(11)) == Ahead(Log(11)) && Log(Times3(12)) == Ahead(Log(12))
    ensures Log(Times3(13)) == Ahead(Log(13)) && Log(Times3(14)) == Ahead(Log(14)) && Log(Times3(15)) == Ahead(Log(15))
  {}

  lemma Steps1()
    ensures Log(Times3(16)) == Ahead(Log(16)) && Log(Times3(17)) == Ahead(Log(17)) && Log(Times3(18)) == Ahead(Log(18)) && Log(Times3(19)) == Ahead(Log(19))
    ensures Log(Times3(20)) == Ahead(Log(20)) && Log(Times3(21)) == Ahead(Log(21)) && Log(Times3(22)) == Ahead(Log(22)) && Log(Times3(23)) == Ahead(Log(23))
    ensures Log(Times3(24)) == Ahead(Log(24)) && Log(Times3(25)) == Ahead(Log(25)) && Log(Times3(26)) == Ahead(Log(26)) && Log(Times3(27)) == Ahead(Log(27))
    ensures Log(Times3(28)) == Ahead(Log(28)) && Log(Times3(29)) == Ahead(Log(29)) && Log(Times3(30)) == Ahead(Log(30)) && Log(Times3(31)) == Ahead(Log(31))
  {}

  lemma Steps2()
    ensures Log(Times3(32)) == Ahead(Log(32)) && Log(Times3(33)) == Ahead(Log(33)) && Log(Times3(34)) == Ahead(Log(34)) && Log(Times3(35)) == Ahead(Log(35))
    ensures Log(Times3(36)) == Ahead(Log(36)) && Log(Times3(37)) == Ahead(Log(37)) && Log(Times3(38)) == Ahead(Log(38)) && Log(Times3(39)) == Ahead(Log(39))
    ensures Log(Times3(40)) == Ahead(Log(40)) && Log(Times3(41)) == Ahead(Log(41)) && Log(Times3(42)) == Ahead(Log(42)) && Log(Times3(43)) == Ahead(Log(43))
    ensures Log(Times3(44)) == Ahead(Log(44)) && Log(Times3(45)) == Ahead(Log(45)) && Log(Times3(46)) == Ahead(Log(46)) && Log(Times3(47)) == Ahead(Log(47))
  {}

  lemma Steps3()
    ensures Log(Times3(48)) == Ahead(Log(48)) && Log(Times3(49)) == Ahead(Log(49)) && Log(Times3(50)) == Ahead(Log(50)) && Log(Times3(51)) == Ahead(Log(51))
    ensures Log(Times3(52)) == Ahead(Log(52)) && Log(Times3(53)) == Ahead(Log(53)) && Log(Times3(54)) == Ahead(Log(54)) && Log(Times3(55)) == Ahead(Log(55))
    ensures Log(Times3(56)) == Ahead(Log(56)) && Log(Times3(57)) == Ahead(Log(57)) && Log(Times3(58)) == Ahead(Log(58)) && Log(Times3(59)) == Ahead(Log(59))
    ensures Log(Times3(60)) == Ahead(Log(60)) && Log(Times3(61)) == Ahead(Log(61)) && Log(Times3(62)) == Ahead(Log(62)) && Log(Times3(63)) == Ahead(Log(63))
  {}

  lemma Steps4()
    ensures Log(Times3(64)) == Ahead(Log(64)) && Log(Times3(65)) == Ahead(Log(65)) && Log(Times3(66)) == Ahead(Log(66)) && Log(Times3(67)) == Ahead(Log(67))
    ensures Log(Times3(68)) == Ahead(Log(68)) && Log(Times3(69)) == Ahead(Log(69)) && Log(Times3(70)) == Ahead(Log(70)) && Log(Times3(71)) == Ahead(Log(71))
    ensures Log(Times3(72)) == Ahead(Log(72)) && Log(Times3(73)) == Ahead(Log(73)) && Log(Times3(74)) == Ahead(Log(74)) && Log(Times3(75)) == Ahead(Log(75))
    ensures Log(Times3(76)) == Ahead(Log(76)) && Log(Times3(77)) == Ahead(Log(77)) && Log(Times3(78)) == Ahead(Log(78)) && Log(Times3(79)) == Ahead(Log(79))
  {}

  lemma Steps5()
    ensures Log(Times3(80)) == Ahead(Log(80)) && Log(Times3(81)) == Ahead(Log(81)) && Log(Times3(82)) == Ahead(Log(82)) && Log(Times3(83)) == Ahead(Log(83))
    ensures Log(Times3(84)) == Ahead(Log(84)) && Log(Times3(85)) == Ahead(Log(85)) && Log(Times3(86)) == Ahead(Log(86)) && Log(Times3(87)) == Ahead(Log(87))
    ensures Log(Times3(88)) == Ahead(Log(88)) && Log(Times3(89)) == Ahead(Log(89)) && Log(Times3(90)) == Ahead(Log(90)) && Log(Times3(91)) == Ahead(Log(91))
    ensures Log(Times3(92)) == Ahead(Log(92)) && Log(Times3(93)) == Ahead(Log(93)) && Log(Times3(94)) == Ahead(Log(94)) && Log(Times3(95)) == Ahead(Log(95))
  {}

  lemma Steps6()
    ensures Log(Times3(96)) == Ahead(Log(96)) && Log(Times3(97)) == Ahead(Log(97)) && Log(Times3(98)) == Ahead(Log(98)) && Log(Times3(99)) == Ahead(Log(99))
    ensures Log(Times3(100)) == Ahead(Log(100)) && Log(Times3(101)) == Ahead(Log(101)) && Log(Times3(102)) == Ahead(Log(102)) && Log(Times3(103)) == Ahead(Log(103))
    ensures Log(Times3(104)) == Ahead(Log(104)) && Log(Times3(105)) == Ahead(Log(105)) && Log(Times3(106)) == Ahead(Log(106)) && Log(Times3(107)) == Ahead(Log(107))
    ensures Log(Times3(108)) == Ahead(Log(108)) && Log(Times3(109)) == Ahead(Log(109)) && Log(Times3(110)) == Ahead(Log(110)) && Log(Times3(111)) == Ahead(Log(111))
  {}

  lemma Steps7()
    ensures Log(Times3(112)) == Ahead(Log(112)) && Log(Times3(113)) == Ahead(Log(113)) && Log(Times3(114)) == Ahead(Log(114)) && Log(Times3(115)) == Ahead(Log(115))
    ensures Log(Times3(116)) == Ahead(Log(116)) && Log(Times3(117)) == Ahead(Log(117)) && Log(Times3(118)) == Ahead(Log(118)) && Log(Times3(119)) == Ahead(Log(119))
    ensures Log(Times3(120)) == Ahead(Log(120)) && Log(Times3(121)) == Ahead(Log(121)) && Log(Times3(122)) == Ahead(Log(122)) && Log(Times3(123)) == Ahead(Log(123))
    ensures Log(Times3(124)) == Ahead(Log(124)) && Log(Times3(125)) == Ahead(Log(125)) && Log(Times3(126)) == Ahead(Log(126)) && Log(Times3(127)) == Ahead(Log(127))
  {}

  lemma Steps8()
    ensures Log(Times3(128)) == Ahead(Log(128)) && Log(Times3(129)) == Ahead(Log(129)) && Log(Times3(130)) == Ahead(Log(130)) && Log(Times3(131)) == Ahead(Log(131))
    ensures Log(Times3(132)) == Ahead(Log(132)) && Log(Times3(133)) == Ahead(Log(133)) && Log(Times3(134)) == Ahead(Log(134)) && Log(Times3(135)) == Ahead(Log(135))
    ensures Log(Times3(136)) == Ahead(Log(136)) && Log(Times3(137)) == Ahead(Log(137)) && Log(Times3(138)) == Ahead(Log(138)) && Log(Times3(139)) == Ahead(Log(139))
    ensures Log(Times3(140)) == Ahead(Log(140)) && Log(Times3(141)) == Ahead(Log(141)) && Log(Times3(142)) == Ahead(Log(142)) && Log(Times3(143)) == Ahead(Log(143))
  {}

  lemma Steps9()
    ensures Log(Times3(144)) == Ahead(Log(144)) && Log(Times3(145)) == Ahead(Log(145)) && Log(Times3(146)) == Ahead(Log(146)) && Log(Times3(147)) == Ahead(Log(147))
    ensures Log(Times3(148)) == Ahead(Log(148)) && Log(Times3(149)) == Ahead(Log(149)) && Log(Times3(150)) == Ahead(Log(150)) && Log(Times3(151)) == Ahead(Log(151))
    ensures Log(Times3(152)) == Ahead(Log(152)) && Log(Times3(153)) == Ahead(Log(153)) && Log(Times3(154)) == Ahead(Log(154)) && Log(Times3(155)) == Ahead(Log(155))
    ensures Log(Times3(156)) == Ahead(Log(156)) && Log(Times3(157)) == Ahead(Log(157)) && Log(Times3(158)) == Ahead(Log(158)) && Log(Times3(159)) == Ahead(Log(159))
  {}

  lemma Steps10()
    ensures Log(Times3(160)) == Ahead(Log(160)) && Log(Times3(161)) == Ahead(Log(161)) && Log(Times3(162)) == Ahead(Log(162)) && Log(Times3(163)) == Ahead(Log(163))
    ensures Log(Times3(164)) == Ahead(Log(164)) && Log(Times3(165)) == Ahead(Log(165)) && Log(Times3(166)) == Ahead(Log(166)) && Log(Times3(167)) == Ahead(Log(167))
    ensures Log(Times3(168)) == Ahead(Log(168)) && Log(Times3(169)) == Ahead(Log(169)) && Log(Times3(170)) == Ahead(Log(170)) && Log(Times3(171)) == Ahead(Log(171))
    ensures Log(Times3(172)) == Ahead(Log(172)) && Log(Times3(173)) == Ahead(Log(173)) && Log(Times3(174)) == Ahead(Log(174)) && Log(Times3(175)) == Ahead(Log(175))
  {}

  lemma Steps11()
    ensures Log(Times3(176)) == Ahead(Log(176)) && Log(Times3(177)) == Ahead(Log(177)) && Log(Times3(178)) == Ahead(Log(178)) && Log(Times3(179)) == Ahead(Log(179))
    ensures Log(Times3(180)) == Ahead(Log(180)) && Log(Times3(181)) == Ahead(Log(181)) && Log(Times3(182)) == Ahead(Log(182)) && Log(Times3(183)) == Ahead(Log(183))
    ensures Log(Times3(184)) == Ahead(Log(184)) && Log(Times3(185)) == Ahead(Log(185)) && Log(Times3(186)) == Ahead(Log(186)) && Log(Times3(187)) == Ahead(Log(187))
    ensures Log(Times3(188)) == Ahead(Log(188)) && Log(Times3(189)) == Ahead(Log(189)) && Log(Times3(190)) == Ahead(Log(190)) && Log(Times3(191)) == Ahead(Log(191))
  {}

  lemma Steps12()
    ensures Log(Times3(192)) == Ahead(Log(192)) && Log(Times3(193)) == Ahead(Log(193)) && Log(Times3(194)) == Ahead(Log(194)) && Log(Times3(195)) == Ahead(Log(195))
    ensures Log(Times3(196)) == Ahead(Log(196)) && Log(Times3(197)) == Ahead(Log(197)) && Log(Times3(198)) == Ahead(Log(198)) && Log(Times3(199)) == Ahead(Log(199))
    ensures Log(Times3(200)) == Ahead(Log(200)) && Log(Times3(201)) == Ahead(Log(201)) && Log(Times3(202)) == Ahead(Log(202)) && Log(Times3(203)) == Ahead(Log(203))
    ensures Log(Times3(204)) == Ahead(Log(204)) && Log(Times3(205)) == Ahead(Log(205)) && Log(Times3(206)) == Ahead(Log(206)) && Log(Times3(207)) == Ahead(Log(207))
  {}

  lemma Steps13()
    ensures Log(Times3(208)) == Ahead(Log(208)) && Log(Times3(209)) == Ahead(Log(209)) && Log(Times3(210)) == Ahead(Log(210)) && Log(Times3(211)) == Ahead(Log(211))
    ensures Log(Times3(212)) == Ahead(Log(212)) && Log(Times3(213)) == Ahead(Log(213)) && Log(Times3(214)) == Ahead(Log(214)) && Log(Times3(215)) == Ahead(Log(215))
    ensures Log(Times3(216)) == Ahead(Log(216)) && Log(Times3(217)) == Ahead(Log(217)) && Log(Times3(218)) == Ahead(Log(218)) && Log(Times3(219)) == Ahead(Log(219))
    ensures Log(Times3(220)) == Ahead(Log(220)) && Log(Times3(221)) == Ahead(Log(221)) && Log(Times3(222)) == Ahead(Log(222)) && Log(Times3(223)) == Ahead(Log(223))
  {}

  lemma Steps14()
    ensures Log(Times3(224)) == Ahead(Log(224)) && Log(Times3(225)) == Ahead(Log(225)) && Log(Times3(226)) == Ahead(Log(226)) && Log(Times3(227)) == Ahead(Log(227))
    ensures Log(Times3(228)) == Ahead(Log(228)) && Log(Times3(229)) == Ahead(Log(229)) && Log(Times3(230)) == Ahead(Log(230)) && Log(Times3(231)) == Ahead(Log(231))
    ensures Log(Times3(232)) == Ahead(Log(232)) && Log(Times3(233)) == Ahead(Log(233)) && Log(Times3(234)) == Ahead(Log(234)) && Log(Times3(235)) == Ahead(Log(235))
    ensures Log(Times3(236)) == Ahead(Log(236)) && Log(Times3(237)) == Ahead(Log(237)) && Log(Times3(238)) == Ahead(Log(238)) && Log(Times3(239)) == Ahead(Log(239))
  {}

  lemma Steps15()
    ensures Log(Times3(240)) == Ahead(Log(240)) && Log(Times3(241)) == Ahead(Log(241)) && Log(Times3(242)) == Ahead(Log(242)) && Log(Times3(243)) == Ahead(Log(243))
    ensures Log(Times3(244)) == Ahead(Log(244)) && Log(Times3(245)) == Ahead(Log(245)) && Log(Times3(246)) == Ahead(Log(246)) && Log(Times3(247)) == Ahead(Log(247))
    ensures Log(Times3(248)) == Ahead(Log(248)) && Log(Times3(249)) == Ahead(Log(249)) && Log(Times3(250)) == Ahead(Log(250)) && Log(Times3(251)) == Ahead(Log(251))
    ensures Log(Times3(252)) == Ahead(Log(252)) && Log(Times3(253)) == Ahead(Log(253)) && Log(Times3(254)) == Ahead(Log(254)) && Log(Times3(255)) == Ahead(Log(255))
  {}

  lemma Inverses0()
    ensures Exp(Log(1) as nat) == 1 && Exp(Log(2) as nat) == 2 && Exp(Log(3) as nat) == 3 && Exp(Log(4) as nat) == 4
    ensures Exp(Log(5) as nat) == 5 && Exp(Log(6) as nat) == 6 && Exp(Log(7) as nat) == 7 && Exp(Log(8) as nat) == 8
    ensures Exp(Log(9) as nat) == 9 && Exp(Log(10) as nat) == 10 && Exp(Log(11) as nat) == 11 && Exp(Log(12) as nat) == 12
    ensures Exp(Log(13) as nat) == 13 && Exp(Log(14) as nat) == 14 && Exp(Log(15) as nat) == 15
  {}

  lemma Inverses1()
    ensures Exp(Log(16) as nat) == 16 && Exp(Log(17) as nat) == 17 && Exp(Log(18) as nat) == 18 && Exp(Log(19) as nat) == 19
    ensures Exp(Log(20) as nat) == 20 && Exp(Log(21) as nat) == 21 && Exp(Log(22) as nat) == 22 && Exp(Log(23) as nat) == 23
    ensures Exp(Log(24) as nat) == 24 && Exp(Log(25) as nat) == 25 && Exp(Log(26) as nat) == 26 && Exp(Log(27) as nat) == 27
    ensures Exp(Log(28) as nat) == 28 && Exp(Log(29) as nat) == 29 && Exp(Log(30) as nat) == 30 && Exp(Log(31) as nat) == 31
  {}

  lemma Inverses2()
    ensures Exp(Log(32) as nat) == 32 && Exp(Log(33) as nat) == 33 && Exp(Log(34) as nat) == 34 && Exp(Log(35) as nat) == 35
    ensures Exp(Log(36) as nat) == 36 && Exp(Log(37) as nat) == 37 && Exp(Log(38) as nat) == 38 && Exp(Log(39) as nat) == 39
    ensures Exp(Log(40) as nat) == 40 && Exp(Log(41) as nat) == 41 && Exp(Log(42) as nat) == 42 && Exp(Log(43) as nat) == 43
    ensures Exp(Log(44) as nat) == 44 && Exp(Log(45) as nat) == 45 && Exp(Log(46) as nat) == 46 && Exp(Log(47) as nat) == 47
  {}

  lemma Inverses3()
    ensures Exp(Log(48) as nat) == 48 && Exp(Log(49) as nat) == 49 && Exp(Log(50) as nat) == 50 && Exp(Log(51) as nat) == 51
    ensures Exp(Log(52) as nat) == 52 && Exp(Log(53) as nat) == 53 && Exp(Log(54) as nat) == 54 && Exp(Log(55) as nat) == 55
    ensures Exp(Log(56) as nat) == 56 && Exp(Log(57) as nat) == 57 && Exp(Log(58) as nat) == 58 && Exp(Log(59) as nat) == 59
    ensures Exp(Log(60) as nat) == 60 && Exp(Log(61) as nat) == 61 && Exp(Log(62) as nat) == 62 && Exp(Log(63) as nat) == 63
  {}

  lemma Inverses4()
    ensures Exp(Log(64) as nat) == 64 && Exp(Log(65) as nat) == 65 && Exp(Log(66) as nat) == 66 && Exp(Log(67) as nat) == 67
    ensures Exp(Log(68) as nat) == 68 && Exp(Log(69) as nat) == 69 && Exp(Log(70) as nat) == 70 && Exp(Log(71) as nat) == 71
    ensures Exp(Log(72) as nat) == 72 && Exp(Log(73) as nat) == 73 && Exp(Log(74) as nat) == 74 && Exp(Log(75) as nat) == 75
    ensures Exp(Log(76) as nat) == 76 && Exp(Log(77) as nat) == 77 && Exp(Log(78) as nat) == 78 && Exp(Log(79) as nat) == 79
  {}

  lemma Inverses5()
    ensures Exp(Log(80) as nat) == 80 && Exp(Log(81) as nat) == 81 && Exp(Log(82) as nat) == 82 && Exp(Log(83) as nat) == 83
    ensures Exp(Log(84) as nat) == 84 && Exp(Log(85) as nat) == 85 && Exp(Log(86) as nat) == 86 && Exp(Log(87) as nat) == 87
    ensures Exp(Log(88) as nat) == 88 && Exp(Log(89) as nat) == 89 && Exp(Log(90) as nat) == 90 && Exp(Log(91) as nat) == 91
    ensures Exp(Log(92) as nat) == 92 && Exp(Log(93) as nat) == 93 && Exp(Log(94) as nat) == 94 && Exp(Log(95) as nat) == 95
  {}

  lemma Inverses6()
    ensures Exp(Log(96) as nat) == 96 && Exp(Log(97) as nat) == 97 && Exp(Log(98) as nat) == 98 && Exp(Log(99) as nat) == 99
    ensures Exp(Log(100) as nat) == 100 && Exp(Log(101) as nat) == 101 && Exp(Log(102) as nat) == 102 && Exp(Log(103) as nat) == 103
    ensures Exp(Log(104) as nat) == 104 && Exp(Log(105) as nat) == 105 && Exp(Log(106) as nat) == 106 && Exp(Log(107) as nat) == 107
    ensures Exp(Log(108) as nat) == 108 && Exp(Log(109) as nat) == 109 && Exp(Log(110) as nat) == 110 && Exp(Log(111) as nat) == 111
  {}

  lemma Inverses7()
    ensures Exp(Log(112) as nat) == 112 && Exp(Log(113) as nat) == 113 && Exp(Log(114) as nat) == 114 && Exp(Log(115) as nat) == 115
    ensures Exp(Log(116) as nat) == 116 && Exp(Log(117) as nat) == 117 && Exp(Log(118) as nat) == 118 && Exp(Log(119) as nat) == 119
    ensures Exp(Log(120) as nat) == 120 && Exp(Log(121) as nat) == 121 && Exp(Log(122) as nat) == 122 && Exp(Log(123) as nat) == 123
    ensures Exp(Log(124) as nat) == 124 && Exp(Log(125) as nat) == 125 && Exp(Log(126) as nat) == 126 && Exp(Log(127) as nat) == 127
  {}

  lemma Inverses8()
    ensures Exp(Log(128) as nat) == 128 && Exp(Log(129) as nat) == 129 && Exp(Log(130) as nat) == 130 && Exp(Log(131) as nat) == 131
    ensures Exp(Log(132) as nat) == 132 && Exp(Log(133) as nat) == 133 && Exp(Log(134) as nat) == 134 && Exp(Log(135) as nat) == 135
    ensures Exp(Log(136) as nat) == 136 && Exp(Log(137) as nat) == 137 && Exp(Log(138) as nat) == 138 && Exp(Log(139) as nat) == 139
    ensures Exp(Log(140) as nat) == 140 && Exp(Log(141) as nat) == 141 && Exp(Log(142) as nat) == 142 && Exp(Log(143) as nat) == 143
  {}

  lemma Inverses9()
    ensures Exp(Log(144) as nat) == 144 && Exp(Log(145) as nat) == 145 && Exp(Log(146) as nat) == 146 && Exp(Log(147) as nat) == 147
    ensures Exp(Log(148) as nat) == 148 && Exp(Log(149) as nat) == 149 && Exp(Log(150) as nat) == 150 && Exp(Log(151) as nat) == 151
    ensures Exp(Log(152) as nat) == 152 && Exp(Log(153) as nat) == 153 && Exp(Log(154) as nat) == 154 && Exp(Log(155) as nat) == 155
    ensures Exp(Log(156) as nat) == 156 && Exp(Log(157) as nat) == 157 && Exp(Log(158) as nat) == 158 && Exp(Log(159) as nat) == 159
  {}

  lemma Inverses10()
    ensures Exp(Log(160) as nat) == 160 && Exp(Log(161) as nat) == 161 && Exp(Log(162) as nat) == 162 && Exp(Log(163) as nat) == 163
    ensures Exp(Log(164) as nat) == 164 && Exp(Log(165) as nat) == 165 && Exp(Log(166) as nat) == 166 && Exp(Log(167) as nat) == 167
    ensures Exp(Log(168) as nat) == 168 && Exp(Log(169) as nat) == 169 && Exp(Log(170) as nat) == 170 && Exp(Log(171) as nat) == 171
    ensures Exp(Log(172) as nat) == 172 && Exp(Log(173) as nat) == 173 && Exp(Log(174) as nat) == 174 && Exp(Log(175) as nat) == 175
  {}

  lemma Inverses11()
    ensures Exp(Log(176) as nat) == 176 && Exp(Log(177) as nat) == 177 && Exp(Log(178) as nat) == 178 && Exp(Log(179) as nat) == 179
    ensures Exp(Log(180) as nat) == 180 && Exp(Log(181) as nat) == 181 && Exp(Log(182) as nat) == 182 && Exp(Log(183) as nat) == 183
    ensures Exp(Log(184) as nat) == 184 && Exp(Log(185) as nat) == 185 && Exp(Log(186) as nat) == 186 && Exp(Log(187) as nat) == 187
    ensures Exp(Log(188) as nat) == 188 && Exp(Log(189) as nat) == 189 && Exp(Log(190) as nat) == 190 && Exp(Log(191) as nat) == 191
  {}

  lemma Inverses12()
    ensures Exp(Log(192) as nat) == 192 && Exp(Log(193) as nat) == 193 && Exp(Log(194) as nat) == 194 && Exp(Log(195) as nat) == 195
    ensures Exp(Log(196) as nat) == 196 && Exp(Log(197) as nat) == 197 && Exp(Log(198) as nat) == 198 && Exp(Log(199) as nat) == 199
    ensures Exp(Log(200) as nat) == 200 && Exp(Log(201) as nat) == 201 && Exp(Log(202) as nat) == 202 && Exp(Log(203) as nat) == 203
    ensures Exp(Log(204) as nat) == 204 && Exp(Log(205) as nat) == 205 && Exp(Log(206) as nat) == 206 && Exp(Log(207) as nat) == 207
  {}

  lemma Inverses13()
    ensures Exp(Log(208) as nat) == 208 && Exp(Log(209) as nat) == 209 && Exp(Log(210) as nat) == 210 && Exp(Log(211) as nat) == 211
    ensures Exp(Log(212) as nat) == 212 && Exp(Log(213) as nat) == 213 && Exp(Log(214) as nat) == 214 && Exp(Log(215) as nat) == 215
    ensures Exp(Log(216) as nat) == 216 && Exp(Log(217) as nat) == 217 && Exp(Log(218) as nat) == 218 && Exp(Log(219) as nat) == 219
    ensures Exp(Log(220) as nat) == 220 && Exp(Log(221) as nat) == 221 && Exp(Log(222) as nat) == 222 && Exp(Log(223) as nat) == 223
  {}

  lemma Inverses14()
    ensures Exp(Log(224) as nat) == 224 && Exp(Log(225) as nat) == 225 && Exp(Log(226) as nat) == 226 && Exp(Log(227) as nat) == 227
    ensures Exp(Log(228) as nat) == 228 && Exp(Log(229) as nat) == 229 && Exp(Log(230) as nat) == 230 && Exp(Log(231) as nat) == 231
    ensures Exp(Log(232) as nat) == 232 && Exp(Log(233) as nat) == 233 && Exp(Log(234) as nat) == 234 && Exp(Log(235) as nat) == 235
    ensures Exp(Log(236) as nat) == 236 && Exp(Log(237) as nat) == 237 && Exp(Log(238) as nat) == 238 && Exp(Log(239) as nat) == 239
  {}

  lemma Inverses15()
    ensures Exp(Log(240) as nat) == 240 && Exp(Log(241) as nat) == 241 && Exp(Log(242) as nat) == 242 && Exp(Log(243) as nat) == 243
    ensures Exp(Log(244) as nat) == 244 && Exp(Log(245) as nat) == 245 && Exp(Log(246) as nat) == 246 && Exp(Log(247) as nat) == 247
    ensures Exp(Log(248) as nat) == 248 && Exp(Log(249) as nat) == 249 && Exp(Log(250) as nat) == 250 && Exp(Log(251) as nat) == 251
    ensures Exp(Log(252) as nat) == 252 && Exp(Log(253) as nat) == 253 && Exp(Log(254) as nat) == 254 && Exp(Log(255) as nat) == 255
  {}

  lemma StepsA(a: byte)
    requires 1 <= a < 64
    ensures Log(Times3(a)) == Ahead(Log(a))
  {
    hide Log, Times3, Ahead;
    if a < 16 {
      Steps0();
    } else if a < 32 {
      Steps1();
    } else if a < 48 {
      Steps2();
    } else {
      Steps3();
    }
  }

  lemma StepsB(a: byte)
    requires 64 <= a < 128
    ensures Log(Times3(a)) == Ahead(Log(a))
  {
    hide Log, Times3, Ahead;
    if a < 80 {
      Steps4();
    } else if a < 96 {
      Steps5();
    } else if a < 112 {
      Steps6();
    } else {
      Steps7();
    }
  }

  lemma StepsC(a: byte)
    requires 128 <= a < 192
    ensures Log(Times3(a)) == Ahead(Log(a))
  {
    hide Log, Times3, Ahead;
    if a < 144 {
      Steps8();
    } else if a < 160 {
      Steps9();
    } else if a < 176 {
      Steps10();
    } else {
      Steps11();
    }
  }

  lemma StepsD(a: byte)
    requires 192 <= a
    ensures Log(Times3(a)) == Ahead(Log(a))
  {
    hide Log, Times3, Ahead;
    if a < 208 {
      Steps12();
    } else if a < 224 {
      Steps13();
    } else if a < 240 {
      Steps14();
    } else {
      Steps15();
    }
  }

  lemma InversesA(a: byte)
    requires 1 <= a < 64
    ensures Exp(Log(a) as nat) == a
  {
    hide Exp, Log;
    if a < 16 {
      Inverses0();
    } else if a < 32 {
      Inverses1();
    } else if a < 48 {
      Inverses2();
    } else {
      Inverses3();
    }
  }

  lemma InversesB(a: byte)
    requires 64 <= a < 128
    ensures Exp(Log(a) as nat) == a
  {
    hide Exp, Log;
    if a < 80 {
      Inverses4();
    } else if a < 96 {
      Inverses5();
    } else if a < 112 {
      Inverses6();
    } else {
      Inverses7();
    }
  }

  lemma InversesC(a: byte)
    requires 128 <= a < 192
    ensures Exp(Log(a) as nat) == a
  {
    hide Exp, Log;
    if a < 144 {
      Inverses8();
    } else if a < 160 {
      Inverses9();
    } else if a < 176 {
      Inverses10();
    } else {
      Inverses11();
    }
  }

  lemma InversesD(a: byte)
    requires 192 <= a
    ensures Exp(Log(a) as nat) == a
  {
    hide Exp, Log;
    if a < 208 {
      Inverses12();
    } else if a < 224 {
      Inverses13();
    } else if a < 240 {
      Inverses14();
    } else {
      Inverses15();
    }
  }

  /** Multiplication by x + 1 moves the logarithm eight on. */
  lemma Steps(a: byte)
    requires a != 0
    ensures Log(Times3(a)) == Ahead(Log(a))
  {
    hide Log, Times3, Ahead;
    if a < 64 {
      StepsA(a);
    } else if a < 128 {
      StepsB(a);
    } else if a < 192 {
      StepsC(a);
    } else {
      StepsD(a);
    }
  }

  /** The tables are inverse to each other on the non-zero elements. */
  lemma Inverses(a: byte)
    requires a != 0
    ensures Exp(Log(a) as nat) == a
  {
    hide Exp, Log;
    if a < 64 {
      InversesA(a);
    } else if a < 128 {
      InversesB(a);
    } else if a < 192 {
      InversesC(a);
    } else {
      InversesD(a);
    }
  }

  lemma TableEnds()
    ensures Exp(0) == 1 && Exp(255) == 1 && Log(0) == 0 && Log(1) == 255
  {}
}
