/** The worked example of the standard (Appendix A.1 of GB/T 32907-2016): thirty-two round
    keys, thirty-two rounds, and the block that comes out. */
module Sm4Example {
  import opened Sm4Tables
  import opened Sm4

  const KEY: Block := [0x01, 0x23, 0x45, 0x67, 0x89, 0xab, 0xcd, 0xef, 0xfe, 0xdc, 0xba, 0x98, 0x76, 0x54, 0x32, 0x10]
  const CIPHERTEXT: Block := [0x68, 0x1e, 0xdf, 0x34, 0xd2, 0x06, 0x96, 0x5e, 0x86, 0xb3, 0xe9, 0x4f, 0x53, 0x6e, 0x42, 0x46]

  lemma Packed()
    ensures Pack(KEY) == Words(0x01234567, 0x89abcdef, 0xfedcba98, 0x76543210)
    ensures Unpack(Words(0x681edf34, 0xd206965e, 0x86b3e94f, 0x536e4246)) == CIPHERTEXT
    ensures KeyState(KEY, 0) == Words(0xa292ffa1, 0xdf01febf, 0x99a12b0f, 0xc42410cc)
  {
    assert KEY[..4] == [0x01, 0x23, 0x45, 0x67] && KEY[4..8] == [0x89, 0xab, 0xcd, 0xef];
    assert KEY[8..12] == [0xfe, 0xdc, 0xba, 0x98] && KEY[12..] == [0x76, 0x54, 0x32, 0x10];
  }

  // ---- the key rounds

  lemma CkValues0()
    ensures Ck(0) == 0x00070e15 && Ck(1) == 0x1c232a31 && Ck(2) == 0x383f464d && Ck(3) == 0x545b6269
    ensures Ck(4) == 0x70777e85 && Ck(5) == 0x8c939aa1 && Ck(6) == 0xa8afb6bd && Ck(7) == 0xc4cbd2d9
  {}

  lemma CkValues1()
    ensures Ck(8) == 0xe0e7eef5 && Ck(9) == 0xfc030a11 && Ck(10) == 0x181f262d && Ck(11) == 0x343b4249
    ensures Ck(12) == 0x50575e65 && Ck(13) == 0x6c737a81 && Ck(14) == 0x888f969d && Ck(15) == 0xa4abb2b9
  {}

  lemma CkValues2()
    ensures Ck(16) == 0xc0c7ced5 && Ck(17) == 0xdce3eaf1 && Ck(18) == 0xf8ff060d && Ck(19) == 0x141b2229
    ensures Ck(20) == 0x30373e45 && Ck(21) == 0x4c535a61 && Ck(22) == 0x686f767d && Ck(23) == 0x848b9299
  {}

  lemma CkValues3()
    ensures Ck(24) == 0xa0a7aeb5 && Ck(25) == 0xbcc3cad1 && Ck(26) == 0xd8dfe6ed && Ck(27) == 0xf4fb0209
    ensures Ck(28) == 0x10171e25 && Ck(29) == 0x2c333a41 && Ck(30) == 0x484f565d && Ck(31) == 0x646b7279
  {}

  lemma KeyBytes0()
    ensures Substitute(0x8283cb69) == 0x8ad24122
  {}

  lemma Key0()
    ensures KeyRound(Words(0xa292ffa1, 0xdf01febf, 0x99a12b0f, 0xc42410cc), 0x00070e15)
         == Words(0xdf01febf, 0x99a12b0f, 0xc42410cc, 0xf12186f9)
  {
    hide Substitute;
    KeyBytes0();
  }

  lemma KeyBytes1()
    ensures Substitute(0xb087970b) == 0xd5b555c2
  {}

  lemma Key1()
    ensures KeyRound(Words(0xdf01febf, 0x99a12b0f, 0xc42410cc, 0xf12186f9), 0x1c232a31)
         == Words(0x99a12b0f, 0xc42410cc, 0xf12186f9, 0x41662b61)
  {
    hide Substitute;
    KeyBytes1();
  }

  lemma KeyBytes2()
    ensures Substitute(0x4c5cfb19) == 0xe6703e44
  {}

  lemma Key2()
    ensures KeyRound(Words(0x99a12b0f, 0xc42410cc, 0xf12186f9, 0x41662b61), 0x383f464d)
         == Words(0xc42410cc, 0xf12186f9, 0x41662b61, 0x5a6ab19a)
  {
    hide Substitute;
    KeyBytes2();
  }

  lemma KeyBytes3()
    ensures Substitute(0xbe767e6b) == 0x5b27c83b
  {}

  lemma Key3()
    ensures KeyRound(Words(0xc42410cc, 0xf12186f9, 0x41662b61, 0x5a6ab19a), 0x545b6269)
         == Words(0xf12186f9, 0x41662b61, 0x5a6ab19a, 0x7ba92077)
  {
    hide Substitute;
    KeyBytes3();
  }

  lemma KeyBytes4()
    ensures Substitute(0x10d2c409) == 0x2b31bbb6
  {}

  lemma Key4()
    ensures KeyRound(Words(0xf12186f9, 0x41662b61, 0x5a6ab19a, 0x7ba92077), 0x70777e85)
         == Words(0x41662b61, 0x5a6ab19a, 0x7ba92077, 0x367360f4)
  {
    hide Substitute;
    KeyBytes4();
  }

  lemma KeyBytes5()
    ensures Substitute(0x9b236bb8) == 0x30f43b03
  {}

  lemma Key5()
    ensures KeyRound(Words(0x41662b61, 0x5a6ab19a, 0x7ba92077, 0x367360f4), 0x8c939aa1)
         == Words(0x5a6ab19a, 0x7ba92077, 0x367360f4, 0x776a0c61)
  {
    hide Substitute;
    KeyBytes5();
  }

  lemma KeyBytes6()
    ensures Substitute(0x921ffa5f) == 0x5d995f35
  {}

  lemma Key6()
    ensures KeyRound(Words(0x5a6ab19a, 0x7ba92077, 0x367360f4, 0x776a0c61), 0xa8afb6bd)
         == Words(0x7ba92077, 0x367360f4, 0x776a0c61, 0xb6bb89b3)
  {
    hide Substitute;
    KeyBytes6();
  }

  lemma KeyBytes7()
    ensures Substitute(0x336937ff) == 0xa9229548
  {}

  lemma Key7()
    ensures KeyRound(Words(0x7ba92077, 0x367360f4, 0x776a0c61, 0xb6bb89b3), 0xc4cbd2d9)
         == Words(0x367360f4, 0x776a0c61, 0xb6bb89b3, 0x24763151)
  {
    hide Substitute;
    KeyBytes7();
  }

  lemma KeyBytes8()
    ensures Substitute(0x05405a76) == 0xe1470f27
  {}

  lemma Key8()
    ensures KeyRound(Words(0x367360f4, 0x776a0c61, 0xb6bb89b3, 0x24763151), 0xe0e7eef5)
         == Words(0x776a0c61, 0xb6bb89b3, 0x24763151, 0xa520307c)
  {
    hide Substitute;
    KeyBytes8();
  }

  lemma KeyBytes9()
    ensures Substitute(0xcbee828f) == 0x41c68aa1
  {}

  lemma Key9()
    ensures KeyRound(Words(0x776a0c61, 0xb6bb89b3, 0x24763151, 0xa520307c), 0xfc030a11)
         == Words(0xb6bb89b3, 0x24763151, 0xa520307c, 0xb7584dbd)
  {
    hide Substitute;
    KeyBytes9();
  }

  lemma KeyBytes10()
    ensures Substitute(0x2e116abd) == 0xac677c6c
  {}

  lemma Key10()
    ensures KeyRound(Words(0xb6bb89b3, 0x24763151, 0xa520307c, 0xb7584dbd), 0x181f262d)
         == Words(0x24763151, 0xa520307c, 0xb7584dbd, 0xc30753ed)
  {
    hide Substitute;
    KeyBytes10();
  }

  lemma KeyBytes11()
    ensures Substitute(0xe5446c65) == 0x96f30158
  {}

  lemma Key11()
    ensures KeyRound(Words(0x24763151, 0xa520307c, 0xb7584dbd, 0xc30753ed), 0x343b4249)
         == Words(0xa520307c, 0xb7584dbd, 0xc30753ed, 0x7ee55b57)
  {
    hide Substitute;
    KeyBytes11();
  }

  lemma KeyBytes12()
    ensures Substitute(0x5aed1b62) == 0x0f6e260e
  {}

  lemma Key12()
    ensures KeyRound(Words(0xa520307c, 0xb7584dbd, 0xc30753ed, 0x7ee55b57), 0x50575e65)
         == Words(0xb7584dbd, 0xc30753ed, 0x7ee55b57, 0x6988608c)
  {
    hide Substitute;
    KeyBytes12();
  }

  lemma KeyBytes13()
    ensures Substitute(0xb81912b7) == 0x03449a2f
  {}

  lemma Key13()
    ensures KeyRound(Words(0xb7584dbd, 0xc30753ed, 0x7ee55b57, 0x6988608c), 0x6c737a81)
         == Words(0xc30753ed, 0x7ee55b57, 0x6988608c, 0x30d895b7)
  {
    hide Substitute;
    KeyBytes13();
  }

  lemma KeyBytes14()
    ensures Substitute(0xaf3a38f1) == 0x6f9480f0
  {}

  lemma Key14()
    ensures KeyRound(Words(0xc30753ed, 0x7ee55b57, 0x6988608c, 0x30d895b7), 0x888f969d)
         == Words(0x7ee55b57, 0x6988608c, 0x30d895b7, 0x44ba14af)
  {
    hide Substitute;
    KeyBytes14();
  }

  lemma KeyBytes15()
    ensures Substitute(0xb941532d) == 0xff07b2cf
  {}

  lemma Key15()
    ensures KeyRound(Words(0x7ee55b57, 0x6988608c, 0x30d895b7, 0x44ba14af), 0xa4abb2b9)
         == Words(0x6988608c, 0x30d895b7, 0x44ba14af, 0x104495a1)
  {
    hide Substitute;
    KeyBytes15();
  }

  lemma KeyBytes16()
    ensures Substitute(0xa4e1da6c) == 0x8269d001
  {}

  lemma Key16()
    ensures KeyRound(Words(0x6988608c, 0x30d895b7, 0x44ba14af, 0x104495a1), 0xc0c7ced5)
         == Words(0x30d895b7, 0x44ba14af, 0x104495a1, 0xd120b428)
  {
    hide Substitute;
    KeyBytes16();
  }

  lemma KeyBytes17()
    ensures Substitute(0x593ddfd7) == 0xeb8fb0bd
  {}

  lemma Key17()
    ensures KeyRound(Words(0x30d895b7, 0x44ba14af, 0x104495a1, 0xd120b428), 0xdce3eaf1)
         == Words(0x44ba14af, 0x104495a1, 0xd120b428, 0x73b55fa3)
  {
    hide Substitute;
    KeyBytes17();
  }

  lemma KeyBytes18()
    ensures Substitute(0x4a2e7827) == 0x3cac4c7a
  {}

  lemma Key18()
    ensures KeyRound(Words(0x44ba14af, 0x104495a1, 0xd120b428, 0x73b55fa3), 0xf8ff060d)
         == Words(0x104495a1, 0xd120b428, 0x73b55fa3, 0xcc874966)
  {
    hide Substitute;
    KeyBytes18();
  }

  lemma KeyBytes19()
    ensures Substitute(0x7a0980c4) == 0x02b6eabb
  {}

  lemma Key19()
    ensures KeyRound(Words(0x104495a1, 0xd120b428, 0x73b55fa3, 0xcc874966), 0x141b2229)
         == Words(0xd120b428, 0x73b55fa3, 0xcc874966, 0x92244439)
  {
    hide Substitute;
    KeyBytes19();
  }

  lemma KeyBytes20()
    ensures Substitute(0x1d216cb9) == 0x864201ff
  {}

  lemma Key20()
    ensures KeyRound(Words(0xd120b428, 0x73b55fa3, 0xcc874966, 0x92244439), 0x30373e45)
         == Words(0x73b55fa3, 0xcc874966, 0x92244439, 0xe89e641f)
  {
    hide Substitute;
    KeyBytes20();
  }

  lemma KeyBytes21()
    ensures Substitute(0xfa6e3321) == 0x5f78a942
  {}

  lemma Key21()
    ensures KeyRound(Words(0x73b55fa3, 0xcc874966, 0x92244439, 0xe89e641f), 0x4c535a61)
         == Words(0xcc874966, 0x92244439, 0xe89e641f, 0x98ca015a)
  {
    hide Substitute;
    KeyBytes21();
  }

  lemma KeyBytes22()
    ensures Substitute(0x8a1f5701) == 0xf2998b90
  {}

  lemma Key22()
    ensures KeyRound(Words(0xcc874966, 0x92244439, 0xe89e641f, 0x98ca015a), 0x686f767d)
         == Words(0x92244439, 0xe89e641f, 0x98ca015a, 0xc7159060)
  {
    hide Substitute;
    KeyBytes22();
  }

  lemma KeyBytes23()
    ensures Substitute(0x33ca67bc) == 0xa95ca26d
  {}

  lemma Key23()
    ensures KeyRound(Words(0x92244439, 0xe89e641f, 0x98ca015a, 0xc7159060), 0x848b9299)
         == Words(0xe89e641f, 0x98ca015a, 0xc7159060, 0x99e1fd2e)
  {
    hide Substitute;
    KeyBytes23();
  }

  lemma KeyBytes24()
    ensures Substitute(0x6699c2a1) == 0xd193aff6
  {}

  lemma Key24()
    ensures KeyRound(Words(0xe89e641f, 0x98ca015a, 0xc7159060, 0x99e1fd2e), 0xa0a7aeb5)
         == Words(0x98ca015a, 0xc7159060, 0x99e1fd2e, 0xb79bd80c)
  {
    hide Substitute;
    KeyBytes24();
  }

  lemma KeyBytes25()
    ensures Substitute(0x55ac7f93) == 0x640d9ea4
  {}

  lemma Key25()
    ensures KeyRound(Words(0x98ca015a, 0xc7159060, 0x99e1fd2e, 0xb79bd80c), 0xbcc3cad1)
         == Words(0xc7159060, 0x99e1fd2e, 0xb79bd80c, 0x1d2115b0)
  {
    hide Substitute;
    KeyBytes25();
  }

  lemma KeyBytes26()
    ensures Substitute(0xeb84d67f) == 0x09407b9e
  {}

  lemma Key26()
    ensures KeyRound(Words(0xc7159060, 0x99e1fd2e, 0xb79bd80c, 0x1d2115b0), 0xd8dfe6ed)
         == Words(0x99e1fd2e, 0xb79bd80c, 0x1d2115b0, 0x0e228aeb)
  {
    hide Substitute;
    KeyBytes26();
  }

  lemma KeyBytes27()
    ensures Substitute(0x5063455e) == 0x685e739d
  {}

  lemma Key27()
    ensures KeyRound(Words(0x99e1fd2e, 0xb79bd80c, 0x1d2115b0, 0x0e228aeb), 0xf4fb0209)
         == Words(0xb79bd80c, 0x1d2115b0, 0x0e228aeb, 0xf1780c81)
  {
    hide Substitute;
    KeyBytes27();
  }

  lemma KeyBytes28()
    ensures Substitute(0xf26c8dff) == 0x7d016148
  {}

  lemma Key28()
    ensures KeyRound(Words(0xb79bd80c, 0x1d2115b0, 0x0e228aeb, 0xf1780c81), 0x10171e25)
         == Words(0x1d2115b0, 0x0e228aeb, 0xf1780c81, 0x428d3654)
  {
    hide Substitute;
    KeyBytes28();
  }

  lemma KeyBytes29()
    ensures Substitute(0x91e48a7f) == 0xae0cf29e
  {}

  lemma Key29()
    ensures KeyRound(Words(0x1d2115b0, 0x0e228aeb, 0xf1780c81, 0x428d3654), 0x2c333a41)
         == Words(0x0e228aeb, 0xf1780c81, 0x428d3654, 0x62293496)
  {
    hide Substitute;
    KeyBytes29();
  }

  lemma KeyBytes30()
    ensures Substitute(0x9993581e) == 0x93a4f806
  {}

  lemma Key30()
    ensures KeyRound(Words(0x0e228aeb, 0xf1780c81, 0x428d3654, 0x62293496), 0x484f565d)
         == Words(0xf1780c81, 0x428d3654, 0x62293496, 0x01cf72e5)
  {
    hide Substitute;
    KeyBytes30();
  }

  lemma KeyBytes31()
    ensures Substitute(0x4500025e) == 0x73d6e99d
  {}

  lemma Key31()
    ensures KeyRound(Words(0xf1780c81, 0x428d3654, 0x62293496, 0x01cf72e5), 0x646b7279)
         == Words(0x428d3654, 0x62293496, 0x01cf72e5, 0x9124a012)
  {
    hide Substitute;
    KeyBytes31();
  }

  // ---- the rounds

  lemma RoundBytes0()
    ensures Substitute(0xf002c39e) == 0x18e992b1
  {}

  lemma Round0()
    ensures Round(Words(0x01234567, 0x89abcdef, 0xfedcba98, 0x76543210), 0xf12186f9)
         == Words(0x89abcdef, 0xfedcba98, 0x76543210, 0x27fad345)
  {
    hide Substitute;
    RoundBytes0();
  }

  lemma RoundBytes1()
    ensures Substitute(0xee1470ac) == 0xc62ad40d
  {}

  lemma Round1()
    ensures Round(Words(0x89abcdef, 0xfedcba98, 0x76543210, 0x27fad345), 0x41662b61)
         == Words(0xfedcba98, 0x76543210, 0x27fad345, 0xa18b4cb2)
  {
    hide Substitute;
    RoundBytes1();
  }

  lemma RoundBytes2()
    ensures Substitute(0xaa4f1c7d) == 0x23a849c4
  {}

  lemma Round2()
    ensures Round(Words(0xfedcba98, 0x76543210, 0x27fad345, 0xa18b4cb2), 0x5a6ab19a)
         == Words(0x76543210, 0x27fad345, 0xa18b4cb2, 0x11c1e22a)
  {
    hide Substitute;
    RoundBytes2();
  }

  lemma RoundBytes3()
    ensures Substitute(0xec195daa) == 0xc5445623
  {}

  lemma Round3()
    ensures Round(Words(0x76543210, 0x27fad345, 0xa18b4cb2, 0x11c1e22a), 0x7ba92077)
         == Words(0x27fad345, 0xa18b4cb2, 0x11c1e22a, 0xcc13e2ee)
  {
    hide Substitute;
    RoundBytes3();
  }

  lemma RoundBytes4()
    ensures Substitute(0x4a2a2c82) == 0x3c0bed8a
  {}

  lemma Round4()
    ensures Round(Words(0x27fad345, 0xa18b4cb2, 0x11c1e22a, 0xcc13e2ee), 0x367360f4)
         == Words(0xa18b4cb2, 0x11c1e22a, 0xcc13e2ee, 0xf87c5bd5)
  {
    hide Substitute;
    RoundBytes4();
  }

  lemma RoundBytes5()
    ensures Substitute(0x52c45770) == 0x81bb8bd4
  {}

  lemma Round5()
    ensures Round(Words(0xa18b4cb2, 0x11c1e22a, 0xcc13e2ee, 0xf87c5bd5), 0x776a0c61)
         == Words(0x11c1e22a, 0xcc13e2ee, 0xf87c5bd5, 0x33220757)
  {
    hide Substitute;
    RoundBytes5();
  }

  lemma RoundBytes6()
    ensures Substitute(0xb1f637df) == 0xdb4d95b0
  {}

  lemma Round6()
    ensures Round(Words(0x11c1e22a, 0xcc13e2ee, 0xf87c5bd5, 0x33220757), 0xb6bb89b3)
         == Words(0xcc13e2ee, 0xf87c5bd5, 0x33220757, 0x77f4c297)
  {
    hide Substitute;
    RoundBytes6();
  }

  lemma RoundBytes7()
    ensures Substitute(0x98dcaf44) == 0xadb86ff3
  {}

  lemma Round7()
    ensures Round(Words(0xcc13e2ee, 0xf87c5bd5, 0x33220757, 0x77f4c297), 0x24763151)
         == Words(0xf87c5bd5, 0x33220757, 0x77f4c297, 0x7a96f2eb)
  {
    hide Substitute;
    RoundBytes7();
  }

  lemma RoundBytes8()
    ensures Substitute(0x9b600757) == 0x301eb78b
  {}

  lemma Round8()
    ensures Round(Words(0xf87c5bd5, 0x33220757, 0x77f4c297, 0x7a96f2eb), 0xa520307c)
         == Words(0x33220757, 0x77f4c297, 0x7a96f2eb, 0x27dac07f)
  {
    hide Substitute;
    RoundBytes8();
  }

  lemma RoundBytes9()
    ensures Substitute(0x9de0bdbe) == 0x8c896c5b
  {}

  lemma Round9()
    ensures Round(Words(0x33220757, 0x77f4c297, 0x7a96f2eb, 0x27dac07f), 0xb7584dbd)
         == Words(0x77f4c297, 0x7a96f2eb, 0x27dac07f, 0x42dd0f19)
  {
    hide Substitute;
    RoundBytes9();
  }

  lemma RoundBytes10()
    ensures Substitute(0xdc966e60) == 0xb81a781e
  {}

  lemma Round10()
    ensures Round(Words(0x77f4c297, 0x7a96f2eb, 0x27dac07f, 0x42dd0f19), 0xc30753ed)
         == Words(0x7a96f2eb, 0x27dac07f, 0x42dd0f19, 0xb8a5da02)
  {
    hide Substitute;
    RoundBytes10();
  }

  lemma RoundBytes11()
    ensures Substitute(0xa3474e33) == 0x2eba4fa9
  {}

  lemma Round11()
    ensures Round(Words(0x7a96f2eb, 0x27dac07f, 0x42dd0f19, 0xb8a5da02), 0x7ee55b57)
         == Words(0x27dac07f, 0x42dd0f19, 0xb8a5da02, 0x907127fa)
  {
    hide Substitute;
    RoundBytes11();
  }

  lemma RoundBytes12()
    ensures Substitute(0x0381926d) == 0xfebf5d21
  {}

  lemma Round12()
    ensures Round(Words(0x27dac07f, 0x42dd0f19, 0xb8a5da02, 0x907127fa), 0x6988608c)
         == Words(0x42dd0f19, 0xb8a5da02, 0x907127fa, 0x8b952b83)
  {
    hide Substitute;
    RoundBytes12();
  }

  lemma RoundBytes13()
    ensures Substitute(0x939943cc) == 0xa493fc1f
  {}

  lemma Round13()
    ensures Round(Words(0x42dd0f19, 0xb8a5da02, 0x907127fa, 0x8b952b83), 0x30d895b7)
         == Words(0xb8a5da02, 0x907127fa, 0x8b952b83, 0xd42b7c59)
  {
    hide Substitute;
    RoundBytes13();
  }

  lemma RoundBytes14()
    ensures Substitute(0x8b75648f) == 0xced363a1
  {}

  lemma Round14()
    ensures Round(Words(0xb8a5da02, 0x907127fa, 0x8b952b83, 0xd42b7c59), 0x44ba14af)
         == Words(0x907127fa, 0x8b952b83, 0xd42b7c59, 0x2ffc5831)
  {
    hide Substitute;
    RoundBytes14();
  }

  lemma RoundBytes15()
    ensures Substitute(0x60069a4a) == 0x1e3d323c
  {}

  lemma Round15()
    ensures Round(Words(0x907127fa, 0x8b952b83, 0xd42b7c59, 0x2ffc5831), 0x104495a1)
         == Words(0x8b952b83, 0xd42b7c59, 0x2ffc5831, 0xf69e6888)
  {
    hide Substitute;
    RoundBytes15();
  }

  lemma RoundBytes16()
    ensures Substitute(0xdc69f8c8) == 0xb8227911
  {}

  lemma Round16()
    ensures Round(Words(0x8b952b83, 0xd42b7c59, 0x2ffc5831, 0xf69e6888), 0xd120b428)
         == Words(0xd42b7c59, 0x2ffc5831, 0xf69e6888, 0xaf2432c4)
  {
    hide Substitute;
    RoundBytes16();
  }

  lemma RoundBytes17()
    ensures Substitute(0x05f35dde) == 0xe1ec56b4
  {}

  lemma Round17()
    ensures Round(Words(0xd42b7c59, 0x2ffc5831, 0xf69e6888, 0xaf2432c4), 0x73b55fa3)
         == Words(0x2ffc5831, 0xf69e6888, 0xaf2432c4, 0xed1ec85e)
  {
    hide Substitute;
    RoundBytes17();
  }

  lemma RoundBytes18()
    ensures Substitute(0x7823db74) == 0x4cf4129f
  {}

  lemma Round18()
    ensures Round(Words(0x2ffc5831, 0xf69e6888, 0xaf2432c4, 0xed1ec85e), 0xcc874966)
         == Words(0xf69e6888, 0xaf2432c4, 0xed1ec85e, 0x55a3ba22)
  {
    hide Substitute;
    RoundBytes18();
  }

  lemma RoundBytes19()
    ensures Substitute(0x85bd0481) == 0xc76cccbf
  {}

  lemma Round19()
    ensures Round(Words(0xf69e6888, 0xaf2432c4, 0xed1ec85e, 0x55a3ba22), 0x92244439)
         == Words(0xaf2432c4, 0xed1ec85e, 0x55a3ba22, 0x124b18aa)
  {
    hide Substitute;
    RoundBytes19();
  }

  lemma RoundBytes20()
    ensures Substitute(0x42680ec9) == 0xa7252cd9
  {}

  lemma Round20()
    ensures Round(Words(0xaf2432c4, 0xed1ec85e, 0x55a3ba22, 0x124b18aa), 0xe89e641f)
         == Words(0xed1ec85e, 0x55a3ba22, 0x124b18aa, 0x6ae7725f)
  {
    hide Substitute;
    RoundBytes20();
  }

  lemma RoundBytes21()
    ensures Substitute(0xb5c5d18d) == 0xfdddc161
  {}

  lemma Round21()
    ensures Round(Words(0xed1ec85e, 0x55a3ba22, 0x124b18aa, 0x6ae7725f), 0x98ca015a)
         == Words(0x55a3ba22, 0x124b18aa, 0x6ae7725f, 0xf4cba1f9)
  {
    hide Substitute;
    RoundBytes21();
  }

  lemma RoundBytes22()
    ensures Substitute(0x4b725b6c) == 0x19464b01
  {}

  lemma Round22()
    ensures Round(Words(0x55a3ba22, 0x124b18aa, 0x6ae7725f, 0xf4cba1f9), 0xc7159060)
         == Words(0x124b18aa, 0x6ae7725f, 0xf4cba1f9, 0x1dcdfa10)
  {
    hide Substitute;
    RoundBytes22();
  }

  lemma RoundBytes23()
    ensures Substitute(0x1a00d498) == 0x13d6a5ad
  {}

  lemma Round23()
    ensures Round(Words(0x124b18aa, 0x6ae7725f, 0xf4cba1f9, 0x1dcdfa10), 0x99e1fd2e)
         == Words(0x6ae7725f, 0xf4cba1f9, 0x1dcdfa10, 0x2ff60603)
  {
    hide Substitute;
    RoundBytes23();
  }

  lemma RoundBytes24()
    ensures Substitute(0x716b85e6) == 0x003bc777
  {}

  lemma Round24()
    ensures Round(Words(0x6ae7725f, 0xf4cba1f9, 0x1dcdfa10, 0x2ff60603), 0xb79bd80c)
         == Words(0xf4cba1f9, 0x1dcdfa10, 0x2ff60603, 0xeff24fdc)
  {
    hide Substitute;
    RoundBytes24();
  }

  lemma RoundBytes25()
    ensures Substitute(0xc0e8a67f) == 0x8d65ca9e
  {}

  lemma Round25()
    ensures Round(Words(0xf4cba1f9, 0x1dcdfa10, 0x2ff60603, 0xeff24fdc), 0x1d2115b0)
         == Words(0x1dcdfa10, 0x2ff60603, 0xeff24fdc, 0x6fe46b75)
  {
    hide Substitute;
    RoundBytes25();
  }

  lemma RoundBytes26()
    ensures Substitute(0xa1c2a841) == 0xf6afc007
  {}

  lemma Round26()
    ensures Round(Words(0x1dcdfa10, 0x2ff60603, 0xeff24fdc, 0x6fe46b75), 0x0e228aeb)
         == Words(0x2ff60603, 0xeff24fdc, 0x6fe46b75, 0x893450ad)
  {
    hide Substitute;
    RoundBytes26();
  }

  lemma RoundBytes27()
    ensures Substitute(0xf85a7885) == 0x790f4cc7
  {}

  lemma Round27()
    ensures Round(Words(0x2ff60603, 0xeff24fdc, 0x6fe46b75, 0x893450ad), 0xf1780c81)
         == Words(0xeff24fdc, 0x6fe46b75, 0x893450ad, 0x7b938f4c)
  {
    hide Substitute;
    RoundBytes27();
  }

  lemma RoundBytes28()
    ensures Substitute(0xdfce82c0) == 0xb05a8a8d
  {}

  lemma Round28()
    ensures Round(Words(0xeff24fdc, 0x6fe46b75, 0x893450ad, 0x7b938f4c), 0x428d3654)
         == Words(0x6fe46b75, 0x893450ad, 0x7b938f4c, 0x536e4246)
  {
    hide Substitute;
    RoundBytes28();
  }

  lemma RoundBytes29()
    ensures Substitute(0xc3e0a931) == 0x928929b3
  {}

  lemma Round29()
    ensures Round(Words(0x6fe46b75, 0x893450ad, 0x7b938f4c, 0x536e4246), 0x62293496)
         == Words(0x893450ad, 0x7b938f4c, 0x536e4246, 0x86b3e94f)
  {
    hide Substitute;
    RoundBytes29();
  }

  lemma RoundBytes30()
    ensures Substitute(0xaf8156a0) == 0x6fbfda1d
  {}

  lemma Round30()
    ensures Round(Words(0x893450ad, 0x7b938f4c, 0x536e4246, 0x86b3e94f), 0x01cf72e5)
         == Words(0x7b938f4c, 0x536e4246, 0x86b3e94f, 0xd206965e)
  {
    hide Substitute;
    RoundBytes30();
  }

  lemma RoundBytes31()
    ensures Substitute(0x96ff9d45) == 0x1a488c73
  {}

  lemma Round31()
    ensures Round(Words(0x7b938f4c, 0x536e4246, 0x86b3e94f, 0xd206965e), 0x9124a012)
         == Words(0x536e4246, 0x86b3e94f, 0xd206965e, 0x681edf34)
  {
    hide Substitute;
    RoundBytes31();
  }

  /** The round keys the standard prints. */
  function Keys(): (ks: seq<word>)
    ensures |ks| == 32
  {
    [0xf12186f9, 0x41662b61, 0x5a6ab19a, 0x7ba92077, 0x367360f4, 0x776a0c61, 0xb6bb89b3, 0x24763151,
     0xa520307c, 0xb7584dbd, 0xc30753ed, 0x7ee55b57, 0x6988608c, 0x30d895b7, 0x44ba14af, 0x104495a1,
     0xd120b428, 0x73b55fa3, 0xcc874966, 0x92244439, 0xe89e641f, 0x98ca015a, 0xc7159060, 0x99e1fd2e,
     0xb79bd80c, 0x1d2115b0, 0x0e228aeb, 0xf1780c81, 0x428d3654, 0x62293496, 0x01cf72e5, 0x9124a012]
  }

  lemma KeyStep(key: Block, n: nat, s: Words, c: word, t: Words)
    requires n < 32 && KeyState(key, n) == s && Ck(n) == c && KeyRound(s, c) == t
    ensures KeyState(key, n + 1) == t && SubKey(key, n) == t.d
  {
    hide KeyRound, Ck, KeyStart;
  }

  predicate KeyIs(key: Block, n: nat, s: Words) { n <= 32 && KeyState(key, n) == s }

  lemma KeysFrom0(key: Block, n: nat)
    requires n == 0 && KeyIs(key, n, Words(0xa292ffa1, 0xdf01febf, 0x99a12b0f, 0xc42410cc))
    ensures n == 8 - 8 && KeyIs(key, n + 8, Words(0x367360f4, 0x776a0c61, 0xb6bb89b3, 0x24763151))
    ensures forall i :: 0 <= i < 8 ==> SubKey(key, i) == Keys()[i]
  {
    hide KeyState, SubKey, KeyStart, Pack, Unpack, KeyRound, Ck;
    CkValues0();
    Key0();
    KeyStep(key, 0, Words(0xa292ffa1, 0xdf01febf, 0x99a12b0f, 0xc42410cc), 0x00070e15,
            Words(0xdf01febf, 0x99a12b0f, 0xc42410cc, 0xf12186f9));
    Key1();
    KeyStep(key, 1, Words(0xdf01febf, 0x99a12b0f, 0xc42410cc, 0xf12186f9), 0x1c232a31,
            Words(0x99a12b0f, 0xc42410cc, 0xf12186f9, 0x41662b61));
    Key2();
    KeyStep(key, 2, Words(0x99a12b0f, 0xc42410cc, 0xf12186f9, 0x41662b61), 0x383f464d,
            Words(0xc42410cc, 0xf12186f9, 0x41662b61, 0x5a6ab19a));
    Key3();
    KeyStep(key, 3, Words(0xc42410cc, 0xf12186f9, 0x41662b61, 0x5a6ab19a), 0x545b6269,
            Words(0xf12186f9, 0x41662b61, 0x5a6ab19a, 0x7ba92077));
    Key4();
    KeyStep(key, 4, Words(0xf12186f9, 0x41662b61, 0x5a6ab19a, 0x7ba92077), 0x70777e85,
            Words(0x41662b61, 0x5a6ab19a, 0x7ba92077, 0x367360f4));
    Key5();
    KeyStep(key, 5, Words(0x41662b61, 0x5a6ab19a, 0x7ba92077, 0x367360f4), 0x8c939aa1,
            Words(0x5a6ab19a, 0x7ba92077, 0x367360f4, 0x776a0c61));
    Key6();
    KeyStep(key, 6, Words(0x5a6ab19a, 0x7ba92077, 0x367360f4, 0x776a0c61), 0xa8afb6bd,
            Words(0x7ba92077, 0x367360f4, 0x776a0c61, 0xb6bb89b3));
    Key7();
    KeyStep(key, 7, Words(0x7ba92077, 0x367360f4, 0x776a0c61, 0xb6bb89b3), 0xc4cbd2d9,
            Words(0x367360f4, 0x776a0c61, 0xb6bb89b3, 0x24763151));
  }

  lemma KeysFrom1(key: Block, n: nat)
    requires n == 8 && KeyIs(key, n, Words(0x367360f4, 0x776a0c61, 0xb6bb89b3, 0x24763151))
    ensures n == 16 - 8 && KeyIs(key, n + 8, Words(0x6988608c, 0x30d895b7, 0x44ba14af, 0x104495a1))
    ensures forall i :: 8 <= i < 16 ==> SubKey(key, i) == Keys()[i]
  {
    hide KeyState, SubKey, KeyStart, Pack, Unpack, KeyRound, Ck;
    CkValues1();
    Key8();
    KeyStep(key, 8, Words(0x367360f4, 0x776a0c61, 0xb6bb89b3, 0x24763151), 0xe0e7eef5,
            Words(0x776a0c61, 0xb6bb89b3, 0x24763151, 0xa520307c));
    Key9();
    KeyStep(key, 9, Words(0x776a0c61, 0xb6bb89b3, 0x24763151, 0xa520307c), 0xfc030a11,
            Words(0xb6bb89b3, 0x24763151, 0xa520307c, 0xb7584dbd));
    Key10();
    KeyStep(key, 10, Words(0xb6bb89b3, 0x24763151, 0xa520307c, 0xb7584dbd), 0x181f262d,
            Words(0x24763151, 0xa520307c, 0xb7584dbd, 0xc30753ed));
    Key11();
    KeyStep(key, 11, Words(0x24763151, 0xa520307c, 0xb7584dbd, 0xc30753ed), 0x343b4249,
            Words(0xa520307c, 0xb7584dbd, 0xc30753ed, 0x7ee55b57));
    Key12();
    KeyStep(key, 12, Words(0xa520307c, 0xb7584dbd, 0xc30753ed, 0x7ee55b57), 0x50575e65,
            Words(0xb7584dbd, 0xc30753ed, 0x7ee55b57, 0x6988608c));
    Key13();
    KeyStep(key, 13, Words(0xb7584dbd, 0xc30753ed, 0x7ee55b57, 0x6988608c), 0x6c737a81,
            Words(0xc30753ed, 0x7ee55b57, 0x6988608c, 0x30d895b7));
    Key14();
    KeyStep(key, 14, Words(0xc30753ed, 0x7ee55b57, 0x6988608c, 0x30d895b7), 0x888f969d,
            Words(0x7ee55b57, 0x6988608c, 0x30d895b7, 0x44ba14af));
    Key15();
    KeyStep(key, 15, Words(0x7ee55b57, 0x6988608c, 0x30d895b7, 0x44ba14af), 0xa4abb2b9,
            Words(0x6988608c, 0x30d895b7, 0x44ba14af, 0x104495a1));
  }

  lemma KeysFrom2(key: Block, n: nat)
    requires n == 16 && KeyIs(key, n, Words(0x6988608c, 0x30d895b7, 0x44ba14af, 0x104495a1))
    ensures n == 24 - 8 && KeyIs(key, n + 8, Words(0xe89e641f, 0x98ca015a, 0xc7159060, 0x99e1fd2e))
    ensures forall i :: 16 <= i < 24 ==> SubKey(key, i) == Keys()[i]
  {
    hide KeyState, SubKey, KeyStart, Pack, Unpack, KeyRound, Ck;
    CkValues2();
    Key16();
    KeyStep(key, 16, Words(0x6988608c, 0x30d895b7, 0x44ba14af, 0x104495a1), 0xc0c7ced5,
            Words(0x30d895b7, 0x44ba14af, 0x104495a1, 0xd120b428));
    Key17();
    KeyStep(key, 17, Words(0x30d895b7, 0x44ba14af, 0x104495a1, 0xd120b428), 0xdce3eaf1,
            Words(0x44ba14af, 0x104495a1, 0xd120b428, 0x73b55fa3));
    Key18();
    KeyStep(key, 18, Words(0x44ba14af, 0x104495a1, 0xd120b428, 0x73b55fa3), 0xf8ff060d,
            Words(0x104495a1, 0xd120b428, 0x73b55fa3, 0xcc874966));
    Key19();
    KeyStep(key, 19, Words(0x104495a1, 0xd120b428, 0x73b55fa3, 0xcc874966), 0x141b2229,
            Words(0xd120b428, 0x73b55fa3, 0xcc874966, 0x92244439));
    Key20();
    KeyStep(key, 20, Words(0xd120b428, 0x73b55fa3, 0xcc874966, 0x92244439), 0x30373e45,
            Words(0x73b55fa3, 0xcc874966, 0x92244439, 0xe89e641f));
    Key21();
    KeyStep(key, 21, Words(0x73b55fa3, 0xcc874966, 0x92244439, 0xe89e641f), 0x4c535a61,
            Words(0xcc874966, 0x92244439, 0xe89e641f, 0x98ca015a));
    Key22();
    KeyStep(key, 22, Words(0xcc874966, 0x92244439, 0xe89e641f, 0x98ca015a), 0x686f767d,
            Words(0x92244439, 0xe89e641f, 0x98ca015a, 0xc7159060));
    Key23();
    KeyStep(key, 23, Words(0x92244439, 0xe89e641f, 0x98ca015a, 0xc7159060), 0x848b9299,
            Words(0xe89e641f, 0x98ca015a, 0xc7159060, 0x99e1fd2e));
  }

  lemma KeysFrom3(key: Block, n: nat)
    requires n == 24 && KeyIs(key, n, Words(0xe89e641f, 0x98ca015a, 0xc7159060, 0x99e1fd2e))
    ensures n == 32 - 8 && KeyIs(key, n + 8, Words(0x428d3654, 0x62293496, 0x01cf72e5, 0x9124a012))
    ensures forall i :: 24 <= i < 32 ==> SubKey(key, i) == Keys()[i]
  {
    hide KeyState, SubKey, KeyStart, Pack, Unpack, KeyRound, Ck;
    CkValues3();
    Key24();
    KeyStep(key, 24, Words(0xe89e641f, 0x98ca015a, 0xc7159060, 0x99e1fd2e), 0xa0a7aeb5,
            Words(0x98ca015a, 0xc7159060, 0x99e1fd2e, 0xb79bd80c));
    Key25();
    KeyStep(key, 25, Words(0x98ca015a, 0xc7159060, 0x99e1fd2e, 0xb79bd80c), 0xbcc3cad1,
            Words(0xc7159060, 0x99e1fd2e, 0xb79bd80c, 0x1d2115b0));
    Key26();
    KeyStep(key, 26, Words(0xc7159060, 0x99e1fd2e, 0xb79bd80c, 0x1d2115b0), 0xd8dfe6ed,
            Words(0x99e1fd2e, 0xb79bd80c, 0x1d2115b0, 0x0e228aeb));
    Key27();
    KeyStep(key, 27, Words(0x99e1fd2e, 0xb79bd80c, 0x1d2115b0, 0x0e228aeb), 0xf4fb0209,
            Words(0xb79bd80c, 0x1d2115b0, 0x0e228aeb, 0xf1780c81));
    Key28();
    KeyStep(key, 28, Words(0xb79bd80c, 0x1d2115b0, 0x0e228aeb, 0xf1780c81), 0x10171e25,
            Words(0x1d2115b0, 0x0e228aeb, 0xf1780c81, 0x428d3654));
    Key29();
    KeyStep(key, 29, Words(0x1d2115b0, 0x0e228aeb, 0xf1780c81, 0x428d3654), 0x2c333a41,
            Words(0x0e228aeb, 0xf1780c81, 0x428d3654, 0x62293496));
    Key30();
    KeyStep(key, 30, Words(0x0e228aeb, 0xf1780c81, 0x428d3654, 0x62293496), 0x484f565d,
            Words(0xf1780c81, 0x428d3654, 0x62293496, 0x01cf72e5));
    Key31();
    KeyStep(key, 31, Words(0xf1780c81, 0x428d3654, 0x62293496, 0x01cf72e5), 0x646b7279,
            Words(0x428d3654, 0x62293496, 0x01cf72e5, 0x9124a012));
  }

  lemma KeysAre()
    ensures SubKeys(KEY) == Keys()
  {
    hide KeyState, SubKey, KeyStart, Pack, Unpack;
    Packed();
    KeysFrom0(KEY, 0);
    KeysFrom1(KEY, 8);
    KeysFrom2(KEY, 16);
    KeysFrom3(KEY, 24);
  }

  lemma KeyValues0()
    ensures Keys()[0] == 0xf12186f9 && Keys()[1] == 0x41662b61 && Keys()[2] == 0x5a6ab19a && Keys()[3] == 0x7ba92077
    ensures Keys()[4] == 0x367360f4 && Keys()[5] == 0x776a0c61 && Keys()[6] == 0xb6bb89b3 && Keys()[7] == 0x24763151
  {}

  lemma KeyValues1()
    ensures Keys()[8] == 0xa520307c && Keys()[9] == 0xb7584dbd && Keys()[10] == 0xc30753ed && Keys()[11] == 0x7ee55b57
    ensures Keys()[12] == 0x6988608c && Keys()[13] == 0x30d895b7 && Keys()[14] == 0x44ba14af && Keys()[15] == 0x104495a1
  {}

  lemma KeyValues2()
    ensures Keys()[16] == 0xd120b428 && Keys()[17] == 0x73b55fa3 && Keys()[18] == 0xcc874966 && Keys()[19] == 0x92244439
    ensures Keys()[20] == 0xe89e641f && Keys()[21] == 0x98ca015a && Keys()[22] == 0xc7159060 && Keys()[23] == 0x99e1fd2e
  {}

  lemma KeyValues3()
    ensures Keys()[24] == 0xb79bd80c && Keys()[25] == 0x1d2115b0 && Keys()[26] == 0x0e228aeb && Keys()[27] == 0xf1780c81
    ensures Keys()[28] == 0x428d3654 && Keys()[29] == 0x62293496 && Keys()[30] == 0x01cf72e5 && Keys()[31] == 0x9124a012
  {}

  lemma States0()
    requires Rounds(Pack(KEY), Keys()[..0]) == Words(0x01234567, 0x89abcdef, 0xfedcba98, 0x76543210)
    ensures Rounds(Pack(KEY), Keys()[..8]) == Words(0xf87c5bd5, 0x33220757, 0x77f4c297, 0x7a96f2eb)
  {
    hide Round, Rounds, Pack, Keys;
    KeyValues0();
    OneMore(Pack(KEY), Keys(), 0);
    Round0();
    OneMore(Pack(KEY), Keys(), 1);
    Round1();
    OneMore(Pack(KEY), Keys(), 2);
    Round2();
    OneMore(Pack(KEY), Keys(), 3);
    Round3();
    OneMore(Pack(KEY), Keys(), 4);
    Round4();
    OneMore(Pack(KEY), Keys(), 5);
    Round5();
    OneMore(Pack(KEY), Keys(), 6);
    Round6();
    OneMore(Pack(KEY), Keys(), 7);
    Round7();
  }

  lemma States1()
    requires Rounds(Pack(KEY), Keys()[..8]) == Words(0xf87c5bd5, 0x33220757, 0x77f4c297, 0x7a96f2eb)
    ensures Rounds(Pack(KEY), Keys()[..16]) == Words(0x8b952b83, 0xd42b7c59, 0x2ffc5831, 0xf69e6888)
  {
    hide Round, Rounds, Pack, Keys;
    KeyValues1();
    OneMore(Pack(KEY), Keys(), 8);
    Round8();
    OneMore(Pack(KEY), Keys(), 9);
    Round9();
    OneMore(Pack(KEY), Keys(), 10);
    Round10();
    OneMore(Pack(KEY), Keys(), 11);
    Round11();
    OneMore(Pack(KEY), Keys(), 12);
    Round12();
    OneMore(Pack(KEY), Keys(), 13);
    Round13();
    OneMore(Pack(KEY), Keys(), 14);
    Round14();
    OneMore(Pack(KEY), Keys(), 15);
    Round15();
  }

  lemma States2()
    requires Rounds(Pack(KEY), Keys()[..16]) == Words(0x8b952b83, 0xd42b7c59, 0x2ffc5831, 0xf69e6888)
    ensures Rounds(Pack(KEY), Keys()[..24]) == Words(0x6ae7725f, 0xf4cba1f9, 0x1dcdfa10, 0x2ff60603)
  {
    hide Round, Rounds, Pack, Keys;
    KeyValues2();
    OneMore(Pack(KEY), Keys(), 16);
    Round16();
    OneMore(Pack(KEY), Keys(), 17);
    Round17();
    OneMore(Pack(KEY), Keys(), 18);
    Round18();
    OneMore(Pack(KEY), Keys(), 19);
    Round19();
    OneMore(Pack(KEY), Keys(), 20);
    Round20();
    OneMore(Pack(KEY), Keys(), 21);
    Round21();
    OneMore(Pack(KEY), Keys(), 22);
    Round22();
    OneMore(Pack(KEY), Keys(), 23);
    Round23();
  }

  lemma States3()
    requires Rounds(Pack(KEY), Keys()[..24]) == Words(0x6ae7725f, 0xf4cba1f9, 0x1dcdfa10, 0x2ff60603)
    ensures Rounds(Pack(KEY), Keys()[..32]) == Words(0x536e4246, 0x86b3e94f, 0xd206965e, 0x681edf34)
  {
    hide Round, Rounds, Pack, Keys;
    KeyValues3();
    OneMore(Pack(KEY), Keys(), 24);
    Round24();
    OneMore(Pack(KEY), Keys(), 25);
    Round25();
    OneMore(Pack(KEY), Keys(), 26);
    Round26();
    OneMore(Pack(KEY), Keys(), 27);
    Round27();
    OneMore(Pack(KEY), Keys(), 28);
    Round28();
    OneMore(Pack(KEY), Keys(), 29);
    Round29();
    OneMore(Pack(KEY), Keys(), 30);
    Round30();
    OneMore(Pack(KEY), Keys(), 31);
    Round31();
  }

  /** Encrypting the key under itself gives the ciphertext the standard prints. */
  lemma Example()
    ensures Crypt(SubKeys(KEY), KEY) == CIPHERTEXT
  {
    hide Round, Rounds, Pack, Unpack, SubKeys;
    Packed();
    KeysAre();
    NoRounds(Pack(KEY), Keys());
    States0();
    States1();
    States2();
    States3();
    assert Keys()[..32] == Keys();
  }
}
