/** The S-box of SM4 (section 6.2 of GB/T 32907-2016) and the four tables that join it
    with the linear layer. */
module Sm4Tables {
  type word = bv32

  /** Cyclic left shift by two, ten, eighteen and twenty-four. */
  function Rot2(b: word): (r: word) { (b << 2) | (b >> 30) }
  function Rot10(b: word): (r: word) { (b << 10) | (b >> 22) }
  function Rot18(b: word): (r: word) { (b << 18) | (b >> 14) }
  function Rot24(b: word): (r: word) { (b << 24) | (b >> 8) }

  function Xor(a: word, b: word): (r: word) { a ^ b }

  /** The linear layer of the round function. */
  function Linear(b: word): (r: word) { Xor(Xor(Xor(Xor(b, Rot2(b)), Rot10(b)), Rot18(b)), Rot24(b)) }

  // ---- the tables, sixteen entries a line

  /** Entry j of a row of sixteen. */
  function Row(j: word,
               a0: word, a1: word, a2: word, a3: word, a4: word, a5: word, a6: word, a7: word,
               a8: word, a9: word, a10: word, a11: word, a12: word, a13: word, a14: word, a15: word): (r: word)
  {
    if j < 8 then
      (if j < 4 then (if j < 2 then (if j < 1 then a0 else a1) else (if j < 3 then a2 else a3))
       else (if j < 6 then (if j < 5 then a4 else a5) else (if j < 7 then a6 else a7)))
    else
      (if j < 12 then (if j < 10 then (if j < 9 then a8 else a9) else (if j < 11 then a10 else a11))
       else (if j < 14 then (if j < 13 then a12 else a13) else (if j < 15 then a14 else a15)))
  }

  /** The substitution of one byte. */
  function Sbox(i: word): (r: word) {
    if i < 0x10 then Row(i - 0x00, 0xd6, 0x90, 0xe9, 0xfe, 0xcc, 0xe1, 0x3d, 0xb7, 0x16, 0xb6, 0x14, 0xc2, 0x28, 0xfb, 0x2c, 0x05)
    else if i < 0x20 then Row(i - 0x10, 0x2b, 0x67, 0x9a, 0x76, 0x2a, 0xbe, 0x04, 0xc3, 0xaa, 0x44, 0x13, 0x26, 0x49, 0x86, 0x06, 0x99)
    else if i < 0x30 then Row(i - 0x20, 0x9c, 0x42, 0x50, 0xf4, 0x91, 0xef, 0x98, 0x7a, 0x33, 0x54, 0x0b, 0x43, 0xed, 0xcf, 0xac, 0x62)
    else if i < 0x40 then Row(i - 0x30, 0xe4, 0xb3, 0x1c, 0xa9, 0xc9, 0x08, 0xe8, 0x95, 0x80, 0xdf, 0x94, 0xfa, 0x75, 0x8f, 0x3f, 0xa6)
    else if i < 0x50 then Row(i - 0x40, 0x47, 0x07, 0xa7, 0xfc, 0xf3, 0x73, 0x17, 0xba, 0x83, 0x59, 0x3c, 0x19, 0xe6, 0x85, 0x4f, 0xa8)
    else if i < 0x60 then Row(i - 0x50, 0x68, 0x6b, 0x81, 0xb2, 0x71, 0x64, 0xda, 0x8b, 0xf8, 0xeb, 0x0f, 0x4b, 0x70, 0x56, 0x9d, 0x35)
    else if i < 0x70 then Row(i - 0x60, 0x1e, 0x24, 0x0e, 0x5e, 0x63, 0x58, 0xd1, 0xa2, 0x25, 0x22, 0x7c, 0x3b, 0x01, 0x21, 0x78, 0x87)
    else if i < 0x80 then Row(i - 0x70, 0xd4, 0x00, 0x46, 0x57, 0x9f, 0xd3, 0x27, 0x52, 0x4c, 0x36, 0x02, 0xe7, 0xa0, 0xc4, 0xc8, 0x9e)
    else if i < 0x90 then Row(i - 0x80, 0xea, 0xbf, 0x8a, 0xd2, 0x40, 0xc7, 0x38, 0xb5, 0xa3, 0xf7, 0xf2, 0xce, 0xf9, 0x61, 0x15, 0xa1)
    else if i < 0xa0 then Row(i - 0x90, 0xe0, 0xae, 0x5d, 0xa4, 0x9b, 0x34, 0x1a, 0x55, 0xad, 0x93, 0x32, 0x30, 0xf5, 0x8c, 0xb1, 0xe3)
    else if i < 0xb0 then Row(i - 0xa0, 0x1d, 0xf6, 0xe2, 0x2e, 0x82, 0x66, 0xca, 0x60, 0xc0, 0x29, 0x23, 0xab, 0x0d, 0x53, 0x4e, 0x6f)
    else if i < 0xc0 then Row(i - 0xb0, 0xd5, 0xdb, 0x37, 0x45, 0xde, 0xfd, 0x8e, 0x2f, 0x03, 0xff, 0x6a, 0x72, 0x6d, 0x6c, 0x5b, 0x51)
    else if i < 0xd0 then Row(i - 0xc0, 0x8d, 0x1b, 0xaf, 0x92, 0xbb, 0xdd, 0xbc, 0x7f, 0x11, 0xd9, 0x5c, 0x41, 0x1f, 0x10, 0x5a, 0xd8)
    else if i < 0xe0 then Row(i - 0xd0, 0x0a, 0xc1, 0x31, 0x88, 0xa5, 0xcd, 0x7b, 0xbd, 0x2d, 0x74, 0xd0, 0x12, 0xb8, 0xe5, 0xb4, 0xb0)
    else if i < 0xf0 then Row(i - 0xe0, 0x89, 0x69, 0x97, 0x4a, 0x0c, 0x96, 0x77, 0x7e, 0x65, 0xb9, 0xf1, 0x09, 0xc5, 0x6e, 0xc6, 0x84)
    else Row(i - 0xf0, 0x18, 0xf0, 0x7d, 0xec, 0x3a, 0xdc, 0x4d, 0x20, 0x79, 0xee, 0x5f, 0x3e, 0xd7, 0xcb, 0x39, 0x48)
  }

  /** Substitution and linear layer for byte 0 of a word. */
  function T0(i: word): (r: word) {
    if i < 0x10 then Row(i - 0x00, 0xd55b5b8e, 0x924242d0, 0xeaa7a74d, 0xfdfbfb06, 0xcf3333fc, 0xe2878765, 0x3df4f4c9, 0xb5dede6b,
        0x1658584e, 0xb4dada6e, 0x14505044, 0xc10b0bca, 0x28a0a088, 0xf8efef17, 0x2cb0b09c, 0x05141411)
    else if i < 0x20 then Row(i - 0x10, 0x2bacac87, 0x669d9dfb, 0x986a6af2, 0x77d9d9ae, 0x2aa8a882, 0xbcfafa46, 0x04101014, 0xc00f0fcf,
        0xa8aaaa02, 0x45111154, 0x134c4c5f, 0x269898be, 0x4825256d, 0x841a1a9e, 0x0618181e, 0x9b6666fd)
    else if i < 0x30 then Row(i - 0x20, 0x9e7272ec, 0x4309094a, 0x51414110, 0xf7d3d324, 0x934646d5, 0xecbfbf53, 0x9a6262f8, 0x7be9e992,
        0x33ccccff, 0x55515104, 0x0b2c2c27, 0x420d0d4f, 0xeeb7b759, 0xcc3f3ff3, 0xaeb2b21c, 0x638989ea)
    else if i < 0x40 then Row(i - 0x30, 0xe7939374, 0xb1cece7f, 0x1c70706c, 0xaba6a60d, 0xca2727ed, 0x08202028, 0xeba3a348, 0x975656c1,
        0x82020280, 0xdc7f7fa3, 0x965252c4, 0xf9ebeb12, 0x74d5d5a1, 0x8d3e3eb3, 0x3ffcfcc3, 0xa49a9a3e)
    else if i < 0x50 then Row(i - 0x40, 0x461d1d5b, 0x071c1c1b, 0xa59e9e3b, 0xfff3f30c, 0xf0cfcf3f, 0x72cdcdbf, 0x175c5c4b, 0xb8eaea52,
        0x810e0e8f, 0x5865653d, 0x3cf0f0cc, 0x1964647d, 0xe59b9b7e, 0x87161691, 0x4e3d3d73, 0xaaa2a208)
    else if i < 0x60 then Row(i - 0x50, 0x69a1a1c8, 0x6aadadc7, 0x83060685, 0xb0caca7a, 0x70c5c5b5, 0x659191f4, 0xd96b6bb2, 0x892e2ea7,
        0xfbe3e318, 0xe8afaf47, 0x0f3c3c33, 0x4a2d2d67, 0x71c1c1b0, 0x5759590e, 0x9f7676e9, 0x35d4d4e1)
    else if i < 0x70 then Row(i - 0x60, 0x1e787866, 0x249090b4, 0x0e383836, 0x5f797926, 0x628d8def, 0x59616138, 0xd2474795, 0xa08a8a2a,
        0x259494b1, 0x228888aa, 0x7df1f18c, 0x3bececd7, 0x01040405, 0x218484a5, 0x79e1e198, 0x851e1e9b)
    else if i < 0x80 then Row(i - 0x70, 0xd7535384, 0x00000000, 0x4719195e, 0x565d5d0b, 0x9d7e7ee3, 0xd04f4f9f, 0x279c9cbb, 0x5349491a,
        0x4d31317c, 0x36d8d8ee, 0x0208080a, 0xe49f9f7b, 0xa2828220, 0xc71313d4, 0xcb2323e8, 0x9c7a7ae6)
    else if i < 0x90 then Row(i - 0x80, 0xe9abab42, 0xbdfefe43, 0x882a2aa2, 0xd14b4b9a, 0x41010140, 0xc41f1fdb, 0x38e0e0d8, 0xb7d6d661,
        0xa18e8e2f, 0xf4dfdf2b, 0xf1cbcb3a, 0xcd3b3bf6, 0xfae7e71d, 0x608585e5, 0x15545441, 0xa3868625)
    else if i < 0xa0 then Row(i - 0x90, 0xe3838360, 0xacbaba16, 0x5c757529, 0xa6929234, 0x996e6ef7, 0x34d0d0e4, 0x1a686872, 0x54555501,
        0xafb6b619, 0x914e4edf, 0x32c8c8fa, 0x30c0c0f0, 0xf6d7d721, 0x8e3232bc, 0xb3c6c675, 0xe08f8f6f)
    else if i < 0xb0 then Row(i - 0xa0, 0x1d747469, 0xf5dbdb2e, 0xe18b8b6a, 0x2eb8b896, 0x800a0a8a, 0x679999fe, 0xc92b2be2, 0x618181e0,
        0xc30303c0, 0x29a4a48d, 0x238c8caf, 0xa9aeae07, 0x0d343439, 0x524d4d1f, 0x4f393976, 0x6ebdbdd3)
    else if i < 0xc0 then Row(i - 0xb0, 0xd6575781, 0xd86f6fb7, 0x37dcdceb, 0x44151551, 0xdd7b7ba6, 0xfef7f709, 0x8c3a3ab6, 0x2fbcbc93,
        0x030c0c0f, 0xfcffff03, 0x6ba9a9c2, 0x73c9c9ba, 0x6cb5b5d9, 0x6db1b1dc, 0x5a6d6d37, 0x50454515)
    else if i < 0xd0 then Row(i - 0xc0, 0x8f3636b9, 0x1b6c6c77, 0xadbebe13, 0x904a4ada, 0xb9eeee57, 0xde7777a9, 0xbef2f24c, 0x7efdfd83,
        0x11444455, 0xda6767bd, 0x5d71712c, 0x40050545, 0x1f7c7c63, 0x10404050, 0x5b696932, 0xdb6363b8)
    else if i < 0xe0 then Row(i - 0xd0, 0x0a282822, 0xc20707c5, 0x31c4c4f5, 0x8a2222a8, 0xa7969631, 0xce3737f9, 0x7aeded97, 0xbff6f649,
        0x2db4b499, 0x75d1d1a4, 0xd3434390, 0x1248485a, 0xbae2e258, 0xe6979771, 0xb6d2d264, 0xb2c2c270)
    else if i < 0xf0 then Row(i - 0xe0, 0x8b2626ad, 0x68a5a5cd, 0x955e5ecb, 0x4b292962, 0x0c30303c, 0x945a5ace, 0x76ddddab, 0x7ff9f986,
        0x649595f1, 0xbbe6e65d, 0xf2c7c735, 0x0924242d, 0xc61717d1, 0x6fb9b9d6, 0xc51b1bde, 0x86121294)
    else Row(i - 0xf0, 0x18606078, 0xf3c3c330, 0x7cf5f589, 0xefb3b35c, 0x3ae8e8d2, 0xdf7373ac, 0x4c353579, 0x208080a0,
        0x78e5e59d, 0xedbbbb56, 0x5e7d7d23, 0x3ef8f8c6, 0xd45f5f8b, 0xc82f2fe7, 0x39e4e4dd, 0x49212168)
  }

  /** Substitution and linear layer for byte 1 of a word. */
  function T1(i: word): (r: word) {
    if i < 0x10 then Row(i - 0x00, 0x5b5b8ed5, 0x4242d092, 0xa7a74dea, 0xfbfb06fd, 0x3333fccf, 0x878765e2, 0xf4f4c93d, 0xdede6bb5,
        0x58584e16, 0xdada6eb4, 0x50504414, 0x0b0bcac1, 0xa0a08828, 0xefef17f8, 0xb0b09c2c, 0x14141105)
    else if i < 0x20 then Row(i - 0x10, 0xacac872b, 0x9d9dfb66, 0x6a6af298, 0xd9d9ae77, 0xa8a8822a, 0xfafa46bc, 0x10101404, 0x0f0fcfc0,
        0xaaaa02a8, 0x11115445, 0x4c4c5f13, 0x9898be26, 0x25256d48, 0x1a1a9e84, 0x18181e06, 0x6666fd9b)
    else if i < 0x30 then Row(i - 0x20, 0x7272ec9e, 0x09094a43, 0x41411051, 0xd3d324f7, 0x4646d593, 0xbfbf53ec, 0x6262f89a, 0xe9e9927b,
        0xccccff33, 0x51510455, 0x2c2c270b, 0x0d0d4f42, 0xb7b759ee, 0x3f3ff3cc, 0xb2b21cae, 0x8989ea63)
    else if i < 0x40 then Row(i - 0x30, 0x939374e7, 0xcece7fb1, 0x70706c1c, 0xa6a60dab, 0x2727edca, 0x20202808, 0xa3a348eb, 0x5656c197,
        0x02028082, 0x7f7fa3dc, 0x5252c496, 0xebeb12f9, 0xd5d5a174, 0x3e3eb38d, 0xfcfcc33f, 0x9a9a3ea4)
    else if i < 0x50 then Row(i - 0x40, 0x1d1d5b46, 0x1c1c1b07, 0x9e9e3ba5, 0xf3f30cff, 0xcfcf3ff0, 0xcdcdbf72, 0x5c5c4b17, 0xeaea52b8,
        0x0e0e8f81, 0x65653d58, 0xf0f0cc3c, 0x64647d19, 0x9b9b7ee5, 0x16169187, 0x3d3d734e, 0xa2a208aa)
    else if i < 0x60 then Row(i - 0x50, 0xa1a1c869, 0xadadc76a, 0x06068583, 0xcaca7ab0, 0xc5c5b570, 0x9191f465, 0x6b6bb2d9, 0x2e2ea789,
        0xe3e318fb, 0xafaf47e8, 0x3c3c330f, 0x2d2d674a, 0xc1c1b071, 0x59590e57, 0x7676e99f, 0xd4d4e135)
    else if i < 0x70 then Row(i - 0x60, 0x7878661e, 0x9090b424, 0x3838360e, 0x7979265f, 0x8d8def62, 0x61613859, 0x474795d2, 0x8a8a2aa0,
        0x9494b125, 0x8888aa22, 0xf1f18c7d, 0xececd73b, 0x04040501, 0x8484a521, 0xe1e19879, 0x1e1e9b85)
    else if i < 0x80 then Row(i - 0x70, 0x535384d7, 0x00000000, 0x19195e47, 0x5d5d0b56, 0x7e7ee39d, 0x4f4f9fd0, 0x9c9cbb27, 0x49491a53,
        0x31317c4d, 0xd8d8ee36, 0x08080a02, 0x9f9f7be4, 0x828220a2, 0x1313d4c7, 0x2323e8cb, 0x7a7ae69c)
    else if i < 0x90 then Row(i - 0x80, 0xabab42e9, 0xfefe43bd, 0x2a2aa288, 0x4b4b9ad1, 0x01014041, 0x1f1fdbc4, 0xe0e0d838, 0xd6d661b7,
        0x8e8e2fa1, 0xdfdf2bf4, 0xcbcb3af1, 0x3b3bf6cd, 0xe7e71dfa, 0x8585e560, 0x54544115, 0x868625a3)
    else if i < 0xa0 then Row(i - 0x90, 0x838360e3, 0xbaba16ac, 0x7575295c, 0x929234a6, 0x6e6ef799, 0xd0d0e434, 0x6868721a, 0x55550154,
        0xb6b619af, 0x4e4edf91, 0xc8c8fa32, 0xc0c0f030, 0xd7d721f6, 0x3232bc8e, 0xc6c675b3, 0x8f8f6fe0)
    else if i < 0xb0 then Row(i - 0xa0, 0x7474691d, 0xdbdb2ef5, 0x8b8b6ae1, 0xb8b8962e, 0x0a0a8a80, 0x9999fe67, 0x2b2be2c9, 0x8181e061,
        0x0303c0c3, 0xa4a48d29, 0x8c8caf23, 0xaeae07a9, 0x3434390d, 0x4d4d1f52, 0x3939764f, 0xbdbdd36e)
    else if i < 0xc0 then Row(i - 0xb0, 0x575781d6, 0x6f6fb7d8, 0xdcdceb37, 0x15155144, 0x7b7ba6dd, 0xf7f709fe, 0x3a3ab68c, 0xbcbc932f,
        0x0c0c0f03, 0xffff03fc, 0xa9a9c26b, 0xc9c9ba73, 0xb5b5d96c, 0xb1b1dc6d, 0x6d6d375a, 0x45451550)
    else if i < 0xd0 then Row(i - 0xc0, 0x3636b98f, 0x6c6c771b, 0xbebe13ad, 0x4a4ada90, 0xeeee57b9, 0x7777a9de, 0xf2f24cbe, 0xfdfd837e,
        0x44445511, 0x6767bdda, 0x71712c5d, 0x05054540, 0x7c7c631f, 0x40405010, 0x6969325b, 0x6363b8db)
    else if i < 0xe0 then Row(i - 0xd0, 0x2828220a, 0x0707c5c2, 0xc4c4f531, 0x2222a88a, 0x969631a7, 0x3737f9ce, 0xeded977a, 0xf6f649bf,
        0xb4b4992d, 0xd1d1a475, 0x434390d3, 0x48485a12, 0xe2e258ba, 0x979771e6, 0xd2d264b6, 0xc2c270b2)
    else if i < 0xf0 then Row(i - 0xe0, 0x2626ad8b, 0xa5a5cd68, 0x5e5ecb95, 0x2929624b, 0x30303c0c, 0x5a5ace94, 0xddddab76, 0xf9f9867f,
        0x9595f164, 0xe6e65dbb, 0xc7c735f2, 0x24242d09, 0x1717d1c6, 0xb9b9d66f, 0x1b1bdec5, 0x12129486)
    else Row(i - 0xf0, 0x60607818, 0xc3c330f3, 0xf5f5897c, 0xb3b35cef, 0xe8e8d23a, 0x7373acdf, 0x3535794c, 0x8080a020,
        0xe5e59d78, 0xbbbb56ed, 0x7d7d235e, 0xf8f8c63e, 0x5f5f8bd4, 0x2f2fe7c8, 0xe4e4dd39, 0x21216849)
  }

  /** Substitution and linear layer for byte 2 of a word. */
  function T2(i: word): (r: word) {
    if i < 0x10 then Row(i - 0x00, 0x5b8ed55b, 0x42d09242, 0xa74deaa7, 0xfb06fdfb, 0x33fccf33, 0x8765e287, 0xf4c93df4, 0xde6bb5de,
        0x584e1658, 0xda6eb4da, 0x50441450, 0x0bcac10b, 0xa08828a0, 0xef17f8ef, 0xb09c2cb0, 0x14110514)
    else if i < 0x20 then Row(i - 0x10, 0xac872bac, 0x9dfb669d, 0x6af2986a, 0xd9ae77d9, 0xa8822aa8, 0xfa46bcfa, 0x10140410, 0x0fcfc00f,
        0xaa02a8aa, 0x11544511, 0x4c5f134c, 0x98be2698, 0x256d4825, 0x1a9e841a, 0x181e0618, 0x66fd9b66)
    else if i < 0x30 then Row(i - 0x20, 0x72ec9e72, 0x094a4309, 0x41105141, 0xd324f7d3, 0x46d59346, 0xbf53ecbf, 0x62f89a62, 0xe9927be9,
        0xccff33cc, 0x51045551, 0x2c270b2c, 0x0d4f420d, 0xb759eeb7, 0x3ff3cc3f, 0xb21caeb2, 0x89ea6389)
    else if i < 0x40 then Row(i - 0x30, 0x9374e793, 0xce7fb1ce, 0x706c1c70, 0xa60daba6, 0x27edca27, 0x20280820, 0xa348eba3, 0x56c19756,
        0x02808202, 0x7fa3dc7f, 0x52c49652, 0xeb12f9eb, 0xd5a174d5, 0x3eb38d3e, 0xfcc33ffc, 0x9a3ea49a)
    else if i < 0x50 then Row(i - 0x40, 0x1d5b461d, 0x1c1b071c, 0x9e3ba59e, 0xf30cfff3, 0xcf3ff0cf, 0xcdbf72cd, 0x5c4b175c, 0xea52b8ea,
        0x0e8f810e, 0x653d5865, 0xf0cc3cf0, 0x647d1964, 0x9b7ee59b, 0x16918716, 0x3d734e3d, 0xa208aaa2)
    else if i < 0x60 then Row(i - 0x50, 0xa1c869a1, 0xadc76aad, 0x06858306, 0xca7ab0ca, 0xc5b570c5, 0x91f46591, 0x6bb2d96b, 0x2ea7892e,
        0xe318fbe3, 0xaf47e8af, 0x3c330f3c, 0x2d674a2d, 0xc1b071c1, 0x590e5759, 0x76e99f76, 0xd4e135d4)
    else if i < 0x70 then Row(i - 0x60, 0x78661e78, 0x90b42490, 0x38360e38, 0x79265f79, 0x8def628d, 0x61385961, 0x4795d247, 0x8a2aa08a,
        0x94b12594, 0x88aa2288, 0xf18c7df1, 0xecd73bec, 0x04050104, 0x84a52184, 0xe19879e1, 0x1e9b851e)
    else if i < 0x80 then Row(i - 0x70, 0x5384d753, 0x00000000, 0x195e4719, 0x5d0b565d, 0x7ee39d7e, 0x4f9fd04f, 0x9cbb279c, 0x491a5349,
        0x317c4d31, 0xd8ee36d8, 0x080a0208, 0x9f7be49f, 0x8220a282, 0x13d4c713, 0x23e8cb23, 0x7ae69c7a)
    else if i < 0x90 then Row(i - 0x80, 0xab42e9ab, 0xfe43bdfe, 0x2aa2882a, 0x4b9ad14b, 0x01404101, 0x1fdbc41f, 0xe0d838e0, 0xd661b7d6,
        0x8e2fa18e, 0xdf2bf4df, 0xcb3af1cb, 0x3bf6cd3b, 0xe71dfae7, 0x85e56085, 0x54411554, 0x8625a386)
    else if i < 0xa0 then Row(i - 0x90, 0x8360e383, 0xba16acba, 0x75295c75, 0x9234a692, 0x6ef7996e, 0xd0e434d0, 0x68721a68, 0x55015455,
        0xb619afb6, 0x4edf914e, 0xc8fa32c8, 0xc0f030c0, 0xd721f6d7, 0x32bc8e32, 0xc675b3c6, 0x8f6fe08f)
    else if i < 0xb0 then Row(i - 0xa0, 0x74691d74, 0xdb2ef5db, 0x8b6ae18b, 0xb8962eb8, 0x0a8a800a, 0x99fe6799, 0x2be2c92b, 0x81e06181,
        0x03c0c303, 0xa48d29a4, 0x8caf238c, 0xae07a9ae, 0x34390d34, 0x4d1f524d, 0x39764f39, 0xbdd36ebd)
    else if i < 0xc0 then Row(i - 0xb0, 0x5781d657, 0x6fb7d86f, 0xdceb37dc, 0x15514415, 0x7ba6dd7b, 0xf709fef7, 0x3ab68c3a, 0xbc932fbc,
        0x0c0f030c, 0xff03fcff, 0xa9c26ba9, 0xc9ba73c9, 0xb5d96cb5, 0xb1dc6db1, 0x6d375a6d, 0x45155045)
    else if i < 0xd0 then Row(i - 0xc0, 0x36b98f36, 0x6c771b6c, 0xbe13adbe, 0x4ada904a, 0xee57b9ee, 0x77a9de77, 0xf24cbef2, 0xfd837efd,
        0x44551144, 0x67bdda67, 0x712c5d71, 0x05454005, 0x7c631f7c, 0x40501040, 0x69325b69, 0x63b8db63)
    else if i < 0xe0 then Row(i - 0xd0, 0x28220a28, 0x07c5c207, 0xc4f531c4, 0x22a88a22, 0x9631a796, 0x37f9ce37, 0xed977aed, 0xf649bff6,
        0xb4992db4, 0xd1a475d1, 0x4390d343, 0x485a1248, 0xe258bae2, 0x9771e697, 0xd264b6d2, 0xc270b2c2)
    else if i < 0xf0 then Row(i - 0xe0, 0x26ad8b26, 0xa5cd68a5, 0x5ecb955e, 0x29624b29, 0x303c0c30, 0x5ace945a, 0xddab76dd, 0xf9867ff9,
        0x95f16495, 0xe65dbbe6, 0xc735f2c7, 0x242d0924, 0x17d1c617, 0xb9d66fb9, 0x1bdec51b, 0x12948612)
    else Row(i - 0xf0, 0x60781860, 0xc330f3c3, 0xf5897cf5, 0xb35cefb3, 0xe8d23ae8, 0x73acdf73, 0x35794c35, 0x80a02080,
        0xe59d78e5, 0xbb56edbb, 0x7d235e7d, 0xf8c63ef8, 0x5f8bd45f, 0x2fe7c82f, 0xe4dd39e4, 0x21684921)
  }

  /** Substitution and linear layer for byte 3 of a word. */
  function T3(i: word): (r: word) {
    if i < 0x10 then Row(i - 0x00, 0x8ed55b5b, 0xd0924242, 0x4deaa7a7, 0x06fdfbfb, 0xfccf3333, 0x65e28787, 0xc93df4f4, 0x6bb5dede,
        0x4e165858, 0x6eb4dada, 0x44145050, 0xcac10b0b, 0x8828a0a0, 0x17f8efef, 0x9c2cb0b0, 0x11051414)
    else if i < 0x20 then Row(i - 0x10, 0x872bacac, 0xfb669d9d, 0xf2986a6a, 0xae77d9d9, 0x822aa8a8, 0x46bcfafa, 0x14041010, 0xcfc00f0f,
        0x02a8aaaa, 0x54451111, 0x5f134c4c, 0xbe269898, 0x6d482525, 0x9e841a1a, 0x1e061818, 0xfd9b6666)
    else if i < 0x30 then Row(i - 0x20, 0xec9e7272, 0x4a430909, 0x10514141, 0x24f7d3d3, 0xd5934646, 0x53ecbfbf, 0xf89a6262, 0x927be9e9,
        0xff33cccc, 0x04555151, 0x270b2c2c, 0x4f420d0d, 0x59eeb7b7, 0xf3cc3f3f, 0x1caeb2b2, 0xea638989)
    else if i < 0x40 then Row(i - 0x30, 0x74e79393, 0x7fb1cece, 0x6c1c7070, 0x0daba6a6, 0xedca2727, 0x28082020, 0x48eba3a3, 0xc1975656,
        0x80820202, 0xa3dc7f7f, 0xc4965252, 0x12f9ebeb, 0xa174d5d5, 0xb38d3e3e, 0xc33ffcfc, 0x3ea49a9a)
    else if i < 0x50 then Row(i - 0x40, 0x5b461d1d, 0x1b071c1c, 0x3ba59e9e, 0x0cfff3f3, 0x3ff0cfcf, 0xbf72cdcd, 0x4b175c5c, 0x52b8eaea,
        0x8f810e0e, 0x3d586565, 0xcc3cf0f0, 0x7d196464, 0x7ee59b9b, 0x91871616, 0x734e3d3d, 0x08aaa2a2)
    else if i < 0x60 then Row(i - 0x50, 0xc869a1a1, 0xc76aadad, 0x85830606, 0x7ab0caca, 0xb570c5c5, 0xf4659191, 0xb2d96b6b, 0xa7892e2e,
        0x18fbe3e3, 0x47e8afaf, 0x330f3c3c, 0x674a2d2d, 0xb071c1c1, 0x0e575959, 0xe99f7676, 0xe135d4d4)
    else if i < 0x70 then Row(i - 0x60, 0x661e7878, 0xb4249090, 0x360e3838, 0x265f7979, 0xef628d8d, 0x38596161, 0x95d24747, 0x2aa08a8a,
        0xb1259494, 0xaa228888, 0x8c7df1f1, 0xd73becec, 0x05010404, 0xa5218484, 0x9879e1e1, 0x9b851e1e)
    else if i < 0x80 then Row(i - 0x70, 0x84d75353, 0x00000000, 0x5e471919, 0x0b565d5d, 0xe39d7e7e, 0x9fd04f4f, 0xbb279c9c, 0x1a534949,
        0x7c4d3131, 0xee36d8d8, 0x0a020808, 0x7be49f9f, 0x20a28282, 0xd4c71313, 0xe8cb2323, 0xe69c7a7a)
    else if i < 0x90 then Row(i - 0x80, 0x42e9abab, 0x43bdfefe, 0xa2882a2a, 0x9ad14b4b, 0x40410101, 0xdbc41f1f, 0xd838e0e0, 0x61b7d6d6,
        0x2fa18e8e, 0x2bf4dfdf, 0x3af1cbcb, 0xf6cd3b3b, 0x1dfae7e7, 0xe5608585, 0x41155454, 0x25a38686)
    else if i < 0xa0 then Row(i - 0x90, 0x60e38383, 0x16acbaba, 0x295c7575, 0x34a69292, 0xf7996e6e, 0xe434d0d0, 0x721a6868, 0x01545555,
        0x19afb6b6, 0xdf914e4e, 0xfa32c8c8, 0xf030c0c0, 0x21f6d7d7, 0xbc8e3232, 0x75b3c6c6, 0x6fe08f8f)
    else if i < 0xb0 then Row(i - 0xa0, 0x691d7474, 0x2ef5dbdb, 0x6ae18b8b, 0x962eb8b8, 0x8a800a0a, 0xfe679999, 0xe2c92b2b, 0xe0618181,
        0xc0c30303, 0x8d29a4a4, 0xaf238c8c, 0x07a9aeae, 0x390d3434, 0x1f524d4d, 0x764f3939, 0xd36ebdbd)
    else if i < 0xc0 then Row(i - 0xb0, 0x81d65757, 0xb7d86f6f, 0xeb37dcdc, 0x51441515, 0xa6dd7b7b, 0x09fef7f7, 0xb68c3a3a, 0x932fbcbc,
        0x0f030c0c, 0x03fcffff, 0xc26ba9a9, 0xba73c9c9, 0xd96cb5b5, 0xdc6db1b1, 0x375a6d6d, 0x15504545)
    else if i < 0xd0 then Row(i - 0xc0, 0xb98f3636, 0x771b6c6c, 0x13adbebe, 0xda904a4a, 0x57b9eeee, 0xa9de7777, 0x4cbef2f2, 0x837efdfd,
        0x55114444, 0xbdda6767, 0x2c5d7171, 0x45400505, 0x631f7c7c, 0x50104040, 0x325b6969, 0xb8db6363)
    else if i < 0xe0 then Row(i - 0xd0, 0x220a2828, 0xc5c20707, 0xf531c4c4, 0xa88a2222, 0x31a79696, 0xf9ce3737, 0x977aeded, 0x49bff6f6,
        0x992db4b4, 0xa475d1d1, 0x90d34343, 0x5a124848, 0x58bae2e2, 0x71e69797, 0x64b6d2d2, 0x70b2c2c2)
    else if i < 0xf0 then Row(i - 0xe0, 0xad8b2626, 0xcd68a5a5, 0xcb955e5e, 0x624b2929, 0x3c0c3030, 0xce945a5a, 0xab76dddd, 0x867ff9f9,
        0xf1649595, 0x5dbbe6e6, 0x35f2c7c7, 0x2d092424, 0xd1c61717, 0xd66fb9b9, 0xdec51b1b, 0x94861212)
    else Row(i - 0xf0, 0x78186060, 0x30f3c3c3, 0x897cf5f5, 0x5cefb3b3, 0xd23ae8e8, 0xacdf7373, 0x794c3535, 0xa0208080,
        0x9d78e5e5, 0x56edbbbb, 0x235e7d7d, 0xc63ef8f8, 0x8bd45f5f, 0xe7c82f2f, 0xdd39e4e4, 0x68492121)
  }

  /** What each table entry must be. */
  predicate Entry(i: word) {
    && T0(i) == Linear(Sbox(i)) && T1(i) == Linear(Sbox(i) << 8)
    && T2(i) == Linear(Sbox(i) << 16) && T3(i) == Linear(Sbox(i) << 24)
  }

  lemma Entries0()
    ensures T0(0x00) == Linear(Sbox(0x00)) && T1(0x00) == Linear(Sbox(0x00) << 8)
    ensures T2(0x00) == Linear(Sbox(0x00) << 16) && T3(0x00) == Linear(Sbox(0x00) << 24)
    ensures T0(0x01) == Linear(Sbox(0x01)) && T1(0x01) == Linear(Sbox(0x01) << 8)
    ensures T2(0x01) == Linear(Sbox(0x01) << 16) && T3(0x01) == Linear(Sbox(0x01) << 24)
    ensures T0(0x02) == Linear(Sbox(0x02)) && T1(0x02) == Linear(Sbox(0x02) << 8)
    ensures T2(0x02) == Linear(Sbox(0x02) << 16) && T3(0x02) == Linear(Sbox(0x02) << 24)
    ensures T0(0x03) == Linear(Sbox(0x03)) && T1(0x03) == Linear(Sbox(0x03) << 8)
    ensures T2(0x03) == Linear(Sbox(0x03) << 16) && T3(0x03) == Linear(Sbox(0x03) << 24)
  {}

  lemma Entries1()
    ensures T0(0x04) == Linear(Sbox(0x04)) && T1(0x04) == Linear(Sbox(0x04) << 8)
    ensures T2(0x04) == Linear(Sbox(0x04) << 16) && T3(0x04) == Linear(Sbox(0x04) << 24)
    ensures T0(0x05) == Linear(Sbox(0x05)) && T1(0x05) == Linear(Sbox(0x05) << 8)
    ensures T2(0x05) == Linear(Sbox(0x05) << 16) && T3(0x05) == Linear(Sbox(0x05) << 24)
    ensures T0(0x06) == Linear(Sbox(0x06)) && T1(0x06) == Linear(Sbox(0x06) << 8)
    ensures T2(0x06) == Linear(Sbox(0x06) << 16) && T3(0x06) == Linear(Sbox(0x06) << 24)
    ensures T0(0x07) == Linear(Sbox(0x07)) && T1(0x07) == Linear(Sbox(0x07) << 8)
    ensures T2(0x07) == Linear(Sbox(0x07) << 16) && T3(0x07) == Linear(Sbox(0x07) << 24)
  {}

  lemma Entries2()
    ensures T0(0x08) == Linear(Sbox(0x08)) && T1(0x08) == Linear(Sbox(0x08) << 8)
    ensures T2(0x08) == Linear(Sbox(0x08) << 16) && T3(0x08) == Linear(Sbox(0x08) << 24)
    ensures T0(0x09) == Linear(Sbox(0x09)) && T1(0x09) == Linear(Sbox(0x09) << 8)
    ensures T2(0x09) == Linear(Sbox(0x09) << 16) && T3(0x09) == Linear(Sbox(0x09) << 24)
    ensures T0(0x0a) == Linear(Sbox(0x0a)) && T1(0x0a) == Linear(Sbox(0x0a) << 8)
    ensures T2(0x0a) == Linear(Sbox(0x0a) << 16) && T3(0x0a) == Linear(Sbox(0x0a) << 24)
    ensures T0(0x0b) == Linear(Sbox(0x0b)) && T1(0x0b) == Linear(Sbox(0x0b) << 8)
    ensures T2(0x0b) == Linear(Sbox(0x0b) << 16) && T3(0x0b) == Linear(Sbox(0x0b) << 24)
  {}

  lemma Entries3()
    ensures T0(0x0c) == Linear(Sbox(0x0c)) && T1(0x0c) == Linear(Sbox(0x0c) << 8)
    ensures T2(0x0c) == Linear(Sbox(0x0c) << 16) && T3(0x0c) == Linear(Sbox(0x0c) << 24)
    ensures T0(0x0d) == Linear(Sbox(0x0d)) && T1(0x0d) == Linear(Sbox(0x0d) << 8)
    ensures T2(0x0d) == Linear(Sbox(0x0d) << 16) && T3(0x0d) == Linear(Sbox(0x0d) << 24)
    ensures T0(0x0e) == Linear(Sbox(0x0e)) && T1(0x0e) == Linear(Sbox(0x0e) << 8)
    ensures T2(0x0e) == Linear(Sbox(0x0e) << 16) && T3(0x0e) == Linear(Sbox(0x0e) << 24)
    ensures T0(0x0f) == Linear(Sbox(0x0f)) && T1(0x0f) == Linear(Sbox(0x0f) << 8)
    ensures T2(0x0f) == Linear(Sbox(0x0f) << 16) && T3(0x0f) == Linear(Sbox(0x0f) << 24)
  {}

  lemma Entries4()
    ensures T0(0x10) == Linear(Sbox(0x10)) && T1(0x10) == Linear(Sbox(0x10) << 8)
    ensures T2(0x10) == Linear(Sbox(0x10) << 16) && T3(0x10) == Linear(Sbox(0x10) << 24)
    ensures T0(0x11) == Linear(Sbox(0x11)) && T1(0x11) == Linear(Sbox(0x11) << 8)
    ensures T2(0x11) == Linear(Sbox(0x11) << 16) && T3(0x11) == Linear(Sbox(0x11) << 24)
    ensures T0(0x12) == Linear(Sbox(0x12)) && T1(0x12) == Linear(Sbox(0x12) << 8)
    ensures T2(0x12) == Linear(Sbox(0x12) << 16) && T3(0x12) == Linear(Sbox(0x12) << 24)
    ensures T0(0x13) == Linear(Sbox(0x13)) && T1(0x13) == Linear(Sbox(0x13) << 8)
    ensures T2(0x13) == Linear(Sbox(0x13) << 16) && T3(0x13) == Linear(Sbox(0x13) << 24)
  {}

  lemma Entries5()
    ensures T0(0x14) == Linear(Sbox(0x14)) && T1(0x14) == Linear(Sbox(0x14) << 8)
    ensures T2(0x14) == Linear(Sbox(0x14) << 16) && T3(0x14) == Linear(Sbox(0x14) << 24)
    ensures T0(0x15) == Linear(Sbox(0x15)) && T1(0x15) == Linear(Sbox(0x15) << 8)
    ensures T2(0x15) == Linear(Sbox(0x15) << 16) && T3(0x15) == Linear(Sbox(0x15) << 24)
    ensures T0(0x16) == Linear(Sbox(0x16)) && T1(0x16) == Linear(Sbox(0x16) << 8)
    ensures T2(0x16) == Linear(Sbox(0x16) << 16) && T3(0x16) == Linear(Sbox(0x16) << 24)
    ensures T0(0x17) == Linear(Sbox(0x17)) && T1(0x17) == Linear(Sbox(0x17) << 8)
    ensures T2(0x17) == Linear(Sbox(0x17) << 16) && T3(0x17) == Linear(Sbox(0x17) << 24)
  {}

  lemma Entries6()
    ensures T0(0x18) == Linear(Sbox(0x18)) && T1(0x18) == Linear(Sbox(0x18) << 8)
    ensures T2(0x18) == Linear(Sbox(0x18) << 16) && T3(0x18) == Linear(Sbox(0x18) << 24)
    ensures T0(0x19) == Linear(Sbox(0x19)) && T1(0x19) == Linear(Sbox(0x19) << 8)
    ensures T2(0x19) == Linear(Sbox(0x19) << 16) && T3(0x19) == Linear(Sbox(0x19) << 24)
    ensures T0(0x1a) == Linear(Sbox(0x1a)) && T1(0x1a) == Linear(Sbox(0x1a) << 8)
    ensures T2(0x1a) == Linear(Sbox(0x1a) << 16) && T3(0x1a) == Linear(Sbox(0x1a) << 24)
    ensures T0(0x1b) == Linear(Sbox(0x1b)) && T1(0x1b) == Linear(Sbox(0x1b) << 8)
    ensures T2(0x1b) == Linear(Sbox(0x1b) << 16) && T3(0x1b) == Linear(Sbox(0x1b) << 24)
  {}

  lemma Entries7()
    ensures T0(0x1c) == Linear(Sbox(0x1c)) && T1(0x1c) == Linear(Sbox(0x1c) << 8)
    ensures T2(0x1c) == Linear(Sbox(0x1c) << 16) && T3(0x1c) == Linear(Sbox(0x1c) << 24)
    ensures T0(0x1d) == Linear(Sbox(0x1d)) && T1(0x1d) == Linear(Sbox(0x1d) << 8)
    ensures T2(0x1d) == Linear(Sbox(0x1d) << 16) && T3(0x1d) == Linear(Sbox(0x1d) << 24)
    ensures T0(0x1e) == Linear(Sbox(0x1e)) && T1(0x1e) == Linear(Sbox(0x1e) << 8)
    ensures T2(0x1e) == Linear(Sbox(0x1e) << 16) && T3(0x1e) == Linear(Sbox(0x1e) << 24)
    ensures T0(0x1f) == Linear(Sbox(0x1f)) && T1(0x1f) == Linear(Sbox(0x1f) << 8)
    ensures T2(0x1f) == Linear(Sbox(0x1f) << 16) && T3(0x1f) == Linear(Sbox(0x1f) << 24)
  {}

  lemma Entries8()
    ensures T0(0x20) == Linear(Sbox(0x20)) && T1(0x20) == Linear(Sbox(0x20) << 8)
    ensures T2(0x20) == Linear(Sbox(0x20) << 16) && T3(0x20) == Linear(Sbox(0x20) << 24)
    ensures T0(0x21) == Linear(Sbox(0x21)) && T1(0x21) == Linear(Sbox(0x21) << 8)
    ensures T2(0x21) == Linear(Sbox(0x21) << 16) && T3(0x21) == Linear(Sbox(0x21) << 24)
    ensures T0(0x22) == Linear(Sbox(0x22)) && T1(0x22) == Linear(Sbox(0x22) << 8)
    ensures T2(0x22) == Linear(Sbox(0x22) << 16) && T3(0x22) == Linear(Sbox(0x22) << 24)
    ensures T0(0x23) == Linear(Sbox(0x23)) && T1(0x23) == Linear(Sbox(0x23) << 8)
    ensures T2(0x23) == Linear(Sbox(0x23) << 16) && T3(0x23) == Linear(Sbox(0x23) << 24)
  {}

  lemma Entries9()
    ensures T0(0x24) == Linear(Sbox(0x24)) && T1(0x24) == Linear(Sbox(0x24) << 8)
    ensures T2(0x24) == Linear(Sbox(0x24) << 16) && T3(0x24) == Linear(Sbox(0x24) << 24)
    ensures T0(0x25) == Linear(Sbox(0x25)) && T1(0x25) == Linear(Sbox(0x25) << 8)
    ensures T2(0x25) == Linear(Sbox(0x25) << 16) && T3(0x25) == Linear(Sbox(0x25) << 24)
    ensures T0(0x26) == Linear(Sbox(0x26)) && T1(0x26) == Linear(Sbox(0x26) << 8)
    ensures T2(0x26) == Linear(Sbox(0x26) << 16) && T3(0x26) == Linear(Sbox(0x26) << 24)
    ensures T0(0x27) == Linear(Sbox(0x27)) && T1(0x27) == Linear(Sbox(0x27) << 8)
    ensures T2(0x27) == Linear(Sbox(0x27) << 16) && T3(0x27) == Linear(Sbox(0x27) << 24)
  {}

  lemma Entries10()
    ensures T0(0x28) == Linear(Sbox(0x28)) && T1(0x28) == Linear(Sbox(0x28) << 8)
    ensures T2(0x28) == Linear(Sbox(0x28) << 16) && T3(0x28) == Linear(Sbox(0x28) << 24)
    ensures T0(0x29) == Linear(Sbox(0x29)) && T1(0x29) == Linear(Sbox(0x29) << 8)
    ensures T2(0x29) == Linear(Sbox(0x29) << 16) && T3(0x29) == Linear(Sbox(0x29) << 24)
    ensures T0(0x2a) == Linear(Sbox(0x2a)) && T1(0x2a) == Linear(Sbox(0x2a) << 8)
    ensures T2(0x2a) == Linear(Sbox(0x2a) << 16) && T3(0x2a) == Linear(Sbox(0x2a) << 24)
    ensures T0(0x2b) == Linear(Sbox(0x2b)) && T1(0x2b) == Linear(Sbox(0x2b) << 8)
    ensures T2(0x2b) == Linear(Sbox(0x2b) << 16) && T3(0x2b) == Linear(Sbox(0x2b) << 24)
  {}

  lemma Entries11()
    ensures T0(0x2c) == Linear(Sbox(0x2c)) && T1(0x2c) == Linear(Sbox(0x2c) << 8)
    ensures T2(0x2c) == Linear(Sbox(0x2c) << 16) && T3(0x2c) == Linear(Sbox(0x2c) << 24)
    ensures T0(0x2d) == Linear(Sbox(0x2d)) && T1(0x2d) == Linear(Sbox(0x2d) << 8)
    ensures T2(0x2d) == Linear(Sbox(0x2d) << 16) && T3(0x2d) == Linear(Sbox(0x2d) << 24)
    ensures T0(0x2e) == Linear(Sbox(0x2e)) && T1(0x2e) == Linear(Sbox(0x2e) << 8)
    ensures T2(0x2e) == Linear(Sbox(0x2e) << 16) && T3(0x2e) == Linear(Sbox(0x2e) << 24)
    ensures T0(0x2f) == Linear(Sbox(0x2f)) && T1(0x2f) == Linear(Sbox(0x2f) << 8)
    ensures T2(0x2f) == Linear(Sbox(0x2f) << 16) && T3(0x2f) == Linear(Sbox(0x2f) << 24)
  {}

  lemma Entries12()
    ensures T0(0x30) == Linear(Sbox(0x30)) && T1(0x30) == Linear(Sbox(0x30) << 8)
    ensures T2(0x30) == Linear(Sbox(0x30) << 16) && T3(0x30) == Linear(Sbox(0x30) << 24)
    ensures T0(0x31) == Linear(Sbox(0x31)) && T1(0x31) == Linear(Sbox(0x31) << 8)
    ensures T2(0x31) == Linear(Sbox(0x31) << 16) && T3(0x31) == Linear(Sbox(0x31) << 24)
    ensures T0(0x32) == Linear(Sbox(0x32)) && T1(0x32) == Linear(Sbox(0x32) << 8)
    ensures T2(0x32) == Linear(Sbox(0x32) << 16) && T3(0x32) == Linear(Sbox(0x32) << 24)
    ensures T0(0x33) == Linear(Sbox(0x33)) && T1(0x33) == Linear(Sbox(0x33) << 8)
    ensures T2(0x33) == Linear(Sbox(0x33) << 16) && T3(0x33) == Linear(Sbox(0x33) << 24)
  {}

  lemma Entries13()
    ensures T0(0x34) == Linear(Sbox(0x34)) && T1(0x34) == Linear(Sbox(0x34) << 8)
    ensures T2(0x34) == Linear(Sbox(0x34) << 16) && T3(0x34) == Linear(Sbox(0x34) << 24)
    ensures T0(0x35) == Linear(Sbox(0x35)) && T1(0x35) == Linear(Sbox(0x35) << 8)
    ensures T2(0x35) == Linear(Sbox(0x35) << 16) && T3(0x35) == Linear(Sbox(0x35) << 24)
    ensures T0(0x36) == Linear(Sbox(0x36)) && T1(0x36) == Linear(Sbox(0x36) << 8)
    ensures T2(0x36) == Linear(Sbox(0x36) << 16) && T3(0x36) == Linear(Sbox(0x36) << 24)
    ensures T0(0x37) == Linear(Sbox(0x37)) && T1(0x37) == Linear(Sbox(0x37) << 8)
    ensures T2(0x37) == Linear(Sbox(0x37) << 16) && T3(0x37) == Linear(Sbox(0x37) << 24)
  {}

  lemma Entries14()
    ensures T0(0x38) == Linear(Sbox(0x38)) && T1(0x38) == Linear(Sbox(0x38) << 8)
    ensures T2(0x38) == Linear(Sbox(0x38) << 16) && T3(0x38) == Linear(Sbox(0x38) << 24)
    ensures T0(0x39) == Linear(Sbox(0x39)) && T1(0x39) == Linear(Sbox(0x39) << 8)
    ensures T2(0x39) == Linear(Sbox(0x39) << 16) && T3(0x39) == Linear(Sbox(0x39) << 24)
    ensures T0(0x3a) == Linear(Sbox(0x3a)) && T1(0x3a) == Linear(Sbox(0x3a) << 8)
    ensures T2(0x3a) == Linear(Sbox(0x3a) << 16) && T3(0x3a) == Linear(Sbox(0x3a) << 24)
    ensures T0(0x3b) == Linear(Sbox(0x3b)) && T1(0x3b) == Linear(Sbox(0x3b) << 8)
    ensures T2(0x3b) == Linear(Sbox(0x3b) << 16) && T3(0x3b) == Linear(Sbox(0x3b) << 24)
  {}

  lemma Entries15()
    ensures T0(0x3c) == Linear(Sbox(0x3c)) && T1(0x3c) == Linear(Sbox(0x3c) << 8)
    ensures T2(0x3c) == Linear(Sbox(0x3c) << 16) && T3(0x3c) == Linear(Sbox(0x3c) << 24)
    ensures T0(0x3d) == Linear(Sbox(0x3d)) && T1(0x3d) == Linear(Sbox(0x3d) << 8)
    ensures T2(0x3d) == Linear(Sbox(0x3d) << 16) && T3(0x3d) == Linear(Sbox(0x3d) << 24)
    ensures T0(0x3e) == Linear(Sbox(0x3e)) && T1(0x3e) == Linear(Sbox(0x3e) << 8)
    ensures T2(0x3e) == Linear(Sbox(0x3e) << 16) && T3(0x3e) == Linear(Sbox(0x3e) << 24)
    ensures T0(0x3f) == Linear(Sbox(0x3f)) && T1(0x3f) == Linear(Sbox(0x3f) << 8)
    ensures T2(0x3f) == Linear(Sbox(0x3f) << 16) && T3(0x3f) == Linear(Sbox(0x3f) << 24)
  {}

  lemma Entries16()
    ensures T0(0x40) == Linear(Sbox(0x40)) && T1(0x40) == Linear(Sbox(0x40) << 8)
    ensures T2(0x40) == Linear(Sbox(0x40) << 16) && T3(0x40) == Linear(Sbox(0x40) << 24)
    ensures T0(0x41) == Linear(Sbox(0x41)) && T1(0x41) == Linear(Sbox(0x41) << 8)
    ensures T2(0x41) == Linear(Sbox(0x41) << 16) && T3(0x41) == Linear(Sbox(0x41) << 24)
    ensures T0(0x42) == Linear(Sbox(0x42)) && T1(0x42) == Linear(Sbox(0x42) << 8)
    ensures T2(0x42) == Linear(Sbox(0x42) << 16) && T3(0x42) == Linear(Sbox(0x42) << 24)
    ensures T0(0x43) == Linear(Sbox(0x43)) && T1(0x43) == Linear(Sbox(0x43) << 8)
    ensures T2(0x43) == Linear(Sbox(0x43) << 16) && T3(0x43) == Linear(Sbox(0x43) << 24)
  {}

  lemma Entries17()
    ensures T0(0x44) == Linear(Sbox(0x44)) && T1(0x44) == Linear(Sbox(0x44) << 8)
    ensures T2(0x44) == Linear(Sbox(0x44) << 16) && T3(0x44) == Linear(Sbox(0x44) << 24)
    ensures T0(0x45) == Linear(Sbox(0x45)) && T1(0x45) == Linear(Sbox(0x45) << 8)
    ensures T2(0x45) == Linear(Sbox(0x45) << 16) && T3(0x45) == Linear(Sbox(0x45) << 24)
    ensures T0(0x46) == Linear(Sbox(0x46)) && T1(0x46) == Linear(Sbox(0x46) << 8)
    ensures T2(0x46) == Linear(Sbox(0x46) << 16) && T3(0x46) == Linear(Sbox(0x46) << 24)
    ensures T0(0x47) == Linear(Sbox(0x47)) && T1(0x47) == Linear(Sbox(0x47) << 8)
    ensures T2(0x47) == Linear(Sbox(0x47) << 16) && T3(0x47) == Linear(Sbox(0x47) << 24)
  {}

  lemma Entries18()
    ensures T0(0x48) == Linear(Sbox(0x48)) && T1(0x48) == Linear(Sbox(0x48) << 8)
    ensures T2(0x48) == Linear(Sbox(0x48) << 16) && T3(0x48) == Linear(Sbox(0x48) << 24)
    ensures T0(0x49) == Linear(Sbox(0x49)) && T1(0x49) == Linear(Sbox(0x49) << 8)
    ensures T2(0x49) == Linear(Sbox(0x49) << 16) && T3(0x49) == Linear(Sbox(0x49) << 24)
    ensures T0(0x4a) == Linear(Sbox(0x4a)) && T1(0x4a) == Linear(Sbox(0x4a) << 8)
    ensures T2(0x4a) == Linear(Sbox(0x4a) << 16) && T3(0x4a) == Linear(Sbox(0x4a) << 24)
    ensures T0(0x4b) == Linear(Sbox(0x4b)) && T1(0x4b) == Linear(Sbox(0x4b) << 8)
    ensures T2(0x4b) == Linear(Sbox(0x4b) << 16) && T3(0x4b) == Linear(Sbox(0x4b) << 24)
  {}

  lemma Entries19()
    ensures T0(0x4c) == Linear(Sbox(0x4c)) && T1(0x4c) == Linear(Sbox(0x4c) << 8)
    ensures T2(0x4c) == Linear(Sbox(0x4c) << 16) && T3(0x4c) == Linear(Sbox(0x4c) << 24)
    ensures T0(0x4d) == Linear(Sbox(0x4d)) && T1(0x4d) == Linear(Sbox(0x4d) << 8)
    ensures T2(0x4d) == Linear(Sbox(0x4d) << 16) && T3(0x4d) == Linear(Sbox(0x4d) << 24)
    ensures T0(0x4e) == Linear(Sbox(0x4e)) && T1(0x4e) == Linear(Sbox(0x4e) << 8)
    ensures T2(0x4e) == Linear(Sbox(0x4e) << 16) && T3(0x4e) == Linear(Sbox(0x4e) << 24)
    ensures T0(0x4f) == Linear(Sbox(0x4f)) && T1(0x4f) == Linear(Sbox(0x4f) << 8)
    ensures T2(0x4f) == Linear(Sbox(0x4f) << 16) && T3(0x4f) == Linear(Sbox(0x4f) << 24)
  {}

  lemma Entries20()
    ensures T0(0x50) == Linear(Sbox(0x50)) && T1(0x50) == Linear(Sbox(0x50) << 8)
    ensures T2(0x50) == Linear(Sbox(0x50) << 16) && T3(0x50) == Linear(Sbox(0x50) << 24)
    ensures T0(0x51) == Linear(Sbox(0x51)) && T1(0x51) == Linear(Sbox(0x51) << 8)
    ensures T2(0x51) == Linear(Sbox(0x51) << 16) && T3(0x51) == Linear(Sbox(0x51) << 24)
    ensures T0(0x52) == Linear(Sbox(0x52)) && T1(0x52) == Linear(Sbox(0x52) << 8)
    ensures T2(0x52) == Linear(Sbox(0x52) << 16) && T3(0x52) == Linear(Sbox(0x52) << 24)
    ensures T0(0x53) == Linear(Sbox(0x53)) && T1(0x53) == Linear(Sbox(0x53) << 8)
    ensures T2(0x53) == Linear(Sbox(0x53) << 16) && T3(0x53) == Linear(Sbox(0x53) << 24)
  {}

  lemma Entries21()
    ensures T0(0x54) == Linear(Sbox(0x54)) && T1(0x54) == Linear(Sbox(0x54) << 8)
    ensures T2(0x54) == Linear(Sbox(0x54) << 16) && T3(0x54) == Linear(Sbox(0x54) << 24)
    ensures T0(0x55) == Linear(Sbox(0x55)) && T1(0x55) == Linear(Sbox(0x55) << 8)
    ensures T2(0x55) == Linear(Sbox(0x55) << 16) && T3(0x55) == Linear(Sbox(0x55) << 24)
    ensures T0(0x56) == Linear(Sbox(0x56)) && T1(0x56) == Linear(Sbox(0x56) << 8)
    ensures T2(0x56) == Linear(Sbox(0x56) << 16) && T3(0x56) == Linear(Sbox(0x56) << 24)
    ensures T0(0x57) == Linear(Sbox(0x57)) && T1(0x57) == Linear(Sbox(0x57) << 8)
    ensures T2(0x57) == Linear(Sbox(0x57) << 16) && T3(0x57) == Linear(Sbox(0x57) << 24)
  {}

  lemma Entries22()
    ensures T0(0x58) == Linear(Sbox(0x58)) && T1(0x58) == Linear(Sbox(0x58) << 8)
    ensures T2(0x58) == Linear(Sbox(0x58) << 16) && T3(0x58) == Linear(Sbox(0x58) << 24)
    ensures T0(0x59) == Linear(Sbox(0x59)) && T1(0x59) == Linear(Sbox(0x59) << 8)
    ensures T2(0x59) == Linear(Sbox(0x59) << 16) && T3(0x59) == Linear(Sbox(0x59) << 24)
    ensures T0(0x5a) == Linear(Sbox(0x5a)) && T1(0x5a) == Linear(Sbox(0x5a) << 8)
    ensures T2(0x5a) == Linear(Sbox(0x5a) << 16) && T3(0x5a) == Linear(Sbox(0x5a) << 24)
    ensures T0(0x5b) == Linear(Sbox(0x5b)) && T1(0x5b) == Linear(Sbox(0x5b) << 8)
    ensures T2(0x5b) == Linear(Sbox(0x5b) << 16) && T3(0x5b) == Linear(Sbox(0x5b) << 24)
  {}

  lemma Entries23()
    ensures T0(0x5c) == Linear(Sbox(0x5c)) && T1(0x5c) == Linear(Sbox(0x5c) << 8)
    ensures T2(0x5c) == Linear(Sbox(0x5c) << 16) && T3(0x5c) == Linear(Sbox(0x5c) << 24)
    ensures T0(0x5d) == Linear(Sbox(0x5d)) && T1(0x5d) == Linear(Sbox(0x5d) << 8)
    ensures T2(0x5d) == Linear(Sbox(0x5d) << 16) && T3(0x5d) == Linear(Sbox(0x5d) << 24)
    ensures T0(0x5e) == Linear(Sbox(0x5e)) && T1(0x5e) == Linear(Sbox(0x5e) << 8)
    ensures T2(0x5e) == Linear(Sbox(0x5e) << 16) && T3(0x5e) == Linear(Sbox(0x5e) << 24)
    ensures T0(0x5f) == Linear(Sbox(0x5f)) && T1(0x5f) == Linear(Sbox(0x5f) << 8)
    ensures T2(0x5f) == Linear(Sbox(0x5f) << 16) && T3(0x5f) == Linear(Sbox(0x5f) << 24)
  {}

  lemma Entries24()
    ensures T0(0x60) == Linear(Sbox(0x60)) && T1(0x60) == Linear(Sbox(0x60) << 8)
    ensures T2(0x60) == Linear(Sbox(0x60) << 16) && T3(0x60) == Linear(Sbox(0x60) << 24)
    ensures T0(0x61) == Linear(Sbox(0x61)) && T1(0x61) == Linear(Sbox(0x61) << 8)
    ensures T2(0x61) == Linear(Sbox(0x61) << 16) && T3(0x61) == Linear(Sbox(0x61) << 24)
    ensures T0(0x62) == Linear(Sbox(0x62)) && T1(0x62) == Linear(Sbox(0x62) << 8)
    ensures T2(0x62) == Linear(Sbox(0x62) << 16) && T3(0x62) == Linear(Sbox(0x62) << 24)
    ensures T0(0x63) == Linear(Sbox(0x63)) && T1(0x63) == Linear(Sbox(0x63) << 8)
    ensures T2(0x63) == Linear(Sbox(0x63) << 16) && T3(0x63) == Linear(Sbox(0x63) << 24)
  {}

  lemma Entries25()
    ensures T0(0x64) == Linear(Sbox(0x64)) && T1(0x64) == Linear(Sbox(0x64) << 8)
    ensures T2(0x64) == Linear(Sbox(0x64) << 16) && T3(0x64) == Linear(Sbox(0x64) << 24)
    ensures T0(0x65) == Linear(Sbox(0x65)) && T1(0x65) == Linear(Sbox(0x65) << 8)
    ensures T2(0x65) == Linear(Sbox(0x65) << 16) && T3(0x65) == Linear(Sbox(0x65) << 24)
    ensures T0(0x66) == Linear(Sbox(0x66)) && T1(0x66) == Linear(Sbox(0x66) << 8)
    ensures T2(0x66) == Linear(Sbox(0x66) << 16) && T3(0x66) == Linear(Sbox(0x66) << 24)
    ensures T0(0x67) == Linear(Sbox(0x67)) && T1(0x67) == Linear(Sbox(0x67) << 8)
    ensures T2(0x67) == Linear(Sbox(0x67) << 16) && T3(0x67) == Linear(Sbox(0x67) << 24)
  {}

  lemma Entries26()
    ensures T0(0x68) == Linear(Sbox(0x68)) && T1(0x68) == Linear(Sbox(0x68) << 8)
    ensures T2(0x68) == Linear(Sbox(0x68) << 16) && T3(0x68) == Linear(Sbox(0x68) << 24)
    ensures T0(0x69) == Linear(Sbox(0x69)) && T1(0x69) == Linear(Sbox(0x69) << 8)
    ensures T2(0x69) == Linear(Sbox(0x69) << 16) && T3(0x69) == Linear(Sbox(0x69) << 24)
    ensures T0(0x6a) == Linear(Sbox(0x6a)) && T1(0x6a) == Linear(Sbox(0x6a) << 8)
    ensures T2(0x6a) == Linear(Sbox(0x6a) << 16) && T3(0x6a) == Linear(Sbox(0x6a) << 24)
    ensures T0(0x6b) == Linear(Sbox(0x6b)) && T1(0x6b) == Linear(Sbox(0x6b) << 8)
    ensures T2(0x6b) == Linear(Sbox(0x6b) << 16) && T3(0x6b) == Linear(Sbox(0x6b) << 24)
  {}

  lemma Entries27()
    ensures T0(0x6c) == Linear(Sbox(0x6c)) && T1(0x6c) == Linear(Sbox(0x6c) << 8)
    ensures T2(0x6c) == Linear(Sbox(0x6c) << 16) && T3(0x6c) == Linear(Sbox(0x6c) << 24)
    ensures T0(0x6d) == Linear(Sbox(0x6d)) && T1(0x6d) == Linear(Sbox(0x6d) << 8)
    ensures T2(0x6d) == Linear(Sbox(0x6d) << 16) && T3(0x6d) == Linear(Sbox(0x6d) << 24)
    ensures T0(0x6e) == Linear(Sbox(0x6e)) && T1(0x6e) == Linear(Sbox(0x6e) << 8)
    ensures T2(0x6e) == Linear(Sbox(0x6e) << 16) && T3(0x6e) == Linear(Sbox(0x6e) << 24)
    ensures T0(0x6f) == Linear(Sbox(0x6f)) && T1(0x6f) == Linear(Sbox(0x6f) << 8)
    ensures T2(0x6f) == Linear(Sbox(0x6f) << 16) && T3(0x6f) == Linear(Sbox(0x6f) << 24)
  {}

  lemma Entries28()
    ensures T0(0x70) == Linear(Sbox(0x70)) && T1(0x70) == Linear(Sbox(0x70) << 8)
    ensures T2(0x70) == Linear(Sbox(0x70) << 16) && T3(0x70) == Linear(Sbox(0x70) << 24)
    ensures T0(0x71) == Linear(Sbox(0x71)) && T1(0x71) == Linear(Sbox(0x71) << 8)
    ensures T2(0x71) == Linear(Sbox(0x71) << 16) && T3(0x71) == Linear(Sbox(0x71) << 24)
    ensures T0(0x72) == Linear(Sbox(0x72)) && T1(0x72) == Linear(Sbox(0x72) << 8)
    ensures T2(0x72) == Linear(Sbox(0x72) << 16) && T3(0x72) == Linear(Sbox(0x72) << 24)
    ensures T0(0x73) == Linear(Sbox(0x73)) && T1(0x73) == Linear(Sbox(0x73) << 8)
    ensures T2(0x73) == Linear(Sbox(0x73) << 16) && T3(0x73) == Linear(Sbox(0x73) << 24)
  {}

  lemma Entries29()
    ensures T0(0x74) == Linear(Sbox(0x74)) && T1(0x74) == Linear(Sbox(0x74) << 8)
    ensures T2(0x74) == Linear(Sbox(0x74) << 16) && T3(0x74) == Linear(Sbox(0x74) << 24)
    ensures T0(0x75) == Linear(Sbox(0x75)) && T1(0x75) == Linear(Sbox(0x75) << 8)
    ensures T2(0x75) == Linear(Sbox(0x75) << 16) && T3(0x75) == Linear(Sbox(0x75) << 24)
    ensures T0(0x76) == Linear(Sbox(0x76)) && T1(0x76) == Linear(Sbox(0x76) << 8)
    ensures T2(0x76) == Linear(Sbox(0x76) << 16) && T3(0x76) == Linear(Sbox(0x76) << 24)
    ensures T0(0x77) == Linear(Sbox(0x77)) && T1(0x77) == Linear(Sbox(0x77) << 8)
    ensures T2(0x77) == Linear(Sbox(0x77) << 16) && T3(0x77) == Linear(Sbox(0x77) << 24)
  {}

  lemma Entries30()
    ensures T0(0x78) == Linear(Sbox(0x78)) && T1(0x78) == Linear(Sbox(0x78) << 8)
    ensures T2(0x78) == Linear(Sbox(0x78) << 16) && T3(0x78) == Linear(Sbox(0x78) << 24)
    ensures T0(0x79) == Linear(Sbox(0x79)) && T1(0x79) == Linear(Sbox(0x79) << 8)
    ensures T2(0x79) == Linear(Sbox(0x79) << 16) && T3(0x79) == Linear(Sbox(0x79) << 24)
    ensures T0(0x7a) == Linear(Sbox(0x7a)) && T1(0x7a) == Linear(Sbox(0x7a) << 8)
    ensures T2(0x7a) == Linear(Sbox(0x7a) << 16) && T3(0x7a) == Linear(Sbox(0x7a) << 24)
    ensures T0(0x7b) == Linear(Sbox(0x7b)) && T1(0x7b) == Linear(Sbox(0x7b) << 8)
    ensures T2(0x7b) == Linear(Sbox(0x7b) << 16) && T3(0x7b) == Linear(Sbox(0x7b) << 24)
  {}

  lemma Entries31()
    ensures T0(0x7c) == Linear(Sbox(0x7c)) && T1(0x7c) == Linear(Sbox(0x7c) << 8)
    ensures T2(0x7c) == Linear(Sbox(0x7c) << 16) && T3(0x7c) == Linear(Sbox(0x7c) << 24)
    ensures T0(0x7d) == Linear(Sbox(0x7d)) && T1(0x7d) == Linear(Sbox(0x7d) << 8)
    ensures T2(0x7d) == Linear(Sbox(0x7d) << 16) && T3(0x7d) == Linear(Sbox(0x7d) << 24)
    ensures T0(0x7e) == Linear(Sbox(0x7e)) && T1(0x7e) == Linear(Sbox(0x7e) << 8)
    ensures T2(0x7e) == Linear(Sbox(0x7e) << 16) && T3(0x7e) == Linear(Sbox(0x7e) << 24)
    ensures T0(0x7f) == Linear(Sbox(0x7f)) && T1(0x7f) == Linear(Sbox(0x7f) << 8)
    ensures T2(0x7f) == Linear(Sbox(0x7f) << 16) && T3(0x7f) == Linear(Sbox(0x7f) << 24)
  {}

  lemma Entries32()
    ensures T0(0x80) == Linear(Sbox(0x80)) && T1(0x80) == Linear(Sbox(0x80) << 8)
    ensures T2(0x80) == Linear(Sbox(0x80) << 16) && T3(0x80) == Linear(Sbox(0x80) << 24)
    ensures T0(0x81) == Linear(Sbox(0x81)) && T1(0x81) == Linear(Sbox(0x81) << 8)
    ensures T2(0x81) == Linear(Sbox(0x81) << 16) && T3(0x81) == Linear(Sbox(0x81) << 24)
    ensures T0(0x82) == Linear(Sbox(0x82)) && T1(0x82) == Linear(Sbox(0x82) << 8)
    ensures T2(0x82) == Linear(Sbox(0x82) << 16) && T3(0x82) == Linear(Sbox(0x82) << 24)
    ensures T0(0x83) == Linear(Sbox(0x83)) && T1(0x83) == Linear(Sbox(0x83) << 8)
    ensures T2(0x83) == Linear(Sbox(0x83) << 16) && T3(0x83) == Linear(Sbox(0x83) << 24)
  {}

  lemma Entries33()
    ensures T0(0x84) == Linear(Sbox(0x84)) && T1(0x84) == Linear(Sbox(0x84) << 8)
    ensures T2(0x84) == Linear(Sbox(0x84) << 16) && T3(0x84) == Linear(Sbox(0x84) << 24)
    ensures T0(0x85) == Linear(Sbox(0x85)) && T1(0x85) == Linear(Sbox(0x85) << 8)
    ensures T2(0x85) == Linear(Sbox(0x85) << 16) && T3(0x85) == Linear(Sbox(0x85) << 24)
    ensures T0(0x86) == Linear(Sbox(0x86)) && T1(0x86) == Linear(Sbox(0x86) << 8)
    ensures T2(0x86) == Linear(Sbox(0x86) << 16) && T3(0x86) == Linear(Sbox(0x86) << 24)
    ensures T0(0x87) == Linear(Sbox(0x87)) && T1(0x87) == Linear(Sbox(0x87) << 8)
    ensures T2(0x87) == Linear(Sbox(0x87) << 16) && T3(0x87) == Linear(Sbox(0x87) << 24)
  {}

  lemma Entries34()
    ensures T0(0x88) == Linear(Sbox(0x88)) && T1(0x88) == Linear(Sbox(0x88) << 8)
    ensures T2(0x88) == Linear(Sbox(0x88) << 16) && T3(0x88) == Linear(Sbox(0x88) << 24)
    ensures T0(0x89) == Linear(Sbox(0x89)) && T1(0x89) == Linear(Sbox(0x89) << 8)
    ensures T2(0x89) == Linear(Sbox(0x89) << 16) && T3(0x89) == Linear(Sbox(0x89) << 24)
    ensures T0(0x8a) == Linear(Sbox(0x8a)) && T1(0x8a) == Linear(Sbox(0x8a) << 8)
    ensures T2(0x8a) == Linear(Sbox(0x8a) << 16) && T3(0x8a) == Linear(Sbox(0x8a) << 24)
    ensures T0(0x8b) == Linear(Sbox(0x8b)) && T1(0x8b) == Linear(Sbox(0x8b) << 8)
    ensures T2(0x8b) == Linear(Sbox(0x8b) << 16) && T3(0x8b) == Linear(Sbox(0x8b) << 24)
  {}

  lemma Entries35()
    ensures T0(0x8c) == Linear(Sbox(0x8c)) && T1(0x8c) == Linear(Sbox(0x8c) << 8)
    ensures T2(0x8c) == Linear(Sbox(0x8c) << 16) && T3(0x8c) == Linear(Sbox(0x8c) << 24)
    ensures T0(0x8d) == Linear(Sbox(0x8d)) && T1(0x8d) == Linear(Sbox(0x8d) << 8)
    ensures T2(0x8d) == Linear(Sbox(0x8d) << 16) && T3(0x8d) == Linear(Sbox(0x8d) << 24)
    ensures T0(0x8e) == Linear(Sbox(0x8e)) && T1(0x8e) == Linear(Sbox(0x8e) << 8)
    ensures T2(0x8e) == Linear(Sbox(0x8e) << 16) && T3(0x8e) == Linear(Sbox(0x8e) << 24)
    ensures T0(0x8f) == Linear(Sbox(0x8f)) && T1(0x8f) == Linear(Sbox(0x8f) << 8)
    ensures T2(0x8f) == Linear(Sbox(0x8f) << 16) && T3(0x8f) == Linear(Sbox(0x8f) << 24)
  {}

  lemma Entries36()
    ensures T0(0x90) == Linear(Sbox(0x90)) && T1(0x90) == Linear(Sbox(0x90) << 8)
    ensures T2(0x90) == Linear(Sbox(0x90) << 16) && T3(0x90) == Linear(Sbox(0x90) << 24)
    ensures T0(0x91) == Linear(Sbox(0x91)) && T1(0x91) == Linear(Sbox(0x91) << 8)
    ensures T2(0x91) == Linear(Sbox(0x91) << 16) && T3(0x91) == Linear(Sbox(0x91) << 24)
    ensures T0(0x92) == Linear(Sbox(0x92)) && T1(0x92) == Linear(Sbox(0x92) << 8)
    ensures T2(0x92) == Linear(Sbox(0x92) << 16) && T3(0x92) == Linear(Sbox(0x92) << 24)
    ensures T0(0x93) == Linear(Sbox(0x93)) && T1(0x93) == Linear(Sbox(0x93) << 8)
    ensures T2(0x93) == Linear(Sbox(0x93) << 16) && T3(0x93) == Linear(Sbox(0x93) << 24)
  {}

  lemma Entries37()
    ensures T0(0x94) == Linear(Sbox(0x94)) && T1(0x94) == Linear(Sbox(0x94) << 8)
    ensures T2(0x94) == Linear(Sbox(0x94) << 16) && T3(0x94) == Linear(Sbox(0x94) << 24)
    ensures T0(0x95) == Linear(Sbox(0x95)) && T1(0x95) == Linear(Sbox(0x95) << 8)
    ensures T2(0x95) == Linear(Sbox(0x95) << 16) && T3(0x95) == Linear(Sbox(0x95) << 24)
    ensures T0(0x96) == Linear(Sbox(0x96)) && T1(0x96) == Linear(Sbox(0x96) << 8)
    ensures T2(0x96) == Linear(Sbox(0x96) << 16) && T3(0x96) == Linear(Sbox(0x96) << 24)
    ensures T0(0x97) == Linear(Sbox(0x97)) && T1(0x97) == Linear(Sbox(0x97) << 8)
    ensures T2(0x97) == Linear(Sbox(0x97) << 16) && T3(0x97) == Linear(Sbox(0x97) << 24)
  {}

  lemma Entries38()
    ensures T0(0x98) == Linear(Sbox(0x98)) && T1(0x98) == Linear(Sbox(0x98) << 8)
    ensures T2(0x98) == Linear(Sbox(0x98) << 16) && T3(0x98) == Linear(Sbox(0x98) << 24)
    ensures T0(0x99) == Linear(Sbox(0x99)) && T1(0x99) == Linear(Sbox(0x99) << 8)
    ensures T2(0x99) == Linear(Sbox(0x99) << 16) && T3(0x99) == Linear(Sbox(0x99) << 24)
    ensures T0(0x9a) == Linear(Sbox(0x9a)) && T1(0x9a) == Linear(Sbox(0x9a) << 8)
    ensures T2(0x9a) == Linear(Sbox(0x9a) << 16) && T3(0x9a) == Linear(Sbox(0x9a) << 24)
    ensures T0(0x9b) == Linear(Sbox(0x9b)) && T1(0x9b) == Linear(Sbox(0x9b) << 8)
    ensures T2(0x9b) == Linear(Sbox(0x9b) << 16) && T3(0x9b) == Linear(Sbox(0x9b) << 24)
  {}

  lemma Entries39()
    ensures T0(0x9c) == Linear(Sbox(0x9c)) && T1(0x9c) == Linear(Sbox(0x9c) << 8)
    ensures T2(0x9c) == Linear(Sbox(0x9c) << 16) && T3(0x9c) == Linear(Sbox(0x9c) << 24)
    ensures T0(0x9d) == Linear(Sbox(0x9d)) && T1(0x9d) == Linear(Sbox(0x9d) << 8)
    ensures T2(0x9d) == Linear(Sbox(0x9d) << 16) && T3(0x9d) == Linear(Sbox(0x9d) << 24)
    ensures T0(0x9e) == Linear(Sbox(0x9e)) && T1(0x9e) == Linear(Sbox(0x9e) << 8)
    ensures T2(0x9e) == Linear(Sbox(0x9e) << 16) && T3(0x9e) == Linear(Sbox(0x9e) << 24)
    ensures T0(0x9f) == Linear(Sbox(0x9f)) && T1(0x9f) == Linear(Sbox(0x9f) << 8)
    ensures T2(0x9f) == Linear(Sbox(0x9f) << 16) && T3(0x9f) == Linear(Sbox(0x9f) << 24)
  {}

  lemma Entries40()
    ensures T0(0xa0) == Linear(Sbox(0xa0)) && T1(0xa0) == Linear(Sbox(0xa0) << 8)
    ensures T2(0xa0) == Linear(Sbox(0xa0) << 16) && T3(0xa0) == Linear(Sbox(0xa0) << 24)
    ensures T0(0xa1) == Linear(Sbox(0xa1)) && T1(0xa1) == Linear(Sbox(0xa1) << 8)
    ensures T2(0xa1) == Linear(Sbox(0xa1) << 16) && T3(0xa1) == Linear(Sbox(0xa1) << 24)
    ensures T0(0xa2) == Linear(Sbox(0xa2)) && T1(0xa2) == Linear(Sbox(0xa2) << 8)
    ensures T2(0xa2) == Linear(Sbox(0xa2) << 16) && T3(0xa2) == Linear(Sbox(0xa2) << 24)
    ensures T0(0xa3) == Linear(Sbox(0xa3)) && T1(0xa3) == Linear(Sbox(0xa3) << 8)
    ensures T2(0xa3) == Linear(Sbox(0xa3) << 16) && T3(0xa3) == Linear(Sbox(0xa3) << 24)
  {}

  lemma Entries41()
    ensures T0(0xa4) == Linear(Sbox(0xa4)) && T1(0xa4) == Linear(Sbox(0xa4) << 8)
    ensures T2(0xa4) == Linear(Sbox(0xa4) << 16) && T3(0xa4) == Linear(Sbox(0xa4) << 24)
    ensures T0(0xa5) == Linear(Sbox(0xa5)) && T1(0xa5) == Linear(Sbox(0xa5) << 8)
    ensures T2(0xa5) == Linear(Sbox(0xa5) << 16) && T3(0xa5) == Linear(Sbox(0xa5) << 24)
    ensures T0(0xa6) == Linear(Sbox(0xa6)) && T1(0xa6) == Linear(Sbox(0xa6) << 8)
    ensures T2(0xa6) == Linear(Sbox(0xa6) << 16) && T3(0xa6) == Linear(Sbox(0xa6) << 24)
    ensures T0(0xa7) == Linear(Sbox(0xa7)) && T1(0xa7) == Linear(Sbox(0xa7) << 8)
    ensures T2(0xa7) == Linear(Sbox(0xa7) << 16) && T3(0xa7) == Linear(Sbox(0xa7) << 24)
  {}

  lemma Entries42()
    ensures T0(0xa8) == Linear(Sbox(0xa8)) && T1(0xa8) == Linear(Sbox(0xa8) << 8)
    ensures T2(0xa8) == Linear(Sbox(0xa8) << 16) && T3(0xa8) == Linear(Sbox(0xa8) << 24)
    ensures T0(0xa9) == Linear(Sbox(0xa9)) && T1(0xa9) == Linear(Sbox(0xa9) << 8)
    ensures T2(0xa9) == Linear(Sbox(0xa9) << 16) && T3(0xa9) == Linear(Sbox(0xa9) << 24)
    ensures T0(0xaa) == Linear(Sbox(0xaa)) && T1(0xaa) == Linear(Sbox(0xaa) << 8)
    ensures T2(0xaa) == Linear(Sbox(0xaa) << 16) && T3(0xaa) == Linear(Sbox(0xaa) << 24)
    ensures T0(0xab) == Linear(Sbox(0xab)) && T1(0xab) == Linear(Sbox(0xab) << 8)
    ensures T2(0xab) == Linear(Sbox(0xab) << 16) && T3(0xab) == Linear(Sbox(0xab) << 24)
  {}

  lemma Entries43()
    ensures T0(0xac) == Linear(Sbox(0xac)) && T1(0xac) == Linear(Sbox(0xac) << 8)
    ensures T2(0xac) == Linear(Sbox(0xac) << 16) && T3(0xac) == Linear(Sbox(0xac) << 24)
    ensures T0(0xad) == Linear(Sbox(0xad)) && T1(0xad) == Linear(Sbox(0xad) << 8)
    ensures T2(0xad) == Linear(Sbox(0xad) << 16) && T3(0xad) == Linear(Sbox(0xad) << 24)
    ensures T0(0xae) == Linear(Sbox(0xae)) && T1(0xae) == Linear(Sbox(0xae) << 8)
    ensures T2(0xae) == Linear(Sbox(0xae) << 16) && T3(0xae) == Linear(Sbox(0xae) << 24)
    ensures T0(0xaf) == Linear(Sbox(0xaf)) && T1(0xaf) == Linear(Sbox(0xaf) << 8)
    ensures T2(0xaf) == Linear(Sbox(0xaf) << 16) && T3(0xaf) == Linear(Sbox(0xaf) << 24)
  {}

  lemma Entries44()
    ensures T0(0xb0) == Linear(Sbox(0xb0)) && T1(0xb0) == Linear(Sbox(0xb0) << 8)
    ensures T2(0xb0) == Linear(Sbox(0xb0) << 16) && T3(0xb0) == Linear(Sbox(0xb0) << 24)
    ensures T0(0xb1) == Linear(Sbox(0xb1)) && T1(0xb1) == Linear(Sbox(0xb1) << 8)
    ensures T2(0xb1) == Linear(Sbox(0xb1) << 16) && T3(0xb1) == Linear(Sbox(0xb1) << 24)
    ensures T0(0xb2) == Linear(Sbox(0xb2)) && T1(0xb2) == Linear(Sbox(0xb2) << 8)
    ensures T2(0xb2) == Linear(Sbox(0xb2) << 16) && T3(0xb2) == Linear(Sbox(0xb2) << 24)
    ensures T0(0xb3) == Linear(Sbox(0xb3)) && T1(0xb3) == Linear(Sbox(0xb3) << 8)
    ensures T2(0xb3) == Linear(Sbox(0xb3) << 16) && T3(0xb3) == Linear(Sbox(0xb3) << 24)
  {}

  lemma Entries45()
    ensures T0(0xb4) == Linear(Sbox(0xb4)) && T1(0xb4) == Linear(Sbox(0xb4) << 8)
    ensures T2(0xb4) == Linear(Sbox(0xb4) << 16) && T3(0xb4) == Linear(Sbox(0xb4) << 24)
    ensures T0(0xb5) == Linear(Sbox(0xb5)) && T1(0xb5) == Linear(Sbox(0xb5) << 8)
    ensures T2(0xb5) == Linear(Sbox(0xb5) << 16) && T3(0xb5) == Linear(Sbox(0xb5) << 24)
    ensures T0(0xb6) == Linear(Sbox(0xb6)) && T1(0xb6) == Linear(Sbox(0xb6) << 8)
    ensures T2(0xb6) == Linear(Sbox(0xb6) << 16) && T3(0xb6) == Linear(Sbox(0xb6) << 24)
    ensures T0(0xb7) == Linear(Sbox(0xb7)) && T1(0xb7) == Linear(Sbox(0xb7) << 8)
    ensures T2(0xb7) == Linear(Sbox(0xb7) << 16) && T3(0xb7) == Linear(Sbox(0xb7) << 24)
  {}

  lemma Entries46()
    ensures T0(0xb8) == Linear(Sbox(0xb8)) && T1(0xb8) == Linear(Sbox(0xb8) << 8)
    ensures T2(0xb8) == Linear(Sbox(0xb8) << 16) && T3(0xb8) == Linear(Sbox(0xb8) << 24)
    ensures T0(0xb9) == Linear(Sbox(0xb9)) && T1(0xb9) == Linear(Sbox(0xb9) << 8)
    ensures T2(0xb9) == Linear(Sbox(0xb9) << 16) && T3(0xb9) == Linear(Sbox(0xb9) << 24)
    ensures T0(0xba) == Linear(Sbox(0xba)) && T1(0xba) == Linear(Sbox(0xba) << 8)
    ensures T2(0xba) == Linear(Sbox(0xba) << 16) && T3(0xba) == Linear(Sbox(0xba) << 24)
    ensures T0(0xbb) == Linear(Sbox(0xbb)) && T1(0xbb) == Linear(Sbox(0xbb) << 8)
    ensures T2(0xbb) == Linear(Sbox(0xbb) << 16) && T3(0xbb) == Linear(Sbox(0xbb) << 24)
  {}

  lemma Entries47()
    ensures T0(0xbc) == Linear(Sbox(0xbc)) && T1(0xbc) == Linear(Sbox(0xbc) << 8)
    ensures T2(0xbc) == Linear(Sbox(0xbc) << 16) && T3(0xbc) == Linear(Sbox(0xbc) << 24)
    ensures T0(0xbd) == Linear(Sbox(0xbd)) && T1(0xbd) == Linear(Sbox(0xbd) << 8)
    ensures T2(0xbd) == Linear(Sbox(0xbd) << 16) && T3(0xbd) == Linear(Sbox(0xbd) << 24)
    ensures T0(0xbe) == Linear(Sbox(0xbe)) && T1(0xbe) == Linear(Sbox(0xbe) << 8)
    ensures T2(0xbe) == Linear(Sbox(0xbe) << 16) && T3(0xbe) == Linear(Sbox(0xbe) << 24)
    ensures T0(0xbf) == Linear(Sbox(0xbf)) && T1(0xbf) == Linear(Sbox(0xbf) << 8)
    ensures T2(0xbf) == Linear(Sbox(0xbf) << 16) && T3(0xbf) == Linear(Sbox(0xbf) << 24)
  {}

  lemma Entries48()
    ensures T0(0xc0) == Linear(Sbox(0xc0)) && T1(0xc0) == Linear(Sbox(0xc0) << 8)
    ensures T2(0xc0) == Linear(Sbox(0xc0) << 16) && T3(0xc0) == Linear(Sbox(0xc0) << 24)
    ensures T0(0xc1) == Linear(Sbox(0xc1)) && T1(0xc1) == Linear(Sbox(0xc1) << 8)
    ensures T2(0xc1) == Linear(Sbox(0xc1) << 16) && T3(0xc1) == Linear(Sbox(0xc1) << 24)
    ensures T0(0xc2) == Linear(Sbox(0xc2)) && T1(0xc2) == Linear(Sbox(0xc2) << 8)
    ensures T2(0xc2) == Linear(Sbox(0xc2) << 16) && T3(0xc2) == Linear(Sbox(0xc2) << 24)
    ensures T0(0xc3) == Linear(Sbox(0xc3)) && T1(0xc3) == Linear(Sbox(0xc3) << 8)
    ensures T2(0xc3) == Linear(Sbox(0xc3) << 16) && T3(0xc3) == Linear(Sbox(0xc3) << 24)
  {}

  lemma Entries49()
    ensures T0(0xc4) == Linear(Sbox(0xc4)) && T1(0xc4) == Linear(Sbox(0xc4) << 8)
    ensures T2(0xc4) == Linear(Sbox(0xc4) << 16) && T3(0xc4) == Linear(Sbox(0xc4) << 24)
    ensures T0(0xc5) == Linear(Sbox(0xc5)) && T1(0xc5) == Linear(Sbox(0xc5) << 8)
    ensures T2(0xc5) == Linear(Sbox(0xc5) << 16) && T3(0xc5) == Linear(Sbox(0xc5) << 24)
    ensures T0(0xc6) == Linear(Sbox(0xc6)) && T1(0xc6) == Linear(Sbox(0xc6) << 8)
    ensures T2(0xc6) == Linear(Sbox(0xc6) << 16) && T3(0xc6) == Linear(Sbox(0xc6) << 24)
    ensures T0(0xc7) == Linear(Sbox(0xc7)) && T1(0xc7) == Linear(Sbox(0xc7) << 8)
    ensures T2(0xc7) == Linear(Sbox(0xc7) << 16) && T3(0xc7) == Linear(Sbox(0xc7) << 24)
  {}

  lemma Entries50()
    ensures T0(0xc8) == Linear(Sbox(0xc8)) && T1(0xc8) == Linear(Sbox(0xc8) << 8)
    ensures T2(0xc8) == Linear(Sbox(0xc8) << 16) && T3(0xc8) == Linear(Sbox(0xc8) << 24)
    ensures T0(0xc9) == Linear(Sbox(0xc9)) && T1(0xc9) == Linear(Sbox(0xc9) << 8)
    ensures T2(0xc9) == Linear(Sbox(0xc9) << 16) && T3(0xc9) == Linear(Sbox(0xc9) << 24)
    ensures T0(0xca) == Linear(Sbox(0xca)) && T1(0xca) == Linear(Sbox(0xca) << 8)
    ensures T2(0xca) == Linear(Sbox(0xca) << 16) && T3(0xca) == Linear(Sbox(0xca) << 24)
    ensures T0(0xcb) == Linear(Sbox(0xcb)) && T1(0xcb) == Linear(Sbox(0xcb) << 8)
    ensures T2(0xcb) == Linear(Sbox(0xcb) << 16) && T3(0xcb) == Linear(Sbox(0xcb) << 24)
  {}

  lemma Entries51()
    ensures T0(0xcc) == Linear(Sbox(0xcc)) && T1(0xcc) == Linear(Sbox(0xcc) << 8)
    ensures T2(0xcc) == Linear(Sbox(0xcc) << 16) && T3(0xcc) == Linear(Sbox(0xcc) << 24)
    ensures T0(0xcd) == Linear(Sbox(0xcd)) && T1(0xcd) == Linear(Sbox(0xcd) << 8)
    ensures T2(0xcd) == Linear(Sbox(0xcd) << 16) && T3(0xcd) == Linear(Sbox(0xcd) << 24)
    ensures T0(0xce) == Linear(Sbox(0xce)) && T1(0xce) == Linear(Sbox(0xce) << 8)
    ensures T2(0xce) == Linear(Sbox(0xce) << 16) && T3(0xce) == Linear(Sbox(0xce) << 24)
    ensures T0(0xcf) == Linear(Sbox(0xcf)) && T1(0xcf) == Linear(Sbox(0xcf) << 8)
    ensures T2(0xcf) == Linear(Sbox(0xcf) << 16) && T3(0xcf) == Linear(Sbox(0xcf) << 24)
  {}

  lemma Entries52()
    ensures T0(0xd0) == Linear(Sbox(0xd0)) && T1(0xd0) == Linear(Sbox(0xd0) << 8)
    ensures T2(0xd0) == Linear(Sbox(0xd0) << 16) && T3(0xd0) == Linear(Sbox(0xd0) << 24)
    ensures T0(0xd1) == Linear(Sbox(0xd1)) && T1(0xd1) == Linear(Sbox(0xd1) << 8)
    ensures T2(0xd1) == Linear(Sbox(0xd1) << 16) && T3(0xd1) == Linear(Sbox(0xd1) << 24)
    ensures T0(0xd2) == Linear(Sbox(0xd2)) && T1(0xd2) == Linear(Sbox(0xd2) << 8)
    ensures T2(0xd2) == Linear(Sbox(0xd2) << 16) && T3(0xd2) == Linear(Sbox(0xd2) << 24)
    ensures T0(0xd3) == Linear(Sbox(0xd3)) && T1(0xd3) == Linear(Sbox(0xd3) << 8)
    ensures T2(0xd3) == Linear(Sbox(0xd3) << 16) && T3(0xd3) == Linear(Sbox(0xd3) << 24)
  {}

  lemma Entries53()
    ensures T0(0xd4) == Linear(Sbox(0xd4)) && T1(0xd4) == Linear(Sbox(0xd4) << 8)
    ensures T2(0xd4) == Linear(Sbox(0xd4) << 16) && T3(0xd4) == Linear(Sbox(0xd4) << 24)
    ensures T0(0xd5) == Linear(Sbox(0xd5)) && T1(0xd5) == Linear(Sbox(0xd5) << 8)
    ensures T2(0xd5) == Linear(Sbox(0xd5) << 16) && T3(0xd5) == Linear(Sbox(0xd5) << 24)
    ensures T0(0xd6) == Linear(Sbox(0xd6)) && T1(0xd6) == Linear(Sbox(0xd6) << 8)
    ensures T2(0xd6) == Linear(Sbox(0xd6) << 16) && T3(0xd6) == Linear(Sbox(0xd6) << 24)
    ensures T0(0xd7) == Linear(Sbox(0xd7)) && T1(0xd7) == Linear(Sbox(0xd7) << 8)
    ensures T2(0xd7) == Linear(Sbox(0xd7) << 16) && T3(0xd7) == Linear(Sbox(0xd7) << 24)
  {}

  lemma Entries54()
    ensures T0(0xd8) == Linear(Sbox(0xd8)) && T1(0xd8) == Linear(Sbox(0xd8) << 8)
    ensures T2(0xd8) == Linear(Sbox(0xd8) << 16) && T3(0xd8) == Linear(Sbox(0xd8) << 24)
    ensures T0(0xd9) == Linear(Sbox(0xd9)) && T1(0xd9) == Linear(Sbox(0xd9) << 8)
    ensures T2(0xd9) == Linear(Sbox(0xd9) << 16) && T3(0xd9) == Linear(Sbox(0xd9) << 24)
    ensures T0(0xda) == Linear(Sbox(0xda)) && T1(0xda) == Linear(Sbox(0xda) << 8)
    ensures T2(0xda) == Linear(Sbox(0xda) << 16) && T3(0xda) == Linear(Sbox(0xda) << 24)
    ensures T0(0xdb) == Linear(Sbox(0xdb)) && T1(0xdb) == Linear(Sbox(0xdb) << 8)
    ensures T2(0xdb) == Linear(Sbox(0xdb) << 16) && T3(0xdb) == Linear(Sbox(0xdb) << 24)
  {}

  lemma Entries55()
    ensures T0(0xdc) == Linear(Sbox(0xdc)) && T1(0xdc) == Linear(Sbox(0xdc) << 8)
    ensures T2(0xdc) == Linear(Sbox(0xdc) << 16) && T3(0xdc) == Linear(Sbox(0xdc) << 24)
    ensures T0(0xdd) == Linear(Sbox(0xdd)) && T1(0xdd) == Linear(Sbox(0xdd) << 8)
    ensures T2(0xdd) == Linear(Sbox(0xdd) << 16) && T3(0xdd) == Linear(Sbox(0xdd) << 24)
    ensures T0(0xde) == Linear(Sbox(0xde)) && T1(0xde) == Linear(Sbox(0xde) << 8)
    ensures T2(0xde) == Linear(Sbox(0xde) << 16) && T3(0xde) == Linear(Sbox(0xde) << 24)
    ensures T0(0xdf) == Linear(Sbox(0xdf)) && T1(0xdf) == Linear(Sbox(0xdf) << 8)
    ensures T2(0xdf) == Linear(Sbox(0xdf) << 16) && T3(0xdf) == Linear(Sbox(0xdf) << 24)
  {}

  lemma Entries56()
    ensures T0(0xe0) == Linear(Sbox(0xe0)) && T1(0xe0) == Linear(Sbox(0xe0) << 8)
    ensures T2(0xe0) == Linear(Sbox(0xe0) << 16) && T3(0xe0) == Linear(Sbox(0xe0) << 24)
    ensures T0(0xe1) == Linear(Sbox(0xe1)) && T1(0xe1) == Linear(Sbox(0xe1) << 8)
    ensures T2(0xe1) == Linear(Sbox(0xe1) << 16) && T3(0xe1) == Linear(Sbox(0xe1) << 24)
    ensures T0(0xe2) == Linear(Sbox(0xe2)) && T1(0xe2) == Linear(Sbox(0xe2) << 8)
    ensures T2(0xe2) == Linear(Sbox(0xe2) << 16) && T3(0xe2) == Linear(Sbox(0xe2) << 24)
    ensures T0(0xe3) == Linear(Sbox(0xe3)) && T1(0xe3) == Linear(Sbox(0xe3) << 8)
    ensures T2(0xe3) == Linear(Sbox(0xe3) << 16) && T3(0xe3) == Linear(Sbox(0xe3) << 24)
  {}

  lemma Entries57()
    ensures T0(0xe4) == Linear(Sbox(0xe4)) && T1(0xe4) == Linear(Sbox(0xe4) << 8)
    ensures T2(0xe4) == Linear(Sbox(0xe4) << 16) && T3(0xe4) == Linear(Sbox(0xe4) << 24)
    ensures T0(0xe5) == Linear(Sbox(0xe5)) && T1(0xe5) == Linear(Sbox(0xe5) << 8)
    ensures T2(0xe5) == Linear(Sbox(0xe5) << 16) && T3(0xe5) == Linear(Sbox(0xe5) << 24)
    ensures T0(0xe6) == Linear(Sbox(0xe6)) && T1(0xe6) == Linear(Sbox(0xe6) << 8)
    ensures T2(0xe6) == Linear(Sbox(0xe6) << 16) && T3(0xe6) == Linear(Sbox(0xe6) << 24)
    ensures T0(0xe7) == Linear(Sbox(0xe7)) && T1(0xe7) == Linear(Sbox(0xe7) << 8)
    ensures T2(0xe7) == Linear(Sbox(0xe7) << 16) && T3(0xe7) == Linear(Sbox(0xe7) << 24)
  {}

  lemma Entries58()
    ensures T0(0xe8) == Linear(Sbox(0xe8)) && T1(0xe8) == Linear(Sbox(0xe8) << 8)
    ensures T2(0xe8) == Linear(Sbox(0xe8) << 16) && T3(0xe8) == Linear(Sbox(0xe8) << 24)
    ensures T0(0xe9) == Linear(Sbox(0xe9)) && T1(0xe9) == Linear(Sbox(0xe9) << 8)
    ensures T2(0xe9) == Linear(Sbox(0xe9) << 16) && T3(0xe9) == Linear(Sbox(0xe9) << 24)
    ensures T0(0xea) == Linear(Sbox(0xea)) && T1(0xea) == Linear(Sbox(0xea) << 8)
    ensures T2(0xea) == Linear(Sbox(0xea) << 16) && T3(0xea) == Linear(Sbox(0xea) << 24)
    ensures T0(0xeb) == Linear(Sbox(0xeb)) && T1(0xeb) == Linear(Sbox(0xeb) << 8)
    ensures T2(0xeb) == Linear(Sbox(0xeb) << 16) && T3(0xeb) == Linear(Sbox(0xeb) << 24)
  {}

  lemma Entries59()
    ensures T0(0xec) == Linear(Sbox(0xec)) && T1(0xec) == Linear(Sbox(0xec) << 8)
    ensures T2(0xec) == Linear(Sbox(0xec) << 16) && T3(0xec) == Linear(Sbox(0xec) << 24)
    ensures T0(0xed) == Linear(Sbox(0xed)) && T1(0xed) == Linear(Sbox(0xed) << 8)
    ensures T2(0xed) == Linear(Sbox(0xed) << 16) && T3(0xed) == Linear(Sbox(0xed) << 24)
    ensures T0(0xee) == Linear(Sbox(0xee)) && T1(0xee) == Linear(Sbox(0xee) << 8)
    ensures T2(0xee) == Linear(Sbox(0xee) << 16) && T3(0xee) == Linear(Sbox(0xee) << 24)
    ensures T0(0xef) == Linear(Sbox(0xef)) && T1(0xef) == Linear(Sbox(0xef) << 8)
    ensures T2(0xef) == Linear(Sbox(0xef) << 16) && T3(0xef) == Linear(Sbox(0xef) << 24)
  {}

  lemma Entries60()
    ensures T0(0xf0) == Linear(Sbox(0xf0)) && T1(0xf0) == Linear(Sbox(0xf0) << 8)
    ensures T2(0xf0) == Linear(Sbox(0xf0) << 16) && T3(0xf0) == Linear(Sbox(0xf0) << 24)
    ensures T0(0xf1) == Linear(Sbox(0xf1)) && T1(0xf1) == Linear(Sbox(0xf1) << 8)
    ensures T2(0xf1) == Linear(Sbox(0xf1) << 16) && T3(0xf1) == Linear(Sbox(0xf1) << 24)
    ensures T0(0xf2) == Linear(Sbox(0xf2)) && T1(0xf2) == Linear(Sbox(0xf2) << 8)
    ensures T2(0xf2) == Linear(Sbox(0xf2) << 16) && T3(0xf2) == Linear(Sbox(0xf2) << 24)
    ensures T0(0xf3) == Linear(Sbox(0xf3)) && T1(0xf3) == Linear(Sbox(0xf3) << 8)
    ensures T2(0xf3) == Linear(Sbox(0xf3) << 16) && T3(0xf3) == Linear(Sbox(0xf3) << 24)
  {}

  lemma Entries61()
    ensures T0(0xf4) == Linear(Sbox(0xf4)) && T1(0xf4) == Linear(Sbox(0xf4) << 8)
    ensures T2(0xf4) == Linear(Sbox(0xf4) << 16) && T3(0xf4) == Linear(Sbox(0xf4) << 24)
    ensures T0(0xf5) == Linear(Sbox(0xf5)) && T1(0xf5) == Linear(Sbox(0xf5) << 8)
    ensures T2(0xf5) == Linear(Sbox(0xf5) << 16) && T3(0xf5) == Linear(Sbox(0xf5) << 24)
    ensures T0(0xf6) == Linear(Sbox(0xf6)) && T1(0xf6) == Linear(Sbox(0xf6) << 8)
    ensures T2(0xf6) == Linear(Sbox(0xf6) << 16) && T3(0xf6) == Linear(Sbox(0xf6) << 24)
    ensures T0(0xf7) == Linear(Sbox(0xf7)) && T1(0xf7) == Linear(Sbox(0xf7) << 8)
    ensures T2(0xf7) == Linear(Sbox(0xf7) << 16) && T3(0xf7) == Linear(Sbox(0xf7) << 24)
  {}

  lemma Entries62()
    ensures T0(0xf8) == Linear(Sbox(0xf8)) && T1(0xf8) == Linear(Sbox(0xf8) << 8)
    ensures T2(0xf8) == Linear(Sbox(0xf8) << 16) && T3(0xf8) == Linear(Sbox(0xf8) << 24)
    ensures T0(0xf9) == Linear(Sbox(0xf9)) && T1(0xf9) == Linear(Sbox(0xf9) << 8)
    ensures T2(0xf9) == Linear(Sbox(0xf9) << 16) && T3(0xf9) == Linear(Sbox(0xf9) << 24)
    ensures T0(0xfa) == Linear(Sbox(0xfa)) && T1(0xfa) == Linear(Sbox(0xfa) << 8)
    ensures T2(0xfa) == Linear(Sbox(0xfa) << 16) && T3(0xfa) == Linear(Sbox(0xfa) << 24)
    ensures T0(0xfb) == Linear(Sbox(0xfb)) && T1(0xfb) == Linear(Sbox(0xfb) << 8)
    ensures T2(0xfb) == Linear(Sbox(0xfb) << 16) && T3(0xfb) == Linear(Sbox(0xfb) << 24)
  {}

  lemma Entries63()
    ensures T0(0xfc) == Linear(Sbox(0xfc)) && T1(0xfc) == Linear(Sbox(0xfc) << 8)
    ensures T2(0xfc) == Linear(Sbox(0xfc) << 16) && T3(0xfc) == Linear(Sbox(0xfc) << 24)
    ensures T0(0xfd) == Linear(Sbox(0xfd)) && T1(0xfd) == Linear(Sbox(0xfd) << 8)
    ensures T2(0xfd) == Linear(Sbox(0xfd) << 16) && T3(0xfd) == Linear(Sbox(0xfd) << 24)
    ensures T0(0xfe) == Linear(Sbox(0xfe)) && T1(0xfe) == Linear(Sbox(0xfe) << 8)
    ensures T2(0xfe) == Linear(Sbox(0xfe) << 16) && T3(0xfe) == Linear(Sbox(0xfe) << 24)
    ensures T0(0xff) == Linear(Sbox(0xff)) && T1(0xff) == Linear(Sbox(0xff) << 8)
    ensures T2(0xff) == Linear(Sbox(0xff) << 16) && T3(0xff) == Linear(Sbox(0xff) << 24)
  {}

  lemma Part0(i: word)
    requires 0x00 <= i < 0x20
    ensures Entry(i)
  {
    hide T0, T1, T2, T3, Linear, Sbox;
    if i == 0x00 {
      Entries0();
    } else if i == 0x01 {
      Entries0();
    } else if i == 0x02 {
      Entries0();
    } else if i == 0x03 {
      Entries0();
    } else if i == 0x04 {
      Entries1();
    } else if i == 0x05 {
      Entries1();
    } else if i == 0x06 {
      Entries1();
    } else if i == 0x07 {
      Entries1();
    } else if i == 0x08 {
      Entries2();
    } else if i == 0x09 {
      Entries2();
    } else if i == 0x0a {
      Entries2();
    } else if i == 0x0b {
      Entries2();
    } else if i == 0x0c {
      Entries3();
    } else if i == 0x0d {
      Entries3();
    } else if i == 0x0e {
      Entries3();
    } else if i == 0x0f {
      Entries3();
    } else if i == 0x10 {
      Entries4();
    } else if i == 0x11 {
      Entries4();
    } else if i == 0x12 {
      Entries4();
    } else if i == 0x13 {
      Entries4();
    } else if i == 0x14 {
      Entries5();
    } else if i == 0x15 {
      Entries5();
    } else if i == 0x16 {
      Entries5();
    } else if i == 0x17 {
      Entries5();
    } else if i == 0x18 {
      Entries6();
    } else if i == 0x19 {
      Entries6();
    } else if i == 0x1a {
      Entries6();
    } else if i == 0x1b {
      Entries6();
    } else if i == 0x1c {
      Entries7();
    } else if i == 0x1d {
      Entries7();
    } else if i == 0x1e {
      Entries7();
    } else if i == 0x1f {
      Entries7();
    }
  }

  lemma Part1(i: word)
    requires 0x20 <= i < 0x40
    ensures Entry(i)
  {
    hide T0, T1, T2, T3, Linear, Sbox;
    if i == 0x20 {
      Entries8();
    } else if i == 0x21 {
      Entries8();
    } else if i == 0x22 {
      Entries8();
    } else if i == 0x23 {
      Entries8();
    } else if i == 0x24 {
      Entries9();
    } else if i == 0x25 {
      Entries9();
    } else if i == 0x26 {
      Entries9();
    } else if i == 0x27 {
      Entries9();
    } else if i == 0x28 {
      Entries10();
    } else if i == 0x29 {
      Entries10();
    } else if i == 0x2a {
      Entries10();
    } else if i == 0x2b {
      Entries10();
    } else if i == 0x2c {
      Entries11();
    } else if i == 0x2d {
      Entries11();
    } else if i == 0x2e {
      Entries11();
    } else if i == 0x2f {
      Entries11();
    } else if i == 0x30 {
      Entries12();
    } else if i == 0x31 {
      Entries12();
    } else if i == 0x32 {
      Entries12();
    } else if i == 0x33 {
      Entries12();
    } else if i == 0x34 {
      Entries13();
    } else if i == 0x35 {
      Entries13();
    } else if i == 0x36 {
      Entries13();
    } else if i == 0x37 {
      Entries13();
    } else if i == 0x38 {
      Entries14();
    } else if i == 0x39 {
      Entries14();
    } else if i == 0x3a {
      Entries14();
    } else if i == 0x3b {
      Entries14();
    } else if i == 0x3c {
      Entries15();
    } else if i == 0x3d {
      Entries15();
    } else if i == 0x3e {
      Entries15();
    } else if i == 0x3f {
      Entries15();
    }
  }

  lemma Part2(i: word)
    requires 0x40 <= i < 0x60
    ensures Entry(i)
  {
    hide T0, T1, T2, T3, Linear, Sbox;
    if i == 0x40 {
      Entries16();
    } else if i == 0x41 {
      Entries16();
    } else if i == 0x42 {
      Entries16();
    } else if i == 0x43 {
      Entries16();
    } else if i == 0x44 {
      Entries17();
    } else if i == 0x45 {
      Entries17();
    } else if i == 0x46 {
      Entries17();
    } else if i == 0x47 {
      Entries17();
    } else if i == 0x48 {
      Entries18();
    } else if i == 0x49 {
      Entries18();
    } else if i == 0x4a {
      Entries18();
    } else if i == 0x4b {
      Entries18();
    } else if i == 0x4c {
      Entries19();
    } else if i == 0x4d {
      Entries19();
    } else if i == 0x4e {
      Entries19();
    } else if i == 0x4f {
      Entries19();
    } else if i == 0x50 {
      Entries20();
    } else if i == 0x51 {
      Entries20();
    } else if i == 0x52 {
      Entries20();
    } else if i == 0x53 {
      Entries20();
    } else if i == 0x54 {
      Entries21();
    } else if i == 0x55 {
      Entries21();
    } else if i == 0x56 {
      Entries21();
    } else if i == 0x57 {
      Entries21();
    } else if i == 0x58 {
      Entries22();
    } else if i == 0x59 {
      Entries22();
    } else if i == 0x5a {
      Entries22();
    } else if i == 0x5b {
      Entries22();
    } else if i == 0x5c {
      Entries23();
    } else if i == 0x5d {
      Entries23();
    } else if i == 0x5e {
      Entries23();
    } else if i == 0x5f {
      Entries23();
    }
  }

  lemma Part3(i: word)
    requires 0x60 <= i < 0x80
    ensures Entry(i)
  {
    hide T0, T1, T2, T3, Linear, Sbox;
    if i == 0x60 {
      Entries24();
    } else if i == 0x61 {
      Entries24();
    } else if i == 0x62 {
      Entries24();
    } else if i == 0x63 {
      Entries24();
    } else if i == 0x64 {
      Entries25();
    } else if i == 0x65 {
      Entries25();
    } else if i == 0x66 {
      Entries25();
    } else if i == 0x67 {
      Entries25();
    } else if i == 0x68 {
      Entries26();
    } else if i == 0x69 {
      Entries26();
    } else if i == 0x6a {
      Entries26();
    } else if i == 0x6b {
      Entries26();
    } else if i == 0x6c {
      Entries27();
    } else if i == 0x6d {
      Entries27();
    } else if i == 0x6e {
      Entries27();
    } else if i == 0x6f {
      Entries27();
    } else if i == 0x70 {
      Entries28();
    } else if i == 0x71 {
      Entries28();
    } else if i == 0x72 {
      Entries28();
    } else if i == 0x73 {
      Entries28();
    } else if i == 0x74 {
      Entries29();
    } else if i == 0x75 {
      Entries29();
    } else if i == 0x76 {
      Entries29();
    } else if i == 0x77 {
      Entries29();
    } else if i == 0x78 {
      Entries30();
    } else if i == 0x79 {
      Entries30();
    } else if i == 0x7a {
      Entries30();
    } else if i == 0x7b {
      Entries30();
    } else if i == 0x7c {
      Entries31();
    } else if i == 0x7d {
      Entries31();
    } else if i == 0x7e {
      Entries31();
    } else if i == 0x7f {
      Entries31();
    }
  }

  lemma Part4(i: word)
    requires 0x80 <= i < 0xa0
    ensures Entry(i)
  {
    hide T0, T1, T2, T3, Linear, Sbox;
    if i == 0x80 {
      Entries32();
    } else if i == 0x81 {
      Entries32();
    } else if i == 0x82 {
      Entries32();
    } else if i == 0x83 {
      Entries32();
    } else if i == 0x84 {
      Entries33();
    } else if i == 0x85 {
      Entries33();
    } else if i == 0x86 {
      Entries33();
    } else if i == 0x87 {
      Entries33();
    } else if i == 0x88 {
      Entries34();
    } else if i == 0x89 {
      Entries34();
    } else if i == 0x8a {
      Entries34();
    } else if i == 0x8b {
      Entries34();
    } else if i == 0x8c {
      Entries35();
    } else if i == 0x8d {
      Entries35();
    } else if i == 0x8e {
      Entries35();
    } else if i == 0x8f {
      Entries35();
    } else if i == 0x90 {
      Entries36();
    } else if i == 0x91 {
      Entries36();
    } else if i == 0x92 {
      Entries36();
    } else if i == 0x93 {
      Entries36();
    } else if i == 0x94 {
      Entries37();
    } else if i == 0x95 {
      Entries37();
    } else if i == 0x96 {
      Entries37();
    } else if i == 0x97 {
      Entries37();
    } else if i == 0x98 {
      Entries38();
    } else if i == 0x99 {
      Entries38();
    } else if i == 0x9a {
      Entries38();
    } else if i == 0x9b {
      Entries38();
    } else if i == 0x9c {
      Entries39();
    } else if i == 0x9d {
      Entries39();
    } else if i == 0x9e {
      Entries39();
    } else if i == 0x9f {
      Entries39();
    }
  }

  lemma Part5(i: word)
    requires 0xa0 <= i < 0xc0
    ensures Entry(i)
  {
    hide T0, T1, T2, T3, Linear, Sbox;
    if i == 0xa0 {
      Entries40();
    } else if i == 0xa1 {
      Entries40();
    } else if i == 0xa2 {
      Entries40();
    } else if i == 0xa3 {
      Entries40();
    } else if i == 0xa4 {
      Entries41();
    } else if i == 0xa5 {
      Entries41();
    } else if i == 0xa6 {
      Entries41();
    } else if i == 0xa7 {
      Entries41();
    } else if i == 0xa8 {
      Entries42();
    } else if i == 0xa9 {
      Entries42();
    } else if i == 0xaa {
      Entries42();
    } else if i == 0xab {
      Entries42();
    } else if i == 0xac {
      Entries43();
    } else if i == 0xad {
      Entries43();
    } else if i == 0xae {
      Entries43();
    } else if i == 0xaf {
      Entries43();
    } else if i == 0xb0 {
      Entries44();
    } else if i == 0xb1 {
      Entries44();
    } else if i == 0xb2 {
      Entries44();
    } else if i == 0xb3 {
      Entries44();
    } else if i == 0xb4 {
      Entries45();
    } else if i == 0xb5 {
      Entries45();
    } else if i == 0xb6 {
      Entries45();
    } else if i == 0xb7 {
      Entries45();
    } else if i == 0xb8 {
      Entries46();
    } else if i == 0xb9 {
      Entries46();
    } else if i == 0xba {
      Entries46();
    } else if i == 0xbb {
      Entries46();
    } else if i == 0xbc {
      Entries47();
    } else if i == 0xbd {
      Entries47();
    } else if i == 0xbe {
      Entries47();
    } else if i == 0xbf {
      Entries47();
    }
  }

  lemma Part6(i: word)
    requires 0xc0 <= i < 0xe0
    ensures Entry(i)
  {
    hide T0, T1, T2, T3, Linear, Sbox;
    if i == 0xc0 {
      Entries48();
    } else if i == 0xc1 {
      Entries48();
    } else if i == 0xc2 {
      Entries48();
    } else if i == 0xc3 {
      Entries48();
    } else if i == 0xc4 {
      Entries49();
    } else if i == 0xc5 {
      Entries49();
    } else if i == 0xc6 {
      Entries49();
    } else if i == 0xc7 {
      Entries49();
    } else if i == 0xc8 {
      Entries50();
    } else if i == 0xc9 {
      Entries50();
    } else if i == 0xca {
      Entries50();
    } else if i == 0xcb {
      Entries50();
    } else if i == 0xcc {
      Entries51();
    } else if i == 0xcd {
      Entries51();
    } else if i == 0xce {
      Entries51();
    } else if i == 0xcf {
      Entries51();
    } else if i == 0xd0 {
      Entries52();
    } else if i == 0xd1 {
      Entries52();
    } else if i == 0xd2 {
      Entries52();
    } else if i == 0xd3 {
      Entries52();
    } else if i == 0xd4 {
      Entries53();
    } else if i == 0xd5 {
      Entries53();
    } else if i == 0xd6 {
      Entries53();
    } else if i == 0xd7 {
      Entries53();
    } else if i == 0xd8 {
      Entries54();
    } else if i == 0xd9 {
      Entries54();
    } else if i == 0xda {
      Entries54();
    } else if i == 0xdb {
      Entries54();
    } else if i == 0xdc {
      Entries55();
    } else if i == 0xdd {
      Entries55();
    } else if i == 0xde {
      Entries55();
    } else if i == 0xdf {
      Entries55();
    }
  }

  lemma Part7(i: word)
    requires 0xe0 <= i < 0x100
    ensures Entry(i)
  {
    hide T0, T1, T2, T3, Linear, Sbox;
    if i == 0xe0 {
      Entries56();
    } else if i == 0xe1 {
      Entries56();
    } else if i == 0xe2 {
      Entries56();
    } else if i == 0xe3 {
      Entries56();
    } else if i == 0xe4 {
      Entries57();
    } else if i == 0xe5 {
      Entries57();
    } else if i == 0xe6 {
      Entries57();
    } else if i == 0xe7 {
      Entries57();
    } else if i == 0xe8 {
      Entries58();
    } else if i == 0xe9 {
      Entries58();
    } else if i == 0xea {
      Entries58();
    } else if i == 0xeb {
      Entries58();
    } else if i == 0xec {
      Entries59();
    } else if i == 0xed {
      Entries59();
    } else if i == 0xee {
      Entries59();
    } else if i == 0xef {
      Entries59();
    } else if i == 0xf0 {
      Entries60();
    } else if i == 0xf1 {
      Entries60();
    } else if i == 0xf2 {
      Entries60();
    } else if i == 0xf3 {
      Entries60();
    } else if i == 0xf4 {
      Entries61();
    } else if i == 0xf5 {
      Entries61();
    } else if i == 0xf6 {
      Entries61();
    } else if i == 0xf7 {
      Entries61();
    } else if i == 0xf8 {
      Entries62();
    } else if i == 0xf9 {
      Entries62();
    } else if i == 0xfa {
      Entries62();
    } else if i == 0xfb {
      Entries62();
    } else if i == 0xfc {
      Entries63();
    } else if i == 0xfd {
      Entries63();
    } else if i == 0xfe {
      Entries63();
    } else if i == 0xff {
      Entries63();
    }
  }

  /** Every entry of the four tables is the S-box followed by the linear layer. */
  lemma TablesJoinLayers(i: word)
    requires i < 0x100
    ensures Entry(i)
  {
    hide Entry;
    if i < 0x20 {
      Part0(i);
    } else if i < 0x40 {
      Part1(i);
    } else if i < 0x60 {
      Part2(i);
    } else if i < 0x80 {
      Part3(i);
    } else if i < 0xa0 {
      Part4(i);
    } else if i < 0xc0 {
      Part5(i);
    } else if i < 0xe0 {
      Part6(i);
    } else {
      Part7(i);
    }
  }
}
