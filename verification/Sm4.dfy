/** The SM4 block cipher (sections 6 and 7 of GB/T 32907-2016): the table-driven rounds,
    and decryption as the inverse of encryption. */
module Sm4 {
  import opened Sm4Tables

  type octet = bv8

  // ---- exclusive or, left abstract elsewhere

  lemma XorComm(a: word, b: word)
    ensures Xor(a, b) == Xor(b, a)
  {}

  lemma XorAssoc(a: word, b: word, c: word)
    ensures Xor(Xor(a, b), c) == Xor(a, Xor(b, c))
  {}

  lemma XorTwice(a: word, t: word)
    ensures Xor(Xor(a, t), t) == a
  {}

  /** The order of three words under exclusive or does not matter. */
  lemma XorReverse(a: word, b: word, c: word)
    ensures Xor(Xor(a, b), c) == Xor(Xor(c, b), a)
  {
    hide Xor;
    XorAssoc(a, b, c);
    XorComm(b, c);
    XorComm(a, Xor(c, b));
  }

  lemma XorRotate(a: word, b: word, c: word)
    ensures Xor(Xor(a, b), c) == Xor(Xor(b, c), a)
  {
    hide Xor;
    XorAssoc(a, b, c);
    XorComm(a, Xor(b, c));
  }

  /** (a + b) + (c + d) regrouped as (a + c) + (b + d). */
  lemma XorSwap(a: word, b: word, c: word, d: word)
    ensures Xor(Xor(a, b), Xor(c, d)) == Xor(Xor(a, c), Xor(b, d))
  {
    hide Xor;
    XorAssoc(a, b, Xor(c, d));
    XorAssoc(b, c, d);
    XorComm(b, c);
    XorAssoc(c, b, d);
    XorAssoc(a, c, Xor(b, d));
  }

  // ---- the round function

  // The substituted bytes of a word in their places.
  function Sub0(x: word): (r: word) { Sbox(x & 0xff) }
  function Sub1(x: word): (r: word) { Sbox((x >> 8) & 0xff) << 8 }
  function Sub2(x: word): (r: word) { Sbox((x >> 16) & 0xff) << 16 }
  function Sub3(x: word): (r: word) { Sbox(x >> 24) << 24 }

  /** The substitution layer: the S-box on each byte. */
  function Substitute(x: word): (r: word) { Xor(Xor(Xor(Sub3(x), Sub2(x)), Sub1(x)), Sub0(x)) }

  /** The mixing of a round by the standard: substitution, then the linear layer. */
  function Mix(x: word): (r: word) { Linear(Substitute(x)) }

  // The table entries for the bytes of a word.
  function Look0(x: word): (r: word) { T0(x & 0xff) }
  function Look1(x: word): (r: word) { T1((x >> 8) & 0xff) }
  function Look2(x: word): (r: word) { T2((x >> 16) & 0xff) }
  function Look3(x: word): (r: word) { T3((x >> 24) & 0xff) }

  /** The same by table lookup, as the code does it. */
  function TableMix(x: word): (r: word) { Xor(Xor(Xor(Look0(x), Look1(x)), Look2(x)), Look3(x)) }

  lemma Rot2Linear(a: word, b: word)
    ensures Rot2(Xor(a, b)) == Xor(Rot2(a), Rot2(b))
  {}

  lemma Rot10Linear(a: word, b: word)
    ensures Rot10(Xor(a, b)) == Xor(Rot10(a), Rot10(b))
  {}

  lemma Rot18Linear(a: word, b: word)
    ensures Rot18(Xor(a, b)) == Xor(Rot18(a), Rot18(b))
  {}

  lemma Rot24Linear(a: word, b: word)
    ensures Rot24(Xor(a, b)) == Xor(Rot24(a), Rot24(b))
  {}

  /** The linear layer distributes over exclusive or. */
  lemma LinearXor(a: word, b: word)
    ensures Linear(Xor(a, b)) == Xor(Linear(a), Linear(b))
  {
    hide Xor, Rot2, Rot10, Rot18, Rot24;
    var a1, b1 := Xor(a, Rot2(a)), Xor(b, Rot2(b));
    var a2, b2 := Xor(a1, Rot10(a)), Xor(b1, Rot10(b));
    var a3, b3 := Xor(a2, Rot18(a)), Xor(b2, Rot18(b));
    Rot2Linear(a, b);
    Rot10Linear(a, b);
    Rot18Linear(a, b);
    Rot24Linear(a, b);
    XorSwap(a, b, Rot2(a), Rot2(b));
    XorSwap(a1, b1, Rot10(a), Rot10(b));
    XorSwap(a2, b2, Rot18(a), Rot18(b));
    XorSwap(a3, b3, Rot24(a), Rot24(b));
  }

  lemma LowOctet(x: word)
    ensures x & 0xff < 0x100
  {}

  lemma TopOctet(x: word)
    ensures x >> 24 < 0x100 && (x >> 24) & 0xff == x >> 24
  {}

  lemma Lookup0(x: word)
    ensures Look0(x) == Linear(Sub0(x))
  {
    hide Linear, Sbox, T0, T1, T2, T3;
    LowOctet(x);
    TablesJoinLayers(x & 0xff);
  }

  lemma Lookup1(x: word)
    ensures Look1(x) == Linear(Sub1(x))
  {
    hide Linear, Sbox, T0, T1, T2, T3;
    LowOctet(x >> 8);
    TablesJoinLayers((x >> 8) & 0xff);
  }

  lemma Lookup2(x: word)
    ensures Look2(x) == Linear(Sub2(x))
  {
    hide Linear, Sbox, T0, T1, T2, T3;
    LowOctet(x >> 16);
    TablesJoinLayers((x >> 16) & 0xff);
  }

  lemma Lookup3(x: word)
    ensures Look3(x) == Linear(Sub3(x))
  {
    hide Linear, Sbox, T0, T1, T2, T3;
    TopOctet(x);
    TablesJoinLayers(x >> 24);
  }

  /** A table round is the substitution layer followed by the linear layer. */
  lemma TableRound(x: word)
    ensures TableMix(x) == Mix(x)
  {
    hide Xor, Linear, Look0, Look1, Look2, Look3, Sub0, Sub1, Sub2, Sub3;
    Lookup0(x);
    Lookup1(x);
    Lookup2(x);
    Lookup3(x);
    var s0, s1, s2, s3 := Sub0(x), Sub1(x), Sub2(x), Sub3(x);
    LinearXor(Xor(Xor(s3, s2), s1), s0);
    LinearXor(Xor(s3, s2), s1);
    LinearXor(s3, s2);
    Backwards(Linear(s0), Linear(s1), Linear(s2), Linear(s3));
  }

  lemma Backwards(a: word, b: word, c: word, d: word)
    ensures Xor(Xor(Xor(a, b), c), d) == Xor(Xor(Xor(d, c), b), a)
  {
    hide Xor;
    XorAssoc(Xor(a, b), c, d);
    XorComm(Xor(a, b), Xor(c, d));
    XorComm(c, d);
    XorComm(a, b);
    XorAssoc(Xor(d, c), b, a);
  }

  // ---- rounds

  datatype Words = Words(a: word, b: word, c: word, d: word)

  /** One round of the standard: the words move up and a new one comes in. */
  function Round(s: Words, k: word): (r: Words) {
    Words(s.b, s.c, s.d, Xor(s.a, Mix(Xor(Xor(Xor(s.b, s.c), s.d), k))))
  }

  function Rounds(s: Words, ks: seq<word>): (r: Words)
    decreases |ks|
  {
    if ks == [] then s else Rounds(Round(s, ks[0]), ks[1..])
  }

  function Flip(s: Words): (r: Words) { Words(s.d, s.c, s.b, s.a) }

  function Reverse(ks: seq<word>): (r: seq<word>)
    ensures |r| == |ks|
  { if ks == [] then [] else Reverse(ks[1..]) + [ks[0]] }

  /** A round undoes itself on the flipped words. */
  lemma RoundUndone(s: Words, k: word)
    ensures Round(Flip(Round(s, k)), k) == Flip(s)
  {
    hide Xor, Mix;
    XorReverse(s.b, s.c, s.d);
    XorTwice(s.a, Mix(Xor(Xor(Xor(s.b, s.c), s.d), k)));
  }

  lemma {:induction false} RoundsConcat(s: Words, ks: seq<word>, k: word)
    ensures Rounds(s, ks + [k]) == Round(Rounds(s, ks), k)
    decreases |ks|
  {
    hide Round;
    if ks == [] {
      assert [] + [k] == [k];
      assert Rounds(s, [k]) == Rounds(Round(s, k), []);
    } else {
      assert (ks + [k])[1..] == ks[1..] + [k];
      RoundsConcat(Round(s, ks[0]), ks[1..], k);
    }
  }

  /** The rounds with the keys in reverse undo the rounds, on the flipped words. */
  lemma {:induction false} RoundsUndone(s: Words, ks: seq<word>)
    ensures Rounds(Flip(Rounds(s, ks)), Reverse(ks)) == Flip(s)
    decreases |ks|
  {
    hide Round, Flip;
    if ks != [] {
      var s1 := Round(s, ks[0]);
      RoundsUndone(s1, ks[1..]);
      RoundsConcat(Flip(Rounds(s, ks)), Reverse(ks[1..]), ks[0]);
      RoundUndone(s, ks[0]);
    }
  }

  lemma {:induction false} ReverseTwice(ks: seq<word>)
    ensures Reverse(Reverse(ks)) == ks
  {
    if ks != [] {
      ReverseTwice(ks[1..]);
      ReverseConcat(Reverse(ks[1..]), ks[0]);
    }
  }

  lemma {:induction false} ReverseConcat(ks: seq<word>, k: word)
    ensures Reverse(ks + [k]) == [k] + Reverse(ks)
  {
    if ks != [] {
      assert (ks + [k])[1..] == ks[1..] + [k];
      ReverseConcat(ks[1..], k);
    }
  }

  lemma {:induction false} ReverseAt(ks: seq<word>, i: nat)
    requires i < |ks|
    ensures Reverse(ks)[i] == ks[|ks| - 1 - i]
  {
    if i < |ks| - 1 {
      ReverseAt(ks[1..], i);
    }
  }

  lemma ReverseFour(ks: seq<word>, i: nat)
    requires i + 4 <= |ks|
    ensures var r, n := Reverse(ks), |ks| - 1 - i;
      r[i] == ks[n] && r[i + 1] == ks[n - 1] && r[i + 2] == ks[n - 2] && r[i + 3] == ks[n - 3]
  {
    hide Reverse;
    ReverseAt(ks, i);
    ReverseAt(ks, i + 1);
    ReverseAt(ks, i + 2);
    ReverseAt(ks, i + 3);
  }

  // ---- the block

  type Block = b: seq<octet> | |b| == 16 witness seq(16, _ => 0)

  function ToWord(b0: octet, b1: octet, b2: octet, b3: octet): (w: word) {
    ((b0 as word) << 24) | ((b1 as word) << 16) | ((b2 as word) << 8) | (b3 as word)
  }

  function Octet(w: word): (o: octet) { (w & 0xff) as octet }
  function Octet1(w: word): (o: octet) { Octet(w >> 8) }
  function Octet2(w: word): (o: octet) { Octet(w >> 16) }
  function Octet3(w: word): (o: octet) { Octet(w >> 24) }

  lemma WordOctets(b0: octet, b1: octet, b2: octet, b3: octet)
    ensures var w := ToWord(b0, b1, b2, b3);
      Octet3(w) == b0 && Octet2(w) == b1 && Octet1(w) == b2 && Octet(w) == b3
  {}

  lemma OctetsWord(w: word)
    ensures ToWord(Octet3(w), Octet2(w), Octet1(w), Octet(w)) == w
  {}

  function Pack1(b: seq<octet>): (w: word)
    requires |b| == 4
  { ToWord(b[0], b[1], b[2], b[3]) }

  function Unpack1(w: word): (b: seq<octet>)
    ensures |b| == 4
  { [Octet3(w), Octet2(w), Octet1(w), Octet(w)] }

  lemma Unpack1Pack1(b: seq<octet>)
    requires |b| == 4
    ensures Unpack1(Pack1(b)) == b
  {
    hide ToWord, Octet, Octet1, Octet2, Octet3;
    WordOctets(b[0], b[1], b[2], b[3]);
  }

  lemma Pack1Unpack1(w: word)
    ensures Pack1(Unpack1(w)) == w
  {
    hide ToWord, Octet, Octet1, Octet2, Octet3;
    OctetsWord(w);
  }

  /** The block as four words, high byte first. */
  function Pack(b: Block): (s: Words) { Words(Pack1(b[..4]), Pack1(b[4..8]), Pack1(b[8..12]), Pack1(b[12..])) }

  function Unpack(s: Words): (b: Block) { Unpack1(s.a) + Unpack1(s.b) + Unpack1(s.c) + Unpack1(s.d) }

  lemma UnpackPack(b: Block)
    ensures Unpack(Pack(b)) == b
  {
    hide Pack1, Unpack1;
    Unpack1Pack1(b[..4]);
    Unpack1Pack1(b[4..8]);
    Unpack1Pack1(b[8..12]);
    Unpack1Pack1(b[12..]);
  }

  lemma PackUnpack(s: Words)
    ensures Pack(Unpack(s)) == s
  {
    hide Pack1, Unpack1;
    Pack1Unpack1(s.a);
    Pack1Unpack1(s.b);
    Pack1Unpack1(s.c);
    Pack1Unpack1(s.d);
    Cuts(Unpack1(s.a), Unpack1(s.b), Unpack1(s.c), Unpack1(s.d));
  }

  lemma Cuts(a: seq<octet>, b: seq<octet>, c: seq<octet>, d: seq<octet>)
    requires |a| == 4 && |b| == 4 && |c| == 4 && |d| == 4
    ensures var s := a + b + c + d; s[..4] == a && s[4..8] == b && s[8..12] == c && s[12..] == d
  {}

  /** The cipher of the standard, for the round keys in the given order. */
  function Crypt(ks: seq<word>, b: Block): (r: Block) { Unpack(Flip(Rounds(Pack(b), ks))) }

  /** Decryption undoes encryption, for all round keys and all blocks. */
  lemma DecryptEncrypt(ks: seq<word>, b: Block)
    ensures Crypt(Reverse(ks), Crypt(ks, b)) == b
  {
    hide Rounds, Pack, Unpack;
    var s := Rounds(Pack(b), ks);
    PackUnpack(Flip(s));
    RoundsUndone(Pack(b), ks);
    UnpackPack(b);
  }

  /** And the other way round. */
  lemma EncryptDecrypt(ks: seq<word>, b: Block)
    ensures Crypt(ks, Crypt(Reverse(ks), b)) == b
  {
    hide Crypt;
    DecryptEncrypt(Reverse(ks), b);
    ReverseTwice(ks);
  }

  // ---- the code: rounds in place

  ghost function State(b: array<word>): (s: Words)
    requires b.Length == 4
    reads b
  { Words(b[0], b[1], b[2], b[3]) }

  /** Four rounds in place leave the words in their order. */
  lemma FourRounds(s: Words, k0: word, k1: word, k2: word, k3: word)
    ensures var a := Xor(s.a, Mix(Xor(Xor(Xor(s.b, s.c), s.d), k0)));
      var b := Xor(s.b, Mix(Xor(Xor(Xor(a, s.c), s.d), k1)));
      var c := Xor(s.c, Mix(Xor(Xor(Xor(a, b), s.d), k2)));
      var d := Xor(s.d, Mix(Xor(Xor(Xor(b, c), a), k3)));
      Round(Round(Round(Round(s, k0), k1), k2), k3) == Words(a, b, c, d)
  {
    hide Xor, Mix;
    var a := Xor(s.a, Mix(Xor(Xor(Xor(s.b, s.c), s.d), k0)));
    XorRotate(a, s.c, s.d);
    var b := Xor(s.b, Mix(Xor(Xor(Xor(a, s.c), s.d), k1)));
    XorRotate(s.d, a, b);
    var c := Xor(s.c, Mix(Xor(Xor(Xor(a, b), s.d), k2)));
    XorRotate(a, b, c);
  }

  /** One pass of the loop body. */
  method Pass(b: array<word>, k0: word, k1: word, k2: word, k3: word)
    requires b.Length == 4
    modifies b
    ensures State(b) == Round(Round(Round(Round(old(State(b)), k0), k1), k2), k3)
  {
    hide Xor, Mix, TableMix, Round;
    FourRounds(State(b), k0, k1, k2, k3);
    var x := Xor(Xor(Xor(b[1], b[2]), b[3]), k0);
    TableRound(x);
    b[0] := Xor(b[0], TableMix(x));
    x := Xor(Xor(Xor(b[0], b[2]), b[3]), k1);
    TableRound(x);
    b[1] := Xor(b[1], TableMix(x));
    x := Xor(Xor(Xor(b[0], b[1]), b[3]), k2);
    TableRound(x);
    b[2] := Xor(b[2], TableMix(x));
    x := Xor(Xor(Xor(b[1], b[2]), b[0]), k3);
    TableRound(x);
    b[3] := Xor(b[3], TableMix(x));
  }

  lemma FourMore(s: Words, ks: seq<word>, i: nat)
    requires i + 4 <= |ks|
    ensures Rounds(s, ks[..i + 4])
         == Round(Round(Round(Round(Rounds(s, ks[..i]), ks[i]), ks[i + 1]), ks[i + 2]), ks[i + 3])
  {
    hide Round, Rounds;
    OneMore(s, ks, i);
    OneMore(s, ks, i + 1);
    OneMore(s, ks, i + 2);
    OneMore(s, ks, i + 3);
  }

  /** The same with the keys taken from the end. */
  lemma FourBack(s: Words, ks: seq<word>, i: nat, n: nat)
    requires i + 4 <= |ks| && i + n + 1 == |ks|
    ensures Rounds(s, Reverse(ks)[..i + 4])
         == Round(Round(Round(Round(Rounds(s, Reverse(ks)[..i]), ks[n]), ks[n - 1]), ks[n - 2]), ks[n - 3])
  {
    hide Round, Rounds, Reverse;
    FourMore(s, Reverse(ks), i);
    ReverseFour(ks, i);
  }

  lemma OneMore(s: Words, ks: seq<word>, i: nat)
    requires i < |ks|
    ensures Rounds(s, ks[..i + 1]) == Round(Rounds(s, ks[..i]), ks[i])
  {
    hide Round, Rounds;
    assert ks[..i + 1] == ks[..i] + [ks[i]];
    RoundsConcat(s, ks[..i], ks[i]);
  }

  method EncryptRounds(b: array<word>, ks: seq<word>)
    requires b.Length == 4 && |ks| == 32
    modifies b
    ensures State(b) == Rounds(old(State(b)), ks)
  {
    hide Round, Rounds;
    NoRounds(State(b), ks);
    for i := 0 to 8
      invariant State(b) == Rounds(old(State(b)), ks[..4 * i])
    {
      FourMore(old(State(b)), ks, 4 * i);
      Pass(b, ks[4 * i], ks[4 * i + 1], ks[4 * i + 2], ks[4 * i + 3]);
    }
    assert ks[..32] == ks;
  }

  method DecryptRounds(b: array<word>, ks: seq<word>)
    requires b.Length == 4 && |ks| == 32
    modifies b
    ensures State(b) == Rounds(old(State(b)), Reverse(ks))
  {
    hide Round, Rounds, Reverse;
    ghost var rs := Reverse(ks);
    NoRounds(State(b), rs);
    for i := 0 to 8
      invariant State(b) == Rounds(old(State(b)), rs[..4 * i])
    {
      FourBack(old(State(b)), ks, 4 * i, 31 - 4 * i);
      Pass(b, ks[31 - 4 * i], ks[31 - 4 * i - 1], ks[31 - 4 * i - 2], ks[31 - 4 * i - 3]);
    }
    assert rs[..32] == rs;
  }

  lemma NoRounds(s: Words, ks: seq<word>)
    ensures Rounds(s, ks[..0]) == s
  {}

  /** cryptBlock: the table-driven cipher computes the standard's. */
  method CryptBlock(ks: seq<word>, src: Block, decrypt: bool) returns (dst: Block)
    requires |ks| == 32
    ensures dst == Crypt(if decrypt then Reverse(ks) else ks, src)
  {
    hide Rounds, Reverse, Pack, Unpack;
    var s := Pack(src);
    var b := new word[4];
    b[0], b[1], b[2], b[3] := s.a, s.b, s.c, s.d;
    if decrypt {
      DecryptRounds(b, ks);
    } else {
      EncryptRounds(b, ks);
    }
    b[0], b[1], b[2], b[3] := b[3], b[2], b[1], b[0];
    dst := Unpack(Words(b[0], b[1], b[2], b[3]));
  }

  // ---- the key schedule (section 7.3 of the standard)

  function Rot13(b: word): (r: word) { (b << 13) | (b >> 19) }
  function Rot23(b: word): (r: word) { (b << 23) | (b >> 9) }

  function KeyLinear(b: word): (r: word) { Xor(Xor(b, Rot13(b)), Rot23(b)) }

  function Rot1(b: word): (r: word) { (b << 1) | (b >> 31) }

  lemma Rot1Linear(a: word, b: word)
    ensures Rot1(Xor(a, b)) == Xor(Rot1(a), Rot1(b))
  {}

  lemma Rot13Linear(a: word, b: word)
    ensures Rot13(Xor(a, b)) == Xor(Rot13(a), Rot13(b)) && Rot13(Rot1(b)) == Rot1(Rot13(b))
  {}

  lemma Rot23Linear(a: word, b: word)
    ensures Rot23(Xor(a, b)) == Xor(Rot23(a), Rot23(b)) && Rot23(Rot1(b)) == Rot1(Rot23(b))
  {}

  /** The key's linear layer, determined: it respects exclusive or and rotation, and takes
      the lowest bit to itself and its rotations by thirteen and twenty-three. */
  lemma KeyLinearIs(a: word, b: word)
    ensures KeyLinear(Xor(a, b)) == Xor(KeyLinear(a), KeyLinear(b))
    ensures KeyLinear(Rot1(b)) == Rot1(KeyLinear(b))
    ensures KeyLinear(1) == 0x0080_2001
  {
    KeyLinearOne();
    hide Xor, Rot1, Rot13, Rot23;
    Rot13Linear(a, b);
    Rot23Linear(a, b);
    XorSwap(a, b, Rot13(a), Rot13(b));
    XorSwap(Xor(a, Rot13(a)), Xor(b, Rot13(b)), Rot23(a), Rot23(b));
    Rot1Linear(b, Rot13(b));
    Rot1Linear(Xor(b, Rot13(b)), Rot23(b));
  }

  lemma KeyLinearOne()
    ensures KeyLinear(1) == 0x0080_2001
  {}

  lemma RotsTurn(b: word)
    ensures Rot2(Rot1(b)) == Rot1(Rot2(b)) && Rot10(Rot1(b)) == Rot1(Rot10(b))
    ensures Rot18(Rot1(b)) == Rot1(Rot18(b)) && Rot24(Rot1(b)) == Rot1(Rot24(b))
  {}

  /** The same of the linear layer of the rounds: rotations by two, ten, eighteen and
      twenty-four. */
  lemma LinearIs(a: word, b: word)
    ensures Linear(Xor(a, b)) == Xor(Linear(a), Linear(b))
    ensures Linear(Rot1(b)) == Rot1(Linear(b))
    ensures Linear(1) == 0x0104_0405
  {
    LinearOne();
    LinearXor(a, b);
    hide Xor, Rot1, Rot2, Rot10, Rot18, Rot24;
    RotsTurn(b);
    Rot1Linear(b, Rot2(b));
    Rot1Linear(Xor(b, Rot2(b)), Rot10(b));
    Rot1Linear(Xor(Xor(b, Rot2(b)), Rot10(b)), Rot18(b));
    Rot1Linear(Xor(Xor(Xor(b, Rot2(b)), Rot10(b)), Rot18(b)), Rot24(b));
  }

  lemma LinearOne()
    ensures Linear(1) == 0x0104_0405
  {}

  function Pick(i: nat, a0: word, a1: word, a2: word, a3: word, a4: word, a5: word, a6: word, a7: word): (r: word)
    requires i < 8
  {
    if i < 4 then (if i < 2 then (if i < 1 then a0 else a1) else (if i < 3 then a2 else a3))
    else (if i < 6 then (if i < 5 then a4 else a5) else (if i < 7 then a6 else a7))
  }

  /** The fixed parameters of the thirty-two key rounds. */
  function Ck(i: nat): (r: word)
    requires i < 32
  {
    if i < 8 then
      Pick(i, 0x00070e15, 0x1c232a31, 0x383f464d, 0x545b6269, 0x70777e85, 0x8c939aa1, 0xa8afb6bd, 0xc4cbd2d9)
    else if i < 16 then
      Pick(i - 8, 0xe0e7eef5, 0xfc030a11, 0x181f262d, 0x343b4249, 0x50575e65, 0x6c737a81, 0x888f969d, 0xa4abb2b9)
    else if i < 24 then
      Pick(i - 16, 0xc0c7ced5, 0xdce3eaf1, 0xf8ff060d, 0x141b2229, 0x30373e45, 0x4c535a61, 0x686f767d, 0x848b9299)
    else
      Pick(i - 24, 0xa0a7aeb5, 0xbcc3cad1, 0xd8dfe6ed, 0xf4fb0209, 0x10171e25, 0x2c333a41, 0x484f565d, 0x646b7279)
  }

  /** Seven times n, in a byte. */
  function Sevenfold(n: nat): (o: octet) { if n == 0 then 0 else Sevenfold(n - 1) + 7 }

  /** Every byte of w is twenty-eight more than that of v. */
  predicate NextBytes(v: word, w: word) {
    && Octet3(w) == Octet3(v) + 28 && Octet2(w) == Octet2(v) + 28
    && Octet1(w) == Octet1(v) + 28 && Octet(w) == Octet(v) + 28
  }

  lemma FourSevens(n: nat)
    ensures Sevenfold(n + 4) == Sevenfold(n) + 28
  {
    assert Sevenfold(n + 1) == Sevenfold(n) + 7;
    assert Sevenfold(n + 2) == Sevenfold(n + 1) + 7;
    assert Sevenfold(n + 3) == Sevenfold(n + 2) + 7;
  }

  /** The bytes of w are the sevenfolds from n on. */
  predicate Sevens(w: word, n: nat) {
    && Octet3(w) == Sevenfold(n) && Octet2(w) == Sevenfold(n + 1)
    && Octet1(w) == Sevenfold(n + 2) && Octet(w) == Sevenfold(n + 3)
  }

  lemma FirstCk()
    ensures Sevens(Ck(0), 0)
  {
    assert Sevenfold(1) == 7;
    assert Sevenfold(2) == 14;
    assert Sevenfold(3) == 21;
  }

  lemma NextSevens(v: word, w: word, n: nat)
    requires Sevens(v, n) && NextBytes(v, w)
    ensures Sevens(w, n + 4)
  {
    hide Octet, Octet1, Octet2, Octet3, Sevenfold;
    FourSevens(n);
    FourSevens(n + 1);
    FourSevens(n + 2);
    FourSevens(n + 3);
  }

  /** Byte j of parameter i is seven times 4i + j, modulo 256. */
  lemma {:induction false} CkFormula(i: nat)
    requires i < 32
    ensures Sevens(Ck(i), 4 * i)
  {
    hide Ck, Sevens, NextBytes;
    if i == 0 {
      FirstCk();
    } else {
      CkFormula(i - 1);
      CkNext(i);
      NextSevens(Ck(i - 1), Ck(i), 4 * (i - 1));
    }
  }

  lemma CkNext(i: nat)
    requires 0 < i < 32
    ensures NextBytes(Ck(i - 1), Ck(i))
  {
    hide Ck, NextBytes;
    if i < 8 {
      CkNext0(i);
    } else if i < 16 {
      CkNext1(i);
    } else if i < 24 {
      CkNext2(i);
    } else {
      CkNext3(i);
    }
  }

  lemma CkNext0(i: nat)
    requires 1 <= i < 8
    ensures NextBytes(Ck(i - 1), Ck(i))
  {
    if i == 1 {
      assert NextBytes(Ck(0), Ck(1));
    } else if i == 2 {
      assert NextBytes(Ck(1), Ck(2));
    } else if i == 3 {
      assert NextBytes(Ck(2), Ck(3));
    } else if i == 4 {
      assert NextBytes(Ck(3), Ck(4));
    } else if i == 5 {
      assert NextBytes(Ck(4), Ck(5));
    } else if i == 6 {
      assert NextBytes(Ck(5), Ck(6));
    } else {
      assert NextBytes(Ck(6), Ck(7));
    }
  }

  lemma CkNext1(i: nat)
    requires 8 <= i < 16
    ensures NextBytes(Ck(i - 1), Ck(i))
  {
    if i == 8 {
      assert NextBytes(Ck(7), Ck(8));
    } else if i == 9 {
      assert NextBytes(Ck(8), Ck(9));
    } else if i == 10 {
      assert NextBytes(Ck(9), Ck(10));
    } else if i == 11 {
      assert NextBytes(Ck(10), Ck(11));
    } else if i == 12 {
      assert NextBytes(Ck(11), Ck(12));
    } else if i == 13 {
      assert NextBytes(Ck(12), Ck(13));
    } else if i == 14 {
      assert NextBytes(Ck(13), Ck(14));
    } else {
      assert NextBytes(Ck(14), Ck(15));
    }
  }

  lemma CkNext2(i: nat)
    requires 16 <= i < 24
    ensures NextBytes(Ck(i - 1), Ck(i))
  {
    if i == 16 {
      assert NextBytes(Ck(15), Ck(16));
    } else if i == 17 {
      assert NextBytes(Ck(16), Ck(17));
    } else if i == 18 {
      assert NextBytes(Ck(17), Ck(18));
    } else if i == 19 {
      assert NextBytes(Ck(18), Ck(19));
    } else if i == 20 {
      assert NextBytes(Ck(19), Ck(20));
    } else if i == 21 {
      assert NextBytes(Ck(20), Ck(21));
    } else if i == 22 {
      assert NextBytes(Ck(21), Ck(22));
    } else {
      assert NextBytes(Ck(22), Ck(23));
    }
  }

  lemma CkNext3(i: nat)
    requires 24 <= i < 32
    ensures NextBytes(Ck(i - 1), Ck(i))
  {
    if i == 24 {
      assert NextBytes(Ck(23), Ck(24));
    } else if i == 25 {
      assert NextBytes(Ck(24), Ck(25));
    } else if i == 26 {
      assert NextBytes(Ck(25), Ck(26));
    } else if i == 27 {
      assert NextBytes(Ck(26), Ck(27));
    } else if i == 28 {
      assert NextBytes(Ck(27), Ck(28));
    } else if i == 29 {
      assert NextBytes(Ck(28), Ck(29));
    } else if i == 30 {
      assert NextBytes(Ck(29), Ck(30));
    } else {
      assert NextBytes(Ck(30), Ck(31));
    }
  }

  function KeyStart(key: Block): (s: Words) {
    var s := Pack(key);
    Words(Xor(s.a, 0xa3b1bac6), Xor(s.b, 0x56aa3350), Xor(s.c, 0x677d9197), Xor(s.d, 0xb27022dc))
  }

  /** The system parameters FK are what the zero key starts from. */
  lemma ZeroKeyStart()
    ensures KeyStart(seq(16, _ => 0)) == Words(0xa3b1bac6, 0x56aa3350, 0x677d9197, 0xb27022dc)
  {}

  function KeyRound(s: Words, c: word): (r: Words) {
    Words(s.b, s.c, s.d, Xor(s.a, KeyLinear(Substitute(Xor(Xor(Xor(s.b, s.c), s.d), c)))))
  }

  function KeyState(key: Block, n: nat): (s: Words)
    requires n <= 32
  {
    if n == 0 then KeyStart(key) else KeyRound(KeyState(key, n - 1), Ck(n - 1))
  }

  /** Round key i is the word that key round i brings in. */
  function SubKeys(key: Block): (ks: seq<word>)
    ensures |ks| == 32 && forall i :: 0 <= i < 32 ==> ks[i] == SubKey(key, i)
  {
    hide SubKey;
    seq(32, i requires 0 <= i < 32 => SubKey(key, i))
  }

  function SubKey(key: Block, i: nat): (k: word)
    requires i < 32
  { KeyState(key, i + 1).d }

  method GenerateSubKeys(key: Block) returns (ks: seq<word>)
    ensures ks == SubKeys(key)
  {
    hide KeyRound, Ck, KeyStart;
    var b := KeyStart(key);
    ks := [];
    for i := 0 to 32
      invariant |ks| == i && b == KeyState(key, i)
      invariant forall k :: 0 <= k < i ==> ks[k] == SubKey(key, k)
    {
      b := KeyRound(b, Ck(i));
      ks := ks + [b.d];
    }
  }

  method EncryptBlock(key: Block, src: Block) returns (dst: Block)
    ensures dst == Crypt(SubKeys(key), src)
  {
    hide Crypt, SubKeys;
    var ks := GenerateSubKeys(key);
    dst := CryptBlock(ks, src, false);
  }

  /** With the same key, decryption gives back what encryption was given. */
  method DecryptBlock(key: Block, src: Block) returns (dst: Block)
    ensures dst == Crypt(Reverse(SubKeys(key)), src)
    ensures forall b: Block :: src == Crypt(SubKeys(key), b) ==> dst == b
  {
    hide Crypt, SubKeys, Reverse;
    var ks := GenerateSubKeys(key);
    dst := CryptBlock(ks, src, true);
    forall b: Block | src == Crypt(SubKeys(key), b)
      ensures dst == b
    {
      DecryptEncrypt(SubKeys(key), b);
    }
  }
}
