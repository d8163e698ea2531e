/** The Keccak sponge, sections 4 and 5.1 of FIPS 202. The permutation is a parameter;
    the 1600-bit state is taken as its 200 bytes. */
module Sponge {
  import opened Bytes

  const WIDTH: nat := 200

  /** Bytes of the state exchanged per block, the domain byte (with the first padding
      bit), and the permutation. */
  datatype Params = Params(rate: nat, ds: u8, permute: seq<u8> -> seq<u8>)

  /** Rates are whole lanes of eight bytes. */
  ghost predicate Good(k: Params) {
    0 < k.rate <= WIDTH && k.rate % 8 == 0 && forall s :: |k.permute(s)| == WIDTH
  }

  /** The block is xored into the front of the state. */
  function XorIn(s: seq<u8>, b: seq<u8>): (r: seq<u8>)
    ensures |r| == |s|
    ensures forall i :: 0 <= i < |s| && i < |b| ==> r[i] == Xor(s[i], b[i])
    ensures forall i :: |b| <= i < |s| ==> r[i] == s[i]
  {
    seq(|s|, i requires 0 <= i < |s| => if i < |b| then Xor(s[i], b[i]) else s[i])
  }

  /** Xored in twice, a block leaves no trace. */
  lemma XorInTwice(s: seq<u8>, b: seq<u8>)
    ensures XorIn(XorIn(s, b), b) == s
  {
    hide Xor;
    forall i | 0 <= i < |s| && i < |b|
      ensures Xor(Xor(s[i], b[i]), b[i]) == s[i]
    {
      XorTwice(s[i], b[i]);
    }
  }

  // ---- the specification: absorb whole blocks, pad, squeeze

  function Absorb(k: Params, s: seq<u8>, m: seq<u8>): (r: seq<u8>)
    requires k.rate > 0
    decreases |m|
  {
    if |m| < k.rate then s else Absorb(k, k.permute(XorIn(s, m[..k.rate])), m[k.rate..])
  }

  /** What is left of m after its whole blocks. */
  function Tail(k: Params, m: seq<u8>): (t: seq<u8>)
    requires k.rate > 0
    ensures |t| < k.rate && |t| <= |m|
    decreases |m|
  {
    if |m| < k.rate then m else Tail(k, m[k.rate..])
  }

  /** The domain byte and the 10*1 padding, q bytes in all; one byte may hold both ends. */
  function PadSuffix(k: Params, q: nat): (p: seq<u8>)
    requires q > 0
    ensures |p| == q
  {
    if q == 1 then [Xor(k.ds, 0x80)] else [k.ds] + Zeros(q - 2) + [0x80]
  }

  function Padded(k: Params, m: seq<u8>): (p: seq<u8>)
    requires k.rate > 0
  {
    m + PadSuffix(k, k.rate - |Tail(k, m)|)
  }

  /** The state from which the digest of m is squeezed. */
  function Final(k: Params, m: seq<u8>): (s: seq<u8>)
    requires k.rate > 0
  {
    Absorb(k, Zeros(WIDTH), Padded(k, m))
  }

  /** The i-th byte squeezed from s on. */
  function OutByte(k: Params, s: seq<u8>, i: nat): (b: u8)
    requires Good(k) && |s| == WIDTH
    decreases i
  {
    if i < k.rate then s[i] else OutByte(k, k.permute(s), i - k.rate)
  }

  /** n bytes of output for message m, from position i on. */
  function Output(k: Params, m: seq<u8>, i: nat, n: nat): (r: seq<u8>)
    requires Good(k)
    ensures |r| == n
  {
    FinalWidth(k, m);
    var s := Final(k, m);
    seq<u8>(n, j requires 0 <= j < n => OutByte(k, s, i + j))
  }

  lemma {:induction false} AbsorbWidth(k: Params, s: seq<u8>, m: seq<u8>)
    requires Good(k) && |s| == WIDTH
    ensures |Absorb(k, s, m)| == WIDTH
    decreases |m|
  {
    if |m| >= k.rate {
      AbsorbWidth(k, k.permute(XorIn(s, m[..k.rate])), m[k.rate..]);
    }
  }

  lemma FinalWidth(k: Params, m: seq<u8>)
    requires Good(k)
    ensures |Final(k, m)| == WIDTH
  {
    AbsorbWidth(k, Zeros(WIDTH), Padded(k, m));
  }

  // ---- adding to a message, up to the end of its open block

  lemma {:induction false} AbsorbMore(k: Params, s: seq<u8>, m: seq<u8>, x: seq<u8>)
    requires k.rate > 0 && |Tail(k, m)| + |x| <= k.rate
    ensures |Tail(k, m)| + |x| < k.rate ==>
      Absorb(k, s, m + x) == Absorb(k, s, m) && Tail(k, m + x) == Tail(k, m) + x
    ensures |Tail(k, m)| + |x| == k.rate ==>
      Absorb(k, s, m + x) == k.permute(XorIn(Absorb(k, s, m), Tail(k, m) + x)) && Tail(k, m + x) == []
    decreases |m|
  {
    hide XorIn;
    if |m| >= k.rate {
      assert (m + x)[..k.rate] == m[..k.rate];
      assert (m + x)[k.rate..] == m[k.rate..] + x;
      AbsorbMore(k, k.permute(XorIn(s, m[..k.rate])), m[k.rate..], x);
    } else if |m| + |x| == k.rate {
      assert (m + x)[..k.rate] == m + x;
      assert (m + x)[k.rate..] == [];
    }
  }

  /** The output stream crosses from one state to the next every rate bytes. */
  function Iterate(k: Params, s: seq<u8>, n: nat): (r: seq<u8>) {
    if n == 0 then s else k.permute(Iterate(k, s, n - 1))
  }

  lemma {:induction false} IterateFirst(k: Params, s: seq<u8>, n: nat)
    ensures Iterate(k, k.permute(s), n) == Iterate(k, s, n + 1)
  {
    if n > 0 {
      IterateFirst(k, s, n - 1);
    }
  }

  lemma {:induction false} OutByteAt(k: Params, s: seq<u8>, n: nat, r: nat)
    requires Good(k) && |s| == WIDTH && r < k.rate
    ensures n * k.rate >= 0 && |Iterate(k, s, n)| == WIDTH
    ensures OutByte(k, s, n * k.rate + r) == Iterate(k, s, n)[r]
    decreases n
  {
    if n > 0 {
      OutByteAt(k, k.permute(s), n - 1, r);
      IterateFirst(k, s, n - 1);
      assert n * k.rate == (n - 1) * k.rate + k.rate;
    }
  }

  // ---- the object

  class Hasher {
    const k: Params
    const outputLen: nat
    var a: seq<u8>
    var buf: seq<u8>
    var squeezing: bool
    ghost var message: seq<u8>
    ghost var blocks: nat
    ghost var taken: nat

    constructor (k: Params, outputLen: nat)
      requires Good(k)
      ensures this.k == k && this.outputLen == outputLen
      ensures Valid() && !squeezing && message == [] && taken == 0
    {
      this.k, this.outputLen := k, outputLen;
      a, buf, squeezing := Zeros(WIDTH), [], false;
      message, blocks, taken := [], 0, 0;
    }

    /** Absorbing: the state has taken the whole blocks of the message and the buffer
        holds the rest. Squeezing: the buffer holds the unread part of a block. */
    ghost predicate Valid()
      reads this
    {
      && Good(k) && |a| == WIDTH
      && if !squeezing then
           a == Absorb(k, Zeros(WIDTH), message) && buf == Tail(k, message) && taken == 0
         else
           && a == Iterate(k, Final(k, message), blocks)
           && 0 < |buf| <= k.rate && buf == a[k.rate - |buf|..k.rate]
           && taken == blocks * k.rate + (k.rate - |buf|)
    }

    /** permute while absorbing: the full buffer goes into the state. */
    method PermuteIn()
      requires Good(k) && |a| == WIDTH
      modifies `a, `buf
      ensures a == k.permute(XorIn(old(a), old(buf))) && buf == []
    {
      a := k.permute(XorIn(a, buf));
      buf := [];
    }

    /** permute while squeezing: the next block of output fills the buffer. */
    method PermuteOut()
      requires Good(k) && |a| == WIDTH
      modifies `a, `buf
      ensures a == k.permute(old(a)) && buf == a[..k.rate]
    {
      a := k.permute(a);
      buf := a[..k.rate];
    }

    /** Write: any data, in any portions, with the buffer kept shorter than a block. */
    method Write(data: seq<u8>) returns (written: nat)
      requires Valid() && !squeezing
      modifies this
      ensures Valid() && !squeezing && message == old(message) + data && |buf| < k.rate
      ensures written == |data|
    {
      hide Absorb, Tail, XorIn, Zeros;
      written := |data|;
      var p := data;
      while |p| > 0
        invariant Valid() && !squeezing && |buf| < k.rate
        invariant message + p == old(message) + data
        decreases |p|
      {
        ghost var m := message;
        var todo := k.rate - |buf|;
        if todo > |p| { todo := |p|; }
        ghost var x := p[..todo];
        assert p == x + p[todo..];
        AbsorbMore(k, Zeros(WIDTH), m, x);
        if |buf| == 0 && |p| >= k.rate {
          assert buf + p[..k.rate] == p[..k.rate];
          a := XorIn(a, p[..k.rate]);
          p := p[k.rate..];
          a := k.permute(a);
        } else {
          buf := buf + p[..todo];
          p := p[todo..];
          if |buf| == k.rate {
            PermuteIn();
          }
        }
        message := m + x;
      }
    }

    /** padAndPermute: the padding is built in the block buffer and absorbed. */
    method PadAndPermute()
      requires Valid() && !squeezing
      modifies this
      ensures Valid() && squeezing && message == old(message) && taken == 0
    {
      hide Absorb, Tail, XorIn;
      hide PadSuffix, Zeros;
      AbsorbMore(k, Zeros(WIDTH), message, PadSuffix(k, k.rate - |buf|));
      buf := PadInPlace(k, buf);
      PermuteIn();
      squeezing := true;
      buf := a[..k.rate];
      blocks, taken := 0, 0;
    }

    /** One copy of Read's loop: as much of the buffered block as is wanted. */
    method Squeeze(want: nat) returns (got: seq<u8>)
      requires Valid() && squeezing && want > 0
      modifies this
      ensures Valid() && squeezing && message == old(message)
      ensures 0 < |got| <= want && taken == old(taken) + |got|
      ensures got == Output(k, message, old(taken), |got|)
    {
      hide Absorb, Tail, XorIn, Final;
      var n := if want <= |buf| then want else |buf|;
      got := buf[..n];
      SqueezedBytes(k, message, blocks, k.rate - |buf|, n);
      buf := buf[n..];
      taken := taken + n;
      if |buf| == 0 {
        PermuteOut();
        blocks := blocks + 1;
        assert blocks * k.rate == (blocks - 1) * k.rate + k.rate;
      }
    }

    /** Read: the next bytes of the output, wherever earlier reads stopped. */
    method Read(n: nat) returns (out: seq<u8>)
      requires Valid()
      modifies this
      ensures Valid() && squeezing && message == old(message) && taken == old(taken) + n
      ensures out == Output(k, message, old(taken), n)
    {
      hide Valid;
      StartsAtZero();
      if !squeezing {
        PadAndPermute();
      }
      out := [];
      while |out| < n
        invariant Valid() && squeezing && message == old(message)
        invariant |out| <= n && taken == old(taken) + |out|
        invariant out == Output(k, message, old(taken), |out|)
        decreases n - |out|
      {
        ghost var done := |out|;
        var got := Squeeze(n - |out|);
        OutputConcat(k, message, old(taken), done, |got|);
        out := out + got;
      }
    }

    lemma StartsAtZero()
      requires Valid()
      ensures Good(k) && (!squeezing ==> taken == 0)
    {}
  }

  /** The block buffer: the domain byte, zeros up to the rate, and the closing bit. */
  method PadInPlace(k: Params, buf: seq<u8>) returns (block: seq<u8>)
    requires |buf| < k.rate
    ensures block == buf + PadSuffix(k, k.rate - |buf|)
  {
    hide Xor, PadSuffix;
    block := buf + [k.ds];
    var zerosStart := |block|;
    block := block + Zeros(k.rate - zerosStart);
    block := block[k.rate - 1 := Xor(block[k.rate - 1], 0x80)];
    PadBlock(k, buf);
  }

  /** The buffer after padding in place: the last byte gets the closing bit. */
  lemma PadBlock(k: Params, t: seq<u8>)
    requires |t| < k.rate
    ensures var block := t + [k.ds] + Zeros(k.rate - |t| - 1);
      block[k.rate - 1 := Xor(block[k.rate - 1], 0x80)] == t + PadSuffix(k, k.rate - |t|)
  {
    ZeroXor();
    hide Xor;
  }

  lemma ZeroXor()
    ensures Xor(0, 0x80) == 0x80
  {
    XorZero(0x80, 8);
    EightBits();
  }

  lemma ZeroXorAny(b: u8)
    ensures Xor(0, b) == b
  {
    EightBits();
    XorZero(b, 8);
  }

  /** The last block in the state: the message, the domain byte, zeros, the closing bit,
      and the capacity untouched. */
  predicate FirstState(k: Params, m: seq<u8>, x: seq<u8>)
    requires |m| + 1 < k.rate <= WIDTH
  {
    && |x| == WIDTH && m <= x && x[|m|] == k.ds && x[k.rate - 1] == 0x80
    && forall i :: |m| < i < WIDTH && i != k.rate - 1 ==> x[i] == 0
  }

  /** The whole function where one block is enough: the output is read off the permuted
      state, rate bytes from each. */
  lemma ShortMessage(k: Params, m: seq<u8>, x: seq<u8>, blocks: nat, r: nat, n: nat)
    requires Good(k) && |m| + 1 < k.rate && FirstState(k, m, x) && r < k.rate
    ensures 0 <= blocks * k.rate
    ensures |Iterate(k, x, blocks + 1)| == WIDTH
    ensures blocks * k.rate + r < n ==> Output(k, m, 0, n)[blocks * k.rate + r] == Iterate(k, x, blocks + 1)[r]
  {
    hide Xor;
    var p := Padded(k, m);
    assert p[..k.rate] == p && p[k.rate..] == [];
    var y := XorIn(Zeros(WIDTH), p);
    forall i | 0 <= i < WIDTH
      ensures y[i] == x[i]
    {
      if i < |p| {
        ZeroXorAny(p[i]);
      }
    }
    assert y == x;
    assert Absorb(k, k.permute(x), p[k.rate..]) == k.permute(x);
    assert XorIn(Zeros(WIDTH), p[..k.rate]) == x;
    assert Final(k, m) == k.permute(x);
    OutByteAt(k, k.permute(x), blocks, r);
    IterateFirst(k, x, blocks);
  }

  lemma {:induction false} XorZero(b: nat, n: nat)
    requires b < Pow2(n)
    ensures XorBits(0, b, n) == b
  {
    if n > 0 {
      XorZero(b / 2, n - 1);
    }
  }

  lemma SqueezedBytes(k: Params, m: seq<u8>, blocks: nat, from: nat, n: nat)
    requires Good(k) && from + n <= k.rate
    ensures |Iterate(k, Final(k, m), blocks)| == WIDTH && blocks * k.rate + from >= 0
    ensures Iterate(k, Final(k, m), blocks)[from..from + n] == Output(k, m, blocks * k.rate + from, n)
  {
    hide Final;
    FinalWidth(k, m);
    var s, at := Final(k, m), blocks * k.rate + from;
    OutByteAt(k, s, blocks, 0);
    var x, y := Iterate(k, s, blocks)[from..from + n], Output(k, m, at, n);
    forall j | 0 <= j < n
      ensures x[j] == y[j]
    {
      OutByteAt(k, s, blocks, from + j);
      assert at + j == blocks * k.rate + (from + j);
    }
  }

  lemma OutputConcat(k: Params, m: seq<u8>, i: nat, a: nat, b: nat)
    requires Good(k)
    ensures Output(k, m, i, a + b) == Output(k, m, i, a) + Output(k, m, i + a, b)
  {
    hide Final, OutByte;
    FinalWidth(k, m);
    var x, y := Output(k, m, i, a + b), Output(k, m, i, a) + Output(k, m, i + a, b);
    forall j | 0 <= j < a + b
      ensures x[j] == y[j]
    {
      if j >= a {
        assert i + a + (j - a) == i + j;
      }
    }
  }

  /** Sum from the absorbing state: the digest of what was written, appended; the hash
      itself is left as it was. */
  method Sum(d: Hasher, input: seq<u8>) returns (r: seq<u8>)
    requires d.Valid() && !d.squeezing
    ensures r == input + Output(d.k, d.message, 0, d.outputLen)
  {
    hide Absorb, Tail, XorIn, Output;
    var dup := new Hasher(d.k, d.outputLen);
    dup.a, dup.buf := d.a, d.buf;
    dup.message := d.message;
    var hash := dup.Read(dup.outputLen);
    r := input + hash;
  }

  /** For every cutting of the input into writes and of the output into sizes, the
      reads joined are the sponge function of the writes joined. */
  method HashInPieces(k: Params, writes: seq<seq<u8>>, sizes: seq<nat>) returns (out: seq<u8>)
    requires Good(k)
    ensures out == Output(k, Joined(writes), 0, Total(sizes))
  {
    hide Output, Good, Hasher.Valid;
    var d := new Hasher(k, 0);
    assert writes[..0] == [] && sizes[..0] == [];
    for i := 0 to |writes|
      invariant fresh(d) && d.k == k && d.Valid() && !d.squeezing && d.message == Joined(writes[..i]) && d.taken == 0
    {
      var n := d.Write(writes[i]);
      d.StartsAtZero();
      assert writes[..i + 1][..i] == writes[..i];
    }
    assert writes[..|writes|] == writes;
    out := [];
    OutputNone(k, Joined(writes));
    for i := 0 to |sizes|
      invariant fresh(d) && d.k == k && d.Valid() && d.message == Joined(writes) && d.taken == Total(sizes[..i])
      invariant out == Output(k, Joined(writes), 0, Total(sizes[..i]))
    {
      var got := d.Read(sizes[i]);
      assert sizes[..i + 1][..i] == sizes[..i];
      OutputConcat(k, Joined(writes), 0, Total(sizes[..i]), sizes[i]);
      out := out + got;
    }
    assert sizes[..|sizes|] == sizes;
  }

  lemma OutputNone(k: Params, m: seq<u8>)
    requires Good(k)
    ensures Output(k, m, 0, 0) == []
  {}
}
