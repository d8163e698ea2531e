/** The incremental SM3 hash. The compression function and the byte form of a digest
    are parameters; D stands for the eight digest words. */
module Sm3 {
  import opened Bytes

  datatype Core<!D(!new)> = Core(init: D, compress: (D, seq<u8>) -> D, bytes: D -> seq<u8>)

  const BLOCK: nat := 64
  const WORD64: nat := 0x1_0000_0000_0000_0000

  /** digest, the message length in bits modulo 2^64, and the bytes not yet hashed. */
  datatype State<!D(!new)> = State(digest: D, length: nat, pending: seq<u8>)

  predicate Ready<D(!new)>(s: State<D>) { |s.pending| < BLOCK && s.length < WORD64 }

  function Start<D(!new)>(c: Core<D>): (s: State<D>)
    ensures Ready(s)
  { State(c.init, 0, []) }

  /** The digest after all whole blocks of m. */
  function Absorb<D(!new)>(c: Core<D>, d: D, m: seq<u8>): (r: D)
    decreases |m|
  {
    if |m| < BLOCK then d else Absorb(c, c.compress(d, m[..BLOCK]), m[BLOCK..])
  }

  /** The bytes of n that make whole blocks. */
  function Whole(n: nat): (w: nat)
    ensures w <= n < w + BLOCK && w % BLOCK == 0
  { n / BLOCK * BLOCK }

  function Written<D(!new)>(c: Core<D>, s: State<D>, p: seq<u8>): (r: State<D>)
    ensures Ready(r)
  {
    var msg := s.pending + p;
    State(Absorb(c, s.digest, msg), (s.length + 8 * |p|) % WORD64, msg[Whole(|msg|)..])
  }

  /** Zero bytes after the marker byte, so that eight bytes of length end a block. */
  function PadLength(n: nat): (k: nat)
    ensures (n + 1 + k) % BLOCK == 56
  { (119 - n % BLOCK) % BLOCK }

  /** The eight bytes that shifts right by 56, 48 and so on to 0 leave lowest. */
  function LengthBytes(n: nat): (s: seq<u8>)
    ensures |s| == 8
  {
    var n1 := n / 256;
    var n2 := n1 / 256;
    var n3 := n2 / 256;
    var n4 := n3 / 256;
    var n5 := n4 / 256;
    var n6 := n5 / 256;
    var n7 := n6 / 256;
    [n7 % 256, n6 % 256, n5 % 256, n4 % 256, n3 % 256, n2 % 256, n1 % 256, n % 256]
  }

  lemma OneMoreByte(s: seq<u8>, k: nat, n: nat)
    requires k < |s| && FromBigEndian(s[..k]) == n / 256 && s[k] == n % 256
    ensures FromBigEndian(s[..k + 1]) == n
  {
    assert s[..k + 1][..k] == s[..k];
  }

  /** The eight bytes are the length, highest byte first. */
  lemma LengthValue(n: nat)
    requires n < WORD64
    ensures FromBigEndian(LengthBytes(n)) == n
  {
    hide FromBigEndian;
    var s := LengthBytes(n);
    var n1 := n / 256;
    var n2 := n1 / 256;
    var n3 := n2 / 256;
    var n4 := n3 / 256;
    var n5 := n4 / 256;
    var n6 := n5 / 256;
    var n7 := n6 / 256;
    NoBytes(s);
    OneMoreByte(s, 0, n7);
    OneMoreByte(s, 1, n6);
    OneMoreByte(s, 2, n5);
    OneMoreByte(s, 3, n4);
    OneMoreByte(s, 4, n3);
    OneMoreByte(s, 5, n2);
    OneMoreByte(s, 6, n1);
    OneMoreByte(s, 7, n);
    assert s[..8] == s;
  }

  lemma NoBytes(s: seq<u8>)
    ensures FromBigEndian(s[..0]) == 0
  {}

  /** The last blocks: what is pending, a marker, zeros and the length. */
  function Padded<D(!new)>(s: State<D>): (m: seq<u8>)
    ensures |m| % BLOCK == 0 && |m| > 0
  {
    s.pending + [0x80] + Zeros(PadLength(|s.pending|)) + LengthBytes(s.length)
  }

  /** Sum moves the running digest on, although the pending bytes stay. */
  function SumState<D(!new)>(c: Core<D>, s: State<D>): (r: State<D>)
    requires Ready(s)
    ensures Ready(r)
  {
    s.(digest := Absorb(c, s.digest, Padded(s)))
  }

  function SumBytes<D(!new)>(c: Core<D>, s: State<D>): (b: seq<u8>)
    requires Ready(s)
  {
    c.bytes(SumState(c, s).digest)
  }

  // ---- writing is insensitive to how the data is cut

  lemma {:induction false} AbsorbConcat<D(!new)>(c: Core<D>, d: D, a: seq<u8>, b: seq<u8>)
    requires |a| % BLOCK == 0
    ensures Absorb(c, d, a + b) == Absorb(c, Absorb(c, d, a), b)
    decreases |a|
  {
    if |a| == 0 {
      assert a + b == b;
    } else {
      assert (a + b)[..BLOCK] == a[..BLOCK];
      assert (a + b)[BLOCK..] == a[BLOCK..] + b;
      AbsorbConcat(c, c.compress(d, a[..BLOCK]), a[BLOCK..], b);
    }
  }

  /** Absorb only sees whole blocks. */
  lemma AbsorbWhole<D(!new)>(c: Core<D>, d: D, m: seq<u8>)
    ensures Absorb(c, d, m) == Absorb(c, d, m[..Whole(|m|)])
  {
    var n := Whole(|m|);
    AbsorbConcat(c, d, m[..n], m[n..]);
    assert m == m[..n] + m[n..];
  }

  lemma Blocks(a: nat, b: nat)
    ensures Whole(a + b) == Whole(a) + Whole(a - Whole(a) + b)
  {}

  lemma Recut(m: seq<u8>, n: nat, q: seq<u8>, k: nat)
    requires n <= |m| && k <= |m| - n + |q|
    ensures m + q == m[..n] + (m[n..] + q) && (m + q)[n + k..] == (m[n..] + q)[k..]
  {}

  lemma WriteNothing<D(!new)>(c: Core<D>, s: State<D>)
    requires Ready(s)
    ensures Written(c, s, []) == s
  {
    assert s.pending + [] == s.pending;
  }

  /** Two writes are one write of the joined data. */
  lemma WriteTwice<D(!new)>(c: Core<D>, s: State<D>, p: seq<u8>, q: seq<u8>)
    ensures Written(c, Written(c, s, p), q) == Written(c, s, p + q)
  {
    hide Absorb, Whole;
    var m := s.pending + p;
    var n := Whole(|m|);
    Blocks(|m|, |q|);
    assert s.pending + (p + q) == m + q;
    Recut(m, n, q, Whole(|m| - n + |q|));
    AbsorbWhole(c, s.digest, m);
    AbsorbConcat(c, s.digest, m[..n], m[n..] + q);
    Lengths(s.length, |p|, |q|);
  }

  lemma Lengths(l: nat, p: nat, q: nat)
    ensures ((l + 8 * p) % WORD64 + 8 * q) % WORD64 == (l + 8 * (p + q)) % WORD64
  {
    var x := l + 8 * p;
    Turns(x % WORD64 + 8 * q, x / WORD64);
    assert x == x % WORD64 + WORD64 * (x / WORD64);
  }

  lemma Turns(x: nat, k: nat)
    ensures (x + WORD64 * k) % WORD64 == x % WORD64
  {}

  function WriteAll<D(!new)>(c: Core<D>, s: State<D>, chunks: seq<seq<u8>>): (r: State<D>) {
    if chunks == [] then s else Written(c, WriteAll(c, s, chunks[..|chunks| - 1]), chunks[|chunks| - 1])
  }

  /** Any cutting of a message into writes leaves the same state. */
  lemma {:induction false} ChunkingIrrelevant<D(!new)>(c: Core<D>, s: State<D>, chunks: seq<seq<u8>>)
    requires Ready(s)
    ensures WriteAll(c, s, chunks) == Written(c, s, Joined(chunks))
  {
    hide Written;
    if chunks == [] {
      WriteNothing(c, s);
    } else {
      var k := |chunks| - 1;
      ChunkingIrrelevant(c, s, chunks[..k]);
      WriteTwice(c, s, Joined(chunks[..k]), chunks[k]);
    }
  }

  lemma PadBlocks(n: nat)
    ensures PadLength(n - Whole(n)) == PadLength(n)
  {}

  /** Summing again without a write in between hashes the padding a second time. */
  lemma SumAgain<D(!new)>(c: Core<D>, s: State<D>)
    requires Ready(s)
    ensures SumBytes(c, SumState(c, s)) == c.bytes(Absorb(c, s.digest, Padded(s) + Padded(s)))
  {
    hide Absorb;
    AbsorbConcat(c, s.digest, Padded(s), Padded(s));
  }

  lemma StartWritten<D(!new)>(c: Core<D>, m: seq<u8>)
    ensures Written(c, Start(c), m) == State(Absorb(c, c.init, m), 8 * |m| % WORD64, m[Whole(|m|)..])
  {
    hide Absorb, Whole, Ready;
    var s := Start(c);
    assert s.pending + m == m && s.length + 8 * |m| == 8 * |m|;
  }

  lemma PaddedIs<D(!new)>(s: State<D>)
    ensures Padded(s) == s.pending + ([0x80] + Zeros(PadLength(|s.pending|)) + LengthBytes(s.length))
  {
    hide Zeros, PadLength, LengthBytes;
  }

  /** A marker byte, the fewest zero bytes that leave room for the length in the last
      block, and the message length in bits, highest byte first, modulo 2^64. */
  predicate Tail(t: seq<u8>, n: nat) {
    && 9 <= |t| < 9 + BLOCK && (n + |t|) % BLOCK == 0 && t[0] == 0x80
    && (forall i :: 0 < i < |t| - 8 ==> t[i] == 0)
    && FromBigEndian(t[|t| - 8..]) == 8 * n % WORD64
  }

  lemma PadLengthIs(n: nat, k: nat)
    requires k < BLOCK && (n + 9 + k) % BLOCK == 0
    ensures k == PadLength(n)
  {}

  lemma TailIs(t: seq<u8>, n: nat)
    requires Tail(t, n)
    ensures t == [0x80] + Zeros(PadLength(n)) + LengthBytes(8 * n % WORD64)
  {
    hide LengthBytes, FromBigEndian, PadLength;
    var k := |t| - 9;
    PadLengthIs(n, k);
    LengthValue(8 * n % WORD64);
    BigEndianOnce(t[k + 1..], LengthBytes(8 * n % WORD64));
    assert t[..k + 1] == [0x80] + Zeros(k);
    assert t == t[..k + 1] + t[k + 1..];
  }

  lemma PadLengthFits(n: nat)
    ensures PadLength(n) < BLOCK && (n + 9 + PadLength(n)) % BLOCK == 0
  {}

  /** There is such an end to every message. */
  lemma HasTail(n: nat)
    ensures Tail([0x80] + Zeros(PadLength(n)) + LengthBytes(8 * n % WORD64), n)
  {
    hide LengthBytes, FromBigEndian, PadLength;
    var k, len := PadLength(n), LengthBytes(8 * n % WORD64);
    LengthValue(8 * n % WORD64);
    PadLengthFits(n);
    var t := [0x80] + Zeros(k) + len;
    assert t[|t| - 8..] == len;
  }

  /** Hashing chunks from the start is one pass over the padded message. */
  lemma HashOfChunks<D(!new)>(c: Core<D>, chunks: seq<seq<u8>>, end: seq<u8>)
    requires Tail(end, |Joined(chunks)|)
    ensures Ready(WriteAll(c, Start(c), chunks))
    ensures SumBytes(c, WriteAll(c, Start(c), chunks)) == c.bytes(Absorb(c, c.init, Joined(chunks) + end))
  {
    hide Absorb, LengthBytes, PadLength, Whole, Zeros, Padded, Written, Tail;
    var m := Joined(chunks);
    TailIs(end, |m|);
    ChunkingIrrelevant(c, Start(c), chunks);
    StartWritten(c, m);
    var s := Written(c, Start(c), m);
    var n := Whole(|m|);
    PadBlocks(|m|);
    var tail := [0x80] + Zeros(PadLength(|m|)) + LengthBytes(s.length);
    PaddedIs(s);
    AbsorbWhole(c, c.init, m);
    AbsorbConcat(c, c.init, m[..n], m[n..] + tail);
    Recut(m, n, tail, 0);
  }

  /** Whole blocks are compressed once each, in order. */
  lemma AbsorbBlocks<D(!new)>(c: Core<D>, d: D, block: seq<u8>, rest: seq<u8>)
    requires |block| == BLOCK
    ensures |rest| < BLOCK ==> Absorb(c, d, rest) == d
    ensures Absorb(c, d, block + rest) == Absorb(c, c.compress(d, block), rest)
  {
    assert (block + rest)[..BLOCK] == block && (block + rest)[BLOCK..] == rest;
  }

  // ---- the object

  class Hash<D(!new)> {
    const core: Core<D>
    var digest: D
    var length: nat
    var unhandled: seq<u8>

    constructor (c: Core<D>)
      ensures core == c && Abs() == Start(c)
    {
      core := c;
      digest, length, unhandled := c.init, 0, [];
    }

    ghost function Abs(): (s: State<D>)
      reads this
    {
      State(digest, length, unhandled)
    }

    /** update: compresses block by block. */
    method Update(m: seq<u8>)
      modifies `digest
      ensures digest == Absorb(core, old(digest), m)
    {
      var d, msg := digest, m;
      while |msg| >= BLOCK
        invariant Absorb(core, d, msg) == Absorb(core, old(digest), m)
        decreases |msg|
      {
        d := core.compress(d, msg[..BLOCK]);
        msg := msg[BLOCK..];
      }
      digest := d;
    }

    method Write(p: seq<u8>) returns (n: nat)
      modifies this
      ensures n == |p| && Abs() == Written(core, old(Abs()), p)
    {
      hide Absorb;
      length := (length + |p| * 8) % WORD64;
      var msg := unhandled + p;
      var nblocks := |msg| / BLOCK;
      Update(msg);
      unhandled := msg[nblocks * BLOCK..];
      n := |p|;
    }

    /** pad: the pending bytes completed to whole blocks. */
    method Pad() returns (msg: seq<u8>)
      requires Ready(Abs())
      ensures msg == Padded(Abs())
      ensures |msg| % BLOCK == 0 && |unhandled| + 9 <= |msg| < |unhandled| + 9 + BLOCK
      ensures unhandled + [0x80] <= msg && forall i :: |unhandled| < i < |msg| - 8 ==> msg[i] == 0
      ensures FromBigEndian(msg[|msg| - 8..]) == length
    {
      hide LengthBytes, FromBigEndian;
      msg := unhandled + [0x80];
      ghost var zeros := 0;
      while |msg| % BLOCK != 56
        invariant 0 <= zeros <= PadLength(|unhandled|)
        invariant msg == unhandled + [0x80] + Zeros(zeros)
        decreases PadLength(|unhandled|) - zeros
      {
        msg := msg + [0x00];
        zeros := zeros + 1;
      }
      assert zeros == PadLength(|unhandled|);
      LengthValue(length);
      msg := msg + LengthBytes(length);
      assert msg[|msg| - 8..] == LengthBytes(length);
    }

    /** Sum: hashes in as well and returns the digest alone, leaving the running digest
        past the padding. */
    method Sum(input: seq<u8>) returns (out: seq<u8>)
      requires Ready(Abs())
      modifies this
      ensures var s := Written(core, old(Abs()), input);
        Abs() == SumState(core, s) && out == SumBytes(core, s)
    {
      hide Absorb, Padded;
      var n := Write(input);
      var msg := Pad();
      Update(msg);
      out := core.bytes(digest);
    }
  }
}
