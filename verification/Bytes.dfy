/** Bytes and byte strings: joining, and exclusive or. */
module Bytes {
  type u8 = x: int | 0 <= x < 256

  function Zeros(n: nat): (z: seq<u8>)
    ensures |z| == n
  { seq(n, _ => 0) }

  /** Pieces joined in order. */
  function Joined(pieces: seq<seq<u8>>): (m: seq<u8>) {
    if pieces == [] then [] else Joined(pieces[..|pieces| - 1]) + pieces[|pieces| - 1]
  }

  function Total(sizes: seq<nat>): (n: nat) {
    if sizes == [] then 0 else Total(sizes[..|sizes| - 1]) + sizes[|sizes| - 1]
  }

  /** The number a byte string stands for, highest byte first. */
  function FromBigEndian(s: seq<u8>): (n: nat) {
    if s == [] then 0 else 256 * FromBigEndian(s[..|s| - 1]) + s[|s| - 1]
  }

  /** Of one length there is one byte string for a number. */
  lemma {:induction false} BigEndianOnce(a: seq<u8>, b: seq<u8>)
    requires |a| == |b| && FromBigEndian(a) == FromBigEndian(b)
    ensures a == b
    decreases |a|
  {
    if a != [] {
      var n := |a| - 1;
      BigEndianOnce(a[..n], b[..n]);
      assert a == a[..n] + [a[n]] && b == b[..n] + [b[n]];
    }
  }

  function Pow2(n: nat): (p: nat)
    ensures p >= 1
  { if n == 0 then 1 else 2 * Pow2(n - 1) }

  /** Exclusive or of the low n bits. */
  function XorBits(a: nat, b: nat, n: nat): (r: nat)
    ensures r < Pow2(n)
  {
    if n == 0 then 0 else 2 * XorBits(a / 2, b / 2, n - 1) + Differ(a % 2, b % 2)
  }

  function Differ(a: nat, b: nat): (r: nat)
    ensures r < 2
  { if a == b then 0 else 1 }

  lemma Halves(h: nat, b: nat)
    requires b < 2
    ensures (2 * h + b) / 2 == h && (2 * h + b) % 2 == b
  {}

  lemma {:induction false} XorBitsTwice(a: nat, b: nat, n: nat)
    requires a < Pow2(n)
    ensures XorBits(XorBits(a, b, n), b, n) == a
  {
    if n > 0 {
      XorBitsTwice(a / 2, b / 2, n - 1);
      Halves(XorBits(a / 2, b / 2, n - 1), Differ(a % 2, b % 2));
    }
  }

  lemma EightBits()
    ensures Pow2(8) == 256
  {
    assert Pow2(4) == 16;
  }

  function Xor(a: u8, b: u8): (r: u8) {
    EightBits();
    XorBits(a, b, 8)
  }

  lemma XorTwice(a: u8, k: u8)
    ensures Xor(Xor(a, k), k) == a
  {
    EightBits();
    XorBitsTwice(a, k, 8);
  }
}
