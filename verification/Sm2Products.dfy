/** Products of SM2 field elements: the seventeen 64-bit accumulators of multiplication
    and squaring, and conversion from and to integers. */
module Sm2Products {
  import opened Sm2Limbs

  const WORD64: int := 0x1_0000_0000_0000_0000

  type u64 = x: int | 0 <= x < WORD64

  /** The number that accumulators k to 16 make, with the weights of limbs. */
  function From17(t: seq<int>, k: nat): (v: int)
    requires |t| == 17 && k <= 17
    decreases 17 - k
  {
    if k == 17 then 0 else t[k] + Radix(k) * From17(t, k + 1)
  }

  /** What limbs i of a and k - i of b contribute to accumulator k: two odd limbs meet
      one bit above their accumulator. */
  function Term(a: Limbs, b: Limbs, k: nat, i: nat): (v: int)
    requires |a| == 9 && |b| == 9 && i < 9
  {
    if i <= k < i + 9 then a[i] * b[k - i] * (if i % 2 == 1 && (k - i) % 2 == 1 then 2 else 1) else 0
  }

  /** Accumulator k from limbs m to 8 of a. */
  function Diagonal(a: Limbs, b: Limbs, k: nat, m: nat): (v: int)
    requires |a| == 9 && |b| == 9 && m <= 9
    decreases 9 - m
  {
    if m == 9 then 0 else Term(a, b, k, m) + Diagonal(a, b, k, m + 1)
  }

  function Diagonals(a: Limbs, b: Limbs, m: nat): (t: seq<int>)
    requires |a| == 9 && |b| == 9 && m <= 9
    ensures |t| == 17 && forall k :: 0 <= k < 17 ==> t[k] == Diagonal(a, b, k, m)
  { seq(17, k requires 0 <= k < 17 => Diagonal(a, b, k, m)) }

  function Terms(a: Limbs, b: Limbs, i: nat): (t: seq<int>)
    requires |a| == 9 && |b| == 9 && i < 9
    ensures |t| == 17 && forall k :: 0 <= k < 17 ==> t[k] == Term(a, b, k, i)
  { seq(17, k requires 0 <= k < 17 => Term(a, b, k, i)) }

  // ---- the accumulators make the product

  lemma {:induction false} PastRow(a: Limbs, b: Limbs, i: nat, k: nat)
    requires |a| == 9 && |b| == 9 && i < 9 && i + 9 <= k <= 17
    ensures From17(Terms(a, b, i), k) == 0
    decreases 17 - k
  {
    if k < 17 {
      PastRow(a, b, i, k + 1);
    }
  }

  /** One more limb of b, by the parities of both limbs. */
  lemma Twist(x: int, y: int, f: int, i: nat, j: nat)
    ensures var c := if i % 2 == 1 && j % 2 == 1 then 2 else 1;
      var d := if i % 2 == 1 && (j + 1) % 2 == 1 then 2 else 1;
      x * y * c + Radix(i + j) * (d * (x * f)) == c * (x * (y + Radix(j) * f))
  {
    if i % 2 == 0 {
      assert Radix(i + j) == Radix(j);
      Spread(y, Radix(j), f, x);
    } else if j % 2 == 0 {
      assert Radix(i + j) == 0x1000_0000 && Radix(j) == 0x2000_0000;
      Spread(y, 0x2000_0000, f, x);
    } else {
      assert Radix(i + j) == 0x2000_0000 && Radix(j) == 0x1000_0000;
      Spread(y, 0x1000_0000, f, x);
    }
  }

  /** One limb of a times b, read from accumulator i + j on. */
  lemma {:induction false} RowValue(a: Limbs, b: Limbs, i: nat, j: nat)
    requires |a| == 9 && |b| == 9 && i < 9 && j <= 9
    ensures From17(Terms(a, b, i), i + j) == (if i % 2 == 1 && j % 2 == 1 then 2 else 1) * (a[i] * From(b, j))
    decreases 9 - j
  {
    hide From17, From, Term, Radix;
    if j == 9 {
      PastRow(a, b, i, i + 9);
      FromEnd(b);
    } else {
      RowValue(a, b, i, j + 1);
      TermAt(a, b, i, j);
      FromStep(b, j);
      From17Step(Terms(a, b, i), i + j);
      Twist(a[i], b[j], From(b, j + 1), i, j);
    }
  }

  lemma TermAt(a: Limbs, b: Limbs, i: nat, j: nat)
    requires |a| == 9 && |b| == 9 && i < 9 && j < 9
    ensures Term(a, b, i + j, i) == a[i] * b[j] * (if i % 2 == 1 && j % 2 == 1 then 2 else 1)
  {}

  lemma FromEnd(b: Limbs)
    requires |b| == 9
    ensures From(b, 9) == 0
  {}

  lemma FromStep(b: Limbs, j: nat)
    requires |b| == 9 && j < 9
    ensures From(b, j) == b[j] + Radix(j) * From(b, j + 1)
  {}

  lemma From17Step(t: seq<int>, k: nat)
    requires |t| == 17 && k < 17
    ensures From17(t, k) == t[k] + Radix(k) * From17(t, k + 1)
  {}

  lemma {:induction false} From17Sum(a: Limbs, b: Limbs, m: nat, k: nat)
    requires |a| == 9 && |b| == 9 && m < 9 && k <= 17
    ensures From17(Diagonals(a, b, m), k) == From17(Terms(a, b, m), k) + From17(Diagonals(a, b, m + 1), k)
    decreases 17 - k
  {
    if k < 17 {
      From17Sum(a, b, m, k + 1);
    }
  }

  lemma {:induction false} BelowDiagonal(a: Limbs, b: Limbs, k: nat, m: nat)
    requires |a| == 9 && |b| == 9 && k < m <= 9
    ensures Diagonal(a, b, k, m) == 0
    decreases 9 - m
  {
    if m < 9 {
      BelowDiagonal(a, b, k, m + 1);
    }
  }

  lemma {:induction false} NothingLeft(a: Limbs, b: Limbs, k: nat)
    requires |a| == 9 && |b| == 9 && k <= 17
    ensures From17(Diagonals(a, b, 9), k) == 0
    decreases 17 - k
  {
    if k < 17 {
      NothingLeft(a, b, k + 1);
    }
  }

  /** The accumulators from m on are limbs m to 8 of a times b. */
  lemma {:induction false} ProductFrom(a: Limbs, b: Limbs, m: nat)
    requires |a| == 9 && |b| == 9 && m <= 9
    ensures From17(Diagonals(a, b, m), m) == From(a, m) * Value(b)
    decreases 9 - m
  {
    hide From17, From, Diagonal, Term, Radix, Value;
    ValueFrom(b);
    if m == 9 {
      NothingLeft(a, b, 9);
      FromEnd(a);
    } else {
      ProductFrom(a, b, m + 1);
      From17Sum(a, b, m, m);
      RowValue(a, b, m, 0);
      BelowDiagonal(a, b, m, m + 1);
      From17Step(Diagonals(a, b, m + 1), m);
      FromStep(a, m);
      Spread(a[m], Radix(m), From(a, m + 1), Value(b));
    }
  }

  lemma Spread(x: int, r: int, y: int, v: int)
    ensures (x + r * y) * v == x * v + r * (y * v)
  {}

  // ---- no accumulator overflows

  lemma Product(x: int, y: int, p: int, q: int)
    requires 0 <= x <= p && 0 <= y <= q
    ensures 0 <= x * y <= p * q
  {
    Grow(x, y, q);
    Grow(q, x, p);
  }

  lemma Grow(x: int, y: int, q: int)
    requires 0 <= x && 0 <= y <= q
    ensures 0 <= x * y <= x * q
  {}

  lemma TermBound(a: Limbs, b: Limbs, k: nat, i: nat)
    requires Bounded(a) && Bounded(b) && i < 9
    ensures 0 <= Term(a, b, k, i) <= 0x1000_0000_0000_0000
  {
    if i <= k < i + 9 {
      Product(a[i], b[k - i], 2 * Radix(i), 2 * Radix(k - i));
    }
  }

  lemma {:induction false} DiagonalBound(a: Limbs, b: Limbs, k: nat, m: nat)
    requires Bounded(a) && Bounded(b) && m <= 9
    ensures 0 <= Diagonal(a, b, k, m) <= (9 - m) * 0x1000_0000_0000_0000
    decreases 9 - m
  {
    hide Term;
    if m < 9 {
      TermBound(a, b, k, m);
      DiagonalBound(a, b, k, m + 1);
    }
  }

  /** 64-bit arithmetic. */
  function Wrap64(x: int): (r: u64)
    ensures 0 <= x < WORD64 ==> r == x
  { x % WORD64 }

  // ---- the columns as the code adds them up

  lemma Unrolled(a: Limbs, b: Limbs, k: nat)
    requires |a| == 9 && |b| == 9
    ensures Diagonal(a, b, k, 0) == Term(a, b, k, 0) + Term(a, b, k, 1) + Term(a, b, k, 2) + Term(a, b, k, 3)
      + Term(a, b, k, 4) + Term(a, b, k, 5) + Term(a, b, k, 6) + Term(a, b, k, 7) + Term(a, b, k, 8)
  {
    hide Term;
    assert Diagonal(a, b, k, 8) == Term(a, b, k, 8);
    assert Diagonal(a, b, k, 6) == Term(a, b, k, 6) + (Term(a, b, k, 7) + Diagonal(a, b, k, 8));
    assert Diagonal(a, b, k, 4) == Term(a, b, k, 4) + (Term(a, b, k, 5) + Diagonal(a, b, k, 6));
    assert Diagonal(a, b, k, 2) == Term(a, b, k, 2) + (Term(a, b, k, 3) + Diagonal(a, b, k, 4));
  }

  lemma Column0(a: Limbs, b: Limbs)
    requires |a| == 9 && |b| == 9
    ensures Diagonal(a, b, 0, 0) == a[0] * b[0]
  {
    hide Diagonal;
    Unrolled(a, b, 0);
  }

  lemma Column1(a: Limbs, b: Limbs)
    requires |a| == 9 && |b| == 9
    ensures Diagonal(a, b, 1, 0) == a[0] * b[1] + a[1] * b[0]
  {
    hide Diagonal;
    Unrolled(a, b, 1);
  }

  lemma Column2(a: Limbs, b: Limbs)
    requires |a| == 9 && |b| == 9
    ensures Diagonal(a, b, 2, 0) == a[0] * b[2] + a[1] * (2 * b[1]) + a[2] * b[0]
  {
    hide Diagonal;
    Unrolled(a, b, 2);
  }

  lemma Column3(a: Limbs, b: Limbs)
    requires |a| == 9 && |b| == 9
    ensures Diagonal(a, b, 3, 0) == a[0] * b[3] + a[1] * b[2] + a[2] * b[1] + a[3] * b[0]
  {
    hide Diagonal;
    Unrolled(a, b, 3);
  }

  lemma Column4(a: Limbs, b: Limbs)
    requires |a| == 9 && |b| == 9
    ensures Diagonal(a, b, 4, 0) == a[0] * b[4] + a[1] * (2 * b[3]) + a[2] * b[2] + a[3] * (2 * b[1]) + a[4] * b[0]
  {
    hide Diagonal;
    Unrolled(a, b, 4);
  }

  lemma Column5(a: Limbs, b: Limbs)
    requires |a| == 9 && |b| == 9
    ensures Diagonal(a, b, 5, 0) == a[0] * b[5] + a[1] * b[4] + a[2] * b[3] + a[3] * b[2] + a[4] * b[1] + a[5] * b[0]
  {
    hide Diagonal;
    Unrolled(a, b, 5);
  }

  lemma Column6(a: Limbs, b: Limbs)
    requires |a| == 9 && |b| == 9
    ensures Diagonal(a, b, 6, 0) == a[0] * b[6] + a[1] * (2 * b[5]) + a[2] * b[4] + a[3] * (2 * b[3]) + a[4] * b[2]
      + a[5] * (2 * b[1]) + a[6] * b[0]
  {
    hide Diagonal;
    Unrolled(a, b, 6);
  }

  lemma Column7(a: Limbs, b: Limbs)
    requires |a| == 9 && |b| == 9
    ensures Diagonal(a, b, 7, 0) == a[0] * b[7] + a[1] * b[6] + a[2] * b[5] + a[3] * b[4] + a[4] * b[3] + a[5] * b[2]
      + a[6] * b[1] + a[7] * b[0]
  {
    hide Diagonal;
    Unrolled(a, b, 7);
  }

  lemma Column8(a: Limbs, b: Limbs)
    requires |a| == 9 && |b| == 9
    ensures Diagonal(a, b, 8, 0) == a[0] * b[8] + a[1] * (2 * b[7]) + a[2] * b[6] + a[3] * (2 * b[5]) + a[4] * b[4]
      + a[5] * (2 * b[3]) + a[6] * b[2] + a[7] * (2 * b[1]) + a[8] * b[0]
  {
    hide Diagonal;
    Unrolled(a, b, 8);
  }

  lemma Column9(a: Limbs, b: Limbs)
    requires |a| == 9 && |b| == 9
    ensures Diagonal(a, b, 9, 0) == a[1] * b[8] + a[2] * b[7] + a[3] * b[6] + a[4] * b[5] + a[5] * b[4] + a[6] * b[3]
      + a[7] * b[2] + a[8] * b[1]
  {
    hide Diagonal;
    Unrolled(a, b, 9);
  }

  lemma Column10(a: Limbs, b: Limbs)
    requires |a| == 9 && |b| == 9
    ensures Diagonal(a, b, 10, 0) == a[2] * b[8] + a[3] * (2 * b[7]) + a[4] * b[6] + a[5] * (2 * b[5]) + a[6] * b[4]
      + a[7] * (2 * b[3]) + a[8] * b[2]
  {
    hide Diagonal;
    Unrolled(a, b, 10);
  }

  lemma Column11(a: Limbs, b: Limbs)
    requires |a| == 9 && |b| == 9
    ensures Diagonal(a, b, 11, 0) == a[3] * b[8] + a[4] * b[7] + a[5] * b[6] + a[6] * b[5] + a[7] * b[4] + a[8] * b[3]
  {
    hide Diagonal;
    Unrolled(a, b, 11);
  }

  lemma Column12(a: Limbs, b: Limbs)
    requires |a| == 9 && |b| == 9
    ensures Diagonal(a, b, 12, 0) == a[4] * b[8] + a[5] * (2 * b[7]) + a[6] * b[6] + a[7] * (2 * b[5]) + a[8] * b[4]
  {
    hide Diagonal;
    Unrolled(a, b, 12);
  }

  lemma Column13(a: Limbs, b: Limbs)
    requires |a| == 9 && |b| == 9
    ensures Diagonal(a, b, 13, 0) == a[5] * b[8] + a[6] * b[7] + a[7] * b[6] + a[8] * b[5]
  {
    hide Diagonal;
    Unrolled(a, b, 13);
  }

  lemma Column14(a: Limbs, b: Limbs)
    requires |a| == 9 && |b| == 9
    ensures Diagonal(a, b, 14, 0) == a[6] * b[8] + a[7] * (2 * b[7]) + a[8] * b[6]
  {
    hide Diagonal;
    Unrolled(a, b, 14);
  }

  lemma Column15(a: Limbs, b: Limbs)
    requires |a| == 9 && |b| == 9
    ensures Diagonal(a, b, 15, 0) == a[7] * b[8] + a[8] * b[7]
  {
    hide Diagonal;
    Unrolled(a, b, 15);
  }

  lemma Column16(a: Limbs, b: Limbs)
    requires |a| == 9 && |b| == 9
    ensures Diagonal(a, b, 16, 0) == a[8] * b[8]
  {
    hide Diagonal;
    Unrolled(a, b, 16);
  }

  /** The accumulators of sm2P256Mul: exactly the product, with no overflow. */
  method MulAccumulate(a: Limbs, b: Limbs) returns (t: seq<u64>)
    requires Bounded(a) && Bounded(b)
    ensures |t| == 17 && t == Diagonals(a, b, 0)
    ensures From17(t, 0) == Value(a) * Value(b)
  {
    hide Diagonal, From17, Value;
    Column0(a, b);
    DiagonalBound(a, b, 0, 0);
    var t0 := Wrap64(a[0] * b[0]);
    Column1(a, b);
    DiagonalBound(a, b, 1, 0);
    var t1 := Wrap64(a[0] * b[1] + a[1] * b[0]);
    Column2(a, b);
    DiagonalBound(a, b, 2, 0);
    var t2 := Wrap64(a[0] * b[2] + a[1] * (2 * b[1]) + a[2] * b[0]);
    Column3(a, b);
    DiagonalBound(a, b, 3, 0);
    var t3 := Wrap64(a[0] * b[3] + a[1] * b[2] + a[2] * b[1] + a[3] * b[0]);
    Column4(a, b);
    DiagonalBound(a, b, 4, 0);
    var t4 := Wrap64(a[0] * b[4] + a[1] * (2 * b[3]) + a[2] * b[2] + a[3] * (2 * b[1]) + a[4] * b[0]);
    Column5(a, b);
    DiagonalBound(a, b, 5, 0);
    var t5 := Wrap64(a[0] * b[5] + a[1] * b[4] + a[2] * b[3] + a[3] * b[2] + a[4] * b[1] + a[5] * b[0]);
    Column6(a, b);
    DiagonalBound(a, b, 6, 0);
    var t6 := Wrap64(a[0] * b[6] + a[1] * (2 * b[5]) + a[2] * b[4] + a[3] * (2 * b[3]) + a[4] * b[2]
      + a[5] * (2 * b[1]) + a[6] * b[0]);
    Column7(a, b);
    DiagonalBound(a, b, 7, 0);
    var t7 := Wrap64(a[0] * b[7] + a[1] * b[6] + a[2] * b[5] + a[3] * b[4] + a[4] * b[3] + a[5] * b[2]
      + a[6] * b[1] + a[7] * b[0]);
    Column8(a, b);
    DiagonalBound(a, b, 8, 0);
    var t8 := Wrap64(a[0] * b[8] + a[1] * (2 * b[7]) + a[2] * b[6] + a[3] * (2 * b[5]) + a[4] * b[4]
      + a[5] * (2 * b[3]) + a[6] * b[2] + a[7] * (2 * b[1]) + a[8] * b[0]);
    Column9(a, b);
    DiagonalBound(a, b, 9, 0);
    var t9 := Wrap64(a[1] * b[8] + a[2] * b[7] + a[3] * b[6] + a[4] * b[5] + a[5] * b[4] + a[6] * b[3]
      + a[7] * b[2] + a[8] * b[1]);
    Column10(a, b);
    DiagonalBound(a, b, 10, 0);
    var t10 := Wrap64(a[2] * b[8] + a[3] * (2 * b[7]) + a[4] * b[6] + a[5] * (2 * b[5]) + a[6] * b[4]
      + a[7] * (2 * b[3]) + a[8] * b[2]);
    Column11(a, b);
    DiagonalBound(a, b, 11, 0);
    var t11 := Wrap64(a[3] * b[8] + a[4] * b[7] + a[5] * b[6] + a[6] * b[5] + a[7] * b[4] + a[8] * b[3]);
    Column12(a, b);
    DiagonalBound(a, b, 12, 0);
    var t12 := Wrap64(a[4] * b[8] + a[5] * (2 * b[7]) + a[6] * b[6] + a[7] * (2 * b[5]) + a[8] * b[4]);
    Column13(a, b);
    DiagonalBound(a, b, 13, 0);
    var t13 := Wrap64(a[5] * b[8] + a[6] * b[7] + a[7] * b[6] + a[8] * b[5]);
    Column14(a, b);
    DiagonalBound(a, b, 14, 0);
    var t14 := Wrap64(a[6] * b[8] + a[7] * (2 * b[7]) + a[8] * b[6]);
    Column15(a, b);
    DiagonalBound(a, b, 15, 0);
    var t15 := Wrap64(a[7] * b[8] + a[8] * b[7]);
    Column16(a, b);
    DiagonalBound(a, b, 16, 0);
    var t16 := Wrap64(a[8] * b[8]);
    t := [t0, t1, t2, t3, t4, t5, t6, t7, t8, t9, t10, t11, t12, t13, t14, t15, t16];
    assert t == Diagonals(a, b, 0);
    ProductFrom(a, b, 0);
    ValueFrom(a);
  }

  lemma ValueFrom(a: Limbs)
    requires |a| == 9
    ensures Value(a) == From(a, 0)
  {}

  lemma SquareColumn0(a: Limbs)
    requires |a| == 9
    ensures Diagonal(a, a, 0, 0) == a[0] * a[0]
  {
    hide Diagonal;
    Unrolled(a, a, 0);
  }

  lemma SquareColumn1(a: Limbs)
    requires |a| == 9
    ensures Diagonal(a, a, 1, 0) == a[0] * (2 * a[1])
  {
    hide Diagonal;
    Unrolled(a, a, 1);
  }

  lemma SquareColumn2(a: Limbs)
    requires |a| == 9
    ensures Diagonal(a, a, 2, 0) == a[0] * (2 * a[2]) + a[1] * (2 * a[1])
  {
    hide Diagonal;
    Unrolled(a, a, 2);
  }

  lemma SquareColumn3(a: Limbs)
    requires |a| == 9
    ensures Diagonal(a, a, 3, 0) == a[0] * (2 * a[3]) + a[1] * (2 * a[2])
  {
    hide Diagonal;
    Unrolled(a, a, 3);
  }

  lemma SquareColumn4(a: Limbs)
    requires |a| == 9
    ensures Diagonal(a, a, 4, 0) == a[0] * (2 * a[4]) + a[1] * (4 * a[3]) + a[2] * a[2]
  {
    hide Diagonal;
    Unrolled(a, a, 4);
  }

  lemma SquareColumn5(a: Limbs)
    requires |a| == 9
    ensures Diagonal(a, a, 5, 0) == a[0] * (2 * a[5]) + a[1] * (2 * a[4]) + a[2] * (2 * a[3])
  {
    hide Diagonal;
    Unrolled(a, a, 5);
  }

  lemma SquareColumn6(a: Limbs)
    requires |a| == 9
    ensures Diagonal(a, a, 6, 0) == a[0] * (2 * a[6]) + a[1] * (4 * a[5]) + a[2] * (2 * a[4]) + a[3] * (2 * a[3])
  {
    hide Diagonal;
    Unrolled(a, a, 6);
  }

  lemma SquareColumn7(a: Limbs)
    requires |a| == 9
    ensures Diagonal(a, a, 7, 0) == a[0] * (2 * a[7]) + a[1] * (2 * a[6]) + a[2] * (2 * a[5]) + a[3] * (2 * a[4])
  {
    hide Diagonal;
    Unrolled(a, a, 7);
  }

  lemma SquareColumn8(a: Limbs)
    requires |a| == 9
    ensures Diagonal(a, a, 8, 0) == a[0] * (2 * a[8]) + a[1] * (4 * a[7]) + a[2] * (2 * a[6]) + a[3] * (4 * a[5]) + a[4] * a[4]
  {
    hide Diagonal;
    Unrolled(a, a, 8);
  }

  lemma SquareColumn9(a: Limbs)
    requires |a| == 9
    ensures Diagonal(a, a, 9, 0) == a[1] * (2 * a[8]) + a[2] * (2 * a[7]) + a[3] * (2 * a[6]) + a[4] * (2 * a[5])
  {
    hide Diagonal;
    Unrolled(a, a, 9);
  }

  lemma SquareColumn10(a: Limbs)
    requires |a| == 9
    ensures Diagonal(a, a, 10, 0) == a[2] * (2 * a[8]) + a[3] * (4 * a[7]) + a[4] * (2 * a[6]) + a[5] * (2 * a[5])
  {
    hide Diagonal;
    Unrolled(a, a, 10);
  }

  lemma SquareColumn11(a: Limbs)
    requires |a| == 9
    ensures Diagonal(a, a, 11, 0) == a[3] * (2 * a[8]) + a[4] * (2 * a[7]) + a[5] * (2 * a[6])
  {
    hide Diagonal;
    Unrolled(a, a, 11);
  }

  lemma SquareColumn12(a: Limbs)
    requires |a| == 9
    ensures Diagonal(a, a, 12, 0) == a[4] * (2 * a[8]) + a[5] * (4 * a[7]) + a[6] * a[6]
  {
    hide Diagonal;
    Unrolled(a, a, 12);
  }

  lemma SquareColumn13(a: Limbs)
    requires |a| == 9
    ensures Diagonal(a, a, 13, 0) == a[5] * (2 * a[8]) + a[6] * (2 * a[7])
  {
    hide Diagonal;
    Unrolled(a, a, 13);
  }

  lemma SquareColumn14(a: Limbs)
    requires |a| == 9
    ensures Diagonal(a, a, 14, 0) == a[6] * (2 * a[8]) + a[7] * (2 * a[7])
  {
    hide Diagonal;
    Unrolled(a, a, 14);
  }

  lemma SquareColumn15(a: Limbs)
    requires |a| == 9
    ensures Diagonal(a, a, 15, 0) == a[7] * (2 * a[8])
  {
    hide Diagonal;
    Unrolled(a, a, 15);
  }

  lemma SquareColumn16(a: Limbs)
    requires |a| == 9
    ensures Diagonal(a, a, 16, 0) == a[8] * a[8]
  {
    hide Diagonal;
    Unrolled(a, a, 16);
  }

  /** The accumulators of sm2P256Square: those of a multiplication by itself. */
  method SquareAccumulate(a: Limbs) returns (t: seq<u64>)
    requires Bounded(a)
    ensures |t| == 17 && t == Diagonals(a, a, 0)
    ensures From17(t, 0) == Value(a) * Value(a)
  {
    hide Diagonal, From17, Value;
    SquareColumn0(a);
    DiagonalBound(a, a, 0, 0);
    var t0 := Wrap64(a[0] * a[0]);
    SquareColumn1(a);
    DiagonalBound(a, a, 1, 0);
    var t1 := Wrap64(a[0] * (2 * a[1]));
    SquareColumn2(a);
    DiagonalBound(a, a, 2, 0);
    var t2 := Wrap64(a[0] * (2 * a[2]) + a[1] * (2 * a[1]));
    SquareColumn3(a);
    DiagonalBound(a, a, 3, 0);
    var t3 := Wrap64(a[0] * (2 * a[3]) + a[1] * (2 * a[2]));
    SquareColumn4(a);
    DiagonalBound(a, a, 4, 0);
    var t4 := Wrap64(a[0] * (2 * a[4]) + a[1] * (4 * a[3]) + a[2] * a[2]);
    SquareColumn5(a);
    DiagonalBound(a, a, 5, 0);
    var t5 := Wrap64(a[0] * (2 * a[5]) + a[1] * (2 * a[4]) + a[2] * (2 * a[3]));
    SquareColumn6(a);
    DiagonalBound(a, a, 6, 0);
    var t6 := Wrap64(a[0] * (2 * a[6]) + a[1] * (4 * a[5]) + a[2] * (2 * a[4]) + a[3] * (2 * a[3]));
    SquareColumn7(a);
    DiagonalBound(a, a, 7, 0);
    var t7 := Wrap64(a[0] * (2 * a[7]) + a[1] * (2 * a[6]) + a[2] * (2 * a[5]) + a[3] * (2 * a[4]));
    SquareColumn8(a);
    DiagonalBound(a, a, 8, 0);
    var t8 := Wrap64(a[0] * (2 * a[8]) + a[1] * (4 * a[7]) + a[2] * (2 * a[6]) + a[3] * (4 * a[5]) + a[4] * a[4]);
    SquareColumn9(a);
    DiagonalBound(a, a, 9, 0);
    var t9 := Wrap64(a[1] * (2 * a[8]) + a[2] * (2 * a[7]) + a[3] * (2 * a[6]) + a[4] * (2 * a[5]));
    SquareColumn10(a);
    DiagonalBound(a, a, 10, 0);
    var t10 := Wrap64(a[2] * (2 * a[8]) + a[3] * (4 * a[7]) + a[4] * (2 * a[6]) + a[5] * (2 * a[5]));
    SquareColumn11(a);
    DiagonalBound(a, a, 11, 0);
    var t11 := Wrap64(a[3] * (2 * a[8]) + a[4] * (2 * a[7]) + a[5] * (2 * a[6]));
    SquareColumn12(a);
    DiagonalBound(a, a, 12, 0);
    var t12 := Wrap64(a[4] * (2 * a[8]) + a[5] * (4 * a[7]) + a[6] * a[6]);
    SquareColumn13(a);
    DiagonalBound(a, a, 13, 0);
    var t13 := Wrap64(a[5] * (2 * a[8]) + a[6] * (2 * a[7]));
    SquareColumn14(a);
    DiagonalBound(a, a, 14, 0);
    var t14 := Wrap64(a[6] * (2 * a[8]) + a[7] * (2 * a[7]));
    SquareColumn15(a);
    DiagonalBound(a, a, 15, 0);
    var t15 := Wrap64(a[7] * (2 * a[8]));
    SquareColumn16(a);
    DiagonalBound(a, a, 16, 0);
    var t16 := Wrap64(a[8] * a[8]);
    t := [t0, t1, t2, t3, t4, t5, t6, t7, t8, t9, t10, t11, t12, t13, t14, t15, t16];
    assert t == Diagonals(a, a, 0);
    ProductFrom(a, a, 0);
    ValueFrom(a);
  }
}
