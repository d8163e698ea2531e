/** Polynomials over GF(2^8) as coefficient lists, lowest degree first: evaluation,
    division by a linear factor, and interpolation through given points. */
module Polynomials {
  import opened Galois
  import opened FieldOps

  type Poly = seq<byte>

  function Eval(p: Poly, x: byte): (r: byte) {
    if p == [] then 0 else Add(p[0], Mul(x, Eval(p[1..], x)))
  }

  // ---- field facts used below, with the operations left abstract

  /** There are no zero divisors. */
  lemma NoZeroDivisors(a: byte, b: byte)
    ensures Mul(a, b) == 0 <==> a == 0 || b == 0
  {
    hide Mul, Add;
    MulAdd(a, 0, 0);
    MulAdd(b, 0, 0);
    if a != 0 && b != 0 {
      LogOfMul(a, b);
    }
  }

  lemma DivIs(a: byte, b: byte)
    requires b != 0
    ensures Mul(Div(a, b), b) == a
  {
    hide Mul, Div, Mult;
    DivMult(a, b);
    MultIsMul(Div(a, b), b);
  }

  /** Division is multiplication by the reciprocal. */
  lemma DivAsMul(a: byte, b: byte)
    requires b != 0
    ensures Div(a, b) == Mul(a, Div(1, b))
  {
    hide Mul, Div, Add;
    var u, v := Div(a, b), Mul(a, Div(1, b));
    DivIs(a, b);
    DivIs(1, b);
    MulAssoc(a, Div(1, b), b);
    MulOne(a);
    MulAdd(b, u, v);
    AddZero(a);
    NoZeroDivisors(Add(u, v), b);
    AddEqual(u, v);
  }

  lemma MulSwap(a: byte, b: byte, c: byte)
    ensures Mul(a, Mul(b, c)) == Mul(b, Mul(a, c))
  {
    hide Mul;
    MulAssoc(a, b, c);
    MulComm(a, b);
    MulAssoc(b, a, c);
  }

  // ---- sums, multiples and products with a linear factor

  function AddPoly(p: Poly, q: Poly): (r: Poly)
    requires |p| == |q|
    ensures |r| == |p|
  {
    if p == [] then [] else [Add(p[0], q[0])] + AddPoly(p[1..], q[1..])
  }

  function Scale(k: byte, p: Poly): (r: Poly)
    ensures |r| == |p|
  {
    if p == [] then [] else [Mul(k, p[0])] + Scale(k, p[1..])
  }

  /** (X + a) * p. */
  function TimesLinear(p: Poly, a: byte): (r: Poly)
    ensures |r| == |p| + 1
  {
    AddPoly([0] + p, Scale(a, p) + [0])
  }

  lemma {:induction false} EvalAddPoly(p: Poly, q: Poly, x: byte)
    requires |p| == |q|
    ensures Eval(AddPoly(p, q), x) == Add(Eval(p, x), Eval(q, x))
  {
    hide Add, Mul;
    if p == [] {
      AddZero(0);
    } else {
      var u, v := Eval(p[1..], x), Eval(q[1..], x);
      EvalAddPoly(p[1..], q[1..], x);
      assert AddPoly(p, q)[1..] == AddPoly(p[1..], q[1..]);
      MulAdd(x, u, v);
      AddFour(p[0], Mul(x, u), q[0], Mul(x, v));
    }
  }

  lemma {:induction false} EvalScale(k: byte, p: Poly, x: byte)
    ensures Eval(Scale(k, p), x) == Mul(k, Eval(p, x))
  {
    hide Add, Mul;
    if p == [] {
      MulAdd(k, 0, 0);
    } else {
      var u := Eval(p[1..], x);
      EvalScale(k, p[1..], x);
      assert Scale(k, p)[1..] == Scale(k, p[1..]);
      MulAdd(k, p[0], Mul(x, u));
      MulSwap(k, x, u);
    }
  }

  lemma {:induction false} EvalPad(p: Poly, x: byte)
    ensures Eval(p + [0], x) == Eval(p, x)
  {
    hide Add, Mul;
    if p == [] {
      assert (p + [0])[1..] == [];
      MulAdd(x, 0, 0);
      AddZero(0);
    } else {
      EvalPad(p[1..], x);
      assert (p + [0])[1..] == p[1..] + [0];
    }
  }

  lemma EvalTimesLinear(p: Poly, a: byte, x: byte)
    ensures Eval(TimesLinear(p, a), x) == Mul(Add(x, a), Eval(p, x))
  {
    hide Add, Mul;
    var u := Eval(p, x);
    EvalAddPoly([0] + p, Scale(a, p) + [0], x);
    assert ([0] + p)[1..] == p;
    AddZero(Mul(x, u));
    EvalPad(Scale(a, p), x);
    EvalScale(a, p, x);
    MulAdd(u, x, a);
  }

  // ---- division by X + a, and roots

  function Quot(p: Poly, a: byte): (q: Poly)
    ensures |p| > 0 ==> |q| == |p| - 1
  {
    if |p| <= 1 then [] else [Eval(p[1..], a)] + Quot(p[1..], a)
  }

  /** p = p(a) + (X + a) * (p / (X + a)). */
  lemma {:induction false} EvalQuot(p: Poly, a: byte, x: byte)
    ensures Eval(p, x) == Add(Eval(p, a), Mul(Add(x, a), Eval(Quot(p, a), x)))
  {
    hide Add, Mul;
    if |p| <= 1 {
      EvalShort(p, a, x);
      MulAdd(Add(x, a), 0, 0);
      AddZero(Eval(p, a));
    } else {
      var t := p[1..];
      var r, q := Eval(t, a), Eval(Quot(t, a), x);
      EvalQuot(t, a, x);
      assert Quot(p, a)[1..] == Quot(t, a);
      QuotStep(p[0], x, a, r, q);
    }
  }

  lemma EvalShort(p: Poly, a: byte, x: byte)
    requires |p| <= 1
    ensures Eval(p, x) == Eval(p, a)
  {
    hide Add, Mul;
    MulAdd(x, 0, 0);
    MulAdd(a, 0, 0);
  }

  /** c + x(r + (x+a)q) == (c + ar) + (x+a)(r + xq). */
  lemma QuotStep(c: byte, x: byte, a: byte, r: byte, q: byte)
    ensures var s := Add(x, a);
            Add(c, Mul(x, Add(r, Mul(s, q)))) == Add(Add(c, Mul(a, r)), Mul(s, Add(r, Mul(x, q))))
  {
    hide Add, Mul;
    var s := Add(x, a);
    var xr, ar, m := Mul(x, r), Mul(a, r), Mul(x, Mul(s, q));
    MulAdd(x, r, Mul(s, q));
    MulAdd(s, r, Mul(x, q));
    MulAdd(r, x, a);
    MulSwap(s, x, q);
    // left: c + (xr + m); right: (c + ar) + ((xr + ar) + m)
    AddAssoc(Add(xr, ar), ar, 0);
    AddComm(xr, ar);
    AddAssoc(c, ar, Add(Add(xr, ar), m));
    AddAssoc(ar, Add(ar, xr), m);
    AddAssoc(ar, ar, xr);
    AddZero(ar);
    AddZero(xr);
  }

  predicate AllZero(p: Poly) { forall i :: 0 <= i < |p| ==> p[i] == 0 }

  predicate Distinct(xs: seq<byte>) { forall i, j :: 0 <= i < j < |xs| ==> xs[i] != xs[j] }

  lemma {:induction false} EvalAllZero(p: Poly, x: byte)
    requires AllZero(p)
    ensures Eval(p, x) == 0
  {
    hide Add, Mul;
    if p != [] {
      EvalAllZero(p[1..], x);
      MulAdd(x, 0, 0);
      AddZero(0);
    }
  }

  lemma {:induction false} QuotZero(p: Poly, a: byte)
    requires Eval(p, a) == 0 && AllZero(Quot(p, a))
    ensures AllZero(p)
  {
    hide Add, Mul;
    if p != [] {
      var t := p[1..];
      if |p| > 1 {
        var q := Quot(p, a);
        assert q[0] == Eval(t, a) && q[1..] == Quot(t, a);
        QuotZero(t, a);
        EvalAllZero(t, a);
      }
      MulAdd(a, 0, 0);
      AddZero(p[0]);
      assert p == [p[0]] + t;
    }
  }

  /** A polynomial with as many distinct roots as coefficients is zero. */
  lemma {:induction false} TooManyRoots(p: Poly, xs: seq<byte>)
    requires |p| <= |xs| && Distinct(xs)
    requires forall i :: 0 <= i < |xs| ==> Eval(p, xs[i]) == 0
    ensures AllZero(p)
    decreases |p|
  {
    hide Add, Mul;
    if p != [] {
      var a, rest, q := xs[0], xs[1..], Quot(p, xs[0]);
      forall i | 0 <= i < |rest|
        ensures Eval(q, rest[i]) == 0
      {
        var b := rest[i];
        assert b == xs[i + 1];
        EvalQuot(p, a, b);
        AddZero(Mul(Add(b, a), Eval(q, b)));
        NoZeroDivisors(Add(b, a), Eval(q, b));
        AddEqual(b, a);
      }
      TooManyRoots(q, rest);
      QuotZero(p, a);
    }
  }

  /** Two polynomials that agree on as many distinct points as they have coefficients
      are the same. */
  lemma AgreeEverywhere(p: Poly, q: Poly, xs: seq<byte>)
    requires |p| == |q| <= |xs| && Distinct(xs)
    requires forall i :: 0 <= i < |xs| ==> Eval(p, xs[i]) == Eval(q, xs[i])
    ensures p == q
  {
    hide Add, Mul;
    var d := AddPoly(p, q);
    forall i | 0 <= i < |xs|
      ensures Eval(d, xs[i]) == 0
    {
      EvalAddPoly(p, q, xs[i]);
      AddEqual(Eval(p, xs[i]), Eval(q, xs[i]));
    }
    TooManyRoots(d, xs);
    forall i | 0 <= i < |p|
      ensures p[i] == q[i]
    {
      AddPolyAt(p, q, i);
      AddEqual(p[i], q[i]);
    }
  }

  lemma {:induction false} AddPolyAt(p: Poly, q: Poly, i: nat)
    requires |p| == |q| && i < |p|
    ensures AddPoly(p, q)[i] == Add(p[i], q[i])
  {
    hide Add;
    if i > 0 {
      AddPolyAt(p[1..], q[1..], i - 1);
    }
  }

  // ---- Lagrange interpolation

  /** The factor of the i-th basis value that sample j contributes. */
  function Term(xs: seq<byte>, i: nat, j: nat, x: byte): (r: byte)
    requires i < |xs| && j < |xs| && Distinct(xs) && i != j
  {
    hide Add;
    AddEqual(xs[i], xs[j]);
    assert xs[i] != xs[j];
    Div(Add(x, xs[j]), Add(xs[i], xs[j]))
  }

  /** The i-th basis value at x from the first m samples. */
  function Basis(xs: seq<byte>, i: nat, m: nat, x: byte): (r: byte)
    requires i < |xs| && m <= |xs| && Distinct(xs)
  {
    if m == 0 then 1
    else if m - 1 == i then Basis(xs, i, m - 1, x)
    else Mul(Basis(xs, i, m - 1, x), Term(xs, i, m - 1, x))
  }

  /** The interpolated value at x, summed over the first n samples. */
  function Interpolated(xs: seq<byte>, ys: seq<byte>, n: nat, x: byte): (r: byte)
    requires n <= |xs| == |ys| && Distinct(xs)
  {
    if n == 0 then 0
    else Add(Interpolated(xs, ys, n - 1, x), Mul(ys[n - 1], Basis(xs, n - 1, |xs|, x)))
  }

  // The same as polynomials in x.

  function Reciprocal(xs: seq<byte>, i: nat, j: nat): (r: byte)
    requires i < |xs| && j < |xs| && Distinct(xs) && i != j
  {
    hide Add;
    AddEqual(xs[i], xs[j]);
    assert xs[i] != xs[j];
    Div(1, Add(xs[i], xs[j]))
  }

  function BasisPoly(xs: seq<byte>, i: nat, m: nat): (p: Poly)
    requires i < |xs| && m <= |xs| && Distinct(xs)
    ensures |p| == if m <= i then m + 1 else m
  {
    if m == 0 then [1]
    else if m - 1 == i then BasisPoly(xs, i, m - 1)
    else Scale(Reciprocal(xs, i, m - 1), TimesLinear(BasisPoly(xs, i, m - 1), xs[m - 1]))
  }

  lemma EvalOne(x: byte)
    ensures Eval([1], x) == 1
  {
    hide Add, Mul;
    assert [1 as byte][1..] == [];
    MulAdd(x, 0, 0);
    AddZero(1);
  }

  lemma {:induction false} EvalBasisPoly(xs: seq<byte>, i: nat, m: nat, x: byte)
    requires i < |xs| && m <= |xs| && Distinct(xs)
    ensures Eval(BasisPoly(xs, i, m), x) == Basis(xs, i, m, x)
  {
    hide Add, Mul, Div, Eval;
    if m == 0 {
      EvalOne(x);
    } else {
      EvalBasisPoly(xs, i, m - 1, x);
      if m - 1 != i {
        var p, a, k := BasisPoly(xs, i, m - 1), xs[m - 1], Reciprocal(xs, i, m - 1);
        var d := Add(xs[i], a);
        EvalScale(k, TimesLinear(p, a), x);
        EvalTimesLinear(p, a, x);
        AddEqual(xs[i], a);
        DivAsMul(Add(x, a), d);
        // k * ((x+a) * b) == b * ((x+a) * k)
        var b := Eval(p, x);
        MulSwap(k, Add(x, a), b);
        MulComm(k, b);
        MulSwap(b, Add(x, a), k);
      }
    }
  }

  function Zeros(n: nat): (p: Poly)
    ensures |p| == n && AllZero(p)
  {
    if n == 0 then [] else [0] + Zeros(n - 1)
  }

  function InterpolatingPoly(xs: seq<byte>, ys: seq<byte>, n: nat): (p: Poly)
    requires n <= |xs| == |ys| && Distinct(xs)
    ensures |p| == |xs|
  {
    if n == 0 then Zeros(|xs|)
    else AddPoly(InterpolatingPoly(xs, ys, n - 1), Scale(ys[n - 1], BasisPoly(xs, n - 1, |xs|)))
  }

  lemma {:induction false} EvalInterpolatingPoly(xs: seq<byte>, ys: seq<byte>, n: nat, x: byte)
    requires n <= |xs| == |ys| && Distinct(xs)
    ensures Eval(InterpolatingPoly(xs, ys, n), x) == Interpolated(xs, ys, n, x)
  {
    hide Add, Mul, Div, Eval, Basis;
    if n == 0 {
      EvalAllZero(Zeros(|xs|), x);
    } else {
      var p, b := InterpolatingPoly(xs, ys, n - 1), BasisPoly(xs, n - 1, |xs|);
      EvalInterpolatingPoly(xs, ys, n - 1, x);
      EvalAddPoly(p, Scale(ys[n - 1], b), x);
      EvalScale(ys[n - 1], b, x);
      EvalBasisPoly(xs, n - 1, |xs|, x);
    }
  }

  /** At its own sample a basis value is 1, at every other sample 0. */
  lemma {:induction false} BasisAtSample(xs: seq<byte>, i: nat, m: nat, k: nat)
    requires i < |xs| && m <= |xs| && k < |xs| && Distinct(xs)
    ensures k == i ==> Basis(xs, i, m, xs[k]) == 1
    ensures k != i && k < m ==> Basis(xs, i, m, xs[k]) == 0
  {
    hide Add, Mul, Div;
    if m > 0 {
      BasisAtSample(xs, i, m - 1, k);
      if m - 1 != i {
        var j := m - 1;
        var b, d := Basis(xs, i, j, xs[k]), Add(xs[i], xs[j]);
        AddEqual(xs[i], xs[j]);
        if k == i {
          DivSelf(d);
          MulOne(1);
        } else if k == j {
          AddZero(xs[j]);
          DivZero(d);
          MulAdd(b, 0, 0);
        } else {
          MulAdd(Term(xs, i, j, xs[k]), 0, 0);
        }
      }
    }
  }

  lemma DivSelf(d: byte)
    requires d != 0
    ensures Div(d, d) == 1
  {
    hide Mul, Div;
    DivAsMul(d, d);
    DivIs(1, d);
    MulComm(d, Div(1, d));
  }

  lemma DivZero(d: byte)
    requires d != 0
    ensures Div(0, d) == 0
  {
    hide Mul, Div;
    DivIs(0, d);
    NoZeroDivisors(Div(0, d), d);
  }

  lemma {:induction false} InterpolatedAtSample(xs: seq<byte>, ys: seq<byte>, n: nat, k: nat)
    requires n <= |xs| == |ys| && k < |xs| && Distinct(xs)
    ensures Interpolated(xs, ys, n, xs[k]) == if k < n then ys[k] else 0
  {
    hide Add, Mul, Div, Basis;
    if n > 0 {
      var i := n - 1;
      InterpolatedAtSample(xs, ys, i, k);
      BasisAtSample(xs, i, |xs|, k);
      MulOne(ys[i]);
      MulAdd(ys[i], 0, 0);
      AddZero(ys[i]);
      AddZero(Interpolated(xs, ys, i, xs[k]));
    }
  }

  /** A polynomial through given points of distinct abscissas exists and is unique
      among those with as many coefficients as there are points. */
  lemma InterpolationUnique(xs: seq<byte>, ys: seq<byte>, p: Poly)
    requires |p| == |xs| == |ys| && Distinct(xs)
    ensures (forall i :: 0 <= i < |xs| ==> Eval(p, xs[i]) == ys[i]) <==> p == InterpolatingPoly(xs, ys, |xs|)
  {
    hide Eval, InterpolatingPoly, Interpolated;
    var q := InterpolatingPoly(xs, ys, |xs|);
    forall i | 0 <= i < |xs|
      ensures Eval(q, xs[i]) == ys[i]
    {
      EvalInterpolatingPoly(xs, ys, |xs|, xs[i]);
      InterpolatedAtSample(xs, ys, |xs|, i);
    }
    if forall i :: 0 <= i < |xs| ==> Eval(p, xs[i]) == ys[i] {
      AgreeEverywhere(p, q, xs);
    }
  }

  lemma {:induction false} EvalZeros(p: Poly, n: nat, x: byte)
    ensures Eval(p + Zeros(n), x) == Eval(p, x)
    decreases n
  {
    hide Eval;
    if n == 0 {
      assert p + Zeros(0) == p;
    } else {
      EvalZeros(p + [0], n - 1, x);
      assert p + Zeros(n) == (p + [0]) + Zeros(n - 1);
      EvalPad(p, x);
    }
  }

  /** Interpolating values of a polynomial with at most as many coefficients as there
      are samples gives that polynomial back, at every x. */
  lemma InterpolationRecovers(p: Poly, xs: seq<byte>, ys: seq<byte>, x: byte)
    requires |p| <= |xs| == |ys| && Distinct(xs)
    requires forall i :: 0 <= i < |xs| ==> ys[i] == Eval(p, xs[i])
    ensures Interpolated(xs, ys, |xs|, x) == Eval(p, x)
  {
    hide Eval, Interpolated, InterpolatingPoly, Zeros;
    var n := |xs| - |p|;
    var padded := p + Zeros(n);
    forall i | 0 <= i < |xs|
      ensures Eval(padded, xs[i]) == ys[i]
    {
      EvalZeros(p, n, xs[i]);
    }
    InterpolationUnique(xs, ys, padded);
    EvalZeros(p, n, x);
    EvalInterpolatingPoly(xs, ys, |xs|, x);
  }
}
