/** Secret sharing over GF(2^8): splitting a secret into shares and combining shares. */
module Shamir {
  import opened Galois
  import opened FieldOps
  import opened Polynomials
  import opened Text

  datatype Error =
    | PartsBelowThreshold | TooManyParts | ThresholdTooSmall | ThresholdTooLarge | EmptySecret | NoRandomness
    | TooFewParts | PartTooShort | UnequalParts | DuplicatePart

  datatype Result<T> = Ok(value: T) | Err(error: Error)

  type Share = seq<byte>

  // ---- evaluation and interpolation as the code loops

  lemma {:induction false} EvalFrom(p: Poly, i: nat, x: byte)
    requires i < |p|
    ensures Eval(p[i..], x) == Add(Mul(Eval(p[i + 1..], x), x), p[i])
  {
    hide Add, Mul;
    assert p[i..][1..] == p[i + 1..];
    MulComm(x, Eval(p[i + 1..], x));
    AddComm(p[i], Mul(x, Eval(p[i + 1..], x)));
  }

  lemma EvalOrigin(p: Poly)
    requires p != []
    ensures Eval(p, 0) == p[0]
  {
    hide Add, Mul;
    MulAdd(Eval(p[1..], 0), 0, 0);
    AddZero(p[0]);
  }

  lemma EvalConstant(a: byte, x: byte)
    ensures Eval([a], x) == a
  {
    hide Add, Mul;
    assert [a][1..] == [];
    MulAdd(x, 0, 0);
    AddZero(a);
  }

  /** Horner's rule with table multiplication gives the value of the polynomial. */
  method Evaluate(p: Poly, x: byte) returns (out: byte)
    requires p != []
    ensures out == Eval(p, x)
  {
    hide Add, Mul, Mult, Eval;
    if x == 0 {
      EvalOrigin(p);
      return p[0];
    }
    var degree := |p| - 1;
    out := p[degree];
    assert p[degree..] == [p[degree]];
    EvalConstant(p[degree], x);
    var i := degree - 1;
    while i >= 0
      invariant -1 <= i < degree
      invariant out == Eval(p[i + 1..], x)
    {
      EvalFrom(p, i, x);
      MultIsMul(out, x);
      out := Add(Mult(out, x), p[i]);
      i := i - 1;
    }
    assert p[0..] == p;
  }

  method BasisValue(xs: seq<byte>, i: nat, x: byte) returns (basis: byte)
    requires i < |xs| && Distinct(xs)
    ensures basis == Basis(xs, i, |xs|, x)
  {
    hide Add, Mul, Mult, Div;
    basis := 1;
    for j := 0 to |xs|
      invariant basis == Basis(xs, i, j, x)
    {
      if i != j {
        AddEqual(xs[i], xs[j]);
        var num := Add(x, xs[j]);
        var denom := Add(xs[i], xs[j]);
        var term := Div(num, denom);
        MultIsMul(basis, term);
        basis := Mult(basis, term);
      }
    }
  }

  /** Lagrange interpolation with table arithmetic; the samples must be distinct or
      the division panics. */
  method InterpolatePolynomial(xs: seq<byte>, ys: seq<byte>, x: byte) returns (result: byte)
    requires |xs| == |ys| && Distinct(xs)
    ensures result == Interpolated(xs, ys, |xs|, x)
    ensures forall p: Poly ::
      |p| <= |xs| && (forall i :: 0 <= i < |xs| ==> Eval(p, xs[i]) == ys[i]) ==> result == Eval(p, x)
  {
    hide Add, Mul, Mult, Div, Eval, Basis;
    result := 0;
    for i := 0 to |xs|
      invariant result == Interpolated(xs, ys, i, x)
    {
      var basis := BasisValue(xs, i, x);
      MultIsMul(ys[i], basis);
      result := Add(result, Mult(ys[i], basis));
    }
    forall p: Poly | |p| <= |xs| && (forall i :: 0 <= i < |xs| ==> Eval(p, xs[i]) == ys[i])
      ensures result == Eval(p, x)
    {
      InterpolationRecovers(p, xs, ys, x);
    }
  }

  // ---- Split

  /** The random tail of one polynomial, None when the random source failed. */
  type Tail = Option<seq<byte>>

  predicate Drawn(tails: seq<Tail>, n: nat, k: int) {
    |tails| == n && forall i :: 0 <= i < n ==> tails[i].Some? && |tails[i].value| == k
  }

  /** A permutation of 0..254, each entry cast to a byte. */
  predicate Permutation(perm: seq<byte>) {
    |perm| == 255 && Distinct(perm) && 255 !in perm
  }

  function Coordinates(perm: seq<byte>): (xs: seq<byte>)
    ensures |xs| == |perm|
    ensures forall i :: 0 <= i < |perm| ==> xs[i] == perm[i] + 1
  {
    seq(|perm|, i requires 0 <= i < |perm| => perm[i] + 1)
  }

  lemma AddOneInjective(a: byte, b: byte)
    ensures a + 1 == b + 1 ==> a == b
    ensures a != 255 ==> a + 1 != 0
  {}

  lemma CoordinatesDistinct(perm: seq<byte>)
    requires Permutation(perm)
    ensures Distinct(Coordinates(perm))
    ensures 0 !in Coordinates(perm)
  {
    var xs := Coordinates(perm);
    forall i, j | 0 <= i < j < |xs|
      ensures xs[i] != xs[j]
    {
      AddOneInjective(perm[i], perm[j]);
    }
    forall i | 0 <= i < |xs|
      ensures xs[i] != 0
    {
      assert perm[i] in perm;
      AddOneInjective(perm[i], 0);
    }
  }

  function Polys(secret: seq<byte>, tails: seq<Tail>): (ps: seq<Poly>)
    requires |tails| == |secret| && forall i :: 0 <= i < |tails| ==> tails[i].Some?
    ensures |ps| == |secret|
    ensures forall i :: 0 <= i < |ps| ==> ps[i] == [secret[i]] + tails[i].value
  {
    seq(|secret|, i requires 0 <= i < |secret| => [secret[i]] + tails[i].value)
  }

  /** The share at x: one value per polynomial, then x itself. */
  function ShareAt(ps: seq<Poly>, x: byte): (s: Share)
    ensures |s| == |ps| + 1 && s[|ps|] == x
    ensures forall k :: 0 <= k < |ps| ==> s[k] == Eval(ps[k], x)
  {
    seq(|ps|, k requires 0 <= k < |ps| => Eval(ps[k], x)) + [x]
  }

  function Shares(ps: seq<Poly>, xs: seq<byte>): (r: seq<Share>)
    ensures |r| == |xs|
    ensures forall i :: 0 <= i < |xs| ==> r[i] == ShareAt(ps, xs[i])
  {
    seq(|xs|, i requires 0 <= i < |xs| => ShareAt(ps, xs[i]))
  }

  function SplitRefused(secret: seq<byte>, parts: int, threshold: int): (e: Option<Error>) {
    if parts < threshold then Some(PartsBelowThreshold)
    else if parts > 255 then Some(TooManyParts)
    else if threshold < 2 then Some(ThresholdTooSmall)
    else if threshold > 255 then Some(ThresholdTooLarge)
    else if |secret| == 0 then Some(EmptySecret)
    else None
  }

  /** Exactly what is split: a non-empty secret, and two to 255 parts of which at least two
      and at most all are needed. */
  lemma SplitAcceptedIff(secret: seq<byte>, parts: int, threshold: int)
    ensures SplitRefused(secret, parts, threshold).None? <==> secret != [] && 2 <= threshold <= parts <= 255
    ensures SplitRefused(secret, parts, threshold) == Some(PartsBelowThreshold) <==> parts < threshold
    ensures SplitRefused(secret, parts, threshold) == Some(TooManyParts) <==> threshold <= parts && parts > 255
    ensures SplitRefused(secret, parts, threshold) == Some(ThresholdTooSmall) <==> threshold <= parts <= 255 && threshold < 2
    ensures SplitRefused(secret, parts, threshold) == Some(EmptySecret) <==> 2 <= threshold <= parts <= 255 && secret == []
  {}

  /** What Split returns: a refusal, a failure of the random source, or the values of
      one polynomial per secret byte at the first coordinates. */
  function SplitResult(secret: seq<byte>, parts: int, threshold: int, perm: seq<byte>, tails: seq<Tail>)
    : (r: Result<seq<Share>>)
    requires Permutation(perm) && |tails| == |secret|
  {
    var e := SplitRefused(secret, parts, threshold);
    if e.Some? then Err(e.value)
    else if exists i :: 0 <= i < |tails| && tails[i].None? then Err(NoRandomness)
    else Ok(Shares(Polys(secret, tails), Coordinates(perm)[..parts]))
  }

  /** A share under construction: the values of the first n polynomials are in place. */
  predicate Filled(row: Share, ps: seq<Poly>, x: byte, n: nat)
    requires n <= |ps|
  {
    |row| == |ps| + 1 && row[|ps|] == x && forall k :: 0 <= k < n ==> row[k] == Eval(ps[k], x)
  }

  method FillColumn(rows: seq<Share>, p: Poly, xs: seq<byte>, n: nat, ghost ps: seq<Poly>)
    returns (out: seq<Share>)
    requires n < |ps| && p == ps[n] && p != [] && |rows| == |xs|
    requires forall i :: 0 <= i < |xs| ==> Filled(rows[i], ps, xs[i], n)
    ensures |out| == |xs|
    ensures forall i :: 0 <= i < |xs| ==> Filled(out[i], ps, xs[i], n + 1)
  {
    hide Eval;
    out := rows;
    for i := 0 to |xs|
      invariant |out| == |xs|
      invariant forall k :: 0 <= k < i ==> Filled(out[k], ps, xs[k], n + 1)
      invariant forall k :: i <= k < |xs| ==> Filled(out[k], ps, xs[k], n)
    {
      var y := Evaluate(p, xs[i]);
      out := out[i := out[i][n := y]];
    }
  }

  /** Empty shares that carry their coordinate in the last byte. */
  method Tagged(xs: seq<byte>, len: nat) returns (out: seq<Share>)
    ensures |out| == |xs|
    ensures forall i :: 0 <= i < |xs| ==> |out[i]| == len + 1 && out[i][len] == xs[i]
  {
    out := [];
    for i := 0 to |xs|
      invariant |out| == i
      invariant forall k :: 0 <= k < i ==> |out[k]| == len + 1 && out[k][len] == xs[k]
    {
      var row: Share := seq(len + 1, _ => 0);
      out := out + [row[len := xs[i]]];
    }
  }

  method Split(secret: seq<byte>, parts: int, threshold: int, perm: seq<byte>, tails: seq<Tail>)
    returns (r: Result<seq<Share>>)
    requires Permutation(perm) && |tails| == |secret|
    ensures r == SplitResult(secret, parts, threshold, perm, tails)
  {
    hide Eval;
    if parts < threshold { return Err(PartsBelowThreshold); }
    if parts > 255 { return Err(TooManyParts); }
    if threshold < 2 { return Err(ThresholdTooSmall); }
    if threshold > 255 { return Err(ThresholdTooLarge); }
    if |secret| == 0 { return Err(EmptySecret); }
    var xs := Coordinates(perm)[..parts];
    var out := Tagged(xs, |secret|);
    ghost var ps := seq(|secret|, i requires 0 <= i < |secret| =>
      [secret[i]] + if tails[i].Some? then tails[i].value else []);
    for k := 0 to |secret|
      invariant |out| == |xs|
      invariant forall i :: 0 <= i < k ==> tails[i].Some?
      invariant forall i :: 0 <= i < |xs| ==> Filled(out[i], ps, xs[i], k)
    {
      if tails[k].None? { return Err(NoRandomness); }
      out := FillColumn(out, [secret[k]] + tails[k].value, xs, k, ps);
    }
    assert ps == Polys(secret, tails);
    forall i | 0 <= i < |xs|
      ensures out[i] == ShareAt(ps, xs[i])
    {
      assert Filled(out[i], ps, xs[i], |ps|);
    }
    assert out == Shares(ps, xs);
    r := Ok(out);
  }

  // ---- Combine

  function Tags(parts: seq<Share>): (xs: seq<byte>)
    requires forall i :: 0 <= i < |parts| ==> parts[i] != []
    ensures |xs| == |parts|
    ensures forall i :: 0 <= i < |parts| ==> xs[i] == parts[i][|parts[i]| - 1]
  {
    seq(|parts|, i requires 0 <= i < |parts| => parts[i][|parts[i]| - 1])
  }

  function Column(parts: seq<Share>, k: nat): (ys: seq<byte>)
    requires forall i :: 0 <= i < |parts| ==> k < |parts[i]|
    ensures |ys| == |parts|
    ensures forall i :: 0 <= i < |parts| ==> ys[i] == parts[i][k]
  {
    seq(|parts|, i requires 0 <= i < |parts| => parts[i][k])
  }

  predicate SameLength(parts: seq<Share>)
  {
    forall i :: 0 <= i < |parts| ==> |parts[i]| == |parts[0]|
  }

  /** What Combine returns: a refusal, or each byte interpolated at the origin. */
  function Combined(parts: seq<Share>): (r: Result<seq<byte>>) {
    if |parts| < 2 then Err(TooFewParts)
    else if |parts[0]| < 2 then Err(PartTooShort)
    else if !SameLength(parts) then Err(UnequalParts)
    else if !Distinct(Tags(parts)) then Err(DuplicatePart)
    else Ok(seq(|parts[0]| - 1, k requires 0 <= k < |parts[0]| - 1 =>
              Interpolated(Tags(parts), Column(parts, k), |parts|, 0)))
  }

  /** Parts are put together exactly if there are two or more, of one length of at least
      two, with different last bytes; the secret is one byte shorter. */
  lemma CombinedIff(parts: seq<Share>)
    ensures Combined(parts).Ok? <==>
      && |parts| >= 2 && |parts[0]| >= 2
      && (forall i :: 0 <= i < |parts| ==> |parts[i]| == |parts[0]|)
      && (forall i, j :: 0 <= i < j < |parts| ==> parts[i][|parts[0]| - 1] != parts[j][|parts[0]| - 1])
    ensures Combined(parts).Ok? ==> |Combined(parts).value| == |parts[0]| - 1
    ensures Combined(parts) == Err(DuplicatePart) ==>
      exists i, j :: 0 <= i < j < |parts| && parts[i] != [] && parts[j] != []
        && parts[i][|parts[i]| - 1] == parts[j][|parts[j]| - 1]
  {
    hide Interpolated;
    if |parts| >= 2 && |parts[0]| >= 2 && SameLength(parts) {
      var xs := Tags(parts);
      if i, j :| 0 <= i < j < |parts| && parts[i][|parts[0]| - 1] == parts[j][|parts[0]| - 1] {
        assert xs[i] == xs[j];
      }
      if !Distinct(xs) {
        var i, j :| 0 <= i < j < |xs| && xs[i] == xs[j];
        assert parts[i][|parts[i]| - 1] == parts[j][|parts[j]| - 1];
      }
    }
  }

  /** The last byte of every part, or None when two parts share it. */
  method ReadTags(parts: seq<Share>) returns (xs: Option<seq<byte>>)
    requires forall i :: 0 <= i < |parts| ==> parts[i] != []
    ensures xs == if Distinct(Tags(parts)) then Some(Tags(parts)) else None
  {
    ghost var all := Tags(parts);
    var seen: set<byte> := {};
    var found: seq<byte> := [];
    for i := 0 to |parts|
      invariant found == all[..i]
      invariant forall b :: b in seen <==> b in found
      invariant Distinct(found)
    {
      var samp := parts[i][|parts[i]| - 1];
      if samp in seen {
        assert samp in all[..i];
        ghost var j :| 0 <= j < i && all[j] == samp;
        assert all[i] == all[j];
        return None;
      }
      seen := seen + {samp};
      found := found + [samp];
      assert all[..i + 1] == all[..i] + [all[i]];
    }
    assert all[..|parts|] == all;
    xs := Some(found);
  }

  method Combine(parts: seq<Share>) returns (r: Result<seq<byte>>)
    ensures r == Combined(parts)
  {
    hide Interpolated, Eval, Distinct;
    if |parts| < 2 { return Err(TooFewParts); }
    var len := |parts[0]|;
    if len < 2 { return Err(PartTooShort); }
    for i := 1 to |parts|
      invariant forall k :: 0 <= k < i ==> |parts[k]| == len
    {
      if |parts[i]| != len { return Err(UnequalParts); }
    }
    var tags := ReadTags(parts);
    if tags.None? { return Err(DuplicatePart); }
    var secret: seq<byte> := [];
    for k := 0 to len - 1
      invariant |secret| == k
      invariant forall i :: 0 <= i < k ==> secret[i] == Interpolated(tags.value, Column(parts, i), |parts|, 0)
    {
      var ys: seq<byte> := [];
      for i := 0 to |parts|
        invariant |ys| == i
        invariant forall j :: 0 <= j < i ==> ys[j] == parts[j][k]
      {
        ys := ys + [parts[i][k]];
      }
      assert ys == Column(parts, k);
      var val := InterpolatePolynomial(tags.value, ys, 0);
      secret := secret + [val];
    }
    assert SameLength(parts) && tags.value == Tags(parts);
    assert secret == Combined(parts).value;
    r := Ok(secret);
  }

  // ---- what sharing promises

  /** A part that Split made: the values of the polynomials at its own last byte. */
  predicate Genuine(ps: seq<Poly>, part: Share) {
    |part| == |ps| + 1 && part == ShareAt(ps, part[|ps|])
  }

  lemma CombineGenuine(secret: seq<byte>, tails: seq<Tail>, n: nat, chosen: seq<Share>)
    requires secret != [] && Drawn(tails, |secret|, n)
    requires |chosen| >= 2 && |chosen| > n
    requires forall i :: 0 <= i < |chosen| ==> Genuine(Polys(secret, tails), chosen[i])
    requires forall i, j :: 0 <= i < j < |chosen| ==> chosen[i] != chosen[j]
    ensures Combined(chosen) == Ok(secret)
  {
    hide Eval, Interpolated;
    var ps := Polys(secret, tails);
    var xs := Tags(chosen);
    assert SameLength(chosen);
    assert Distinct(xs);
    forall k | 0 <= k < |secret|
      ensures Interpolated(xs, Column(chosen, k), |chosen|, 0) == secret[k]
    {
      var ys := Column(chosen, k);
      InterpolationRecovers(ps[k], xs, ys, 0);
      EvalOrigin(ps[k]);
    }
    assert Combined(chosen).value == secret;
  }

  /** The promise of the package: any threshold distinct shares, in any order, give
      the secret back, whatever was drawn. */
  lemma RoundTrip(secret: seq<byte>, parts: int, threshold: int, perm: seq<byte>, tails: seq<Tail>,
                  chosen: seq<Share>)
    requires Permutation(perm) && |tails| == |secret|
    requires forall i :: 0 <= i < |tails| ==> tails[i].Some? ==> |tails[i].value| == threshold - 1
    requires SplitResult(secret, parts, threshold, perm, tails).Ok?
    requires |chosen| >= threshold
    requires forall i :: 0 <= i < |chosen| ==> chosen[i] in SplitResult(secret, parts, threshold, perm, tails).value
    requires forall i, j :: 0 <= i < j < |chosen| ==> chosen[i] != chosen[j]
    ensures Combined(chosen) == Ok(secret)
  {
    hide Eval, Combined;
    var ps := Polys(secret, tails);
    var xs := Coordinates(perm)[..parts];
    assert SplitResult(secret, parts, threshold, perm, tails).value == Shares(ps, xs);
    forall i | 0 <= i < |chosen|
      ensures Genuine(ps, chosen[i])
    {
      var j :| 0 <= j < |xs| && chosen[i] == Shares(ps, xs)[j];
      assert chosen[i] == ShareAt(ps, xs[j]);
    }
    CombineGenuine(secret, tails, threshold - 1, chosen);
  }

  // ---- below the threshold the shares say nothing

  /** The tail under which a polynomial with intercept s takes the values ys at xs. */
  function TailThrough(s: byte, xs: seq<byte>, ys: seq<byte>): (t: seq<byte>)
    requires |xs| == |ys| && Distinct([0] + xs)
    ensures |t| == |xs|
  {
    InterpolatingPoly([0] + xs, [s] + ys, |xs| + 1)[1..]
  }

  lemma TailThroughUnique(s: byte, xs: seq<byte>, ys: seq<byte>, t: seq<byte>)
    requires |xs| == |ys| == |t| && Distinct([0] + xs)
    ensures (forall i :: 0 <= i < |xs| ==> Eval([s] + t, xs[i]) == ys[i]) <==> t == TailThrough(s, xs, ys)
  {
    hide Eval, InterpolatingPoly;
    var zs, ws, p := [0] + xs, [s] + ys, [s] + t;
    var q := InterpolatingPoly(zs, ws, |zs|);
    InterpolationUnique(zs, ws, p);
    InterpolationUnique(zs, ws, q);
    EvalOrigin(p);
    EvalOrigin(q);
    assert Eval(q, zs[0]) == ws[0];
    assert q == [q[0]] + q[1..];
    if forall i :: 0 <= i < |xs| ==> Eval(p, xs[i]) == ys[i] {
      forall i | 0 <= i < |zs|
        ensures Eval(p, zs[i]) == ws[i]
      {
        if i > 0 {
          assert zs[i] == xs[i - 1] && ws[i] == ys[i - 1];
        }
      }
    }
    if p == q {
      forall i | 0 <= i < |xs|
        ensures Eval(p, xs[i]) == ys[i]
      {
        assert zs[i + 1] == xs[i] && ws[i + 1] == ys[i];
      }
    }
  }

  /** The parts held by some shareholders agree under two splittings. */
  predicate SameParts(ps: seq<Poly>, qs: seq<Poly>, xs: seq<byte>) {
    forall i :: 0 <= i < |xs| ==> ShareAt(ps, xs[i]) == ShareAt(qs, xs[i])
  }

  function HidingTails(ps: seq<Poly>, other: seq<byte>, xs: seq<byte>): (ts: seq<Tail>)
    requires |other| == |ps| && Distinct([0] + xs)
    ensures Drawn(ts, |other|, |xs|)
  {
    seq(|other|, k requires 0 <= k < |other| => Some(TailThrough(other[k], xs, ValuesAt(ps[k], xs))))
  }

  function ValuesAt(p: Poly, xs: seq<byte>): (ys: seq<byte>)
    ensures |ys| == |xs| && forall i :: 0 <= i < |xs| ==> ys[i] == Eval(p, xs[i])
  {
    seq(|xs|, i requires 0 <= i < |xs| => Eval(p, xs[i]))
  }

  lemma SamePartsIff(ps: seq<Poly>, qs: seq<Poly>, xs: seq<byte>)
    requires |ps| == |qs|
    ensures SameParts(ps, qs, xs) <==>
            forall k :: 0 <= k < |ps| ==> ValuesAt(ps[k], xs) == ValuesAt(qs[k], xs)
  {
    hide Eval;
    if SameParts(ps, qs, xs) {
      forall k | 0 <= k < |ps|
        ensures ValuesAt(ps[k], xs) == ValuesAt(qs[k], xs)
      {
        forall i | 0 <= i < |xs|
          ensures Eval(ps[k], xs[i]) == Eval(qs[k], xs[i])
        {
          assert ShareAt(ps, xs[i])[k] == ShareAt(qs, xs[i])[k];
        }
      }
    }
    if forall k :: 0 <= k < |ps| ==> ValuesAt(ps[k], xs) == ValuesAt(qs[k], xs) {
      forall i | 0 <= i < |xs|
        ensures ShareAt(ps, xs[i]) == ShareAt(qs, xs[i])
      {
        forall k | 0 <= k < |ps|
          ensures Eval(ps[k], xs[i]) == Eval(qs[k], xs[i])
        {
          assert ValuesAt(ps[k], xs)[i] == ValuesAt(qs[k], xs)[i];
        }
      }
    }
  }

  lemma OneDraw(ps: seq<Poly>, other: seq<byte>, xs: seq<byte>, t: seq<byte>, k: nat)
    requires k < |ps| == |other| && Distinct([0] + xs) && |t| == |xs|
    ensures ValuesAt(ps[k], xs) == ValuesAt([other[k]] + t, xs) <==> Some(t) == HidingTails(ps, other, xs)[k]
  {
    hide Eval, TailThrough;
    TailThroughUnique(other[k], xs, ValuesAt(ps[k], xs), t);
  }

  /** Shareholders one short of the threshold cannot tell secrets apart: every secret
      of that length fits their parts, by exactly one draw of coefficients. */
  lemma BelowThreshold(secret: seq<byte>, tails: seq<Tail>, xs: seq<byte>, other: seq<byte>, draws: seq<Tail>)
    requires Drawn(tails, |secret|, |xs|) && Drawn(draws, |secret|, |xs|) && |other| == |secret|
    requires Distinct(xs) && 0 !in xs
    ensures Distinct([0] + xs)
    ensures SameParts(Polys(secret, tails), Polys(other, draws), xs)
            <==> draws == HidingTails(Polys(secret, tails), other, xs)
  {
    hide Eval, SameParts, ValuesAt, TailThrough, HidingTails;
    assert Distinct([0] + xs);
    var ps, qs := Polys(secret, tails), Polys(other, draws);
    SamePartsIff(ps, qs, xs);
    forall k | 0 <= k < |ps|
      ensures ValuesAt(ps[k], xs) == ValuesAt(qs[k], xs) <==> draws[k] == HidingTails(ps, other, xs)[k]
    {
      OneDraw(ps, other, xs, draws[k].value, k);
    }
  }

  function Held(xs: seq<byte>, held: seq<nat>): (r: seq<byte>)
    requires forall i :: 0 <= i < |held| ==> held[i] < |xs|
    ensures |r| == |held| && forall i :: 0 <= i < |held| ==> r[i] == xs[held[i]]
  {
    seq(|held|, i requires 0 <= i < |held| => xs[held[i]])
  }

  /** The same of Split itself: whatever was split, any threshold - 1 of its parts
      would have come out the same for any other secret of that length, under exactly
      one draw of coefficients. */
  lemma SplitHides(secret: seq<byte>, other: seq<byte>, parts: int, threshold: int, perm: seq<byte>,
                   tails: seq<Tail>, draws: seq<Tail>, held: seq<nat>)
    requires Permutation(perm) && |other| == |secret|
    requires Drawn(tails, |secret|, threshold - 1) && Drawn(draws, |secret|, threshold - 1)
    requires SplitRefused(secret, parts, threshold).None?
    requires |held| == threshold - 1 && forall i :: 0 <= i < |held| ==> held[i] < parts
    requires forall i, j :: 0 <= i < j < |held| ==> held[i] != held[j]
    ensures var a := SplitResult(secret, parts, threshold, perm, tails);
            var b := SplitResult(other, parts, threshold, perm, draws);
            var xs := Held(Coordinates(perm), held);
            && a.Ok? && b.Ok? && Distinct([0] + xs)
            && ((forall i :: 0 <= i < |held| ==> a.value[held[i]] == b.value[held[i]])
                <==> draws == HidingTails(Polys(secret, tails), other, xs))
  {
    hide Eval, HidingTails;
    var xs := Held(Coordinates(perm), held);
    CoordinatesDistinct(perm);
    assert Distinct(xs) && 0 !in xs;
    BelowThreshold(secret, tails, xs, other, draws);
    var ps, qs := Polys(secret, tails), Polys(other, draws);
    var cs := Coordinates(perm)[..parts];
    var a, b := Shares(ps, cs), Shares(qs, cs);
    assert SplitResult(secret, parts, threshold, perm, tails) == Ok(a);
    assert SplitResult(other, parts, threshold, perm, draws) == Ok(b);
    forall i | 0 <= i < |held|
      ensures a[held[i]] == ShareAt(ps, xs[i]) && b[held[i]] == ShareAt(qs, xs[i])
    {
      assert cs[held[i]] == xs[i];
    }
  }
}
