/** Field elements of the SM2 curve as nine limbs of alternately 29 and 28 bits, in
    32-bit words: addition, subtraction and conversion. */
module Sm2Limbs {
  const PRIME: int := 0xFFFFFFFE_FFFFFFFF_FFFFFFFF_FFFFFFFF_FFFFFFFF_00000000_FFFFFFFF_FFFFFFFF
  const R: int := 0x2_00000000_00000000_00000000_00000000_00000000_00000000_00000000_00000000
  const R_INVERSE: int := 0x7ffffffd_80000002_fffffffe_00000001_7ffffffe_80000003_7ffffffc_80000002
  const WORD: int := 0x1_0000_0000

  type Limbs = seq<int>

  /** The weight of a limb relative to the one before it: 2^29 above an even one. */
  function Radix(i: nat): (r: int) { if i % 2 == 0 then 0x2000_0000 else 0x1000_0000 }

  /** The number that limbs i to 8 make. */
  function From(s: Limbs, i: nat): (v: int)
    requires |s| == 9 && i <= 9
    decreases 9 - i
  {
    if i == 9 then 0 else s[i] + Radix(i) * From(s, i + 1)
  }

  function Value(s: Limbs): (v: int)
    requires |s| == 9
  { From(s, 0) }

  /** The bounds every operation expects and keeps. */
  predicate Bounded(s: Limbs) {
    |s| == 9 && forall i :: 0 <= i < 9 ==> 0 <= s[i] < 2 * Radix(i)
  }

  /** k weighted by limbs i to 8. */
  function Spanned(k: int, i: nat): (v: int)
    requires i <= 9
    decreases 9 - i
  {
    if i == 9 then k else Radix(i) * Spanned(k, i + 1)
  }

  lemma SpannedAll(k: int)
    ensures Spanned(k, 0) == k * R
  {
    assert Spanned(k, 8) == 0x2000_0000 * k;
    assert Spanned(k, 6) == 0x2000_0000 * (0x1000_0000 * Spanned(k, 8));
    assert Spanned(k, 4) == 0x2000_0000 * (0x1000_0000 * Spanned(k, 6));
    assert Spanned(k, 2) == 0x2000_0000 * (0x1000_0000 * Spanned(k, 4));
    assert Spanned(k, 0) == 0x2000_0000 * (0x1000_0000 * Spanned(k, 2));
  }

  /** Limb by limb with carries: what goes over the top is the last carry. */
  ghost predicate Carried(c: Limbs, x: Limbs, ks: seq<int>, n: nat) {
    && |c| == 9 && |x| == 9 && |ks| == n + 1 && n <= 9
    && forall i :: 0 <= i < n ==> c[i] + Radix(i) * ks[i + 1] == x[i] + ks[i]
  }

  lemma {:induction false} CarryChain(c: Limbs, x: Limbs, ks: seq<int>, i: nat)
    requires Carried(c, x, ks, 9) && i <= 9
    ensures From(c, i) + Spanned(ks[9], i) == From(x, i) + ks[i]
    decreases 9 - i
  {
    if i < 9 {
      CarryChain(c, x, ks, i + 1);
      assert c[i] + Radix(i) * ks[i + 1] == x[i] + ks[i];
    }
  }

  lemma CarryValue(c: Limbs, x: Limbs, ks: seq<int>)
    requires Carried(c, x, ks, 9)
    ensures Value(c) + ks[9] * R == Value(x) + ks[0]
  {
    CarryChain(c, x, ks, 0);
    SpannedAll(ks[9]);
  }

  function Sums(a: Limbs, b: Limbs): (x: Limbs)
    requires |a| == 9 && |b| == 9
    ensures |x| == 9 && forall i :: 0 <= i < 9 ==> x[i] == a[i] + b[i]
  { seq(9, i requires 0 <= i < 9 => a[i] + b[i]) }

  function Differences(a: Limbs, b: Limbs): (x: Limbs)
    requires |a| == 9 && |b| == 9
    ensures |x| == 9 && forall i :: 0 <= i < 9 ==> x[i] == a[i] - b[i]
  { seq(9, i requires 0 <= i < 9 => a[i] - b[i]) }

  lemma {:induction false} SumFrom(a: Limbs, b: Limbs, i: nat)
    requires |a| == 9 && |b| == 9 && i <= 9
    ensures From(Sums(a, b), i) == From(a, i) + From(b, i)
    decreases 9 - i
  {
    if i < 9 {
      SumFrom(a, b, i + 1);
    }
  }

  lemma {:induction false} DifferenceFrom(a: Limbs, b: Limbs, i: nat)
    requires |a| == 9 && |b| == 9 && i <= 9
    ensures From(Differences(a, b), i) == From(a, i) - From(b, i)
    decreases 9 - i
  {
    if i < 9 {
      DifferenceFrom(a, b, i + 1);
    }
  }

  /** A value given limb by limb. */
  lemma ValueIs(a0: int, a1: int, a2: int, a3: int, a4: int, a5: int, a6: int, a7: int, a8: int)
    ensures Value([a0, a1, a2, a3, a4, a5, a6, a7, a8])
         == a0 + 0x2000_0000 * (a1 + 0x1000_0000 * (a2 + 0x2000_0000 * (a3 + 0x1000_0000 * (a4
            + 0x2000_0000 * (a5 + 0x1000_0000 * (a6 + 0x2000_0000 * (a7 + 0x1000_0000 * a8)))))))
  {
    var s := [a0, a1, a2, a3, a4, a5, a6, a7, a8];
    assert From(s, 8) == a8;
    assert From(s, 6) == a6 + 0x2000_0000 * (a7 + 0x1000_0000 * From(s, 8));
    assert From(s, 4) == a4 + 0x2000_0000 * (a5 + 0x1000_0000 * From(s, 6));
    assert From(s, 2) == a2 + 0x2000_0000 * (a3 + 0x1000_0000 * From(s, 4));
  }

  // ---- the constants

  /** A multiple of the prime with large limbs, added before subtracting. */
  function Zero31(): (z: Limbs)
    ensures |z| == 9
  {
    [0x7FFFFFF8, 0x3FFFFFFC, 0x800003FC, 0x3FFFDFFC, 0x7FFFFFFC, 0x3FFFFFFC, 0x7FFFFFFC, 0x37FFFFFC, 0x7FFFFFFC]
  }

  lemma Zero31Value()
    ensures Value(Zero31()) == 8 * PRIME
  {
    hide Value;
    ValueIs(0x7FFFFFF8, 0x3FFFFFFC, 0x800003FC, 0x3FFFDFFC, 0x7FFFFFFC, 0x3FFFFFFC, 0x7FFFFFFC, 0x37FFFFFC, 0x7FFFFFFC);
  }

  /** What stands for a carry out of the top limb. */
  function CarryRow(carry: int): (z: Limbs)
    requires 0 <= carry < 8
    ensures |z| == 9
    ensures z[1] == 0 && z[4] == 0 && z[5] == 0 && z[6] == 0 && z[8] == 0
    ensures 0 <= z[0] < 0x2000_0000 && 0 <= z[2] < 0x2000_0000 && 0 <= z[3] < 0x1000_0000 && 0 <= z[7] < 0x1000_0000
  {
    if carry == 0 then [0x0, 0x0, 0x0, 0x0, 0x0, 0x0, 0x0, 0x0, 0x0]
    else if carry == 1 then [0x2, 0x0, 0x1FFFFF00, 0x7FF, 0x0, 0x0, 0x0, 0x2000000, 0x0]
    else if carry == 2 then [0x4, 0x0, 0x1FFFFE00, 0xFFF, 0x0, 0x0, 0x0, 0x4000000, 0x0]
    else if carry == 3 then [0x6, 0x0, 0x1FFFFD00, 0x17FF, 0x0, 0x0, 0x0, 0x6000000, 0x0]
    else if carry == 4 then [0x8, 0x0, 0x1FFFFC00, 0x1FFF, 0x0, 0x0, 0x0, 0x8000000, 0x0]
    else if carry == 5 then [0xA, 0x0, 0x1FFFFB00, 0x27FF, 0x0, 0x0, 0x0, 0xA000000, 0x0]
    else if carry == 6 then [0xC, 0x0, 0x1FFFFA00, 0x2FFF, 0x0, 0x0, 0x0, 0xC000000, 0x0]
    else [0xE, 0x0, 0x1FFFF900, 0x37FF, 0x0, 0x0, 0x0, 0xE000000, 0x0]
  }

  lemma CarryRowLimbs(carry: int)
    requires 0 < carry < 8
    ensures CarryRow(carry)
         == [2 * carry, 0, 0x2000_0000 - 0x100 * carry, 0x800 * carry - 1, 0, 0, 0, 0x200_0000 * carry, 0]
  {}

  /** Each row is its carry times R, less twice the carry times the prime. */
  lemma CarryRowValue(carry: int)
    requires 0 <= carry < 8
    ensures Value(CarryRow(carry)) == carry * R - 2 * carry * PRIME
  {
    hide Value, CarryRow;
    if carry == 0 {
      NoCarry();
      ValueIs(0, 0, 0, 0, 0, 0, 0, 0, 0);
    } else {
      CarryRowLimbs(carry);
      ValueIs(2 * carry, 0, 0x2000_0000 - 0x100 * carry, 0x800 * carry - 1, 0, 0, 0, 0x200_0000 * carry, 0);
    }
  }

  lemma NoCarry()
    ensures CarryRow(0) == [0, 0, 0, 0, 0, 0, 0, 0, 0]
  {}

  lemma Multiples(k: int)
    ensures (k * PRIME) % PRIME == 0
  {}

  // ---- the operations, on arrays of 32-bit words

  type u32 = x: int | 0 <= x < WORD

  /** sm2P256ReduceCarry: adds the row of the carry. */
  method ReduceCarry(a: array<u32>, carry: int)
    requires a.Length == 9 && 0 <= carry < 8
    requires forall i :: 0 <= i < 9 ==> a[i] < Radix(i)
    modifies a
    ensures Bounded(a[..])
    ensures Value(a[..]) == Value(old(a[..])) + carry * R - 2 * carry * PRIME
  {
    hide Value, CarryRow;
    var row := CarryRow(carry);
    ghost var was := a[..];
    a[0] := Wrap(a[0] + row[0]);
    a[2] := Wrap(a[2] + row[2]);
    a[3] := Wrap(a[3] + row[3]);
    a[7] := Wrap(a[7] + row[7]);
    assert a[..] == Sums(was, row);
    ValueSum(was, row);
    CarryRowValue(carry);
  }

  lemma ValueSum(a: Limbs, b: Limbs)
    requires |a| == 9 && |b| == 9
    ensures Value(Sums(a, b)) == Value(a) + Value(b)
  {
    SumFrom(a, b, 0);
  }

  lemma ValueDifference(a: Limbs, b: Limbs)
    requires |a| == 9 && |b| == 9
    ensures Value(Differences(a, b)) == Value(a) - Value(b)
  {
    DifferenceFrom(a, b, 0);
  }

  /** One limb of an addition: the limb kept and the carry out of it. */
  method AddLimb(x: u32, y: u32, carry: u32, radix: int) returns (limb: u32, out: u32)
    requires radix == 0x2000_0000 || radix == 0x1000_0000
    requires x < 2 * radix && y < 2 * radix && carry < 8
    ensures limb < radix && out < 8 && limb + radix * out == x + y + carry
  {
    var sum := Wrap(x + y);
    sum := Wrap(sum + carry);
    out := sum / radix;
    limb := sum % radix;
  }

  /** One more limb and carry. */
  lemma CarriedNext(c: Limbs, x: Limbs, ks: seq<int>, n: nat, limb: int, k: int)
    requires Carried(c, x, ks, n) && n < 9 && limb + Radix(n) * k == x[n] + ks[n]
    ensures Carried(c[n := limb], x, ks + [k], n + 1)
  {
    hide Radix;
  }

  /** The carry loop of an addition. */
  method AddLimbs(c: array<u32>, a: array<u32>, b: array<u32>) returns (carry: u32, ghost ks: seq<int>)
    requires a.Length == 9 && b.Length == 9 && c.Length == 9 && Bounded(a[..]) && Bounded(b[..])
    modifies c
    ensures carry < 8 && Carried(c[..], Sums(old(a[..]), old(b[..])), ks, 9) && ks[9] == carry && ks[0] == 0
    ensures forall j :: 0 <= j < 9 ==> c[j] < Radix(j)
  {
    hide Carried;
    ghost var x := Sums(a[..], b[..]);
    ks := [0];
    carry := 0;
    NothingCarried(c[..], x, 0);
    var i := 0;
    while i < 9
      invariant 0 <= i <= 9 && carry < 8 && Carried(c[..], x, ks, i) && |ks| == i + 1 && ks[i] == carry && ks[0] == 0
      invariant forall j :: 0 <= j < i ==> c[j] < Radix(j)
      invariant forall j :: i <= j < 9 ==> a[j] == old(a[j]) && b[j] == old(b[j])
    {
      assert old(a[..])[i] == a[i] && old(b[..])[i] == b[i];
      ghost var was, k := c[..], carry;
      var limb;
      limb, carry := AddLimb(a[i], b[i], carry, Radix(i));
      CarriedNext(was, x, ks, i, limb, carry);
      c[i] := limb;
      assert c[..] == was[i := limb];
      ks := ks + [carry];
      i := i + 1;
    }
  }

  lemma NothingCarried(c: Limbs, x: Limbs, k: int)
    requires |c| == 9 && |x| == 9
    ensures Carried(c, x, [k], 0)
  {}

  /** sm2P256Add: the sum modulo the prime, within the same bounds. The result may be
      one of the arguments. */
  method Add(c: array<u32>, a: array<u32>, b: array<u32>)
    requires a.Length == 9 && b.Length == 9 && c.Length == 9 && Bounded(a[..]) && Bounded(b[..])
    modifies c
    ensures Bounded(c[..])
    ensures (Value(c[..]) - (Value(old(a[..])) + Value(old(b[..])))) % PRIME == 0
  {
    hide Value, Carried, Bounded, Sums;
    var carry, ks := AddLimbs(c, a, b);
    ghost var x, d := Sums(old(a[..]), old(b[..])), c[..];
    CarryValue(d, x, ks);
    ValueSum(old(a[..]), old(b[..]));
    ReduceCarry(c, carry);
    Multiples(-2 * (carry as int));
  }

  /** One limb of a subtraction, in 32-bit arithmetic that wraps around. */
  method SubLimb(x: u32, y: u32, zero: u32, carry: u32, radix: int) returns (limb: u32, out: u32)
    requires radix == 0x2000_0000 || radix == 0x1000_0000
    requires x < 2 * radix && y < 2 * radix && carry < 8 && 2 * radix <= zero <= 5 * radix
    ensures limb < radix && out < 8 && limb + radix * out == x - y + zero + carry
  {
    var d := Wrap(x - y);
    d := Wrap(d + zero);
    assert d == x - y + zero;
    d := Wrap(d + carry);
    out := d / radix;
    limb := d % radix;
  }

  /** 32-bit arithmetic on a result that is off by at most one turn. */
  function Wrap(x: int): (r: u32)
    ensures 0 <= x < WORD ==> r == x
    ensures -WORD <= x < 0 ==> r == x + WORD
    ensures WORD <= x < 2 * WORD ==> r == x - WORD
  { x % WORD }

  method SubLimbs(c: array<u32>, a: array<u32>, b: array<u32>) returns (carry: u32, ghost ks: seq<int>)
    requires a.Length == 9 && b.Length == 9 && c.Length == 9 && Bounded(a[..]) && Bounded(b[..])
    modifies c
    ensures carry < 8 && ks != [] && Carried(c[..], Sums(Differences(old(a[..]), old(b[..])), Zero31()), ks, 9)
    ensures ks[9] == carry && ks[0] == 0
    ensures forall j :: 0 <= j < 9 ==> c[j] < Radix(j)
  {
    hide Carried, Zero31;
    ghost var x := Sums(Differences(a[..], b[..]), Zero31());
    var zero31 := Zero31();
    Zero31Bounds();
    ks := [0];
    carry := 0;
    NothingCarried(c[..], x, 0);
    var i := 0;
    while i < 9
      invariant 0 <= i <= 9 && carry < 8 && Carried(c[..], x, ks, i) && |ks| == i + 1 && ks[i] == carry && ks[0] == 0
      invariant forall j :: 0 <= j < i ==> c[j] < Radix(j)
      invariant forall j :: i <= j < 9 ==> a[j] == old(a[j]) && b[j] == old(b[j])
    {
      assert old(a[..])[i] == a[i] && old(b[..])[i] == b[i];
      ghost var was, k := c[..], carry;
      var limb;
      limb, carry := SubLimb(a[i], b[i], zero31[i], carry, Radix(i));
      CarriedNext(was, x, ks, i, limb, carry);
      c[i] := limb;
      assert c[..] == was[i := limb];
      ks := ks + [carry];
      i := i + 1;
    }
  }

  lemma Zero31Bounds()
    ensures forall i :: 0 <= i < 9 ==> 2 * Radix(i) <= Zero31()[i] <= 5 * Radix(i)
  {}

  /** sm2P256Sub: the difference modulo the prime, within the same bounds. */
  method Sub(c: array<u32>, a: array<u32>, b: array<u32>)
    requires a.Length == 9 && b.Length == 9 && c.Length == 9 && Bounded(a[..]) && Bounded(b[..])
    modifies c
    ensures Bounded(c[..])
    ensures (Value(c[..]) - (Value(old(a[..])) - Value(old(b[..])))) % PRIME == 0
  {
    hide Value, Carried, Bounded, Sums, Differences, Zero31;
    var carry, ks := SubLimbs(c, a, b);
    ghost var diff, d := Differences(old(a[..]), old(b[..])), c[..];
    CarryValue(d, Sums(diff, Zero31()), ks);
    ValueSum(diff, Zero31());
    ValueDifference(old(a[..]), old(b[..]));
    Zero31Value();
    ReduceCarry(c, carry);
    Multiples(8 - 2 * (carry as int));
  }

  // ---- conversion from and to integers

  function Nothing(): (z: Limbs)
    ensures |z| == 9 && forall i :: 0 <= i < 9 ==> z[i] == 0
  { [0, 0, 0, 0, 0, 0, 0, 0, 0] }

  lemma {:induction false} NonNegative(s: Limbs, i: nat)
    requires |s| == 9 && i <= 9 && forall j :: 0 <= j < 9 ==> s[j] >= 0
    ensures From(s, i) >= 0
    decreases 9 - i
  {
    if i < 9 {
      NonNegative(s, i + 1);
    }
  }

  /** The limb loop of a conversion: low bits first, until nothing is left. */
  method SplitLimbs(c: array<u32>, n: int)
    requires c.Length == 9 && 0 <= n < R
    modifies c
    ensures Value(c[..]) == n && forall j :: 0 <= j < 9 ==> c[j] < Radix(j)
  {
    hide Carried, Value;
    ghost var ks: seq<int> := [n];
    NothingCarried(c[..], Nothing(), n);
    var x := n;
    var i := 0;
    while i < 9
      invariant 0 <= i <= 9 && x >= 0 && Carried(c[..], Nothing(), ks, i) && |ks| == i + 1 && ks[i] == x && ks[0] == n
      invariant forall j :: 0 <= j < i ==> c[j] < Radix(j)
    {
      ghost var was := c[..];
      var limb: u32 := x % Radix(i);
      assert limb + Radix(i) * (x / Radix(i)) == x;
      CarriedNext(was, Nothing(), ks, i, limb, x / Radix(i));
      c[i] := limb;
      assert c[..] == was[i := limb];
      x := x / Radix(i);
      ks := ks + [x];
      i := i + 1;
    }
    CarryValue(c[..], Nothing(), ks);
    NothingValue();
    ValueNonNegative(c[..]);
  }

  lemma NothingValue()
    ensures Value(Nothing()) == 0
  {
    hide Value;
    ValueIs(0, 0, 0, 0, 0, 0, 0, 0, 0);
  }

  lemma ValueNonNegative(s: Limbs)
    requires |s| == 9 && forall j :: 0 <= j < 9 ==> s[j] >= 0
    ensures Value(s) >= 0
  {
    NonNegative(s, 0);
  }

  /** sm2P256FromBig: a times R modulo the prime, in limbs. */
  method FromBig(c: array<u32>, a: int)
    requires c.Length == 9
    modifies c
    ensures Value(c[..]) == (a * R) % PRIME && Bounded(c[..])
  {
    hide Value;
    var x := (a * R) % PRIME;
    SplitLimbs(c, x);
  }

  /** What sm2P256ToBig makes of limbs: their value divided by R, modulo the prime. */
  function Big(s: Limbs): (r: int)
    requires |s| == 9
  { (Value(s) * R_INVERSE) % PRIME }

  method ToBig(c: array<u32>) returns (r: int)
    requires c.Length == 9
    ensures r == Big(c[..])
  {
    r := c[8];
    var i := 7;
    while i >= 0
      invariant -1 <= i < 8 && r == From(c[..], i + 1)
    {
      r := Radix(i) * r;
      r := r + c[i];
      i := i - 1;
    }
    r := r * R_INVERSE;
    r := r % PRIME;
  }

  lemma AddMultiple(a: int, k: int)
    ensures (a + k * PRIME) % PRIME == a % PRIME
  {}

  /** Converting an integer to limbs and back reduces it modulo the prime. */
  lemma BigRoundTrip(a: int, s: Limbs)
    requires |s| == 9 && Value(s) == (a * R) % PRIME
    ensures Big(s) == a % PRIME
  {
    hide Value;
    var q := (a * R) / PRIME;
    var u := 0xfffffffc_00000001_fffffffe_00000000_ffffffff_00000001_00000000_00000001;
    assert R * R_INVERSE == 1 + u * PRIME;
    assert Value(s) == a * R - q * PRIME;
    assert Value(s) * R_INVERSE == a + (a * u - q * R_INVERSE) * PRIME;
    AddMultiple(a, a * u - q * R_INVERSE);
  }

  /** Limbs that differ by a multiple of the prime stand for the same integer. */
  lemma SameBig(s: Limbs, t: Limbs)
    requires |s| == 9 && |t| == 9 && (Value(s) - Value(t)) % PRIME == 0
    ensures Big(s) == Big(t)
  {
    hide Value;
    var q := (Value(s) - Value(t)) / PRIME;
    assert Value(s) == Value(t) + q * PRIME;
    assert Value(s) * R_INVERSE == Value(t) * R_INVERSE + (q * R_INVERSE) * PRIME;
    AddMultiple(Value(t) * R_INVERSE, q * R_INVERSE);
  }
}
