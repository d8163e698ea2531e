/** Values shared by the other modules: optional results, the fixed-width
    integers of the source, and the decimal rendering used for digests. */
module Text {

  datatype Option<+T> = None | Some(value: T)

  const TWO_63: int := 0x8000_0000_0000_0000
  const TWO_64: int := 0x1_0000_0000_0000_0000

  type uint64 = x: int | 0 <= x < TWO_64

  /** Go's `int(x)` of a uint64: reinterpretation as a signed 64-bit number. */
  function AsInt64(x: uint64): (r: int) {
    if x < TWO_63 then x else x - TWO_64
  }

  function Digit(d: nat): (c: char)
    requires d < 10
  {
    '0' + d as char
  }

  function Decimal(n: nat): (s: string)
    decreases n
  {
    if n < 10 then [Digit(n)] else Decimal(n / 10) + [Digit(n % 10)]
  }

  /** strconv.Itoa. */
  function Itoa(n: int): (s: string) {
    if n < 0 then "-" + Decimal(-n) else Decimal(n)
  }

  lemma {:induction false} DecimalDigits(n: nat)
    ensures |Decimal(n)| >= 1
    ensures forall i :: 0 <= i < |Decimal(n)| ==> Decimal(n)[i] != '-'
  {
    if n >= 10 {
      DecimalDigits(n / 10);
    }
  }

  lemma {:induction false} DecimalInjective(m: nat, n: nat)
    requires Decimal(m) == Decimal(n)
    ensures m == n
    decreases m
  {
    var s, t := Decimal(m), Decimal(n);
    if m < 10 && n < 10 {
      assert s[0] == Digit(m) && t[0] == Digit(n);
    } else if m >= 10 && n >= 10 {
      assert s[|s| - 1] == Digit(m % 10) && t[|t| - 1] == Digit(n % 10);
      assert s[..|s| - 1] == Decimal(m / 10) && t[..|t| - 1] == Decimal(n / 10);
      DecimalInjective(m / 10, n / 10);
    } else {
      DecimalDigits(m / 10);
      DecimalDigits(n / 10);
      assert false;
    }
  }

  /** The number that decimal digits stand for. */
  function FromDecimal(s: string): (n: int) {
    if s == "" then 0 else 10 * FromDecimal(s[..|s| - 1]) + (s[|s| - 1] as int - '0' as int)
  }

  /** Printing shows the number, sign first, in the digits 0 to 9. */
  lemma {:induction false} DecimalValue(n: nat)
    ensures FromDecimal(Decimal(n)) == n
    ensures forall i :: 0 <= i < |Decimal(n)| ==> '0' <= Decimal(n)[i] <= '9'
  {
    var s := Decimal(n);
    if n < 10 {
      assert s[..0] == "";
    } else {
      DecimalValue(n / 10);
      assert s[..|s| - 1] == Decimal(n / 10);
    }
  }

  lemma ItoaSign(n: int)
    ensures |Itoa(n)| >= 1
    ensures n < 0 <==> Itoa(n)[0] == '-'
  {
    DecimalDigits(if n < 0 then -n else n);
  }

  /** The digest of a request id identifies the id: printing loses nothing,
      also beyond 2^63 where the printed number is negative. */
  lemma DigestInjective(x: uint64, y: uint64)
    requires Itoa(AsInt64(x)) == Itoa(AsInt64(y))
    ensures x == y
  {
    var a, b := AsInt64(x), AsInt64(y);
    ItoaSign(a);
    ItoaSign(b);
    if a < 0 {
      assert Decimal(-a) == Itoa(a)[1..] && Decimal(-b) == Itoa(b)[1..];
      DecimalInjective(-a, -b);
    } else {
      DecimalInjective(a, b);
    }
  }
}
