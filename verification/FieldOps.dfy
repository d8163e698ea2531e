/** Multiplication and division by table lookup are the operations of the field. */
module FieldOps {
  import opened Galois
  import opened LogTables

  /** mult: add logarithms, and a zero factor gives zero. */
  function Mult(a: byte, b: byte): (r: byte) {
    var sum := (Log(a) as int + Log(b) as int) % 255;
    var ret := Exp(sum);
    var first := if a == 0 then 0 else ret;
    if b == 0 then 0 else first
  }

  /** Go's remainder, which has the sign of the dividend. */
  function Rem(x: int, m: int): (r: int)
    requires m > 0
  {
    if x >= 0 then x % m else -((-x) % m)
  }

  /** div: subtract logarithms. Division by zero panics. */
  function Div(a: byte, b: byte): (r: byte)
    requires b != 0
  {
    var rem := Rem(Log(a) as int - Log(b) as int, 255);
    var diff := if rem < 0 then rem + 255 else rem;
    var ret := Exp(diff);
    if a == 0 then 0 else ret
  }

  // ---- logarithms as numbers

  lemma AheadInt(l: byte)
    ensures (Ahead(l) as int) == if (l as int) < 248 then l as int + 8 else l as int - 247
  {}

  /** The logarithm modulo 255: that of 1, stored as 255, is 0. */
  function LogOf(a: byte): (r: nat) { (Log(a) as nat) % 255 }

  lemma ExpLogOf(a: byte)
    requires a != 0
    ensures Exp(LogOf(a)) == a
  {
    hide Exp, Log;
    Inverses(a);
    TableEnds();
  }

  lemma LogOfOne()
    ensures LogOf(1) == 0
  {
    hide Exp, Log;
    TableEnds();
  }

  lemma LogOfTimes3(a: byte)
    requires a != 0
    ensures Times3(a) != 0
    ensures LogOf(Times3(a)) == (LogOf(a) + 8) % 255
  {
    hide Exp, Log, Times3, Ahead;
    Steps(a);
    TableEnds();
    AheadInt(Log(a));
    AheadNotZero(Log(a));
  }

  lemma AheadNotZero(l: byte)
    ensures Ahead(l) != 0
  {}

  // ---- powers of x + 1

  function Power3(k: nat, a: byte): (r: byte) { if k == 0 then a else Times3(Power3(k - 1, a)) }

  lemma {:induction false} LogOfPower3(k: nat, a: byte)
    requires a != 0
    ensures Power3(k, a) != 0
    ensures LogOf(Power3(k, a)) == (LogOf(a) + 8 * k) % 255
  {
    hide LogOf, Times3;
    LogBelow(a);
    if k != 0 {
      LogOfPower3(k - 1, a);
      LogOfTimes3(Power3(k - 1, a));
      ModStep(LogOf(a) + 8 * (k - 1), 8);
    }
  }

  lemma LogBelow(a: byte)
    ensures LogOf(a) < 255
  {}

  lemma ModStep(x: nat, y: nat)
    ensures (x % 255 + y) % 255 == (x + y) % 255
  {
    var q := x / 255;
    assert x + y == x % 255 + y + 255 * q;
  }

  lemma {:induction false} MulPower3(k: nat, b: byte, a: byte)
    ensures Mul(Power3(k, b), a) == Power3(k, Mul(b, a))
  {
    hide Mul, Add, Times2;
    if k != 0 {
      var c := Power3(k - 1, b);
      MulPower3(k - 1, b, a);
      MulLeft(c, Times2(c), a);
    }
  }

  /** x + 1 generates: every non-zero element is one of its powers. */
  lemma Generated(b: byte)
    requires b != 0
    ensures Power3(32 * LogOf(b), 1) == b
  {
    hide Power3, LogOf, Exp;
    var k := 32 * LogOf(b);
    LogOfPower3(k, 1);
    LogOfOne();
    LogBelow(b);
    ModTimes256(LogOf(b));
    ExpLogOf(b);
    ExpLogOf(Power3(k, 1));
  }

  lemma ModTimes256(l: nat)
    requires l < 255
    ensures (8 * (32 * l)) % 255 == l
  {
    assert 8 * (32 * l) == l + 255 * l;
  }

  lemma LogOfMul(a: byte, b: byte)
    requires a != 0 && b != 0
    ensures Mul(a, b) != 0
    ensures LogOf(Mul(a, b)) == (LogOf(a) + LogOf(b)) % 255
  {
    hide Power3, LogOf, Mul, Exp;
    var k := 32 * LogOf(b);
    Generated(b);
    MulPower3(k, 1, a);
    MulOne(a);
    MulComm(a, b);
    LogOfPower3(k, a);
    LogBelow(b);
    assert LogOf(a) + 8 * k == LogOf(a) + LogOf(b) + 255 * LogOf(b);
    ModShift(LogOf(a) + LogOf(b), LogOf(b));
  }

  lemma ModShift(x: nat, q: nat)
    ensures (x + 255 * q) % 255 == x % 255
  {}

  // ---- the table operations are the field operations

  /** mult is multiplication of polynomials modulo x^8 + x^4 + x^3 + x + 1. */
  lemma MultIsMul(a: byte, b: byte)
    ensures Mult(a, b) == Mul(a, b)
  {
    hide Mul, Exp, Log, LogOf;
    MulAdd(a, 0, 0);
    MulAdd(b, 0, 0);
    if a != 0 && b != 0 {
      LogOfMul(a, b);
      ExpLogOf(Mul(a, b));
      SumOfLogs(a, b);
    }
  }

  lemma SumOfLogs(a: byte, b: byte)
    ensures (LogOf(a) + LogOf(b)) % 255 == (Log(a) as int + Log(b) as int) % 255
  {
    hide Log;
    ModStep(Log(a) as nat, LogOf(b));
    ModStep(Log(b) as nat, Log(a) as nat);
  }

  /** Every exponent below 255 is the logarithm of its entry. */
  lemma LogOfExp(d: nat)
    requires d < 255
    ensures Exp(d) != 0 && LogOf(Exp(d)) == d
  {
    hide Power3, LogOf, Exp;
    LogOfPower3(32 * d, 1);
    LogOfOne();
    ModTimes256(d);
    ExpLogOf(Power3(32 * d, 1));
  }

  /** The exponent that div looks up. */
  function Diff(a: byte, b: byte): (d: nat)
    ensures d < 255
  {
    DiffOf(Log(a) as int, Log(b) as int)
  }

  function DiffOf(x: int, y: int): (d: nat)
    ensures d < 255
  {
    var rem := Rem(x - y, 255);
    if rem < 0 then rem + 255 else rem
  }

  lemma DiffLog(a: byte, b: byte)
    ensures (Diff(a, b) + LogOf(b)) % 255 == LogOf(a)
  {
    hide Log, DiffOf;
    DiffNat(Log(a) as int, Log(b) as int);
  }

  lemma DiffNat(x: int, y: int)
    requires 0 <= x <= 255 && 0 <= y <= 255
    ensures (DiffOf(x, y) + y % 255) % 255 == x % 255
  {
    assert x % 255 == if x == 255 then 0 else x;
    assert y % 255 == if y == 255 then 0 else y;
    if x >= y {
      assert (x - y) % 255 == if x - y == 255 then 0 else x - y;
    } else {
      assert (y - x) % 255 == if y - x == 255 then 0 else y - x;
    }
  }

  /** div undoes mult. */
  lemma DivMult(a: byte, b: byte)
    requires b != 0
    ensures Mult(Div(a, b), b) == a
  {
    var d := Diff(a, b);
    hide Mul, Exp, Log;
    MultIsMul(Div(a, b), b);
    hide Mult;
    MulAdd(b, 0, 0);
    if a != 0 {
      assert Div(a, b) == Exp(d);
      hide Div, Diff;
      LogOfExp(d);
      LogOfMul(Exp(d), b);
      DiffLog(a, b);
      ExpLogOf(a);
      ExpLogOf(Mul(Exp(d), b));
    }
  }
}
