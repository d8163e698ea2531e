/** Arithmetic in GF(2^8), the field defined by x^8 + x^4 + x^3 + x + 1: the definition
    of its operations and the laws they obey. Module LogTables computes them. */
module Galois {

  type byte = bv8

  /** add: bitwise exclusive or. Subtraction is the same operation. */
  function Add(a: byte, b: byte): (r: byte) { a ^ b }

  lemma AddComm(a: byte, b: byte)
    ensures Add(a, b) == Add(b, a)
  {}

  lemma AddAssoc(a: byte, b: byte, c: byte)
    ensures Add(Add(a, b), c) == Add(a, Add(b, c))
  {}

  lemma AddZero(a: byte)
    ensures Add(a, 0) == a && Add(0, a) == a && Add(a, a) == 0
  {}

  lemma AddEqual(a: byte, b: byte)
    ensures Add(a, b) == 0 <==> a == b
  {}

  /** Rearranging a sum of four. */
  lemma AddFour(a: byte, b: byte, c: byte, d: byte)
    ensures Add(Add(a, b), Add(c, d)) == Add(Add(a, c), Add(b, d))
  {
    hide Add;
    AddAssoc(a, b, Add(c, d));
    AddAssoc(b, c, d);
    AddComm(b, c);
    AddAssoc(c, b, d);
    AddAssoc(a, c, Add(b, d));
  }

  // ---- multiplication by x

  function Times2(a: byte): (r: byte) {
    if a & 0x80 == 0 then a << 1 else Add(a << 1, 0x1b)
  }

  lemma ShiftAdd(a: byte, b: byte)
    ensures Add(a, b) << 1 == Add(a << 1, b << 1)
  {}

  lemma TopBit(a: byte, b: byte)
    ensures a & 0x80 == 0 || a & 0x80 == 0x80
    ensures Add(a, b) & 0x80 == Add(a & 0x80, b & 0x80)
  {}

  lemma Times2Add(a: byte, b: byte)
    ensures Times2(Add(a, b)) == Add(Times2(a), Times2(b))
  {
    TopBit(a, b);
    TopBit(b, a);
    ShiftAdd(a, b);
    assert Add(0x80, 0x80) == 0 && Add(0, 0x80) == 0x80 && Add(0x80, 0) == 0x80 && Add(0, 0) == 0;
    assert Add(0x1b, 0x1b) == 0;
    hide Add;
    var x, y, c: byte := a << 1, b << 1, 0x1b;
    AddFour(x, c, y, c);
    AddZero(Add(x, y));
    AddZero(x);
    AddZero(y);
    AddFour(x, c, y, 0);
    AddFour(x, 0, y, c);
    AddZero(c);
  }

  lemma Times2Zero()
    ensures Times2(0) == 0
  {}

  /** Multiplication by x^k. */
  function Shift(a: byte, k: nat): (r: byte) { if k == 0 then a else Times2(Shift(a, k - 1)) }

  lemma {:induction false} ShiftLinear(a: byte, b: byte, k: nat)
    ensures Shift(Add(a, b), k) == Add(Shift(a, k), Shift(b, k))
    ensures Shift(0, k) == 0
    ensures Shift(Times2(a), k) == Times2(Shift(a, k))
  {
    hide Add, Times2;
    Times2Zero();
    if k != 0 {
      ShiftLinear(a, b, k - 1);
      Times2Add(Shift(a, k - 1), Shift(b, k - 1));
    }
  }

  // ---- multiplication of polynomials over GF(2) modulo x^8 + x^4 + x^3 + x + 1

  function Bit(k: nat): (r: byte) { if k == 0 then 1 else Bit(k - 1) << 1 }

  /** What one bit of the second factor contributes to the product. */
  function Part(a: byte, bit: byte): (r: byte) { if bit == 0 then 0 else a }

  /** The product of a with the lowest k bits of b. */
  function MulBits(a: byte, b: byte, k: nat): (r: byte) {
    if k == 0 then 0 else Add(MulBits(a, b, k - 1), Part(Shift(a, k - 1), b & Bit(k - 1)))
  }

  function Mul(a: byte, b: byte): (r: byte) { MulBits(a, b, 8) }

  lemma PartLinear(a: byte, b: byte, bit: byte)
    ensures Part(Add(a, b), bit) == Add(Part(a, bit), Part(b, bit))
    ensures Part(Times2(a), bit) == Times2(Part(a, bit))
  {
    AddZero(0);
    Times2Zero();
  }

  lemma {:induction false} MulBitsAdd(a: byte, c: byte, b: byte, k: nat)
    ensures MulBits(Add(a, c), b, k) == Add(MulBits(a, b, k), MulBits(c, b, k))
  {
    hide Add, Part, Shift, Bit;
    AddZero(0);
    if k != 0 {
      var j := k - 1;
      var bit := b & Bit(j);
      MulBitsAdd(a, c, b, j);
      ShiftLinear(a, c, j);
      PartLinear(Shift(a, j), Shift(c, j), bit);
      AddFour(MulBits(a, b, j), MulBits(c, b, j), Part(Shift(a, j), bit), Part(Shift(c, j), bit));
    }
  }

  lemma {:induction false} MulBitsTimes2(a: byte, b: byte, k: nat)
    ensures MulBits(Times2(a), b, k) == Times2(MulBits(a, b, k))
  {
    hide Add, Times2, Part, Shift, Bit;
    Times2Zero();
    if k != 0 {
      var j := k - 1;
      var bit := b & Bit(j);
      MulBitsTimes2(a, b, j);
      ShiftLinear(a, 0, j);
      PartLinear(Shift(a, j), 0, bit);
      Times2Add(MulBits(a, b, j), Part(Shift(a, j), bit));
    }
  }

  lemma {:induction false} MulBitsZero(b: byte, k: nat)
    ensures MulBits(0, b, k) == 0
  {
    hide Add, Part, Shift, Bit;
    if k != 0 {
      MulBitsZero(b, k - 1);
      ShiftLinear(0, 0, k - 1);
      PartZero(b & Bit(k - 1));
      AddZero(0);
    }
  }

  lemma PartZero(bit: byte)
    ensures Part(0, bit) == 0
  {}

  lemma MulLeft(a: byte, c: byte, b: byte)
    ensures Mul(Add(a, c), b) == Add(Mul(a, b), Mul(c, b))
    ensures Mul(Times2(a), b) == Times2(Mul(a, b))
    ensures Mul(0, b) == 0
  {
    hide MulBits;
    MulBitsAdd(a, c, b, 8);
    MulBitsTimes2(a, b, 8);
    MulBitsZero(b, 8);
  }

  lemma {:induction false} MulShift(a: byte, b: byte, k: nat)
    ensures Mul(Shift(a, k), b) == Shift(Mul(a, b), k)
  {
    hide Mul, Times2;
    if k != 0 {
      MulShift(a, b, k - 1);
      MulLeft(Shift(a, k - 1), 0, b);
    }
  }

  // ---- one, and the bits of a byte

  /** The bits are 1, 2, 4, ..., 128, and masking with one gives it or nothing. */
  lemma BitValue(k: nat, a: byte)
    requires k < 8
    ensures Shift(1, k) == Bit(k) && Bit(k) != 0
    ensures a & Bit(k) == 0 || a & Bit(k) == Bit(k)
  {
    if k == 0 {
      assert a & 1 == 0 || a & 1 == 1;
    } else if k == 1 {
      assert Bit(1) == 2;
      assert a & 2 == 0 || a & 2 == 2;
    } else if k == 2 {
      assert Bit(2) == 4;
      assert a & 4 == 0 || a & 4 == 4;
    } else if k == 3 {
      assert Bit(3) == 8;
      assert a & 8 == 0 || a & 8 == 8;
    } else if k == 4 {
      assert Bit(4) == 16;
      assert a & 16 == 0 || a & 16 == 16;
    } else if k == 5 {
      assert Bit(5) == 32;
      assert a & 32 == 0 || a & 32 == 32;
    } else if k == 6 {
      assert Bit(6) == 64;
      assert a & 64 == 0 || a & 64 == 64;
    } else {
      assert Bit(7) == 128;
      assert a & 128 == 0 || a & 128 == 128;
    }
  }

  /** The sum of the lowest k bits of a. */
  function LowBits(a: byte, k: nat): (r: byte) { if k == 0 then 0 else Add(LowBits(a, k - 1), a & Bit(k - 1)) }

  lemma AllBits(a: byte)
    ensures LowBits(a, 8) == a
  {
    assert Bit(1) == 2 && Bit(2) == 4 && Bit(3) == 8 && Bit(4) == 16 && Bit(5) == 32 && Bit(6) == 64 && Bit(7) == 128;
    assert LowBits(a, 1) == a & 1;
    assert LowBits(a, 2) == a & 3;
    assert LowBits(a, 3) == a & 7;
    assert LowBits(a, 4) == a & 15;
    assert LowBits(a, 5) == a & 31;
    assert LowBits(a, 6) == a & 63;
    assert LowBits(a, 7) == a & 127;
  }

  /** A function that is additive, commutes with multiplication by x and sends 1 to d
      is determined by d: here a |-> a * b. */
  lemma {:induction false} MulLowBits(a: byte, b: byte, k: nat)
    requires k <= 8
    ensures Mul(LowBits(a, k), b) == MulBits(Mul(1, b), a, k)
  {
    hide Add, Mul, Times2, Shift, Bit, Part;
    if k == 0 {
      MulLeft(0, 0, b);
    } else {
      var j := k - 1;
      MulLowBits(a, b, j);
      MulLeft(LowBits(a, j), a & Bit(j), b);
      BitValue(j, a);
      MulShift(1, b, j);
      MulLeft(0, 0, b);
      PartCases(Shift(Mul(1, b), j), a & Bit(j));
    }
  }

  lemma PartCases(a: byte, bit: byte)
    ensures Part(a, bit) == if bit == 0 then 0 else a
  {}

  lemma {:induction false} MulBitsOne(a: byte, k: nat)
    requires k <= 8
    ensures MulBits(1, a, k) == LowBits(a, k)
  {
    hide Add, Shift, Bit, Part;
    if k != 0 {
      MulBitsOne(a, k - 1);
      BitValue(k - 1, a);
      PartCases(Shift(1, k - 1), a & Bit(k - 1));
    }
  }

  // ---- the laws of multiplication

  lemma MulOne(a: byte)
    ensures Mul(1, a) == a && Mul(a, 1) == a
  {
    hide LowBits, MulBits;
    MulBitsOne(a, 8);
    AllBits(a);
    MulComm(a, 1);
  }

  lemma MulComm(a: byte, b: byte)
    ensures Mul(a, b) == Mul(b, a)
  {
    hide LowBits, MulBits;
    AllBits(a);
    MulLowBits(a, b, 8);
    MulBitsOne(b, 8);
    AllBits(b);
  }

  lemma MulAdd(a: byte, b: byte, c: byte)
    ensures Mul(a, Add(b, c)) == Add(Mul(a, b), Mul(a, c))
    ensures Mul(Add(b, c), a) == Add(Mul(b, a), Mul(c, a))
    ensures Mul(0, a) == 0 && Mul(a, 0) == 0
  {
    hide Mul, Add;
    MulLeft(b, c, a);
    MulComm(a, Add(b, c));
    MulComm(a, b);
    MulComm(a, c);
    MulComm(a, 0);
  }

  lemma MulBitsStep(a: byte, b: byte, k: nat)
    ensures MulBits(a, b, 0) == 0
    ensures MulBits(a, b, k + 1) == Add(MulBits(a, b, k), Part(Shift(a, k), b & Bit(k)))
  {}

  lemma MulPart(x: byte, c: byte, bit: byte)
    ensures Mul(Part(x, bit), c) == Part(Mul(x, c), bit)
  {
    hide Mul, Add;
    MulAdd(c, 0, 0);
  }

  lemma {:induction false} MulOfBits(a: byte, b: byte, c: byte, k: nat)
    ensures Mul(MulBits(a, b, k), c) == MulBits(Mul(a, c), b, k)
  {
    hide Mul, Add, Shift, Bit, Part, MulBits;
    if k == 0 {
      MulBitsStep(a, b, 0);
      MulBitsStep(Mul(a, c), b, 0);
      MulAdd(c, 0, 0);
    } else {
      var j := k - 1;
      MulBitsStep(a, b, j);
      MulBitsStep(Mul(a, c), b, j);
      var bit := b & Bit(j);
      MulOfBits(a, b, c, j);
      MulAdd(c, MulBits(a, b, j), Part(Shift(a, j), bit));
      MulShift(a, c, j);
      MulPart(Shift(a, j), c, bit);
    }
  }

  lemma MulAssoc(a: byte, b: byte, c: byte)
    ensures Mul(Mul(a, b), c) == Mul(a, Mul(b, c))
  {
    hide MulBits;
    MulOfBits(b, a, c, 8);
    assert Mul(Mul(b, a), c) == Mul(Mul(b, c), a);
    hide Mul;
    MulComm(a, b);
    MulComm(Mul(b, c), a);
  }
}
