/** Arithmetic of GF(256) with the reduction polynomial 0x11d (src/fec.rs). */
module Galois {

  type byte = x: int | 0 <= x < 256

  // The low byte of the reduction polynomial x^8 + x^4 + x^3 + x^2 + 1.
  const REDUCTION: byte := 0x1d

  // ----- bitwise exclusive or on natural numbers

  function Parity(a: nat, b: nat): nat {
    if a % 2 == b % 2 then 0 else 1
  }

  function Xor(a: nat, b: nat): nat
  {
    if a == 0 then b
    else if b == 0 then a
    else 2 * Xor(a / 2, b / 2) + Parity(a, b)
  }

  lemma XorHalf(a: nat, b: nat)
    ensures Xor(a, b) / 2 == Xor(a / 2, b / 2)
    ensures Xor(a, b) % 2 == Parity(a, b)
    ensures Xor(a, b) == 2 * Xor(a / 2, b / 2) + Parity(a, b)
  {
  }

  lemma {:induction false} XorZero(a: nat)
    ensures Xor(a, 0) == a == Xor(0, a)
  {
  }

  lemma {:induction false} XorCommutes(a: nat, b: nat)
    ensures Xor(a, b) == Xor(b, a)
  {
    if a != 0 && b != 0 {
      XorCommutes(a / 2, b / 2);
    }
  }

  lemma {:induction false} XorAssociates(a: nat, b: nat, c: nat)
    ensures Xor(Xor(a, b), c) == Xor(a, Xor(b, c))
    decreases a + b + c
  {
    if a == 0 || b == 0 || c == 0 {
      XorZero(Xor(a, b)); XorZero(a);
    } else {
      hide Xor;
      XorHalf(a, b); XorHalf(b, c); XorHalf(Xor(a, b), c); XorHalf(a, Xor(b, c));
      XorAssociates(a / 2, b / 2, c / 2);
    }
  }

  lemma {:induction false} XorSelf(a: nat)
    ensures Xor(a, a) == 0
  {
    if a != 0 {
      XorSelf(a / 2);
    }
  }

  /** `n` is one of 1, 2, 4, ... */
  ghost predicate PowerOfTwo(n: nat) {
    n == 1 || (n != 0 && n % 2 == 0 && PowerOfTwo(n / 2))
  }

  function Low(a: nat, n: nat): nat {
    if a >= n then a - n else a
  }

  lemma HalfLow(a: nat, n: nat)
    requires n % 2 == 0 && a < 2 * n
    ensures Low(a, n) / 2 == Low(a / 2, n / 2)
    ensures Low(a, n) % 2 == a % 2
    ensures a / 2 < n && (a / 2 >= n / 2 <==> a >= n)
  {
  }

  // Below 2n, the bit of weight n and the bits under it combine independently.
  lemma {:induction false} XorTopBit(a: nat, b: nat, n: nat)
    requires PowerOfTwo(n) && a < 2 * n && b < 2 * n
    ensures Xor(a, b) < 2 * n
    ensures Xor(a, b) >= n <==> (a >= n) != (b >= n)
  {
    if n != 1 {
      HalfLow(a, n); HalfLow(b, n);
      XorTopBit(a / 2, b / 2, n / 2);
      hide Xor;
      XorHalf(a, b);
    }
  }

  lemma {:induction false} XorLow(a: nat, b: nat, n: nat)
    requires PowerOfTwo(n) && a < 2 * n && b < 2 * n
    ensures Xor(Low(a, n), Low(b, n)) == Low(Xor(a, b), n)
  {
    if n != 1 {
      HalfLow(a, n); HalfLow(b, n);
      XorLow(a / 2, b / 2, n / 2);
      XorTopBit(a, b, n);
      hide Xor, Low;
      XorHalf(a, b);
      HalfLow(Xor(a, b), n);
      XorHalf(Low(a, n), Low(b, n));
    }
  }

  lemma ByteWidth()
    ensures PowerOfTwo(128)
  {
    assert PowerOfTwo(8);
  }

  /** The source's byte addition `^`. */
  function Add(a: byte, b: byte): (r: byte)
  {
    ByteWidth();
    XorTopBit(a, b, 128);
    Xor(a, b)
  }

  lemma AddCommutes(a: byte, b: byte)
    ensures Add(a, b) == Add(b, a)
  {
    XorCommutes(a, b);
  }

  lemma AddAssociates(a: byte, b: byte, c: byte)
    ensures Add(Add(a, b), c) == Add(a, Add(b, c))
  {
    XorAssociates(a, b, c);
  }

  lemma AddUnits(a: byte)
    ensures Add(a, 0) == a && Add(0, a) == a && Add(a, a) == 0
  {
    XorSelf(a);
  }

  lemma AddCancels(a: byte, b: byte)
    ensures Add(Add(a, b), b) == a
    ensures Add(a, b) == 0 <==> a == b
  {
    hide *;
    AddAssociates(a, b, b);
    AddUnits(a); AddUnits(b);
  }

  lemma AddSwaps(a: byte, b: byte, c: byte, d: byte)
    ensures Add(Add(a, b), Add(c, d)) == Add(Add(a, c), Add(b, d))
  {
    hide *;
    AddAssociates(a, b, Add(c, d));
    AddAssociates(b, c, d); AddCommutes(b, c); AddAssociates(c, b, d);
    AddAssociates(a, c, Add(b, d));
  }

  // ----- multiplication by x, then by an arbitrary element

  /** The u8 left shift, which drops the top bit. */
  function Double(a: byte): byte {
    2 * a % 256
  }

  function Carry(a: byte): byte {
    if a >= 128 then REDUCTION else 0
  }

  /** One shift of `multiply`: the left shift and the conditional reduction. */
  function Shift(a: byte): byte {
    Add(Double(a), Carry(a))
  }

  lemma XorEven(a: nat, b: nat)
    ensures Xor(2 * a, 2 * b) == 2 * Xor(a, b)
  {
    hide Xor;
    XorHalf(2 * a, 2 * b);
  }

  lemma DoubleLow(a: byte)
    ensures Double(a) == 2 * Low(a, 128)
  {
  }

  lemma DoubleAdds(a: byte, b: byte)
    ensures Double(Add(a, b)) == Add(Double(a), Double(b))
    ensures Add(a, b) >= 128 <==> (a >= 128) != (b >= 128)
  {
    ByteWidth();
    XorTopBit(a, b, 128);
    XorLow(a, b, 128);
    hide Xor, Low, Double, PowerOfTwo;
    DoubleLow(a); DoubleLow(b); DoubleLow(Add(a, b));
    XorEven(Low(a, 128), Low(b, 128));
  }

  lemma ShiftAdds(a: byte, b: byte)
    ensures Shift(Add(a, b)) == Add(Shift(a), Shift(b))
  {
    DoubleAdds(a, b);
    hide Add, Double;
    AddSwaps(Double(a), Carry(a), Double(b), Carry(b));
    AddUnits(0); AddUnits(REDUCTION);
  }

  /** The product that the loop of `multiply` computes. */
  function Mul(left: byte, right: byte): byte
    decreases right
  {
    if right == 0 then 0
    else Add(if right % 2 == 1 then left else 0, Mul(Shift(left), right / 2))
  }

  lemma MulUnfold(left: byte, right: byte)
    ensures Mul(left, 0) == 0
    ensures Mul(left, right) == Add(if right % 2 == 1 then left else 0, Mul(Shift(left), right / 2))
  {
    AddUnits(0);
    if right == 0 {
      assert Mul(Shift(left), 0) == 0;
    }
  }

  /** src/fec.rs, `multiply`. */
  method Multiply(left: byte, right: byte) returns (output: byte)
    ensures output == Mul(left, right)
  {
    var l, r := left, right;
    output := 0;
    AddUnits(Mul(left, right));
    while r != 0
      invariant Add(output, Mul(l, r)) == Mul(left, right)
      decreases r
    {
      hide Add, Mul;
      MulUnfold(l, r);
      AddAssociates(output, if r % 2 == 1 then l else 0, Mul(Shift(l), r / 2));
      if r % 2 != 0 {
        output := Add(output, l);
      } else {
        AddUnits(output);
      }
      AddUnits(Double(l));
      var carry := l >= 128;
      l := Double(l);
      if carry {
        l := Add(l, REDUCTION);
      }
      r := r / 2;
    }
    AddUnits(output);
  }

  lemma {:induction false} MulAddsLeft(a: byte, b: byte, r: byte)
    ensures Mul(Add(a, b), r) == Add(Mul(a, r), Mul(b, r))
    decreases r
  {
    hide Add, Shift, Mul;
    MulUnfold(Add(a, b), r); MulUnfold(a, r); MulUnfold(b, r);
    if r == 0 {
      AddUnits(0);
    } else {
      ShiftAdds(a, b);
      MulAddsLeft(Shift(a), Shift(b), r / 2);
      if r % 2 == 1 {
        AddSwaps(a, b, Mul(Shift(a), r / 2), Mul(Shift(b), r / 2));
      } else {
        AddUnits(Mul(Shift(a), r / 2)); AddUnits(Mul(Shift(b), r / 2));
        AddUnits(Add(Mul(Shift(a), r / 2), Mul(Shift(b), r / 2)));
      }
    }
  }

  lemma ShiftZero()
    ensures Shift(0) == 0
  {
    AddUnits(0);
  }

  lemma {:induction false} MulShift(l: byte, r: byte)
    ensures Mul(Shift(l), r) == Shift(Mul(l, r))
    decreases r
  {
    hide Add, Shift, Mul;
    MulUnfold(Shift(l), r); MulUnfold(l, r);
    ShiftZero();
    if r != 0 {
      MulShift(Shift(l), r / 2);
      ShiftAdds(if r % 2 == 1 then l else 0, Mul(Shift(l), r / 2));
    }
  }

  // Every byte is its low bit plus the shift of the rest.
  lemma SplitBit(a: byte)
    ensures Add(a % 2, Shift(a / 2)) == a
  {
    AddUnits(a / 2 * 2);
    assert Double(a / 2) == a / 2 * 2;
    XorHalf(a % 2, a / 2 * 2);
    XorZero(a / 2);
  }

  lemma {:induction false} MulUnits(b: byte)
    ensures Mul(0, b) == 0 && Mul(1, b) == b && Mul(b, 1) == b && Mul(b, 0) == 0
  {
    AddUnits(b);
    assert Mul(Shift(b), 0) == 0 && Mul(b, 1) == Add(b, Mul(Shift(b), 0));
    hide Add, Shift, Mul;
    MulUnfold(0, b); MulUnfold(1, b); MulUnfold(b, b);
    ShiftZero();
    if b != 0 {
      MulUnits(b / 2);
      AddUnits(0);
      MulShift(1, b / 2);
      SplitBit(b);
    }
  }

  lemma {:induction false} MulCommutes(a: byte, b: byte)
    ensures Mul(a, b) == Mul(b, a)
    decreases a
  {
    hide Add, Shift, Mul;
    MulUnits(b);
    if a != 0 {
      SplitBit(a);
      MulAddsLeft(a % 2, Shift(a / 2), b);
      MulShift(a / 2, b);
      MulCommutes(a / 2, b);
      MulUnfold(b, a);
      MulShift(b, a / 2);
    }
  }

  lemma MulAddsRight(l: byte, a: byte, b: byte)
    ensures Mul(l, Add(a, b)) == Add(Mul(l, a), Mul(l, b))
  {
    hide *;
    MulCommutes(l, Add(a, b)); MulCommutes(l, a); MulCommutes(l, b);
    MulAddsLeft(a, b, l);
  }

  lemma {:induction false} MulAssociates(a: byte, b: byte, c: byte)
    ensures Mul(Mul(a, b), c) == Mul(a, Mul(b, c))
    decreases c
  {
    hide Add, Shift, Mul;
    MulUnfold(Mul(a, b), c); MulUnfold(b, c);
    MulUnits(a);
    if c != 0 {
      MulAddsRight(a, if c % 2 == 1 then b else 0, Mul(Shift(b), c / 2));
      MulAssociates(a, Shift(b), c / 2);
      MulCommutes(a, Shift(b)); MulShift(b, a); MulCommutes(b, a);
    }
  }

  // ----- powers, and the inverse as the 254th power

  function Power(x: byte, n: nat): byte {
    if n == 0 then 1 else Mul(x, Power(x, n - 1))
  }

  lemma {:induction false} PowerAdds(x: byte, m: nat, n: nat)
    ensures Power(x, m + n) == Mul(Power(x, m), Power(x, n))
  {
    hide Mul;
    if m == 0 {
      MulUnits(Power(x, n));
    } else {
      PowerAdds(x, m - 1, n);
      MulAssociates(x, Power(x, m - 1), Power(x, n));
    }
  }

  lemma {:induction false} PowerOfSquare(x: byte, n: nat)
    ensures Power(Mul(x, x), n) == Power(x, 2 * n)
  {
    hide Mul;
    if n != 0 {
      PowerOfSquare(x, n - 1);
      PowerAdds(x, 1, 2 * n - 1);
      MulAssociates(x, x, Power(x, 2 * n - 2));
    }
  }

  lemma PowerHalves(x: byte, n: nat)
    ensures Power(x, 0) == 1
    ensures Power(x, n) == if n % 2 == 1 then Mul(x, Power(Mul(x, x), n / 2)) else Power(Mul(x, x), n / 2)
  {
    hide Mul;
    PowerOfSquare(x, n / 2);
  }

  /** src/fec.rs, `inverse`: square-and-multiply with the exponent 254. */
  method Inverse(value: byte) returns (output: byte)
    ensures output == Power(value, 254)
    ensures value != 0 ==> output == Inv(value)
  {
    hide Mul, Power;
    var base, exponent := value, 254;
    output := 1;
    MulUnits(Power(value, 254));
    while exponent != 0
      invariant exponent >= 0
      invariant Mul(output, Power(base, exponent)) == Power(value, 254)
    {
      PowerHalves(base, exponent);
      if exponent % 2 != 0 {
        MulAssociates(output, base, Power(Mul(base, base), exponent / 2));
        output := Multiply(output, base);
      }
      base := Multiply(base, base);
      exponent := exponent / 2;
    }
    PowerHalves(base, 0);
    MulUnits(output);
  }

  // ----- the Frobenius map, from which nonzero elements are invertible

  function Square(x: byte): byte {
    Mul(x, x)
  }

  function Frobenius(x: byte, n: nat): byte {
    if n == 0 then x else Square(Frobenius(x, n - 1))
  }

  lemma SquareMaps(a: byte, b: byte)
    ensures Square(Add(a, b)) == Add(Square(a), Square(b))
    ensures Square(Mul(a, b)) == Mul(Square(a), Square(b))
  {
    hide Add, Mul;
    MulAddsLeft(a, b, Add(a, b)); MulAddsRight(a, a, b); MulAddsRight(b, a, b);
    MulCommutes(a, b);
    AddSwaps(Mul(a, a), Mul(a, b), Mul(a, b), Mul(b, b));
    AddCommutes(Mul(a, b), Mul(b, b));
    AddAssociates(Mul(a, a), Mul(a, b), Add(Mul(a, b), Mul(b, b)));
    AddAssociates(Mul(a, b), Mul(a, b), Mul(b, b));
    AddUnits(Mul(a, b)); AddUnits(Mul(b, b));
    MulAssociates(a, b, Mul(a, b)); MulAssociates(b, a, b); MulAssociates(a, b, b);
    MulAssociates(a, a, Mul(b, b)); MulAssociates(b, b, a);
  }

  lemma {:induction false} FrobeniusMaps(a: byte, b: byte, n: nat)
    ensures Frobenius(Add(a, b), n) == Add(Frobenius(a, n), Frobenius(b, n))
    ensures Frobenius(Mul(a, b), n) == Mul(Frobenius(a, n), Frobenius(b, n))
  {
    if n != 0 {
      FrobeniusMaps(a, b, n - 1);
      SquareMaps(Frobenius(a, n - 1), Frobenius(b, n - 1));
    }
  }

  lemma {:induction false} FrobeniusPower(x: byte, n: nat, e: nat)
    requires e == Exp2(n)
    ensures Frobenius(x, n) == Power(x, e)
  {
    hide Mul, Power;
    if n == 0 {
      PowerHalves(x, 1); PowerHalves(Mul(x, x), 0);
      MulUnits(x);
    } else {
      FrobeniusPower(x, n - 1, e / 2);
      PowerAdds(x, e / 2, e / 2);
    }
  }

  function Exp2(n: nat): nat {
    if n == 0 then 1 else 2 * Exp2(n - 1)
  }

  // ----- bits, in which squaring is a linear map

  type bit = x: int | 0 <= x < 2

  datatype Octet = Octet(b0: bit, b1: bit, b2: bit, b3: bit, b4: bit, b5: bit, b6: bit, b7: bit)

  function Plus(a: bit, b: bit): bit {
    if a == b then 0 else 1
  }

  function Pack(b: bit, rest: nat): nat {
    b + 2 * rest
  }

  function Val(o: Octet): byte {
    Pack(o.b0, Pack(o.b1, Pack(o.b2, Pack(o.b3, Pack(o.b4, Pack(o.b5, Pack(o.b6, Pack(o.b7, 0))))))))
  }

  function AddBits(o: Octet, p: Octet): Octet {
    Octet(Plus(o.b0, p.b0), Plus(o.b1, p.b1), Plus(o.b2, p.b2), Plus(o.b3, p.b3),
          Plus(o.b4, p.b4), Plus(o.b5, p.b5), Plus(o.b6, p.b6), Plus(o.b7, p.b7))
  }

  function ShiftBits(o: Octet): Octet {
    Octet(o.b7, o.b0, Plus(o.b1, o.b7), Plus(o.b2, o.b7), Plus(o.b3, o.b7), o.b4, o.b5, o.b6)
  }

  function SquareBits(o: Octet): Octet {
    Octet(Plus(Plus(Plus(o.b0, o.b4), o.b6), o.b7), o.b7, Plus(Plus(Plus(o.b1, o.b4), o.b5), o.b6), Plus(o.b4, o.b6),
          Plus(Plus(Plus(o.b2, o.b4), o.b5), o.b7), o.b5, Plus(Plus(o.b3, o.b5), o.b6), o.b6)
  }

  lemma PackHalf(b: bit, m: nat)
    ensures Pack(b, m) / 2 == m
    ensures Pack(b, m) % 2 == b
  {
  }

  lemma XorPack(b: bit, c: bit, m: nat, n: nat)
    ensures Xor(Pack(b, m), Pack(c, n)) == Pack(Plus(b, c), Xor(m, n))
  {
    hide Xor;
    var p, q := Pack(b, m), Pack(c, n);
    assert p / 2 == m && q / 2 == n && Parity(p, q) == Plus(b, c) by {
      hide Pack;
      PackHalf(b, m); PackHalf(c, n);
    }
    hide Parity;
    XorHalf(p, q);
  }

  lemma AddVal(o: Octet, p: Octet)
    ensures Add(Val(o), Val(p)) == Val(AddBits(o, p))
  {
    hide Xor, Pack, Plus;
    var o7, p7 := Pack(o.b7, 0), Pack(p.b7, 0);
    var o6, p6 := Pack(o.b6, o7), Pack(p.b6, p7);
    var o5, p5 := Pack(o.b5, o6), Pack(p.b5, p6);
    var o4, p4 := Pack(o.b4, o5), Pack(p.b4, p5);
    var o3, p3 := Pack(o.b3, o4), Pack(p.b3, p4);
    var o2, p2 := Pack(o.b2, o3), Pack(p.b2, p3);
    var o1, p1 := Pack(o.b1, o2), Pack(p.b1, p2);
    XorZero(0);
    XorPack(o.b7, p.b7, 0, 0); XorPack(o.b6, p.b6, o7, p7); XorPack(o.b5, p.b5, o6, p6);
    XorPack(o.b4, p.b4, o5, p5); XorPack(o.b3, p.b3, o4, p4); XorPack(o.b2, p.b2, o3, p3);
    XorPack(o.b1, p.b1, o2, p2); XorPack(o.b0, p.b0, o1, p1);
  }

  lemma {:induction false} PackInjective(b: bit, m: nat, c: bit, n: nat)
    ensures Pack(b, m) == Pack(c, n) <==> b == c && m == n
  {
    PackHalf(b, m); PackHalf(c, n);
  }

  lemma ValInjective(o: Octet, p: Octet)
    requires Val(o) == Val(p)
    ensures o == p
  {
    hide Pack;
    var o7, p7 := Pack(o.b7, 0), Pack(p.b7, 0);
    var o6, p6 := Pack(o.b6, o7), Pack(p.b6, p7);
    var o5, p5 := Pack(o.b5, o6), Pack(p.b5, p6);
    var o4, p4 := Pack(o.b4, o5), Pack(p.b4, p5);
    var o3, p3 := Pack(o.b3, o4), Pack(p.b3, p4);
    var o2, p2 := Pack(o.b2, o3), Pack(p.b2, p3);
    var o1, p1 := Pack(o.b1, o2), Pack(p.b1, p2);
    PackInjective(o.b0, o1, p.b0, p1); PackInjective(o.b1, o2, p.b1, p2);
    PackInjective(o.b2, o3, p.b2, p3); PackInjective(o.b3, o4, p.b3, p4);
    PackInjective(o.b4, o5, p.b4, p5); PackInjective(o.b5, o6, p.b5, p6);
    PackInjective(o.b6, o7, p.b6, p7); PackInjective(o.b7, 0, p.b7, 0);
  }

  function Bits(x: byte): (o: Octet)
    ensures Val(o) == x
  {
    var x1 := x / 2;
    var x2 := x1 / 2;
    var x3 := x2 / 2;
    var x4 := x3 / 2;
    var x5 := x4 / 2;
    var x6 := x5 / 2;
    Octet(x % 2, x1 % 2, x2 % 2, x3 % 2, x4 % 2, x5 % 2, x6 % 2, x6 / 2)
  }

  lemma PlusZero(o: Octet)
    ensures AddBits(Octet(0, o.b0, o.b1, o.b2, o.b3, o.b4, o.b5, o.b6),
                    Octet(o.b7, 0, o.b7, o.b7, o.b7, 0, 0, 0)) == ShiftBits(o)
  {
  }

  lemma ValTop(o: Octet)
    ensures Val(o) == Val(o.(b7 := 0)) + 128 * o.b7
    ensures Val(o.(b7 := 0)) < 128
    ensures Val(Octet(0, o.b0, o.b1, o.b2, o.b3, o.b4, o.b5, o.b6)) == 2 * Val(o.(b7 := 0))
    ensures Val(Octet(o.b7, 0, o.b7, o.b7, o.b7, 0, 0, 0)) == 29 * o.b7
  {
  }

  lemma ShiftVal(o: Octet)
    ensures Shift(Val(o)) == Val(ShiftBits(o))
  {
    var d := Octet(0, o.b0, o.b1, o.b2, o.b3, o.b4, o.b5, o.b6);
    var c := Octet(o.b7, 0, o.b7, o.b7, o.b7, 0, 0, 0);
    hide Add, Double, Val;
    ValTop(o);
    DoubleLow(Val(o));
    AddVal(d, c);
    PlusZero(o);
  }

  lemma SquareSplits(x: byte)
    ensures Square(x) == Add(x % 2, Shift(Shift(Square(x / 2))))
  {
    hide Add, Mul, Shift;
    MulUnits(1); MulUnits(0);
    SplitBit(x);
    SquareMaps(x % 2, Shift(x / 2));
    var h := x / 2;
    MulShift(h, Shift(h)); MulCommutes(h, Shift(h)); MulShift(h, h);
  }

  // The square of a byte from the square of its upper seven bits.
  lemma SquareStep(o: Octet)
    ensures SquareBits(o) ==
            AddBits(Octet(o.b0, 0, 0, 0, 0, 0, 0, 0),
                    ShiftBits(ShiftBits(SquareBits(Octet(o.b1, o.b2, o.b3, o.b4, o.b5, o.b6, o.b7, 0)))))
  {
    var h := SquareBits(Octet(o.b1, o.b2, o.b3, o.b4, o.b5, o.b6, o.b7, 0));
    assert h == Octet(Plus(Plus(o.b1, o.b5), o.b7), 0, Plus(Plus(Plus(o.b2, o.b5), o.b6), o.b7), Plus(o.b5, o.b7),
                      Plus(Plus(o.b3, o.b5), o.b6), o.b6, Plus(Plus(o.b4, o.b6), o.b7), o.b7);
    var s := ShiftBits(h);
    assert s == Octet(o.b7, Plus(Plus(o.b1, o.b5), o.b7), o.b7, Plus(Plus(o.b2, o.b5), o.b6), o.b5,
                      Plus(Plus(o.b3, o.b5), o.b6), o.b6, Plus(Plus(o.b4, o.b6), o.b7));
  }

  lemma {:induction false} SquareVal(o: Octet)
    ensures Square(Val(o)) == Val(SquareBits(o))
    decreases Val(o)
  {
    if Val(o) == 0 {
      ValInjective(o, Octet(0, 0, 0, 0, 0, 0, 0, 0));
      MulUnits(0);
    } else {
      var h := Octet(o.b1, o.b2, o.b3, o.b4, o.b5, o.b6, o.b7, 0);
      var l := Octet(o.b0, 0, 0, 0, 0, 0, 0, 0);
      PackHalf(o.b0, Val(h));
      assert Val(o) / 2 == Val(h) && Val(o) % 2 == Val(l);
      hide Xor, Mul, Pack, Add, Shift, Square;
      SquareVal(h);
      SquareSplits(Val(o));
      ShiftVal(SquareBits(h)); ShiftVal(ShiftBits(SquareBits(h)));
      AddVal(l, ShiftBits(ShiftBits(SquareBits(h))));
      SquareStep(o);
    }
  }

  lemma OnlyTrivialIdempotents(e: byte)
    requires Square(e) == e
    ensures e == 0 || e == 1
  {
    var o := Bits(e);
    assert SquareBits(o) == o by {
      hide *;
      SquareVal(o);
      ValInjective(o, SquareBits(o));
    }
    hide Square;
    assert o == Octet(o.b0, 0, 0, 0, 0, 0, 0, 0);
  }

  // The orbit of x under squaring.
  function Orbit(n: nat): Octet
    requires n <= 8
  {
    match n
    case 0 => Octet(0, 1, 0, 0, 0, 0, 0, 0)
    case 1 => Octet(0, 0, 1, 0, 0, 0, 0, 0)
    case 2 => Octet(0, 0, 0, 0, 1, 0, 0, 0)
    case 3 => Octet(1, 0, 1, 1, 1, 0, 0, 0)
    case 4 => Octet(0, 0, 1, 1, 0, 0, 1, 0)
    case 5 => Octet(1, 0, 1, 1, 1, 0, 0, 1)
    case 6 => Octet(1, 1, 1, 1, 1, 0, 1, 0)
    case 7 => Octet(1, 0, 1, 0, 0, 0, 0, 1)
    case _ => Octet(0, 1, 0, 0, 0, 0, 0, 0)
  }

  lemma OrbitStep(n: nat)
    requires n < 8
    ensures Square(Val(Orbit(n))) == Val(Orbit(n + 1))
  {
    hide Square, Pack;
    SquareVal(Orbit(n));
  }

  lemma {:induction false} FrobeniusOfX(n: nat)
    requires n <= 8
    ensures Frobenius(2, n) == Val(Orbit(n))
  {
    if n != 0 {
      FrobeniusOfX(n - 1);
      hide Square, Orbit, Val;
      OrbitStep(n - 1);
    }
  }

  // Eight squarings fix x, hence, being a ring map, every element.
  lemma {:induction false} FrobeniusFixes(a: byte)
    ensures Frobenius(a, 8) == a
  {
    hide Mul, Add, Shift, Frobenius;
    FrobeniusUnits();
    if a > 1 {
      var h := a / 2;
      FrobeniusFixes(h);
      FrobeniusOfX(8);
      MulShift(1, h); MulUnits(h); ShiftOne();
      FrobeniusMaps(2, h, 8);
      FrobeniusMaps(a % 2, Shift(h), 8);
      SplitBit(a);
    }
  }

  lemma ShiftOne()
    ensures Shift(1) == 2
  {
    AddUnits(2);
  }

  lemma FrobeniusUnits()
    ensures Frobenius(0, 8) == 0 && Frobenius(1, 8) == 1
  {
    hide Mul;
    MulUnits(0); MulUnits(1);
    assert Frobenius(0, 4) == 0 && Frobenius(1, 4) == 1;
  }

  /** Every nonzero element times its 254th power is one, so `inverse` inverts. */
  lemma InverseIsInverse(x: byte)
    requires x != 0
    ensures Mul(x, Power(x, 254)) == 1
    ensures Power(x, 254) != 0
  {
    hide Mul, Power, Frobenius;
    var e := Power(x, 255);
    assert e == Mul(x, Power(x, 254)) by { PowerStep(x, 255); }
    assert Power(x, 256) == x by {
      FrobeniusFixes(x);
      FrobeniusPower(x, 8, 256);
    }
    assert Mul(x, e) == x by { PowerStep(x, 256); }
    assert Square(e) == e by {
      MulAssociates(e, x, Power(x, 254));
      MulCommutes(e, x);
    }
    OnlyTrivialIdempotents(e);
    MulUnits(x);
  }

  lemma PowerStep(x: byte, n: nat)
    requires n > 0
    ensures Power(x, n) == Mul(x, Power(x, n - 1))
  {
  }

  /** The inverse of a nonzero element. */
  function Inv(x: byte): (r: byte)
    requires x != 0
    ensures Mul(x, r) == 1 && r != 0
  {
    InverseIsInverse(x);
    Power(x, 254)
  }

  lemma MulNonzero(a: byte, b: byte)
    requires a != 0 && b != 0
    ensures Mul(a, b) != 0
  {
    hide *;
    if Mul(a, b) == 0 {
      MulAssociates(Inv(a), a, b); MulCommutes(a, Inv(a));
      MulUnits(b); MulUnits(Inv(a));
    }
  }
}
