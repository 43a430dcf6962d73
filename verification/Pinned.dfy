/** Values of the mix on particular words, and the coefficients they give (src/fec.rs, `coefficient`). */
module Pinned {
  import opened Galois
  import opened Mixing
  import opened Repair

  function Int(b: bv8): byte {
    b as int
  }

  /** A 32-bit word as its four bytes, highest first. */
  datatype Quad = Quad(b3: bv8, b2: bv8, b1: bv8, b0: bv8) {
    function Value(): (v: Word) {
      ((Int(b3) * 0x100 + Int(b2)) * 0x100 + Int(b1)) * 0x100 + Int(b0)
    }

    function Xor(o: Quad): Quad {
      Quad(b3 ^ o.b3, b2 ^ o.b2, b1 ^ o.b1, b0 ^ o.b0)
    }

    function High(): Quad {
      Quad(0, 0, b3, b2)
    }
  }

  lemma HalfByte(a: bv8)
    ensures Int(a >> 1) == Int(a) / 2 && Int(a & 1) == Int(a) % 2
    ensures a != 0 ==> Int(a) != 0
  {
  }

  lemma HalfXor(a: bv8, b: bv8)
    ensures (a ^ b) >> 1 == (a >> 1) ^ (b >> 1)
    ensures (a ^ b) & 1 == if a & 1 == b & 1 then 0 else 1
  {
  }

  lemma ParityByte(a: bv8, b: bv8)
    ensures Int((a ^ b) & 1) == Parity(Int(a), Int(b))
  {
    HalfXor(a, b);
    HalfByte(a);
    HalfByte(b);
    LastBit(a);
    LastBit(b);
  }

  lemma LastBit(a: bv8)
    ensures a & 1 == if Int(a & 1) == 0 then 0 else 1
  {
  }

  lemma {:induction false} XorByte(a: bv8, b: bv8)
    ensures Galois.Xor(Int(a), Int(b)) == Int(a ^ b)
    decreases Int(a)
  {
    hide Int, Parity;
    if a == 0 {
      ZeroByte(b);
    } else {
      hide Galois.Xor;
      HalfByte(a);
      HalfByte(b);
      HalfByte(a ^ b);
      ParityByte(a, b);
      XorHalf(Int(a), Int(b));
      XorByte(a >> 1, b >> 1);
      HalfXor(a, b);
    }
  }

  lemma ZeroByte(b: bv8)
    ensures Int(0) == 0 && 0 ^ b == b
  {
  }

  /** a followed by the n low bits of x. */
  function Append(a: nat, x: nat, n: nat): nat
    decreases n
  {
    if n == 0 then a else 2 * Append(a, x / 2, n - 1) + x % 2
  }

  lemma AppendHalf(a: nat, x: nat, n: nat)
    requires n != 0
    ensures Append(a, x, n) / 2 == Append(a, x / 2, n - 1) && Append(a, x, n) % 2 == x % 2
    ensures Append(a, x, n) == 2 * Append(a, x / 2, n - 1) + x % 2
  {
  }

  lemma {:induction false} XorAppend(a: nat, b: nat, x: nat, y: nat, n: nat)
    ensures Galois.Xor(Append(a, x, n), Append(b, y, n)) == Append(Galois.Xor(a, b), Galois.Xor(x, y), n)
  {
    if n != 0 {
      hide Galois.Xor, Append;
      AppendHalf(a, x, n);
      AppendHalf(b, y, n);
      AppendHalf(Galois.Xor(a, b), Galois.Xor(x, y), n);
      XorHalf(Append(a, x, n), Append(b, y, n));
      XorHalf(x, y);
      XorAppend(a, b, x / 2, y / 2, n - 1);
    }
  }

  lemma {:induction false} AppendIs(a: nat, x: nat, n: nat)
    requires x < Exp2(n)
    ensures Append(a, x, n) == a * Exp2(n) + x
  {
    if n != 0 {
      var e := Exp2(n - 1);
      AppendIs(a, x / 2, n - 1);
      assert a * (2 * e) == 2 * (a * e);
    }
  }

  lemma AppendByte(a: nat, x: byte)
    ensures Append(a, x, 8) == a * 0x100 + x
  {
    assert Exp2(8) == 0x100;
    AppendIs(a, x, 8);
  }

  lemma XorJoin(a: nat, b: nat, c: nat, x: byte, y: byte, z: byte)
    requires Galois.Xor(a, b) == c && Galois.Xor(x, y) == z
    ensures Galois.Xor(a * 0x100 + x, b * 0x100 + y) == c * 0x100 + z
  {
    hide Galois.Xor, Append;
    AppendByte(a, x);
    AppendByte(b, y);
    AppendByte(c, z);
    XorAppend(a, b, x, y, 8);
  }

  lemma XorFields(p: Quad, q: Quad, r: Quad)
    requires r == p.Xor(q)
    ensures Galois.Xor(Int(p.b3), Int(q.b3)) == Int(r.b3) && Galois.Xor(Int(p.b2), Int(q.b2)) == Int(r.b2)
    ensures Galois.Xor(Int(p.b1), Int(q.b1)) == Int(r.b1) && Galois.Xor(Int(p.b0), Int(q.b0)) == Int(r.b0)
  {
    hide Galois.Xor, Int;
    XorByte(p.b3, q.b3);
    XorByte(p.b2, q.b2);
    XorByte(p.b1, q.b1);
    XorByte(p.b0, q.b0);
  }

  lemma XorQuad(p: Quad, q: Quad)
    ensures Galois.Xor(p.Value(), q.Value()) == p.Xor(q).Value()
  {
    hide Galois.Xor, Int, Quad.Xor;
    var r := p.Xor(q);
    XorFields(p, q, r);
    XorFour(Int(p.b3), Int(p.b2), Int(p.b1), Int(p.b0), Int(q.b3), Int(q.b2), Int(q.b1), Int(q.b0),
            Int(r.b3), Int(r.b2), Int(r.b1), Int(r.b0));
  }

  lemma XorFour(a3: byte, a2: byte, a1: byte, a0: byte, b3: byte, b2: byte, b1: byte, b0: byte,
                c3: byte, c2: byte, c1: byte, c0: byte)
    requires Galois.Xor(a3, b3) == c3 && Galois.Xor(a2, b2) == c2
    requires Galois.Xor(a1, b1) == c1 && Galois.Xor(a0, b0) == c0
    ensures Galois.Xor(((a3 * 0x100 + a2) * 0x100 + a1) * 0x100 + a0, ((b3 * 0x100 + b2) * 0x100 + b1) * 0x100 + b0)
         == ((c3 * 0x100 + c2) * 0x100 + c1) * 0x100 + c0
  {
    hide Galois.Xor;
    XorJoin(a3, b3, c3, a2, b2, c2);
    XorJoin(a3 * 0x100 + a2, b3 * 0x100 + b2, c3 * 0x100 + c2, a1, b1, c1);
    XorJoin((a3 * 0x100 + a2) * 0x100 + a1, (b3 * 0x100 + b2) * 0x100 + b1, (c3 * 0x100 + c2) * 0x100 + c1, a0, b0, c0);
  }

  lemma {:induction false} ShrIs(a: nat, h: nat, n: nat)
    requires h * Exp2(n) <= a < (h + 1) * Exp2(n)
    ensures Shr(a, n) == h
  {
    if n != 0 {
      var e := Exp2(n - 1);
      assert h * Exp2(n) == 2 * (h * e) && (h + 1) * Exp2(n) == 2 * ((h + 1) * e);
      ShrIs(a / 2, h, n - 1);
    }
  }

  lemma Shifts()
    ensures Exp2(15) == 0x8000 && Exp2(16) == 0x1_0000
  {
    assert Exp2(8) == 0x100;
  }

  lemma Folds16(q: Quad)
    ensures Fold16(q.Value()) == q.Xor(q.High()).Value()
  {
    hide Galois.Xor, Shr;
    Shifts();
    ShrIs(q.Value(), q.High().Value(), 16);
    XorQuad(q, q.High());
  }

  /** The coefficient from the words between the steps of the mix. */
  lemma Evaluates(seed: Word, repairId: Word, symbolId: Word, s: Quad, p: Quad, q: Quad, v: Quad, h: Quad, w: Quad)
    requires s.Value() == seed
    requires p.Value() == Times(repairId, REPAIR_FACTOR) && q.Value() == Times(symbolId, SYMBOL_FACTOR)
    requires var u := s.Xor(p).Xor(q); v.Value() == Times(u.Xor(u.High()).Value(), FIRST_FACTOR)
    requires h.Value() * 0x8000 <= v.Value() < (h.Value() + 1) * 0x8000
    requires w.Value() == Times(v.Xor(h).Value(), SECOND_FACTOR)
    ensures Mix(seed, repairId, symbolId) % 256 == Int(w.b0 ^ w.b2)
  {
    hide Galois.Xor, Shr, Times;
    var u := s.Xor(p).Xor(q);
    XorQuad(s, p);
    XorQuad(s.Xor(p), q);
    Folds16(u);
    Shifts();
    ShrIs(v.Value(), h.Value(), 15);
    XorQuad(v, h);
    Folds16(w);
    hide *;
    LastByte(w.Xor(w.High()));
  }

  lemma LastByte(q: Quad)
    ensures q.Value() % 256 == Int(q.b0)
  {
    hide Int;
  }

  lemma At0x0x0()
    ensures Coefficient(0, 0, 0) == 0x01
  {
    Evaluates(0, 0, 0,
              Quad(0x00, 0x00, 0x00, 0x00), Quad(0x00, 0x00, 0x00, 0x00), Quad(0x00, 0x00, 0x00, 0x00),
              Quad(0x00, 0x00, 0x00, 0x00), Quad(0x00, 0x00, 0x00, 0x00), Quad(0x00, 0x00, 0x00, 0x00));
  }

  lemma At0x0x1()
    ensures Coefficient(0, 0, 1) == 0x72
  {
    Evaluates(0, 0, 1,
              Quad(0x00, 0x00, 0x00, 0x00), Quad(0x00, 0x00, 0x00, 0x00), Quad(0x85, 0xeb, 0xca, 0x6b),
              Quad(0xbc, 0x52, 0x79, 0x80), Quad(0x00, 0x01, 0x78, 0xa4), Quad(0x1e, 0xfe, 0xf6, 0x8c));
  }

  lemma At0x1x0()
    ensures Coefficient(0, 1, 0) == 0x52
  {
    Evaluates(0, 1, 0,
              Quad(0x00, 0x00, 0x00, 0x00), Quad(0x9e, 0x37, 0x79, 0xb9), Quad(0x00, 0x00, 0x00, 0x00),
              Quad(0x64, 0x1e, 0x19, 0xf6), Quad(0x00, 0x00, 0xc8, 0x3c), Quad(0x01, 0xfc, 0xe4, 0xae));
  }

  lemma At0x1x1()
    ensures Coefficient(0, 1, 1) == 0x42
  {
    Evaluates(0, 1, 1,
              Quad(0x00, 0x00, 0x00, 0x00), Quad(0x9e, 0x37, 0x79, 0xb9), Quad(0x85, 0xeb, 0xca, 0x6b),
              Quad(0xcb, 0x6e, 0x70, 0x76), Quad(0x00, 0x01, 0x96, 0xdc), Quad(0xfd, 0x0c, 0x7a, 0x4e));
  }

  lemma At7x100x10()
    ensures Coefficient(7, 100, 10) == 0xef
  {
    Evaluates(7, 100, 10,
              Quad(0x00, 0x00, 0x00, 0x07), Quad(0xcd, 0xab, 0x8c, 0x44), Quad(0x3b, 0x35, 0xe8, 0x2e),
              Quad(0xa0, 0x5d, 0x23, 0xb7), Quad(0x00, 0x01, 0x40, 0xba), Quad(0x77, 0xe0, 0x36, 0x0f));
  }

  lemma At7x100x11()
    ensures Coefficient(7, 100, 11) == 0x2c
  {
    Evaluates(7, 100, 11,
              Quad(0x00, 0x00, 0x00, 0x07), Quad(0xcd, 0xab, 0x8c, 0x44), Quad(0xc1, 0x21, 0xb2, 0x99),
              Quad(0xb0, 0x25, 0x68, 0x10), Quad(0x00, 0x01, 0x60, 0x4a), Quad(0xee, 0xf2, 0xe4, 0xde));
  }

  lemma At7x101x10()
    ensures Coefficient(7, 101, 10) == 0x91
  {
    Evaluates(7, 101, 10,
              Quad(0x00, 0x00, 0x00, 0x07), Quad(0x6b, 0xe3, 0x05, 0xfd), Quad(0x3b, 0x35, 0xe8, 0x2e),
              Quad(0x29, 0xb6, 0xa3, 0x5a), Quad(0x00, 0x00, 0x53, 0x6d), Quad(0xf9, 0x4c, 0x17, 0xdd));
  }

  lemma At7x101x11()
    ensures Coefficient(7, 101, 11) == 0x8d
  {
    Evaluates(7, 101, 11,
              Quad(0x00, 0x00, 0x00, 0x07), Quad(0x6b, 0xe3, 0x05, 0xfd), Quad(0xc1, 0x21, 0xb2, 0x99),
              Quad(0x46, 0x0c, 0x8a, 0x4d), Quad(0x00, 0x00, 0x8c, 0x19), Quad(0xd0, 0x11, 0xe7, 0x9c));
  }

  lemma AtMost()
    ensures Coefficient(0xffff_ffff, 0xffff_ffff, 0xffff_ffff) == 0x30
  {
    Evaluates(0xffff_ffff, 0xffff_ffff, 0xffff_ffff,
              Quad(0xff, 0xff, 0xff, 0xff), Quad(0x61, 0xc8, 0x86, 0x47), Quad(0x7a, 0x14, 0x35, 0x95),
              Quad(0xb2, 0xe9, 0x70, 0x76), Quad(0x00, 0x01, 0x65, 0xd2), Quad(0x53, 0x3c, 0x18, 0x0c));
  }

  /** The vectors the repository pins. */
  lemma CoefficientVectors()
    ensures Coefficient(0, 0, 0) == 0x01
    ensures Coefficient(7, 100, 10) == 0xef && Coefficient(7, 100, 11) == 0x2c
    ensures Coefficient(7, 101, 10) == 0x91 && Coefficient(7, 101, 11) == 0x8d
    ensures Coefficient(0xffff_ffff, 0xffff_ffff, 0xffff_ffff) == 0x30
  {
    hide Coefficient;
    At0x0x0();
    At7x100x10();
    At7x100x11();
    At7x101x10();
    At7x101x11();
    AtMost();
  }

  // ----- products

  function Twice(a: bv8): bv8 {
    if a & 0x80 == 0 then a << 1 else (a << 1) ^ 0x1d
  }

  function Product(a: bv8, b: bv8): bv8
    decreases b
  {
    if b == 0 then 0 else (if b & 1 == 0 then 0 else a) ^ Product(Twice(a), b >> 1)
  }

  lemma DoubleByte(a: bv8)
    ensures Int(a << 1) == Double(Int(a))
    ensures a & 0x80 == 0 <==> Int(a) < 128
  {
  }

  lemma TwiceIsShift(a: bv8)
    ensures Int(Twice(a)) == Shift(Int(a))
  {
    DoubleByte(a);
    hide Galois.Xor, Int, Double;
    XorByte(a << 1, 0x1d);
    AddUnits(Int(a << 1));
    Reduction();
  }

  lemma Reduction()
    ensures Int(0x1d) == REDUCTION
  {
  }

  lemma {:induction false} ProductIsMul(a: bv8, b: bv8)
    ensures Int(Product(a, b)) == Mul(Int(a), Int(b))
    decreases b
  {
    hide Galois.Xor, Int, Mul, Twice, Shift;
    MulUnfold(Int(a), Int(b));
    ZeroByte(0);
    if b != 0 {
      HalfByte(b);
      LastBit(b);
      TwiceIsShift(a);
      ProductIsMul(Twice(a), b >> 1);
      XorByte(if b & 1 == 0 then 0 else a, Product(Twice(a), b >> 1));
    }
  }

  lemma Multiplies(a: bv8, b: bv8, twice: bv8, half: bv8, rest: bv8, out: bv8)
    requires b != 0 && twice == Twice(a) && half == b >> 1 && Product(twice, half) == rest
    requires out == if b & 1 == 0 then rest else a ^ rest
    ensures Product(a, b) == out
  {
  }

  lemma Product72x52()
    ensures Product(0x72, 0x52) == 0x46
  {
    assert Product(0xbf, 0) == 0;
    hide Product;
    Multiplies(0xd1, 0x01, 0xbf, 0x00, 0x00, 0xd1);
    Multiplies(0xe6, 0x02, 0xd1, 0x01, 0xd1, 0xd1);
    Multiplies(0x73, 0x05, 0xe6, 0x02, 0xd1, 0xa2);
    Multiplies(0xb7, 0x0a, 0x73, 0x05, 0xa2, 0xa2);
    Multiplies(0xd5, 0x14, 0xb7, 0x0a, 0xa2, 0xa2);
    Multiplies(0xe4, 0x29, 0xd5, 0x14, 0xa2, 0x46);
    Multiplies(0x72, 0x52, 0xe4, 0x29, 0x46, 0x46);
  }

  lemma Productefx8d()
    ensures Product(0xef, 0x8d) == 0xd5
  {
    assert Product(0x09, 0) == 0;
    hide Product;
    Multiplies(0x8a, 0x01, 0x09, 0x00, 0x00, 0x8a);
    Multiplies(0x45, 0x02, 0x8a, 0x01, 0x8a, 0x8a);
    Multiplies(0xac, 0x04, 0x45, 0x02, 0x8a, 0x8a);
    Multiplies(0x56, 0x08, 0xac, 0x04, 0x8a, 0x8a);
    Multiplies(0x2b, 0x11, 0x56, 0x08, 0x8a, 0xa1);
    Multiplies(0x9b, 0x23, 0x2b, 0x11, 0xa1, 0x3a);
    Multiplies(0xc3, 0x46, 0x9b, 0x23, 0x3a, 0x3a);
    Multiplies(0xef, 0x8d, 0xc3, 0x46, 0x3a, 0xd5);
  }

  lemma Product2cx91()
    ensures Product(0x2c, 0x91) == 0x55
  {
    assert Product(0x1b, 0) == 0;
    hide Product;
    Multiplies(0x83, 0x01, 0x1b, 0x00, 0x00, 0x83);
    Multiplies(0xcf, 0x02, 0x83, 0x01, 0x83, 0x83);
    Multiplies(0xe9, 0x04, 0xcf, 0x02, 0x83, 0x83);
    Multiplies(0xfa, 0x09, 0xe9, 0x04, 0x83, 0x79);
    Multiplies(0x7d, 0x12, 0xfa, 0x09, 0x79, 0x79);
    Multiplies(0xb0, 0x24, 0x7d, 0x12, 0x79, 0x79);
    Multiplies(0x58, 0x48, 0xb0, 0x24, 0x79, 0x79);
    Multiplies(0x2c, 0x91, 0x58, 0x48, 0x79, 0x55);
  }

  lemma Products()
    ensures Mul(0x01, 0x42) == 0x42 && Mul(0x72, 0x52) == 0x46
    ensures Mul(0xef, 0x8d) == 0xd5 && Mul(0x2c, 0x91) == 0x55
  {
    hide Mul, Product;
    MulUnits(0x42);
    Product72x52();
    ProductIsMul(0x72, 0x52);
    Productefx8d();
    ProductIsMul(0xef, 0x8d);
    Product2cx91();
    ProductIsMul(0x2c, 0x91);
  }
}
