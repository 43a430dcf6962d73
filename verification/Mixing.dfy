/** The 32-bit mix behind repair coefficients: a bijection of each of its inputs (src/fec.rs, `coefficient`). */
module Mixing {
  import opened Galois

  const WORD: nat := 0x1_0000_0000
  const REPAIR_FACTOR: nat := 0x9e37_79b9
  const SYMBOL_FACTOR: nat := 0x85eb_ca6b
  const FIRST_FACTOR: nat := 0x7feb_352d
  const SECOND_FACTOR: nat := 0x846c_a68b

  // Inverses of the odd factors above modulo 2^32.
  const REPAIR_INVERSE: nat := 0x144c_bc89
  const SYMBOL_INVERSE: nat := 0xa5cb_9243
  const FIRST_INVERSE: nat := 0x1d69_e2a5
  const SECOND_INVERSE: nat := 0x4302_1123

  type Word = x: int | 0 <= x < WORD

  function Times(a: Word, factor: nat): Word {
    a * factor % WORD
  }

  function Shr(a: nat, n: nat): (r: nat)
    ensures r <= a
    decreases n
  {
    if n == 0 then a else Shr(a / 2, n - 1)
  }

  /** `value ^= value >> 16`. */
  function Fold16(a: Word): Word {
    XorWord(a, Shr(a, 16)); Xor(a, Shr(a, 16))
  }

  /** `value ^= value >> 15`. */
  function Fold15(a: Word): Word {
    XorWord(a, Shr(a, 15)); Xor(a, Shr(a, 15))
  }

  function Combine(seed: Word, repairId: Word, symbolId: Word): Word {
    XorWord(seed, Times(repairId, REPAIR_FACTOR));
    XorWord(Xor(seed, Times(repairId, REPAIR_FACTOR)), Times(symbolId, SYMBOL_FACTOR));
    Xor(Xor(seed, Times(repairId, REPAIR_FACTOR)), Times(symbolId, SYMBOL_FACTOR))
  }

  function Scramble(v: Word): Word {
    Fold16(Times(Fold15(Times(Fold16(v), FIRST_FACTOR)), SECOND_FACTOR))
  }

  /** The word whose low byte gives the coefficient. */
  function Mix(seed: Word, repairId: Word, symbolId: Word): Word {
    Scramble(Combine(seed, repairId, symbolId))
  }

  // ----- exclusive or of words

  lemma {:induction false} ExpIsPower(n: nat)
    ensures PowerOfTwo(Exp2(n))
  {
    if n != 0 {
      ExpIsPower(n - 1);
    }
  }

  lemma Exponents()
    ensures Exp2(31) == 0x8000_0000 && Exp2(32) == WORD
  {
    assert Exp2(8) == 0x100 && Exp2(16) == 0x1_0000 && Exp2(24) == 0x100_0000;
  }

  lemma WordWidth()
    ensures PowerOfTwo(0x8000_0000)
  {
    ExpIsPower(31);
    assert Exp2(31) == 0x8000_0000 by { Exponents(); }
  }

  lemma XorWord(a: Word, b: Word)
    ensures Xor(a, b) < WORD
  {
    WordWidth();
    XorTopBit(a, b, 0x8000_0000);
  }

  lemma XorBack(a: nat, b: nat)
    ensures Xor(Xor(a, b), b) == a
  {
    XorAssociates(a, b, b);
    XorSelf(b);
    XorZero(a);
  }

  // ----- shifts

  lemma {:induction false} ShrAdds(a: nat, m: nat, n: nat)
    ensures Shr(a, m + n) == Shr(Shr(a, m), n)
  {
    if m != 0 {
      ShrAdds(a / 2, m - 1, n);
    }
  }

  lemma {:induction false} ShrZero(a: nat, n: nat)
    requires a < Exp2(n)
    ensures Shr(a, n) == 0
  {
    if n != 0 {
      ShrZero(a / 2, n - 1);
    }
  }

  /** Shifting both operands right shifts the result. */
  lemma {:induction false} XorShifts(a: nat, b: nat, n: nat)
    ensures Shr(Xor(a, b), n) == Xor(Shr(a, n), Shr(b, n))
  {
    if n != 0 {
      hide Xor;
      XorHalf(a, b);
      XorShifts(a / 2, b / 2, n - 1);
    }
  }

  lemma WordShifts(a: Word, n: nat)
    requires n >= 32
    ensures Shr(a, n) == 0
  {
    Exponents();
    ShrZero(a, 32);
    ShrAdds(a, 32, n - 32);
  }

  // ----- each step can be undone

  /** Folding by half a word is its own inverse. */
  lemma Unfold16(a: Word)
    ensures Fold16(Fold16(a)) == a
  {
    hide Xor, Shr;
    var h := Shr(a, 16);
    XorShifts(a, h, 16);
    ShrAdds(a, 16, 16);
    WordShifts(a, 32);
    XorZero(h);
    XorBack(a, h);
  }

  function Unfold15(b: Word): Word {
    XorWord(b, Shr(b, 15));
    XorWord(Xor(b, Shr(b, 15)), Shr(b, 30));
    Xor(Xor(b, Shr(b, 15)), Shr(b, 30))
  }

  lemma Unfolds15(a: Word)
    ensures Unfold15(Fold15(a)) == a
  {
    hide Xor, Shr;
    var h, t, b := Shr(a, 15), Shr(a, 30), Fold15(a);
    XorShifts(a, h, 15);
    ShrAdds(a, 15, 15);
    XorShifts(a, h, 30);
    ShrAdds(a, 15, 30);
    WordShifts(a, 45);
    XorZero(t);
    assert Shr(b, 15) == Xor(h, t) && Shr(b, 30) == t;
    XorAssociates(a, h, Xor(h, t));
    XorAssociates(h, h, t);
    XorSelf(h);
    XorZero(t);
    XorBack(a, t);
  }

  /** Multiplying by an odd factor is undone by its inverse modulo 2^32. */
  lemma TimesBack(a: Word, factor: nat, inverse: nat)
    requires factor * inverse % WORD == 1
    ensures Times(Times(a, factor), inverse) == a
  {
    var k, q, r := factor * inverse / WORD, a * factor / WORD, a * factor % WORD;
    assert factor * inverse == k * WORD + 1;
    assert a * factor == q * WORD + r;
    var d := a * k - q * inverse;
    assert r * inverse == d * WORD + a by {
      assert r * inverse == a * factor * inverse - q * WORD * inverse;
      assert a * factor * inverse == a * (k * WORD + 1);
    }
    Remainder(r * inverse, d, a);
  }

  lemma Remainder(n: int, d: int, a: Word)
    requires n == d * WORD + a
    ensures n % WORD == a
  {
  }

  lemma Inverses()
    ensures REPAIR_FACTOR * REPAIR_INVERSE % WORD == 1 && SYMBOL_FACTOR * SYMBOL_INVERSE % WORD == 1
    ensures FIRST_FACTOR * FIRST_INVERSE % WORD == 1 && SECOND_FACTOR * SECOND_INVERSE % WORD == 1
  {
  }

  function Unscramble(v: Word): Word {
    Fold16(Times(Unfold15(Times(Fold16(v), SECOND_INVERSE)), FIRST_INVERSE))
  }

  lemma Unscrambles(v: Word)
    ensures Unscramble(Scramble(v)) == v
  {
    hide Fold16, Fold15, Unfold15, Times;
    var v1 := Fold16(v);
    var v2 := Times(v1, FIRST_FACTOR);
    var v3 := Fold15(v2);
    var v4 := Times(v3, SECOND_FACTOR);
    Inverses();
    Unfold16(v4);
    TimesBack(v3, SECOND_FACTOR, SECOND_INVERSE);
    Unfolds15(v2);
    TimesBack(v1, FIRST_FACTOR, FIRST_INVERSE);
    Unfold16(v);
  }

  // ----- the mix determines each input from the other two

  function RepairOf(mixed: Word, seed: Word, symbolId: Word): Word {
    var v := Unscramble(mixed);
    XorWord(v, Times(symbolId, SYMBOL_FACTOR));
    XorWord(Xor(v, Times(symbolId, SYMBOL_FACTOR)), seed);
    Times(Xor(Xor(v, Times(symbolId, SYMBOL_FACTOR)), seed), REPAIR_INVERSE)
  }

  function SymbolOf(mixed: Word, seed: Word, repairId: Word): Word {
    var v := Unscramble(mixed);
    XorWord(seed, Times(repairId, REPAIR_FACTOR));
    XorWord(v, Xor(seed, Times(repairId, REPAIR_FACTOR)));
    Times(Xor(v, Xor(seed, Times(repairId, REPAIR_FACTOR))), SYMBOL_INVERSE)
  }

  function SeedOf(mixed: Word, repairId: Word, symbolId: Word): Word {
    var v := Unscramble(mixed);
    XorWord(v, Times(symbolId, SYMBOL_FACTOR));
    XorWord(Xor(v, Times(symbolId, SYMBOL_FACTOR)), Times(repairId, REPAIR_FACTOR));
    Xor(Xor(v, Times(symbolId, SYMBOL_FACTOR)), Times(repairId, REPAIR_FACTOR))
  }

  /** Each id, and the seed, can be computed back from the mixed word and the other two. */
  lemma MixInverts(seed: Word, repairId: Word, symbolId: Word)
    ensures RepairOf(Mix(seed, repairId, symbolId), seed, symbolId) == repairId
    ensures SymbolOf(Mix(seed, repairId, symbolId), seed, repairId) == symbolId
    ensures SeedOf(Mix(seed, repairId, symbolId), repairId, symbolId) == seed
  {
    hide Times, Xor, Scramble, Unscramble;
    var p, q := Times(repairId, REPAIR_FACTOR), Times(symbolId, SYMBOL_FACTOR);
    Unscrambles(Combine(seed, repairId, symbolId));
    Inverses();
    XorBack(Xor(seed, p), q);
    XorBack(seed, p);
    XorCommutes(seed, p);
    XorBack(p, seed);
    TimesBack(repairId, REPAIR_FACTOR, REPAIR_INVERSE);
    XorCommutes(Xor(seed, p), q);
    XorBack(q, Xor(seed, p));
    TimesBack(symbolId, SYMBOL_FACTOR, SYMBOL_INVERSE);
  }

  /** For a fixed seed and symbol, distinct repairs mix to distinct words; likewise symbols and seeds. */
  lemma MixInjective(seed: Word, repairId: Word, symbolId: Word, other: Word)
    ensures Mix(seed, repairId, symbolId) == Mix(seed, other, symbolId) ==> repairId == other
    ensures Mix(seed, repairId, symbolId) == Mix(seed, repairId, other) ==> symbolId == other
    ensures Mix(seed, repairId, symbolId) == Mix(other, repairId, symbolId) ==> seed == other
  {
    hide Mix, RepairOf, SymbolOf, SeedOf;
    MixInverts(seed, repairId, symbolId);
    MixInverts(seed, other, symbolId);
    MixInverts(seed, repairId, other);
    MixInverts(other, repairId, symbolId);
  }
}
