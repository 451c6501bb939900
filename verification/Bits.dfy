/** Bitwise operations on 64-bit words, over mathematical integers.
    `And`, `Or` and the shifts work bit by bit; `AndSplit` and `OrSplit` cut an
    operation at any bit position, which is how masks become div/mod arithmetic. */
module Bits {
  type Word = x: int | 0 <= x < 0x1_0000_0000_0000_0000

  /** An unsigned long: arithmetic wraps at 2^64. */
  function U64(x: int): Word {
    if 0 <= x < 0x1_0000_0000_0000_0000 then x else x % 0x1_0000_0000_0000_0000
  }

  function Pow2(k: nat): (p: nat)
    ensures p > 0
  {
    if k == 0 then 1 else 2 * Pow2(k - 1)
  }

  function And(a: nat, b: nat): (r: nat)
    ensures r <= a && r <= b
  {
    if a == 0 || b == 0 then 0
    else 2 * And(a / 2, b / 2) + (if a % 2 == 1 && b % 2 == 1 then 1 else 0)
  }

  function Or(a: nat, b: nat): (r: nat)
    ensures a <= r <= a + b && b <= r
  {
    if a == 0 then b else if b == 0 then a
    else 2 * Or(a / 2, b / 2) + (if a % 2 == 1 || b % 2 == 1 then 1 else 0)
  }

  function Shr(a: nat, k: nat): (r: nat)
    ensures r <= a
    decreases k
  {
    if k == 0 then a else Shr(a / 2, k - 1)
  }

  function Shl(a: nat, k: nat): Word { U64(a * Pow2(k)) }

  /** Bitwise complement of a 64-bit word. */
  function Not(a: Word): Word { 0xFFFF_FFFF_FFFF_FFFF - a }

  // ----- division with the quotient given -----

  lemma MulOrder(a: int, b: int, d: nat)
    requires a <= b
    ensures a * d <= b * d
  {
    assert (b - a) * d >= 0;
    assert b * d == a * d + (b - a) * d;
  }

  lemma MulNext(a: int, d: int)
    ensures (a + 1) * d == a * d + d
  {
  }

  lemma DivisionParts(x: int, d: int)
    requires d > 0
    ensures x == x / d * d + x % d && 0 <= x % d < d
  {
  }

  /** Quotient and remainder are the only such numbers. */
  lemma Unique(d: int, q: int, t: int, q': int, t': int)
    requires d > 0 && q * d + t == q' * d + t' && 0 <= t < d && 0 <= t' < d
    ensures q == q' && t == t'
  {
    if q < q' {
      MulOrder(q + 1, q', d);
      MulNext(q, d);
    } else if q' < q {
      MulOrder(q' + 1, q, d);
      MulNext(q', d);
    }
  }

  lemma Quotient(x: int, d: int, q: int, t: int)
    requires d > 0 && x == q * d + t && 0 <= t < d
    ensures x / d == q && x % d == t
  {
    DivisionParts(x, d);
    Unique(d, x / d, x % d, q, t);
  }

  // ----- cutting an operation at bit k -----

  /** One more bit: the operation on the halves decides it on the doubles. */
  lemma AndDouble(a: nat, y: nat, w: nat, v: nat, c: nat)
    requires And(a + y / 2, w + v / 2) == c + And(y / 2, v / 2)
    ensures And(2 * a + y, 2 * w + v) == 2 * c + And(y, v)
  {
    hide And;
    AndUnfold(2 * a + y, 2 * w + v);
    AndUnfold(y, v);
  }

  lemma {:induction false} AndSplit(x: nat, y: nat, u: nat, v: nat, k: nat)
    requires y < Pow2(k) && v < Pow2(k)
    ensures And(x * Pow2(k) + y, u * Pow2(k) + v) == And(x, u) * Pow2(k) + And(y, v)
  {
    hide And;
    if k == 0 {
      AndUnfold(0, 0);
    } else {
      var p, y', v' := Pow2(k - 1), y / 2, v / 2;
      AndSplit(x, y', u, v', k - 1);
      DoubleProduct(x, p);
      DoubleProduct(u, p);
      DoubleProduct(And(x, u), p);
      AndDouble(x * p, y, u * p, v, And(x, u) * p);
    }
  }

  /** One more bit: the operation on the halves decides it on the doubles. */
  lemma OrDouble(a: nat, y: nat, w: nat, v: nat, c: nat)
    requires Or(a + y / 2, w + v / 2) == c + Or(y / 2, v / 2)
    ensures Or(2 * a + y, 2 * w + v) == 2 * c + Or(y, v)
  {
    hide Or;
    OrUnfold(2 * a + y, 2 * w + v);
    OrUnfold(y, v);
  }

  lemma {:induction false} OrSplit(x: nat, y: nat, u: nat, v: nat, k: nat)
    requires y < Pow2(k) && v < Pow2(k)
    ensures Or(x * Pow2(k) + y, u * Pow2(k) + v) == Or(x, u) * Pow2(k) + Or(y, v)
  {
    hide Or;
    if k == 0 {
      OrUnfold(0, 0);
    } else {
      var p, y', v' := Pow2(k - 1), y / 2, v / 2;
      OrSplit(x, y', u, v', k - 1);
      DoubleProduct(x, p);
      DoubleProduct(u, p);
      DoubleProduct(Or(x, u), p);
      OrDouble(x * p, y, u * p, v, Or(x, u) * p);
    }
  }

  lemma DoubleProduct(x: nat, p: nat)
    ensures x * (2 * p) == 2 * (x * p) && x * p >= 0
  {
  }

  lemma HalfOfSum(x: nat, y: nat, p: nat)
    ensures x * (2 * p) == 2 * (x * p)
    ensures (x * (2 * p) + y) / 2 == x * p + y / 2
    ensures (x * (2 * p) + y) % 2 == y % 2
  {
    assert x * (2 * p) == 2 * (x * p);
    Quotient(x * (2 * p) + y, 2, x * p + y / 2, y % 2);
  }

  /** One unfolding that also covers zero operands. */
  lemma AndUnfold(a: nat, b: nat)
    ensures And(a, b) == 2 * And(a / 2, b / 2) + (if a % 2 == 1 && b % 2 == 1 then 1 else 0)
  {
  }

  lemma OrUnfold(a: nat, b: nat)
    ensures Or(a, b) == 2 * Or(a / 2, b / 2) + (if a % 2 == 1 || b % 2 == 1 then 1 else 0)
  {
  }

  lemma {:induction false} ShrSplit(x: nat, y: nat, k: nat)
    requires y < Pow2(k)
    ensures Shr(x * Pow2(k) + y, k) == x
  {
    if k > 0 {
      HalfOfSum(x, y, Pow2(k - 1));
      ShrSplit(x, y / 2, k - 1);
    }
  }

  /** A mask of k ones keeps exactly the low k bits. */
  lemma {:induction false} AndLow(x: nat, y: nat, k: nat)
    requires y < Pow2(k)
    ensures And(x * Pow2(k) + y, Pow2(k) - 1) == y
  {
    var ones := Pow2(k) - 1;
    AndSplit(x, y, 0, ones, k);
    assert 0 * Pow2(k) + ones == ones;
    calc {
      And(x * Pow2(k) + y, ones);
      And(x, 0) * Pow2(k) + And(y, ones);
      { assert And(x, 0) == 0; }
      And(y, ones);
      { AndOnes(y, k); }
      y;
    }
  }

  lemma {:induction false} AndOnes(y: nat, k: nat)
    requires y < Pow2(k)
    ensures And(y, Pow2(k) - 1) == y
  {
    if k > 0 {
      hide And;
      var h, b := y / 2, y % 2;
      Quotient(Pow2(k) - 1, 2, Pow2(k - 1) - 1, 1);
      AndOnes(h, k - 1);
      AndUnfold(y, Pow2(k) - 1);
    }
  }

  /** A mask with k low zeros leaves the high part to the high mask. */
  lemma {:induction false} AndHigh(x: nat, y: nat, w: nat, k: nat)
    requires y < Pow2(k)
    ensures And(x * Pow2(k) + y, w * Pow2(k)) == And(x, w) * Pow2(k)
  {
    AndSplit(x, y, w, 0, k);
    assert And(y, 0) == 0;
  }

  /** OR stays within k bits, and is zero only for zeros. */
  lemma {:induction false} OrBelow(y: nat, v: nat, k: nat)
    requires y < Pow2(k) && v < Pow2(k)
    ensures Or(y, v) < Pow2(k)
    ensures Or(y, v) == 0 <==> y == 0 && v == 0
  {
    if k > 0 {
      OrBelow(y / 2, v / 2, k - 1);
      OrUnfold(y, v);
    }
  }

  // ----- the masks and shifts the page-table code uses -----

  lemma Powers()
    ensures Pow2(1) == 2 && Pow2(2) == 4 && Pow2(9) == 512 && Pow2(12) == 0x1000
    ensures Pow2(21) == 0x20_0000 && Pow2(30) == 0x4000_0000 && Pow2(39) == 0x80_0000_0000
    ensures Pow2(25) == 0x200_0000 && Pow2(34) == 0x4_0000_0000 && Pow2(36) == 0x10_0000_0000
    ensures Pow2(43) == 0x800_0000_0000 && Pow2(52) == 0x10_0000_0000_0000
    ensures Pow2(62) == 0x4000_0000_0000_0000
    ensures Pow2(7) == 0x80 && Pow2(10) == 0x400 && Pow2(51) == 0x8_0000_0000_0000 && Pow2(56) == 0x100_0000_0000_0000
  {
  }

  lemma LowMask(a: nat)
    ensures And(a, 3) == a % 4
    ensures And(a, 0x1FF) == a % 0x200
    ensures And(a, 0x1F_FFFF) == a % 0x20_0000
  {
    hide And, Pow2;
    Powers();
    AndLow(a / 4, a % 4, 2);
    AndLow(a / 0x200, a % 0x200, 9);
    AndLow(a / 0x20_0000, a % 0x20_0000, 21);
  }

  lemma ClearLow(q: nat, r: nat, m: nat, k: nat)
    requires q < Pow2(m) && r < Pow2(k)
    ensures And(q * Pow2(k) + r, (Pow2(m) - 1) * Pow2(k)) == q * Pow2(k)
  {
    hide And;
    AndHigh(q, r, Pow2(m) - 1, k);
    AndOnes(q, m);
  }

  lemma ClearLow12(x: Word)
    ensures And(x, Not(0xFFF)) == x - x % 0x1000
  {
    hide And, Pow2;
    Powers();
    ClearLow(x / 0x1000, x % 0x1000, 52, 12);
  }

  lemma ClearLow21(x: Word)
    ensures And(x, Not(0x1F_FFFF)) == x - x % 0x20_0000
  {
    hide And, Pow2;
    Powers();
    ClearLow(x / 0x20_0000, x % 0x20_0000, 43, 21);
  }

  lemma ClearLow30(x: Word)
    ensures And(x, Not(0x3FFF_FFFF)) == x - x % 0x4000_0000
  {
    hide And, Pow2;
    Powers();
    ClearLow(x / 0x4000_0000, x % 0x4000_0000, 34, 30);
  }

  lemma ClearLow39(x: Word)
    ensures And(x, Not(0x7F_FFFF_FFFF)) == x - x % 0x80_0000_0000
  {
    hide And, Pow2;
    Powers();
    ClearLow(x / 0x80_0000_0000, x % 0x80_0000_0000, 25, 39);
  }

  lemma AddressMask(d: Word)
    ensures And(d, 0xFFFF_FFFF_F000) == d % 0x1_0000_0000_0000 - d % 0x1000
  {
    var p, r := d / 0x1000, d % 0x1000;
    AddressFields(d, p / 0x10_0000_0000, p % 0x10_0000_0000, r);
  }

  lemma AddressFields(d: Word, q: nat, f: nat, r: nat)
    requires d == (q * 0x10_0000_0000 + f) * 0x1000 + r && f < 0x10_0000_0000 && r < 0x1000
    ensures And(d, 0xFFFF_FFFF_F000) == f * 0x1000
    ensures d % 0x1_0000_0000_0000 == f * 0x1000 + r && d % 0x1000 == r
  {
    hide And, Pow2;
    Powers();
    Quotient(d, 0x1_0000_0000_0000, q, f * 0x1000 + r);
    Quotient(d, 0x1000, q * 0x10_0000_0000 + f, r);
    AndHigh(q * 0x10_0000_0000 + f, r, 0xF_FFFF_FFFF, 12);
    AndLow(q, f, 36);
  }

  lemma Shl12(a: nat)
    requires a < 0x10_0000_0000_0000
    ensures Shl(a, 12) == a * 0x1000
  {
    hide Pow2;
    Powers();
  }

  lemma Shl21(a: nat)
    requires a < 0x800_0000_0000
    ensures Shl(a, 21) == a * 0x20_0000
  {
    hide Pow2;
    Powers();
  }

  lemma Shr12(a: nat)
    ensures Shr(a, 12) == a / 0x1000
  {
    hide Shr, Pow2;
    Powers();
    ShrSplit(a / 0x1000, a % 0x1000, 12);
  }

  lemma Shr21(a: nat)
    ensures Shr(a, 21) == a / 0x20_0000
  {
    hide Shr, Pow2;
    Powers();
    ShrSplit(a / 0x20_0000, a % 0x20_0000, 21);
  }

  lemma Shr30(a: nat)
    ensures Shr(a, 30) == a / 0x4000_0000
  {
    hide Shr, Pow2;
    Powers();
    ShrSplit(a / 0x4000_0000, a % 0x4000_0000, 30);
  }

  lemma Shr39(a: nat)
    ensures Shr(a, 39) == a / 0x80_0000_0000
  {
    hide Shr, Pow2;
    Powers();
    ShrSplit(a / 0x80_0000_0000, a % 0x80_0000_0000, 39);
  }

  /** Clearing bit 1. */
  lemma ClearBit1(d: Word)
    ensures And(d, Not(2)) == d - d % 4 + d % 2
  {
    hide And, Pow2;
    Powers();
    AndSplit(d / 4, d % 4, 0x3FFF_FFFF_FFFF_FFFF, 1, 2);
    AndOnes(d / 4, 62);
    AndLow(d % 4 / 2, d % 2, 1);
  }

  /** OR-ing a page address (bits 47..12) into a word that has none adds it. */
  lemma OrAddress(pa: nat, prot: Word)
    requires pa % 0x1000 == 0 && pa < 0x1_0000_0000_0000 && prot % 0x1_0000_0000_0000 < 0x1000
    ensures Or(pa, prot) == pa + prot
  {
    hide Or, Pow2;
    Powers();
    var pfn, hi, lo := pa / 0x1000, prot / 0x1_0000_0000_0000, prot % 0x1_0000_0000_0000;
    OrSplit(pfn, 0, hi * 0x10_0000_0000, lo, 12);
    OrSplit(0, pfn, hi, 0, 36);
  }

  /** The low 21 bits of an OR are zero just when both operands' are. */
  lemma OrLowZero(a: nat, b: nat)
    ensures Or(a, b) % 0x20_0000 == 0 <==> a % 0x20_0000 == 0 && b % 0x20_0000 == 0
  {
    hide Or, Pow2;
    Powers();
    OrSplitMod(a / 0x20_0000, a % 0x20_0000, b / 0x20_0000, b % 0x20_0000);
  }

  lemma OrSplitMod(x: nat, y: nat, u: nat, v: nat)
    requires y < 0x20_0000 && v < 0x20_0000
    ensures Or(x * 0x20_0000 + y, u * 0x20_0000 + v) % 0x20_0000 == 0 <==> y == 0 && v == 0
  {
    hide Or, Pow2;
    var whole := Or(x * 0x20_0000 + y, u * 0x20_0000 + v);
    var q, r := Or(x, u), Or(y, v);
    assert whole == q * 0x20_0000 + r by { Powers(); OrSplit(x, y, u, v, 21); }
    assert r < 0x20_0000 && (r == 0 <==> y == 0 && v == 0) by { Powers(); OrBelow(y, v, 21); }
    RemainderOfSum(whole, q, r);
  }

  lemma RemainderOfSum(w: nat, q: nat, r: nat)
    requires w == q * 0x20_0000 + r && r < 0x20_0000
    ensures w % 0x20_0000 == r
  {
  }

  // ----- single bits -----

  lemma OrOneBit(q: nat, r: nat, k: nat)
    requires r < Pow2(k)
    ensures Or(q * Pow2(k) + r, Pow2(k)) == (q + 1 - q % 2) * Pow2(k) + r
  {
    hide Or;
    OrSplit(q, r, 1, 0, k);
    assert 1 * Pow2(k) + 0 == Pow2(k);
    OrWithOne(q);
    OrWithZero(r);
  }

  lemma OrWithOne(q: nat)
    ensures Or(q, 1) == q + 1 - q % 2
  {
    OrUnfold(q, 1);
    OrWithZero(q / 2);
  }

  lemma OrWithZero(r: nat)
    ensures Or(r, 0) == r
  {
  }

  lemma ClearOneBit(q: nat, r: nat, k: nat, m: nat)
    requires r < Pow2(k) && q < 2 * Pow2(m)
    ensures And(q * Pow2(k) + r, (2 * Pow2(m) - 2) * Pow2(k) + (Pow2(k) - 1)) == (q - q % 2) * Pow2(k) + r
  {
    hide And;
    AndSplit(q, r, 2 * Pow2(m) - 2, Pow2(k) - 1, k);
    AndOnes(r, k);
    AndUnfold(q, 2 * Pow2(m) - 2);
    AndOnes(q / 2, m);
  }

  // ----- bit by bit -----

  /** Bit k of a number. */
  predicate Bit(w: nat, k: nat)
    decreases k
  {
    if k == 0 then w % 2 == 1 else Bit(w / 2, k - 1)
  }

  lemma {:induction false} BitOr(a: nat, b: nat, k: nat)
    ensures Bit(Or(a, b), k) <==> Bit(a, k) || Bit(b, k)
    decreases k
  {
    hide Or;
    OrUnfold(a, b);
    if k > 0 { BitOr(a / 2, b / 2, k - 1); }
  }

  lemma {:induction false} BitAnd(a: nat, b: nat, k: nat)
    ensures Bit(And(a, b), k) <==> Bit(a, k) && Bit(b, k)
    decreases k
  {
    hide And;
    AndUnfold(a, b);
    if k > 0 { BitAnd(a / 2, b / 2, k - 1); }
  }

  lemma {:induction false} BitFlip(w: nat, n: nat, k: nat)
    requires w < Pow2(n) && k < n
    ensures Bit(Pow2(n) - 1 - w, k) <==> !Bit(w, k)
    decreases k
  {
    var p := Pow2(n - 1);
    assert (2 * p - 1 - w) / 2 == p - 1 - w / 2;
    if k > 0 { BitFlip(w / 2, n - 1, k - 1); }
  }

  lemma {:induction false} BitOfPower(j: nat, k: nat)
    ensures Bit(Pow2(j), k) <==> j == k
    decreases k
  {
    if j == 0 { BitOfZero(k); }
    else if k > 0 { BitOfPower(j - 1, k - 1); }
  }

  lemma {:induction false} BitOfZero(k: nat)
    ensures !Bit(0, k) && (Bit(1, k) <==> k == 0)
    decreases k
  {
    if k > 0 { BitOfZero(k - 1); }
  }

  /** The operations of a 64-bit word, bit by bit. */
  lemma WordBits(a: Word, b: Word, k: nat)
    requires k < 64
    ensures Bit(U64(Or(a, b)), k) <==> Bit(a, k) || Bit(b, k)
    ensures Bit(And(a, b), k) <==> Bit(a, k) && Bit(b, k)
    ensures Bit(Not(a), k) <==> !Bit(a, k)
  {
    hide Or, And, Bit;
    assert Pow2(64) == 0x1_0000_0000_0000_0000 by { Powers(); assert Pow2(64) == 4 * Pow2(62); }
    OrBelow(a, b, 64);
    BitOr(a, b, k);
    BitAnd(a, b, k);
    BitFlip(a, 64, k);
  }
}
