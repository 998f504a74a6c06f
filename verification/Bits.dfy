/** 32-bit words read as sets of variables: bit `v` of a word stands for variable `v`.

    The word operators have names of their own so that a proof can hide what they compute and use
    only the law it needs: each law about words is a lemma with one conclusion. */
module Bits {
  const WIDTH: nat := 32

  datatype Word = Word(bits: bv32)

  function And(x: Word, y: Word): Word { Word(x.bits & y.bits) }
  function Or(x: Word, y: Word): Word { Word(x.bits | y.bits) }
  function Xor(x: Word, y: Word): Word { Word(x.bits ^ y.bits) }
  function Nor(x: Word, y: Word): Word { Word(!x.bits & !y.bits) }
  function AndNot(x: Word, y: Word): Word { Word(x.bits & !y.bits) }
  function Half(x: Word): Word { Word(x.bits >> 1) }
  function Double(x: Word): Word { Word(x.bits << 1) }
  predicate Odd(x: Word) { x.bits & 1 == 1 }

  /** The lowest set bit alone. */
  function LowBit(x: Word): Word { Word(x.bits & -x.bits) }

  /** The word without its lowest set bit. */
  function DropLow(x: Word): Word { Word(x.bits & (x.bits - 1)) }

  /** `(x >> v) & 1`, shifting one place at a time. */
  predicate Has(x: Word, v: nat)
    decreases v
  {
    if v == 0 then Odd(x) else Has(Half(x), v - 1)
  }

  /** `1 << v`, shifting one place at a time. */
  function Bit(v: nat): Word {
    if v == 0 then Word(1) else Double(Bit(v - 1))
  }

  /** The number whose lowest `w` binary digits are those of `x`. */
  function Number(x: Word, w: nat): nat
    decreases w
  {
    if w == 0 then 0 else (if Odd(x) then 1 else 0) + 2 * Number(Half(x), w - 1)
  }

  /** The unsigned comparison of two words. */
  predicate Less(x: Word, y: Word) {
    Number(x, WIDTH) < Number(y, WIDTH)
  }

  /** The variables whose bit is set. */
  function Vars(x: Word): set<nat> {
    set v: nat | v < WIDTH && Has(x, v)
  }

  /** The number of set bits, `__builtin_popcount`. */
  function Popcount(x: Word): nat {
    |Vars(x)|
  }

  /** `1 << k` as a number. */
  function Pow2(k: nat): nat {
    if k == 0 then 1 else 2 * Pow2(k - 1)
  }

  lemma {:induction false} PowMonotone(x: nat, y: nat)
    requires x <= y
    ensures Pow2(x) <= Pow2(y)
  {
    if x < y { PowMonotone(x, y - 1); }
  }

  // ---- Laws of words ----

  lemma HalfOr(x: Word, y: Word)
    ensures Half(Or(x, y)) == Or(Half(x), Half(y))
  {}

  lemma OddOr(x: Word, y: Word)
    ensures Odd(Or(x, y)) <==> Odd(x) || Odd(y)
  {}

  lemma HalfAnd(x: Word, y: Word)
    ensures Half(And(x, y)) == And(Half(x), Half(y))
  {}

  lemma OddAnd(x: Word, y: Word)
    ensures Odd(And(x, y)) <==> Odd(x) && Odd(y)
  {}

  lemma HalfXor(x: Word, y: Word)
    ensures Half(Xor(x, y)) == Xor(Half(x), Half(y))
  {}

  lemma OddXor(x: Word, y: Word)
    ensures Odd(Xor(x, y)) <==> Odd(x) != Odd(y)
  {}

  lemma HalfAndNot(x: Word, y: Word)
    ensures Half(AndNot(x, y)) == AndNot(Half(x), Half(y))
  {}

  lemma OddAndNot(x: Word, y: Word)
    ensures Odd(AndNot(x, y)) <==> Odd(x) && !Odd(y)
  {}

  lemma OrZeroRight(x: Word)
    ensures Or(x, Word(0)) == x
  {}

  lemma OrZeroLeft(x: Word)
    ensures Or(Word(0), x) == x
  {}

  lemma OrSwap(x: Word, y: Word, z: Word)
    ensures Or(Or(x, y), z) == Or(x, Or(z, y))
  {}

  lemma XorSymmetric(x: Word, y: Word)
    ensures Xor(x, y) == Xor(y, x)
  {}

  lemma HalfLowBit(x: Word)
    requires !Odd(x)
    ensures Half(LowBit(x)) == LowBit(Half(x))
  {}

  lemma OddLowBit(x: Word)
    ensures Odd(LowBit(x)) <==> Odd(x)
  {}

  lemma LowBitOfOdd(x: Word)
    requires Odd(x)
    ensures Half(LowBit(x)) == Word(0)
  {}

  lemma HalfDropLow(x: Word)
    requires !Odd(x)
    ensures Half(DropLow(x)) == DropLow(Half(x))
  {}

  lemma DropLowEven(x: Word)
    ensures !Odd(DropLow(x))
  {}

  lemma DropLowOfOdd(x: Word)
    requires Odd(x)
    ensures Half(DropLow(x)) == Half(x)
  {}

  lemma HalfDouble(x: Word)
    requires x.bits < 0x8000_0000
    ensures Half(Double(x)) == x
  {}

  lemma DoubleEven(x: Word)
    ensures !Odd(Double(x))
  {}

  lemma ZeroFromParts(x: Word)
    requires !Odd(x) && Half(x) == Word(0)
    ensures x == Word(0)
  {}

  lemma HalfZero()
    ensures Half(Word(0)) == Word(0) && !Odd(Word(0))
  {}

  lemma HalfOne()
    ensures Half(Word(1)) == Word(0) && Odd(Word(1))
  {}

  // ---- Laws of single bits ----

  lemma {:induction false} HasOr(x: Word, y: Word, v: nat)
    ensures Has(Or(x, y), v) <==> Has(x, v) || Has(y, v)
    decreases v
  {
    hide Or, Half, Odd;
    if v == 0 {
      OddOr(x, y);
    } else {
      HalfOr(x, y);
      HasOr(Half(x), Half(y), v - 1);
    }
  }

  lemma {:induction false} HasAnd(x: Word, y: Word, v: nat)
    ensures Has(And(x, y), v) <==> Has(x, v) && Has(y, v)
    decreases v
  {
    hide And, Half, Odd;
    if v == 0 {
      OddAnd(x, y);
    } else {
      HalfAnd(x, y);
      HasAnd(Half(x), Half(y), v - 1);
    }
  }

  lemma {:induction false} HasXor(x: Word, y: Word, v: nat)
    ensures Has(Xor(x, y), v) <==> Has(x, v) != Has(y, v)
    decreases v
  {
    hide Xor, Half, Odd;
    if v == 0 {
      OddXor(x, y);
    } else {
      HalfXor(x, y);
      HasXor(Half(x), Half(y), v - 1);
    }
  }

  lemma {:induction false} HasAndNot(x: Word, y: Word, v: nat)
    ensures Has(AndNot(x, y), v) <==> Has(x, v) && !Has(y, v)
    decreases v
  {
    hide AndNot, Half, Odd;
    if v == 0 {
      OddAndNot(x, y);
    } else {
      HalfAndNot(x, y);
      HasAndNot(Half(x), Half(y), v - 1);
    }
  }

  lemma {:induction false} HasZero(v: nat)
    ensures !Has(Word(0), v)
  {
    HalfZero();
    if v > 0 {
      HasZero(v - 1);
    }
  }

  lemma BitTable()
    ensures Bit(0).bits == 0x1 && Bit(1).bits == 0x2 && Bit(2).bits == 0x4 && Bit(3).bits == 0x8
    ensures Bit(4).bits == 0x10 && Bit(5).bits == 0x20 && Bit(6).bits == 0x40 && Bit(7).bits == 0x80
    ensures Bit(8).bits == 0x100 && Bit(9).bits == 0x200 && Bit(10).bits == 0x400 && Bit(11).bits == 0x800
    ensures Bit(12).bits == 0x1000 && Bit(13).bits == 0x2000 && Bit(14).bits == 0x4000 && Bit(15).bits == 0x8000
    ensures Bit(16).bits == 0x1_0000 && Bit(17).bits == 0x2_0000 && Bit(18).bits == 0x4_0000 && Bit(19).bits == 0x8_0000
    ensures Bit(20).bits == 0x10_0000 && Bit(21).bits == 0x20_0000 && Bit(22).bits == 0x40_0000 && Bit(23).bits == 0x80_0000
    ensures Bit(24).bits == 0x100_0000 && Bit(25).bits == 0x200_0000 && Bit(26).bits == 0x400_0000 && Bit(27).bits == 0x800_0000
    ensures Bit(28).bits == 0x1000_0000 && Bit(29).bits == 0x2000_0000 && Bit(30).bits == 0x4000_0000 && Bit(31).bits == 0x8000_0000
  {
  }

  lemma BitBelowTop(v: nat)
    requires v < WIDTH - 1
    ensures Bit(v).bits < 0x8000_0000
  {
    BitTable();
  }

  lemma BitPositive(v: nat)
    requires v < WIDTH - 1
    ensures Bit(v).bits > 0
  {
    BitTable();
  }

  lemma TopBit()
    ensures Bit(WIDTH - 1) == Word(0x8000_0000)
  {
    BitTable();
  }

  /** The word whose lowest `w` bits are set. */
  function Ones(w: nat): Word {
    if w < WIDTH then Pred(Bit(w)) else Word(0xFFFF_FFFF)
  }

  function Pred(y: Word): Word { Word(y.bits - 1) }

  lemma HalfPredDouble(y: Word)
    requires y.bits > 0
    requires y.bits < 0x8000_0000
    ensures Half(Pred(Double(y))) == Pred(y)
  {}

  lemma OddPredDouble(y: Word)
    ensures Odd(Pred(Double(y)))
  {}

  lemma HalfAllOnes()
    ensures Half(Word(0xFFFF_FFFF)) == Pred(Word(0x8000_0000)) && Odd(Word(0xFFFF_FFFF))
  {}

  lemma HalfOnes(w: nat)
    requires 0 < w <= WIDTH
    ensures Half(Ones(w)) == Ones(w - 1) && Odd(Ones(w))
  {
    hide Half, Double, Odd, Pred;
    if w == WIDTH {
      HalfAllOnes();
      TopBit();
    } else {
      BitBelowTop(w - 1);
      BitPositive(w - 1);
      HalfPredDouble(Bit(w - 1));
      OddPredDouble(Bit(w - 1));
    }
  }

  lemma {:induction false} HasOnes(w: nat, v: nat)
    requires v < w <= WIDTH
    ensures Has(Ones(w), v)
  {
    hide Half, Odd, Ones;
    HalfOnes(w);
    if v > 0 {
      HasOnes(w - 1, v - 1);
    }
  }

  lemma NorFromOnes(x: Word, y: Word)
    ensures Nor(x, y) == AndNot(Word(0xFFFF_FFFF), Or(x, y))
  {}

  lemma HasNor(x: Word, y: Word, v: nat)
    requires v < WIDTH
    ensures Has(Nor(x, y), v) <==> !Has(x, v) && !Has(y, v)
  {
    hide Nor, AndNot, Or, Has;
    NorFromOnes(x, y);
    HasOnes(WIDTH, v);
    HasOr(x, y, v);
    HasAndNot(Word(0xFFFF_FFFF), Or(x, y), v);
  }

  lemma {:induction false} HasBit(v: nat, u: nat)
    requires v < WIDTH
    ensures Has(Bit(v), u) <==> u == v
    decreases u
  {
    HalfOne();
    if v == 0 {
      if u > 0 { HasZero(u - 1); }
    } else {
      BitBelowTop(v - 1);
      HalfDouble(Bit(v - 1));
      DoubleEven(Bit(v - 1));
      if u > 0 { HasBit(v - 1, u - 1); }
    }
  }

  /** `x` has no bit at position `w` or above. */
  predicate Fits(x: Word, w: nat) {
    w < WIDTH ==> x.bits < Bit(w).bits
  }

  lemma HalfBelow(x: Word, y: Word)
    requires y.bits < 0x8000_0000 && x.bits < Double(y).bits
    ensures Half(x).bits < y.bits
  {}

  lemma HalfBelowTop(x: Word)
    ensures Half(x).bits < 0x8000_0000
  {}

  lemma HalfFits(x: Word, w: nat)
    requires Fits(x, w) && 0 < w <= WIDTH
    ensures Fits(Half(x), w - 1)
  {
    hide Half, Double;
    if w == WIDTH {
      HalfBelowTop(x);
      TopBit();
    } else {
      BitBelowTop(w - 1);
      HalfBelow(x, Bit(w - 1));
    }
  }

  lemma FitsZero(x: Word)
    ensures Fits(x, 0) <==> x == Word(0)
  {
  }

  lemma {:induction false} LowBitAt(x: Word, w: nat) returns (v: nat)
    requires w <= WIDTH && Fits(x, w) && x != Word(0)
    ensures v < w && Has(x, v)
    ensures forall u: nat :: Has(LowBit(x), u) <==> u == v
    ensures forall u: nat :: Has(DropLow(x), u) <==> Has(x, u) && u != v
    ensures forall u: nat :: Has(x, u) ==> v <= u
    decreases w
  {
    hide Half, Odd, LowBit, DropLow, Fits, Bit;
    FitsZero(x);
    OddLowBit(x);
    DropLowEven(x);
    if Odd(x) {
      v := 0;
      LowBitOfOdd(x);
      DropLowOfOdd(x);
      forall u: nat { HasZero(u); }
    } else {
      if Half(x) == Word(0) { ZeroFromParts(x); }
      HalfLowBit(x);
      HalfDropLow(x);
      HalfFits(x, w);
      var u := LowBitAt(Half(x), w - 1);
      v := u + 1;
      forall t: nat
        ensures Has(LowBit(x), t) <==> t == v
        ensures Has(DropLow(x), t) <==> Has(x, t) && t != v
        ensures Has(x, t) ==> v <= t
      {
        if t > 0 {
          assert Has(LowBit(Half(x)), t - 1) <==> t - 1 == u;
        }
      }
    }
  }

  // ---- Laws of variable sets ----

  lemma VarsXor(x: Word, y: Word)
    ensures Vars(Xor(x, y)) == (Vars(x) - Vars(y)) + (Vars(y) - Vars(x))
  {
    hide Xor, Has;
    forall v: nat { HasXor(x, y, v); }
  }

  lemma VarsEmpty(x: Word)
    ensures Vars(x) == {} <==> x == Word(0)
  {
    hide Has;
    if x != Word(0) {
      var v := LowBitAt(x, WIDTH);
      assert v in Vars(x);
    } else {
      forall v: nat { HasZero(v); }
    }
  }

  /** A word is determined by its variables. */
  lemma VarsInjective(x: Word, y: Word)
    ensures Vars(x) == Vars(y) <==> x == y
  {
    if Vars(x) == Vars(y) {
      VarsXor(x, y);
      VarsEmpty(Xor(x, y));
      XorZero(x, y);
    }
  }

  lemma XorZero(x: Word, y: Word)
    requires Xor(x, y) == Word(0)
    ensures x == y
  {}

  lemma {:induction false} NumberDigits(x: Word, y: Word, w: nat, v: nat)
    requires Number(x, w) == Number(y, w) && v < w
    ensures Has(x, v) <==> Has(y, v)
    decreases w
  {
    hide Odd, Half;
    if v > 0 {
      NumberDigits(Half(x), Half(y), w - 1, v - 1);
    }
  }

  /** `v` is the highest of the first `w` digits in which the words differ, and it is set in `y`. */
  predicate TopDigit(x: Word, y: Word, v: nat, w: nat) {
    v < w && Has(y, v) && !Has(x, v) && forall u: nat | v < u < w :: Has(x, u) == Has(y, u)
  }

  lemma {:induction false} SameDigits(x: Word, y: Word, w: nat)
    requires forall u: nat | u < w :: Has(x, u) == Has(y, u)
    ensures Number(x, w) == Number(y, w)
    decreases w
  {
    hide Odd, Half;
    if w > 0 {
      assert Has(x, 0) == Has(y, 0);
      forall u: nat | u < w - 1 ensures Has(Half(x), u) == Has(Half(y), u) {
        assert Has(x, u + 1) == Has(y, u + 1);
      }
      SameDigits(Half(x), Half(y), w - 1);
    }
  }

  lemma TopDigitStep(x: Word, y: Word, v: nat, w: nat)
    requires w > 0
    ensures TopDigit(x, y, v + 1, w) <==> TopDigit(Half(x), Half(y), v, w - 1)
  {
    hide Odd, Half;
    if TopDigit(x, y, v + 1, w) {
      forall u: nat | v < u < w - 1 ensures Has(Half(x), u) == Has(Half(y), u) {
        assert Has(x, u + 1) == Has(y, u + 1);
      }
    }
    if TopDigit(Half(x), Half(y), v, w - 1) {
      forall u: nat | v + 1 < u < w ensures Has(x, u) == Has(y, u) {
        assert Has(Half(x), u - 1) == Has(Half(y), u - 1);
      }
    }
  }

  lemma {:induction false} NumberLess(x: Word, y: Word, w: nat)
    ensures Number(x, w) < Number(y, w) <==> exists v: nat :: TopDigit(x, y, v, w)
    decreases w
  {
    hide Odd, Half, TopDigit;
    if w == 0 {
      NoDigits(x, y);
    } else {
      var p, q, m := Half(x), Half(y), w - 1;
      NumberLess(p, q, m);
      if v: nat :| TopDigit(p, q, v, m) {
        TopDigitStep(x, y, v, w);
        assert TopDigit(x, y, v + 1, w);
      } else {
        if v: nat :| TopDigit(x, y, v, w) {
          if v > 0 { TopDigitStep(x, y, v - 1, w); }
        }
        LowestDecides(x, y, w);
      }
    }
  }

  lemma NoDigits(x: Word, y: Word)
    ensures forall v: nat :: !TopDigit(x, y, v, 0)
  {}

  lemma LowestDecides(x: Word, y: Word, w: nat)
    requires w > 0
    ensures TopDigit(x, y, 0, w) ==> Number(x, w) < Number(y, w)
    ensures Number(x, w) < Number(y, w) && Number(Half(x), w - 1) >= Number(Half(y), w - 1) ==> TopDigit(x, y, 0, w)
  {
    hide Odd, Half;
    if TopDigit(x, y, 0, w) {
      forall u: nat | u < w - 1 ensures Has(Half(x), u) == Has(Half(y), u) {
        assert Has(x, u + 1) == Has(y, u + 1);
      }
      SameDigits(Half(x), Half(y), w - 1);
    }
    if Number(x, w) < Number(y, w) && Number(Half(x), w - 1) >= Number(Half(y), w - 1) {
      assert Number(Half(x), w - 1) == Number(Half(y), w - 1);
      forall u: nat | 0 < u < w ensures Has(x, u) == Has(y, u) {
        NumberDigits(Half(x), Half(y), w - 1, u - 1);
      }
    }
  }

  /** The smaller word has no digit where they first differ from the top. */
  lemma LessIff(x: Word, y: Word)
    ensures Less(x, y) <==> exists v: nat :: TopDigit(x, y, v, WIDTH)
  {
    hide Number, TopDigit;
    NumberLess(x, y, WIDTH);
  }

  lemma LessTotal(x: Word, y: Word)
    ensures x == y || Less(x, y) || Less(y, x)
  {
    hide Has, Number;
    if Number(x, WIDTH) == Number(y, WIDTH) {
      forall v: nat | v < WIDTH { NumberDigits(x, y, WIDTH, v); }
      assert Vars(x) == Vars(y);
      VarsInjective(x, y);
    }
  }

  /** `x & -x` isolates the lowest variable and `x & (x - 1)` removes exactly that one. */
  lemma LowBitVars(x: Word) returns (v: nat)
    requires x != Word(0)
    ensures v in Vars(x) && forall u :: u in Vars(x) ==> v <= u
    ensures Vars(LowBit(x)) == {v}
    ensures Vars(DropLow(x)) == Vars(x) - {v}
  {
    hide Has, LowBit, DropLow;
    v := LowBitAt(x, WIDTH);
  }

  lemma SubsetSize<T>(a: set<T>, b: set<T>)
    requires a <= b
    ensures |a| <= |b|
  {
    assert b == a + (b - a);
  }
}
