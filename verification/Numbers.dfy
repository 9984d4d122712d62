/** Numbers as 64-bit words. */
module Numbers {

  // The word of this value, bit by bit.
  function ToWord(n: nat): bv64 { if n == 0 then 0 else AddBit(ToWord(n / 2), n % 2 == 1) }

  function AddBit(high: bv64, low: bool): bv64 { (high << 1) | (if low then 1 else 0) }

  const WORD_LIMIT: int := 0x1_0000_0000_0000_0000

  // The low k bits of a number, and the mask that selects those of a word.
  function LowBits(n: nat, k: nat): nat { if k == 0 then 0 else n % 2 + 2 * LowBits(n / 2, k - 1) }

  function LowMask(k: nat): bv64 { if k == 0 then 0 else AddBit(LowMask(k - 1), true) }

  function Pow2(k: nat): nat { if k == 0 then 1 else 2 * Pow2(k - 1) }

  predicate Within(x: bv64, mask: bv64) { x & !mask == 0 }

  lemma AddSetBitWithin(x: bv64, mask: bv64)
    requires Within(x, mask)
    ensures Within(AddBit(x, true), AddBit(mask, true))
  {}

  lemma AddClearBitWithin(x: bv64, mask: bv64)
    requires Within(x, mask)
    ensures Within(AddBit(x, false), AddBit(mask, true))
  {}

  lemma AddBitWithin(x: bv64, mask: bv64, low: bool)
    requires Within(x, mask)
    ensures Within(AddBit(x, low), AddBit(mask, true))
  {
    hide Within, AddBit;
    AddSetBitWithin(x, mask);
    AddClearBitWithin(x, mask);
  }

  lemma ZeroWithin(mask: bv64)
    ensures Within(0, mask)
  {}

  lemma {:induction false} WordWithin(n: nat, k: nat)
    requires n < Pow2(k)
    ensures Within(ToWord(n), LowMask(k))
    decreases k
  {
    hide Within, AddBit;
    if n == 0 {
      ZeroWithin(LowMask(k));
    } else {
      WordWithin(n / 2, k - 1);
      AddBitWithin(ToWord(n / 2), LowMask(k - 1), n % 2 == 1);
    }
  }

  lemma Masks26()
    ensures LowMask(26) == 0x3FF_FFFF
  {
    assert LowMask(13) == 0x1FFF;
  }

  lemma Masks39()
    ensures LowMask(39) == 0x7F_FFFF_FFFF
  {
    Masks26();
  }

  lemma Masks51()
    ensures LowMask(51) == 0x7_FFFF_FFFF_FFFF
  {
    Masks39();
  }

  lemma Masks63()
    ensures LowMask(63) == 0x7FFF_FFFF_FFFF_FFFF
  {
    Masks51();
  }

  lemma Powers()
    ensures Pow2(39) == 0x80_0000_0000 && Pow2(63) == 0x8000_0000_0000_0000
  {
    assert Pow2(13) == 0x2000;
    assert Pow2(26) == 0x400_0000;
    assert Pow2(39) == 0x80_0000_0000;
    assert Pow2(51) == 0x8_0000_0000_0000;
  }

  function Half(x: bv64): bv64 { x >> 1 }

  lemma HalfDropsBit(x: bv64, low: bool)
    requires Within(x, 0x7FFF_FFFF_FFFF_FFFF)
    ensures Half(AddBit(x, low)) == x
  {}

  lemma HalfOfZero()
    ensures Half(0) == 0
  {}

  lemma HalfWord(n: nat)
    requires n < WORD_LIMIT
    ensures Half(ToWord(n)) == ToWord(n / 2)
  {
    Powers();
    Masks63();
    hide Within, AddBit, Half, Pow2, LowMask;
    WordWithin(n / 2, 63);
    if n > 0 {
      HalfDropsBit(ToWord(n / 2), n % 2 == 1);
    } else {
      HalfOfZero();
    }
  }

  lemma LowBitSplits(x: bv64, y: bv64, a: bool, b: bool)
    requires AddBit(x, a) == AddBit(y, b)
    ensures a == b
  {}

  lemma NoBit()
    ensures AddBit(0, false) == 0
  {}

  lemma WordSplits(n: nat)
    ensures ToWord(n) == AddBit(ToWord(n / 2), n % 2 == 1)
  {
    if n == 0 {
      NoBit();
    }
  }

  lemma {:induction false} WordInjective(a: nat, b: nat)
    requires a < WORD_LIMIT && b < WORD_LIMIT && ToWord(a) == ToWord(b)
    ensures a == b
    decreases a + b
  {
    hide AddBit, Half, ToWord;
    if a + b > 0 {
      HalfWord(a);
      HalfWord(b);
      WordSplits(a);
      WordSplits(b);
      LowBitSplits(ToWord(a / 2), ToWord(b / 2), a % 2 == 1, b % 2 == 1);
      WordInjective(a / 2, b / 2);
    }
  }

  lemma {:induction false} AllOnes(k: nat)
    ensures Pow2(k) > 0 && ToWord(Pow2(k) - 1) == LowMask(k)
    decreases k
  {
    hide AddBit, ToWord;
    if k == 0 {
      ZeroWord();
    } else {
      AllOnes(k - 1);
      WordSplits(Pow2(k) - 1);
      assert (2 * Pow2(k - 1) - 1) / 2 == Pow2(k - 1) - 1 && (2 * Pow2(k - 1) - 1) % 2 == 1;
    }
  }

  lemma ZeroWord()
    ensures ToWord(0) == 0
  {}

  lemma Masks32()
    ensures LowMask(32) == 0xFFFF_FFFF && Pow2(32) == 0x1_0000_0000
  {
    Masks26();
    assert Pow2(13) == 0x2000;
    assert Pow2(26) == 0x400_0000;
  }

  lemma Masks64()
    ensures LowMask(64) == 0xFFFF_FFFF_FFFF_FFFF && Pow2(64) == WORD_LIMIT
  {
    Masks63();
    Powers();
  }

  // --- masking ---

  function Masked(x: bv64, mask: bv64): bv64 { x & mask }

  lemma MaskSetBit(high: bv64, mask: bv64)
    ensures Masked(AddBit(high, true), AddBit(mask, true)) == AddBit(Masked(high, mask), true)
  {}

  lemma MaskClearBit(high: bv64, mask: bv64)
    ensures Masked(AddBit(high, false), AddBit(mask, true)) == AddBit(Masked(high, mask), false)
  {}

  lemma MaskBit(high: bv64, mask: bv64, low: bool)
    ensures Masked(AddBit(high, low), AddBit(mask, true)) == AddBit(Masked(high, mask), low)
  {
    hide Masked, AddBit;
    MaskSetBit(high, mask);
    MaskClearBit(high, mask);
  }

  lemma MaskNothing(x: bv64)
    ensures Masked(x, 0) == 0
  {}

  lemma {:induction false} MaskOfWord(n: nat, k: nat)
    ensures Masked(ToWord(n), LowMask(k)) == ToWord(LowBits(n, k))
    decreases k
  {
    hide Masked, AddBit, ToWord;
    if k == 0 {
      MaskNothing(ToWord(n));
      ZeroWord();
    } else {
      MaskOfWord(n / 2, k - 1);
      WordSplits(n);
      WordSplits(LowBits(n, k));
      MaskBit(ToWord(n / 2), LowMask(k - 1), n % 2 == 1);
    }
  }

  lemma {:induction false} SmallLowBits(n: nat, k: nat)
    requires n < Pow2(k)
    ensures LowBits(n, k) == n
    decreases k
  {
    if k > 0 {
      SmallLowBits(n / 2, k - 1);
    }
  }

  // --- words as numbers ---

  predicate Odd(x: bv64) { x & 1 == 1 }

  lemma HalfIsSmaller(x: bv64)
    requires x != 0
    ensures Half(x) < x
  {}

  // The number a word stands for, bit by bit, unsigned and in two's complement.
  function Unsigned(x: bv64): nat
    decreases x
  {
    if x == 0 then 0 else HalfIsSmaller(x); (if Odd(x) then 1 else 0) + 2 * Unsigned(Half(x))
  }

  const SIGN_LIMIT: int := 0x8000_0000_0000_0000

  function Signed(x: bv64): int { if Unsigned(x) < SIGN_LIMIT then Unsigned(x) else Unsigned(x) - WORD_LIMIT }

  lemma HalfAndBit(x: bv64)
    ensures AddBit(Half(x), Odd(x)) == x
  {}

  lemma OddBit(high: bv64, low: bool)
    ensures Odd(AddBit(high, low)) == low
  {}

  lemma UnsignedSplits(x: bv64)
    ensures Unsigned(x) == (if Odd(x) then 1 else 0) + 2 * Unsigned(Half(x))
  {
    if x == 0 {
      HalfOfZero();
      NotOdd();
    }
  }

  lemma NotOdd()
    ensures !Odd(0)
  {}

  lemma WordOfHalf(x: bv64)
    requires ToWord(Unsigned(Half(x))) == Half(x)
    ensures ToWord(Unsigned(x)) == x
  {
    hide AddBit, Half, Odd, ToWord, Unsigned;
    var h, low := Unsigned(Half(x)), Odd(x);
    UnsignedSplits(x);
    WordSplits(Unsigned(x));
    assert Unsigned(x) / 2 == h && (Unsigned(x) % 2 == 1) == low;
    HalfAndBit(x);
  }

  lemma {:induction false} WordOfUnsigned(x: bv64, k: nat)
    requires Within(x, LowMask(k))
    ensures ToWord(Unsigned(x)) == x
    decreases k
  {
    hide AddBit, Half, Odd, ToWord, Unsigned, Within;
    if k == 0 {
      NothingWithin(x);
      ZeroWord();
      UnsignedOfZero();
    } else {
      HalfWithin(x, LowMask(k - 1));
      WordOfUnsigned(Half(x), k - 1);
      WordOfHalf(x);
    }
  }

  lemma NumberOfWord(x: bv64)
    ensures ToWord(Unsigned(x)) == x && Unsigned(x) < WORD_LIMIT
  {
    Masks64();
    hide LowMask, Pow2, Within, Unsigned, ToWord;
    AllWithin(x);
    WordOfUnsigned(x, 64);
    UnsignedWithin(x, 64);
  }

  lemma UnsignedInjective(x: bv64, y: bv64)
    requires Unsigned(x) == Unsigned(y)
    ensures x == y
  {
    hide ToWord, Unsigned;
    NumberOfWord(x);
    NumberOfWord(y);
  }

  lemma HalfWithin(x: bv64, mask: bv64)
    requires Within(x, AddBit(mask, true))
    ensures Within(Half(x), mask)
  {}

  lemma NothingWithin(x: bv64)
    requires Within(x, 0)
    ensures x == 0
  {}

  lemma {:induction false} UnsignedWithin(x: bv64, k: nat)
    requires Within(x, LowMask(k))
    ensures Unsigned(x) < Pow2(k)
    decreases k
  {
    hide AddBit, Half, Odd, Within, Unsigned;
    UnsignedSplits(x);
    if k == 0 {
      NothingWithin(x);
      UnsignedOfZero();
    } else {
      HalfWithin(x, LowMask(k - 1));
      UnsignedWithin(Half(x), k - 1);
    }
  }

  lemma UnsignedOfZero()
    ensures Unsigned(0) == 0
  {}

  lemma AllWithin(x: bv64)
    ensures Within(x, 0xFFFF_FFFF_FFFF_FFFF)
  {}

  lemma UnsignedOfSmall(n: nat)
    requires n < WORD_LIMIT
    ensures Unsigned(ToWord(n)) == n
  {
    hide ToWord, Unsigned;
    NumberOfWord(ToWord(n));
    WordInjective(n, Unsigned(ToWord(n)));
  }

  // --- sums ---

  function Plus(a: bv64, b: bv64): bv64 { a + b }

  // a + b + 1, by an adder with one more bit below.
  function PlusCarry(a: bv64, b: bv64): bv64
  {
    ((((((a as bv65) << 1) | 1) + (((b as bv65) << 1) | 1)) >> 1) & 0xFFFF_FFFF_FFFF_FFFF) as bv64
  }

  function Sum(a: bv64, b: bv64, carry: bool): bv64 { if carry then PlusCarry(a, b) else Plus(a, b) }

  function Bit(low: bool): nat { if low then 1 else 0 }

  // One full adder, for each setting of its three inputs.
  lemma PlusClear(g: bv64, h: bv64)
    ensures Plus(g << 1, h << 1) == Plus(g, h) << 1
  {
    DoubledSum(g, h, Plus(g, h));
  }

  lemma DoubledSum(g: bv64, h: bv64, sum: bv64)
    requires sum == g + h
    ensures sum << 1 == (g << 1) + (h << 1)
  {}

  lemma PlusCommutes(g: bv64, h: bv64)
    ensures Plus(g, h) == Plus(h, g)
  {}

  lemma PlusLeft(g: bv64, h: bv64)
    ensures Plus((g << 1) | 1, h << 1) == (Plus(g, h) << 1) | 1
  {
    hide Plus;
    PlusRight(h, g);
    PlusCommutes(g, h);
    PlusCommutes((g << 1) | 1, h << 1);
  }

  lemma PlusRight(g: bv64, h: bv64)
    ensures Plus(g << 1, (h << 1) | 1) == (Plus(g, h) << 1) | 1
  {}

  lemma PlusBoth(g: bv64, h: bv64)
    ensures Plus((g << 1) | 1, (h << 1) | 1) == PlusCarry(g, h) << 1
  {}

  lemma CarryClear(g: bv64, h: bv64)
    ensures PlusCarry(g << 1, h << 1) == (Plus(g, h) << 1) | 1
  {}

  lemma CarryLeft(g: bv64, h: bv64)
    ensures PlusCarry((g << 1) | 1, h << 1) == PlusCarry(g, h) << 1
  {}

  lemma CarryRight(g: bv64, h: bv64)
    ensures PlusCarry(g << 1, (h << 1) | 1) == PlusCarry(g, h) << 1
  {}

  lemma CarryBoth(g: bv64, h: bv64)
    ensures PlusCarry((g << 1) | 1, (h << 1) | 1) == (PlusCarry(g, h) << 1) | 1
  {}

  lemma BitRaw(high: bv64)
    ensures AddBit(high, true) == (high << 1) | 1 && AddBit(high, false) == high << 1
  {}

  lemma AddBits(g: bv64, h: bv64, a: bool, b: bool, carry: bool)
    ensures var total := Bit(a) + Bit(b) + Bit(carry);
            Sum(AddBit(g, a), AddBit(h, b), carry) == AddBit(Sum(g, h, total >= 2), total % 2 == 1)
  {
    hide Plus, PlusCarry, AddBit;
    BitRaw(g);
    BitRaw(h);
    BitRaw(Plus(g, h));
    BitRaw(PlusCarry(g, h));
    if carry {
      CarryClear(g, h);
      CarryLeft(g, h);
      CarryRight(g, h);
      CarryBoth(g, h);
    } else {
      PlusClear(g, h);
      PlusLeft(g, h);
      PlusRight(g, h);
      PlusBoth(g, h);
    }
  }

  lemma NothingPlus(carry: bool)
    ensures Sum(0, 0, carry) == AddBit(0, carry)
  {}

  // The word of a sum is the sum of the words.
  lemma {:induction false} WordSum(m: nat, n: nat, carry: bool)
    ensures Sum(ToWord(m), ToWord(n), carry) == ToWord(m + n + Bit(carry))
    decreases m + n
  {
    hide ToWord, Sum, AddBit;
    if m + n == 0 {
      ZeroWord();
      WordSplits(Bit(carry));
      NothingPlus(carry);
    } else {
      var total := m % 2 + n % 2 + Bit(carry);
      WordSplits(m);
      WordSplits(n);
      AddBits(ToWord(m / 2), ToWord(n / 2), m % 2 == 1, n % 2 == 1, carry);
      WordSum(m / 2, n / 2, total >= 2);
      WordSplits(m + n + Bit(carry));
      assert (m + n + Bit(carry)) / 2 == m / 2 + n / 2 + Bit(total >= 2);
      assert (m + n + Bit(carry)) % 2 == total % 2;
    }
  }

  lemma PlusZero(a: bv64)
    ensures Plus(a, 0) == a
  {}

  lemma OnesPlusOne()
    ensures Plus(0xFFFF_FFFF_FFFF_FFFF, 1) == 0
  {}

  lemma OneWord()
    ensures ToWord(1) == 1
  {}

  // Numbers 2^64 apart have the same word.
  lemma LimitIsZero()
    ensures ToWord(WORD_LIMIT) == 0
  {
    hide ToWord, Plus, LowMask, Pow2;
    Masks64();
    AllOnes(64);
    OneWord();
    WordSum(WORD_LIMIT - 1, 1, false);
    OnesPlusOne();
  }

  lemma {:induction false} WordWraps(n: nat)
    ensures ToWord(n) == ToWord(n % WORD_LIMIT)
    decreases n
  {
    hide ToWord, Plus;
    if n >= WORD_LIMIT {
      WordSum(n - WORD_LIMIT, WORD_LIMIT, false);
      LimitIsZero();
      PlusZero(ToWord(n - WORD_LIMIT));
      WordWraps(n - WORD_LIMIT);
    }
  }

  lemma UnsignedOfWord(n: nat)
    ensures Unsigned(ToWord(n)) == n % WORD_LIMIT
  {
    hide ToWord, Unsigned;
    WordWraps(n);
    UnsignedOfSmall(n % WORD_LIMIT);
  }

  // Addition is addition of numbers modulo 2^64.
  lemma UnsignedSum(a: bv64, b: bv64)
    ensures Unsigned(Plus(a, b)) == (Unsigned(a) + Unsigned(b)) % WORD_LIMIT
  {
    hide ToWord, Unsigned, Plus;
    NumberOfWord(a);
    NumberOfWord(b);
    WordSum(Unsigned(a), Unsigned(b), false);
    UnsignedOfWord(Unsigned(a) + Unsigned(b));
  }

  // --- the sign and the order ---

  predicate Top(x: bv64) { x & 0x8000_0000_0000_0000 != 0 }

  lemma NoTopWithin(x: bv64)
    requires !Top(x)
    ensures Within(x, 0x7FFF_FFFF_FFFF_FFFF)
  {}

  lemma TopSplits(x: bv64)
    requires Top(x)
    ensures Plus(x & 0x7FFF_FFFF_FFFF_FFFF, 0x8000_0000_0000_0000) == x
    ensures Within(x & 0x7FFF_FFFF_FFFF_FFFF, 0x7FFF_FFFF_FFFF_FFFF)
  {}

  lemma BelowSign(x: bv64)
    requires Within(x, 0x7FFF_FFFF_FFFF_FFFF)
    ensures Unsigned(x) < SIGN_LIMIT
  {
    Masks63();
    Powers();
    hide LowMask, Pow2, Within, Unsigned;
    UnsignedWithin(x, 63);
  }

  lemma SignWord()
    ensures Plus(0x7FFF_FFFF_FFFF_FFFF, 1) == 0x8000_0000_0000_0000
  {}

  lemma UnsignedOfSign()
    ensures Unsigned(0x8000_0000_0000_0000) == SIGN_LIMIT
  {
    hide LowMask, Pow2, Unsigned, ToWord, Plus;
    Masks63();
    Powers();
    AllOnes(63);
    OneWord();
    SignWord();
    WordSum(SIGN_LIMIT - 1, 1, false);
    UnsignedOfSmall(SIGN_LIMIT);
  }

  lemma TopIsSign(x: bv64)
    ensures Top(x) <==> Unsigned(x) >= SIGN_LIMIT
  {
    hide Top, Within, Unsigned, Plus;
    if Top(x) {
      var rest := x & 0x7FFF_FFFF_FFFF_FFFF;
      TopSplits(x);
      BelowSign(rest);
      UnsignedOfSign();
      UnsignedSum(rest, 0x8000_0000_0000_0000);
    } else {
      NoTopWithin(x);
      BelowSign(x);
    }
  }

  function Twice(x: bv64): bv64 { x << 1 }

  lemma TwiceIsPlus(x: bv64)
    ensures Plus(x, x) == Twice(x)
  {}

  lemma UnsignedTwice(x: bv64)
    ensures Unsigned(Twice(x)) == 2 * Unsigned(x) % WORD_LIMIT
  {
    hide Unsigned, Plus, Twice;
    TwiceIsPlus(x);
    UnsignedSum(x, x);
  }

  predicate Less(a: bv64, b: bv64) { a < b }

  lemma LessTops(a: bv64, b: bv64)
    ensures Top(a) == Top(b) ==> (Less(a, b) <==> Less(Twice(a), Twice(b)))
    ensures Top(a) && !Top(b) ==> !Less(a, b)
    ensures !Top(a) && Top(b) ==> Less(a, b)
  {
    if Top(a) == Top(b) {
      SameTops(a, b);
    }
  }

  lemma SameTops(a: bv64, b: bv64)
    requires Top(a) == Top(b)
    ensures Less(a, b) <==> Less(a << 1, b << 1)
  {}

  lemma LessThanNothing()
    ensures !Less(0, 0)
  {}

  // The low j bits are clear.
  predicate ClearBelow(x: bv64, mask: bv64) { x & mask == 0 }

  lemma TwiceClears(x: bv64, mask: bv64)
    requires ClearBelow(x, mask)
    ensures ClearBelow(Twice(x), AddBit(mask, true))
  {}

  lemma AllClear(x: bv64)
    requires ClearBelow(x, 0xFFFF_FFFF_FFFF_FFFF)
    ensures x == 0
  {}

  lemma {:induction false} LessBelow(a: bv64, b: bv64, j: nat)
    requires j <= 64 && ClearBelow(a, LowMask(j)) && ClearBelow(b, LowMask(j))
    ensures Less(a, b) <==> Unsigned(a) < Unsigned(b)
    decreases 64 - j
  {
    hide Less, Unsigned, ClearBelow, Twice, Top, AddBit;
    if j == 64 {
      Masks64();
      AllClear(a);
      AllClear(b);
      LessThanNothing();
    } else {
      TopIsSign(a);
      TopIsSign(b);
      LessTops(a, b);
      if Top(a) == Top(b) {
        TwiceClears(a, LowMask(j));
        TwiceClears(b, LowMask(j));
        LessBelow(Twice(a), Twice(b), j + 1);
        TwiceKeepsOrder(a, b);
      }
    }
  }

  lemma TwiceKeepsOrder(a: bv64, b: bv64)
    requires Top(a) == Top(b)
    ensures Unsigned(a) < Unsigned(b) <==> Unsigned(Twice(a)) < Unsigned(Twice(b))
  {
    hide Unsigned, Twice, Top;
    TopIsSign(a);
    TopIsSign(b);
    NumberOfWord(a);
    NumberOfWord(b);
    UnsignedTwice(a);
    UnsignedTwice(b);
    DoubleWraps(Unsigned(a));
    DoubleWraps(Unsigned(b));
  }

  lemma DoubleWraps(u: nat)
    requires u < WORD_LIMIT
    ensures 2 * u % WORD_LIMIT == if u < SIGN_LIMIT then 2 * u else 2 * u - WORD_LIMIT
  {}

  lemma ClearNothing(x: bv64)
    ensures ClearBelow(x, 0)
  {}

  // Words are ordered as their numbers.
  lemma LessIsOrder(a: bv64, b: bv64)
    ensures Less(a, b) <==> Unsigned(a) < Unsigned(b)
  {
    hide Less, Unsigned, ClearBelow;
    ClearNothing(a);
    ClearNothing(b);
    LessBelow(a, b, 0);
  }
}
