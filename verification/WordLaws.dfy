/** What the word operations compute, as arithmetic on the numbers the words stand for. */
module WordLaws {
  import opened Bits
  import opened Numbers

  // --- sums, differences, comparisons ---

  lemma AddIsSum(a: bv64, b: bv64)
    ensures Unsigned(Add(a, b)) == (Unsigned(a) + Unsigned(b)) % WORD_LIMIT
  {
    hide Unsigned;
    UnsignedSum(a, b);
  }

  lemma SubUndone(a: bv64, b: bv64)
    ensures Plus(a - b, b) == a
  {}

  lemma DifferenceWraps(a: int, b: int, d: int)
    requires 0 <= a < WORD_LIMIT && 0 <= b < WORD_LIMIT && 0 <= d < WORD_LIMIT && a == (d + b) % WORD_LIMIT
    ensures d == (a - b) % WORD_LIMIT
  {}

  lemma SubIsDifference(a: bv64, b: bv64)
    ensures Unsigned(Sub(a, b)) == (Unsigned(a) - Unsigned(b)) % WORD_LIMIT
  {
    hide Unsigned, Plus, ToWord;
    SubUndone(a, b);
    UnsignedSum(Sub(a, b), b);
    NumberOfWord(a);
    NumberOfWord(b);
    NumberOfWord(Sub(a, b));
    DifferenceWraps(Unsigned(a), Unsigned(b), Unsigned(Sub(a, b)));
  }

  lemma UltIsOrder(a: bv64, b: bv64)
    ensures Ult(a, b) <==> Unsigned(a) < Unsigned(b)
  {
    hide Unsigned;
    LessIsOrder(a, b);
  }

  lemma FlipIsPlus(x: bv64)
    ensures x ^ 0x8000_0000_0000_0000 == Plus(x, 0x8000_0000_0000_0000)
  {}

  lemma FlippedNumber(x: bv64)
    ensures Unsigned(x ^ 0x8000_0000_0000_0000) == Signed(x) + SIGN_LIMIT
  {
    hide Unsigned, Plus, ToWord;
    FlipIsPlus(x);
    UnsignedOfSign();
    UnsignedSum(x, 0x8000_0000_0000_0000);
    NumberOfWord(x);
  }

  lemma SltIsFlipped(a: bv64, b: bv64)
    ensures Slt(a, b) == Less(a ^ 0x8000_0000_0000_0000, b ^ 0x8000_0000_0000_0000)
  {}

  // The signed comparison compares the numbers in two's complement.
  lemma SltIsOrder(a: bv64, b: bv64)
    ensures Slt(a, b) <==> Signed(a) < Signed(b)
  {
    hide Unsigned, Signed, Less, Slt;
    SltIsFlipped(a, b);
    LessIsOrder(a ^ 0x8000_0000_0000_0000, b ^ 0x8000_0000_0000_0000);
    FlippedNumber(a);
    FlippedNumber(b);
  }

  lemma SameIsEqual(a: bv64, b: bv64)
    ensures Same(a, b) <==> Unsigned(a) == Unsigned(b)
  {
    hide Unsigned;
    if Unsigned(a) == Unsigned(b) {
      UnsignedInjective(a, b);
    }
  }

  lemma FlagsAreNumbers(b: bool, x: bv64)
    ensures Unsigned(FromBool(b)) == (if b then 1 else 0) && (NeqOne(x) <==> Unsigned(x) != 1)
  {
    assert Unsigned(0) == 0 && Unsigned(1) == 1;
    if Unsigned(x) == 1 {
      UnsignedInjective(x, 1);
    }
  }

  // --- bit by bit ---

  // Bit i of a number.
  predicate BitAt(n: nat, i: nat)
    decreases i
  {
    if i == 0 then n % 2 == 1 else BitAt(n / 2, i - 1)
  }

  lemma HalfNumber(x: bv64)
    ensures Unsigned(Half(x)) == Unsigned(x) / 2 && (Unsigned(x) % 2 == 1) == Odd(x)
  {
    hide Unsigned, Half, Odd;
    UnsignedSplits(x);
  }

  lemma AndHalves(a: bv64, b: bv64)
    ensures Half(And(a, b)) == And(Half(a), Half(b)) && Odd(And(a, b)) == (Odd(a) && Odd(b))
  {}

  lemma OrHalves(a: bv64, b: bv64)
    ensures Half(Or(a, b)) == Or(Half(a), Half(b)) && Odd(Or(a, b)) == (Odd(a) || Odd(b))
  {}

  lemma XorHalves(a: bv64, b: bv64)
    ensures Half(Xor(a, b)) == Xor(Half(a), Half(b)) && Odd(Xor(a, b)) == (Odd(a) != Odd(b))
  {}

  lemma {:induction false} AndIsBitwise(a: bv64, b: bv64, i: nat)
    ensures BitAt(Unsigned(And(a, b)), i) <==> BitAt(Unsigned(a), i) && BitAt(Unsigned(b), i)
    decreases i
  {
    hide Unsigned, Half, Odd, And;
    HalfNumber(a);
    HalfNumber(b);
    HalfNumber(And(a, b));
    AndHalves(a, b);
    if i > 0 {
      AndIsBitwise(Half(a), Half(b), i - 1);
    }
  }

  lemma {:induction false} OrIsBitwise(a: bv64, b: bv64, i: nat)
    ensures BitAt(Unsigned(Or(a, b)), i) <==> BitAt(Unsigned(a), i) || BitAt(Unsigned(b), i)
    decreases i
  {
    hide Unsigned, Half, Odd, Or;
    HalfNumber(a);
    HalfNumber(b);
    HalfNumber(Or(a, b));
    OrHalves(a, b);
    if i > 0 {
      OrIsBitwise(Half(a), Half(b), i - 1);
    }
  }

  lemma {:induction false} XorIsBitwise(a: bv64, b: bv64, i: nat)
    ensures BitAt(Unsigned(Xor(a, b)), i) <==> BitAt(Unsigned(a), i) != BitAt(Unsigned(b), i)
    decreases i
  {
    hide Unsigned, Half, Odd, Xor;
    HalfNumber(a);
    HalfNumber(b);
    HalfNumber(Xor(a, b));
    XorHalves(a, b);
    if i > 0 {
      XorIsBitwise(Half(a), Half(b), i - 1);
    }
  }

  // --- truncation ---

  // Division with a variable divisor, by name.
  function Times(q: int, d: int): int { q * d }

  function Quotient(x: int, d: int): int
    requires d > 0
  {
    x / d
  }

  lemma DivisionHolds(x: int, d: int)
    requires d > 0
    ensures var r := x - Times(Quotient(x, d), d); 0 <= r < d
  {}

  lemma {:induction false} TimesMonotone(a: int, b: int, d: nat)
    requires a < b
    ensures Times(a, d) + d <= Times(b, d)
    decreases b - a
  {
    if a + 1 < b {
      TimesMonotone(a, b - 1, d);
    }
  }

  // The quotient is the only q that leaves a remainder below the divisor.
  lemma QuotientUnique(x: int, d: nat, q: int)
    requires d > 0 && 0 <= x - Times(q, d) < d
    ensures Quotient(x, d) == q
  {
    hide Times, Quotient;
    DivisionHolds(x, d);
    var p := Quotient(x, d);
    if p < q {
      TimesMonotone(p, q, d);
    } else if q < p {
      TimesMonotone(q, p, d);
    }
  }

  // A number is its low k bits and 2^k times the rest.
  function HighBits(n: nat, k: nat): nat { if k == 0 then n else HighBits(n / 2, k - 1) }

  lemma ProductDoubled(q: int, p: int)
    ensures q * (2 * p) == 2 * (q * p)
  {}

  lemma {:induction false} SplitsAt(n: nat, k: nat)
    ensures LowBits(n, k) < Pow2(k) && n == LowBits(n, k) + HighBits(n, k) * Pow2(k)
    decreases k
  {
    if k > 0 {
      SplitsAt(n / 2, k - 1);
      ProductDoubled(HighBits(n / 2, k - 1), Pow2(k - 1));
    }
  }

  lemma MaskedNumber(x: bv64, k: nat)
    ensures Unsigned(Masked(x, LowMask(k))) == LowBits(Unsigned(x), k)
  {
    hide Unsigned, ToWord, Masked, LowMask, LowBits;
    NumberOfWord(x);
    MaskOfWord(Unsigned(x), k);
    SplitsAt(Unsigned(x), k);
    assert HighBits(Unsigned(x), k) * Pow2(k) >= 0;
    UnsignedOfSmall(LowBits(Unsigned(x), k));
  }

  lemma Masks8()
    ensures LowMask(7) == 0x7F && LowMask(8) == 0xFF && Pow2(7) == 0x80 && Pow2(8) == 0x100
  {}

  lemma Masks16()
    ensures LowMask(15) == 0x7FFF && LowMask(16) == 0xFFFF && Pow2(15) == 0x8000 && Pow2(16) == 0x1_0000
  {
    Masks8();
  }

  lemma Masks31()
    ensures LowMask(31) == 0x7FFF_FFFF && Pow2(31) == 0x8000_0000
  {
    Masks26();
    Masks16();
    assert Pow2(26) == 0x400_0000;
  }

  lemma LowBitsAre(n: nat, k: nat)
    ensures Pow2(k) > 0 && LowBits(n, k) < Pow2(k) && n == LowBits(n, k) + Times(HighBits(n, k), Pow2(k))
  {
    hide LowBits, HighBits, Pow2;
    SplitsAt(n, k);
    PositivePower(k);
  }

  lemma {:induction false} PositivePower(k: nat)
    ensures Pow2(k) > 0
  {
    if k > 0 {
      PositivePower(k - 1);
    }
  }

  lemma HighBitsAre(n: nat, k: nat)
    ensures Pow2(k) > 0 && Quotient(n, Pow2(k)) == HighBits(n, k)
  {
    hide LowBits, HighBits, Pow2, Times, Quotient;
    LowBitsAre(n, k);
    QuotientUnique(n, Pow2(k), HighBits(n, k));
  }

  lemma Masks6()
    ensures LowMask(5) == 31 && Pow2(5) == 32 && Pow2(6) == 64
  {}

  // Truncation to the shift counts, to 8, 16 and 32 bits and to one bit less.
  lemma Low5(n: nat)
    ensures LowBits(n, 5) == n % 32
  {
    Masks6();
    hide LowBits, HighBits, LowMask, Pow2;
    SplitsAt(n, 5);
  }

  lemma Low7(n: nat)
    ensures LowBits(n, 7) == n % 0x80
  {
    Masks8();
    hide LowBits, HighBits, LowMask, Pow2;
    SplitsAt(n, 7);
  }

  lemma Low8(n: nat)
    ensures LowBits(n, 8) == n % 0x100
  {
    Masks8();
    hide LowBits, HighBits, LowMask, Pow2;
    SplitsAt(n, 8);
  }

  lemma Low15(n: nat)
    ensures LowBits(n, 15) == n % 0x8000
  {
    Masks16();
    hide LowBits, HighBits, LowMask, Pow2;
    SplitsAt(n, 15);
  }

  lemma Low16(n: nat)
    ensures LowBits(n, 16) == n % 0x1_0000
  {
    Masks16();
    hide LowBits, HighBits, LowMask, Pow2;
    SplitsAt(n, 16);
  }

  lemma Low31(n: nat)
    ensures LowBits(n, 31) == n % 0x8000_0000
  {
    Masks31();
    hide LowBits, HighBits, LowMask, Pow2;
    SplitsAt(n, 31);
  }

  lemma Low32(n: nat)
    ensures LowBits(n, 32) == n % 0x1_0000_0000
  {
    Masks32();
    hide LowBits, HighBits, LowMask, Pow2;
    SplitsAt(n, 32);
  }

  lemma ZextsAreMasks(x: bv64)
    ensures ZextByte(x) == Masked(x, 0xFF) && ZextHalf(x) == Masked(x, 0xFFFF) && ZextWord(x) == Masked(x, 0xFFFF_FFFF)
    ensures Count5(x) == Masked(x, 31)
  {}

  lemma ZextByteIsLow(x: bv64)
    ensures Unsigned(ZextByte(x)) == Unsigned(x) % 0x100
  {
    hide Unsigned, Masked, LowMask, LowBits, ZextByte;
    ZextsAreMasks(x);
    Masks8();
    MaskedNumber(x, 8);
    Low8(Unsigned(x));
  }

  lemma ZextHalfIsLow(x: bv64)
    ensures Unsigned(ZextHalf(x)) == Unsigned(x) % 0x1_0000
  {
    hide Unsigned, Masked, LowMask, LowBits, ZextHalf;
    ZextsAreMasks(x);
    Masks16();
    MaskedNumber(x, 16);
    Low16(Unsigned(x));
  }

  lemma ZextWordIsLow(x: bv64)
    ensures Unsigned(ZextWord(x)) == Unsigned(x) % 0x1_0000_0000
  {
    hide Unsigned, Masked, LowMask, LowBits, ZextWord;
    ZextsAreMasks(x);
    Masks32();
    MaskedNumber(x, 32);
    Low32(Unsigned(x));
  }

  lemma Count5IsLow(x: bv64)
    ensures Unsigned(Count5(x)) == Unsigned(x) % 32
  {
    hide Unsigned, Masked, LowMask, LowBits, Count5;
    ZextsAreMasks(x);
    Masks6();
    Low5(Unsigned(x));
    MaskedNumber(x, 5);
  }

  // A 32-bit word, as the 64-bit word with its number.
  function Wide(w: bv32): bv64 { w as bv64 }

  lemma WordIsLow(x: bv64)
    ensures Unsigned(Wide(Word(x))) == Unsigned(x) % 0x1_0000_0000
  {
    hide Unsigned, ZextWord;
    WordIsZext(x);
    ZextWordIsLow(x);
  }

  lemma WordIsZext(x: bv64)
    ensures Wide(Word(x)) == ZextWord(x)
  {}

  lemma WideIsShort(w: bv32)
    ensures ZextWord(Wide(w)) == Wide(w)
  {}

  lemma WideNumber(w: bv32)
    ensures Unsigned(Wide(w)) < 0x1_0000_0000
  {
    hide Unsigned, ZextWord, Wide;
    WideIsShort(w);
    ZextWordIsLow(Wide(w));
  }

  lemma LowOfWrapped(s: int)
    ensures s % WORD_LIMIT % 0x1_0000_0000 == s % 0x1_0000_0000
  {}

  // 32-bit sums and differences.
  lemma AddLowIsSum(a: bv64, b: bv64)
    ensures Unsigned(AddLow(a, b)) == (Unsigned(a) + Unsigned(b)) % 0x1_0000_0000
  {
    hide Unsigned, ZextWord, Add;
    LowOfSum(a, b);
    ZextWordIsLow(Add(a, b));
    AddIsSum(a, b);
    LowOfWrapped(Unsigned(a) + Unsigned(b));
  }

  lemma LowOfSum(a: bv64, b: bv64)
    ensures AddLow(a, b) == ZextWord(Add(a, b))
  {}

  lemma LowOfDifference(a: bv64, b: bv64)
    ensures SubLow(a, b) == ZextWord(Sub(a, b))
  {}

  lemma SubLowIsDifference(a: bv64, b: bv64)
    ensures Unsigned(SubLow(a, b)) == (Unsigned(a) - Unsigned(b)) % 0x1_0000_0000
  {
    hide Unsigned, ZextWord, Sub;
    LowOfDifference(a, b);
    ZextWordIsLow(Sub(a, b));
    SubIsDifference(a, b);
    LowOfWrapped(Unsigned(a) - Unsigned(b));
  }

  // --- sign extension ---

  lemma PowerWord(k: nat)
    requires k < 64
    ensures Unsigned(Plus(LowMask(k), 1)) == Pow2(k) && ToWord(Pow2(k)) == Plus(LowMask(k), 1)
  {
    hide Unsigned, Plus, LowMask, ToWord;
    AllOnes(k);
    OneWord();
    WordSum(Pow2(k) - 1, 1, false);
    SmallPower(k);
    UnsignedOfSmall(Pow2(k));
  }

  lemma {:induction false} SmallPower(k: nat)
    requires k < 64
    ensures 0 < Pow2(k) <= SIGN_LIMIT
    decreases 64 - k
  {
    PositivePower(k);
    Powers();
    if k < 63 {
      SmallPower(k + 1);
    }
  }

  // The word of -2^k.
  lemma NegatedPower(k: nat, ones: bv64)
    requires k < 64 && Plus(ones, Plus(LowMask(k), 1)) == 0
    ensures Unsigned(ones) == WORD_LIMIT - Pow2(k)
  {
    hide Unsigned, Plus, LowMask, ToWord;
    PowerWord(k);
    SmallPower(k);
    UnsignedSum(ones, Plus(LowMask(k), 1));
    NumberOfWord(ones);
    UnsignedOfZero();
  }

  // A word of k bits under a sign bit, extended.
  lemma ExtendedNumber(x: bv64, r: bv64, k: nat, ones: bv64, sign: bool)
    requires k < 63 && Plus(ones, Plus(LowMask(k), 1)) == 0
    requires r == if sign then Plus(Masked(x, LowMask(k)), ones) else Masked(x, LowMask(k))
    ensures Signed(r) == LowBits(Unsigned(x), k) - if sign then Pow2(k) else 0
  {
    hide Unsigned, Plus, LowMask, Masked, LowBits;
    MaskedNumber(x, k);
    LowBitsAre(Unsigned(x), k);
    NegatedPower(k, ones);
    SmallPower(k);
    SmallerPower(k);
    if sign {
      UnsignedSum(Masked(x, LowMask(k)), ones);
      NegativeNumber(LowBits(Unsigned(x), k), Pow2(k));
    }
  }

  lemma NegativeNumber(low: nat, power: nat)
    requires low < power && 2 * power <= SIGN_LIMIT
    ensures (low + (WORD_LIMIT - power)) % WORD_LIMIT == low + WORD_LIMIT - power >= SIGN_LIMIT
  {}

  lemma SmallerPower(k: nat)
    requires k < 63
    ensures 2 * Pow2(k) <= SIGN_LIMIT
  {
    SmallPower(k + 1);
  }

  lemma PositiveNumber(low: nat, power: nat)
    requires low < power && 2 * power <= SIGN_LIMIT
    ensures (low + power) % WORD_LIMIT == low + power
  {}

  // Bit k of the number is the sign.
  lemma SignDecides(x: bv64, k: nat, sign: bool, bit: bv64)
    requires k < 63 && bit == Plus(LowMask(k), 1)
    requires Masked(x, LowMask(k + 1)) == if sign then Plus(Masked(x, LowMask(k)), bit) else Masked(x, LowMask(k))
    ensures LowBits(Unsigned(x), k + 1) == LowBits(Unsigned(x), k) + if sign then Pow2(k) else 0
    ensures sign <==> LowBits(Unsigned(x), k + 1) >= Pow2(k)
  {
    hide Unsigned, Plus, LowMask, Masked, LowBits;
    MaskedNumber(x, k);
    MaskedNumber(x, k + 1);
    LowBitsAre(Unsigned(x), k);
    PowerWord(k);
    SmallPower(k);
    SmallerPower(k);
    if sign {
      UnsignedSum(Masked(x, LowMask(k)), bit);
      PositiveNumber(LowBits(Unsigned(x), k), Pow2(k));
    }
  }

  function InTwosComplement(low: int, half: int): int { if low < half then low else low - 2 * half }

  lemma ByteSignSet(x: bv64)
    requires x & 0x80 != 0
    ensures Masked(x, 0xFF) == Plus(Masked(x, 0x7F), 0x80)
  {}

  lemma ByteExtended(x: bv64)
    requires x & 0x80 != 0
    ensures SextByte(x) == Plus(Masked(x, 0x7F), 0xFFFF_FFFF_FFFF_FF80)
  {}

  lemma ByteSignClear(x: bv64)
    requires x & 0x80 == 0
    ensures SextByte(x) == Masked(x, 0x7F) && Masked(x, 0xFF) == Masked(x, 0x7F)
  {}

  lemma ByteOnes()
    ensures Plus(0xFFFF_FFFF_FFFF_FF80, 0x80) == 0 && Plus(0x7F, 1) == 0x80
  {}

  lemma SextByteIsSigned(x: bv64)
    ensures Signed(SextByte(x)) == InTwosComplement(Unsigned(x) % 0x100, 0x80)
  {
    hide Unsigned, Signed, Plus, LowMask, Masked, LowBits, SextByte;
    var sign := x & 0x80 != 0;
    Masks8();
    ByteOnes();
    if sign {
      ByteSignSet(x);
      ByteExtended(x);
    } else {
      ByteSignClear(x);
    }
    SignDecides(x, 7, sign, 0x80);
    ExtendedNumber(x, SextByte(x), 7, 0xFFFF_FFFF_FFFF_FF80, sign);
    Low8(Unsigned(x));
  }

  lemma HalfSignSet(x: bv64)
    requires x & 0x8000 != 0
    ensures Masked(x, 0xFFFF) == Plus(Masked(x, 0x7FFF), 0x8000)
  {}

  lemma HalfExtended(x: bv64)
    requires x & 0x8000 != 0
    ensures SextHalf(x) == Plus(Masked(x, 0x7FFF), 0xFFFF_FFFF_FFFF_8000)
  {}

  lemma HalfSignClear(x: bv64)
    requires x & 0x8000 == 0
    ensures SextHalf(x) == Masked(x, 0x7FFF) && Masked(x, 0xFFFF) == Masked(x, 0x7FFF)
  {}

  lemma HalfOnes()
    ensures Plus(0xFFFF_FFFF_FFFF_8000, 0x8000) == 0 && Plus(0x7FFF, 1) == 0x8000
  {}

  lemma SextHalfIsSigned(x: bv64)
    ensures Signed(SextHalf(x)) == InTwosComplement(Unsigned(x) % 0x1_0000, 0x8000)
  {
    hide Unsigned, Signed, Plus, LowMask, Masked, LowBits, SextHalf;
    var sign := x & 0x8000 != 0;
    Masks16();
    HalfOnes();
    if sign {
      HalfSignSet(x);
      HalfExtended(x);
    } else {
      HalfSignClear(x);
    }
    SignDecides(x, 15, sign, 0x8000);
    ExtendedNumber(x, SextHalf(x), 15, 0xFFFF_FFFF_FFFF_8000, sign);
    Low16(Unsigned(x));
  }

  lemma WordSignSet(x: bv64)
    requires x & 0x8000_0000 != 0
    ensures Masked(x, 0xFFFF_FFFF) == Plus(Masked(x, 0x7FFF_FFFF), 0x8000_0000)
  {}

  lemma WordExtended(x: bv64)
    requires x & 0x8000_0000 != 0
    ensures SextWord(x) == Plus(Masked(x, 0x7FFF_FFFF), 0xFFFF_FFFF_8000_0000)
  {}

  lemma WordSignClear(x: bv64)
    requires x & 0x8000_0000 == 0
    ensures SextWord(x) == Masked(x, 0x7FFF_FFFF) && Masked(x, 0xFFFF_FFFF) == Masked(x, 0x7FFF_FFFF)
  {}

  lemma WordOnes()
    ensures Plus(0xFFFF_FFFF_8000_0000, 0x8000_0000) == 0 && Plus(0x7FFF_FFFF, 1) == 0x8000_0000
  {}

  lemma SextWordIsSigned(x: bv64)
    ensures Signed(SextWord(x)) == InTwosComplement(Unsigned(x) % 0x1_0000_0000, 0x8000_0000)
  {
    hide Unsigned, Signed, Plus, LowMask, Masked, LowBits, SextWord;
    var sign := x & 0x8000_0000 != 0;
    Masks31();
    Masks32();
    WordOnes();
    if sign {
      WordSignSet(x);
      WordExtended(x);
    } else {
      WordSignClear(x);
    }
    SignDecides(x, 31, sign, 0x8000_0000);
    ExtendedNumber(x, SextWord(x), 31, 0xFFFF_FFFF_8000_0000, sign);
    Low32(Unsigned(x));
  }

  // An immediate's number, which instructions sign-extend.
  lemma SextIsSigned(imm: bv32)
    ensures Signed(Sext(imm)) == InTwosComplement(Unsigned(Wide(imm)), 0x8000_0000)
  {
    hide Unsigned, Signed, SextWord;
    SextWordIsSigned(Wide(imm));
    WideNumber(imm);
  }

  // --- shifts ---

  lemma TwiceWord(m: nat)
    ensures ToWord(m) << 1 == ToWord(2 * m)
  {
    WordSum(m, m, false);
    TwiceIsPlus(ToWord(m));
    TwiceRaw(ToWord(m));
    hide ToWord, Plus;
  }

  lemma TwiceRaw(x: bv64)
    ensures Twice(x) == x << 1
  {}

  lemma TimesTwice(m: int, d: int)
    ensures Times(2 * m, d) == Times(m, 2 * d)
  {}

  lemma TimesOne(m: int)
    ensures Times(m, 1) == m
  {}

  lemma {:induction false} ShiftedWord(m: nat, n: nat)
    ensures Times(m, Pow2(n)) >= 0 && ShiftLeft(ToWord(m), n) == ToWord(Times(m, Pow2(n)))
    decreases n
  {
    hide ToWord, Times;
    if n == 0 {
      TimesOne(m);
    } else {
      TwiceWord(m);
      ShiftedWord(2 * m, n - 1);
      TimesTwice(m, Pow2(n - 1));
    }
  }

  // Shifting left multiplies.
  lemma ShiftLeftMultiplies(x: bv64, n: nat)
    ensures Unsigned(ShiftLeft(x, n)) == Times(Unsigned(x), Pow2(n)) % WORD_LIMIT
  {
    hide ToWord, Unsigned, ShiftLeft, Times, Pow2;
    NumberOfWord(x);
    ShiftedWord(Unsigned(x), n);
    UnsignedOfWord(Times(Unsigned(x), Pow2(n)));
  }

  lemma HalfRaw(x: bv64)
    ensures Half(x) == x >> 1
  {}

  lemma {:induction false} ShiftRightDrops(x: bv64, n: nat)
    ensures Unsigned(ShiftRight(x, n)) == HighBits(Unsigned(x), n)
    decreases n
  {
    hide Unsigned, Half;
    if n > 0 {
      HalfRaw(x);
      HalfNumber(x);
      ShiftRightDrops(Half(x), n - 1);
    }
  }

  // Shifting right divides.
  lemma ShiftRightDivides(x: bv64, n: nat)
    ensures Pow2(n) > 0 && Unsigned(ShiftRight(x, n)) == Quotient(Unsigned(x), Pow2(n))
  {
    hide Unsigned, ShiftRight, HighBits, Pow2, Quotient;
    ShiftRightDrops(x, n);
    HighBitsAre(Unsigned(x), n);
  }

  lemma HalfSignedTop(x: bv64)
    requires Top(x)
    ensures HalfSigned(x) == Plus(Half(x), 0x8000_0000_0000_0000)
  {}

  lemma HalfSignedClear(x: bv64)
    requires !Top(x)
    ensures HalfSigned(x) == Half(x)
  {}

  lemma HalfSignedHalves(x: bv64)
    ensures Signed(HalfSigned(x)) == Signed(x) / 2
  {
    hide Unsigned, Top, Plus, Half, HalfSigned, ToWord;
    TopIsSign(x);
    HalfNumber(x);
    NumberOfWord(x);
    if Top(x) {
      HalfSignedTop(x);
      UnsignedOfSign();
      UnsignedSum(Half(x), 0x8000_0000_0000_0000);
    } else {
      HalfSignedClear(x);
    }
  }

  lemma QuotientOfHalf(s: int, d: nat)
    requires d > 0
    ensures Quotient(s / 2, d) == Quotient(s, 2 * d)
  {
    hide Times, Quotient;
    var q := Quotient(s / 2, d);
    DivisionHolds(s / 2, d);
    TimesTwice(q, d);
    TimesDouble(q, d);
    QuotientUnique(s, 2 * d, q);
  }

  lemma TimesDouble(q: int, d: int)
    ensures Times(q, 2 * d) == 2 * Times(q, d)
  {}

  lemma QuotientByOne(s: int)
    ensures Quotient(s, 1) == s
  {}

  // The arithmetic shift divides the number in two's complement, rounding down.
  lemma {:induction false} ShiftSignedDivides(x: bv64, n: nat)
    ensures Pow2(n) > 0 && Signed(ShiftSigned(x, n)) == Quotient(Signed(x), Pow2(n))
    decreases n
  {
    hide Signed, HalfSigned, Quotient;
    if n == 0 {
      QuotientByOne(Signed(x));
    } else {
      HalfSignedHalves(x);
      ShiftSignedDivides(HalfSigned(x), n - 1);
      QuotientOfHalf(Signed(x), Pow2(n - 1));
    }
  }

  // The shifts of the machine, with the count taken modulo the width.
  lemma ShlMultiplies(x: bv64, k: bv64)
    ensures Unsigned(Shl(x, k)) == Unsigned(x) * Pow2(Unsigned(k) % 64) % WORD_LIMIT
  {
    hide Unsigned, ShiftLeft, Pow2;
    ShiftLeftMultiplies(x, Unsigned(k) % 64);
  }

  lemma ShrDivides(x: bv64, k: bv64)
    ensures Pow2(Unsigned(k) % 64) > 0 && Unsigned(Shr(x, k)) == Unsigned(x) / Pow2(Unsigned(k) % 64)
  {
    hide Unsigned, ShiftRight, Pow2;
    ShiftRightDivides(x, Unsigned(k) % 64);
  }

  lemma SarDivides(x: bv64, k: bv64)
    ensures Pow2(Unsigned(k) % 64) > 0 && Signed(Sar(x, k)) == Signed(x) / Pow2(Unsigned(k) % 64)
  {
    hide Unsigned, Signed, ShiftSigned, Pow2;
    ShiftSignedDivides(x, Unsigned(k) % 64);
  }

  lemma UpperIsShift(imm: bv64)
    ensures Upper(imm) == ShiftLeft(imm, 12)
  {
    assert ShiftLeft(imm, 12) == ShiftLeft(imm << 6, 6);
  }

  lemma UpperMultiplies(imm: bv64)
    ensures Unsigned(Upper(imm)) == Unsigned(imm) * 4096 % WORD_LIMIT
  {
    assert Pow2(12) == 4096;
    hide Unsigned, ShiftLeft, Pow2, Upper;
    UpperIsShift(imm);
    ShiftLeftMultiplies(imm, 12);
  }

  lemma ShlAtMultiplies(w: bv32, c: bv64)
    ensures Unsigned(ShlAt(w, c)) == Unsigned(Wide(w)) * Pow2(Unsigned(c) % 32) % 0x1_0000_0000
  {
    hide Unsigned, ShiftLeft, Pow2, ZextWord;
    var x := ShiftLeft(Wide(w), Unsigned(c) % 32);
    ZextWordIsLow(x);
    ShiftLeftMultiplies(Wide(w), Unsigned(c) % 32);
    LowOfWrapped(Times(Unsigned(Wide(w)), Pow2(Unsigned(c) % 32)));
  }

  lemma ShrAtDivides(w: bv32, c: bv64)
    ensures Pow2(Unsigned(c) % 32) > 0 && Unsigned(ShrAt(w, c)) == Unsigned(Wide(w)) / Pow2(Unsigned(c) % 32)
  {
    hide Unsigned, ShiftRight, Pow2;
    ShiftRightDivides(Wide(w), Unsigned(c) % 32);
  }

  lemma SignedMod(u: int)
    ensures (u - WORD_LIMIT) % 0x1_0000_0000 == u % 0x1_0000_0000
  {}

  lemma SarAtQuotient(w: bv32, c: bv64, n: nat)
    requires n == Unsigned(c) % 32
    ensures Pow2(n) > 0
    ensures Unsigned(SarAt(w, c)) == Quotient(InTwosComplement(Unsigned(Wide(w)), 0x8000_0000), Pow2(n)) % 0x1_0000_0000
  {
    hide Unsigned, ShiftSigned, Pow2, ZextWord, SextWord, Quotient;
    var x := ShiftSigned(SextWord(Wide(w)), n);
    SextWordIsSigned(Wide(w));
    WideNumber(w);
    ShiftSignedDivides(SextWord(Wide(w)), n);
    ZextWordIsLow(x);
    SignedMod(Unsigned(x));
  }

  // The low 32 bits of the quotient of the word in two's complement.
  lemma SarAtDivides(w: bv32, c: bv64)
    ensures Pow2(Unsigned(c) % 32) > 0
    ensures Unsigned(SarAt(w, c))
         == InTwosComplement(Unsigned(Wide(w)), 0x8000_0000) / Pow2(Unsigned(c) % 32) % 0x1_0000_0000
  {
    hide Unsigned, Pow2, SarAt, InTwosComplement;
    SarAtQuotient(w, c, Unsigned(c) % 32);
  }
}
