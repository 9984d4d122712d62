/** The constants of the instruction DSL: Ruby integers, written into the C++ with the suffix U. */
module Constants {
  import opened Bits
  import opened Numbers

  const WORD32: int := 0x1_0000_0000

  // The 64-bit value of an integer.
  function Value64(v: int): bv64 { ToWord(v % WORD_LIMIT) }

  // The digits fit an unsigned C++ type.
  predicate Representable(v: int) { -WORD_LIMIT < v < WORD_LIMIT }

  // The digits fit 32 bits, and the minus sign before them works in 32 bits.
  predicate ShortNegative(v: int) { -WORD32 < v < 0 }

  // What the literal stands for: the digits are an unsigned int if they fit one and an unsigned
  // long otherwise, negated in their own type, and then converted to 64 bits. Without a type wide
  // enough the literal is not C++.
  function LiteralNumber(v: int): Option<nat>
  {
    if !Representable(v) then None
    else Some(if v >= 0 then v else if ShortNegative(v) then WORD32 + v else WORD_LIMIT + v)
  }

  function LiteralWord(v: int): bv64
  {
    match LiteralNumber(v)
    case None => 0
    case Some(n) => ToWord(n)
  }

  predicate GoodLiteral(v: int) { Representable(v) && !ShortNegative(v) }

  // The emitted constant has the integer's 64-bit value exactly if the integer is in one of two
  // ranges.
  lemma LiteralExactly(v: int)
    ensures LiteralNumber(v).Some? && LiteralWord(v) == Value64(v) <==>
            0 <= v < WORD_LIMIT || -WORD_LIMIT < v <= -WORD32
  {
    hide ToWord;
    if ShortNegative(v) && ToWord(WORD32 + v) == ToWord(WORD_LIMIT + v) {
      WordInjective(WORD32 + v, WORD_LIMIT + v);
    }
  }

  lemma GoodLiteralIsRight(v: int)
    requires GoodLiteral(v)
    ensures LiteralWord(v) == Value64(v)
  {
    hide ToWord;
    LiteralExactly(v);
  }

  lemma MinusOneLiteral()
    ensures LiteralWord(-1) == 0xFFFF_FFFF && Value64(-1) == 0xFFFF_FFFF_FFFF_FFFF
  {
    hide ToWord, LowMask, Pow2;
    Masks32();
    Masks64();
    AllOnes(32);
    AllOnes(64);
  }

  // --- masking ---

  lemma LowTwo(n: nat)
    ensures LowBits(n, 2) == n % 4
  {
    assert LowBits(n / 2, 1) == n / 2 % 2;
  }

  lemma LowThree(n: nat)
    ensures LowBits(n, 3) == n % 8
  {
    LowTwo(n / 2);
    assert n % 8 == n % 2 + 2 * (n / 2 % 4);
  }

  lemma LowFour(n: nat)
    ensures LowBits(n, 4) == n % 16
  {
    LowThree(n / 2);
    assert n % 16 == n % 2 + 2 * (n / 2 % 8);
  }

  lemma FiveBits()
    ensures LowMask(5) == 31
  {}

  lemma LowFive(n: nat)
    ensures LowBits(n, 5) == n % 32
  {
    LowFour(n / 2);
    assert n % 32 == n % 2 + 2 * (n / 2 % 16);
  }

  lemma RemainderTwice(v: int)
    ensures v % WORD_LIMIT % 32 == v % 32 && v % 32 % WORD_LIMIT == v % 32
  {}

  // Masking an integer's low five bits is masking those of its word; the result is a good constant.
  lemma CountOfInteger(v: int)
    ensures Count5(Value64(v)) == Value64(v % 32) && GoodLiteral(v % 32)
  {
    hide ToWord, Masked, LowBits, LowMask, Count5;
    var n := v % WORD_LIMIT;
    RemainderTwice(v);
    MaskOfWord(n, 5);
    LowFive(n);
    FiveBits();
    CountIsMasked(ToWord(n));
  }

  lemma CountIsMasked(x: bv64)
    ensures Count5(x) == Masked(x, 31)
  {}

  // The constants of the ISA description and of the DSL itself.
  lemma ShippedLiterals()
    ensures GoodLiteral(1) && GoodLiteral(4) && GoodLiteral(12) && GoodLiteral(31)
    ensures Value64(1) == 1 && Value64(4) == 4 && Value64(12) == 12 && Value64(31) == 31
  {}
}
