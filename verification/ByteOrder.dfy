/** Memory reads and writes as little-endian numbers. */
module ByteOrder {
  import opened Numbers
  import opened Bits
  import opened WordLaws
  import opened Memory
  import opened ByteMemory

  function ByteWord(b: bv8): bv64 { b as bv64 }

  // The bytes of a number to the base 256, lowest first.
  function NumberOf(s: seq<bv8>): nat { if s == [] then 0 else Unsigned(ByteWord(s[0])) + 256 * NumberOf(s[1..]) }

  lemma GlueIsPlus(low: bv8, rest: bv64)
    ensures Glue(low, rest) == Plus(ByteWord(low), rest << 8)
  {}

  lemma Left8(x: bv64)
    ensures ShiftLeft(x, 8) == x << 8
  {}

  lemma GluedWraps(b: int, u: int, n: int, x: int)
    requires u == n % WORD_LIMIT && x == (256 * u) % WORD_LIMIT
    ensures (b + x) % WORD_LIMIT == (b + 256 * n) % WORD_LIMIT
  {
    var q, p := n / WORD_LIMIT, (256 * u) / WORD_LIMIT;
    assert n == q * WORD_LIMIT + u && 256 * u == p * WORD_LIMIT + x;
    WrapsBy(b + x, p + 256 * q);
  }

  lemma WrapsBy(r: int, q: int)
    ensures r % WORD_LIMIT == (r + q * WORD_LIMIT) % WORD_LIMIT
  {}

  lemma GlueIsSum(low: bv8, rest: bv64, n: nat)
    requires Unsigned(rest) == n % WORD_LIMIT
    ensures Unsigned(Glue(low, rest)) == (Unsigned(ByteWord(low)) + 256 * n) % WORD_LIMIT
  {
    hide Unsigned, Plus, Glue, ByteWord, ShiftLeft, Pow2, LowMask;
    GlueIsPlus(low, rest);
    UnsignedSum(ByteWord(low), rest << 8);
    Left8(rest);
    ShiftLeftMultiplies(rest, 8);
    Masks8();
    GluedWraps(Unsigned(ByteWord(low)), Unsigned(rest), n, Unsigned(rest << 8));
  }

  // The word with the given bytes is their number, modulo 2^64.
  lemma {:induction false} WordIsNumber(s: seq<bv8>)
    ensures Unsigned(WordOf(s)) == NumberOf(s) % WORD_LIMIT
  {
    hide Unsigned, Glue, ByteWord;
    if s == [] {
      UnsignedOfZero();
    } else {
      WordIsNumber(s[1..]);
      GlueIsSum(s[0], WordOf(s[1..]), NumberOf(s[1..]));
    }
  }

  // A read gives the number of the bytes from its address on.
  lemma ReadIsNumber(m: Mem, a: bv64, n: nat)
    ensures Unsigned(Read(m, a, n)) == NumberOf(BytesAt(m, a, n)) % WORD_LIMIT
  {
    hide Unsigned;
    ReadIsWordOf(m, a, n);
    WordIsNumber(BytesAt(m, a, n));
  }

  lemma {:induction false} LowBitsJoin(u: nat, a: nat, b: nat)
    ensures LowBits(u, a + b) == LowBits(u, a) + Pow2(a) * LowBits(HighBits(u, a), b)
    decreases a
  {
    if a > 0 {
      LowBitsJoin(u / 2, a - 1, b);
      DoubledProduct(Pow2(a - 1), LowBits(HighBits(u, a), b));
    }
  }

  lemma DoubledProduct(p: nat, x: nat)
    ensures (2 * p) * x == 2 * (p * x)
  {}

  lemma LowByte(v: bv64)
    ensures Unsigned(ByteWord((v & 0xFF) as bv8)) == LowBits(Unsigned(v), 8)
  {
    hide Unsigned, LowMask, LowBits;
    Masks8();
    LowByteRaw(v);
    MaskedNumber(v, 8);
  }

  lemma LowByteRaw(v: bv64)
    ensures ByteWord((v & 0xFF) as bv8) == Masked(v, 0xFF)
  {}

  lemma Right8(x: bv64)
    ensures ShiftRight(x, 8) == x >> 8
  {}

  lemma {:induction false} BytesAreLow(v: bv64, n: nat)
    ensures NumberOf(BytesOf(v, n)) == LowBits(Unsigned(v), 8 * n)
    decreases n
  {
    hide Unsigned, ByteWord, ShiftRight, HighBits;
    if n > 0 {
      LowByte(v);
      Right8(v);
      ShiftRightDrops(v, 8);
      BytesAreLow(v >> 8, n - 1);
      LowBitsJoin(Unsigned(v), 8, 8 * (n - 1));
      assert BytesOf(v, n)[1..] == BytesOf(v >> 8, n - 1);
      Masks8();
    }
  }

  lemma RemainderIs(u: nat, d: nat, r: nat, q: int)
    requires d > 0 && r < d && u == r + Times(q, d) && Quotient(u, d) == q
    ensures u % d == r
  {}

  // A write of n bytes leaves the number it was given, modulo 256^n.
  lemma WriteIsNumber(m: Mem, a: bv64, v: bv64, n: nat)
    requires Proper(a, n)
    ensures Pow2(8 * n) > 0
    ensures NumberOf(BytesAt(Write(m, a, v, n), a, n)) == Unsigned(v) % Pow2(8 * n)
  {
    hide Unsigned, Write, LowBits, HighBits, Pow2, Times, Quotient;
    WriteIsBytesOf(m, a, v, n);
    BytesAreLow(v, n);
    LowBitsAre(Unsigned(v), 8 * n);
    HighBitsAre(Unsigned(v), 8 * n);
    RemainderIs(Unsigned(v), Pow2(8 * n), LowBits(Unsigned(v), 8 * n), HighBits(Unsigned(v), 8 * n));
  }
}
