/** 64-bit words and the C++ operations on them that Dafny's bit-vectors do not offer directly. */
module Bits {
  import opened Numbers

  datatype Option<+T> = None | Some(value: T)

  // Truncation to 8, 16 or 32 bits and sign extension back to 64.
  function SextByte(x: bv64): bv64 { ((x & 0xFF) ^ 0x80) - 0x80 }
  function SextHalf(x: bv64): bv64 { ((x & 0xFFFF) ^ 0x8000) - 0x8000 }
  function SextWord(x: bv64): bv64 { ((x & 0xFFFF_FFFF) ^ 0x8000_0000) - 0x8000_0000 }

  predicate Same(a: bv64, b: bv64) { a == b }

  predicate Ult(a: bv64, b: bv64) { a < b }

  // The zero-extended low byte, half and word.
  function ZextByte(x: bv64): bv64 { x & 0xFF }
  function ZextHalf(x: bv64): bv64 { x & 0xFFFF }
  function ZextWord(x: bv64): bv64 { x & 0xFFFF_FFFF }

  // `static_cast<uint64_t>(int32_t)`.
  function Sext(imm: bv32): bv64 { SextWord(imm as bv64) }

  // `static_cast<int64_t>(a) < static_cast<int64_t>(b)`.
  predicate Slt(a: bv64, b: bv64) { (a ^ 0x8000_0000_0000_0000) < (b ^ 0x8000_0000_0000_0000) }

  function FromBool(b: bool): bv64 { if b then 1 else 0 }

  // `neq(x, 1)`.
  predicate NeqOne(x: bv64) { x != 1 }

  lemma NegatedFlag(b: bool)
    ensures NeqOne(FromBool(b)) <==> !b
  {}

  // 64-bit wrap-around arithmetic and logic.
  function Add(a: bv64, b: bv64): bv64 { a + b }
  function Sub(a: bv64, b: bv64): bv64 { a - b }
  function And(a: bv64, b: bv64): bv64 { a & b }
  function Or(a: bv64, b: bv64): bv64 { a | b }
  function Xor(a: bv64, b: bv64): bv64 { a ^ b }

  // 32-bit wrap-around arithmetic, the result zero-extended.
  function AddLow(a: bv64, b: bv64): bv64 { (a + b) & 0xFFFF_FFFF }
  function SubLow(a: bv64, b: bv64): bv64 { (a - b) & 0xFFFF_FFFF }

  // The 20-bit immediate of lui and auipc in place.
  function Upper(imm: bv64): bv64 { imm << 12 }

  // Shifts by one place at a time.
  function ShiftLeft(x: bv64, n: nat): bv64
    decreases n
  {
    if n == 0 then x else ShiftLeft(x << 1, n - 1)
  }

  function ShiftRight(x: bv64, n: nat): bv64
    decreases n
  {
    if n == 0 then x else ShiftRight(x >> 1, n - 1)
  }

  // The sign bit stays.
  function HalfSigned(x: bv64): bv64 { (x >> 1) | (x & 0x8000_0000_0000_0000) }

  function ShiftSigned(x: bv64, n: nat): bv64
    decreases n
  {
    if n == 0 then x else ShiftSigned(HalfSigned(x), n - 1)
  }

  // The host takes the count modulo the operand width.
  function Shl(x: bv64, k: bv64): bv64 { ShiftLeft(x, Unsigned(k) % 64) }
  function Shr(x: bv64, k: bv64): bv64 { ShiftRight(x, Unsigned(k) % 64) }
  function Sar(x: bv64, k: bv64): bv64 { ShiftSigned(x, Unsigned(k) % 64) }

  // 32-bit shifts of a word by the low five bits of the count; the result is zero-extended.
  function Word(x: bv64): bv32 { (x & 0xFFFF_FFFF) as bv32 }

  function Count5(k: bv64): bv64 { k & 31 }

  function ShlAt(w: bv32, c: bv64): bv64 { ZextWord(ShiftLeft(w as bv64, Unsigned(c) % 32)) }
  function ShrAt(w: bv32, c: bv64): bv64 { ShiftRight(w as bv64, Unsigned(c) % 32) }
  function SarAt(w: bv32, c: bv64): bv64 { ZextWord(ShiftSigned(SextWord(w as bv64), Unsigned(c) % 32)) }

  lemma WordOfZext(x: bv64)
    ensures Word(ZextWord(x)) == Word(x)
  {
    assert (x & 0xFFFF_FFFF) & 0xFFFF_FFFF == x & 0xFFFF_FFFF;
  }

  lemma CountOfZext(k: bv64)
    ensures Count5(ZextWord(k)) == Count5(k)
  {
    assert (k & 0xFFFF_FFFF) & 31 == k & 31;
  }

  lemma AddLowOfLow(x: bv64, y: bv64, z: bv64)
    requires z == y & 0xFFFF_FFFF
    ensures AddLow(x, y) == AddLow(x, z)
  {}

  lemma AddLowOfZext(x: bv64, y: bv64)
    ensures AddLow(x, ZextWord(y)) == AddLow(x, y)
  {
    AddLowOfLow(x, y, ZextWord(y));
  }

  predicate Clear(x: bv64, mask: bv64) { x & mask == 0 }

  lemma SextByteIsZeroExtension(x: bv64)
    ensures SextByte(x) == ZextByte(x) <==> Clear(x, 0x80)
  {}

  lemma SextHalfIsZeroExtension(x: bv64)
    ensures SextHalf(x) == ZextHalf(x) <==> Clear(x, 0x8000)
  {}

  lemma SextWordIsZeroExtension(x: bv64)
    ensures SextWord(x) == ZextWord(x) <==> Clear(x, 0x8000_0000)
  {}

  lemma ZextTwice(x: bv64)
    ensures ZextWord(ZextWord(x)) == ZextWord(x)
  {}

  lemma SextZero()
    ensures Sext(0) == 0
  {}

  lemma AddZero(a: bv64)
    ensures Add(a, 0) == a
  {}
}
