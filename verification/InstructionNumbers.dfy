/** What the instructions compute, as arithmetic on the numbers their operands stand for. */
module InstructionNumbers {
  import opened Numbers
  import opened Bits
  import opened WordLaws
  import opened Isa

  // The immediate is the sign-extended 32-bit field.
  lemma ImmIsSigned(i: Instr)
    ensures Signed(Imm(i)) == InTwosComplement(Unsigned(Wide(i.imm)), 0x8000_0000)
  {
    hide Unsigned, Signed, Sext;
    SextIsSigned(i.imm);
  }

  // The second operand: a register or the immediate.
  predicate Second(i: Instr, h: Hart, register: bool, b: bv64)
  {
    b == if register then GetReg(h, i.rs2) else Imm(i)
  }

  lemma SumShape(i: Instr, h: Hart, b: bv64)
    requires (i.opcode.ADD? && Second(i, h, true, b)) || (i.opcode.ADDI? && Second(i, h, false, b))
    ensures Value(i, h) == Add(GetReg(h, i.rs1), b)
  {
    hide Unsigned, GetReg, Imm, Add, Sub, And, Or, Xor, Shl, Shr, Sar, Slt, Ult, FromBool, Upper, ShlAt, ShrAt, SarAt,
         Word, Count5, SextWord, ZextWord, AddLow, SubLow;
  }

  lemma ComparisonShape(i: Instr, h: Hart, b: bv64)
    ensures (i.opcode.SLT? && Second(i, h, true, b)) || (i.opcode.SLTI? && Second(i, h, false, b)) ==>
              Value(i, h) == FromBool(Slt(GetReg(h, i.rs1), b))
    ensures (i.opcode.SLTU? && Second(i, h, true, b)) || (i.opcode.SLTIU? && Second(i, h, false, b)) ==>
              Value(i, h) == FromBool(Ult(GetReg(h, i.rs1), b))
  {
    hide Unsigned, GetReg, Imm, Add, Sub, And, Or, Xor, Shl, Shr, Sar, Slt, Ult, FromBool, Upper, ShlAt, ShrAt, SarAt,
         Word, Count5, SextWord, ZextWord, AddLow, SubLow;
  }

  lemma LogicShape(i: Instr, h: Hart, b: bv64)
    ensures (i.opcode.AND? && Second(i, h, true, b)) || (i.opcode.ANDI? && Second(i, h, false, b)) ==>
              Value(i, h) == And(GetReg(h, i.rs1), b)
    ensures (i.opcode.OR? && Second(i, h, true, b)) || (i.opcode.ORI? && Second(i, h, false, b)) ==>
              Value(i, h) == Or(GetReg(h, i.rs1), b)
    ensures (i.opcode.XOR? && Second(i, h, true, b)) || (i.opcode.XORI? && Second(i, h, false, b)) ==>
              Value(i, h) == Xor(GetReg(h, i.rs1), b)
  {
    hide Unsigned, GetReg, Imm, Add, Sub, And, Or, Xor, Shl, Shr, Sar, Slt, Ult, FromBool, Upper, ShlAt, ShrAt, SarAt,
         Word, Count5, SextWord, ZextWord, AddLow, SubLow;
  }

  lemma ShiftShape(i: Instr, h: Hart, b: bv64)
    ensures (i.opcode.SLL? && Second(i, h, true, b)) || (i.opcode.SLLI? && Second(i, h, false, b)) ==>
              Value(i, h) == Shl(GetReg(h, i.rs1), b)
    ensures (i.opcode.SRL? && Second(i, h, true, b)) || (i.opcode.SRLI? && Second(i, h, false, b)) ==>
              Value(i, h) == Shr(GetReg(h, i.rs1), b)
    ensures (i.opcode.SRA? && Second(i, h, true, b)) || (i.opcode.SRAI? && Second(i, h, false, b)) ==>
              Value(i, h) == Sar(GetReg(h, i.rs1), b)
  {
    hide Unsigned, GetReg, Imm, Add, Sub, And, Or, Xor, Shl, Shr, Sar, Slt, Ult, FromBool, Upper, ShlAt, ShrAt, SarAt,
         Word, Count5, SextWord, ZextWord, AddLow, SubLow;
  }

  lemma UpperShape(i: Instr, h: Hart)
    ensures i.opcode.LUI? ==> Value(i, h) == Upper(Imm(i))
    ensures i.opcode.AUIPC? ==> Value(i, h) == Add(h.pc, Upper(Imm(i)))
  {
    hide Unsigned, GetReg, Imm, Add, Sub, And, Or, Xor, Shl, Shr, Sar, Slt, Ult, FromBool, Upper, ShlAt, ShrAt, SarAt,
         Word, Count5, SextWord, ZextWord, AddLow, SubLow;
  }

  lemma SumsAre(i: Instr, h: Hart, b: bv64)
    requires (i.opcode.ADD? && Second(i, h, true, b)) || (i.opcode.ADDI? && Second(i, h, false, b))
    ensures Unsigned(Value(i, h)) == (Unsigned(GetReg(h, i.rs1)) + Unsigned(b)) % WORD_LIMIT
  {
    hide Unsigned, GetReg, Imm, Add, Value;
    SumShape(i, h, b);
    AddIsSum(GetReg(h, i.rs1), b);
  }

  lemma DifferencesAre(i: Instr, h: Hart)
    requires i.opcode.SUB?
    ensures Unsigned(Value(i, h)) == (Unsigned(GetReg(h, i.rs1)) - Unsigned(GetReg(h, i.rs2))) % WORD_LIMIT
  {
    hide Unsigned, GetReg, Imm, Sub;
    SubIsDifference(GetReg(h, i.rs1), GetReg(h, i.rs2));
  }

  lemma SignedComparisonsAre(i: Instr, h: Hart, b: bv64)
    requires (i.opcode.SLT? && Second(i, h, true, b)) || (i.opcode.SLTI? && Second(i, h, false, b))
    ensures Unsigned(Value(i, h)) == if Signed(GetReg(h, i.rs1)) < Signed(b) then 1 else 0
  {
    hide Unsigned, Signed, GetReg, Imm, Slt, FromBool, Value;
    ComparisonShape(i, h, b);
    SltIsOrder(GetReg(h, i.rs1), b);
    FlagsAreNumbers(Slt(GetReg(h, i.rs1), b), 0);
  }

  lemma ComparisonsAre(i: Instr, h: Hart, b: bv64)
    requires (i.opcode.SLTU? && Second(i, h, true, b)) || (i.opcode.SLTIU? && Second(i, h, false, b))
    ensures Unsigned(Value(i, h)) == if Unsigned(GetReg(h, i.rs1)) < Unsigned(b) then 1 else 0
  {
    hide Unsigned, GetReg, Imm, Ult, FromBool, Value;
    ComparisonShape(i, h, b);
    UltIsOrder(GetReg(h, i.rs1), b);
    FlagsAreNumbers(Ult(GetReg(h, i.rs1), b), 0);
  }

  // Bit k of the result, for every k.
  lemma LogicIs(i: Instr, h: Hart, b: bv64, k: nat)
    requires if i.opcode.AND? || i.opcode.OR? || i.opcode.XOR? then Second(i, h, true, b)
             else (i.opcode.ANDI? || i.opcode.ORI? || i.opcode.XORI?) && Second(i, h, false, b)
    ensures var x, y := BitAt(Unsigned(GetReg(h, i.rs1)), k), BitAt(Unsigned(b), k);
            BitAt(Unsigned(Value(i, h)), k) <==>
              if i.opcode.AND? || i.opcode.ANDI? then x && y
              else if i.opcode.OR? || i.opcode.ORI? then x || y
              else x != y
  {
    hide Unsigned, GetReg, Imm, And, Or, Xor, BitAt, Value;
    LogicShape(i, h, b);
    AndIsBitwise(GetReg(h, i.rs1), b, k);
    OrIsBitwise(GetReg(h, i.rs1), b, k);
    XorIsBitwise(GetReg(h, i.rs1), b, k);
  }

  // The count is taken modulo 64; division rounds down.
  lemma ShiftsAre(i: Instr, h: Hart, b: bv64)
    requires if i.opcode.SLL? || i.opcode.SRL? || i.opcode.SRA? then Second(i, h, true, b)
             else (i.opcode.SLLI? || i.opcode.SRLI? || i.opcode.SRAI?) && Second(i, h, false, b)
    ensures var a, p := GetReg(h, i.rs1), Pow2(Unsigned(b) % 64);
            p > 0 &&
            if i.opcode.SLL? || i.opcode.SLLI? then Unsigned(Value(i, h)) == Unsigned(a) * p % WORD_LIMIT
            else if i.opcode.SRL? || i.opcode.SRLI? then Unsigned(Value(i, h)) == Unsigned(a) / p
            else Signed(Value(i, h)) == Signed(a) / p
  {
    hide Unsigned, Signed, GetReg, Imm, Shl, Shr, Sar, Pow2, Value;
    ShiftShape(i, h, b);
    ShlMultiplies(GetReg(h, i.rs1), b);
    ShrDivides(GetReg(h, i.rs1), b);
    SarDivides(GetReg(h, i.rs1), b);
  }

  const WORD32: int := 0x1_0000_0000

  lemma LowAgain(x: int)
    ensures x % WORD32 % WORD32 == x % WORD32
  {}

  lemma LowShifted(r: int, q: int)
    ensures (r + q * WORD32) % WORD32 == r % WORD32
  {}

  lemma SumOfLow(a: int, b: int)
    ensures (a % WORD32 + b % WORD32) % WORD32 == (a + b) % WORD32
  {
    LowShifted(a % WORD32 + b % WORD32, a / WORD32 + b / WORD32);
  }

  // 32-bit sums are sign-extended.
  lemma WordSumsAre(i: Instr, h: Hart, b: bv64)
    requires (i.opcode.ADDW? && Second(i, h, true, b)) || (i.opcode.ADDIW? && Second(i, h, false, b))
    ensures Signed(Value(i, h)) == InTwosComplement((Unsigned(GetReg(h, i.rs1)) + Unsigned(b)) % WORD32, 0x8000_0000)
  {
    hide Unsigned, Signed, GetReg, Imm, SextWord, ZextWord, AddLow;
    var a := GetReg(h, i.rs1);
    SextWordIsSigned(AddLow(ZextWord(a), ZextWord(b)));
    AddLowIsSum(ZextWord(a), ZextWord(b));
    ZextWordIsLow(a);
    ZextWordIsLow(b);
    SumOfLow(Unsigned(a), Unsigned(b));
    LowAgain(Unsigned(a) + Unsigned(b));
  }

  lemma DifferenceOfLow(a: int, b: int)
    ensures (a % WORD32 - b % WORD32) % WORD32 == (a - b) % WORD32
  {
    LowShifted(a % WORD32 - b % WORD32, a / WORD32 - b / WORD32);
  }

  lemma WordDifferencesAre(i: Instr, h: Hart)
    requires i.opcode.SUBW?
    ensures var a, b := Unsigned(GetReg(h, i.rs1)), Unsigned(GetReg(h, i.rs2));
            Signed(Value(i, h)) == InTwosComplement((a - b) % WORD32, 0x8000_0000)
  {
    hide Unsigned, Signed, GetReg, Imm, SextWord, ZextWord, SubLow;
    var a, b := GetReg(h, i.rs1), GetReg(h, i.rs2);
    SextWordIsSigned(SubLow(ZextWord(a), ZextWord(b)));
    SubLowIsDifference(ZextWord(a), ZextWord(b));
    ZextWordIsLow(a);
    ZextWordIsLow(b);
    DifferenceOfLow(Unsigned(a), Unsigned(b));
    LowAgain(Unsigned(a) - Unsigned(b));
  }

  lemma CountMod(b: int)
    ensures b % 32 % 32 == b % 32
  {}

  // 32-bit shifts take the count modulo 32; the logical ones are zero-extended.
  lemma WordShiftsAre(i: Instr, h: Hart, b: bv64)
    requires if i.opcode.SLLW? || i.opcode.SRLW? then Second(i, h, true, b)
             else (i.opcode.SLLIW? || i.opcode.SRLIW?) && Second(i, h, false, b)
    ensures var a, p := Unsigned(GetReg(h, i.rs1)) % WORD32, Pow2(Unsigned(b) % 32);
            p > 0 && Unsigned(Value(i, h)) == if i.opcode.SLLW? || i.opcode.SLLIW? then a * p % WORD32 else a / p
  {
    hide Unsigned, GetReg, Imm, Word, Count5, ShlAt, ShrAt, Pow2;
    var a := GetReg(h, i.rs1);
    WordIsLow(a);
    Count5IsLow(b);
    CountMod(Unsigned(b));
    ShlAtMultiplies(Word(a), Count5(b));
    ShrAtDivides(Word(a), Count5(b));
  }

  lemma WordQuotient(x: int, p: nat)
    requires p > 0 && -0x8000_0000 <= x < 0x8000_0000
    ensures InTwosComplement(Quotient(x, p) % WORD32 % WORD32, 0x8000_0000) == Quotient(x, p)
  {
    QuotientShrinks(x, p);
    ShortIsItself(Quotient(x, p));
  }

  lemma ShortIsItself(q: int)
    requires -0x8000_0000 <= q < 0x8000_0000
    ensures InTwosComplement(q % WORD32 % WORD32, 0x8000_0000) == q
  {}

  lemma QuotientShrinks(x: int, p: nat)
    requires p > 0 && -0x8000_0000 <= x < 0x8000_0000
    ensures -0x8000_0000 <= Quotient(x, p) < 0x8000_0000
  {
    hide Times, Quotient;
    DivisionHolds(x, p);
    var q := Quotient(x, p);
    TimesZero(p);
    if q >= 0x8000_0000 {
      TimesAtLeast(q, p);
    }
    if q < -0x8000_0000 {
      TimesAtLeast(-q - 1, p);
      TimesNegated(-q - 1, p);
    }
  }

  lemma TimesZero(p: nat)
    ensures Times(0, p) == 0
  {}

  lemma TimesNegated(q: int, p: nat)
    ensures Times(-q - 1, p) == -Times(q, p) - p
  {}

  lemma {:induction false} TimesAtLeast(q: nat, p: nat)
    requires p > 0
    ensures Times(q, p) >= q
  {
    hide Times;
    TimesZero(p);
    if q > 0 {
      TimesMonotone(0, q, p);
      TimesAtLeast(q - 1, p);
      TimesMonotone(q - 1, q, p);
    }
  }

  // The arithmetic one divides the signed word, rounding down.
  lemma SignedWordShiftsAre(i: Instr, h: Hart, b: bv64)
    requires (i.opcode.SRAW? && Second(i, h, true, b)) || (i.opcode.SRAIW? && Second(i, h, false, b))
    ensures var x, p := InTwosComplement(Unsigned(GetReg(h, i.rs1)) % WORD32, 0x8000_0000), Pow2(Unsigned(b) % 32);
            p > 0 && Signed(Value(i, h)) == x / p
  {
    hide Unsigned, Signed, GetReg, Imm, SextWord, Word, Count5, SarAt, Pow2;
    var a := GetReg(h, i.rs1);
    WordIsLow(a);
    Count5IsLow(b);
    CountMod(Unsigned(b));
    SarAtDivides(Word(a), Count5(b));
    SextWordIsSigned(SarAt(Word(a), Count5(b)));
    WordQuotient(InTwosComplement(Unsigned(a) % WORD32, 0x8000_0000), Pow2(Unsigned(b) % 32));
  }

  lemma LimitShifted(r: int, q: int)
    ensures (r + q * WORD_LIMIT) % WORD_LIMIT == r % WORD_LIMIT
  {}

  lemma WrapsOnce(p: int, u: int)
    ensures (p + u % WORD_LIMIT) % WORD_LIMIT == (p + u) % WORD_LIMIT
  {
    LimitShifted(p + u % WORD_LIMIT, u / WORD_LIMIT);
  }

  lemma UpperIs(i: Instr, h: Hart)
    requires i.opcode.LUI? || i.opcode.AUIPC?
    ensures var upper := Unsigned(Imm(i)) * 4096;
            Unsigned(Value(i, h)) == (if i.opcode.LUI? then upper else Unsigned(h.pc) + upper) % WORD_LIMIT
  {
    hide Unsigned, GetReg, Imm, Upper, Add, Value;
    UpperShape(i, h);
    WrapsOnce(Unsigned(h.pc), Unsigned(Imm(i)) * 4096);
    UpperMultiplies(Imm(i));
    AddIsSum(h.pc, Upper(Imm(i)));
  }

  // When a branch is taken.
  lemma BranchesAre(op: Opcode, a: bv64, b: bv64)
    requires IsBranch(op)
    ensures Taken(op, a, b) <==>
              if op.BEQ? then Unsigned(a) == Unsigned(b)
              else if op.BNE? then Unsigned(a) != Unsigned(b)
              else if op.BLT? then Signed(a) < Signed(b)
              else if op.BGE? then Signed(a) >= Signed(b)
              else if op.BLTU? then Unsigned(a) < Unsigned(b)
              else Unsigned(a) >= Unsigned(b)
  {
    hide Unsigned, Signed, Same, Slt, Ult, FromBool, NeqOne;
    SameIsEqual(a, b);
    SltIsOrder(a, b);
    UltIsOrder(a, b);
    NegatedFlag(Slt(a, b));
    NegatedFlag(Ult(a, b));
  }
}
