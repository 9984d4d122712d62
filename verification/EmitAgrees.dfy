/** The emitted sequence of every instruction against the executer's semantics of it. */
module EmitAgrees {
  import opened Bits
  import opened Memory
  import opened Sv39
  import opened Isa
  import opened X86
  import opened Emit

  // The state in which an emitted sequence starts: x0's cell holds 0, and the direct memory
  // path was compiled in only if paging is off.
  predicate Ready(direct: bool, x: State)
  {
    x.hart.status == Running && Cell(x.hart, 0) == 0 && (direct ==> Mode(x.hart.satp) == 0)
  }

  // What rax holds after the value code: sllw and slliw sign-extend where the executer does not.
  function EmittedValue(i: Instr, h: Hart): bv64
  {
    if i.opcode.SLLW? || i.opcode.SLLIW? then SextWord(Value(i, h)) else Value(i, h)
  }

  // The code leaves v in rax and touches nothing of the hart.
  ghost predicate Computes(code: seq<Ins>, v: bv64, x: State, junk: bv64)
  {
    var y := Run(code, x, junk);
    y.cpu.rax == v && y.hart == x.hart && y.count == x.count
  }

  predicate Less(cc: Cond, a: bv64, b: bv64) { if cc == CcL then Slt(a, b) else Ult(a, b) }

  lemma RegRegComputes(i: Instr, op: AluOp, x: State, junk: bv64)
    requires Ready(false, x)
    ensures Computes(RegReg(i, op), AluValue(op, GetReg(x.hart, i.rs1), GetReg(x.hart, i.rs2)), x, junk)
  {
    hide AluValue, Load, Store, SizeArg, Extended, Cpu.Holds;
    Run3(Do(Mov(RAX, RegCell(i.rs1))), Do(Mov(RDX, RegCell(i.rs2))), Do(Alu(op, RAX, R(RDX))), x, junk);
  }

  lemma RegImmComputes(i: Instr, op: AluOp, x: State, junk: bv64)
    requires Ready(false, x)
    ensures Computes(RegImm(i, op), AluValue(op, GetReg(x.hart, i.rs1), Imm(i)), x, junk)
  {
    hide AluValue, Load, Store, Write, FromBool;
    Run2(Do(Mov(RAX, RegCell(i.rs1))), Do(Alu(op, RAX, Const(Imm(i)))), x, junk);
  }

  lemma ShiftRegComputes(i: Instr, sh: ShiftOp, x: State, junk: bv64)
    requires Ready(false, x)
    ensures Computes(ShiftReg(i, sh), ShiftValue(sh, GetReg(x.hart, i.rs1), GetReg(x.hart, i.rs2)), x, junk)
  {
    Run3(Do(Mov(RAX, RegCell(i.rs1))), Do(Mov(RCX, RegCell(i.rs2))), Do(Shift(sh, RAX, R(RCX))), x, junk);
  }

  lemma ShiftImmComputes(i: Instr, sh: ShiftOp, x: State, junk: bv64)
    requires Ready(false, x)
    ensures Computes(ShiftImm(i, sh), ShiftValue(sh, GetReg(x.hart, i.rs1), Imm(i)), x, junk)
  {
    hide Ult, ZextWord, AluValue32, AluValue, ShiftValue, ShiftValue32, Imm, Load, Store, Read, Write, SizeArg,
         Cpu.Clobbered, Extended, Cpu.Holds, FromBool;
    Run2(Do(Mov(RAX, RegCell(i.rs1))), Do(Shift(sh, RAX, Const(Imm(i)))), x, junk);
  }

  lemma RegRegWComputes(i: Instr, op: AluOp, x: State, junk: bv64)
    requires Ready(false, x)
    ensures Computes(RegRegW(i, op),
            SextWord(AluValue32(op, ZextWord(GetReg(x.hart, i.rs1)), ZextWord(GetReg(x.hart, i.rs2)))), x, junk)
  {
    hide AluValue, ShiftValue, Load, Store, Read, Write, Cpu.Clobbered, Cpu.Holds;
    Run4(Do(Mov(RAX, RegCell32(i.rs1))), Do(Mov(RDX, RegCell32(i.rs2))), Do(Alu32(op, RAX, R(RDX))),
      Do(Ext(Sx32, RAX)), x, junk);
  }

  lemma AddImmWComputes(i: Instr, x: State, junk: bv64)
    requires Ready(false, x)
    ensures Computes(AddImmW(i), SextWord(AddLow(ZextWord(GetReg(x.hart, i.rs1)), Imm(i))), x, junk)
  {
    hide Read, Write, SizeArg, Cpu.Clobbered, Cpu.Holds, AddLow;
    Run3(Do(Mov(RAX, RegCell32(i.rs1))), Do(Alu32(AddOp, RAX, Const(Imm(i)))), Do(Ext(Sx32, RAX)), x, junk);
  }

  lemma LuiCodeComputes(i: Instr, x: State, junk: bv64)
    requires Ready(false, x)
    ensures Computes(LuiCode(i), Upper(Imm(i)), x, junk)
  {
    hide Load, Store, Extended, Cpu.Holds;
    Run1(Do(Mov(RAX, Const(Upper(Imm(i))))), x, junk);
  }

  lemma AuipcCodeComputes(i: Instr, x: State, junk: bv64)
    requires Ready(false, x)
    ensures Computes(AuipcCode(i), Add(x.hart.pc, Upper(Imm(i))), x, junk)
  {
    hide Store, Read, Write, SizeArg, Cpu.Clobbered, Extended, Cpu.Holds, FromBool, Add;
    Run2(Do(Mov(RAX, PcCell)), Do(Alu(AddOp, RAX, Const(Upper(Imm(i))))), x, junk);
  }

  lemma ShiftRegWComputes(i: Instr, sh: ShiftOp, x: State, junk: bv64)
    requires Ready(false, x)
    ensures Computes(ShiftRegW(i, sh),
            ShiftValue32(sh, ZextWord(GetReg(x.hart, i.rs1)), ZextWord(GetReg(x.hart, i.rs2))), x, junk)
  {
    hide Ult, ZextWord, AluValue32, AluValue, ShiftValue, ShiftValue32, Imm, Load, Store, Read, Write, SizeArg,
         Cpu.Clobbered, Extended, Cpu.Holds, FromBool;
    Run3(Do(Mov(RAX, RegCell32(i.rs1))), Do(Mov(RCX, RegCell32(i.rs2))), Do(Shift32(sh, RAX, R(RCX))), x, junk);
  }

  lemma ShiftImmWComputes(i: Instr, sh: ShiftOp, x: State, junk: bv64)
    requires Ready(false, x)
    ensures Computes(ShiftImmW(i, sh), ShiftValue32(sh, ZextWord(GetReg(x.hart, i.rs1)), Imm(i)), x, junk)
  {
    hide ShiftValue32;
    Run2(Do(Mov(RAX, RegCell32(i.rs1))), Do(Shift32(sh, RAX, Const(Imm(i)))), x, junk);
  }

  lemma LowByteOfFlag(v: bv64, b: bool)
    ensures Extended(Zx8, WithFlag(v, b)) == FromBool(b)
  {
    if b {
      assert ((v & !0xFF) | 1) & 0xFF == 1;
    } else {
      assert ((v & !0xFF) | 0) & 0xFF == 0;
    }
  }

  lemma HoldsLess(c: Cpu, cc: Cond, a: bv64, b: bv64)
    requires c.flags == Compared(a, b) && (cc == CcL || cc == CcB)
    ensures c.Holds(cc) == Less(cc, a, b)
  {
    hide Ult;
  }

  lemma SetLessComputes(i: Instr, cc: Cond, x: State, junk: bv64)
    requires Ready(false, x) && (cc == CcL || cc == CcB)
    ensures Computes(SetLess(i, cc), FromBool(Less(cc, GetReg(x.hart, i.rs1), GetReg(x.hart, i.rs2))), x, junk)
  {
    hide Ult, ZextWord, AluValue32, AluValue, ShiftValue, ShiftValue32, Imm, Load, Store, Read, Write, SizeArg,
         Cpu.Clobbered, Extended, FromBool, WithFlag, Slt, Cpu.Holds, Less;
    Run5(Do(Mov(RAX, RegCell(i.rs1))), Do(Mov(RDX, RegCell(i.rs2))), Do(Cmp(RAX, R(RDX))), Do(SetCc(cc, RAX)),
      Do(Ext(Zx8, RAX)), x, junk);
    var y := Run([Do(Mov(RAX, RegCell(i.rs1))), Do(Mov(RDX, RegCell(i.rs2))), Do(Cmp(RAX, R(RDX)))], x, junk);
    Run3(Do(Mov(RAX, RegCell(i.rs1))), Do(Mov(RDX, RegCell(i.rs2))), Do(Cmp(RAX, R(RDX))), x, junk);
    HoldsLess(y.cpu, cc, GetReg(x.hart, i.rs1), GetReg(x.hart, i.rs2));
    LowByteOfFlag(GetReg(x.hart, i.rs1), Less(cc, GetReg(x.hart, i.rs1), GetReg(x.hart, i.rs2)));
  }

  lemma SetLessImmComputes(i: Instr, cc: Cond, x: State, junk: bv64)
    requires Ready(false, x) && (cc == CcL || cc == CcB)
    ensures Computes(SetLessImm(i, cc), FromBool(Less(cc, GetReg(x.hart, i.rs1), Imm(i))), x, junk)
  {
    hide Ult, ZextWord, AluValue32, AluValue, ShiftValue, ShiftValue32, Imm, Load, Store, Read, Write, SizeArg,
         Cpu.Clobbered, Extended, FromBool, WithFlag, Slt, Cpu.Holds, Less;
    Run4(Do(Mov(RAX, RegCell(i.rs1))), Do(Cmp(RAX, Const(Imm(i)))), Do(SetCc(cc, RAX)), Do(Ext(Zx8, RAX)), x, junk);
    var y := Run([Do(Mov(RAX, RegCell(i.rs1))), Do(Cmp(RAX, Const(Imm(i))))], x, junk);
    Run2(Do(Mov(RAX, RegCell(i.rs1))), Do(Cmp(RAX, Const(Imm(i)))), x, junk);
    HoldsLess(y.cpu, cc, GetReg(x.hart, i.rs1), Imm(i));
    LowByteOfFlag(GetReg(x.hart, i.rs1), Less(cc, GetReg(x.hart, i.rs1), Imm(i)));
  }

  lemma ShiftWArguments(sh: ShiftOp, a: bv64, k: bv64)
    ensures ShiftValue32(sh, ZextWord(a), k) == ShiftValue32(sh, a, k)
    ensures ShiftValue32(sh, ZextWord(a), ZextWord(k)) == ShiftValue32(sh, a, k)
  {
    WordOfZext(a);
    CountOfZext(k);
  }

  lemma Append1Computes(code: seq<Ins>, v: bv64, x: State, junk: bv64)
    requires Computes(code, v, x, junk) && x.hart.status == Running
    ensures Computes(code + [Do(Ext(Sx32, RAX))], SextWord(v), x, junk)
  {
    RunAppend(code, [Do(Ext(Sx32, RAX))], x, junk);
    Run1(Do(Ext(Sx32, RAX)), Run(code, x, junk), junk);
    hide SextWord, ZextWord, SextHalf, ZextHalf, SextByte, ZextByte;
  }

  lemma AddiwComputes(i: Instr, x: State, junk: bv64)
    requires Ready(false, x) && i.opcode.ADDIW?
    ensures Computes(ValueCode(i), EmittedValue(i, x.hart), x, junk)
  {
    hide Computes, Imm, RegReg, RegImm, ShiftReg, ShiftImm, SetLess, SetLessImm, RegRegW, ShiftRegW, ShiftImmW,
         AddImmW, LuiCode, AuipcCode,
         GetReg, Add, Sub, And, Or, Xor, Upper, Shl, Shr, Sar, Slt, Ult, FromBool, Word, Count5, ShlAt, ShrAt, SarAt,
         ZextWord, SextWord,
         AddLow, SubLow, Same, NeqOne;
    AddImmWComputes(i, x, junk);
    AddLowOfZext(ZextWord(GetReg(x.hart, i.rs1)), Imm(i));
  }

  lemma UpperComputes(i: Instr, x: State, junk: bv64)
    requires Ready(false, x) && (i.opcode.LUI? || i.opcode.AUIPC?)
    ensures Computes(ValueCode(i), EmittedValue(i, x.hart), x, junk)
  {
    hide Computes, Imm, RegReg, RegImm, ShiftReg, ShiftImm, SetLess, SetLessImm, RegRegW, ShiftRegW, ShiftImmW,
         AddImmW, LuiCode, AuipcCode, GetReg, Add, Sub, And, Or, Xor, Upper, Shl, Shr, Sar, Slt, Ult, FromBool, Word,
         Count5, ShlAt, ShrAt, SarAt, ZextWord, SextWord, AddLow, SubLow, Same, NeqOne;
    if i.opcode.LUI? {
      LuiCodeComputes(i, x, junk);
    } else {
      AuipcCodeComputes(i, x, junk);
    }
  }

  lemma AddSubCompute(i: Instr, x: State, junk: bv64)
    requires Ready(false, x) && (i.opcode.ADD? || i.opcode.SUB?)
    ensures Computes(ValueCode(i), EmittedValue(i, x.hart), x, junk)
  {
    hide Computes, AuipcCode, Sub, Or, Xor, Upper, Shl, Shr, Sar, Slt, Ult, FromBool, Word, Count5, ShlAt, ShrAt,
         SextWord, SubLow;
    if i.opcode.ADD? {
      RegRegComputes(i, AddOp, x, junk);
    } else {
      RegRegComputes(i, SubOp, x, junk);
    }
  }

  lemma LogicComputes(i: Instr, x: State, junk: bv64)
    requires Ready(false, x) && (i.opcode.XOR? || i.opcode.OR? || i.opcode.AND?)
    ensures Computes(ValueCode(i), EmittedValue(i, x.hart), x, junk)
  {
    hide Computes, Imm, RegReg, RegImm, ShiftReg, ShiftImm, SetLess, SetLessImm, RegRegW, ShiftRegW, ShiftImmW,
         AddImmW, LuiCode, AuipcCode, GetReg, Add, Sub, And, Or, Xor, Upper, Shl, Shr, Sar, Slt, Ult, FromBool, Word,
         Count5, ShlAt, ShrAt, SarAt, ZextWord, SextWord, AddLow, SubLow, Same, NeqOne;
    if i.opcode.XOR? {
      RegRegComputes(i, XorOp, x, junk);
    } else if i.opcode.OR? {
      RegRegComputes(i, OrOp, x, junk);
    } else {
      RegRegComputes(i, AndOp, x, junk);
    }
  }

  lemma ImmediateComputes(i: Instr, x: State, junk: bv64)
    requires Ready(false, x) && (i.opcode.ADDI? || i.opcode.XORI?)
    ensures Computes(ValueCode(i), EmittedValue(i, x.hart), x, junk)
  {
    hide Computes, SetLessImm, RegRegW, ShiftRegW, ShiftImmW, AddImmW, LuiCode, AuipcCode, GetReg, Add, Sub, And, Or;
    if i.opcode.ADDI? {
      RegImmComputes(i, AddOp, x, junk);
    } else {
      RegImmComputes(i, XorOp, x, junk);
    }
  }

  lemma ImmediateLogicComputes(i: Instr, x: State, junk: bv64)
    requires Ready(false, x) && (i.opcode.ORI? || i.opcode.ANDI?)
    ensures Computes(ValueCode(i), EmittedValue(i, x.hart), x, junk)
  {
    hide Computes, Imm, RegImm, ShiftReg, RegRegW, ShiftImmW, AddImmW, LuiCode, AuipcCode, GetReg, Add, Sub, Slt,
         SubLow;
    if i.opcode.ORI? {
      RegImmComputes(i, OrOp, x, junk);
    } else {
      RegImmComputes(i, AndOp, x, junk);
    }
  }

  lemma ShiftsCompute(i: Instr, x: State, junk: bv64)
    requires Ready(false, x) && (i.opcode.SLL? || i.opcode.SRL? || i.opcode.SRA?)
    ensures Computes(ValueCode(i), EmittedValue(i, x.hart), x, junk)
  {
    hide Computes, Imm, RegReg, RegImm, ShiftReg, ShiftImm, SetLess, SetLessImm, RegRegW, ShiftRegW, ShiftImmW,
         AddImmW, LuiCode, AuipcCode, GetReg, Add, Sub, And, Or, Xor, Upper, Shl, Shr, Sar, Slt, Ult, FromBool, Word,
         Count5, ShlAt, ShrAt, SarAt, ZextWord, SextWord, AddLow, SubLow, Same, NeqOne;
    if i.opcode.SLL? {
      ShiftRegComputes(i, ShlOp, x, junk);
    } else if i.opcode.SRL? {
      ShiftRegComputes(i, ShrOp, x, junk);
    } else {
      ShiftRegComputes(i, SarOp, x, junk);
    }
  }

  lemma ImmediateShiftsCompute(i: Instr, x: State, junk: bv64)
    requires Ready(false, x) && (i.opcode.SLLI? || i.opcode.SRLI? || i.opcode.SRAI?)
    ensures Computes(ValueCode(i), EmittedValue(i, x.hart), x, junk)
  {
    hide Computes, Imm, RegRegW, ShiftRegW, ShiftImmW, AddImmW, LuiCode, AuipcCode, GetReg, Add, Sub, And, Or, Xor,
         Upper, Shl, Shr, Sar,
         FromBool, Word, Count5, ZextWord;
    if i.opcode.SLLI? {
      ShiftImmComputes(i, ShlOp, x, junk);
    } else if i.opcode.SRLI? {
      ShiftImmComputes(i, ShrOp, x, junk);
    } else {
      ShiftImmComputes(i, SarOp, x, junk);
    }
  }

  lemma ComparisonsCompute(i: Instr, x: State, junk: bv64)
    requires Ready(false, x) && (i.opcode.SLT? || i.opcode.SLTU?)
    ensures Computes(ValueCode(i), EmittedValue(i, x.hart), x, junk)
  {
    hide Computes, Imm, RegReg, RegImm, ShiftReg, ShiftImm, SetLess, SetLessImm, RegRegW, ShiftRegW, ShiftImmW,
         AddImmW, LuiCode, AuipcCode, GetReg, Add, Sub, And, Or, Xor, Upper, Shl, Shr, Sar, Slt, Ult, FromBool, Word,
         Count5, ShlAt, ShrAt, SarAt, ZextWord, SextWord, AddLow, SubLow, Same, NeqOne;
    if i.opcode.SLT? {
      SetLessComputes(i, CcL, x, junk);
    } else {
      SetLessComputes(i, CcB, x, junk);
    }
  }

  lemma ImmediateComparisonsCompute(i: Instr, x: State, junk: bv64)
    requires Ready(false, x) && (i.opcode.SLTI? || i.opcode.SLTIU?)
    ensures Computes(ValueCode(i), EmittedValue(i, x.hart), x, junk)
  {
    hide Computes, RegReg, ShiftReg, SetLess, RegRegW, ShiftRegW, ShiftImmW, AddImmW, LuiCode, AuipcCode, GetReg, Add,
         Sub, And, Or, Xor,
         Upper, Shl, Shr, Sar, Slt, Ult, FromBool, Word, Count5, ShlAt, ShrAt, SarAt, ZextWord;
    if i.opcode.SLTI? {
      SetLessImmComputes(i, CcL, x, junk);
    } else {
      SetLessImmComputes(i, CcB, x, junk);
    }
  }

  lemma AddwComputes(i: Instr, x: State, junk: bv64)
    requires Ready(false, x) && i.opcode.ADDW?
    ensures Computes(ValueCode(i), EmittedValue(i, x.hart), x, junk)
  {
    hide Computes, Count5;
    RegRegWComputes(i, AddOp, x, junk);
  }

  lemma SubwComputes(i: Instr, x: State, junk: bv64)
    requires Ready(false, x) && i.opcode.SUBW?
    ensures Computes(ValueCode(i), EmittedValue(i, x.hart), x, junk)
  {
    hide Computes, Count5;
    RegRegWComputes(i, SubOp, x, junk);
  }

  lemma SllwComputes(i: Instr, x: State, junk: bv64)
    requires Ready(false, x) && i.opcode.SLLW?
    ensures Computes(ValueCode(i), EmittedValue(i, x.hart), x, junk)
  {
    hide Computes, And, Shl, Shr, Sar, ShlAt, ShrAt, SarAt, Slt, Ult;
    ShiftRegWComputes(i, ShlOp, x, junk);
    ShiftWArguments(ShlOp, GetReg(x.hart, i.rs1), GetReg(x.hart, i.rs2));
    Append1Computes(ShiftRegW(i, ShlOp), ShiftValue32(ShlOp, GetReg(x.hart, i.rs1), GetReg(x.hart, i.rs2)), x, junk);
  }

  lemma SlliwComputes(i: Instr, x: State, junk: bv64)
    requires Ready(false, x) && i.opcode.SLLIW?
    ensures Computes(ValueCode(i), EmittedValue(i, x.hart), x, junk)
  {
    hide Computes, GetReg, Shl, Shr, Sar, ShlAt, ShrAt, SarAt, Slt, Ult;
    ShiftImmWComputes(i, ShlOp, x, junk);
    ShiftWArguments(ShlOp, GetReg(x.hart, i.rs1), Imm(i));
    Append1Computes(ShiftImmW(i, ShlOp), ShiftValue32(ShlOp, GetReg(x.hart, i.rs1), Imm(i)), x, junk);
  }

  lemma SrlwComputes(i: Instr, x: State, junk: bv64)
    requires Ready(false, x) && i.opcode.SRLW?
    ensures Computes(ValueCode(i), EmittedValue(i, x.hart), x, junk)
  {
    hide Computes, Shl, Shr, Sar, ShlAt, ShrAt, SarAt, Slt, Ult;
    ShiftRegWComputes(i, ShrOp, x, junk);
    ShiftWArguments(ShrOp, GetReg(x.hart, i.rs1), GetReg(x.hart, i.rs2));
  }

  lemma SrliwComputes(i: Instr, x: State, junk: bv64)
    requires Ready(false, x) && i.opcode.SRLIW?
    ensures Computes(ValueCode(i), EmittedValue(i, x.hart), x, junk)
  {
    hide Computes, Sub, Slt, Ult, Shl, Shr, Sar, ShlAt, ShrAt, SarAt;
    ShiftImmWComputes(i, ShrOp, x, junk);
    ShiftWArguments(ShrOp, GetReg(x.hart, i.rs1), Imm(i));
  }

  lemma SrawComputes(i: Instr, x: State, junk: bv64)
    requires Ready(false, x) && i.opcode.SRAW?
    ensures Computes(ValueCode(i), EmittedValue(i, x.hart), x, junk)
  {
    hide Computes, GetReg, Shl, Shr, Sar, ShlAt, ShrAt, SarAt, Slt, Ult;
    ShiftRegWComputes(i, SarOp, x, junk);
    ShiftWArguments(SarOp, GetReg(x.hart, i.rs1), GetReg(x.hart, i.rs2));
    Append1Computes(ShiftRegW(i, SarOp), ShiftValue32(SarOp, GetReg(x.hart, i.rs1), GetReg(x.hart, i.rs2)), x, junk);
  }

  lemma SraiwComputes(i: Instr, x: State, junk: bv64)
    requires Ready(false, x) && i.opcode.SRAIW?
    ensures Computes(ValueCode(i), EmittedValue(i, x.hart), x, junk)
  {
    hide Computes, Imm, RegReg, RegImm, ShiftReg, ShiftImm, SetLess, SetLessImm, RegRegW, ShiftRegW, ShiftImmW,
         AddImmW, LuiCode, AuipcCode, GetReg, Add, Sub, And, Or, Xor, Upper, Shl, Shr, Sar, Slt, Ult, FromBool, Word,
         Count5, ShlAt, ShrAt, SarAt, ZextWord, SextWord, AddLow, SubLow, Same, NeqOne;
    ShiftImmWComputes(i, SarOp, x, junk);
    ShiftWArguments(SarOp, GetReg(x.hart, i.rs1), Imm(i));
    Append1Computes(ShiftImmW(i, SarOp), ShiftValue32(SarOp, GetReg(x.hart, i.rs1), Imm(i)), x, junk);
  }

  // The value code of every arithmetic instruction.
  lemma ValueCodeComputes(i: Instr, x: State, junk: bv64)
    requires Ready(false, x) && IsValueOp(i.opcode)
    ensures Computes(ValueCode(i), EmittedValue(i, x.hart), x, junk)
  {
    hide Computes, EmittedValue;
    if i.opcode.ADDIW? {
      AddiwComputes(i, x, junk);
    } else if i.opcode.LUI? || i.opcode.AUIPC? {
      UpperComputes(i, x, junk);
    } else if i.opcode.ADD? || i.opcode.SUB? {
      AddSubCompute(i, x, junk);
    } else if i.opcode.XOR? || i.opcode.OR? || i.opcode.AND? {
      LogicComputes(i, x, junk);
    } else if i.opcode.ADDI? || i.opcode.XORI? {
      ImmediateComputes(i, x, junk);
    } else if i.opcode.ORI? || i.opcode.ANDI? {
      ImmediateLogicComputes(i, x, junk);
    } else if i.opcode.SLL? || i.opcode.SRL? || i.opcode.SRA? {
      ShiftsCompute(i, x, junk);
    } else if i.opcode.SLLI? || i.opcode.SRLI? || i.opcode.SRAI? {
      ImmediateShiftsCompute(i, x, junk);
    } else if i.opcode.SLT? || i.opcode.SLTU? {
      ComparisonsCompute(i, x, junk);
    } else if i.opcode.SLTI? || i.opcode.SLTIU? {
      ImmediateComparisonsCompute(i, x, junk);
    } else if i.opcode.ADDW? {
      AddwComputes(i, x, junk);
    } else if i.opcode.SUBW? {
      SubwComputes(i, x, junk);
    } else if i.opcode.SLLW? {
      SllwComputes(i, x, junk);
    } else if i.opcode.SLLIW? {
      SlliwComputes(i, x, junk);
    } else if i.opcode.SRLW? {
      SrlwComputes(i, x, junk);
    } else if i.opcode.SRLIW? {
      SrliwComputes(i, x, junk);
    } else if i.opcode.SRAW? {
      SrawComputes(i, x, junk);
    } else {
      SraiwComputes(i, x, junk);
    }
  }
}
