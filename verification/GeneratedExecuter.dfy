/** The bodies of the ISA description, compiled by the DSL, against the executer semantics. */
module GeneratedExecuter {
  import opened Bits
  import opened Numbers
  import WordLaws
  import opened Constants
  import opened Dsl
  import opened DslPrograms
  import I = Isa
  import Memory
  import Sv39

  // The register fields of a format, in declaration order: rd, rs1, rs2.
  datatype Fields = Fields(rd: bool, rs1: bool, rs2: bool)

  function FieldsOf(op: I.Opcode): Fields
  {
    match I.FormatOf(op)
    case FormatR => Fields(true, true, true)
    case FormatI => Fields(true, true, false)
    case FormatS | FormatB => Fields(false, true, true)
    case FormatU | FormatJ => Fields(true, false, false)
    case FormatUnknown => Fields(false, false, false)
  }

  // The `code` of the instruction in the ISA description; csrw aside.
  function Source(op: I.Opcode): seq<Stm>
  {
    if op.LB? || op.LBU? then [LetRd(MemLoad(Address(), 1))]
    else if op.LH? || op.LHU? then [LetRd(MemLoad(Address(), 2))]
    else if op.LW? || op.LWU? then [LetRd(MemLoad(Address(), 4))]
    else if op.LD? then [LetRd(MemLoad(Address(), 8))]
    else if op.SB? then [StoreTo(Address(), Reg2, 1)]
    else if op.SH? then [StoreTo(Address(), Reg2, 2)]
    else if op.SW? then [StoreTo(Address(), Reg2, 4)]
    else if op.SD? then [StoreTo(Address(), Reg2, 8)]
    else if I.IsBranch(op) then [If(Condition(op), [SetPcTo(Bin(OpAdd, Pc, Imm))])]
    else if op.JAL? then [LetRd(Bin(OpAdd, Pc, Lit(4))), SetPcTo(Bin(OpAdd, Pc, Imm))]
    else if op.JALR? then [LetRd(Bin(OpAdd, Pc, Lit(4))), SetPcTo(Address())]
    else if op.ECALL? then [EcallStm, LetRd(Pc), EcallStm]
    else [LetRd(ValueSource(op))]
  }

  function Address(): Expr { Bin(OpAdd, Reg1, Imm) }

  function Condition(op: I.Opcode): Expr
  {
    if op.BEQ? then Bin(OpEq, Reg1, Reg2)
    else if op.BNE? then Bin(OpNeq, Reg1, Reg2)
    else if op.BLT? then Bin(OpLt, Reg1, Reg2)
    else if op.BGE? then Ge(Reg1, Reg2)
    else if op.BLTU? then Bin(OpLtu, Reg1, Reg2)
    else Geu(Reg1, Reg2)
  }

  function ValueSource(op: I.Opcode): Expr
  {
    if op.ADDIW? then WordExpr(AddW, Reg1, Imm)
    else if op.SLLIW? then WordExpr(ShlW, Reg1, Imm)
    else if op.SRLIW? then WordExpr(SrlW, Reg1, Imm)
    else if op.SRAIW? then WordExpr(SraW, Reg1, Imm)
    else if op.ADDW? then WordExpr(AddW, Reg1, Reg2)
    else if op.SUBW? then WordExpr(SubW, Reg1, Reg2)
    else if op.SLLW? then WordExpr(ShlW, Reg1, Reg2)
    else if op.SRLW? then WordExpr(SrlW, Reg1, Reg2)
    else if op.SRAW? then WordExpr(SraW, Reg1, Reg2)
    else if op.ADD? then Bin(OpAdd, Reg1, Reg2)
    else if op.SUB? then Bin(OpSub, Reg1, Reg2)
    else if op.SLL? then Bin(OpShl, Reg1, Reg2)
    else if op.SLT? then Bin(OpLt, Reg1, Reg2)
    else if op.SLTU? then Bin(OpLtu, Reg1, Reg2)
    else if op.XOR? then Bin(OpXor, Reg1, Reg2)
    else if op.SRL? then Bin(OpSrl, Reg1, Reg2)
    else if op.SRA? then Bin(OpSra, Reg1, Reg2)
    else if op.OR? then Bin(OpOr, Reg1, Reg2)
    else if op.AND? then Bin(OpAnd, Reg1, Reg2)
    else if op.ADDI? then Bin(OpAdd, Reg1, Imm)
    else if op.SLTI? then Bin(OpLt, Reg1, Imm)
    else if op.SLTIU? then Bin(OpLtu, Reg1, Imm)
    else if op.XORI? then Bin(OpXor, Reg1, Imm)
    else if op.ORI? then Bin(OpOr, Reg1, Imm)
    else if op.ANDI? then Bin(OpAnd, Reg1, Imm)
    else if op.SLLI? then Bin(OpShl, Reg1, Imm)
    else if op.SRLI? then Bin(OpSrl, Reg1, Imm)
    else if op.SRAI? then Bin(OpSra, Reg1, Imm)
    else if op.LUI? then Bin(OpShl, Imm, Lit(12))
    else Bin(OpAdd, Pc, Bin(OpShl, Imm, Lit(12)))
  }

  // The variables of the fields, with the source registers read.
  function Prologue(f: Fields): seq<Ir>
  {
    (if f.rd then [NewVar(Var(Rd, I32))] else []) +
    (if f.rs1 then [NewVar(Var(Rs1, I32)), GetReg(Rs1)] else []) +
    (if f.rs2 then [NewVar(Var(Rs2, I32)), GetReg(Rs2)] else [])
  }

  // The statements of one generated execute function; next is the global counter.
  function Generated(f: Fields, ms: seq<Stm>, next: nat): seq<Ir>
  {
    Prologue(f) + BuildAll(ms, Counter(next, false, false)).code + if f.rd then [SetReg] else []
  }

  function InputsOf(f: Fields, i: I.Instr, h: I.Hart): Inputs
  {
    Inputs(if f.rs1 then I.GetReg(h, i.rs1) else 0, if f.rs2 then I.GetReg(h, i.rs2) else 0,
           I.Imm(i), h.pc, h.satp, h.mem)
  }

  // An execute function starts with next_pc_ = pc_ + 4.
  function Start(h: I.Hart): Cpp { Cpp(map[], Add(h.pc, 4), None, false, h.mem, false) }

  // What the finished function has done to the hart, with pc_ = next_pc_.
  function Finish(i: I.Instr, h: I.Hart, s: Cpp): I.Hart
  {
    var g := (if s.halted then h.(status := I.Halted) else h).(mem := s.mem);
    if s.aborted then h.(status := I.Aborted)
    else (if s.wrote.Some? then I.SetReg(g, i.rd, s.wrote.value) else g).(pc := s.nextPc)
  }

  lemma PrologueLoads(f: Fields, s: Cpp, x: Inputs)
    requires s.env == map[] && (f.rs1 || x.rs1 == 0) && (f.rs2 || x.rs2 == 0)
    ensures var t := RunIr(Prologue(f), s, x);
            t == s.(env := t.env) && Loaded(t.env, Counter(0, false, false), x) && Get(t.env, Rd) == 0
  {
    hide ApplyBin, ApplyWord, RunIr;
    var a := if f.rd then [NewVar(Var(Rd, I32))] else [];
    var b := if f.rs1 then [NewVar(Var(Rs1, I32)), GetReg(Rs1)] else [];
    var c := if f.rs2 then [NewVar(Var(Rs2, I32)), GetReg(Rs2)] else [];
    RunIrAppend(a + b, c, s, x);
    RunIrAppend(a, b, s, x);
    var s1 := RunIr(a, s, x);
    assert s1 == s by { NoneOrOne(NewVar(Var(Rd, I32)), f.rd, s, x); }
    var s2 := RunIr(b, s1, x);
    assert s2 == if f.rs1 then Set(s, Rs1, x.rs1) else s by { LoadRuns(Rs1, f.rs1, s, x); }
    assert RunIr(c, s2, x) == if f.rs2 then Set(s2, Rs2, x.rs2) else s2 by { LoadRuns(Rs2, f.rs2, s2, x); }
  }

  lemma NoneOrOne(i: Ir, present: bool, s: Cpp, x: Inputs)
    ensures RunIr(if present then [i] else [], s, x) == if present then ExecIr(i, s, x) else s
  {
    RunIr1(i, s, x);
  }

  lemma LoadRuns(r: Name, present: bool, s: Cpp, x: Inputs)
    requires r == Rs1 || r == Rs2
    ensures RunIr(if present then [NewVar(Var(r, I32)), GetReg(r)] else [], s, x)
         == if present then Set(s, r, if r == Rs1 then x.rs1 else x.rs2) else s
  {
    RunIr2(NewVar(Var(r, I32)), GetReg(r), s, x);
  }

  function OutcomeAt(s: Cpp): Outcome { Outcome(0, s.nextPc, s.halted, s.mem, s.aborted) }

  // Every generated execute function leaves the statements' outcome, for any counter value.
  lemma GeneratedRuns(f: Fields, ms: seq<Stm>, next: nat, s: Cpp, x: Inputs)
    requires Sane(ms, true) && s.env == map[] && (f.rs1 || x.rs1 == 0) && (f.rs2 || x.rs2 == 0)
    ensures var t := RunIr(Generated(f, ms, next), s, x);
            var o := Perform(ms, x, OutcomeAt(s));
            t.nextPc == o.nextPc && t.halted == o.halted && t.mem == o.mem && t.aborted == o.aborted &&
            t.wrote == if f.rd then Some(o.rd) else s.wrote
  {
    hide RunIr, BuildAll, Perform, Sane;
    var c := Counter(next, false, false);
    var body := BuildAll(ms, c).code;
    var last := if f.rd then [SetReg] else [];
    RunIrAppend(Prologue(f) + body, last, s, x);
    RunIrAppend(Prologue(f), body, s, x);
    PrologueLoads(f, s, x);
    var t := RunIr(Prologue(f), s, x);
    AllRun(ms, true, t, c, x);
    NoneOrOne(SetReg, f.rd, RunIr(body, t, x), x);
  }

  // csrw's function and the answer to unknown instructions are not modelled.
  predicate Generatable(op: I.Opcode) { !op.CSRW? && !op.UNKNOWN? }

  // Before the first statement.
  function Begin(h: I.Hart): Outcome { Outcome(0, Add(h.pc, 4), false, h.mem, false) }

  // Sources without loads never fault.
  predicate NoLoads(e: Expr)
  {
    match e
    case Bin(_, a, b) => NoLoads(a) && NoLoads(b)
    case Ge(a, b) => NoLoads(a) && NoLoads(b)
    case Geu(a, b) => NoLoads(a) && NoLoads(b)
    case WordExpr(_, a, b) => NoLoads(a) && NoLoads(b)
    case MemLoad(_, _) => false
    case _ => true
  }

  lemma {:induction false} NoLoadsNoFault(e: Expr, x: Inputs)
    requires NoLoads(e)
    ensures !Faults(e, x)
  {
    match e
    case Bin(_, a, b) =>
      NoLoadsNoFault(a, x);
      NoLoadsNoFault(b, x);
    case Ge(a, b) =>
      NoLoadsNoFault(a, x);
      NoLoadsNoFault(b, x);
    case Geu(a, b) =>
      NoLoadsNoFault(a, x);
      NoLoadsNoFault(b, x);
    case WordExpr(_, a, b) =>
      NoLoadsNoFault(a, x);
      NoLoadsNoFault(b, x);
    case _ =>
  }

  lemma SourcesHaveNoLoads(op: I.Opcode)
    ensures NoLoads(ValueSource(op)) && NoLoads(Condition(op))
  {
    hide ValueSource, Condition, NoLoads;
    ValueSourceHasNoLoads(op);
    ConditionHasNoLoads(op);
  }

  lemma ValueSourceHasNoLoads(op: I.Opcode)
    ensures NoLoads(ValueSource(op))
  {}

  lemma ConditionHasNoLoads(op: I.Opcode)
    ensures NoLoads(Condition(op))
  {}

  lemma ValueSourceIsSane(op: I.Opcode)
    ensures NoClash(ValueSource(op))
  {}

  lemma ConditionIsSane(op: I.Opcode)
    ensures NoClash(Condition(op))
  {}

  // The source of each kind of instruction.
  lemma SourceOfMemory(op: I.Opcode)
    ensures I.IsLoad(op) ==> Source(op) == [LetRd(MemLoad(Address(), I.Width(op)))]
    ensures I.IsStore(op) ==> Source(op) == [StoreTo(Address(), Reg2, I.Width(op))]
  {
    hide ValueSource, Condition;
  }

  lemma SourceOfControl(op: I.Opcode)
    ensures I.IsBranch(op) ==> Source(op) == [If(Condition(op), [SetPcTo(Bin(OpAdd, Pc, Imm))])]
    ensures op.JAL? ==> Source(op) == [LetRd(Bin(OpAdd, Pc, Lit(4))), SetPcTo(Bin(OpAdd, Pc, Imm))]
    ensures op.JALR? ==> Source(op) == [LetRd(Bin(OpAdd, Pc, Lit(4))), SetPcTo(Address())]
    ensures op.ECALL? ==> Source(op) == [EcallStm, LetRd(Pc), EcallStm]
  {
    hide ValueSource, Condition, I.Width;
  }

  lemma SourceOfValue(op: I.Opcode)
    requires !I.IsLoad(op) && !I.IsStore(op) && !I.IsBranch(op) && !op.JAL? && !op.JALR? && !op.ECALL?
    ensures Source(op) == [LetRd(ValueSource(op))]
  {}

  lemma SourceIsSane(op: I.Opcode)
    ensures Sane(Source(op), true)
  {
    hide Source, ValueSource, Condition, Sane, I.IsLoad, I.IsStore, I.IsBranch, I.Width;
    SourceOfMemory(op);
    SourceOfControl(op);
    ValueSourceIsSane(op);
    ConditionIsSane(op);
    SumsAreSane();
    if I.IsLoad(op) || I.IsStore(op) {
      MemoryIsSane(I.Width(op));
    } else if I.IsBranch(op) {
      BranchIsSane(Condition(op));
    } else if op.JAL? || op.JALR? || op.ECALL? {
      ControlIsSane();
    } else {
      SourceOfValue(op);
      LetIsSane(ValueSource(op));
    }
  }

  lemma SumsAreSane()
    ensures NoClash(Address()) && NoClash(Reg2) && NoClash(Bin(OpAdd, Pc, Lit(4))) && NoClash(Bin(OpAdd, Pc, Imm)) &&
            NoClash(Pc)
  {}

  lemma LetIsSane(e: Expr)
    requires NoClash(e)
    ensures Sane([LetRd(e)], true)
  {
    hide NoClash;
  }

  lemma MemoryIsSane(size: nat)
    ensures Sane([LetRd(MemLoad(Address(), size))], true) && Sane([StoreTo(Address(), Reg2, size)], true)
  {}

  lemma BranchIsSane(e: Expr)
    requires NoClash(e)
    ensures Sane([If(e, [SetPcTo(Bin(OpAdd, Pc, Imm))])], true)
  {
    hide NoClash;
    SumsAreSane();
    assert Sane([SetPcTo(Bin(OpAdd, Pc, Imm))], false);
  }

  lemma ControlIsSane()
    ensures Sane([LetRd(Bin(OpAdd, Pc, Lit(4))), SetPcTo(Bin(OpAdd, Pc, Imm))], true)
    ensures Sane([LetRd(Bin(OpAdd, Pc, Lit(4))), SetPcTo(Address())], true)
    ensures Sane([EcallStm, LetRd(Pc), EcallStm], true)
  {
    hide NoClash;
    SumsAreSane();
  }

  lemma UpperIsShift(v: bv64)
    ensures Shl(v, 12) == Upper(v)
  {
    hide ShiftLeft, Upper;
    TwelveIsTwelve();
    WordLaws.UpperIsShift(v);
  }

  lemma TwelveIsTwelve()
    ensures Unsigned(12) == 12
  {}

  // The inputs an instruction's fields select.
  predicate Selects(x: Inputs, i: I.Instr, h: I.Hart)
  {
    x.rs1 == I.GetReg(h, i.rs1) && (I.IsRegReg(i.opcode) ==> x.rs2 == I.GetReg(h, i.rs2)) && x.imm == I.Imm(i) &&
    x.pc == h.pc
  }

  lemma EvalRegisters(op: BinOp, w: WordOp, x: Inputs)
    ensures Eval(Bin(op, Reg1, Reg2), x) == ApplyBin(op, x.rs1, x.rs2)
    ensures Eval(WordExpr(w, Reg1, Reg2), x) == ApplyWord(w, x.rs1, if IsShift(w) then Count5(x.rs2) else x.rs2)
  {
    hide ApplyBin, ApplyWord;
  }

  lemma EvalImmediates(op: BinOp, w: WordOp, x: Inputs)
    ensures Eval(Bin(op, Reg1, Imm), x) == ApplyBin(op, x.rs1, x.imm)
    ensures Eval(WordExpr(w, Reg1, Imm), x) == ApplyWord(w, x.rs1, if IsShift(w) then Count5(x.imm) else x.imm)
  {
    hide ApplyBin, ApplyWord;
  }

  lemma WordImmediatesMatch(i: I.Instr, h: I.Hart, x: Inputs)
    requires Selects(x, i, h) && (i.opcode.ADDIW? || i.opcode.SLLIW? || i.opcode.SRLIW? || i.opcode.SRAIW?)
    ensures Eval(ValueSource(i.opcode), x) == I.Value(i, h)
  {
    hide Eval, ShlAt, SextWord, AddLow, SubLow, Same;
    if i.opcode.ADDIW? {
      EvalImmediates(OpAdd, AddW, x);
    } else if i.opcode.SLLIW? {
      EvalImmediates(OpAdd, ShlW, x);
    } else if i.opcode.SRLIW? {
      EvalImmediates(OpAdd, SrlW, x);
    } else {
      EvalImmediates(OpAdd, SraW, x);
    }
  }

  lemma WordRegistersMatch(i: I.Instr, h: I.Hart, x: Inputs)
    requires Selects(x, i, h) &&
             (i.opcode.ADDW? || i.opcode.SUBW? || i.opcode.SLLW? || i.opcode.SRLW? || i.opcode.SRAW?)
    ensures Eval(ValueSource(i.opcode), x) == I.Value(i, h)
  {
    hide Eval, I.GetReg, I.Imm, Add, Sub, And, Or, Xor, Upper, Shl, Shr, Sar, Slt, Ult, FromBool, Bits.Word, Count5,
         ShlAt, ShrAt, SarAt, ZextWord, SextWord, AddLow, SubLow, Same;
    if i.opcode.ADDW? {
      EvalRegisters(OpAdd, AddW, x);
    } else if i.opcode.SUBW? {
      EvalRegisters(OpAdd, SubW, x);
    } else if i.opcode.SLLW? {
      EvalRegisters(OpAdd, ShlW, x);
    } else if i.opcode.SRLW? {
      EvalRegisters(OpAdd, SrlW, x);
    } else {
      EvalRegisters(OpAdd, SraW, x);
    }
  }

  lemma AddSubMatch(i: I.Instr, h: I.Hart, x: Inputs)
    requires Selects(x, i, h) && (i.opcode.ADD? || i.opcode.SUB?)
    ensures Eval(ValueSource(i.opcode), x) == I.Value(i, h)
  {
    hide Eval, I.GetReg, I.Imm, Add, Sub, And, Or, Xor, Upper, Shl, Shr, Sar, Slt, Ult, FromBool, Bits.Word, Count5,
         ShlAt, ShrAt, SarAt, ZextWord, SextWord, AddLow, SubLow, Same;
    if i.opcode.ADD? {
      EvalRegisters(OpAdd, AddW, x);
    } else {
      EvalRegisters(OpSub, AddW, x);
    }
  }

  lemma SltMatch(i: I.Instr, h: I.Hart, x: Inputs)
    requires Selects(x, i, h) && i.opcode.SLT?
    ensures Eval(ValueSource(i.opcode), x) == I.Value(i, h)
  {
    hide Eval, I.GetReg, I.Imm, Add, Sub, And, Or, Xor, Upper, Shl, Shr, Sar, Slt, Ult, FromBool, Bits.Word, Count5,
         ShlAt, ShrAt, SarAt, ZextWord, SextWord, AddLow, SubLow, Same;
    EvalRegisters(OpLt, AddW, x);
  }

  lemma SltuMatch(i: I.Instr, h: I.Hart, x: Inputs)
    requires Selects(x, i, h) && i.opcode.SLTU?
    ensures Eval(ValueSource(i.opcode), x) == I.Value(i, h)
  {
    hide Eval, I.GetReg, I.Imm, Add, Sub, And, Or, Xor, Upper, Shl, Shr, Sar, Slt, Ult, FromBool, Bits.Word, Count5,
         ShlAt, ShrAt, SarAt, ZextWord, SextWord, AddLow, SubLow, Same;
    EvalRegisters(OpLtu, AddW, x);
  }

  lemma SetLessMatch(i: I.Instr, h: I.Hart, x: Inputs)
    requires Selects(x, i, h) && (i.opcode.SLT? || i.opcode.SLTU?)
    ensures Eval(ValueSource(i.opcode), x) == I.Value(i, h)
  {
    hide Eval, ValueSource, I.Value;
    if i.opcode.SLT? {
      SltMatch(i, h, x);
    } else {
      SltuMatch(i, h, x);
    }
  }

  lemma XorSllMatch(i: I.Instr, h: I.Hart, x: Inputs)
    requires Selects(x, i, h) && (i.opcode.XOR? || i.opcode.SLL?)
    ensures Eval(ValueSource(i.opcode), x) == I.Value(i, h)
  {
    hide Eval, I.GetReg, I.Imm, Add, Sub, And, Or, Xor, Upper, Shl, Shr, Sar, Slt, Ult, FromBool, Bits.Word, Count5,
         ShlAt, ShrAt, SarAt, ZextWord, SextWord, AddLow, SubLow, Same;
    if i.opcode.XOR? {
      EvalRegisters(OpXor, AddW, x);
    } else {
      EvalRegisters(OpShl, AddW, x);
    }
  }

  lemma OrMatch(i: I.Instr, h: I.Hart, x: Inputs)
    requires Selects(x, i, h) && i.opcode.OR?
    ensures Eval(ValueSource(i.opcode), x) == I.Value(i, h)
  {
    hide Eval, I.GetReg, I.Imm, Add, Sub, And, Or, Xor, Upper, Shl, Shr, Sar, Slt, Ult, FromBool, Bits.Word, Count5,
         ShlAt, ShrAt, SarAt, ZextWord, SextWord, AddLow, SubLow, Same;
    EvalRegisters(OpOr, AddW, x);
  }

  lemma AndMatch(i: I.Instr, h: I.Hart, x: Inputs)
    requires Selects(x, i, h) && i.opcode.AND?
    ensures Eval(ValueSource(i.opcode), x) == I.Value(i, h)
  {
    hide Eval, I.GetReg, I.Imm, Add, Sub, And, Or, Xor, Upper, Shl, Shr, Sar, Slt, Ult, FromBool, Bits.Word, Count5,
         ShlAt, ShrAt, SarAt, ZextWord, SextWord, AddLow, SubLow, Same;
    EvalRegisters(OpAnd, AddW, x);
  }

  lemma OrAndMatch(i: I.Instr, h: I.Hart, x: Inputs)
    requires Selects(x, i, h) && (i.opcode.OR? || i.opcode.AND?)
    ensures Eval(ValueSource(i.opcode), x) == I.Value(i, h)
  {
    hide Eval, ValueSource, I.Value;
    if i.opcode.OR? {
      OrMatch(i, h, x);
    } else {
      AndMatch(i, h, x);
    }
  }

  lemma SrlMatch(i: I.Instr, h: I.Hart, x: Inputs)
    requires Selects(x, i, h) && i.opcode.SRL?
    ensures Eval(ValueSource(i.opcode), x) == I.Value(i, h)
  {
    hide Eval, I.GetReg, I.Imm, Add, Sub, And, Or, Xor, Upper, Shl, Shr, Sar, Slt, Ult, FromBool, Bits.Word, Count5,
         ShlAt, ShrAt, SarAt, ZextWord, SextWord, AddLow, SubLow, Same;
    EvalRegisters(OpSrl, AddW, x);
  }

  lemma SraMatch(i: I.Instr, h: I.Hart, x: Inputs)
    requires Selects(x, i, h) && i.opcode.SRA?
    ensures Eval(ValueSource(i.opcode), x) == I.Value(i, h)
  {
    hide Eval, I.GetReg, I.Imm, Add, Sub, And, Or, Xor, Upper, Shl, Shr, Sar, Slt, Ult, FromBool, Bits.Word, Count5,
         ShlAt, ShrAt, SarAt, ZextWord, SextWord, AddLow, SubLow, Same;
    EvalRegisters(OpSra, AddW, x);
  }

  lemma RightShiftsMatch(i: I.Instr, h: I.Hart, x: Inputs)
    requires Selects(x, i, h) && (i.opcode.SRL? || i.opcode.SRA?)
    ensures Eval(ValueSource(i.opcode), x) == I.Value(i, h)
  {
    hide Eval, ValueSource, I.Value;
    if i.opcode.SRL? {
      SrlMatch(i, h, x);
    } else {
      SraMatch(i, h, x);
    }
  }

  lemma AddImmediateMatch(i: I.Instr, h: I.Hart, x: Inputs)
    requires Selects(x, i, h) && i.opcode.ADDI?
    ensures Eval(ValueSource(i.opcode), x) == I.Value(i, h)
  {
    hide Eval, I.GetReg, I.Imm, Add, Sub, And, Or, Xor, Upper, Shl, Shr, Sar, Slt, Ult, FromBool, Bits.Word, Count5,
         ShlAt, ShrAt, SarAt, ZextWord, SextWord, AddLow, SubLow, Same;
    EvalImmediates(OpAdd, AddW, x);
  }

  lemma SltImmediateMatch(i: I.Instr, h: I.Hart, x: Inputs)
    requires Selects(x, i, h) && i.opcode.SLTI?
    ensures Eval(ValueSource(i.opcode), x) == I.Value(i, h)
  {
    hide Eval, I.GetReg, I.Imm, Add, Sub, And, Or, Xor, Upper, Shl, Shr, Sar, Slt, Ult, FromBool, Bits.Word, Count5,
         ShlAt, ShrAt, SarAt, ZextWord, SextWord, AddLow, SubLow, Same;
    EvalImmediates(OpLt, AddW, x);
  }

  lemma SltuImmediateMatch(i: I.Instr, h: I.Hart, x: Inputs)
    requires Selects(x, i, h) && i.opcode.SLTIU?
    ensures Eval(ValueSource(i.opcode), x) == I.Value(i, h)
  {
    hide Eval, I.GetReg, I.Imm, Add, Sub, And, Or, Xor, Upper, Shl, Shr, Sar, Slt, Ult, FromBool, Bits.Word, Count5,
         ShlAt, ShrAt, SarAt, ZextWord, SextWord, AddLow, SubLow, Same;
    EvalImmediates(OpLtu, AddW, x);
  }

  lemma XorImmediateMatch(i: I.Instr, h: I.Hart, x: Inputs)
    requires Selects(x, i, h) && i.opcode.XORI?
    ensures Eval(ValueSource(i.opcode), x) == I.Value(i, h)
  {
    hide Eval, I.GetReg, I.Imm, Add, Sub, And, Or, Xor, Upper, Shl, Shr, Sar, Slt, Ult, FromBool, Bits.Word, Count5,
         ShlAt, ShrAt, SarAt, ZextWord, SextWord, AddLow, SubLow, Same;
    EvalImmediates(OpXor, AddW, x);
  }

  lemma OrImmediateMatch(i: I.Instr, h: I.Hart, x: Inputs)
    requires Selects(x, i, h) && i.opcode.ORI?
    ensures Eval(ValueSource(i.opcode), x) == I.Value(i, h)
  {
    hide Eval, I.GetReg, I.Imm, Add, Sub, And, Or, Xor, Upper, Shl, Shr, Sar, Slt, Ult, FromBool, Bits.Word, Count5,
         ShlAt, ShrAt, SarAt, ZextWord, SextWord, AddLow, SubLow, Same;
    EvalImmediates(OpOr, AddW, x);
  }

  lemma AndImmediateMatch(i: I.Instr, h: I.Hart, x: Inputs)
    requires Selects(x, i, h) && i.opcode.ANDI?
    ensures Eval(ValueSource(i.opcode), x) == I.Value(i, h)
  {
    hide Eval, I.GetReg, I.Imm, Add, Sub, And, Or, Xor, Upper, Shl, Shr, Sar, Slt, Ult, FromBool, Bits.Word, Count5,
         ShlAt, ShrAt, SarAt, ZextWord, SextWord, AddLow, SubLow, Same;
    EvalImmediates(OpAnd, AddW, x);
  }

  lemma SllImmediateMatch(i: I.Instr, h: I.Hart, x: Inputs)
    requires Selects(x, i, h) && i.opcode.SLLI?
    ensures Eval(ValueSource(i.opcode), x) == I.Value(i, h)
  {
    hide Eval, I.GetReg, I.Imm, Add, Sub, And, Or, Xor, Upper, Shl, Shr, Sar, Slt, Ult, FromBool, Bits.Word, Count5,
         ShlAt, ShrAt, SarAt, ZextWord, SextWord, AddLow, SubLow, Same;
    EvalImmediates(OpShl, AddW, x);
  }

  lemma SrlImmediateMatch(i: I.Instr, h: I.Hart, x: Inputs)
    requires Selects(x, i, h) && i.opcode.SRLI?
    ensures Eval(ValueSource(i.opcode), x) == I.Value(i, h)
  {
    hide Eval, I.GetReg, I.Imm, Add, Sub, And, Or, Xor, Upper, Shl, Shr, Sar, Slt, Ult, FromBool, Bits.Word, Count5,
         ShlAt, ShrAt, SarAt, ZextWord, SextWord, AddLow, SubLow, Same;
    EvalImmediates(OpSrl, AddW, x);
  }

  lemma SraImmediateMatch(i: I.Instr, h: I.Hart, x: Inputs)
    requires Selects(x, i, h) && i.opcode.SRAI?
    ensures Eval(ValueSource(i.opcode), x) == I.Value(i, h)
  {
    hide Eval, I.GetReg, I.Imm, Add, Sub, And, Or, Xor, Upper, Shl, Shr, Sar, Slt, Ult, FromBool, Bits.Word, Count5,
         ShlAt, ShrAt, SarAt, ZextWord, SextWord, AddLow, SubLow, Same;
    EvalImmediates(OpSra, AddW, x);
  }

  // The DSL body of every arithmetic instruction computes the executer's value.
  lemma ValueMatches(i: I.Instr, h: I.Hart)
    requires I.IsValueOp(i.opcode)
    ensures Eval(ValueSource(i.opcode), InputsOf(FieldsOf(i.opcode), i, h)) == I.Value(i, h)
  {
    hide I.GetReg, Eval, ValueSource;
    var op, x := i.opcode, InputsOf(FieldsOf(i.opcode), i, h);
    if op.LUI? || op.AUIPC? {
      UpperMatch(i, h, x);
    } else if op.ADDIW? || op.SLLIW? || op.SRLIW? || op.SRAIW? {
      WordImmediatesMatch(i, h, x);
    } else if op.ADDW? || op.SUBW? || op.SLLW? || op.SRLW? || op.SRAW? {
      WordRegistersMatch(i, h, x);
    } else if op.ADD? || op.SUB? {
      AddSubMatch(i, h, x);
    } else if op.SLT? || op.SLTU? {
      SetLessMatch(i, h, x);
    } else if op.XOR? || op.SLL? {
      XorSllMatch(i, h, x);
    } else if op.OR? || op.AND? {
      OrAndMatch(i, h, x);
    } else if op.SRL? || op.SRA? {
      RightShiftsMatch(i, h, x);
    } else if op.ADDI? {
      AddImmediateMatch(i, h, x);
    } else if op.SLTI? {
      SltImmediateMatch(i, h, x);
    } else if op.SLTIU? {
      SltuImmediateMatch(i, h, x);
    } else if op.XORI? {
      XorImmediateMatch(i, h, x);
    } else if op.ORI? {
      OrImmediateMatch(i, h, x);
    } else if op.ANDI? {
      AndImmediateMatch(i, h, x);
    } else if op.SLLI? {
      SllImmediateMatch(i, h, x);
    } else if op.SRLI? {
      SrlImmediateMatch(i, h, x);
    } else {
      SraImmediateMatch(i, h, x);
    }
  }

  lemma UpperMatch(i: I.Instr, h: I.Hart, x: Inputs)
    requires x.imm == I.Imm(i) && x.pc == h.pc && (i.opcode.LUI? || i.opcode.AUIPC?)
    ensures Eval(ValueSource(i.opcode), x) == I.Value(i, h)
  {
    hide Eval, I.GetReg, I.Imm, Add, Sub, And, Or, Xor, Upper, Shl, Shr, Sar, Slt, Ult, FromBool, Bits.Word, Count5,
         ShlAt, ShrAt, SarAt, ZextWord, SextWord, AddLow, SubLow, Same;
    UpperIsShift(I.Imm(i));
    EvalUpper(x);
  }

  lemma EvalUpper(x: Inputs)
    ensures Eval(Bin(OpShl, Imm, Lit(12)), x) == Shl(x.imm, 12)
    ensures Eval(Bin(OpAdd, Pc, Bin(OpShl, Imm, Lit(12))), x) == Add(x.pc, Shl(x.imm, 12))
  {
    hide Add, Shl, Value64, ApplyWord;
    ShippedLiterals();
  }

  // The condition of every branch is nonzero exactly when the executer takes it.
  lemma ConditionMatches(op: I.Opcode, x: Inputs)
    requires I.IsBranch(op)
    ensures Eval(Condition(op), x) != 0 <==> I.Taken(op, x.rs1, x.rs2)
  {
    if op.BGE? {
      NegatedFlag(Slt(x.rs1, x.rs2));
    } else if op.BGEU? {
      NegatedFlag(Ult(x.rs1, x.rs2));
    } else {
      FlagsMatch(op, x);
    }
  }

  lemma FlagsMatch(op: I.Opcode, x: Inputs)
    requires op.BEQ? || op.BNE? || op.BLT? || op.BLTU?
    ensures Eval(Condition(op), x) != 0 <==> I.Taken(op, x.rs1, x.rs2)
  {
    hide Same, Eval;
    if op.BEQ? {
      EvalRegisters(OpEq, AddW, x);
    } else if op.BNE? {
      EvalRegisters(OpNeq, AddW, x);
    } else if op.BLT? {
      EvalRegisters(OpLt, AddW, x);
    } else {
      EvalRegisters(OpLtu, AddW, x);
    }
  }

  // Statements without loads, in the memory of the inputs.
  lemma PerformLet(e: Expr, x: Inputs, o: Outcome)
    requires NoLoads(e) && x.mem == o.mem
    ensures PerformStm(LetRd(e), x, o) == o.(rd := Eval(e, x))
  {
    hide Eval, Faults, NoLoads;
    assert Now(x, o.mem) == x;
    NoLoadsNoFault(e, x);
  }

  lemma PerformSetPc(e: Expr, x: Inputs, o: Outcome)
    requires NoLoads(e) && x.mem == o.mem
    ensures PerformStm(SetPcTo(e), x, o) == o.(nextPc := Eval(e, x))
  {
    hide Eval, Faults, NoLoads;
    assert Now(x, o.mem) == x;
    NoLoadsNoFault(e, x);
  }

  lemma PerformIf(e: Expr, body: seq<Stm>, x: Inputs, o: Outcome)
    requires NoLoads(e) && x.mem == o.mem
    ensures PerformStm(If(e, body), x, o) == if Eval(e, x) == 0 then o else Perform(body, x, o)
  {
    hide Eval, Faults, NoLoads, Perform;
    assert Now(x, o.mem) == x;
    NoLoadsNoFault(e, x);
    assert FaultsIn(o, false) == o;
  }

  lemma PerformLoad(a: Expr, size: nat, x: Inputs, o: Outcome)
    requires NoLoads(a) && x.mem == o.mem && !o.aborted
    ensures PerformStm(LetRd(MemLoad(a, size)), x, o)
         == o.(rd := LoadValue(x.mem, x.satp, Eval(a, x), size), aborted := Unmapped(x.mem, x.satp, Eval(a, x)))
  {
    hide NoLoads, LoadValue, Unmapped;
    assert Now(x, o.mem) == x;
    NoLoadsNoFault(a, x);
  }

  lemma PerformStore(a: Expr, e: Expr, size: nat, x: Inputs, o: Outcome)
    requires NoLoads(a) && NoLoads(e) && x.mem == o.mem
    ensures PerformStm(StoreTo(a, e, size), x, o) == StoreOutcome(o, x.satp, Eval(a, x), Eval(e, x), size)
  {
    hide Eval, Faults, NoLoads, StoreOutcome;
    assert Now(x, o.mem) == x;
    NoLoadsNoFault(a, x);
    NoLoadsNoFault(e, x);
    assert FaultsIn(o, false) == o;
  }

  lemma BranchOutcome(i: I.Instr, h: I.Hart, o: Outcome)
    requires I.IsBranch(i.opcode)
    requires o == Perform(Source(i.opcode), InputsOf(FieldsOf(i.opcode), i, h), Begin(h))
    ensures o == Begin(h).(nextPc := if I.Taken(i.opcode, I.GetReg(h, i.rs1), I.GetReg(h, i.rs2))
            then I.Target(i, h.pc) else Add(h.pc, 4))
  {
    hide I.GetReg, Condition, I.Taken, Eval, Perform, PerformStm, NoLoads, Source, Add, I.Imm;
    var x, start := InputsOf(FieldsOf(i.opcode), i, h), Begin(h);
    var next := SetPcTo(Bin(OpAdd, Pc, Imm));
    SourceOfControl(i.opcode);
    SourcesHaveNoLoads(i.opcode);
    EvalSums(x);
    ConditionMatches(i.opcode, x);
    BranchFields(i, h);
    PerformOne(next, x, start);
    PerformSetPc(Bin(OpAdd, Pc, Imm), x, start);
    PerformOne(If(Condition(i.opcode), [next]), x, start);
    PerformIf(Condition(i.opcode), [next], x, start);
  }

  lemma BranchFields(i: I.Instr, h: I.Hart)
    requires I.IsBranch(i.opcode)
    ensures var x := InputsOf(FieldsOf(i.opcode), i, h); x.rs1 == I.GetReg(h, i.rs1) && x.rs2 == I.GetReg(h, i.rs2)
  {
    hide I.GetReg, I.Imm;
  }

  lemma EvalSums(x: Inputs)
    ensures Eval(Bin(OpAdd, Pc, Lit(4)), x) == Add(x.pc, 4)
    ensures Eval(Bin(OpAdd, Pc, Imm), x) == Add(x.pc, x.imm)
    ensures Eval(Address(), x) == Add(x.rs1, x.imm)
    ensures NoLoads(Address()) && NoLoads(Reg2) && NoLoads(Pc) && NoLoads(Bin(OpAdd, Pc, Lit(4))) &&
            NoLoads(Bin(OpAdd, Pc, Imm))
  {
    hide Add, ApplyWord, Value64;
    ShippedLiterals();
  }

  lemma JumpOutcome(i: I.Instr, h: I.Hart, o: Outcome)
    requires i.opcode.JAL? || i.opcode.JALR?
    requires o == Perform(Source(i.opcode), InputsOf(FieldsOf(i.opcode), i, h), Begin(h))
    ensures o == Begin(h).(rd := Add(h.pc, 4), nextPc := if i.opcode.JAL? then I.Target(i, h.pc)
            else Add(I.GetReg(h, i.rs1), I.Imm(i)))
  {
    hide I.GetReg, I.Imm, Add, Eval, Perform, PerformStm, NoLoads, Source, Address;
    var x, start := InputsOf(FieldsOf(i.opcode), i, h), Begin(h);
    var linked := start.(rd := Add(h.pc, 4));
    SourceOfControl(i.opcode);
    EvalSums(x);
    PerformLet(Bin(OpAdd, Pc, Lit(4)), x, start);
    PerformSetPc(Bin(OpAdd, Pc, Imm), x, linked);
    PerformSetPc(Address(), x, linked);
    PerformTwo(Source(i.opcode)[0], Source(i.opcode)[1], x, start);
  }

  lemma EcallOutcome(i: I.Instr, h: I.Hart, o: Outcome)
    requires i.opcode.ECALL?
    requires o == Perform(Source(i.opcode), InputsOf(FieldsOf(i.opcode), i, h), Begin(h))
    ensures o == Begin(h).(rd := h.pc, halted := true)
  {
    hide I.GetReg, I.Imm, Add, Perform, Source, FieldsOf;
    var x, start := InputsOf(FieldsOf(i.opcode), i, h), Begin(h);
    SourceOfControl(i.opcode);
    EvalSums(x);
    PerformLet(Pc, x, start.(halted := true));
    PerformThree(EcallStm, LetRd(Pc), EcallStm, x, start);
  }

  lemma LoadOutcome(i: I.Instr, h: I.Hart, o: Outcome)
    requires I.IsLoad(i.opcode)
    requires o == Perform(Source(i.opcode), InputsOf(FieldsOf(i.opcode), i, h), Begin(h))
    ensures var va := Add(I.GetReg(h, i.rs1), I.Imm(i));
            o == Begin(h).(rd := LoadValue(h.mem, h.satp, va, I.Width(i.opcode)), aborted :=
              Unmapped(h.mem, h.satp, va))
  {
    hide I.GetReg, I.Imm, Add, Eval, Perform, PerformStm, NoLoads, Source, LoadValue, Unmapped, I.Width, Address;
    var x, start := InputsOf(FieldsOf(i.opcode), i, h), Begin(h);
    SourceOfMemory(i.opcode);
    EvalSums(x);
    PerformLoad(Address(), I.Width(i.opcode), x, start);
    PerformOne(LetRd(MemLoad(Address(), I.Width(i.opcode))), x, start);
  }

  lemma StoreOutcomeOf(i: I.Instr, h: I.Hart, o: Outcome)
    requires I.IsStore(i.opcode)
    requires o == Perform(Source(i.opcode), InputsOf(FieldsOf(i.opcode), i, h), Begin(h))
    ensures var va := Add(I.GetReg(h, i.rs1), I.Imm(i));
            o == StoreOutcome(Begin(h), h.satp, va, I.GetReg(h, i.rs2), I.Width(i.opcode))
  {
    hide I.GetReg, I.Imm, Add, Perform, PerformStm, NoLoads, Source, I.Width, Address, StoreOutcome;
    var x, start := InputsOf(FieldsOf(i.opcode), i, h), Begin(h);
    SourceOfMemory(i.opcode);
    EvalSums(x);
    PerformStore(Address(), Reg2, I.Width(i.opcode), x, start);
    PerformOne(StoreTo(Address(), Reg2, I.Width(i.opcode)), x, start);
  }

  lemma PerformOne(a: Stm, x: Inputs, o: Outcome)
    ensures Perform([a], x, o) == PerformStm(a, x, o)
  {
    assert [a][1..] == [];
  }

  lemma PerformTwo(a: Stm, b: Stm, x: Inputs, o: Outcome)
    ensures Perform([a, b], x, o) == PerformStm(b, x, PerformStm(a, x, o))
  {
    assert [a, b][1..] == [b];
    PerformOne(b, x, PerformStm(a, x, o));
  }

  lemma PerformThree(a: Stm, b: Stm, d: Stm, x: Inputs, o: Outcome)
    ensures Perform([a, b, d], x, o) == PerformStm(d, x, PerformStm(b, x, PerformStm(a, x, o)))
  {
    assert [a, b, d][1..] == [b, d];
    PerformTwo(b, d, x, PerformStm(a, x, o));
  }

  // The hart after statements with outcome o, and the setreg that closes the function.
  function After(i: I.Instr, h: I.Hart, o: Outcome): I.Hart
  {
    var g := (if o.halted then h.(status := I.Halted) else h).(mem := o.mem);
    if o.aborted then h.(status := I.Aborted)
    else (if FieldsOf(i.opcode).rd then I.SetReg(g, i.rd, o.rd) else g).(pc := o.nextPc)
  }

  lemma AfterValue(i: I.Instr, h: I.Hart)
    requires I.IsValueOp(i.opcode)
    ensures After(i, h, Begin(h).(rd := I.Value(i, h))) == I.Execute(i, h)
  {
    hide I.SetReg, I.Value, I.Execute;
    I.ExecuteValue(i, h);
  }

  lemma AfterBranch(i: I.Instr, h: I.Hart)
    requires I.IsBranch(i.opcode)
    ensures After(i, h,
            Begin(h).(nextPc := if I.Taken(i.opcode, I.GetReg(h, i.rs1), I.GetReg(h, i.rs2)) then I.Target(i, h.pc)
              else Add(h.pc, 4)))
         == I.Execute(i, h)
  {
    hide I.GetReg, I.SetReg, I.Imm, Add, I.Taken, I.Target, I.Execute;
    I.ExecuteBranch(i, h);
  }

  lemma AfterJump(i: I.Instr, h: I.Hart)
    requires i.opcode.JAL? || i.opcode.JALR?
    ensures After(i, h, Begin(h).(rd := Add(h.pc, 4), nextPc := if i.opcode.JAL? then I.Target(i, h.pc)
            else Add(I.GetReg(h, i.rs1), I.Imm(i))))
         == I.Execute(i, h)
  {
    hide I.GetReg, I.SetReg, I.Imm, Add, I.Target, I.Execute, FieldsOf;
    JumpsWriteRd(i.opcode);
    if i.opcode.JAL? {
      I.ExecuteJal(i, h);
    } else {
      I.ExecuteJalr(i, h);
    }
  }

  lemma JumpsWriteRd(op: I.Opcode)
    requires op.JAL? || op.JALR?
    ensures FieldsOf(op).rd
  {}

  lemma AfterEcall(i: I.Instr, h: I.Hart)
    requires i.opcode.ECALL?
    ensures After(i, h, Begin(h).(rd := h.pc, halted := true)) == I.Execute(i, h)
  {
    hide I.SetReg, Add, I.Execute;
    I.ExecuteEcall(i, h);
  }

  lemma AfterLoad(i: I.Instr, h: I.Hart)
    requires I.IsLoad(i.opcode)
    ensures var va := Add(I.GetReg(h, i.rs1), I.Imm(i));
            After(i, h, Begin(h).(rd := LoadValue(h.mem, h.satp, va, I.Width(i.opcode)), aborted :=
              Unmapped(h.mem, h.satp, va)))
            == I.Execute(i, h)
  {
    hide I.GetReg, I.SetReg, I.Imm, Add, I.Width, I.Execute, Sv39.Translate, Memory.Read;
    I.ExecuteLoad(i, h);
  }

  // The executer's store, by the memory it leaves.
  lemma StoreExecutes(i: I.Instr, h: I.Hart)
    requires I.IsStore(i.opcode) && h.status == I.Running
    ensures var va := Add(I.GetReg(h, i.rs1), I.Imm(i));
            I.Execute(i, h) ==
            match StoreInto(h.mem, h.satp, va, I.GetReg(h, i.rs2), I.Width(i.opcode))
            case None => h.(status := I.Aborted)
            case Some(mem) => h.(mem := mem, pc := Add(h.pc, 4))
  {
    hide I.GetReg, I.SetReg, I.Imm, Add, I.Width, I.Value, I.Taken, Sv39.Translate, Memory.Write;
  }

  lemma AfterStore(i: I.Instr, h: I.Hart)
    requires I.IsStore(i.opcode) && h.status == I.Running
    ensures var va := Add(I.GetReg(h, i.rs1), I.Imm(i));
            After(i, h, StoreOutcome(Begin(h), h.satp, va, I.GetReg(h, i.rs2), I.Width(i.opcode))) == I.Execute(i, h)
  {
    hide I.GetReg, I.SetReg, I.Imm, Add, I.Width, I.Execute, StoreInto;
    StoreExecutes(i, h);
  }

  // The execute function generated from the ISA description of an instruction has exactly the
  // effect the rest of the model takes as its meaning, whatever temporaries came before.
  lemma GeneratedIsExecute(i: I.Instr, h: I.Hart, next: nat)
    requires Generatable(i.opcode) && h.status == I.Running
    ensures Finish(i, h,
            RunIr(Generated(FieldsOf(i.opcode), Source(i.opcode), next), Start(h), InputsOf(FieldsOf(i.opcode), i, h)))
              == I.Execute(i, h)
  {
    hide RunIr, Generated, PerformStm, Source, InputsOf, FieldsOf, I.Execute, I.SetReg;
    var f := FieldsOf(i.opcode);
    var x := InputsOf(f, i, h);
    SourceIsSane(i.opcode);
    InputsFit(f, i, h);
    GeneratedRuns(f, Source(i.opcode), next, Start(h), x);
    var o := Perform(Source(i.opcode), x, Begin(h));
    assert Finish(i, h, RunIr(Generated(f, Source(i.opcode), next), Start(h), x)) == After(i, h, o);
    OutcomeIsExecute(i, h, o);
  }

  lemma OutcomeIsExecute(i: I.Instr, h: I.Hart, o: Outcome)
    requires Generatable(i.opcode) && h.status == I.Running
    requires o == Perform(Source(i.opcode), InputsOf(FieldsOf(i.opcode), i, h), Begin(h))
    ensures After(i, h, o) == I.Execute(i, h)
  {
    hide I.Execute, I.Value, Source, After, Perform, FieldsOf, InputsOf, StoreOutcome, LoadValue, Unmapped;
    if I.IsValueOp(i.opcode) {
      ValueOutcome(i, h, o);
      AfterValue(i, h);
    } else if I.IsBranch(i.opcode) {
      BranchOutcome(i, h, o);
      AfterBranch(i, h);
    } else if I.IsLoad(i.opcode) {
      LoadOutcome(i, h, o);
      AfterLoad(i, h);
    } else if I.IsStore(i.opcode) {
      StoreOutcomeOf(i, h, o);
      AfterStore(i, h);
    } else if i.opcode.ECALL? {
      EcallOutcome(i, h, o);
      AfterEcall(i, h);
    } else {
      JumpOutcome(i, h, o);
      AfterJump(i, h);
    }
  }

  lemma InputsFit(f: Fields, i: I.Instr, h: I.Hart)
    ensures var x := InputsOf(f, i, h); (f.rs1 || x.rs1 == 0) && (f.rs2 || x.rs2 == 0)
  {}

  lemma ValueOutcome(i: I.Instr, h: I.Hart, o: Outcome)
    requires I.IsValueOp(i.opcode)
    requires o == Perform(Source(i.opcode), InputsOf(FieldsOf(i.opcode), i, h), Begin(h))
    ensures o == Begin(h).(rd := I.Value(i, h))
  {
    hide I.Value, Source, Perform, PerformStm, FieldsOf, ValueSource, Eval, NoLoads, I.GetReg, I.Imm;
    var x := InputsOf(FieldsOf(i.opcode), i, h);
    SourceOfValue(i.opcode);
    SourcesHaveNoLoads(i.opcode);
    ValueMatches(i, h);
    PerformLet(ValueSource(i.opcode), x, Begin(h));
    PerformOne(LetRd(ValueSource(i.opcode)), x, Begin(h));
  }
}
