/** Decoded instructions and the reference semantics of the generated executer. */
module Isa {
  import opened Bits
  import opened Memory
  import opened Sv39

  datatype Opcode =
    | LB | LH | LW | LD | LBU | LHU | LWU | SB | SH | SW | SD
    | ADDIW | SLLIW | SRLIW | SRAIW | ADDW | SUBW | SLLW | SRLW | SRAW
    | ADD | SUB | SLL | SLT | SLTU | XOR | SRL | SRA | OR | AND
    | ADDI | SLTI | SLTIU | XORI | ORI | ANDI | SLLI | SRLI | SRAI
    | JALR | BEQ | BNE | BLT | BGE | BLTU | BGEU | LUI | AUIPC | JAL | ECALL | CSRW | UNKNOWN

  datatype Format = FormatI | FormatS | FormatR | FormatB | FormatU | FormatJ | FormatUnknown

  datatype Instr = Instr(opcode: Opcode, format: Format, rd: nat, rs1: nat, rs2: nat, imm: bv32)

  // `Aborted` is the state after std::abort: a failed translation or an undecodable word.
  datatype Status = Running | Halted | Aborted

  datatype Hart = Hart(regs: map<nat, bv64>, mem: Mem, pc: bv64, satp: bv64, status: Status)

  // The cell of the register file; the executer never reads cell 0.
  function Cell(h: Hart, r: nat): bv64 { if r in h.regs then h.regs[r] else 0 }

  function GetReg(h: Hart, r: nat): bv64 { if r == 0 then 0 else Cell(h, r) }

  function SetReg(h: Hart, r: nat, v: bv64): Hart { if r == 0 then h else h.(regs := h.regs[r := v]) }

  function Imm(i: Instr): bv64 { Sext(i.imm) }

  function Load(h: Hart, va: bv64, n: nat): Option<bv64>
  {
    match Translate(h.mem, h.satp, va)
    case None => None
    case Some(pa) => Some(Read(h.mem, pa, n))
  }

  function Store(h: Hart, va: bv64, v: bv64, n: nat): Hart
  {
    match Translate(h.mem, h.satp, va)
    case None => h.(status := Aborted)
    case Some(pa) => h.(mem := Write(h.mem, pa, v, n))
  }

  predicate IsLoad(op: Opcode) { op.LB? || op.LH? || op.LW? || op.LD? || op.LBU? || op.LHU? || op.LWU? }
  predicate IsStore(op: Opcode) { op.SB? || op.SH? || op.SW? || op.SD? }
  predicate IsBranch(op: Opcode) { op.BEQ? || op.BNE? || op.BLT? || op.BGE? || op.BLTU? || op.BGEU? }
  predicate IsControl(op: Opcode) { op.JAL? || op.JALR? || op.ECALL? }
  predicate IsValueOp(op: Opcode)
  {
    !IsLoad(op) && !IsStore(op) && !IsBranch(op) && !IsControl(op) && !op.CSRW? && !op.UNKNOWN?
  }

  // Instructions on two registers.
  predicate IsRegReg(op: Opcode)
  {
    op.ADD? || op.SUB? || op.SLL? || op.SLT? || op.SLTU? || op.XOR? || op.SRL? || op.SRA? || op.OR? || op.AND? ||
    op.ADDW? || op.SUBW? || op.SLLW? || op.SRLW? || op.SRAW?
  }

  // The format of the ISA description; ecall is listed with the jumps.
  function FormatOf(op: Opcode): Format
  {
    if op.UNKNOWN? then FormatUnknown
    else if IsRegReg(op) then FormatR
    else if IsStore(op) then FormatS
    else if IsBranch(op) then FormatB
    else if op.LUI? || op.AUIPC? then FormatU
    else if op.JAL? || op.ECALL? then FormatJ
    else FormatI
  }

  // Bytes a load or store moves.
  function Width(op: Opcode): nat
  {
    if op.LB? || op.LBU? || op.SB? then 1
    else if op.LH? || op.LHU? || op.SH? then 2
    else if op.LW? || op.LWU? || op.SW? then 4
    else 8
  }

  // The value an arithmetic instruction writes to rd; no other instruction uses it.
  function Value(i: Instr, h: Hart): bv64
  {
    var a, b, imm := GetReg(h, i.rs1), GetReg(h, i.rs2), Imm(i);
    var op := i.opcode;
    if op.ADDIW? then SextWord(AddLow(ZextWord(a), ZextWord(imm)))
    else if op.SLLIW? then ShlAt(Word(a), Count5(imm))
    else if op.SRLIW? then ShrAt(Word(a), Count5(imm))
    else if op.SRAIW? then SextWord(SarAt(Word(a), Count5(imm)))
    else if op.ADDW? then SextWord(AddLow(ZextWord(a), ZextWord(b)))
    else if op.SUBW? then SextWord(SubLow(ZextWord(a), ZextWord(b)))
    else if op.SLLW? then ShlAt(Word(a), Count5(b))
    else if op.SRLW? then ShrAt(Word(a), Count5(b))
    else if op.SRAW? then SextWord(SarAt(Word(a), Count5(b)))
    else if op.ADD? then Add(a, b)
    else if op.SUB? then Sub(a, b)
    else if op.SLL? then Shl(a, b)
    else if op.SLT? then FromBool(Slt(a, b))
    else if op.SLTU? then FromBool(Ult(a, b))
    else if op.XOR? then Xor(a, b)
    else if op.SRL? then Shr(a, b)
    else if op.SRA? then Sar(a, b)
    else if op.OR? then Or(a, b)
    else if op.AND? then And(a, b)
    else if op.ADDI? then Add(a, imm)
    else if op.SLTI? then FromBool(Slt(a, imm))
    else if op.SLTIU? then FromBool(Ult(a, imm))
    else if op.XORI? then Xor(a, imm)
    else if op.ORI? then Or(a, imm)
    else if op.ANDI? then And(a, imm)
    else if op.SLLI? then Shl(a, imm)
    else if op.SRLI? then Shr(a, imm)
    else if op.SRAI? then Sar(a, imm)
    else if op.LUI? then Upper(imm)
    else if op.AUIPC? then Add(h.pc, Upper(imm))
    else 0
  }

  // `ge` and `geu` are computed as neq(lt, 1).
  predicate Taken(op: Opcode, a: bv64, b: bv64)
  {
    if op.BEQ? then Same(a, b)
    else if op.BNE? then !Same(a, b)
    else if op.BLT? then Slt(a, b)
    else if op.BGE? then NeqOne(FromBool(Slt(a, b)))
    else if op.BLTU? then Ult(a, b)
    else NeqOne(FromBool(Ult(a, b)))
  }

  function Target(i: Instr, pc: bv64): bv64 { Add(pc, Imm(i)) }

  // One instruction, with `pc_ = next_pc_` at the end.
  function Execute(i: Instr, h: Hart): Hart
  {
    var fall := Add(h.pc, 4);
    if IsLoad(i.opcode) then
      match Load(h, Add(GetReg(h, i.rs1), Imm(i)), Width(i.opcode))
      case None => h.(status := Aborted)
      case Some(v) => SetReg(h, i.rd, v).(pc := fall)
    else if IsStore(i.opcode) then
      var h' := Store(h, Add(GetReg(h, i.rs1), Imm(i)), GetReg(h, i.rs2), Width(i.opcode));
      if h'.status == Aborted then h' else h'.(pc := fall)
    else if IsBranch(i.opcode) then
      h.(pc := if Taken(i.opcode, GetReg(h, i.rs1), GetReg(h, i.rs2)) then Target(i, h.pc) else fall)
    else if i.opcode.JAL? then SetReg(h, i.rd, fall).(pc := Target(i, h.pc))
    else if i.opcode.JALR? then SetReg(h, i.rd, fall).(pc := Add(GetReg(h, i.rs1), Imm(i)))
    else if i.opcode.ECALL? then SetReg(h.(status := Halted), i.rd, h.pc).(pc := fall)
    // csrw's rd is never decoded; its effect is not modelled.
    else if i.opcode.CSRW? || i.opcode.UNKNOWN? then h.(status := Aborted)
    else SetReg(h, i.rd, Value(i, h)).(pc := fall)
  }

  // A pointer to the execute function of one opcode.
  datatype ExecFn = ExecFn(op: Opcode)

  // What `execute` returns for the caller to keep.
  function ExecFnOf(op: Opcode): ExecFn { ExecFn(op) }

  // The function behind the pointer takes the instruction's operands and ignores its opcode.
  function CallFn(f: ExecFn, i: Instr, h: Hart): Hart { Execute(i.(opcode := f.op), h) }

  lemma OwnFnExecutes(i: Instr, h: Hart)
    ensures CallFn(ExecFnOf(i.opcode), i, h) == Execute(i, h)
  {
    hide Execute;
    assert i.(opcode := ExecFnOf(i.opcode).op) == i;
  }

  lemma ExecuteValue(i: Instr, h: Hart)
    requires IsValueOp(i.opcode)
    ensures Execute(i, h) == SetReg(h, i.rd, Value(i, h)).(pc := Add(h.pc, 4))
  {
    hide GetReg, SetReg, Imm, Add, Taken, Target, Value, Load, Store, Width;
  }

  lemma ExecuteLoad(i: Instr, h: Hart)
    requires IsLoad(i.opcode)
    ensures Execute(i, h)
         == match Load(h, Add(GetReg(h, i.rs1), Imm(i)), Width(i.opcode))
            case None => h.(status := Aborted)
            case Some(v) => SetReg(h, i.rd, v).(pc := Add(h.pc, 4))
  {
    hide GetReg, SetReg, Imm, Add, Taken, Target, Value, Load, Store, Width;
  }

  lemma ExecuteBranch(i: Instr, h: Hart)
    requires IsBranch(i.opcode)
    ensures Execute(i, h)
         == h.(pc := if Taken(i.opcode, GetReg(h, i.rs1), GetReg(h, i.rs2)) then Target(i, h.pc) else Add(h.pc, 4))
  {
    hide GetReg, SetReg, Imm, Add, Taken, Target, Value, Load, Store, Width;
  }

  lemma ExecuteJal(i: Instr, h: Hart)
    requires i.opcode.JAL?
    ensures Execute(i, h) == SetReg(h, i.rd, Add(h.pc, 4)).(pc := Target(i, h.pc))
  {
    hide GetReg, SetReg, Imm, Add, Taken, Target, Value, Load, Store, Width;
  }

  lemma ExecuteJalr(i: Instr, h: Hart)
    requires i.opcode.JALR?
    ensures Execute(i, h) == SetReg(h, i.rd, Add(h.pc, 4)).(pc := Add(GetReg(h, i.rs1), Imm(i)))
  {
    hide GetReg, SetReg, Imm, Add, Taken, Target, Value, Load, Store, Width;
  }

  lemma ExecuteEcall(i: Instr, h: Hart)
    requires i.opcode.ECALL?
    ensures Execute(i, h) == SetReg(h.(status := Halted), i.rd, h.pc).(pc := Add(h.pc, 4))
  {
    hide GetReg, SetReg, Imm, Add, Taken, Target, Value, Load, Store, Width;
  }

  // satp and x0's cell, which no instruction changes.
  predicate SameOutside(g: Hart, h: Hart) { g.satp == h.satp && Cell(g, 0) == Cell(h, 0) }

  lemma SetRegKeeps(h: Hart, r: nat, v: bv64, pc: bv64)
    ensures SameOutside(SetReg(h, r, v).(pc := pc), h)
  {}

  lemma FieldsKeep(h: Hart, pc: bv64, s: Status, m: Mem)
    ensures SameOutside(h.(pc := pc), h) && SameOutside(h.(status := s), h)
    ensures SameOutside(h.(mem := m), h) && SameOutside(h.(mem := m).(pc := pc), h)
  {}

  lemma KeepsTwice(f: Hart, g: Hart, h: Hart)
    requires SameOutside(f, g) && SameOutside(g, h)
    ensures SameOutside(f, h)
  {}

  lemma MemoryKeeps(i: Instr, h: Hart)
    requires IsLoad(i.opcode) || IsStore(i.opcode)
    ensures SameOutside(Execute(i, h), h)
  {
    hide SameOutside, SetReg, Translate, Imm;
    var address, fall := Add(GetReg(h, i.rs1), Imm(i)), Add(h.pc, 4);
    FieldsKeep(h, fall, Aborted, Execute(i, h).mem);
    if IsLoad(i.opcode) {
      match Load(h, address, Width(i.opcode))
      case None =>
      case Some(v) => SetRegKeeps(h, i.rd, v, fall);
    }
  }

  lemma ControlKeeps(i: Instr, h: Hart)
    requires IsBranch(i.opcode) || IsControl(i.opcode) || i.opcode.CSRW? || i.opcode.UNKNOWN?
    ensures SameOutside(Execute(i, h), h)
  {
    hide SameOutside, GetReg, SetReg, Imm, Add, Taken, Target, Value, Load, Store;
    var fall := Add(h.pc, 4);
    FieldsKeep(h, Execute(i, h).pc, Aborted, h.mem);
    if i.opcode.JAL? {
      ExecuteJal(i, h);
      SetRegKeeps(h, i.rd, fall, Target(i, h.pc));
    } else if i.opcode.JALR? {
      ExecuteJalr(i, h);
      SetRegKeeps(h, i.rd, fall, Add(GetReg(h, i.rs1), Imm(i)));
    } else if i.opcode.ECALL? {
      EcallKeeps(i, h);
    } else if IsBranch(i.opcode) {
      ExecuteBranch(i, h);
    }
  }

  lemma EcallKeeps(i: Instr, h: Hart)
    requires i.opcode.ECALL?
    ensures SameOutside(Execute(i, h), h)
  {
    hide SameOutside, SetReg, Add, Execute;
    ExecuteEcall(i, h);
    FieldsKeep(h, h.pc, Halted, h.mem);
    SetRegKeeps(h.(status := Halted), i.rd, h.pc, Add(h.pc, 4));
    KeepsTwice(Execute(i, h), h.(status := Halted), h);
  }

  lemma ExecuteKeeps(i: Instr, h: Hart)
    ensures SameOutside(Execute(i, h), h)
  {
    if IsValueOp(i.opcode) {
      ExecuteValue(i, h);
      SetRegKeeps(h, i.rd, Value(i, h), Add(h.pc, 4));
    } else if IsLoad(i.opcode) || IsStore(i.opcode) {
      MemoryKeeps(i, h);
    } else {
      ControlKeeps(i, h);
    }
  }

  // Where control goes: branches go one of two ways, jal to its target, jalr anywhere, and only
  // an ecall halts, behind itself.
  lemma ExecuteFlow(i: Instr, h: Hart)
    requires h.status == Running && Execute(i, h).status != Aborted
    ensures if IsBranch(i.opcode) then Execute(i, h).pc == Target(i, h.pc) || Execute(i, h).pc == Add(h.pc, 4)
            else if i.opcode.JAL? then Execute(i, h).pc == Target(i, h.pc)
            else i.opcode.JALR? || Execute(i, h).pc == Add(h.pc, 4)
    ensures i.opcode.ECALL? <==> Execute(i, h).status == Halted
  {
    hide Translate, Value, Taken, Target;
  }

  lemma SetRegRuns(h: Hart, r: nat, v: bv64)
    ensures SetReg(h, r, v).status == h.status
  {}

  lemma StoreAborts(h: Hart, va: bv64, v: bv64, n: nat)
    ensures Store(h, va, v, n).pc == h.pc
  {}

  // An abort leaves the pc where it was.
  lemma AbortKeepsPc(i: Instr, h: Hart)
    requires h.status != Aborted && Execute(i, h).status == Aborted
    ensures Execute(i, h).pc == h.pc
  {
    hide SetReg, Store, Load, Value, Target, GetReg;
    var address, fall := Add(GetReg(h, i.rs1), Imm(i)), Add(h.pc, 4);
    if IsLoad(i.opcode) {
      match Load(h, address, Width(i.opcode))
      case None =>
      case Some(v) => SetRegRuns(h, i.rd, v);
    } else if IsStore(i.opcode) {
      StoreAborts(h, address, GetReg(h, i.rs2), Width(i.opcode));
    } else if i.opcode.ECALL? {
      SetRegRuns(h.(status := Halted), i.rd, h.pc);
    } else {
      SetRegRuns(h, i.rd, fall);
      SetRegRuns(h, i.rd, Value(i, h));
    }
  }
}
