/** What each x86 emitter appends to the code buffer for one instruction, control flow aside. */
module Emit {
  import opened Bits
  import opened Isa
  import opened X86

  const EVEN_MASK: bv64 := 0xFFFF_FFFF_FFFF_FFFE

  function WriteReg(rd: nat): seq<Ins> { if rd == 0 then [] else [StCell(rd, RAX)] }

  function IncreasePc(): seq<Ins> { [Do(Mov(RAX, PcCell)), Do(Alu(AddOp, RAX, Const(4))), StPc(RAX)] }

  function RegReg(i: Instr, op: AluOp): seq<Ins>
  {
    [Do(Mov(RAX, RegCell(i.rs1))), Do(Mov(RDX, RegCell(i.rs2))), Do(Alu(op, RAX, R(RDX)))]
  }

  function RegImm(i: Instr, op: AluOp): seq<Ins> { [Do(Mov(RAX, RegCell(i.rs1))), Do(Alu(op, RAX, Const(Imm(i))))] }

  function ShiftReg(i: Instr, sh: ShiftOp): seq<Ins>
  {
    [Do(Mov(RAX, RegCell(i.rs1))), Do(Mov(RCX, RegCell(i.rs2))), Do(Shift(sh, RAX, R(RCX)))]
  }

  function ShiftImm(i: Instr, sh: ShiftOp): seq<Ins>
  {
    [Do(Mov(RAX, RegCell(i.rs1))), Do(Shift(sh, RAX, Const(Imm(i))))]
  }

  function SetLess(i: Instr, cc: Cond): seq<Ins>
  {
    [Do(Mov(RAX, RegCell(i.rs1))), Do(Mov(RDX, RegCell(i.rs2))), Do(Cmp(RAX, R(RDX))), Do(SetCc(cc, RAX)),
      Do(Ext(Zx8, RAX))]
  }

  function SetLessImm(i: Instr, cc: Cond): seq<Ins>
  {
    [Do(Mov(RAX, RegCell(i.rs1))), Do(Cmp(RAX, Const(Imm(i)))), Do(SetCc(cc, RAX)), Do(Ext(Zx8, RAX))]
  }

  function RegRegW(i: Instr, op: AluOp): seq<Ins>
  {
    [Do(Mov(RAX, RegCell32(i.rs1))), Do(Mov(RDX, RegCell32(i.rs2))), Do(Alu32(op, RAX, R(RDX))), Do(Ext(Sx32, RAX))]
  }

  function ShiftRegW(i: Instr, sh: ShiftOp): seq<Ins>
  {
    [Do(Mov(RAX, RegCell32(i.rs1))), Do(Mov(RCX, RegCell32(i.rs2))), Do(Shift32(sh, RAX, R(RCX)))]
  }

  function ShiftImmW(i: Instr, sh: ShiftOp): seq<Ins>
  {
    [Do(Mov(RAX, RegCell32(i.rs1))), Do(Shift32(sh, RAX, Const(Imm(i))))]
  }

  function AddImmW(i: Instr): seq<Ins>
  {
    [Do(Mov(RAX, RegCell32(i.rs1))), Do(Alu32(AddOp, RAX, Const(Imm(i)))), Do(Ext(Sx32, RAX))]
  }

  function LuiCode(i: Instr): seq<Ins> { [Do(Mov(RAX, Const(Upper(Imm(i)))))] }

  function AuipcCode(i: Instr): seq<Ins> { [Do(Mov(RAX, PcCell)), Do(Alu(AddOp, RAX, Const(Upper(Imm(i)))))] }

  // The instructions that leave an arithmetic result in rax.
  function ValueCode(i: Instr): seq<Ins>
  {
    var op := i.opcode;
    if op.ADD? then RegReg(i, AddOp)
    else if op.SUB? then RegReg(i, SubOp)
    else if op.XOR? then RegReg(i, XorOp)
    else if op.OR? then RegReg(i, OrOp)
    else if op.AND? then RegReg(i, AndOp)
    else if op.ADDI? then RegImm(i, AddOp)
    else if op.XORI? then RegImm(i, XorOp)
    else if op.ORI? then RegImm(i, OrOp)
    else if op.ANDI? then RegImm(i, AndOp)
    else if op.SLL? then ShiftReg(i, ShlOp)
    else if op.SRL? then ShiftReg(i, ShrOp)
    else if op.SRA? then ShiftReg(i, SarOp)
    else if op.SLLI? then ShiftImm(i, ShlOp)
    else if op.SRLI? then ShiftImm(i, ShrOp)
    else if op.SRAI? then ShiftImm(i, SarOp)
    else if op.SLT? then SetLess(i, CcL)
    else if op.SLTU? then SetLess(i, CcB)
    else if op.SLTI? then SetLessImm(i, CcL)
    else if op.SLTIU? then SetLessImm(i, CcB)
    else if op.ADDW? then RegRegW(i, AddOp)
    else if op.SUBW? then RegRegW(i, SubOp)
    else if op.ADDIW? then AddImmW(i)
    else if op.SLLW? then ShiftRegW(i, ShlOp) + [Do(Ext(Sx32, RAX))]
    else if op.SRLW? then ShiftRegW(i, ShrOp)
    else if op.SRAW? then ShiftRegW(i, SarOp) + [Do(Ext(Sx32, RAX))]
    else if op.SLLIW? then ShiftImmW(i, ShlOp) + [Do(Ext(Sx32, RAX))]
    else if op.SRLIW? then ShiftImmW(i, ShrOp)
    else if op.SRAIW? then ShiftImmW(i, SarOp) + [Do(Ext(Sx32, RAX))]
    else if op.LUI? then LuiCode(i)
    else if op.AUIPC? then AuipcCode(i)
    else []
  }

  // rax = regs[rs1] + imm.
  function Address(i: Instr): seq<Ins>
  {
    [Do(Mov(RAX, RegCell(i.rs1)))] + if i.imm != 0 then [Do(Alu(AddOp, RAX, Const(Imm(i))))] else []
  }

  function LoadExtend(op: Opcode): Extend
  {
    if op.LB? then Sx8
    else if op.LH? then Sx16
    else if op.LW? then Sx32
    else if op.LBU? then Zx8
    else if op.LHU? then Zx16
    else if op.LWU? then Zx32
    else Full
  }

  function SizeImm(n: nat): bv64 { if n == 1 then 1 else if n == 2 then 2 else if n == 4 then 4 else 8 }

  function LoadCode(direct: bool, i: Instr): seq<Ins>
  {
    var n, how := Width(i.opcode), LoadExtend(i.opcode);
    Address(i) +
    if direct then [Do(Mov(R10, R(RAX))), Do(LdMem(how, RAX, R10, n))]
    else [Do(Mov(RSI, R(RAX))), Do(Mov(RDX, Const(SizeImm(n)))), CallMemRead, Do(Ext(how, RAX))]
  }

  function StoreCode(direct: bool, i: Instr): seq<Ins>
  {
    var n := Width(i.opcode);
    Address(i) + [Do(Mov(RDX, RegCell(i.rs2)))] +
    if direct then [Do(Mov(R10, R(RAX))), StMem(R10, RDX, n)]
    else [Do(Mov(RSI, R(RAX))), Do(Mov(RCX, Const(SizeImm(n)))), CallMemWrite]
  }

  function JalCode(i: Instr): seq<Ins>
  {
    [Do(Mov(RAX, PcCell)), Do(Alu(AddOp, RAX, Const(4)))] + WriteReg(i.rd) +
      [Do(Mov(RAX, PcCell)), Do(Alu(AddOp, RAX, Const(Imm(i)))), StPc(RAX)]
  }

  function JalrCode(i: Instr): seq<Ins>
  {
    [Do(Mov(RAX, PcCell)), Do(Alu(AddOp, RAX, Const(4)))] + WriteReg(i.rd) +
    [Do(Mov(RAX, RegCell(i.rs1))), Do(Alu(AddOp, RAX, Const(Imm(i)))), Do(Alu(AndOp, RAX, Const(EVEN_MASK))), StPc(RAX)]
  }

  // The condition under which the emitted cmov falls through.
  function FallCond(op: Opcode): Cond
  {
    if op.BEQ? then CcNE
    else if op.BNE? then CcE
    else if op.BLT? then CcGE
    else if op.BGE? then CcL
    else if op.BLTU? then CcAE
    else CcB
  }

  function BranchCode(i: Instr): seq<Ins>
  {
    [Do(Mov(RAX, PcCell)), Do(Mov(RCX, R(RAX))), Do(Alu(AddOp, RAX, Const(Imm(i)))), Do(Alu(AddOp, RCX, Const(4)))] +
    [Do(Mov(RDX, RegCell(i.rs1))), Do(Mov(R8, RegCell(i.rs2))), Do(Cmp(RDX, R(R8))),
      Do(CMov(FallCond(i.opcode), RAX, RCX)), StPc(RAX)]
  }

  function EcallCode(): seq<Ins> { IncreasePc() + [CallEcall] }

  // Everything an emitter appends for i, jumps, labels and call trampolines aside. Nothing is
  // emitted for an unknown instruction; csrw is not modelled.
  function DataCode(direct: bool, i: Instr): seq<Ins>
  {
    if IsLoad(i.opcode) then LoadCode(direct, i) + WriteReg(i.rd) + IncreasePc()
    else if IsStore(i.opcode) then StoreCode(direct, i) + IncreasePc()
    else if IsBranch(i.opcode) then BranchCode(i)
    else if i.opcode.JAL? then JalCode(i)
    else if i.opcode.JALR? then JalrCode(i)
    else if i.opcode.ECALL? then EcallCode()
    else if i.opcode.CSRW? || i.opcode.UNKNOWN? then []
    else ValueCode(i) + WriteReg(i.rd) + IncreasePc()
  }

  lemma RegisterCodeIsStraight(i: Instr)
    ensures Straight(ValueCode(i))
  {
    hide Upper;
  }

  lemma MemoryCodeIsStraight(direct: bool, i: Instr)
    ensures Straight(LoadCode(direct, i)) && Straight(StoreCode(direct, i))
  {
    hide Width;
  }

  lemma ControlCodeIsStraight(i: Instr)
    ensures Straight(JalCode(i)) && Straight(JalrCode(i)) && Straight(BranchCode(i)) && Straight(EcallCode())
  {
    hide FallCond;
  }

  // No jump and no call trampoline hides in the emitted data code.
  lemma DataCodeIsStraight(direct: bool, i: Instr)
    ensures Straight(DataCode(direct, i))
  {
    hide StoreCode;
    RegisterCodeIsStraight(i);
    MemoryCodeIsStraight(direct, i);
    ControlCodeIsStraight(i);
  }
}
