/** The edges the traversal follows are the ways control goes in some state of the hart. */
module FlowEdges {
  import opened Bits
  import opened Isa
  import opened Cfg
  import opened Memory
  import opened Sv39

  // In some state instruction i at pc runs without halting or aborting and control goes to t.
  ghost predicate Reaches(i: Instr, pc: bv64, t: bv64)
  {
    exists h: Hart | h.pc == pc && h.status == Running :: Lands(i, h, t)
  }

  predicate Lands(i: Instr, h: Hart, t: bv64) { Execute(i, h).status == Running && Execute(i, h).pc == t }

  // Branches that go one way whatever the registers hold: one register compared with itself, or no
  // register below x0.
  predicate AlwaysTaken(i: Instr)
  {
    (i.rs1 == i.rs2 && (i.opcode.BEQ? || i.opcode.BGE? || i.opcode.BGEU?)) || (i.rs2 == 0 && i.opcode.BGEU?)
  }

  predicate NeverTaken(i: Instr)
  {
    (i.rs1 == i.rs2 && (i.opcode.BNE? || i.opcode.BLT? || i.opcode.BLTU?)) || (i.rs2 == 0 && i.opcode.BLTU?)
  }

  // A hart in Bare mode with the given registers.
  function At(regs: map<nat, bv64>, pc: bv64): Hart { Hart(regs, _ => 0, pc, 0, Running) }

  // Registers in which the two operands are equal, and in which the first is smaller.
  function Zeros(): map<nat, bv64> { map[] }

  function Ordered(i: Instr): map<nat, bv64>
  {
    if i.rs2 != 0 then map[i.rs2 := 1] else map[i.rs1 := 0xFFFF_FFFF_FFFF_FFFF]
  }

  lemma ZerosAre(i: Instr, pc: bv64)
    ensures GetReg(At(Zeros(), pc), i.rs1) == 0 && GetReg(At(Zeros(), pc), i.rs2) == 0
  {}

  lemma OrderedAre(i: Instr, pc: bv64)
    requires i.rs1 != i.rs2
    ensures var a, b := GetReg(At(Ordered(i), pc), i.rs1), GetReg(At(Ordered(i), pc), i.rs2);
            if i.rs2 != 0 then a == 0 && b == 1 else a == 0xFFFF_FFFF_FFFF_FFFF && b == 0
  {}

  lemma ComparedZeros(op: Opcode)
    requires IsBranch(op)
    ensures Taken(op, 0, 0) <==> op.BEQ? || op.BGE? || op.BGEU?
  {}

  lemma ComparedOrdered(op: Opcode)
    requires IsBranch(op)
    ensures Taken(op, 0, 1) <==> op.BNE? || op.BLT? || op.BLTU?
    ensures Taken(op, 0xFFFF_FFFF_FFFF_FFFF, 0) <==> op.BNE? || op.BLT? || op.BGEU?
  {}

  // What a comparison of a register with itself, or of any register with x0, yields.
  lemma ComparedWithSelf(op: Opcode, a: bv64)
    requires IsBranch(op)
    ensures Taken(op, a, a) <==> op.BEQ? || op.BGE? || op.BGEU?
    ensures op.BLTU? ==> !Taken(op, a, 0)
    ensures op.BGEU? ==> Taken(op, a, 0)
  {}

  // Some registers make a branch go the given way, unless all make it go the other.
  lemma SomeWay(i: Instr, pc: bv64, taken: bool)
    requires IsBranch(i.opcode)
    ensures (if taken then NeverTaken(i) else AlwaysTaken(i)) ||
            Lands(i, At(Zeros(), pc), if taken then Target(i, pc) else Add(pc, 4)) ||
            Lands(i, At(Ordered(i), pc), if taken then Target(i, pc) else Add(pc, 4))
  {
    hide Taken, GetReg, Target, Add, Ordered;
    ExecuteBranch(i, At(Zeros(), pc));
    ExecuteBranch(i, At(Ordered(i), pc));
    ZerosAre(i, pc);
    ComparedZeros(i.opcode);
    if i.rs1 != i.rs2 {
      OrderedAre(i, pc);
      ComparedOrdered(i.opcode);
    }
  }

  lemma OnlyWay(i: Instr, h: Hart)
    requires IsBranch(i.opcode)
    ensures AlwaysTaken(i) ==> Execute(i, h).pc == Target(i, h.pc)
    ensures NeverTaken(i) ==> Execute(i, h).pc == Add(h.pc, 4)
  {
    hide Taken, Target, Add, Execute;
    ExecuteBranch(i, h);
    ComparedWithSelf(i.opcode, GetReg(h, i.rs1));
  }

  lemma BareTranslates(h: Hart, va: bv64)
    requires h.satp == 0
    ensures Translate(h.mem, h.satp, va) == Some(va)
  {}

  // Outside branches, jumps and ecall an instruction runs on in Bare mode.
  lemma RunsOn(i: Instr, pc: bv64)
    requires !IsBranch(i.opcode) && !IsControl(i.opcode) && !i.opcode.CSRW? && !i.opcode.UNKNOWN?
    ensures Lands(i, At(Zeros(), pc), Add(pc, 4))
  {
    hide Value, Translate, Add, Imm, Read, Write;
    var h := At(Zeros(), pc);
    BareTranslates(h, Add(GetReg(h, i.rs1), Imm(i)));
    if IsValueOp(i.opcode) {
      ExecuteValue(i, h);
    }
  }

  // For an instruction that is no call and no indirect jump, the traversal follows exactly the ways
  // control can go, and one that no state takes: out of a branch that always goes the other way, or
  // behind an undecodable word, which aborts.
  lemma EdgesAreReal(i: Instr, pc: bv64, t: bv64)
    requires i.format == FormatOf(i.opcode) && StaysInFunction(i) && !i.opcode.CSRW?
    ensures Reaches(i, pc, t) <==>
            GoesOn(i, pc, t) && !i.opcode.UNKNOWN? && (AlwaysTaken(i) ==> t == Add(pc, Sext(i.imm))) &&
              (NeverTaken(i) ==> t == Add(pc, 4))
  {
    hide Lands, Add, Sext, AlwaysTaken, NeverTaken, GoesOn, FormatOf, StaysInFunction;
    if h: Hart :| h.pc == pc && h.status == Running && Lands(i, h, t) {
      EdgeFollowed(i, h, t);
    }
    if GoesOn(i, pc, t) && !i.opcode.UNKNOWN? && (AlwaysTaken(i) ==> t == Add(pc, Sext(i.imm))) &&
      (NeverTaken(i) ==> t == Add(pc, 4)) {
      EdgeTaken(i, pc, t);
    }
  }

  lemma EdgeFollowed(i: Instr, h: Hart, t: bv64)
    requires i.format == FormatOf(i.opcode) && StaysInFunction(i) && h.status == Running && Lands(i, h, t)
    ensures GoesOn(i, h.pc, t) && !i.opcode.UNKNOWN? && (AlwaysTaken(i) ==> t == Add(h.pc, Sext(i.imm))) &&
            (NeverTaken(i) ==> t == Add(h.pc, 4))
  {
    hide Add, Sext, Taken, Value, Load, Store, GetReg, SetReg, AlwaysTaken, NeverTaken;
    ExecuteFlow(i, h);
    OneWayBranches(i);
    if IsBranch(i.opcode) {
      OnlyWay(i, h);
    }
  }

  lemma OneWayBranches(i: Instr)
    ensures AlwaysTaken(i) || NeverTaken(i) ==> IsBranch(i.opcode)
    ensures !(AlwaysTaken(i) && NeverTaken(i))
  {}

  lemma EdgeTaken(i: Instr, pc: bv64, t: bv64)
    requires i.format == FormatOf(i.opcode) && StaysInFunction(i) && !i.opcode.CSRW? && !i.opcode.UNKNOWN?
    requires GoesOn(i, pc, t) && (AlwaysTaken(i) ==> t == Add(pc, Sext(i.imm))) && (NeverTaken(i) ==> t == Add(pc, 4))
    ensures Reaches(i, pc, t)
  {
    hide Execute, Add, Sext, Taken, AlwaysTaken, NeverTaken, Ordered;
    OneWayBranches(i);
    if IsBranch(i.opcode) {
      SomeWay(i, pc, t == Target(i, pc) && !NeverTaken(i));
    } else if i.opcode.JAL? {
      ExecuteJal(i, At(Zeros(), pc));
    } else {
      RunsOn(i, pc);
    }
  }

  // A direct call is a jal that writes a register, which then holds the return pc, and goes to t.
  lemma CallsLand(i: Instr, h: Hart, t: bv64)
    requires i.opcode.JAL?
    ensures CallsDirectly(i, h.pc, t) ==> Execute(i, h).pc == t && GetReg(Execute(i, h), i.rd) == Add(h.pc, 4)
    ensures Execute(i, h).regs != h.regs ==> CallsDirectly(i, h.pc, Execute(i, h).pc)
  {
    hide Execute, Add, Sext;
    ExecuteJal(i, h);
  }

  // After a call the traversal follows the return pc alone, and after a jump through a register
  // that links nothing, or an ecall, nothing.
  lemma CallsReturn(i: Instr, pc: bv64, t: bv64)
    ensures !StaysInFunction(i) ==> (GoesOn(i, pc, t) <==> i.rd != 0 && t == Add(pc, 4))
    ensures i.opcode.ECALL? ==> !GoesOn(i, pc, t)
  {
    hide Add, Sext;
  }
}
