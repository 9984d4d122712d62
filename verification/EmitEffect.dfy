/** The whole sequence emitted for an instruction against Execute, and exactly when they agree. */
module EmitEffect {
  import opened Bits
  import opened Numbers
  import opened Memory
  import opened Sv39
  import opened Isa
  import opened X86
  import opened Emit
  import opened EmitAgrees

  // The hart after the emitted code; count and status as the executer would leave them.
  ghost predicate Leaves(code: seq<Ins>, h: Hart, x: State, junk: bv64)
  {
    var y := Run(code, x, junk);
    y.hart == h && y.count == x.count
  }

  lemma WriteRegEffect(rd: nat, x: State, junk: bv64)
    requires x.hart.status != Aborted
    ensures Run(WriteReg(rd), x, junk) == x.(hart := SetReg(x.hart, rd, x.cpu.rax))
  {
    hide DoOp;
    if rd != 0 {
      Run1(StCell(rd, RAX), x, junk);
    }
  }

  lemma IncreasePcEffect(x: State, junk: bv64)
    requires x.hart.status != Aborted
    ensures Leaves(IncreasePc(), x.hart.(pc := Add(x.hart.pc, 4)), x, junk)
  {
    hide Load, Store, Cpu.Holds, Add, Or, Xor, Shl, Shr, Sar, FromBool, Word, Count5, ShlAt, ShrAt, SarAt, ZextByte,
         ZextHalf, ZextWord,
         SextByte, SextHalf, SextWord, AddLow, SubLow;
    Run3(Do(Mov(RAX, PcCell)), Do(Alu(AddOp, RAX, Const(4))), StPc(RAX), x, junk);
  }

  // Whatever code leaves in rax is written to rd, and the pc moves on.
  lemma FinishEffect(code: seq<Ins>, v: bv64, rd: nat, x: State, junk: bv64)
    requires x.hart.status != Aborted && Computes(code, v, x, junk)
    ensures Leaves(code + WriteReg(rd) + IncreasePc(), SetReg(x.hart, rd, v).(pc := Add(x.hart.pc, 4)), x, junk)
  {
    hide IncreasePc, Run;
    RunAppend(code, WriteReg(rd), x, junk);
    RunAppend(code + WriteReg(rd), IncreasePc(), x, junk);
    var y := Run(code, x, junk);
    WriteRegEffect(rd, y, junk);
    IncreasePcEffect(y.(hart := SetReg(y.hart, rd, y.cpu.rax)), junk);
  }

  // An aborted process runs nothing.
  lemma {:induction false} AbortedStays(code: seq<Ins>, x: State, junk: bv64)
    requires x.hart.status == Aborted
    ensures Run(code, x, junk) == x
    decreases |code|
  {
    if code != [] {
      AbortedStays(code[1..], x, junk);
    }
  }

  lemma AddressEffect(i: Instr, x: State, junk: bv64)
    requires Ready(false, x)
    ensures Computes(Address(i), Add(GetReg(x.hart, i.rs1), Imm(i)), x, junk)
  {
    SextZero();
    AddZero(GetReg(x.hart, i.rs1));
    hide And, Or, Shl, Shr, Sar, Slt, Ult, FromBool, Word, Count5, ShlAt, ShrAt, ZextHalf, ZextWord, SextByte, SextHalf;
    var ld := Do(Mov(RAX, RegCell(i.rs1)));
    if i.imm != 0 {
      assert Address(i) == [ld, Do(Alu(AddOp, RAX, Const(Imm(i))))];
      Run2(ld, Do(Alu(AddOp, RAX, Const(Imm(i)))), x, junk);
    } else {
      assert Address(i) == [ld];
      Run1(ld, x, junk);
    }
  }

  // What the emitted load leaves in rax: the bytes read, extended as the emitter extends them.
  function EmittedLoad(op: Opcode, v: bv64): bv64 { Extended(LoadExtend(op), v) }

  function DirectLoad(op: Opcode): seq<Ins>
  {
    [Do(Mov(R10, R(RAX))), Do(LdMem(LoadExtend(op), RAX, R10, Width(op)))]
  }

  function TrampolineLoad(op: Opcode): seq<Ins>
  {
    [Do(Mov(RSI, R(RAX))), Do(Mov(RDX, Const(SizeImm(Width(op))))), CallMemRead, Do(Ext(LoadExtend(op), RAX))]
  }

  lemma DirectLoadEffect(op: Opcode, x: State, junk: bv64)
    requires Ready(true, x)
    ensures Load(x.hart, x.cpu.rax, Width(op)).Some?
    ensures Computes(DirectLoad(op), EmittedLoad(op, Load(x.hart, x.cpu.rax, Width(op)).value), x, junk)
  {
    hide Write, Read, Cpu.Holds, Walk, LoadExtend, Width, Add, And, Or, Xor, Shl, Shr, Sar, FromBool, Word, Count5,
         ShlAt, ShrAt, SarAt,
         ZextByte, ZextHalf, ZextWord, SextByte, SextHalf, SextWord, AddLow, SubLow;
    Run2(Do(Mov(R10, R(RAX))), Do(LdMem(LoadExtend(op), RAX, R10, Width(op))), x, junk);
  }

  lemma SizeArgOfImm(op: Opcode)
    ensures SizeArg(SizeImm(Width(op))) == Width(op)
  {}

  // The three instructions up to the call's return.
  function TrampolineRead(op: Opcode): seq<Ins>
  {
    [Do(Mov(RSI, R(RAX))), Do(Mov(RDX, Const(SizeImm(Width(op))))), CallMemRead]
  }

  lemma MovEffect(d: Reg, s: Operand, x: State, junk: bv64)
    requires x.hart.status == Running
    ensures Exec(Do(Mov(d, s)), x, junk) == x.(cpu := x.cpu.Set(d, Fetch(s, x.cpu, x.hart)))
  {
    hide Cpu.Set, Fetch;
  }

  lemma ReadCallEffect(x: State, junk: bv64)
    requires x.hart.status == Running
    ensures Exec(CallMemRead, x, junk) ==
            match Load(x.hart, x.cpu.rsi, SizeArg(x.cpu.rdx))
            case None => x.(hart := x.hart.(status := Aborted))
            case Some(v) => x.(cpu := x.cpu.Clobbered(v, junk))
  {
    hide Load, SizeArg, Cpu.Clobbered;
  }

  lemma TrampolineReadEffect(op: Opcode, x: State, junk: bv64)
    requires Ready(false, x)
    ensures match Load(x.hart, x.cpu.rax, Width(op))
            case None => Leaves(TrampolineRead(op), x.hart.(status := Aborted), x, junk)
            case Some(v) => Computes(TrampolineRead(op), v, x, junk)
  {
    hide Run, Exec, Load, SizeArg, SizeImm, Width;
    var size := Const(SizeImm(Width(op)));
    SizeArgOfImm(op);
    MovEffect(RSI, R(RAX), x, junk);
    var y := Exec(Do(Mov(RSI, R(RAX))), x, junk);
    MovEffect(RDX, size, y, junk);
    ReadCallEffect(Exec(Do(Mov(RDX, size)), y, junk), junk);
    Run3(Do(Mov(RSI, R(RAX))), Do(Mov(RDX, size)), CallMemRead, x, junk);
  }

  lemma ExtendEffect(e: Extend, x: State, junk: bv64)
    requires x.hart.status == Running
    ensures Computes([Do(Ext(e, RAX))], Extended(e, x.cpu.rax), x, junk)
  {
    hide Extended, Cpu.Holds;
    Run1(Do(Ext(e, RAX)), x, junk);
  }

  lemma TrampolineLoadEffect(op: Opcode, x: State, junk: bv64)
    requires Ready(false, x)
    ensures match Load(x.hart, x.cpu.rax, Width(op))
            case None => Leaves(TrampolineLoad(op), x.hart.(status := Aborted), x, junk)
            case Some(v) => Computes(TrampolineLoad(op), EmittedLoad(op, v), x, junk)
  {
    hide Run, Exec, Load, Extended, LoadExtend, Width;
    var e := Do(Ext(LoadExtend(op), RAX));
    assert TrampolineLoad(op) == TrampolineRead(op) + [e];
    TrampolineReadEffect(op, x, junk);
    var y := Run(TrampolineRead(op), x, junk);
    RunAppend(TrampolineRead(op), [e], x, junk);
    if Load(x.hart, x.cpu.rax, Width(op)).None? {
      AbortedStays([e], y, junk);
    } else {
      ExtendEffect(LoadExtend(op), y, junk);
    }
  }

  // The state after the emitted load and the executer's.
  ghost function LoadResult(op: Opcode, rd: nat, va: bv64, h: Hart): Hart
  {
    match Load(h, va, Width(op))
    case None => h.(status := Aborted)
    case Some(v) => SetReg(h, rd, EmittedLoad(op, v)).(pc := Add(h.pc, 4))
  }

  lemma LoadTailEffect(direct: bool, i: Instr, x: State, junk: bv64)
    requires Ready(direct, x)
    ensures var tail := if direct then DirectLoad(i.opcode) else TrampolineLoad(i.opcode);
            Leaves(tail + WriteReg(i.rd) + IncreasePc(), LoadResult(i.opcode, i.rd, x.cpu.rax, x.hart), x, junk)
  {
    hide Run, IncreasePc, DirectLoad, TrampolineLoad, EmittedLoad, Load;
    var tail := if direct then DirectLoad(i.opcode) else TrampolineLoad(i.opcode);
    var loaded := Load(x.hart, x.cpu.rax, Width(i.opcode));
    if direct {
      DirectLoadEffect(i.opcode, x, junk);
    } else {
      TrampolineLoadEffect(i.opcode, x, junk);
    }
    if loaded.Some? {
      FinishEffect(tail, EmittedLoad(i.opcode, loaded.value), i.rd, x, junk);
    } else {
      RunAppend(tail, WriteReg(i.rd), x, junk);
      RunAppend(tail + WriteReg(i.rd), IncreasePc(), x, junk);
      AbortedStays(WriteReg(i.rd), Run(tail, x, junk), junk);
      AbortedStays(IncreasePc(), Run(tail, x, junk), junk);
    }
  }

  lemma LoadEffect(direct: bool, i: Instr, x: State, junk: bv64)
    requires Ready(direct, x) && IsLoad(i.opcode)
    ensures Leaves(DataCode(direct, i), LoadResult(i.opcode, i.rd, Add(GetReg(x.hart, i.rs1), Imm(i)), x.hart), x, junk)
  {
    hide Run, Load, ZextHalf, ZextWord, SextHalf, SextWord;
    var tail := if direct then DirectLoad(i.opcode) else TrampolineLoad(i.opcode);
    AddressEffect(i, x, junk);
    var y := Run(Address(i), x, junk);
    LoadTailEffect(direct, i, y, junk);
    LoadCodeShape(direct, i);
    RunAppend(Address(i), tail + WriteReg(i.rd) + IncreasePc(), x, junk);
  }

  lemma LoadCodeShape(direct: bool, i: Instr)
    requires IsLoad(i.opcode)
    ensures var tail := if direct then DirectLoad(i.opcode) else TrampolineLoad(i.opcode);
            DataCode(direct, i) == Address(i) + (tail + WriteReg(i.rd) + IncreasePc())
  {
    hide LoadExtend;
  }

  function DirectStore(op: Opcode): seq<Ins> { [Do(Mov(R10, R(RAX))), StMem(R10, RDX, Width(op))] }

  function TrampolineStore(op: Opcode): seq<Ins>
  {
    [Do(Mov(RSI, R(RAX))), Do(Mov(RCX, Const(SizeImm(Width(op))))), CallMemWrite]
  }

  function StoreTail(direct: bool, op: Opcode): seq<Ins> { if direct then DirectStore(op) else TrampolineStore(op) }

  lemma DirectStoreEffect(op: Opcode, x: State, junk: bv64)
    requires Ready(true, x)
    ensures Leaves(DirectStore(op), Store(x.hart, x.cpu.rax, x.cpu.rdx, Width(op)), x, junk)
  {
    hide Extended, Cpu.Holds, Cpu.Clobbered, Walk, LeafPa, Add, Sub, And, Or, Xor, Shl, Shr, Sar, FromBool, Word,
         Count5, ShlAt, ShrAt,
         ZextWord, AddLow, SubLow;
    Run2(Do(Mov(R10, R(RAX))), StMem(R10, RDX, Width(op)), x, junk);
  }

  lemma WriteCallEffect(x: State, junk: bv64)
    requires x.hart.status == Running
    ensures Exec(CallMemWrite, x, junk)
         == x.(cpu := x.cpu.Clobbered(junk, junk), hart := Store(x.hart, x.cpu.rsi, x.cpu.rdx, SizeArg(x.cpu.rcx)))
  {
    hide Store, SizeArg, Cpu.Clobbered;
  }

  lemma TrampolineStoreEffect(op: Opcode, x: State, junk: bv64)
    requires Ready(false, x)
    ensures Leaves(TrampolineStore(op), Store(x.hart, x.cpu.rax, x.cpu.rdx, Width(op)), x, junk)
  {
    hide Run, Exec, Store, SizeArg, SizeImm, Width;
    var size := Const(SizeImm(Width(op)));
    SizeArgOfImm(op);
    MovEffect(RSI, R(RAX), x, junk);
    var y := Exec(Do(Mov(RSI, R(RAX))), x, junk);
    MovEffect(RCX, size, y, junk);
    WriteCallEffect(Exec(Do(Mov(RCX, size)), y, junk), junk);
    Run3(Do(Mov(RSI, R(RAX))), Do(Mov(RCX, size)), CallMemWrite, x, junk);
  }

  lemma StoreTailEffect(direct: bool, op: Opcode, x: State, junk: bv64)
    requires Ready(direct, x)
    ensures Leaves(StoreTail(direct, op), Store(x.hart, x.cpu.rax, x.cpu.rdx, Width(op)), x, junk)
  {
    hide Leaves;
    if direct {
      DirectStoreEffect(op, x, junk);
    } else {
      TrampolineStoreEffect(op, x, junk);
    }
  }

  lemma StoreEffect(direct: bool, i: Instr, x: State, junk: bv64)
    requires Ready(direct, x) && IsStore(i.opcode)
    ensures Leaves(DataCode(direct, i), Execute(i, x.hart), x, junk)
  {
    hide Run, Address, StoreTail, Store, IncreasePc, Translate, Load, Extended, SizeArg, Cpu.Holds, Value, Add, Sub,
         And, Or, Xor, Upper, Shl, Shr, Sar, Slt, Ult, FromBool, Word, Count5, ShlAt, ShrAt, SarAt, ZextByte, ZextHalf,
         ZextWord, SextByte, SextHalf, SextWord, AddLow, SubLow, Same, NeqOne;
    AddressEffect(i, x, junk);
    var y := Run(Address(i), x, junk);
    var ld := [Do(Mov(RDX, RegCell(i.rs2)))];
    Run1(Do(Mov(RDX, RegCell(i.rs2))), y, junk);
    var z := Run(ld, y, junk);
    StoreTailEffect(direct, i.opcode, z, junk);
    var w := Run(StoreTail(direct, i.opcode), z, junk);
    StoreStatus(x.hart, z.cpu.rax, z.cpu.rdx, Width(i.opcode));
    if w.hart.status == Aborted {
      AbortedStays(IncreasePc(), w, junk);
    } else {
      IncreasePcEffect(w, junk);
    }
    StoreCodeShape(direct, i);
    RunAppend(Address(i), ld, x, junk);
    RunAppend(Address(i) + ld, StoreTail(direct, i.opcode), x, junk);
    RunAppend(Address(i) + ld + StoreTail(direct, i.opcode), IncreasePc(), x, junk);
  }

  lemma StoreStatus(h: Hart, va: bv64, v: bv64, n: nat)
    ensures Store(h, va, v, n).pc == h.pc
  {}

  lemma StoreCodeShape(direct: bool, i: Instr)
    requires IsStore(i.opcode)
    ensures DataCode(direct, i) == Address(i) + [Do(Mov(RDX, RegCell(i.rs2)))] + StoreTail(direct, i.opcode) +
            IncreasePc()
  {}

  lemma JalEffect(i: Instr, x: State, junk: bv64)
    requires Ready(false, x) && i.opcode.JAL?
    ensures Leaves(JalCode(i), SetReg(x.hart, i.rd, Add(x.hart.pc, 4)).(pc := Target(i, x.hart.pc)), x, junk)
  {
    hide Run;
    LinkEffect(i.rd, x, junk);
    var link := [Do(Mov(RAX, PcCell)), Do(Alu(AddOp, RAX, Const(4)))] + WriteReg(i.rd);
    var jump := [Do(Mov(RAX, PcCell)), Do(Alu(AddOp, RAX, Const(Imm(i)))), StPc(RAX)];
    LinkKeeps(x.hart, i.rd, Add(x.hart.pc, 4));
    JumpEffect(i, Run(link, x, junk), junk);
    RunAppend(link, jump, x, junk);
  }

  lemma LinkKeeps(h: Hart, rd: nat, v: bv64)
    ensures SetReg(h, rd, v).pc == h.pc && SetReg(h, rd, v).status == h.status
  {}

  lemma JumpEffect(i: Instr, x: State, junk: bv64)
    requires x.hart.status == Running
    ensures var jump := [Do(Mov(RAX, PcCell)), Do(Alu(AddOp, RAX, Const(Imm(i)))), StPc(RAX)];
            Leaves(jump, x.hart.(pc := Target(i, x.hart.pc)), x, junk)
  {
    hide Load, Store, Cpu.Holds, Write, Read, Add, And, Or, Xor, Shl, Shr, Sar, FromBool, Word, Count5, ShlAt, ShrAt,
         SarAt, ZextByte,
         ZextHalf, ZextWord, SextByte, SextHalf, SextWord, AddLow, SubLow;
    Run3(Do(Mov(RAX, PcCell)), Do(Alu(AddOp, RAX, Const(Imm(i)))), StPc(RAX), x, junk);
  }

  lemma LinkEffect(rd: nat, x: State, junk: bv64)
    requires Ready(false, x)
    ensures var link := [Do(Mov(RAX, PcCell)), Do(Alu(AddOp, RAX, Const(4)))];
            Leaves(link + WriteReg(rd), SetReg(x.hart, rd, Add(x.hart.pc, 4)), x, junk)
  {
    hide Run, Load, Store, Extended, Cpu.Holds, Cpu.Clobbered, Read, Sub, And, Or, Xor, Shl, Shr, Sar, FromBool, Word,
         Count5, ShlAt, ShrAt,
         SarAt, ZextWord, AddLow, SubLow;
    var link := [Do(Mov(RAX, PcCell)), Do(Alu(AddOp, RAX, Const(4)))];
    Run2(Do(Mov(RAX, PcCell)), Do(Alu(AddOp, RAX, Const(4))), x, junk);
    WriteRegEffect(rd, Run(link, x, junk), junk);
    RunAppend(link, WriteReg(rd), x, junk);
  }

  // The emitter writes rd before it reads rs1, and clears the lowest bit of the target.
  function EmittedJalrTarget(i: Instr, h: Hart): bv64
  {
    And(Add(Cell(SetReg(h, i.rd, Add(h.pc, 4)), i.rs1), Imm(i)), EVEN_MASK)
  }

  lemma JalrEffect(i: Instr, x: State, junk: bv64)
    requires Ready(false, x) && i.opcode.JALR?
    ensures Leaves(JalrCode(i), SetReg(x.hart, i.rd, Add(x.hart.pc, 4)).(pc := EmittedJalrTarget(i, x.hart)), x, junk)
  {
    hide Run, Extended, SizeArg, Cpu.Holds, Imm, Cpu.Clobbered, Write, Read, Cell, Add, Sub, And, Or, Xor, Shl, Shr,
         Sar, FromBool, Word,
         Count5, ShlAt, ShrAt, SarAt, ZextWord, AddLow, SubLow;
    var link := [Do(Mov(RAX, PcCell)), Do(Alu(AddOp, RAX, Const(4)))];
    var jump := [Do(Mov(RAX, RegCell(i.rs1))), Do(Alu(AddOp, RAX, Const(Imm(i)))),
      Do(Alu(AndOp, RAX, Const(EVEN_MASK))), StPc(RAX)];
    LinkEffect(i.rd, x, junk);
    var y := Run(link + WriteReg(i.rd), x, junk);
    Run4(Do(Mov(RAX, RegCell(i.rs1))), Do(Alu(AddOp, RAX, Const(Imm(i)))), Do(Alu(AndOp, RAX, Const(EVEN_MASK))),
      StPc(RAX), y, junk);
    RunAppend(link + WriteReg(i.rd), jump, x, junk);
  }

  lemma EcallEffect(x: State, junk: bv64)
    requires Ready(false, x)
    ensures Leaves(EcallCode(), x.hart.(pc := Add(x.hart.pc, 4), status := Halted), x, junk)
  {
    hide IncreasePc, Store, Extended, Cpu.Holds, Write, Read, Add, And, Or, Shl, Shr, Sar, FromBool, Word, Count5,
         ShlAt, ShrAt, SarAt,
         ZextWord, AddLow, SubLow;
    IncreasePcEffect(x, junk);
    Run1(CallEcall, Run(IncreasePc(), x, junk), junk);
    RunAppend(IncreasePc(), [CallEcall], x, junk);
  }

  // After the first half rax holds the target, rcx the fall-through pc; after the second the
  // cmov has chosen.
  lemma BranchHead(i: Instr, x: State, junk: bv64)
    requires Ready(false, x)
    ensures var y :=
            Run([Do(Mov(RAX, PcCell)), Do(Mov(RCX, R(RAX))), Do(Alu(AddOp, RAX, Const(Imm(i)))),
              Do(Alu(AddOp, RCX, Const(4)))], x, junk);
            y.cpu.rax == Target(i, x.hart.pc) && y.cpu.rcx == Add(x.hart.pc, 4) && y.hart == x.hart &&
            y.count == x.count
  {
    hide Run, Load, Store, Write, Add, Sub, Or, Xor, Shl, Shr, Sar, Slt, Ult, FromBool, Word, Count5, ShlAt, ShrAt,
         SarAt, ZextByte,
         ZextHalf, ZextWord, SextByte, SextHalf, SextWord, AddLow, SubLow, Same;
    Run4(Do(Mov(RAX, PcCell)), Do(Mov(RCX, R(RAX))), Do(Alu(AddOp, RAX, Const(Imm(i)))), Do(Alu(AddOp, RCX, Const(4))),
      x, junk);
  }

  lemma FallOnEquality(op: Opcode, c: Cpu)
    requires (op.BEQ? || op.BNE?) && c.flags.Compared?
    ensures c.Holds(FallCond(op)) <==> !Taken(op, c.flags.a, c.flags.b)
  {}

  lemma FallOnSigned(op: Opcode, c: Cpu)
    requires (op.BLT? || op.BGE?) && c.flags.Compared?
    ensures c.Holds(FallCond(op)) <==> !Taken(op, c.flags.a, c.flags.b)
  {
    NegatedFlag(Slt(c.flags.a, c.flags.b));
  }

  lemma FallOnUnsigned(op: Opcode, c: Cpu)
    requires (op.BLTU? || op.BGEU?) && c.flags.Compared?
    ensures c.Holds(FallCond(op)) <==> !Taken(op, c.flags.a, c.flags.b)
  {
    NegatedFlag(Ult(c.flags.a, c.flags.b));
  }

  lemma FallCondIsNotTaken(op: Opcode, c: Cpu)
    requires IsBranch(op) && c.flags.Compared?
    ensures c.Holds(FallCond(op)) <==> !Taken(op, c.flags.a, c.flags.b)
  {
    if op.BEQ? || op.BNE? {
      FallOnEquality(op, c);
    } else if op.BLT? || op.BGE? {
      FallOnSigned(op, c);
    } else {
      FallOnUnsigned(op, c);
    }
  }

  lemma BranchTail(i: Instr, x: State, junk: bv64)
    requires Ready(false, x) && IsBranch(i.opcode)
    ensures var t := Taken(i.opcode, GetReg(x.hart, i.rs1), GetReg(x.hart, i.rs2));
            var code := [Do(Mov(RDX, RegCell(i.rs1))), Do(Mov(R8, RegCell(i.rs2))), Do(Cmp(RDX, R(R8))),
              Do(CMov(FallCond(i.opcode), RAX, RCX)), StPc(RAX)];
            Leaves(code, x.hart.(pc := if t then x.cpu.rax else x.cpu.rcx), x, junk)
  {
    hide Run, Extended, Cpu.Holds, Read, Xor, Shl, Shr, Sar, Ult, FromBool, Word, Count5, ShlAt, ShrAt, SarAt, SubLow,
         Same, NeqOne;
    var compare := [Do(Mov(RDX, RegCell(i.rs1))), Do(Mov(R8, RegCell(i.rs2))), Do(Cmp(RDX, R(R8)))];
    var choose := [Do(CMov(FallCond(i.opcode), RAX, RCX)), StPc(RAX)];
    BranchCompare(i, x, junk);
    var y := Run(compare, x, junk);
    FallCondIsNotTaken(i.opcode, y.cpu);
    Run2(Do(CMov(FallCond(i.opcode), RAX, RCX)), StPc(RAX), y, junk);
    RunAppend(compare, choose, x, junk);
    assert compare + choose == [compare[0], compare[1], compare[2], choose[0], choose[1]];
  }

  lemma BranchCompare(i: Instr, x: State, junk: bv64)
    requires Ready(false, x)
    ensures var y := Run([Do(Mov(RDX, RegCell(i.rs1))), Do(Mov(R8, RegCell(i.rs2))), Do(Cmp(RDX, R(R8)))], x, junk);
            y.cpu.flags == Compared(GetReg(x.hart, i.rs1), GetReg(x.hart, i.rs2)) && y.cpu.rax == x.cpu.rax &&
            y.cpu.rcx == x.cpu.rcx && y.hart == x.hart && y.count == x.count
  {
    hide Run, Translate, Load, Store, Extended, SizeArg, Cpu.Holds, Cpu.Clobbered, Write, Read, Add, Sub, And, Or, Xor,
         Upper, Shl, Shr, Sar, Slt, Ult, FromBool, Word, Count5, ShlAt, ShrAt, SarAt, ZextByte, ZextHalf, ZextWord,
         SextByte, SextHalf, SextWord, AddLow, SubLow, Same, NeqOne;
    Run3(Do(Mov(RDX, RegCell(i.rs1))), Do(Mov(R8, RegCell(i.rs2))), Do(Cmp(RDX, R(R8))), x, junk);
  }

  lemma BranchEffect(i: Instr, x: State, junk: bv64)
    requires Ready(false, x) && IsBranch(i.opcode)
    ensures Leaves(BranchCode(i), Execute(i, x.hart), x, junk)
  {
    hide Run, NeqOne;
    var head := [Do(Mov(RAX, PcCell)), Do(Mov(RCX, R(RAX))), Do(Alu(AddOp, RAX, Const(Imm(i)))),
      Do(Alu(AddOp, RCX, Const(4)))];
    var tail := [Do(Mov(RDX, RegCell(i.rs1))), Do(Mov(R8, RegCell(i.rs2))), Do(Cmp(RDX, R(R8))),
      Do(CMov(FallCond(i.opcode), RAX, RCX)), StPc(RAX)];
    BranchHead(i, x, junk);
    BranchTail(i, Run(head, x, junk), junk);
    RunAppend(head, tail, x, junk);
  }

  // An add with a 32-bit signed immediate is the only kind x86 has, so auipc is emitted as
  // modelled for 19-bit immediates only; csrw is not modelled.
  predicate Emittable(i: Instr) { i.opcode != CSRW && (i.opcode.AUIPC? ==> i.imm < 0x8_0000) }

  // When the emitted code and the executer agree on i in h.
  predicate Agrees(i: Instr, h: Hart)
  {
    var op := i.opcode;
    if op.LB? then i.rd == 0 || SignClear(h, i, 0x80)
    else if op.LH? then i.rd == 0 || SignClear(h, i, 0x8000)
    else if op.LW? then i.rd == 0 || SignClear(h, i, 0x8000_0000)
    else if op.SLLW? || op.SLLIW? then i.rd == 0 || Clear(Value(i, h), 0x8000_0000)
    else if op.JALR? then
      var t := Add(GetReg(h, i.rs1), Imm(i));
      if i.rd != 0 && i.rs1 == i.rd then And(Add(Add(h.pc, 4), Imm(i)), EVEN_MASK) == t else Clear(t, 1)
    else if op.ECALL? then i.rd == 0 || (i.rd in h.regs && h.regs[i.rd] == h.pc)
    else !op.UNKNOWN?
  }

  // The sign bit of the loaded value is clear, or the access faults.
  predicate SignClear(h: Hart, i: Instr, sign: bv64)
  {
    match Load(h, Add(GetReg(h, i.rs1), Imm(i)), Width(i.opcode))
    case None => true
    case Some(v) => Clear(v, sign)
  }

  lemma SetRegInjective(h: Hart, rd: nat, v: bv64, w: bv64, pc: bv64)
    ensures SetReg(h, rd, v).(pc := pc) == SetReg(h, rd, w).(pc := pc) <==> rd == 0 || v == w
  {
    if rd != 0 && SetReg(h, rd, v).(pc := pc) == SetReg(h, rd, w).(pc := pc) {
      assert h.regs[rd := v][rd] == h.regs[rd := w][rd];
    }
  }

  lemma ShiftedWordFits(w: bv32, c: bv64)
    ensures ZextWord(ShlAt(w, c)) == ShlAt(w, c)
  {
    hide ZextWord, ShiftLeft;
    ZextTwice(ShiftLeft(w as bv64, Unsigned(c) % 32));
  }

  lemma ValueAgrees(i: Instr, h: Hart)
    requires IsValueOp(i.opcode)
    ensures i.rd == 0 || EmittedValue(i, h) == Value(i, h) <==> Agrees(i, h)
  {
    hide Load, ShlAt, AddLow;
    if i.opcode.SLLW? || i.opcode.SLLIW? {
      var a, k := GetReg(h, i.rs1), if i.opcode.SLLW? then GetReg(h, i.rs2) else Imm(i);
      ShiftedWordFits(Word(a), Count5(k));
      SextWordIsZeroExtension(Value(i, h));
    }
  }

  lemma ValueEffect(direct: bool, i: Instr, x: State, junk: bv64)
    requires Ready(direct, x) && IsValueOp(i.opcode)
    ensures Leaves(DataCode(direct, i), SetReg(x.hart, i.rd, EmittedValue(i, x.hart)).(pc := Add(x.hart.pc, 4)), x,
            junk)
    ensures Execute(i, x.hart) == SetReg(x.hart, i.rd, Value(i, x.hart)).(pc := Add(x.hart.pc, 4))
  {
    hide ValueCode, Value, Computes, Leaves;
    ValueCodeComputes(i, x, junk);
    FinishEffect(ValueCode(i), EmittedValue(i, x.hart), i.rd, x, junk);
  }

  lemma ByteLoadAgrees(op: Opcode, m: Mem, a: bv64)
    requires op.LB? || op.LBU?
    ensures EmittedLoad(op, Read(m, a, 1)) == Read(m, a, 1) <==> (op.LB? ==> Clear(Read(m, a, 1), 0x80))
  {
    hide Read, Clear, ZextByte, SextByte;
    ReadByteFits(m, a);
    SextByteIsZeroExtension(Read(m, a, 1));
  }

  lemma HalfLoadAgrees(op: Opcode, m: Mem, a: bv64)
    requires op.LH? || op.LHU?
    ensures EmittedLoad(op, Read(m, a, 2)) == Read(m, a, 2) <==> (op.LH? ==> Clear(Read(m, a, 2), 0x8000))
  {
    hide Read, Clear, ZextHalf, SextHalf;
    ReadHalfFits(m, a);
    SextHalfIsZeroExtension(Read(m, a, 2));
  }

  lemma WordLoadAgrees(op: Opcode, m: Mem, a: bv64)
    requires op.LW? || op.LWU?
    ensures EmittedLoad(op, Read(m, a, 4)) == Read(m, a, 4) <==> (op.LW? ==> Clear(Read(m, a, 4), 0x8000_0000))
  {
    hide Read, Clear, ZextWord, SextWord;
    ReadWordFits(m, a);
    SextWordIsZeroExtension(Read(m, a, 4));
  }

  lemma EmittedLoadAgrees(op: Opcode, m: Mem, a: bv64)
    requires IsLoad(op)
    ensures var v := Read(m, a, Width(op));
            EmittedLoad(op, v) == v <==>
            if op.LB? then Clear(v, 0x80)
            else if op.LH? then Clear(v, 0x8000)
            else if op.LW? then Clear(v, 0x8000_0000)
            else true
  {
    hide Read, Clear, Extended;
    if op.LB? || op.LBU? {
      ByteLoadAgrees(op, m, a);
    } else if op.LH? || op.LHU? {
      HalfLoadAgrees(op, m, a);
    } else if op.LW? || op.LWU? {
      WordLoadAgrees(op, m, a);
    } else {
      WholeLoad(op, Read(m, a, 8));
    }
  }

  lemma WholeLoad(op: Opcode, v: bv64)
    requires op.LD?
    ensures EmittedLoad(op, v) == v
  {}

  lemma ReadByteFits(m: Mem, a: bv64)
    ensures ZextByte(Read(m, a, 1)) == Read(m, a, 1)
  {
    Memory.ByteFits(m, a);
  }

  lemma ReadHalfFits(m: Mem, a: bv64)
    ensures ZextHalf(Read(m, a, 2)) == Read(m, a, 2)
  {
    Memory.HalfFits(m, a);
  }

  lemma ReadWordFits(m: Mem, a: bv64)
    ensures ZextWord(Read(m, a, 4)) == Read(m, a, 4)
  {
    Memory.WordFits(m, a);
  }

  lemma LoadAgrees(i: Instr, h: Hart)
    requires IsLoad(i.opcode)
    ensures LoadResult(i.opcode, i.rd, Add(GetReg(h, i.rs1), Imm(i)), h) == Execute(i, h) <==> Agrees(i, h)
  {
    hide Imm, GetReg, Translate, Read, Clear, Word, Count5, SarAt, ZextHalf, ZextWord, SextByte, SextHalf, SextWord,
         AddLow, SubLow, Same,
         NeqOne;
    var va := Add(GetReg(h, i.rs1), Imm(i));
    match Load(h, va, Width(i.opcode))
    case None =>
    case Some(v) =>
      EmittedLoadAgrees(i.opcode, h.mem, Translate(h.mem, h.satp, va).value);
      SetRegInjective(h, i.rd, EmittedLoad(i.opcode, v), v, Add(h.pc, 4));
  }

  lemma EvenMaskKeeps(t: bv64)
    ensures And(t, EVEN_MASK) == t <==> Clear(t, 1)
  {}

  lemma JalrTargets(i: Instr, h: Hart)
    requires i.opcode.JALR? && Cell(h, 0) == 0
    ensures EmittedJalrTarget(i, h) == Add(GetReg(h, i.rs1), Imm(i)) <==> Agrees(i, h)
  {
    EvenMaskKeeps(Add(GetReg(h, i.rs1), Imm(i)));
    hide Value, Add;
  }

  lemma JalrAgrees(i: Instr, h: Hart)
    requires i.opcode.JALR? && Cell(h, 0) == 0
    ensures SetReg(h, i.rd, Add(h.pc, 4)).(pc := EmittedJalrTarget(i, h)) == Execute(i, h) <==> Agrees(i, h)
  {
    ExecuteJalr(i, h);
    JalrTargets(i, h);
  }

  lemma EcallAgrees(i: Instr, h: Hart)
    requires i.opcode.ECALL?
    ensures h.(pc := Add(h.pc, 4), status := Halted) == Execute(i, h) <==> Agrees(i, h)
  {
    hide Imm, Load, Value, Add, Sub, And, Or, Xor, Upper, Shl, Shr, Sar, Slt, Ult, FromBool, Word, Count5, ShlAt,
         ShrAt, SarAt, ZextByte, ZextHalf, ZextWord, SextByte, SextHalf, SextWord, AddLow, SubLow, Same, NeqOne;
    if i.rd != 0 && h.(pc := Add(h.pc, 4), status := Halted) == Execute(i, h) {
      assert h.regs[i.rd := h.pc][i.rd] == h.pc;
    }
  }

  ghost predicate CodeMatches(direct: bool, i: Instr, x: State, junk: bv64)
  {
    var y := Run(DataCode(direct, i), x, junk);
    (y.hart == Execute(i, x.hart) <==> Agrees(i, x.hart)) && y.count == x.count
  }

  // The emitted sequence has the executer's effect exactly when Agrees says so, for every
  // instruction, register file, memory and paging mode; and it never touches the counter.
  lemma CodeAgrees(direct: bool, i: Instr, x: State, junk: bv64)
    requires Ready(direct, x) && Emittable(i)
    ensures CodeMatches(direct, i, x, junk)
  {
    hide CodeMatches;
    if IsLoad(i.opcode) {
      LoadCodeMatches(direct, i, x, junk);
    } else if IsStore(i.opcode) {
      StoreCodeMatches(direct, i, x, junk);
    } else if IsBranch(i.opcode) {
      BranchCodeMatches(direct, i, x, junk);
    } else if IsValueOp(i.opcode) {
      ValueCodeMatches(direct, i, x, junk);
    } else if i.opcode.UNKNOWN? {
      NothingEmitted(direct, i, x, junk);
    } else if i.opcode.JAL? {
      JalCodeMatches(direct, i, x, junk);
    } else if i.opcode.JALR? {
      JalrCodeMatches(direct, i, x, junk);
    } else {
      EcallCodeMatches(direct, i, x, junk);
    }
  }

  lemma LoadCodeMatches(direct: bool, i: Instr, x: State, junk: bv64)
    requires Ready(direct, x) && IsLoad(i.opcode)
    ensures CodeMatches(direct, i, x, junk)
  {
    hide Run, Execute, Agrees, LoadResult;
    LoadEffect(direct, i, x, junk);
    LoadAgrees(i, x.hart);
  }

  lemma StoreCodeMatches(direct: bool, i: Instr, x: State, junk: bv64)
    requires Ready(direct, x) && IsStore(i.opcode)
    ensures CodeMatches(direct, i, x, junk)
  {
    hide Run, DataCode, Execute, SignClear, ShlAt, SarAt, ZextWord, SextWord, AddLow, SubLow;
    StoreEffect(direct, i, x, junk);
  }

  lemma BranchCodeMatches(direct: bool, i: Instr, x: State, junk: bv64)
    requires Ready(direct, x) && IsBranch(i.opcode)
    ensures CodeMatches(direct, i, x, junk)
  {
    hide Run, BranchCode, Execute, Value, SignClear, Add, Sub, And, Or, Xor, Upper, Shl, Shr, Sar, Slt, Ult, FromBool,
         Word, Count5, ShlAt, ShrAt, SarAt, ZextByte, ZextHalf, ZextWord, SextByte, SextHalf, SextWord, AddLow, SubLow,
         Same, NeqOne;
    BranchEffect(i, x, junk);
  }

  lemma ValueCodeMatches(direct: bool, i: Instr, x: State, junk: bv64)
    requires Ready(direct, x) && IsValueOp(i.opcode)
    ensures CodeMatches(direct, i, x, junk)
  {
    hide Run, Execute, Agrees, Value;
    var h := x.hart;
    ValueEffect(direct, i, x, junk);
    ValueAgrees(i, h);
    SetRegInjective(h, i.rd, EmittedValue(i, h), Value(i, h), Add(h.pc, 4));
  }

  lemma JalCodeMatches(direct: bool, i: Instr, x: State, junk: bv64)
    requires Ready(direct, x) && i.opcode.JAL?
    ensures CodeMatches(direct, i, x, junk)
  {
    hide Run, Execute, SignClear, Sub;
    JalEffect(i, x, junk);
    ExecuteJal(i, x.hart);
  }

  lemma JalrCodeMatches(direct: bool, i: Instr, x: State, junk: bv64)
    requires Ready(direct, x) && i.opcode.JALR?
    ensures CodeMatches(direct, i, x, junk)
  {
    hide Run, Execute, Agrees, JalrCode, EmittedJalrTarget, SetReg, Add, Sub, And, Or, Xor, Upper, Shl, Shr, Sar, Slt,
         Ult, FromBool, Word, Count5, ShlAt, ShrAt, SarAt, ZextByte, ZextHalf, ZextWord, SextByte, SextHalf, SextWord,
         AddLow, SubLow, Same, NeqOne;
    JalrEffect(i, x, junk);
    JalrAgrees(i, x.hart);
  }

  lemma EcallCodeMatches(direct: bool, i: Instr, x: State, junk: bv64)
    requires Ready(direct, x) && i.opcode.ECALL?
    ensures CodeMatches(direct, i, x, junk)
  {
    hide Run, Execute, Agrees;
    EcallEffect(x, junk);
    EcallAgrees(i, x.hart);
  }

  lemma NothingEmitted(direct: bool, i: Instr, x: State, junk: bv64)
    requires i.opcode.UNKNOWN? && x.hart.status == Running
    ensures CodeMatches(direct, i, x, junk)
  {
    hide Exec, Store, Taken, Value, LoadCode, StoreCode, BranchCode, Add, And, Upper, SextWord;
  }
}
