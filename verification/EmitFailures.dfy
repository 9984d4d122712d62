/** Inputs on which emitted code and executer differ, one for each way in which they can. */
module EmitFailures {
  import opened Bits
  import opened Numbers
  import opened WordLaws
  import opened Memory
  import opened Sv39
  import opened Isa
  import opened X86
  import opened Emit
  import opened EmitAgrees
  import opened EmitEffect
  import opened Decoder

  function EmittedHart(direct: bool, i: Instr, x: State, junk: bv64): Hart { Run(DataCode(direct, i), x, junk).hart }

  function HartWith(regs: map<nat, bv64>): Hart { Hart(regs, _ => 0x80, 0, 0, Running) }

  lemma IsReady(direct: bool, x: State, regs: map<nat, bv64>)
    requires x.hart == HartWith(regs) && 0 !in regs
    ensures Ready(direct, x)
  {}

  // lb x1, 0(x0) of a byte whose sign bit is set.
  const LOAD := Instr(LB, FormatI, 1, 0, UNSET, 0)

  lemma ByteRead(a: bv64)
    ensures Load(HartWith(map[]), a, 1) == Some(0x80)
  {
    OneByte(a);
  }

  lemma OneByte(a: bv64)
    ensures Read(_ => 0x80, a, 1) == 0x80
  {
    assert Read(_ => 0x80, Next(a), 0) == 0;
  }

  lemma ByteExtended()
    ensures EmittedLoad(LB, 0x80) == 0xFFFF_FFFF_FFFF_FF80
  {}

  lemma LoadDiffers(direct: bool, x: State, junk: bv64)
    requires x.hart == HartWith(map[])
    ensures Cell(EmittedHart(direct, LOAD, x, junk), 1) == 0xFFFF_FFFF_FFFF_FF80
    ensures Cell(Execute(LOAD, x.hart), 1) == 0x80
  {
    hide Run, DataCode, Execute, Load, EmittedLoad, Add, Imm, Cell, Mode;
    IsReady(direct, x, map[]);
    LoadEffect(direct, LOAD, x, junk);
    ExecuteLoad(LOAD, x.hart);
    ByteRead(Add(GetReg(x.hart, 0), Imm(LOAD)));
    ByteExtended();
    SetCell(x.hart, 1, 0x80, Add(x.hart.pc, 4));
    SetCell(x.hart, 1, EmittedLoad(LB, 0x80), Add(x.hart.pc, 4));
  }

  lemma SetCell(h: Hart, r: nat, v: bv64, pc: bv64)
    requires r != 0
    ensures Cell(SetReg(h, r, v).(pc := pc), r) == v
  {}

  // sllw x1, x2, x3 that shifts a one into bit 31.
  const SHIFT := Instr(SLLW, FormatR, 1, 2, 3, 0)

  lemma ShiftDiffers(direct: bool, x: State, junk: bv64)
    requires x.hart == HartWith(map[2 := 1, 3 := 31])
    ensures Cell(EmittedHart(direct, SHIFT, x, junk), 1) == 0xFFFF_FFFF_8000_0000
    ensures Cell(Execute(SHIFT, x.hart), 1) == 0x8000_0000
  {
    hide Run, DataCode, Execute, Value, Add, Cell, Mode;
    IsReady(direct, x, map[2 := 1, 3 := 31]);
    ValueEffect(direct, SHIFT, x, junk);
    ShiftValue(x.hart);
    SetCell(x.hart, 1, Value(SHIFT, x.hart), Add(x.hart.pc, 4));
    SetCell(x.hart, 1, EmittedValue(SHIFT, x.hart), Add(x.hart.pc, 4));
  }

  // sllw's value, as the executer and as the emitted code have it.
  lemma ShiftShape(i: Instr, h: Hart)
    requires i.opcode.SLLW?
    ensures Value(i, h) == ShlAt(Word(GetReg(h, i.rs1)), Count5(GetReg(h, i.rs2)))
    ensures EmittedValue(i, h) == SextWord(Value(i, h))
  {
    hide GetReg, Imm, Word, Count5, ShlAt, SextWord;
  }

  lemma ShiftValue(h: Hart)
    requires h == HartWith(map[2 := 1, 3 := 31])
    ensures Value(SHIFT, h) == 0x8000_0000 && EmittedValue(SHIFT, h) == 0xFFFF_FFFF_8000_0000
  {
    assert GetReg(h, 2) == 1 && GetReg(h, 3) == 31;
    hide Value, EmittedValue, GetReg, Word, Count5, ShlAt, SextWord;
    ShiftShape(SHIFT, h);
    ShiftedOne();
  }

  lemma ShiftedOne()
    ensures ShlAt(Word(1), Count5(31)) == 0x8000_0000 && SextWord(0x8000_0000) == 0xFFFF_FFFF_8000_0000
  {
    Masks31();
    SmallNumbers();
    hide Unsigned, ShlAt, Pow2, LowMask;
    ShlAtMultiplies(Word(1), 31);
    PowerWord(31);
    UnsignedInjective(ShlAt(Word(1), 31), 0x8000_0000);
  }

  lemma SmallNumbers()
    ensures Unsigned(Wide(Word(1))) == 1 && Unsigned(31) == 31 && Count5(31) == 31
    ensures Plus(0x7FFF_FFFF, 1) == 0x8000_0000
  {}

  // jalr x0, 1(x0), to an odd address.
  const ODD := Instr(JALR, FormatI, 0, 0, UNSET, 1)

  lemma OddTargetDiffers(direct: bool, x: State, junk: bv64)
    requires x.hart == HartWith(map[])
    ensures EmittedHart(direct, ODD, x, junk).pc == 0 && Execute(ODD, x.hart).pc == 1
  {
    hide Run, Execute, JalrCode;
    IsReady(false, x, map[]);
    JalrEffect(ODD, x, junk);
    ExecuteJalr(ODD, x.hart);
    JalrCodeOf(direct, ODD);
  }

  lemma JalrCodeOf(direct: bool, i: Instr)
    requires i.opcode.JALR?
    ensures DataCode(direct, i) == JalrCode(i)
  {
    hide JalrCode;
  }

  // jalr x1, 0(x1), through the register it links.
  const OWN := Instr(JALR, FormatI, 1, 1, UNSET, 0)

  lemma OwnLinkDiffers(direct: bool, x: State, junk: bv64)
    requires x.hart == HartWith(map[1 := 8])
    ensures EmittedHart(direct, OWN, x, junk).pc == 4 && Execute(OWN, x.hart).pc == 8
  {
    hide Run, Execute, JalrCode;
    IsReady(false, x, map[1 := 8]);
    JalrEffect(OWN, x, junk);
    ExecuteJalr(OWN, x.hart);
    JalrCodeOf(direct, OWN);
  }
}
