/** Guest programs, assembled into memory and decoded by the shipped decoder, that meet the
    hypotheses of the run theorems. */
module Programs {
  import opened Bits
  import opened Memory
  import opened Sv39
  import opened Isa
  import opened EmitEffect
  import opened Cfg
  import opened Decoder
  import opened Reference
  import opened Sim
  import opened Simulation
  import opened RunTheorems
  import opened SlotIndex

  // --- programs in memory ---

  function Wide(w: bv32): bv64 { w as bv64 }

  function Place(m: Mem, a: bv64, i: Instr): Mem { Write(m, a, Wide(Assemble(i)), 4) }

  // Five instructions from address 0 on.
  function Program(a: Instr, b: Instr, c: Instr, d: Instr, e: Instr): Mem
  {
    Place(Place(Place(Place(Place(_ => 0, 16, e), 12, d), 8, c), 4, b), 0, a)
  }

  function InstrAt(m: Mem, pc: bv64): Instr { Decode(Word(Read(m, pc, 4))) }

  predicate Aligned4(a: bv64) { a & 3 == 0 }

  lemma NearAligned4(a: bv64, k: bv64)
    requires Aligned4(a) && k < 4
    ensures (a + k) & !3 == a
  {}

  lemma Span4(a: bv64)
    ensures Span(a, 4) == {a, a + 1, a + 2, a + 3} && Proper(a, 4)
  {
    Nexts(a);
    hide Next;
    var b, c, d := a + 1, a + 2, a + 3;
    assert Span(d, 1) == {d};
    assert Span(c, 2) == {c, d};
    assert Span(b, 3) == {b, c, d};
    assert a !in {b, c, d} && b !in {c, d} && c != d;
  }

  // The four bytes of an aligned word share all address bits but the low two.
  lemma InWord(a: bv64, x: bv64)
    requires Aligned4(a) && x in Span(a, 4)
    ensures x & !3 == a
  {
    Span4(a);
    hide Span;
    var k: bv64 :| k < 4 && x == a + k;
    NearAligned4(a, k);
  }

  lemma WordsApart(a: bv64, b: bv64)
    requires Aligned4(a) && Aligned4(b) && a != b
    ensures Span(a, 4) !! Span(b, 4)
  {
    hide Span, Aligned4;
    forall x | x in Span(a, 4) && x in Span(b, 4)
      ensures false
    {
      InWord(a, x);
      InWord(b, x);
    }
  }

  lemma LowWord(w: bv32)
    ensures Word(Memory.Low(Wide(w), 4)) == w
  {}

  lemma ReadPlaced(m: Mem, a: bv64, v: bv64)
    ensures Read(Write(m, a, v, 4), a, 4) == Memory.Low(v, 4)
  {
    Span4(a);
    hide Proper, Span, Memory.Low;
    ReadBackFrom(m, a, v, 4);
  }

  lemma PlacedHere(m: Mem, a: bv64, i: Instr)
    requires Encodable(i)
    ensures InstrAt(Place(m, a, i), a) == i
  {
    hide Decode, Assemble, Encodable, Word, Memory.Low, Read, Write, Wide;
    ReadPlaced(m, a, Wide(Assemble(i)));
    LowWord(Assemble(i));
    AssembleThenDecode(i);
  }

  lemma PlacedElsewhere(m: Mem, a: bv64, i: Instr, b: bv64)
    requires Aligned4(a) && Aligned4(b) && a != b
    ensures InstrAt(Place(m, a, i), b) == InstrAt(m, b)
  {
    hide Decode, Assemble, Word, Read, Write;
    WordsApart(b, a);
    ReadAfterDisjointWrite(m, b, 4, a, Wide(Assemble(i)), 4);
  }

  lemma ProgramHolds(a: Instr, b: Instr, c: Instr, d: Instr, e: Instr)
    requires Encodable(a) && Encodable(b) && Encodable(c) && Encodable(d) && Encodable(e)
    ensures var m := Program(a, b, c, d, e);
            InstrAt(m, 0) == a && InstrAt(m, 4) == b && InstrAt(m, 8) == c && InstrAt(m, 12) == d && InstrAt(m, 16) == e
  {
    hide Encodable, Place, InstrAt;
    var m4 := Place(_ => 0, 16, e);
    var m3 := Place(m4, 12, d);
    var m2 := Place(m3, 8, c);
    var m1 := Place(m2, 4, b);
    PlacedHere(_ => 0, 16, e);
    PlacedHere(m4, 12, d);
    PlacedHere(m3, 8, c);
    PlacedHere(m2, 4, b);
    PlacedHere(m1, 0, a);
    PlacedElsewhere(m4, 12, d, 16);
    PlacedElsewhere(m3, 8, c, 16);
    PlacedElsewhere(m2, 4, b, 16);
    PlacedElsewhere(m1, 0, a, 16);
    PlacedElsewhere(m3, 8, c, 12);
    PlacedElsewhere(m2, 4, b, 12);
    PlacedElsewhere(m1, 0, a, 12);
    PlacedElsewhere(m2, 4, b, 8);
    PlacedElsewhere(m1, 0, a, 8);
    PlacedElsewhere(m1, 0, a, 4);
  }

  const CALL := Instr(JAL, FormatJ, 1, UNSET, UNSET, 12)    // jal x1, 12
  const AGAIN := Instr(JAL, FormatJ, 1, UNSET, UNSET, 8)    // jal x1, 8
  const STOP := Instr(ECALL, FormatJ, 0, UNSET, UNSET, 0)   // ecall
  const BUMP := Instr(ADDI, FormatI, 2, 2, UNSET, 1)        // addi x2, x2, 1
  const BACK := Instr(JALR, FormatI, 0, 1, UNSET, 0)        // jalr x0, 0(x1)

  lemma CallEncodable()
    ensures Encodable(CALL)
  {
    hide Decoder.Number;
  }

  lemma AgainEncodable()
    ensures Encodable(AGAIN)
  {
    hide Decoder.Number;
  }

  lemma StopEncodable()
    ensures Encodable(STOP)
  {
    hide Decoder.Number;
  }

  lemma BumpEncodable()
    ensures Encodable(BUMP)
  {
    hide Decoder.Number;
  }

  lemma BackEncodable()
    ensures Encodable(BACK)
  {
    hide Decoder.Number;
  }

  // The ecall word.
  lemma StopWord()
    ensures Assemble(STOP) == 0x73 && Decode(0x73) == STOP
  {
    hide Decode, Encodable, Assemble;
    AssembledStop();
    StopEncodable();
    AssembleThenDecode(STOP);
  }

  lemma AssembledStop()
    ensures Assemble(STOP) == 0x73
  {}

  // The shipped decoder.
  ghost predicate Decodes(env: Env) { forall word: bv32 :: env.dec(word) == Decode(word) }

  lemma SlotsOfPcs()
    ensures IsMask(7, 3) && Index(7, 0) == 0 && Index(7, 12) == 3
  {}

  // --- a program with two calls ---

  // Calls an increment at 12 twice, which returns to 4 and to the ecall at 8.
  function CallMemory(): Mem { Program(CALL, AGAIN, STOP, BUMP, BACK) }

  function CallHart(): Hart { Hart(map[], CallMemory(), 0, 0, Running) }

  function WorldOf(env: Env, m: Mem): World { World(env, pc => InstrAt(m, pc), iset{0, 4, 8, 12, 16}, 0, iset{}) }

  // The states the program goes through.
  function CallState(n: nat): Hart
  {
    var h := CallHart();
    if n == 0 then h
    else if n == 1 then h.(regs := map[1 := 4], pc := 12)
    else if n == 2 then h.(regs := map[1 := 4, 2 := 1], pc := 16)
    else if n == 3 then h.(regs := map[1 := 4, 2 := 1], pc := 4)
    else if n == 4 then h.(regs := map[1 := 8, 2 := 1], pc := 12)
    else if n == 5 then h.(regs := map[1 := 8, 2 := 2], pc := 16)
    else if n == 6 then h.(regs := map[1 := 8, 2 := 2], pc := 8)
    else h.(regs := map[1 := 8, 2 := 2], pc := 12, status := Halted)
  }

  function CallInstr(n: nat): Instr
  {
    if n == 0 then CALL
    else if n == 3 then AGAIN
    else if n == 1 || n == 4 then BUMP
    else if n == 2 || n == 5 then BACK
    else STOP
  }

  lemma JumpExecutes(i: Instr, h: Hart)
    ensures i.opcode.JAL? ==> Execute(i, h) == SetReg(h, i.rd, Add(h.pc, 4)).(pc := Target(i, h.pc))
    ensures i.opcode.JALR? ==> Execute(i, h) == SetReg(h, i.rd, Add(h.pc, 4)).(pc := Add(GetReg(h, i.rs1), Imm(i)))
    ensures i.opcode.ECALL? ==> Execute(i, h) == SetReg(h.(status := Halted), i.rd, h.pc).(pc := Add(h.pc, 4))
  {
    hide SetReg, Add, GetReg, Imm, Target, Execute;
    if i.opcode.JAL? {
      ExecuteJal(i, h);
    } else if i.opcode.JALR? {
      ExecuteJalr(i, h);
    } else if i.opcode.ECALL? {
      ExecuteEcall(i, h);
    }
  }

  // Each instruction takes one state to the next.
  lemma CallExecutes(n: nat)
    requires n == 0 || n == 3
    ensures Execute(CallInstr(n), CallState(n)) == CallState(n + 1)
  {
    hide Execute, CallMemory, Add, Imm;
    Immediates();
    JumpExecutes(CallInstr(n), CallState(n));
  }

  lemma BumpValue(h: Hart)
    ensures Value(BUMP, h) == Add(GetReg(h, 2), Imm(BUMP))
  {
    hide GetReg, Imm, Add;
  }

  lemma BumpsOn(h: Hart)
    requires h.status == Running
    ensures Execute(BUMP, h) == SetReg(h, 2, Add(GetReg(h, 2), 1)).(pc := Add(h.pc, 4)) &&
            Execute(BUMP, h).status == Running
  {
    hide SetReg, GetReg, Add, Imm, Execute, Value;
    Immediates();
    BumpValue(h);
    ExecuteValue(BUMP, h);
    SetRegRuns(h, 2, Add(GetReg(h, 2), 1));
  }

  lemma BumpExecutes(n: nat)
    requires n == 1 || n == 4
    ensures Execute(BUMP, CallState(n)) == CallState(n + 1)
  {
    hide CallMemory, Execute, Add;
    Immediates();
    BumpsOn(CallState(n));
  }

  lemma Immediates()
    ensures Imm(BACK) == 0 && Imm(BUMP) == 1 && Imm(CALL) == 12 && Imm(AGAIN) == 8
    ensures Add(0, 1) == 1 && Add(1, 1) == 2 && Add(0, 4) == 4 && Add(4, 4) == 8 && Add(8, 4) == 12 && Add(12, 4) == 16
    ensures Add(0, 12) == 12 && Add(4, 8) == 12 && Add(4, 0) == 4 && Add(8, 0) == 8
  {}

  lemma BackExecutes(n: nat)
    requires n == 2 || n == 5
    ensures Execute(BACK, CallState(n)) == CallState(n + 1)
  {
    hide Execute, CallMemory, Imm, Add, Target;
    Immediates();
    JumpExecutes(BACK, CallState(n));
  }

  lemma StopExecutes()
    ensures Execute(STOP, CallState(6)) == CallState(7)
  {
    hide Execute, CallMemory, Imm, Add, Target, GetReg;
    Immediates();
    JumpExecutes(STOP, CallState(6));
  }

  lemma InstrExecutes(n: nat)
    requires n < 7
    ensures Execute(CallInstr(n), CallState(n)) == CallState(n + 1)
  {
    hide Execute, CallState;
    if n == 0 || n == 3 {
      CallExecutes(n);
    } else if n == 1 || n == 4 {
      BumpExecutes(n);
    } else if n == 2 || n == 5 {
      BackExecutes(n);
    } else {
      StopExecutes();
    }
  }

  lemma CallFetches(n: nat)
    requires n < 7
    ensures InstrAt(CallMemory(), CallState(n).pc) == CallInstr(n)
  {
    hide InstrAt, Program, Encodable;
    CallEncodable();
    AgainEncodable();
    StopEncodable();
    BumpEncodable();
    BackEncodable();
    ProgramHolds(CALL, AGAIN, STOP, BUMP, BACK);
  }

  // Memory that does not change holds the image read from it.
  lemma AlwaysIntact(env: Env, m: Mem, h: Hart, pc: bv64)
    requires Decodes(env) && h.mem == m && h.satp == 0
    ensures Intact(WorldOf(env, m), h, pc)
  {
    hide Decode, Read;
  }

  lemma CallStateKeeps(n: nat)
    ensures var h := CallState(n);
            h.mem == CallMemory() && h.satp == 0 && Cell(h, 0) == 0 && h.status == (if n < 7 then Running else Halted)
  {
    hide CallMemory;
  }

  lemma CallStateSteps(env: Env, n: nat)
    requires Decodes(env) && n < 7
    ensures Step(env.dec, CallState(n)) == CallState(n + 1)
  {
    hide CallMemory, CallState, Execute, InstrAt, DecodeAt;
    CallStateKeeps(n);
    CallFetches(n);
    AlwaysIntact(env, CallMemory(), CallState(n), CallState(n).pc);
    InstrExecutes(n);
  }

  lemma {:induction false} CallReaches(env: Env, n: nat)
    requires Decodes(env)
    ensures StepN(env.dec, n, CallHart()) == CallState(n)
    decreases n
  {
    hide Step, CallMemory, CallState;
    StepNone(env.dec);
    if n > 0 {
      CallReaches(env, n - 1);
      StepNAdd(env.dec, n - 1, 1, CallHart());
      StepOnce(env.dec, CallState(n - 1));
      if n <= 7 {
        CallStateSteps(env, n - 1);
      } else {
        HaltedStays(env, n - 1);
      }
    }
  }

  lemma StepNone(dec: DecodeFn)
    ensures StepN(dec, 0, CallHart()) == CallState(0)
  {}

  lemma StepOnce(dec: DecodeFn, h: Hart)
    ensures StepN(dec, 1, h) == Step(dec, h)
  {
    assert StepN(dec, 0, Step(dec, h)) == Step(dec, h);
  }

  lemma HaltedStays(env: Env, n: nat)
    requires n >= 7
    ensures Step(env.dec, CallState(n)) == CallState(n + 1)
  {
    hide CallMemory;
  }

  lemma CallStateGood(env: Env, n: nat)
    requires Decodes(env)
    ensures Good(WorldOf(env, CallMemory()), CallState(n))
  {
    hide CallMemory, CallState, Intact, InstrAt;
    var w, h := WorldOf(env, CallMemory()), CallState(n);
    CallStateKeeps(n);
    forall pc
      ensures Intact(w, h, pc)
    {
      AlwaysIntact(env, CallMemory(), h, pc);
    }
    if n < 7 {
      CallFetches(n);
      CallPcs(n);
      CallAgrees(n);
      CallSteady(w, n);
    }
  }

  lemma CallPcs(n: nat)
    ensures CallState(n).pc in {0, 4, 8, 12, 16}
  {
    hide CallMemory;
  }

  lemma CallAgrees(n: nat)
    requires n < 7
    ensures Emittable(CallInstr(n)) && Agrees(CallInstr(n), CallState(n))
  {
    hide CallMemory, Value, SignClear, Imm, Add;
    Immediates();
    assert Clear(4, 1) && Clear(8, 1);
  }

  // The returns do not land on their successor.
  lemma CallSteady(w: World, n: nat)
    requires n < 7 && w.image(CallState(n).pc) == CallInstr(n)
    ensures JalrSteady(w, CallState(n)) || w.steady != iset{}
  {
    hide CallMemory, Execute;
    if n == 2 || n == 5 {
      BackExecutes(n);
      Immediates();
    }
  }

  // The hypotheses of the run theorems hold of a program with calls, returns and an ecall, under the
  // shipped decoder, for any executable ranges, JIT settings and cache of at least eight slots.
  lemma CallProgramIsGood(env: Env, k: nat)
    requires Decodes(env) && IsMask(env.mask, k) && env.mask >= 7
    ensures Placed(WorldOf(env, CallMemory())) && HartOk(WorldOf(env, CallMemory()), CallHart())
  {
    hide CallMemory, InstrAt, Good, InWindow, IsMask, Formatted;
    var w := WorldOf(env, CallMemory());
    forall pc | pc in w.code
      ensures InWindow(0, env.mask, pc as nat) && ZextWord(pc) == pc && Formatted(w.image(pc))
    {
      SmallPc(env.mask, pc);
      ImageFormatted(CallMemory(), pc);
    }
    WindowIsPlaced(w, 0, k);
    forall n: nat
      ensures Good(w, StepN(env.dec, n, CallHart()))
    {
      CallReaches(env, n);
      CallStateGood(env, n);
    }
  }

  lemma SmallPc(mask: nat, pc: bv64)
    requires mask >= 7 && pc in {0, 4, 8, 12, 16}
    ensures InWindow(0, mask, pc as nat) && ZextWord(pc) == pc
  {}

  lemma ImageFormatted(m: Mem, pc: bv64)
    ensures Formatted(InstrAt(m, pc))
  {
    hide Decode, Read, Formatted;
    DecodedIsFormatted(Word(Read(m, pc, 4)));
  }

  // --- a program of one instruction ---

  function EcallWorld(env: Env, h: Hart): World { World(env, pc => InstrAt(h.mem, pc), iset{h.pc}, h.satp, iset{}) }

  lemma BareIntact(env: Env, h: Hart, pc: bv64)
    requires Decodes(env) && Mode(h.satp) == 0
    ensures Intact(EcallWorld(env, h), h, pc)
  {
    hide Decode, Read;
  }

  lemma EcallGood(env: Env, h: Hart)
    requires Decodes(env) && h.status == Running && Mode(h.satp) == 0 && InstrAt(h.mem, h.pc) == STOP
    ensures Good(EcallWorld(env, h), h) && Step(env.dec, h).status == Halted
  {
    hide Execute, InstrAt, DecodeAt, Add;
    forall pc
      ensures Intact(EcallWorld(env, h), h, pc)
    {
      BareIntact(env, h, pc);
    }
    assert Intact(EcallWorld(env, h), h, h.pc);
    JumpExecutes(STOP, h);
  }

  // Any hart in Bare mode at an ecall word, wherever it is, meets the hypotheses too.
  lemma EcallProgramIsGood(env: Env, h: Hart)
    requires Decodes(env) && h.status == Running && Mode(h.satp) == 0 && InstrAt(h.mem, h.pc) == STOP
    requires Cell(h, 0) == 0 && ZextWord(h.pc) == h.pc
    ensures Placed(EcallWorld(env, h)) && HartOk(EcallWorld(env, h), h)
  {
    hide Good, Step, Cell, InstrAt, Mode, Formatted;
    var w := EcallWorld(env, h);
    ImageFormatted(h.mem, h.pc);
    EcallGood(env, h);
    var g := Step(env.dec, h);
    StoppedIsGood(w, g);
    forall n: nat
      ensures Good(w, StepN(env.dec, n, h))
    {
      if n > 0 {
        StoppedStays(env.dec, n - 1, g);
      }
    }
  }

  // Such as a hart at the word 0x73.
  lemma EcallWordIsGood(env: Env, h: Hart)
    requires Decodes(env) && h.status == Running && Mode(h.satp) == 0 && Word(Read(h.mem, h.pc, 4)) == 0x73
    requires Cell(h, 0) == 0 && ZextWord(h.pc) == h.pc
    ensures Placed(EcallWorld(env, h)) && HartOk(EcallWorld(env, h), h)
  {
    hide Decode, Read, Mode, Cell, HartOk, Placed;
    StopWord();
    EcallProgramIsGood(env, h);
  }

  lemma StoppedIsGood(w: World, h: Hart)
    requires h.status != Running
    ensures Good(w, h)
  {}
}
