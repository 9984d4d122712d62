/** Headline results about whole runs, and the cases in which the code falls short of them. */
module RunTheorems {
  import opened Bits
  import opened Memory
  import opened Isa
  import opened X86
  import opened Emit
  import opened EmitAgrees
  import opened EmitEffect
  import opened Compiler
  import opened Cfg
  import opened Reference
  import opened Sim
  import opened Simulation
  import opened JitSimulation
  import opened SlotIndex
  import opened Decoder

  function NoCpu(): Cpu { Cpu(0, 0, 0, 0, 0, 0, Undefined) }

  // The simulator before its first step, its cache empty or predecoded.
  function Boot(h: Hart, cache: Slots): Machine { Machine(State(NoCpu(), h, 0), cache, 0, 0) }

  lemma EmptyCacheOk(w: World)
    ensures CacheOk(w, map[])
  {}

  // A step without the JIT that reports k has made exactly k single steps, whatever is cached and
  // however often the block looped back to its start.
  lemma CachedStepIsKSteps(w: World, fuel: nat, m: Machine)
    requires Placed(w) && Sound(w, m) && m.x.hart.status == Running && Counted(w)
    requires SimStep(w.env, fuel, m).Some? && SimStep(w.env, fuel, m).value.0.x.hart.status != Aborted
    ensures var (m', k) := SimStep(w.env, fuel, m).value;
            k >= 0 && Retires(w.env.dec, k, m.x.hart, m'.x.hart) && m'.x.count == m.x.count + k && Sound(w, m')
  {
    hide SimStep, Sound, Retires;
    var n := SimStepOk(w, fuel, m);
  }

  // Every run ends in a state of the slow machine, reached by exactly the instructions the cycle
  // total and the lost tally add up to. The cycle total is exact if and only if no plain compiled
  // block was executed inside a nested call, and too small otherwise.
  lemma RunIsSlowRun(w: World, fuel: nat, max: nat, h: Hart, cache: Slots) returns (n: nat)
    requires Placed(w) && HartOk(w, h) && CacheOk(w, cache)
    ensures var r := RunMachine(w.env, fuel, max, Boot(h, cache), 0);
            r.Some? ==>
              Retires(w.env.dec, n, h, r.value.0.x.hart) &&
              (r.value.0.x.hart.status != Running || (max != 0 && r.value.1 >= max)) &&
              (r.value.0.x.hart.status != Aborted ==>
                r.value.1 + r.value.0.lost == n && r.value.0.plainCalls <= r.value.0.lost &&
                (r.value.1 == n <==> r.value.0.plainCalls == 0) &&
                (Counted(w) ==> r.value.1 == n))
  {
    hide RunMachine, HartOk, CacheOk, Retires;
    n := RunMachineOk(w, fuel, max, Boot(h, cache), 0);
  }

  // Two simulators with the same decoder, whatever their JIT settings, executable ranges, cache
  // sizes, cache contents and fuel, leave a program that halts in the same state; and if neither
  // loses instructions they report the same number of cycles.
  lemma SettingsDoNotMatter(w1: World, w2: World, fuel1: nat, fuel2: nat, h: Hart, cache1: Slots, cache2: Slots)
    requires w1.env.dec == w2.env.dec && Placed(w1) && Placed(w2) && HartOk(w1, h) && HartOk(w2, h)
    requires CacheOk(w1, cache1) && CacheOk(w2, cache2)
    requires var r1 := RunMachine(w1.env, fuel1, 0, Boot(h, cache1), 0); r1.Some? && r1.value.0.x.hart.status == Halted
    requires var r2 := RunMachine(w2.env, fuel2, 0, Boot(h, cache2), 0); r2.Some? && r2.value.0.x.hart.status == Halted
    ensures var r1, r2 := RunMachine(w1.env, fuel1, 0, Boot(h, cache1), 0).value,
            RunMachine(w2.env, fuel2, 0, Boot(h, cache2), 0).value;
            r1.0.x.hart == r2.0.x.hart && r1.1 + r1.0.lost == r2.1 + r2.0.lost &&
            (Counted(w1) && Counted(w2) ==> r1.1 == r2.1)
  {
    hide RunMachine, Placed, HartOk, CacheOk, Retires, Counted;
    var n1 := RunIsSlowRun(w1, fuel1, 0, h, cache1);
    var n2 := RunIsSlowRun(w2, fuel2, 0, h, cache2);
    var g1 := RunMachine(w1.env, fuel1, 0, Boot(h, cache1), 0).value.0.x.hart;
    var g2 := RunMachine(w2.env, fuel2, 0, Boot(h, cache2), 0).value.0.x.hart;
    StopsOnce(w1.env.dec, n1, n2, h, g1, g2);
  }

  // An ecall at any depth of compiled calls ends every frame: no enclosing frame or run_until_pc
  // loop executes one more instruction than the slow machine does before it halts.
  lemma HaltUnwindsEveryFrame(w: World, fuel: nat, ret: bv64, m: Machine, k: nat)
    requires Placed(w) && Sound(w, m) && m.x.hart.status == Running
    requires var r := RunCall(w.env, fuel, m.x.hart.pc, ret, m); r.Some? && r.value.x.hart.status == Halted
    requires Retires(w.env.dec, k, m.x.hart, StepN(w.env.dec, k, m.x.hart)) &&
             StepN(w.env.dec, k, m.x.hart).status == Halted
    ensures var r := RunCall(w.env, fuel, m.x.hart.pc, ret, m).value;
            r.x.hart == StepN(w.env.dec, k, m.x.hart) && r.x.count - m.x.count + r.lost - m.lost == k &&
            m.lost <= r.lost
  {
    hide RunCall, Sound, StepN;
    var n := CallOk(w, fuel, ret, m);
    var r := RunCall(w.env, fuel, m.x.hart.pc, ret, m).value;
    StopsOnce(w.env.dec, n, k, m.x.hart, r.x.hart, StepN(w.env.dec, k, m.x.hart));
  }

  // Aligned 32-bit pcs inside one window of 4 * capacity bytes meet the cache's needs.
  lemma WindowIsPlaced(w: World, base: nat, k: nat)
    requires IsMask(w.env.mask, k) && base % 4 == 0
    requires forall pc | pc in w.code ::
               InWindow(base, w.env.mask, pc as nat) && ZextWord(pc) == pc && Formatted(w.image(pc))
    ensures Placed(w)
  {
    forall p, q | p in w.code && q in w.code && Index(w.env.mask, p) == Index(w.env.mask, q)
      ensures p == q
    {
      WindowSeparates(base, w.env.mask, k, p, q);
    }
  }

  // The lookup has no tag check: an installed block is returned for exactly the pcs whose word
  // index agrees with its start's modulo the capacity, and is the block of none of them but its
  // start. Every other lookup is as before.
  lemma LookupAfterInstall(env: Env, k: nat, direct: bool, b: Block, pc: bv64, cache: Slots)
    requires IsMask(env.mask, k) && SlotIndex.Number(pc) < WORD_RANGE && SlotIndex.Number(b.startPc) < WORD_RANGE
    ensures var found, before := Lookup(env, direct, pc, Install(env, b, cache)).1, Lookup(env, direct, pc, cache).1;
            if Remainder(SlotIndex.Number(pc) / 4, env.mask + 1)
              == Remainder(SlotIndex.Number(b.startPc) / 4, env.mask + 1)
            then found == Some(Promoted(env, direct, b)) && (found.value.startPc == pc <==> b.startPc == pc)
            else found == before
  {
    hide CompileBlock, HasJumps;
    SharedSlot(env.mask, k, pc, b.startPc);
  }

  // mv rd, x0 as the assembler spells it.
  function ZeroMove(rd: nat): Instr { Instr(ADDI, FormatI, rd, 0, 0, 0) }

  lemma ZeroMoveComputes(rd: nat, x: State, junk: bv64)
    requires x.hart.status == Running
    ensures Computes(ValueCode(ZeroMove(rd)), Add(Cell(x.hart, 0), Sext(0)), x, junk)
  {
    hide Load, Store, Read, Write, SizeArg, Extended, Cpu.Holds, Sext, Add, Sub, And, Or, Xor, Shl, Shr, Sar, Slt, Ult,
         AddLow, SubLow;
    Run2(Do(Mov(RAX, RegCell(0))), Do(Alu(AddOp, RAX, Const(Sext(0)))), x, junk);
  }

  lemma ZeroMoveExecutes(rd: nat, h: Hart)
    ensures Execute(ZeroMove(rd), h) == SetReg(h, rd, Add(0, Sext(0))).(pc := Add(h.pc, 4))
  {
    hide Value;
    ExecuteValue(ZeroMove(rd), h);
    ZeroMoveValue(rd, h);
  }

  lemma ZeroMoveValue(rd: nat, h: Hart)
    ensures Value(ZeroMove(rd), h) == Add(0, Sext(0))
  {}

  // Emitted code reads x0's cell, which the executer never does: with any other value there than
  // 0, as a configured initial register value leaves it, the two differ.
  lemma X0CellMatters(direct: bool, rd: nat, x: State, junk: bv64)
    requires rd != 0 && x.hart.status == Running
    ensures Run(DataCode(direct, ZeroMove(rd)), x, junk).hart == Execute(ZeroMove(rd), x.hart) <==> Cell(x.hart, 0) == 0
  {
    hide Run, Write, Ult;
    var i := ZeroMove(rd);
    SextZero();
    AddZero(Cell(x.hart, 0));
    AddZero(0);
    ZeroMoveComputes(rd, x, junk);
    FinishEffect(ValueCode(i), Cell(x.hart, 0), rd, x, junk);
    ZeroMoveExecutes(rd, x.hart);
    var fall := Add(x.hart.pc, 4);
    assert SetReg(x.hart, rd, Cell(x.hart, 0)).(pc := fall).regs[rd] == Cell(x.hart, 0);
    assert SetReg(x.hart, rd, 0).(pc := fall).regs[rd] == 0;
  }

  // With the generated decoder the format part of what the cache needs holds of every word.
  lemma DecodedIsFormatted(w: bv32)
    ensures Formatted(Decode(w))
  {
    DecodeIsFormatted(w);
  }
}
