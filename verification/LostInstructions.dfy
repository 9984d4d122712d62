/** Where the cycle total falls short: a nested call whose target is a compiled plain block. */
module LostInstructions {
  import opened Bits
  import opened Isa
  import opened X86
  import opened Compiler
  import opened Cfg
  import opened Decoder
  import opened Reference
  import opened Sim
  import opened Simulation
  import opened JitSimulation
  import opened RunTheorems
  import opened Termination
  import opened SlotIndex
  import opened Programs

  // Compiled code stays with a block that is looked up again.
  lemma StillPlain(env: Env, m: Machine)
    requires EntersPlain(env, m)
    ensures EntersPlain(env, m.(cache := Lookup(env, !Paged(m.x.hart), m.x.hart.pc, m.cache).0))
  {
    hide CompileBlock, HasJumps, Index;
  }

  // A trampoline call to a compiled plain block executes instructions and counts none.
  lemma CallLoses(w: World, fuel: nat, ret: bv64, m: Machine) returns (n: nat)
    requires Placed(w) && Sound(w, m) && m.x.hart.status == Running && w.env.useJit && EntersPlain(w.env, m)
    ensures var r := RunCall(w.env, fuel, m.x.hart.pc, ret, m);
            r.Some? && Done(w, m, r.value, n) && n > 0 && r.value.x.count == m.x.count &&
            r.value.plainCalls == m.plainCalls + 1
  {
    hide Lookup, RunCode, Placed, CacheOk, HartOk, Retires, BlockOk;
    var h := m.x.hart;
    InCode(w, h);
    HartMode(w, h);
    StillPlain(w.env, m);
    LookupOk(w, h.pc, m.cache);
    var m1 := m.(cache := Lookup(w.env, !Paged(h), h.pc, m.cache).0);
    LookupOk(w, h.pc, m1.cache);
    var (cache, found) := Lookup(w.env, !Paged(h), h.pc, m1.cache);
    var b := found.value;
    n := PlainFromStart(w, fuel, b, m1.(cache := cache));
  }

  lemma HartMode(w: World, h: Hart)
    requires HartOk(w, h)
    ensures !Paged(h) == Direct(w)
  {
    hide GoodRun;
  }

  lemma PlainFromStart(w: World, fuel: nat, b: Block, m: Machine) returns (n: nat)
    requires Placed(w) && BlockOk(w, b) && !b.isFunction && b.code.Some? && b.startPc == m.x.hart.pc
    requires Sound(w, m) && m.x.hart.status == Running
    ensures var r := RunCode(w.env, fuel, b.code.value, b.code.value, m);
            r.Some? && Done(w, m, r.value, n) && n > 0 && SameCounts(m, r.value)
  {
    hide RunCode, Placed, Sound, Retires, Recorded, IsExec, PlainCodeFrom, HasJumps;
    NothingRecorded(w, b.startPc);
    assert b.instrs[0..] == b.instrs;
    n := PlainRuns(w, fuel, b, b.code.value, 0, m);
  }

  // So does compiled code at an instruction that calls such a block, whatever follows.
  lemma LinkLoses(w: World, fuel: nat, b: Block, j: nat, m: Machine)
    requires Placed(w) && FunctionOk(w, b) && j < |b.pcs| == |b.instrs| && b.pcs[j] == m.x.hart.pc
    requires Sound(w, m) && m.x.hart.status == Running && b.instrs[j].opcode.JAL? && b.instrs[j].rd != 0
    requires var g := Execute(b.instrs[j], m.x.hart);
             EntersPlain(w.env, m.(x := m.x.(hart := g)))
    ensures var r := RunCode(w.env, fuel, CodeOf(w, b, 0), CodeOf(w, b, j), m);
            r.Some? ==> r.value.plainCalls > m.plainCalls
  {
    hide RunCode, Execute, CodeOf, EntersPlain, Tail, Placed, CacheOk, HartOk, Retires, EmitCall, PostCallCheck,
         IsExec, CompileBlock;
    var i := b.instrs[j];
    var m1 := HeadRuns(w, fuel, b, j, m);
    LinkTail(i, m.x.hart, ContextOf(b.pcs, j));
    InstrIsImage(w, b, j);
    EntersPlainIgnoresCpu(w.env, m.(x := m.x.(hart := m1.x.hart)), m1);
    CallLosesInside(w, fuel, b, j, m1);
    RestIsTail(w, b, j);
  }

  lemma RestIsTail(w: World, b: Block, j: nat)
    requires j < |b.pcs| == |b.instrs|
    ensures Rest(w, b, j) == Tail(b.instrs[j], ContextOf(b.pcs, j)) + CodeOf(w, b, j + 1)
  {}

  lemma LinkTail(i: Instr, h: Hart, ctx: FlowContext)
    requires i.opcode.JAL? && i.rd != 0 && h.status == Running && ctx.pc == h.pc
    ensures var g := Execute(i, h);
            g.status == Running && g.pc == Target(i, h.pc) &&
            Tail(i, ctx) == EmitCall(Const(g.pc), ctx.nextPc) + PostCallCheck(ctx)
  {
    hide SetReg, Imm, Add, EmitCall, PostCallCheck;
    SetRegRuns(h, i.rd, Add(h.pc, 4));
  }

  lemma EntersPlainIgnoresCpu(env: Env, m: Machine, r: Machine)
    requires m.x.hart == r.x.hart && m.cache == r.cache
    ensures EntersPlain(env, m) == EntersPlain(env, r)
  {}

  lemma ReturnKeepsHistory(w: World, fuel: nat, b: Block, j: nat, back: Machine)
    requires Placed(w) && FunctionOk(w, b) && j < |b.pcs| == |b.instrs| && Sound(w, back)
    requires !w.image(b.pcs[j]).opcode.ECALL?
    ensures var r := RunCode(w.env, fuel, CodeOf(w, b, 0), AfterCall(w, b, j), Returned(w.env, back));
            r.Some? ==> r.value.plainCalls >= back.plainCalls
  {
    hide RunCode, CodeOf, Placed, CacheOk, HartOk, Retires, AfterCall, IsExec, CompileBlock;
    var m2 := Returned(w.env, back);
    CpuIsFree(w, back, m2.x.cpu);
    if m2.x.hart.status == Aborted {
      AbortedEnds(w.env, fuel, CodeOf(w, b, 0), AfterCall(w, b, j), m2);
    } else {
      var l := PostCallRuns(w, fuel, b, j, m2);
    }
  }

  lemma CallLosesInside(w: World, fuel: nat, b: Block, j: nat, m: Machine)
    requires Placed(w) && FunctionOk(w, b) && j < |b.pcs| == |b.instrs| && Sound(w, m) && m.x.hart.status == Running
    requires EntersPlain(w.env, m) && !w.image(b.pcs[j]).opcode.ECALL?
    ensures var ctx := ContextOf(b.pcs, j);
            var r := RunCode(w.env, fuel, CodeOf(w, b, 0), EmitCall(Const(m.x.hart.pc), ctx.nextPc) +
              PostCallCheck(ctx) + CodeOf(w, b, j + 1), m);
            r.Some? ==> r.value.plainCalls > m.plainCalls
  {
    hide RunCode, RunCall, CodeOf, Placed, Sound, Retires, PostCallCheck, CallArguments, EmitCall, Run, EntersPlain,
         IsExec, CompileBlock;
    var m1 := CallReached(w, fuel, b, j, m);
    CpuIsFree(w, m, m1.x.cpu);
    EntersPlainIgnoresCpu(w.env, m, m1);
    if fuel > 0 {
      var ret := ContextOf(b.pcs, j).nextPc;
      var k := CallLoses(w, fuel - 1, ret, m1);
      var back := RunCall(w.env, fuel - 1, m.x.hart.pc, ret, m1).value;
      ReturnKeepsHistory(w, fuel, b, j, back);
    }
  }

  // The trampoline call of a linking jump, once its arguments are in their registers.
  lemma CallReached(w: World, fuel: nat, b: Block, j: nat, m: Machine) returns (m1: Machine)
    requires |b.pcs| == |b.instrs| && j < |b.pcs| && m.x.hart.status == Running
    ensures var ctx := ContextOf(b.pcs, j);
            RunCode(w.env, fuel, CodeOf(w, b, 0), EmitCall(Const(m.x.hart.pc), ctx.nextPc) +
              PostCallCheck(ctx) + CodeOf(w, b, j + 1), m)
            == if fuel == 0 then None
               else
                 match RunCall(w.env, fuel - 1, m.x.hart.pc, ctx.nextPc, m1)
                 case None => None
                 case Some(back) => RunCode(w.env, fuel, CodeOf(w, b, 0), AfterCall(w, b, j), Returned(w.env, back))
    ensures m1 == m.(x := m.x.(cpu := m1.x.cpu))
  {
    hide RunCode, RunCall, CodeOf, PostCallCheck, CallArguments, EmitCall, Run;
    var target := Const(m.x.hart.pc);
    var ret, full, after := ContextOf(b.pcs, j).nextPc, CodeOf(w, b, 0), AfterCall(w, b, j);
    CallSplits(w, b, j, target);
    RunStraight(w.env, fuel, full, CallArguments(target, ret), [CallTrampoline] + after, m);
    CallArgumentsEffect(target, ret, m.x, w.env.junk);
    m1 := m.(x := Run(CallArguments(target, ret), m.x, w.env.junk));
    CallCode(w.env, fuel, full, after, m1);
  }

  // --- a run ---

  // The two calls and the ecall are executable, the increment at 12 and its return are not; a block
  // is hot at its first lookup.
  function LossyEnv(): Env { Env(Decode, [CodeRange(0, 12)], true, 1, 10, 7, 0) }

  function LossyWorld(): World { WorldOf(LossyEnv(), CallMemory()) }

  // The simulator as it starts: nothing cached.
  function LossyStart(): Machine { Boot(CallHart(), map[]) }

  lemma LossyRanges()
    ensures IsExec(LossyEnv().ranges, 0) && IsExec(LossyEnv().ranges, 4) && !IsExec(LossyEnv().ranges, 12)
  {
    assert CodeRange(0, 12) in LossyEnv().ranges && InRange(CodeRange(0, 12), 0) && InRange(CodeRange(0, 12), 4);
  }

  lemma LossySound()
    ensures Placed(LossyWorld()) && Sound(LossyWorld(), LossyStart()) && LossyWorld().env == LossyEnv()
  {
    hide GoodRun, Placed, CallMemory, IsMask;
    SlotsOfPcs();
    CallProgramIsGood(LossyEnv(), 3);
  }

  lemma WorldIsDirect()
    ensures Direct(LossyWorld()) && 0 in LossyWorld().code && 12 in LossyWorld().code && !Paged(CallHart())
  {
    hide CallMemory;
  }

  lemma FunctionCodeOf(w: World, b: Block)
    requires BlockOk(w, b) && b.isFunction
    ensures FunctionOk(w, b) && b.code == Some(CodeOf(w, b, 0))
  {
    hide IsExec, FunctionCodeFrom;
  }

  lemma PromotedPcs(env: Env, direct: bool, b: Block)
    ensures Promoted(env, direct, b).pcs == b.pcs
  {}

  // What the first step builds at 0: a function that holds the second call too.
  lemma FirstBuild() returns (b: Block, cache: Slots)
    ensures var m := LossyStart();
            Lookup(LossyEnv(), true, 0, map[]) == (map[], None) &&
            BuildAndInstall(LossyEnv(), 0, m).Some? &&
            var m2 := BuildAndInstall(LossyEnv(), 0, m).value;
            m2 == m.(cache := m2.cache) && Lookup(LossyEnv(), true, 0, m2.cache) == (cache, Some(b))
    ensures BlockOk(LossyWorld(), b) && b.isFunction && b.startPc == 0 && 4 in b.pcs
    ensures CacheOk(LossyWorld(), cache) && 3 !in cache
  {
    hide CompileBlock, Index, CallMemory, IsExec, BlockOk, GoodRun, Placed, CacheOk, BuildBlock, DecodeAt, HasJumps;
    var w, m := LossyWorld(), LossyStart();
    SlotsOfPcs();
    LossyRanges();
    LossySound();
    WorldIsDirect();
    BuildOk(w, m);
    var m2 := BuildAndInstall(LossyEnv(), 0, m).value;
    LookupOk(w, 0, m2.cache);
    BuiltIsFound(LossyEnv(), 0, m);
    var (c, found) := Lookup(LossyEnv(), true, 0, m2.cache);
    b, cache := found.value, c;
    BuiltStart(LossyEnv().ranges, DecodingOf(Decode, CallHart()), 0);
    SecondCallIsInside();
  }

  // The return pc of the first call is executable, so the traversal visits it.
  lemma SecondCallIsInside()
    ensures var r := BuildBlock(LossyEnv().ranges, DecodingOf(Decode, CallHart()), 0);
            r.Built? ==> 4 in r.block.pcs
  {
    hide Successors, IsExec, Explore, CallMemory, Layout, DecodeAt, BuildBlock;
    var ranges, dec := LossyEnv().ranges, DecodingOf(Decode, CallHart());
    var r := BuildBlock(ranges, dec, 0);
    if r.Built? {
      LossyRanges();
      BuiltBlock(ranges, dec, 0);
      BlockIsClosed(ranges, dec, 0);
      assert r.block.pcs[0] in Elements(r.block.pcs);
      FirstSuccessor();
    }
  }

  lemma FirstSuccessor()
    ensures var next := Flow(LossyEnv().ranges, DecodingOf(Decode, CallHart()))(0);
            next.Some? && 4 in next.value
  {
    hide InstrAt, CallMemory, Decode;
    CallFetches(0);
    AlwaysIntact(LossyEnv(), CallMemory(), CallHart(), 0);
    Immediates();
  }

  // The increment as the first call records it.
  function Increment(): Block { Block(12, [BUMP], [ExecFnOf(ADDI)], [], false, None, 0) }

  function AfterIncrement(m: Machine): Machine { WithHart(m, CallState(3), 2).(cache := m.cache[3 := Increment()]) }

  lemma IncrementDecodes()
    ensures DecodeAt(Decode, CallState(1), 12) == Some(BUMP) && DecodeAt(Decode, CallState(2), 16) == Some(BACK)
  {
    hide InstrAt, CallMemory, DecodeAt, CallState;
    CallFetches(1);
    CallFetches(2);
    CallPcsOf();
    CallStateKeeps(1);
    CallStateKeeps(2);
    AlwaysIntact(LossyEnv(), CallMemory(), CallState(1), 12);
    AlwaysIntact(LossyEnv(), CallMemory(), CallState(2), 16);
  }

  lemma CallPcsOf()
    ensures CallState(1).pc == 12 && CallState(2).pc == 16 && CallState(3).pc == 4
  {
    hide CallMemory;
  }

  lemma IncrementRecorded(m: Machine)
    requires m.x.hart == CallState(1)
    ensures RecordBlock(LossyEnv(), m) == (AfterIncrement(m), 2)
  {
    hide Execute, CallMemory, CallState, DecodeAt, Decode;
    CallPcsOf();
    CallStateKeeps(1);
    CallStateKeeps(2);
    CallStateKeeps(3);
    IncrementDecodes();
    SlotsOfPcs();
    Immediates();
    BumpExecutes(1);
    BackExecutes(2);
    assert [] + [BUMP] == [BUMP] && [] + [ExecFnOf(ADDI)] == [ExecFnOf(ADDI)];
    assert Record(LossyEnv(), CallState(2), [BUMP], [ExecFnOf(ADDI)])
        == (CallState(3), [BUMP], [ExecFnOf(ADDI)], 2);
    assert Record(LossyEnv(), CallState(1), [], []) == (CallState(3), [BUMP], [ExecFnOf(ADDI)], 2);
    SmallPc(7, 12);
  }

  // The first call: not executable, so it is stepped through and recorded.
  lemma FirstCall(fuel: nat, m: Machine)
    requires m.x.hart == CallState(1) && 3 !in m.cache
    ensures RunCall(LossyEnv(), fuel, 12, 4, m) == if fuel == 0 then None else Some(AfterIncrement(m))
  {
    hide RecordBlock, CallMemory, CallState, IsExec, Index, CompileBlock;
    CallPcsOf();
    CallStateKeeps(1);
    CallStateKeeps(3);
    SlotsOfPcs();
    LossyRanges();
    IncrementRecorded(m);
    assert EnsureJit(LossyEnv(), 12, m) == (m, false);
    if fuel > 0 {
      assert SimStep(LossyEnv(), fuel - 1, m) == Some((AfterIncrement(m), 2));
      assert RunUntil(LossyEnv(), fuel - 1, 4, AfterIncrement(m)) == Some(AfterIncrement(m));
    }
  }

  // At the second call the increment's block is hot.
  lemma IncrementEntered(m: Machine)
    requires 3 in m.cache && m.cache[3] == Increment()
    ensures EntersPlain(LossyEnv(), m.(x := m.x.(hart := CallState(4))))
  {
    hide CompileBlock, Index, CallMemory, HasJumps;
    SlotsOfPcs();
    NoJumpsInIncrement();
  }

  lemma NoJumpsInIncrement()
    ensures !HasJumps([BUMP])
  {}

  // Back from a call at an executable return pc, compiled code goes on at its label.
  lemma ReturnReaches(w: World, fuel: nat, b: Block, j: nat, m: Machine) returns (f: nat, k: nat, m': Machine)
    requires j < |b.pcs| == |b.instrs| && Distinct(b.pcs) && m.x.hart.status != Aborted
    requires m.x.hart.pc == Add(b.pcs[j], 4) && m.x.hart.pc in b.pcs
    ensures k < |b.pcs| && b.pcs[k] == m.x.hart.pc && m' == m.(x := m.x.(cpu := m'.x.cpu))
    ensures var r := RunCode(w.env, fuel, CodeOf(w, b, 0), AfterCall(w, b, j), m);
            r.Some? ==> r == RunCode(w.env, f, CodeOf(w, b, 0), CodeOf(w, b, k), m')
  {
    hide RunCode, FunctionCodeFrom, Sound, Done, Tally;
    var ctx, full := ContextOf(b.pcs, j), CodeOf(w, b, 0);
    var rest := CodeOf(w, b, j + 1);
    var after := FallThrough(ctx) + rest;
    assert PostCallCheck(ctx) + rest == ComparePc(ctx.nextPc) + ([Jcc(CcNE, Exit)] + after);
    m' := CompareRuns(w, fuel, full, ctx.nextPc, [Jcc(CcNE, Exit)] + after, m);
    JccCode(w.env, fuel, full, CcNE, Exit, after, m');
    f := fuel;
    if ctx.fallthroughIsNext {
      assert [] + rest == rest;
      k := j + 1;
    } else {
      k :| k < |b.pcs| && b.pcs[k] == m.x.hart.pc;
      JumpCode(w.env, fuel, full, At(ctx.nextPc), rest, m');
      FromLabel(Direct(w), b.instrs, b.pcs, 0, k);
      f := if fuel > 0 then fuel - 1 else 0;
    }
  }

  // The first step makes both calls, and the second one loses the increment.
  lemma FirstBlockLoses(fuel: nat, b: Block, m: Machine)
    requires BlockOk(LossyWorld(), b) && b.isFunction && b.startPc == 0 && 4 in b.pcs && 3 !in m.cache
    requires Sound(LossyWorld(), m) && m.x.hart == CallHart() && m.plainCalls == 0
    ensures var r := RunCode(LossyEnv(), fuel, CodeOf(LossyWorld(), b, 0), CodeOf(LossyWorld(), b, 0), m);
            r.Some? ==> r.value.plainCalls > 0
  {
    hide CacheOk, HartOk, Placed, CallMemory, CallState, RunCode, RunCall, CodeOf, BlockOk, Execute, EntersPlain, Tail,
         Retires, EmitCall, PostCallCheck, LossyWorld, AfterCall, Rest;
    var w := LossyWorld();
    LossySound();
    FunctionCodeOf(w, b);
    FirstState(b);
    CallExecutes(0);
    var m1 := HeadRuns(w, fuel, b, 0, m);
    LinkTail(CALL, m.x.hart, ContextOf(b.pcs, 0));
    RestIsTail(w, b, 0);
    var m2 := CallReached(w, fuel, b, 0, m1);
    if fuel > 1 {
      FirstCall(fuel - 1, m2);
      CpuIsFree(w, m1, m2.x.cpu);
      var n := CallOk(w, fuel - 1, 4, m2);
      SecondBlockLoses(fuel, b, AfterIncrement(m2));
    } else if fuel == 1 {
      FirstCall(0, m2);
    }
  }

  lemma FirstState(b: Block)
    requires FunctionOk(LossyWorld(), b) && b.startPc == 0
    ensures b.instrs[0] == CALL && b.pcs[0] == 0 && ContextOf(b.pcs, 0).nextPc == 4 && ContextOf(b.pcs, 0).pc == 0
    ensures CallState(0) == CallHart() && CallState(1).pc == 12 && CallState(1).status == Running
  {
    hide CallMemory, InstrAt, IsExec, CompileBlock;
    CallFetches(0);
    Immediates();
  }

  lemma SecondBlockLoses(fuel: nat, b: Block, back: Machine)
    requires FunctionOk(LossyWorld(), b) && 0 < |b.pcs| && b.pcs[0] == 0 && 4 in b.pcs
    requires Sound(LossyWorld(), back) && back.x.hart == CallState(3) && back.plainCalls == 0
    requires 3 in back.cache && back.cache[3] == Increment()
    ensures var r := RunCode(LossyEnv(), fuel, CodeOf(LossyWorld(), b, 0), AfterCall(LossyWorld(), b, 0),
              Returned(LossyEnv(), back));
            r.Some? ==> r.value.plainCalls > 0
  {
    hide CacheOk, HartOk, Placed, CallMemory, CallState, RunCode, CodeOf, Execute, EntersPlain, LossyWorld, AfterCall;
    var w, m := LossyWorld(), Returned(LossyEnv(), back);
    LossySound();
    CallStateKeeps(3);
    CallPcsOf();
    Immediates();
    var f, k, m1 := ReturnReaches(w, fuel, b, 0, m);
    CpuIsFree(w, back, m1.x.cpu);
    SecondState(b, k);
    CallExecutes(3);
    IncrementEntered(m1);
    LinkLoses(w, f, b, k, m1);
  }

  lemma SecondState(b: Block, k: nat)
    requires FunctionOk(LossyWorld(), b) && k < |b.pcs| && b.pcs[k] == 4
    ensures b.instrs[k] == AGAIN
  {
    hide CallMemory, InstrAt, IsExec, CompileBlock;
    CallFetches(3);
  }

  lemma FirstStepLoses(fuel: nat)
    ensures var r := SimStep(LossyEnv(), fuel, LossyStart());
            r.Some? ==> r.value.0.plainCalls > 0
  {
    hide CacheOk, HartOk, CallMemory, Lookup, RunCode, CodeOf, BlockOk, BuildAndInstall, LossyWorld;
    var m := LossyStart();
    var b, cache := FirstBuild();
    LossySound();
    WorldIsDirect();
    FunctionCodeOf(LossyWorld(), b);
    FirstBlockLoses(fuel, b, m.(cache := cache));
  }

  // From an empty cache the program ends as it should, after seven instructions, and the cycle
  // total is less.
  lemma CyclesFallShort(fuel: nat)
    requires fuel >= 24
    ensures var r := RunMachine(LossyEnv(), fuel, 0, Boot(CallHart(), map[]), 0);
            r.Some? && r.value.0.x.hart == CallState(7) && Retires(Decode, 7, CallHart(), CallState(7)) && r.value.1 < 7
  {
    hide SimStep, CacheOk, GoodRun, Placed, CallMemory, LossyWorld, CallState, StepN, Decode;
    var w, m := LossyWorld(), LossyStart();
    LossySound();
    CallReaches(LossyEnv(), 7);
    CallReaches(LossyEnv(), 6);
    CallStateKeeps(6);
    CallStateKeeps(7);
    StoppingProgramsStop(w, fuel, CallHart(), map[], 7);
    var n := RunIsSlowRun(w, fuel, 0, CallHart(), map[]);
    StopsOnce(Decode, n, 7, CallHart(), CallState(7), CallState(7));
    FirstStepLoses(fuel - 1);
    var (m', k) := SimStep(LossyEnv(), fuel - 1, m).value;
    var s := SimStepOk(w, fuel - 1, m);
    var l := RunMachineOk(w, fuel - 1, 0, m', k);
  }
}
