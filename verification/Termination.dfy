/** Total correctness of runs: if the slow machine stops after some number of instructions, the
    simulator's run ends too, within fuel linear in that number. */
module Termination {
  import opened Bits
  import opened Isa
  import opened X86
  import opened Compiler
  import opened Cfg
  import opened Reference
  import opened Sim
  import opened Simulation
  import opened JitSimulation
  import opened RunTheorems

  // The slow machine has stopped after at most N instructions.
  ghost predicate Stops(w: World, h: Hart, N: nat) { StepN(w.env.dec, N, h).status != Running }

  // After n of them at most N - n are left.
  lemma StopsSooner(w: World, h: Hart, g: Hart, n: nat, N: nat)
    requires Stops(w, h, N) && Retires(w.env.dec, n, h, g)
    ensures n <= N && Stops(w, g, N - n)
  {
    hide StepN;
    if n > N {
      StopsBefore(w.env.dec, N, n, h);
    } else {
      StepNAdd(w.env.dec, n, N - n, h);
    }
  }

  // Compiled code from the label of instruction j.
  lemma {:induction false} FunctionEnds(w: World, fuel: nat, b: Block, j: nat, m: Machine, N: nat)
    requires Placed(w) && w.env.maxBb > 0 && FunctionOk(w, b) && j < |b.pcs| == |b.instrs|
    requires Sound(w, m) && m.x.hart.status == Running && m.x.hart.pc == b.pcs[j]
    requires Stops(w, m.x.hart, N) && fuel >= 3 * N + 2
    ensures RunCode(w.env, fuel, CodeOf(w, b, 0), CodeOf(w, b, j), m).Some?
    decreases fuel, 0, |b.pcs| - j, 9
  {
    hide Execute, RunCode, CodeOf, Stops, Retires, Placed, FunctionOk, CacheOk, HartOk, Counted;
    var m1 := HeadRuns(w, fuel, b, j, m);
    if m1.x.hart.status == Aborted {
      AbortedEnds(w.env, fuel, CodeOf(w, b, 0), Rest(w, b, j), m1);
    } else {
      StopsSooner(w, m.x.hart, m1.x.hart, 1, N);
      TailEnds(w, fuel, b, j, m.x.hart, m1, N - 1);
    }
  }

  lemma TailEnds(w: World, fuel: nat, b: Block, j: nat, h: Hart, m: Machine, N: nat)
    requires Placed(w) && w.env.maxBb > 0 && FunctionOk(w, b) && j < |b.pcs| == |b.instrs|
    requires Sound(w, m) && h.status == Running && h.pc == b.pcs[j] && m.x.hart == Execute(b.instrs[j], h) &&
             m.x.hart.status != Aborted
    requires Stops(w, m.x.hart, N) && fuel >= 3 * N + 5
    ensures RunCode(w.env, fuel, CodeOf(w, b, 0), Rest(w, b, j), m).Some?
    decreases fuel, 0, |b.pcs| - j, 8
  {
    hide Execute, RunCode, RunJump, Sound, Stops, FunctionCodeFrom, FunctionOk, Placed, PostCallCheck, EmitCall,
         FallThrough, BranchDispatch;
    var i, ctx, rest := b.instrs[j], ContextOf(b.pcs, j), CodeOf(w, b, j + 1);
    ExecuteFlow(i, h);
    InstrIsImage(w, b, j);
    if IsBranch(i.opcode) {
      BranchEnds(w, fuel, b, j, Target(i, h.pc), m, N);
    } else if i.opcode.JAL? {
      if i.rd == 0 {
        JumpCode(w.env, fuel, CodeOf(w, b, 0), LabelOf(Target(i, h.pc), b.pcs), rest, m);
        JumpEnds(w, fuel, b, m, N);
      } else {
        CallEnds(w, fuel, b, j, Const(Target(i, h.pc)), m, N);
      }
    } else if i.opcode.JALR? && i.rd != 0 {
      CallEnds(w, fuel, b, j, PcCell, m, N);
    } else if i.opcode.JALR? || i.opcode.ECALL? {
      JumpCode(w.env, fuel, CodeOf(w, b, 0), Exit, rest, m);
      ExitJump(w, fuel, b, m);
    } else {
      FallEnds(w, fuel, b, j, m, N);
    }
  }

  lemma JumpEnds(w: World, fuel: nat, b: Block, m: Machine, N: nat)
    requires Placed(w) && w.env.maxBb > 0 && FunctionOk(w, b) && |b.pcs| == |b.instrs| && Sound(w, m) &&
             m.x.hart.status == Running
    requires Stops(w, m.x.hart, N) && fuel >= 3 * N + 3
    ensures RunJump(w.env, fuel, CodeOf(w, b, 0), LabelOf(m.x.hart.pc, b.pcs), m).Some?
    decreases fuel, 0, 0, 5
  {
    hide RunCode, Sound, Stops, FunctionCodeFrom, Placed, IsExec;
    if m.x.hart.pc in b.pcs {
      var j: nat :| j < |b.pcs| && b.pcs[j] == m.x.hart.pc;
      FromLabel(Direct(w), b.instrs, b.pcs, 0, j);
      FunctionEnds(w, fuel - 1, b, j, m, N);
    } else {
      ExitJump(w, fuel, b, m);
    }
  }

  lemma FallEnds(w: World, fuel: nat, b: Block, j: nat, m: Machine, N: nat)
    requires Placed(w) && w.env.maxBb > 0 && FunctionOk(w, b) && j < |b.pcs| == |b.instrs|
    requires Sound(w, m) && m.x.hart.status == Running && m.x.hart.pc == Add(b.pcs[j], 4)
    requires Stops(w, m.x.hart, N) && fuel >= 3 * N + 3
    ensures RunCode(w.env, fuel, CodeOf(w, b, 0), FallThrough(ContextOf(b.pcs, j)) + CodeOf(w, b, j + 1), m).Some?
    decreases fuel, 0, |b.pcs| - j, 6
  {
    hide RunCode, RunJump, Sound, Stops, FunctionCodeFrom, Placed, IsExec, Add;
    var ctx, rest := ContextOf(b.pcs, j), CodeOf(w, b, j + 1);
    if ctx.fallthroughIsNext {
      assert [] + rest == rest;
      FunctionEnds(w, fuel, b, j + 1, m, N);
    } else {
      JumpCode(w.env, fuel, CodeOf(w, b, 0), LabelOf(ctx.nextPc, b.pcs), rest, m);
      JumpEnds(w, fuel, b, m, N);
    }
  }

  lemma BranchEnds(w: World, fuel: nat, b: Block, j: nat, target: bv64, m: Machine, N: nat)
    requires Placed(w) && w.env.maxBb > 0 && FunctionOk(w, b) && j < |b.pcs| == |b.instrs|
    requires Sound(w, m) && m.x.hart.status == Running && (m.x.hart.pc == target || m.x.hart.pc == Add(b.pcs[j], 4))
    requires Stops(w, m.x.hart, N) && fuel >= 3 * N + 3
    ensures RunCode(w.env, fuel, CodeOf(w, b, 0), BranchDispatch(target, ContextOf(b.pcs, j)) + CodeOf(w, b, j + 1),
            m).Some?
    decreases fuel, 0, |b.pcs| - j, 7
  {
    hide RunCode, Sound, Stops, FunctionCodeFrom, FunctionOk, Placed, Add;
    var ctx, full, rest := ContextOf(b.pcs, j), CodeOf(w, b, 0), CodeOf(w, b, j + 1);
    if target !in b.pcs || ctx.nextPc !in b.pcs {
      JumpCode(w.env, fuel, full, Exit, rest, m);
      ExitJump(w, fuel, b, m);
    } else {
      var jumps := [Jcc(CcE, At(target))] + ([Jmp(At(ctx.nextPc))] + rest);
      assert BranchDispatch(target, ctx) + rest == ComparePc(target) + jumps;
      var m1 := CompareRuns(w, fuel, full, target, jumps, m);
      JccCode(w.env, fuel, full, CcE, At(target), [Jmp(At(ctx.nextPc))] + rest, m1);
      JumpCode(w.env, fuel, full, At(ctx.nextPc), rest, m1);
      JumpEnds(w, fuel, b, m1, N);
    }
  }

  lemma CallEnds(w: World, fuel: nat, b: Block, j: nat, target: Operand, m: Machine, N: nat)
    requires Placed(w) && w.env.maxBb > 0 && FunctionOk(w, b) && j < |b.pcs| == |b.instrs| &&
             !w.image(b.pcs[j]).opcode.ECALL?
    requires Sound(w, m) && m.x.hart.status == Running && (target == PcCell || target == Const(m.x.hart.pc))
    requires Stops(w, m.x.hart, N) && fuel >= 3 * N + 4
    ensures var ctx := ContextOf(b.pcs, j);
            RunCode(w.env, fuel, CodeOf(w, b, 0), EmitCall(target, ctx.nextPc) + PostCallCheck(ctx) +
              CodeOf(w, b, j + 1), m).Some?
    decreases fuel, 0, |b.pcs| - j, 7
  {
    hide RunCode, RunCall, CodeOf, FunctionOk, Placed, Sound, Done, Stops, PostCallCheck, CallArguments, EmitCall, Run;
    var ret, full, after := ContextOf(b.pcs, j).nextPc, CodeOf(w, b, 0), AfterCall(w, b, j);
    CallSplits(w, b, j, target);
    RunStraight(w.env, fuel, full, CallArguments(target, ret), [CallTrampoline] + after, m);
    CallArgumentsEffect(target, ret, m.x, w.env.junk);
    var m1 := m.(x := Run(CallArguments(target, ret), m.x, w.env.junk));
    CallCode(w.env, fuel, full, after, m1);
    CpuIsFree(w, m, m1.x.cpu);
    CalleeEnds(w, fuel - 1, ret, m1, N);
    var k := CallOk(w, fuel - 1, ret, m1);
    ReturnEnds(w, fuel, b, j, m1, RunCall(w.env, fuel - 1, m.x.hart.pc, ret, m1).value, k, N);
  }

  lemma ReturnEnds(w: World, fuel: nat, b: Block, j: nat, m: Machine, back: Machine, k: nat, N: nat)
    requires Placed(w) && w.env.maxBb > 0 && FunctionOk(w, b) && j < |b.pcs| == |b.instrs| &&
             !w.image(b.pcs[j]).opcode.ECALL?
    requires Done(w, m, back, k) && Stops(w, m.x.hart, N) && fuel >= 3 * N + 4
    ensures RunCode(w.env, fuel, CodeOf(w, b, 0), AfterCall(w, b, j), Returned(w.env, back)).Some?
    decreases fuel, 0, |b.pcs| - j, 7, 1
  {
    hide RunCode, CodeOf, FunctionOk, CacheOk, HartOk, Stops, Retires, AfterCall;
    var m2 := Returned(w.env, back);
    if m2.x.hart.status == Aborted {
      AbortedEnds(w.env, fuel, CodeOf(w, b, 0), AfterCall(w, b, j), m2);
    } else {
      StopsSooner(w, m.x.hart, back.x.hart, k, N);
      PostCallEnds(w, fuel, b, j, m2, N - k);
    }
  }

  lemma PostCallEnds(w: World, fuel: nat, b: Block, j: nat, m: Machine, N: nat)
    requires Placed(w) && w.env.maxBb > 0 && FunctionOk(w, b) && j < |b.pcs| == |b.instrs| &&
             !w.image(b.pcs[j]).opcode.ECALL?
    requires Sound(w, m) && m.x.hart.status != Aborted && Stops(w, m.x.hart, N) && fuel >= 3 * N + 4
    ensures RunCode(w.env, fuel, CodeOf(w, b, 0), AfterCall(w, b, j), m).Some?
    decreases fuel, 0, |b.pcs| - j, 7, 0
  {
    hide RunCode, RunJump, Sound, Stops, FunctionCodeFrom, FunctionOk, Placed, FallThrough;
    var ctx, full := ContextOf(b.pcs, j), CodeOf(w, b, 0);
    var after := FallThrough(ctx) + CodeOf(w, b, j + 1);
    assert PostCallCheck(ctx) + CodeOf(w, b, j + 1) == ComparePc(ctx.nextPc) + ([Jcc(CcNE, Exit)] + after);
    var m1 := CompareRuns(w, fuel, full, ctx.nextPc, [Jcc(CcNE, Exit)] + after, m);
    JccCode(w.env, fuel, full, CcNE, Exit, after, m1);
    if m.x.hart.pc != ctx.nextPc {
      ExitJump(w, fuel, b, m1);
    } else {
      HaltNeverReturns(w, b.pcs[j], m);
      FallEnds(w, fuel, b, j, m1, N);
    }
  }

  // call_trampoline, by whichever route.
  lemma CalleeEnds(w: World, fuel: nat, ret: bv64, m: Machine, N: nat)
    requires Placed(w) && w.env.maxBb > 0 && Sound(w, m) && m.x.hart.status == Running
    requires Stops(w, m.x.hart, N) && fuel >= 3 * N + 3
    ensures RunCall(w.env, fuel, m.x.hart.pc, ret, m).Some?
    decreases fuel, 3, 0, 0
  {
    hide EnsureJit, Lookup, RunCode, RunUntil, GoodRun, Stops, BlockOk;
    var h := m.x.hart;
    InCode(w, h);
    EnsureOk(w, m);
    var (m1, ok) := EnsureJit(w.env, h.pc, m);
    if !ok {
      UntilEnds(w, fuel, ret, m1, N);
    } else {
      LookupOk(w, h.pc, m1.cache);
      var (cache, found) := Lookup(w.env, !Paged(h), h.pc, m1.cache);
      if found.Some? && found.value.code.Some? {
        CodeEnds(w, fuel, found.value, m1.(cache := cache), N);
      }
    }
  }

  // The compiled code of the block of the current pc.
  lemma CodeEnds(w: World, fuel: nat, b: Block, m: Machine, N: nat)
    requires Placed(w) && w.env.maxBb > 0 && BlockOk(w, b) && b.startPc == m.x.hart.pc && b.code.Some? &&
             Sound(w, m) && m.x.hart.status == Running
    requires Stops(w, m.x.hart, N) && fuel >= 3 * N + 2
    ensures RunCode(w.env, fuel, b.code.value, b.code.value, m).Some?
    decreases fuel, 1, 0, 0
  {
    hide RunCode, CacheOk, HartOk, Stops, HasJumps, Distinct, FunctionCodeFrom, PlainCodeFrom;
    NothingRecorded(w, b.startPc);
    if b.isFunction {
      FunctionEnds(w, fuel, b, 0, m, N);
    } else {
      assert b.instrs[0..] == b.instrs;
      var _ := PlainRuns(w, fuel, b, b.code.value, 0, m);
    }
  }

  lemma {:induction false} InterpretEnds(w: World, fuel: nat, b: Block, idx: nat, h: Hart, executed: nat, N: nat)
    requires Recorded(w, b.startPc, b.instrs, b.execFns) && idx <= |b.instrs|
    requires HartOk(w, h) && h.status == Running && h.pc == PcAt(b.startPc, idx)
    requires Stops(w, h, N) && fuel >= N
    ensures Interpret(w.env, fuel, b, idx, h, executed).Some?
    decreases fuel, |b.instrs| - idx
  {
    hide Execute, HartOk, Retires, Good, Stops;
    if idx < |b.instrs| {
      StepOk(w, h);
      assert b.instrs[idx] == w.image(h.pc);
      var g := Execute(b.instrs[idx], h);
      StopsSooner(w, h, g, 1, N);
      if g.status == Running {
        if g.pc == Add(h.pc, 4) {
          InterpretEnds(w, fuel, b, idx + 1, g, executed + 1, N - 1);
        } else if g.pc == b.startPc {
          InterpretEnds(w, fuel - 1, b, 0, g, executed + 1, N - 1);
        }
      }
    }
  }

  lemma BlockEnds(w: World, fuel: nat, b: Block, m: Machine, N: nat)
    requires Placed(w) && w.env.maxBb > 0 && BlockOk(w, b) && b.startPc == m.x.hart.pc && Sound(w, m) &&
             m.x.hart.status == Running
    requires Stops(w, m.x.hart, N) && fuel >= 3 * N + 2
    ensures ExecBlock(w.env, fuel, b, m).Some?
    decreases fuel, 1, 1, 0
  {
    hide RunCode, Interpret, HartOk, Stops, CompileBlock;
    if b.code.Some? {
      CodeEnds(w, fuel, b, m, N);
    } else {
      NothingRecorded(w, b.startPc);
      InterpretEnds(w, fuel, b, 0, m.x.hart, 0, N);
    }
  }

  lemma StepEnds(w: World, fuel: nat, m: Machine, N: nat)
    requires Placed(w) && w.env.maxBb > 0 && Sound(w, m) && m.x.hart.status == Running
    requires Stops(w, m.x.hart, N) && fuel >= 3 * N + 2
    ensures SimStep(w.env, fuel, m).Some?
    decreases fuel, 2, 0, 0
  {
    hide Lookup, BuildAndInstall, ExecBlock, RecordBlock, CacheOk, GoodRun, Stops, IsExec, BlockOk;
    var h := m.x.hart;
    InCode(w, h);
    LookupOk(w, h.pc, m.cache);
    var (cache, found) := Lookup(w.env, !Paged(h), h.pc, m.cache);
    var m1 := m.(cache := cache);
    if found.Some? {
      BlockEnds(w, fuel, found.value, m1, N);
    } else if w.env.useJit {
      BuildOk(w, m1);
      if IsExec(w.env.ranges, h.pc) {
        var m2 := BuildAndInstall(w.env, h.pc, m1).value;
        LookupOk(w, h.pc, m2.cache);
        BuiltIsFound(w.env, h.pc, m1);
        var (cache3, built) := Lookup(w.env, !Paged(h), h.pc, m2.cache);
        BlockEnds(w, fuel, built.value, m2.(cache := cache3), N);
      }
    }
  }

  lemma {:induction false} UntilEnds(w: World, fuel: nat, ret: bv64, m: Machine, N: nat)
    requires Placed(w) && w.env.maxBb > 0 && Sound(w, m) && Stops(w, m.x.hart, N) && fuel >= 3 * N + 3
    ensures RunUntil(w.env, fuel, ret, m).Some?
    decreases fuel, 2, 0, 0
  {
    hide SimStep, Placed, CacheOk, HartOk, Retires, Stops;
    if m.x.hart.status == Running && m.x.hart.pc != ret {
      StepEnds(w, fuel - 1, m, N);
      var n := SimStepOk(w, fuel - 1, m);
      var (m', k) := SimStep(w.env, fuel - 1, m).value;
      StopsSooner(w, m.x.hart, m'.x.hart, n, N);
      UntilEnds(w, fuel - 1, ret, if EntersPlain(w.env, m) then Losing(m', k) else m', N - n);
    }
  }

  lemma {:induction false} MachineEnds(w: World, fuel: nat, max: nat, m: Machine, cycle: int, N: nat)
    requires Placed(w) && w.env.maxBb > 0 && Sound(w, m) && Stops(w, m.x.hart, N) && fuel >= 3 * N + 3
    ensures RunMachine(w.env, fuel, max, m, cycle).Some?
    ensures max == 0 ==> RunMachine(w.env, fuel, max, m, cycle).value.0.x.hart.status != Running
    decreases fuel
  {
    hide SimStep, Placed, CacheOk, HartOk, Retires, Stops;
    if !(max != 0 && cycle >= max) && m.x.hart.status == Running {
      StepEnds(w, fuel - 1, m, N);
      var n := SimStepOk(w, fuel - 1, m);
      var (m', k) := SimStep(w.env, fuel - 1, m).value;
      StopsSooner(w, m.x.hart, m'.x.hart, n, N);
      MachineEnds(w, fuel - 1, max, m', cycle + k, N - n);
    }
  }

  // A program the slow machine stops on within N instructions ends under every setting of the
  // simulator, in the very state the slow machine stops in.
  lemma StoppingProgramsStop(w: World, fuel: nat, h: Hart, cache: Slots, N: nat)
    requires Placed(w) && w.env.maxBb > 0 && HartOk(w, h) && CacheOk(w, cache)
    requires Stops(w, h, N) && fuel >= 3 * N + 3
    ensures var r := RunMachine(w.env, fuel, 0, Boot(h, cache), 0);
            r.Some? && r.value.0.x.hart == StepN(w.env.dec, N, h)
  {
    hide RunMachine, HartOk, CacheOk, StepN;
    MachineEnds(w, fuel, 0, Boot(h, cache), 0, N);
    var n := RunIsSlowRun(w, fuel, 0, h, cache);
    var g := RunMachine(w.env, fuel, 0, Boot(h, cache), 0).value.0.x.hart;
    StopsSooner(w, h, g, n, N);
    StepNAdd(w.env.dec, n, N - n, h);
    StoppedStays(w.env.dec, N - n, g);
  }

  lemma {:induction false} EndedHasStopped(env: Env, fuel: nat, m: Machine, cycle: int)
    requires RunMachine(env, fuel, 0, m, cycle).Some?
    ensures RunMachine(env, fuel, 0, m, cycle).value.0.x.hart.status != Running
    decreases fuel
  {
    hide SimStep;
    if m.x.hart.status == Running {
      var (m', k) := SimStep(env, fuel - 1, m).value;
      EndedHasStopped(env, fuel - 1, m', cycle + k);
    }
  }

  // The simulator's run ends if and only if the slow machine's does.
  lemma RunEndsIffMachineStops(w: World, h: Hart, cache: Slots)
    requires Placed(w) && w.env.maxBb > 0 && HartOk(w, h) && CacheOk(w, cache)
    ensures (exists fuel: nat :: RunMachine(w.env, fuel, 0, Boot(h, cache), 0).Some?) <==>
            exists N: nat :: Stops(w, h, N)
  {
    hide RunMachine, Placed, HartOk, CacheOk, Counted;
    if N: nat :| Stops(w, h, N) {
      StoppingProgramsStop(w, 3 * N + 3, h, cache, N);
    }
    if fuel: nat :| RunMachine(w.env, fuel, 0, Boot(h, cache), 0).Some? {
      var n := RunIsSlowRun(w, fuel, 0, h, cache);
      EndedHasStopped(w.env, fuel, Boot(h, cache), 0);
      assert Stops(w, h, n);
    }
  }

  // Whether a program ends does not depend on the settings either.
  lemma SettingsDoNotMatterForEnding(w1: World, w2: World, h: Hart, cache1: Slots, cache2: Slots)
    requires w1.env.dec == w2.env.dec && Placed(w1) && Placed(w2) && HartOk(w1, h) && HartOk(w2, h)
    requires w1.env.maxBb > 0 && w2.env.maxBb > 0 && CacheOk(w1, cache1) && CacheOk(w2, cache2)
    ensures (exists fuel: nat :: RunMachine(w1.env, fuel, 0, Boot(h, cache1), 0).Some?) <==>
            (exists fuel: nat :: RunMachine(w2.env, fuel, 0, Boot(h, cache2), 0).Some?)
  {
    hide RunMachine, Placed, HartOk, CacheOk, Counted;
    RunEndsIffMachineStops(w1, h, cache1);
    RunEndsIffMachineStops(w2, h, cache2);
    if N: nat :| Stops(w1, h, N) {
      assert Stops(w2, h, N);
    }
    if N: nat :| Stops(w2, h, N) {
      assert Stops(w1, h, N);
    }
  }
}
