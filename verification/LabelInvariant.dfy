/** The labels of compiled code mean what they say: whenever control passes the label of a pc, in
    whatever block and at whatever depth of nested calls, the pc cell holds that pc. */
module LabelInvariant {
  import opened Bits
  import opened Sv39
  import opened Isa
  import opened X86
  import opened Emit
  import opened EmitEffect
  import opened Compiler
  import opened Cfg
  import opened Reference
  import opened Sim
  import opened Simulation
  import opened JitSimulation

  // --- what a run passes ---

  predicate AtItsPc(i: Ins, h: Hart) { i.Bind? && i.l.At? ==> i.l.pc == h.pc }

  // Every label executed by this code, by what it jumps to and by what it calls, is the pc cell's,
  // as far as the fuel goes.
  ghost predicate OnLabels(env: Env, fuel: nat, full: seq<Ins>, rest: seq<Ins>, m: Machine)
    decreases fuel, 0, |rest|
  {
    rest == [] || m.x.hart.status == Aborted ||
    var i := rest[0];
    AtItsPc(i, m.x.hart) &&
    if i.Jmp? then JumpOnLabels(env, fuel, full, i.l, m)
    else if i.Jcc? then
      if m.x.cpu.Holds(i.cc) then JumpOnLabels(env, fuel, full, i.l, m) else OnLabels(env, fuel, full, rest[1..], m)
    else if i.CallTrampoline? then
      fuel > 0 ==>
        CallOnLabels(env, fuel - 1, m.x.cpu.rsi, m.x.cpu.rdx, m) &&
        match RunCall(env, fuel - 1, m.x.cpu.rsi, m.x.cpu.rdx, m)
        case None => true
        case Some(m') => OnLabels(env, fuel, full, rest[1..], Returned(env, m'))
    else OnLabels(env, fuel, full, rest[1..], m.(x := Exec(i, m.x, env.junk)))
  }

  ghost predicate JumpOnLabels(env: Env, fuel: nat, full: seq<Ins>, l: Label, m: Machine)
    decreases fuel, 0, 0
  {
    fuel > 0 ==> OnLabels(env, fuel - 1, full, From(full, l), m)
  }

  ghost predicate CallOnLabels(env: Env, fuel: nat, target: bv64, ret: bv64, m: Machine)
    decreases fuel, 3, 0
  {
    match EnsureJit(env, target, m)
    case (m', false) => UntilOnLabels(env, fuel, ret, m')
    case (m', true) => m'.x.hart.status == Aborted || FunctionOnLabels(env, fuel, target, m')
  }

  ghost predicate FunctionOnLabels(env: Env, fuel: nat, entry: bv64, m: Machine)
    decreases fuel, 2, 0
  {
    var (cache, found) := Lookup(env, !Paged(m.x.hart), entry, m.cache);
    found.Some? ==> BlockOnLabels(env, fuel, found.value, m.(cache := cache))
  }

  ghost predicate BlockOnLabels(env: Env, fuel: nat, b: Block, m: Machine)
    decreases fuel, 1, 0
  {
    b.code.Some? ==> OnLabels(env, fuel, b.code.value, b.code.value, m)
  }

  ghost predicate UntilOnLabels(env: Env, fuel: nat, ret: bv64, m: Machine)
    decreases fuel, 2, 0
  {
    m.x.hart.status != Running || m.x.hart.pc == ret || fuel == 0 ||
    (StepOnLabels(env, fuel - 1, m) &&
      match SimStep(env, fuel - 1, m)
      case None => true
      case Some((m', k)) => UntilOnLabels(env, fuel - 1, ret, if EntersPlain(env, m) then Losing(m', k) else m'))
  }

  ghost predicate StepOnLabels(env: Env, fuel: nat, m: Machine)
    decreases fuel, 2, 0
  {
    var h := m.x.hart;
    var (cache, found) := Lookup(env, !Paged(h), h.pc, m.cache);
    var m1 := m.(cache := cache);
    if found.Some? then BlockOnLabels(env, fuel, found.value, m1)
    else if !env.useJit then true
    else
      match BuildAndInstall(env, h.pc, m1)
      case None => true
      case Some(m2) =>
        var (cache3, built) := Lookup(env, !Paged(h), h.pc, m2.cache);
        m2.x.hart.status == Aborted || (built.Some? ==> BlockOnLabels(env, fuel, built.value, m2.(cache := cache3)))
  }

  ghost predicate RunOnLabels(env: Env, fuel: nat, max: nat, m: Machine, cycle: int)
    decreases fuel
  {
    (max != 0 && cycle >= max) || m.x.hart.status != Running || fuel == 0 ||
    (StepOnLabels(env, fuel - 1, m) &&
      match SimStep(env, fuel - 1, m)
      case None => true
      case Some((m', k)) => RunOnLabels(env, fuel - 1, max, m', cycle + k))
  }

  // --- straight code ---

  lemma {:induction false} StraightOnLabels(env: Env, fuel: nat, full: seq<Ins>, a: seq<Ins>, b: seq<Ins>, m: Machine)
    requires Straight(a) && NoBind(a)
    ensures OnLabels(env, fuel, full, a + b, m)
       <==> OnLabels(env, fuel, full, b, m.(x := Run(a, m.x, env.junk)))
    decreases |a|
  {
    hide Exec, CallOnLabels, RunCall;
    if a == [] {
      assert a + b == b;
    } else if m.x.hart.status == Aborted {
      AbortedStays(a, m.x, env.junk);
    } else {
      assert (a + b)[1..] == a[1..] + b && a[0] in a;
      assert forall i | i in a[1..] :: i in a;
      StraightOnLabels(env, fuel, full, a[1..], b, m.(x := Exec(a[0], m.x, env.junk)));
    }
  }

  lemma AbortedOnLabels(env: Env, fuel: nat, full: seq<Ins>, rest: seq<Ins>, m: Machine)
    requires m.x.hart.status == Aborted
    ensures OnLabels(env, fuel, full, rest, m)
  {}

  lemma ExitOnLabels(env: Env, fuel: nat, full: seq<Ins>, m: Machine)
    ensures OnLabels(env, fuel, full, [Bind(Exit)], m)
  {
    assert [Bind(Exit)][1..] == [];
    assert OnLabels(env, fuel, full, [], m.(x := Exec(Bind(Exit), m.x, env.junk)));
  }

  lemma JmpOnLabels(env: Env, fuel: nat, full: seq<Ins>, l: Label, rest: seq<Ins>, m: Machine)
    requires JumpOnLabels(env, fuel, full, l, m)
    ensures OnLabels(env, fuel, full, [Jmp(l)] + rest, m)
  {
    hide JumpOnLabels, CallOnLabels, Exec, RunCall;
  }

  lemma JccOnLabels(env: Env, fuel: nat, full: seq<Ins>, cc: Cond, l: Label, rest: seq<Ins>, m: Machine)
    requires m.x.cpu.Holds(cc) ==> JumpOnLabels(env, fuel, full, l, m)
    requires !m.x.cpu.Holds(cc) ==> OnLabels(env, fuel, full, rest, m)
    ensures OnLabels(env, fuel, full, [Jcc(cc, l)] + rest, m)
  {
    hide JumpOnLabels, CallOnLabels, Exec, RunCall, Cpu.Holds;
    assert ([Jcc(cc, l)] + rest)[1..] == rest;
  }

  lemma TrampolineOnLabels(env: Env, fuel: nat, full: seq<Ins>, rest: seq<Ins>, m: Machine)
    requires fuel > 0 ==>
               CallOnLabels(env, fuel - 1, m.x.cpu.rsi, m.x.cpu.rdx, m) &&
               match RunCall(env, fuel - 1, m.x.cpu.rsi, m.x.cpu.rdx, m)
               case None => true
               case Some(m') => OnLabels(env, fuel, full, rest, Returned(env, m'))
    ensures OnLabels(env, fuel, full, [CallTrampoline] + rest, m)
  {
    hide JumpOnLabels, CallOnLabels, Exec, RunCall;
    assert ([CallTrampoline] + rest)[1..] == rest;
  }

  lemma BindOnLabels(env: Env, fuel: nat, full: seq<Ins>, rest: seq<Ins>, m: Machine)
    requires OnLabels(env, fuel, full, rest, m)
    ensures OnLabels(env, fuel, full, [Bind(At(m.x.hart.pc))] + rest, m)
  {
    assert ([Bind(At(m.x.hart.pc))] + rest)[1..] == rest;
    hide JumpOnLabels, CallOnLabels, RunCall;
  }

  lemma ExitJumpOnLabels(w: World, fuel: nat, b: Block, m: Machine)
    requires |b.pcs| == |b.instrs|
    ensures JumpOnLabels(w.env, fuel, CodeOf(w, b, 0), Exit, m)
  {
    hide FunctionCodeFrom, OnLabels;
    FromExit(Direct(w), b.instrs, b.pcs, 0);
    if fuel > 0 {
      ExitOnLabels(w.env, fuel - 1, CodeOf(w, b, 0), m);
    }
  }

  // --- function blocks ---

  function Body(direct: bool, i: Instr): seq<Ins> { [IncCounter] + DataCode(direct, i) }

  lemma BodyIsStraight(direct: bool, i: Instr)
    ensures Straight(Body(direct, i)) && NoBind(Body(direct, i))
  {
    hide DataCode;
    DataCodeIsStraight(direct, i);
    DataCodeBindsNothing(direct, i);
  }

  lemma HeadIsBody(direct: bool, i: Instr, pc: bv64, rest: seq<Ins>)
    ensures Head(direct, i, pc) + rest == [Bind(At(pc))] + (Body(direct, i) + rest)
  {}

  lemma BindThenBody(direct: bool, i: Instr, pc: bv64, x: State, junk: bv64)
    ensures Run(Head(direct, i, pc), x, junk) == Run(Body(direct, i), x, junk)
  {
    hide Run, DataCode;
    assert Head(direct, i, pc) == [Bind(At(pc))] + Body(direct, i);
    RunAppend([Bind(At(pc))], Body(direct, i), x, junk);
    Run1(Bind(At(pc)), x, junk);
  }

  // The label of instruction j with the pc cell there, and what its data code leaves.
  lemma HeadOnLabels(w: World, fuel: nat, b: Block, j: nat, m: Machine) returns (m': Machine)
    requires FunctionOk(w, b) && j < |b.pcs| == |b.instrs|
    requires Sound(w, m) && m.x.hart.status == Running && m.x.hart.pc == b.pcs[j]
    ensures OnLabels(w.env, fuel, CodeOf(w, b, 0), Rest(w, b, j), m') ==>
              OnLabels(w.env, fuel, CodeOf(w, b, 0), CodeOf(w, b, j), m)
    ensures m'.x.hart == Execute(b.instrs[j], m.x.hart) && Sound(w, m') && m' == m.(x := m'.x)
  {
    hide Execute, Agrees, OnLabels, Head, Body, Rest, CodeOf, Run, Retires, CacheOk, HartOk, Compilable, IsExec,
         Distinct, CompileBlock, Cell, RunCode;
    var i, full := b.instrs[j], CodeOf(w, b, 0);
    m' := HeadRunsTo(w, b, j, m);
    CodeSplits(w, b, j);
    BodyIsStraight(Direct(w), i);
    HeadIsBody(Direct(w), i, b.pcs[j], Rest(w, b, j));
    StraightOnLabels(w.env, fuel, full, Body(Direct(w), i), Rest(w, b, j), m);
    if OnLabels(w.env, fuel, full, Rest(w, b, j), m') {
      BindOnLabels(w.env, fuel, full, Body(Direct(w), i) + Rest(w, b, j), m);
    }
  }

  lemma HeadRunsTo(w: World, b: Block, j: nat, m: Machine) returns (m': Machine)
    requires FunctionOk(w, b) && j < |b.pcs| == |b.instrs|
    requires Sound(w, m) && m.x.hart.status == Running && m.x.hart.pc == b.pcs[j]
    ensures m' == m.(x := Run(Body(Direct(w), b.instrs[j]), m.x, w.env.junk))
    ensures m'.x.hart == Execute(b.instrs[j], m.x.hart) && Sound(w, m')
  {
    hide Execute, Agrees, Head, Body, Run, Retires, CacheOk, Compilable, IsExec, Distinct, CompileBlock, Cell;
    var i := b.instrs[j];
    StepOk(w, m.x.hart);
    CompilableNext(w, m.x.hart);
    InstrIsImage(w, b, j);
    HeadEffect(Direct(w), i, b.pcs[j], m.x, w.env.junk);
    BindThenBody(Direct(w), i, b.pcs[j], m.x, w.env.junk);
    m' := m.(x := Run(Body(Direct(w), i), m.x, w.env.junk));
  }

  // From the label of an instruction, with the pc cell there, every label passed is the pc cell's,
  // nested calls included, whether or not the code ends.
  lemma {:induction false} FunctionOnItsLabels(w: World, fuel: nat, b: Block, j: nat, m: Machine)
    requires Placed(w) && FunctionOk(w, b) && j < |b.pcs| == |b.instrs|
    requires Sound(w, m) && m.x.hart.status == Running && m.x.hart.pc == b.pcs[j]
    ensures OnLabels(w.env, fuel, CodeOf(w, b, 0), CodeOf(w, b, j), m)
    decreases fuel, 0, |b.pcs| - j, 9
  {
    hide Execute, OnLabels, CodeOf, Rest, FunctionOk, CacheOk, HartOk, Placed;
    var m1 := HeadOnLabels(w, fuel, b, j, m);
    if m1.x.hart.status == Aborted {
      AbortedOnLabels(w.env, fuel, CodeOf(w, b, 0), Rest(w, b, j), m1);
    } else {
      TailOnLabels(w, fuel, b, j, m.x.hart, m1);
    }
  }

  lemma TailOnLabels(w: World, fuel: nat, b: Block, j: nat, h: Hart, m: Machine)
    requires Placed(w) && FunctionOk(w, b) && j < |b.pcs| == |b.instrs|
    requires Sound(w, m) && h.status == Running && h.pc == b.pcs[j] && m.x.hart == Execute(b.instrs[j], h) &&
             m.x.hart.status != Aborted
    ensures OnLabels(w.env, fuel, CodeOf(w, b, 0), Rest(w, b, j), m)
    decreases fuel, 0, |b.pcs| - j, 8
  {
    hide Execute, OnLabels, JumpOnLabels, Sound, FunctionCodeFrom, FunctionOk, Placed, PostCallCheck, EmitCall,
         FallThrough, BranchDispatch;
    var i, rest := b.instrs[j], CodeOf(w, b, j + 1);
    ExecuteFlow(i, h);
    InstrIsImage(w, b, j);
    if IsBranch(i.opcode) {
      BranchOnLabels(w, fuel, b, j, Target(i, h.pc), m);
    } else if i.opcode.JAL? {
      if i.rd == 0 {
        ToPcOnLabels(w, fuel, b, m);
        JmpOnLabels(w.env, fuel, CodeOf(w, b, 0), LabelOf(Target(i, h.pc), b.pcs), rest, m);
      } else {
        LinkOnLabels(w, fuel, b, j, Const(Target(i, h.pc)), m);
      }
    } else if i.opcode.JALR? && i.rd != 0 {
      LinkOnLabels(w, fuel, b, j, PcCell, m);
    } else if i.opcode.JALR? || i.opcode.ECALL? {
      ExitJumpOnLabels(w, fuel, b, m);
      JmpOnLabels(w.env, fuel, CodeOf(w, b, 0), Exit, rest, m);
    } else {
      FallOnLabels(w, fuel, b, j, m);
    }
  }

  // A jump to wherever the pc cell points: its label, or the exit.
  lemma ToPcOnLabels(w: World, fuel: nat, b: Block, m: Machine)
    requires Placed(w) && FunctionOk(w, b) && |b.pcs| == |b.instrs| && Sound(w, m) && m.x.hart.status == Running
    ensures JumpOnLabels(w.env, fuel, CodeOf(w, b, 0), LabelOf(m.x.hart.pc, b.pcs), m)
    decreases fuel, 0, 0, 5
  {
    hide OnLabels, Sound, FunctionCodeFrom, IsExec;
    if m.x.hart.pc in b.pcs && fuel > 0 {
      var j: nat :| j < |b.pcs| && b.pcs[j] == m.x.hart.pc;
      FromLabel(Direct(w), b.instrs, b.pcs, 0, j);
      FunctionOnItsLabels(w, fuel - 1, b, j, m);
    } else {
      ExitJumpOnLabels(w, fuel, b, m);
    }
  }

  lemma FallOnLabels(w: World, fuel: nat, b: Block, j: nat, m: Machine)
    requires Placed(w) && FunctionOk(w, b) && j < |b.pcs| == |b.instrs|
    requires Sound(w, m) && m.x.hart.status == Running && m.x.hart.pc == Add(b.pcs[j], 4)
    ensures OnLabels(w.env, fuel, CodeOf(w, b, 0), FallThrough(ContextOf(b.pcs, j)) + CodeOf(w, b, j + 1), m)
    decreases fuel, 0, |b.pcs| - j, 6
  {
    hide OnLabels, JumpOnLabels, Sound, FunctionCodeFrom, Placed, IsExec;
    var ctx, rest := ContextOf(b.pcs, j), CodeOf(w, b, j + 1);
    if ctx.fallthroughIsNext {
      assert [] + rest == rest;
      FunctionOnItsLabels(w, fuel, b, j + 1, m);
    } else {
      ToPcOnLabels(w, fuel, b, m);
      JmpOnLabels(w.env, fuel, CodeOf(w, b, 0), LabelOf(ctx.nextPc, b.pcs), rest, m);
    }
  }

  lemma BranchOnLabels(w: World, fuel: nat, b: Block, j: nat, target: bv64, m: Machine)
    requires Placed(w) && FunctionOk(w, b) && j < |b.pcs| == |b.instrs|
    requires Sound(w, m) && m.x.hart.status == Running && (m.x.hart.pc == target || m.x.hart.pc == Add(b.pcs[j], 4))
    ensures OnLabels(w.env, fuel, CodeOf(w, b, 0), BranchDispatch(target, ContextOf(b.pcs, j)) + CodeOf(w, b, j + 1), m)
    decreases fuel, 0, |b.pcs| - j, 7
  {
    hide OnLabels, JumpOnLabels, Sound, FunctionCodeFrom, FunctionOk, Placed, Add;
    var ctx, full, rest := ContextOf(b.pcs, j), CodeOf(w, b, 0), CodeOf(w, b, j + 1);
    if target !in b.pcs || ctx.nextPc !in b.pcs {
      ExitJumpOnLabels(w, fuel, b, m);
      JmpOnLabels(w.env, fuel, full, Exit, rest, m);
    } else {
      var jumps := [Jcc(CcE, At(target))] + ([Jmp(At(ctx.nextPc))] + rest);
      assert BranchDispatch(target, ctx) + rest == ComparePc(target) + jumps;
      var m1 := CompareOnLabels(w, fuel, full, target, jumps, m);
      ToPcOnLabels(w, fuel, b, m1);
      if m.x.hart.pc != target {
        JmpOnLabels(w.env, fuel, full, At(ctx.nextPc), rest, m1);
      }
      JccOnLabels(w.env, fuel, full, CcE, At(target), [Jmp(At(ctx.nextPc))] + rest, m1);
    }
  }

  lemma CompareOnLabels(w: World, fuel: nat, full: seq<Ins>, pc: bv64, rest: seq<Ins>, m: Machine) returns (m': Machine)
    requires m.x.hart.status != Aborted
    ensures OnLabels(w.env, fuel, full, rest, m') ==> OnLabels(w.env, fuel, full, ComparePc(pc) + rest, m)
    ensures m' == m.(x := m.x.(cpu := m'.x.cpu))
    ensures m'.x.cpu.Holds(CcE) == (m.x.hart.pc == pc) && m'.x.cpu.Holds(CcNE) == (m.x.hart.pc != pc)
    ensures Sound(w, m) ==> Sound(w, m')
  {
    hide OnLabels, CacheOk, HartOk;
    StraightOnLabels(w.env, fuel, full, ComparePc(pc), rest, m);
    m' := m.(x := Run(ComparePc(pc), m.x, w.env.junk));
    CompareEffect(pc, m.x, w.env.junk);
  }

  lemma ArgumentsBindNothing(target: Operand, ret: bv64)
    ensures Straight(CallArguments(target, ret)) && NoBind(CallArguments(target, ret))
  {}

  // A linking jump: the call and what follows it.
  lemma LinkOnLabels(w: World, fuel: nat, b: Block, j: nat, target: Operand, m: Machine)
    requires Placed(w) && FunctionOk(w, b) && j < |b.pcs| == |b.instrs| && !w.image(b.pcs[j]).opcode.ECALL?
    requires Sound(w, m) && m.x.hart.status == Running && (target == PcCell || target == Const(m.x.hart.pc))
    ensures var ctx := ContextOf(b.pcs, j);
            OnLabels(w.env, fuel, CodeOf(w, b, 0), EmitCall(target, ctx.nextPc) + PostCallCheck(ctx) +
              CodeOf(w, b, j + 1), m)
    decreases fuel, 0, |b.pcs| - j, 7
  {
    hide OnLabels, CallOnLabels, RunCall, CodeOf, FunctionOk, Placed, Sound, Done, PostCallCheck, CallArguments,
         EmitCall, Run;
    var ret, full, after := ContextOf(b.pcs, j).nextPc, CodeOf(w, b, 0), AfterCall(w, b, j);
    CallSplits(w, b, j, target);
    ArgumentsBindNothing(target, ret);
    StraightOnLabels(w.env, fuel, full, CallArguments(target, ret), [CallTrampoline] + after, m);
    CallArgumentsEffect(target, ret, m.x, w.env.junk);
    var m1 := m.(x := Run(CallArguments(target, ret), m.x, w.env.junk));
    CpuIsFree(w, m, m1.x.cpu);
    if fuel > 0 {
      CallOnItsLabels(w, fuel - 1, ret, m1);
      if RunCall(w.env, fuel - 1, m.x.hart.pc, ret, m1).Some? {
        var k := CallOk(w, fuel - 1, ret, m1);
        ReturnOnLabels(w, fuel, b, j, m1, RunCall(w.env, fuel - 1, m.x.hart.pc, ret, m1).value, k);
      }
    }
    TrampolineOnLabels(w.env, fuel, full, after, m1);
  }

  lemma ReturnOnLabels(w: World, fuel: nat, b: Block, j: nat, m: Machine, back: Machine, k: nat)
    requires Placed(w) && FunctionOk(w, b) && j < |b.pcs| == |b.instrs| && !w.image(b.pcs[j]).opcode.ECALL?
    requires Done(w, m, back, k)
    ensures OnLabels(w.env, fuel, CodeOf(w, b, 0), AfterCall(w, b, j), Returned(w.env, back))
    decreases fuel, 0, |b.pcs| - j, 7, 1
  {
    hide OnLabels, CodeOf, FunctionOk, Placed, CacheOk, HartOk, Retires, AfterCall;
    var m2 := Returned(w.env, back);
    if m2.x.hart.status == Aborted {
      AbortedOnLabels(w.env, fuel, CodeOf(w, b, 0), AfterCall(w, b, j), m2);
    } else {
      PostCallOnLabels(w, fuel, b, j, m2);
    }
  }

  lemma PostCallOnLabels(w: World, fuel: nat, b: Block, j: nat, m: Machine)
    requires Placed(w) && FunctionOk(w, b) && j < |b.pcs| == |b.instrs| && !w.image(b.pcs[j]).opcode.ECALL?
    requires Sound(w, m) && m.x.hart.status != Aborted
    ensures OnLabels(w.env, fuel, CodeOf(w, b, 0), AfterCall(w, b, j), m)
    decreases fuel, 0, |b.pcs| - j, 7, 0
  {
    hide OnLabels, JumpOnLabels, Sound, FunctionCodeFrom, FunctionOk;
    var ctx, full := ContextOf(b.pcs, j), CodeOf(w, b, 0);
    var after := FallThrough(ctx) + CodeOf(w, b, j + 1);
    assert PostCallCheck(ctx) + CodeOf(w, b, j + 1) == ComparePc(ctx.nextPc) + ([Jcc(CcNE, Exit)] + after);
    var m1 := CompareOnLabels(w, fuel, full, ctx.nextPc, [Jcc(CcNE, Exit)] + after, m);
    if m.x.hart.pc != ctx.nextPc {
      ExitJumpOnLabels(w, fuel, b, m1);
    } else {
      HaltNeverReturns(w, b.pcs[j], m);
      FallOnLabels(w, fuel, b, j, m1);
    }
    JccOnLabels(w.env, fuel, full, CcNE, Exit, after, m1);
  }

  // --- plain blocks have no labels but their exit ---

  lemma {:induction false} PlainIsStraight(direct: bool, instrs: seq<Instr>)
    requires forall i | i in instrs :: !i.opcode.ECALL?
    ensures Straight(PlainCodeFrom(direct, instrs))
    ensures forall i | i in PlainCodeFrom(direct, instrs) :: i.Bind? ==> i.l == Exit
    decreases |instrs|
  {
    hide DataCode;
    if instrs != [] {
      var i := instrs[0];
      assert i in instrs;
      assert forall x | x in instrs[1..] :: x in instrs;
      DataCodeIsStraight(direct, i);
      DataCodeBindsNothing(direct, i);
      PlainIsStraight(direct, instrs[1..]);
    }
  }

  lemma {:induction false} NoLabelsOnLabels(env: Env, fuel: nat, full: seq<Ins>, rest: seq<Ins>, m: Machine)
    requires Straight(rest) && forall i | i in rest :: i.Bind? ==> i.l == Exit
    ensures OnLabels(env, fuel, full, rest, m)
    decreases |rest|
  {
    hide Exec, CallOnLabels, RunCall, JumpOnLabels;
    if rest != [] {
      assert rest[0] in rest;
      assert forall i | i in rest[1..] :: i in rest;
      NoLabelsOnLabels(env, fuel, full, rest[1..], m.(x := Exec(rest[0], m.x, env.junk)));
    }
  }

  // --- blocks, steps, calls and runs ---

  lemma BlockOnItsLabels(w: World, fuel: nat, b: Block, m: Machine)
    requires Placed(w) && BlockOk(w, b) && b.startPc == m.x.hart.pc && Sound(w, m) && m.x.hart.status == Running
    ensures BlockOnLabels(w.env, fuel, b, m)
    decreases fuel, 1, 0, 0
  {
    hide OnLabels, Placed, CacheOk, HartOk, IsExec, HasJumps, FunctionCodeFrom, PlainCodeFrom;
    if b.isFunction {
      FunctionOnItsLabels(w, fuel, b, 0, m);
    } else if b.code.Some? {
      PlainIsStraight(Direct(w), b.instrs);
      NoLabelsOnLabels(w.env, fuel, b.code.value, b.code.value, m);
    }
  }

  lemma StepOnItsLabels(w: World, fuel: nat, m: Machine)
    requires Placed(w) && Sound(w, m) && m.x.hart.status == Running
    ensures StepOnLabels(w.env, fuel, m)
    decreases fuel, 2, 0, 0
  {
    hide Lookup, BuildAndInstall, BlockOnLabels, Placed, CacheOk, GoodRun, BlockOk, Mode, BehindEcall;
    var h := m.x.hart;
    InCode(w, h);
    LookupOk(w, h.pc, m.cache);
    var (cache, found) := Lookup(w.env, !Paged(h), h.pc, m.cache);
    var m1 := m.(cache := cache);
    if found.Some? {
      BlockOnItsLabels(w, fuel, found.value, m1);
    } else if w.env.useJit {
      BuildOk(w, m1);
      if IsExec(w.env.ranges, h.pc) {
        var m2 := BuildAndInstall(w.env, h.pc, m1).value;
        LookupOk(w, h.pc, m2.cache);
        BuiltIsFound(w.env, h.pc, m1);
        var (cache3, built) := Lookup(w.env, !Paged(h), h.pc, m2.cache);
        BlockOnItsLabels(w, fuel, built.value, m2.(cache := cache3));
      }
    }
  }

  lemma {:induction false} UntilOnItsLabels(w: World, fuel: nat, ret: bv64, m: Machine)
    requires Placed(w) && Sound(w, m)
    ensures UntilOnLabels(w.env, fuel, ret, m)
    decreases fuel, 2, 0, 0
  {
    hide SimStep, StepOnLabels, Placed, CacheOk, HartOk, Retires, EntersPlain;
    if m.x.hart.status == Running && m.x.hart.pc != ret && fuel > 0 {
      StepOnItsLabels(w, fuel - 1, m);
      var r := SimStep(w.env, fuel - 1, m);
      if r.Some? {
        var n := SimStepOk(w, fuel - 1, m);
        var (m', k) := r.value;
        UntilOnItsLabels(w, fuel - 1, ret, if EntersPlain(w.env, m) then Losing(m', k) else m');
      }
    }
  }

  lemma CallOnItsLabels(w: World, fuel: nat, ret: bv64, m: Machine)
    requires Placed(w) && Sound(w, m) && m.x.hart.status == Running
    ensures CallOnLabels(w.env, fuel, m.x.hart.pc, ret, m)
    decreases fuel, 3, 0, 0
  {
    hide EnsureJit, Lookup, BlockOnLabels, UntilOnLabels, Placed, CacheOk, GoodRun, IsExec, BlockOk, Mode, Cell,
         BehindEcall;
    var h := m.x.hart;
    InCode(w, h);
    EnsureOk(w, m);
    var (m1, ok) := EnsureJit(w.env, h.pc, m);
    if !ok {
      UntilOnItsLabels(w, fuel, ret, m1);
    } else {
      LookupOk(w, h.pc, m1.cache);
      var (cache, found) := Lookup(w.env, !Paged(h), h.pc, m1.cache);
      if found.Some? {
        BlockOnItsLabels(w, fuel, found.value, m1.(cache := cache));
      }
    }
  }

  // A whole run, whatever its settings, passes no label with the pc cell elsewhere.
  lemma {:induction false} RunOnItsLabels(w: World, fuel: nat, max: nat, m: Machine, cycle: int)
    requires Placed(w) && Sound(w, m)
    ensures RunOnLabels(w.env, fuel, max, m, cycle)
    decreases fuel
  {
    hide SimStep, StepOnLabels, Placed, CacheOk, HartOk, Retires;
    if !(max != 0 && cycle >= max) && m.x.hart.status == Running && fuel > 0 {
      StepOnItsLabels(w, fuel - 1, m);
      var r := SimStep(w.env, fuel - 1, m);
      if r.Some? {
        var n := SimStepOk(w, fuel - 1, m);
        RunOnItsLabels(w, fuel - 1, max, r.value.0, cycle + r.value.1);
      }
    }
  }
}
