/** The main simulation: compiled functions, plain compiled blocks, cached blocks, recordings and
    nested calls, by mutual induction on the fuel of the simulator's functions. */
module JitSimulation {
  import opened Bits
  import opened Sv39
  import opened Isa
  import opened X86
  import opened Emit
  import opened EmitAgrees
  import opened EmitEffect
  import opened Compiler
  import opened Cfg
  import opened Reference
  import opened Sim
  import opened SlotIndex
  import opened Simulation

  ghost predicate Sound(w: World, m: Machine) { CacheOk(w, m.cache) && HartOk(w, m.x.hart) }

  // r is m after n single steps.
  ghost predicate Done(w: World, m: Machine, r: Machine, n: nat)
  {
    Retires(w.env.dec, n, m.x.hart, r.x.hart) && Sound(w, r)
  }

  // Every plain compiled block executed inside a nested call loses at least one instruction, and
  // nothing else does.
  ghost predicate History(m: Machine, r: Machine)
  {
    m.plainCalls <= r.plainCalls && r.plainCalls - m.plainCalls <= r.lost - m.lost &&
    (r.plainCalls == m.plainCalls ==> r.lost == m.lost)
  }

  // What the counter and the history say about n steps; of an aborted process only the history.
  ghost predicate Tally(w: World, m: Machine, r: Machine, n: nat)
  {
    History(m, r) &&
    (r.x.hart.status == Aborted ||
     (r.x.count - m.x.count + r.lost - m.lost == n && (Counted(w) ==> r.plainCalls == m.plainCalls)))
  }

  lemma DoneTwice(w: World, a: Machine, b: Machine, c: Machine, m: nat, n: nat)
    requires Done(w, a, b, m) && Tally(w, a, b, m) && Done(w, b, c, n) && Tally(w, b, c, n)
    requires b.x.hart.status != Aborted
    ensures Done(w, a, c, m + n) && Tally(w, a, c, m + n)
  {
    hide Sound, Counted;
    RetiresAdd(w.env.dec, m, n, a.x.hart, b.x.hart, c.x.hart);
  }

  lemma DoneNothing(w: World, m: Machine)
    requires Sound(w, m)
    ensures Done(w, m, m, 0) && Tally(w, m, m, 0)
  {
    hide Sound;
  }

  lemma {:induction false} RunStraight(env: Env, fuel: nat, full: seq<Ins>, a: seq<Ins>, b: seq<Ins>, m: Machine)
    requires Straight(a)
    ensures RunCode(env, fuel, full, a + b, m) == RunCode(env, fuel, full, b, m.(x := Run(a, m.x, env.junk)))
    decreases |a|
  {
    hide Exec, RunCall;
    if a == [] {
      assert a + b == b;
    } else if m.x.hart.status == Aborted {
      AbortedStays(a, m.x, env.junk);
    } else {
      assert (a + b)[1..] == a[1..] + b && a[0] in a;
      assert forall i | i in a[1..] :: i in a;
      RunStraight(env, fuel, full, a[1..], b, m.(x := Exec(a[0], m.x, env.junk)));
    }
  }

  function Head(direct: bool, i: Instr, pc: bv64): seq<Ins> { [Bind(At(pc)), IncCounter] + DataCode(direct, i) }

  lemma HeadIsStraight(direct: bool, i: Instr, pc: bv64)
    ensures Straight(Head(direct, i, pc))
  {
    DataCodeIsStraight(direct, i);
  }

  // The counter and data code of an instruction make one step and count it.
  lemma HeadEffect(direct: bool, i: Instr, pc: bv64, x: State, junk: bv64)
    requires Ready(direct, x) && Emittable(i) && Agrees(i, x.hart)
    ensures var y := Run(Head(direct, i, pc), x, junk);
            y.hart == Execute(i, x.hart) && y.count == x.count + 1
  {
    hide DataCode, Execute, Agrees, Run, Store, DoOp;
    RunAppend([Bind(At(pc)), IncCounter], DataCode(direct, i), x, junk);
    Run2(Bind(At(pc)), IncCounter, x, junk);
    CodeAgrees(direct, i, Run([Bind(At(pc)), IncCounter], x, junk), junk);
  }

  lemma FunctionCodeSplits(direct: bool, b: Block, j: nat)
    requires |b.pcs| == |b.instrs| && j < |b.pcs|
    ensures FunctionCodeFrom(direct, b.instrs, b.pcs, j)
         == Head(direct, b.instrs[j], b.pcs[j]) +
           (Tail(b.instrs[j], ContextOf(b.pcs, j)) + FunctionCodeFrom(direct, b.instrs, b.pcs, j + 1))
  {
    hide Tail, ContextOf;
  }

  function CodeOf(w: World, b: Block, j: nat): seq<Ins>
    requires |b.pcs| == |b.instrs| && j <= |b.pcs|
  {
    FunctionCodeFrom(Direct(w), b.instrs, b.pcs, j)
  }

  // A jump to the exit label leaves compiled code and changes nothing.
  lemma ExitJump(w: World, fuel: nat, b: Block, m: Machine)
    requires |b.pcs| == |b.instrs|
    ensures RunJump(w.env, fuel, CodeOf(w, b, 0), Exit, m) == if fuel == 0 then None else Some(m)
  {
    hide FunctionCodeFrom;
    FromExit(Direct(w), b.instrs, b.pcs, 0);
    if fuel > 0 {
      RunExit(w.env, fuel - 1, CodeOf(w, b, 0), m);
    }
  }

  lemma AbortedEnds(env: Env, fuel: nat, full: seq<Ins>, rest: seq<Ins>, m: Machine)
    requires m.x.hart.status == Aborted
    ensures RunCode(env, fuel, full, rest, m) == Some(m)
  {}

  lemma CompilableNext(w: World, h: Hart)
    requires Compilable(w, h)
    ensures Emittable(w.image(h.pc)) && Agrees(w.image(h.pc), h)
  {}

  lemma RunExit(env: Env, fuel: nat, full: seq<Ins>, m: Machine)
    ensures RunCode(env, fuel, full, [Bind(Exit)], m) == Some(m)
  {
    assert [Bind(Exit)][1..] == [];
    assert RunCode(env, fuel, full, [], m) == Some(m);
  }

  function Rest(w: World, b: Block, j: nat): seq<Ins>
    requires j < |b.pcs| == |b.instrs|
  {
    Tail(b.instrs[j], ContextOf(b.pcs, j)) + CodeOf(w, b, j + 1)
  }

  // The head of an instruction's code makes exactly that step and counts it.
  lemma HeadRuns(w: World, fuel: nat, b: Block, j: nat, m: Machine) returns (m': Machine)
    requires FunctionOk(w, b) && j < |b.pcs| == |b.instrs|
    requires Sound(w, m) && m.x.hart.status == Running && m.x.hart.pc == b.pcs[j]
    ensures RunCode(w.env, fuel, CodeOf(w, b, 0), CodeOf(w, b, j), m)
            == RunCode(w.env, fuel, CodeOf(w, b, 0), Rest(w, b, j), m')
    ensures m'.x.hart == Execute(b.instrs[j], m.x.hart) && Done(w, m, m', 1) && Tally(w, m, m', 1)
    ensures m' == m.(x := m'.x)
  {
    hide Execute, Agrees, RunCode, Head, Rest, CodeOf, Run, Retires, CacheOk, Counted, Compilable, IsExec, Distinct,
         CompileBlock, Cell;
    var i := b.instrs[j];
    StepOk(w, m.x.hart);
    CompilableNext(w, m.x.hart);
    InstrIsImage(w, b, j);
    CodeSplits(w, b, j);
    HeadIsStraight(Direct(w), i, b.pcs[j]);
    RunStraight(w.env, fuel, CodeOf(w, b, 0), Head(Direct(w), i, b.pcs[j]), Rest(w, b, j), m);
    HeadEffect(Direct(w), i, b.pcs[j], m.x, w.env.junk);
    m' := m.(x := Run(Head(Direct(w), i, b.pcs[j]), m.x, w.env.junk));
  }

  lemma CodeSplits(w: World, b: Block, j: nat)
    requires j < |b.pcs| == |b.instrs|
    ensures CodeOf(w, b, j) == Head(Direct(w), b.instrs[j], b.pcs[j]) + Rest(w, b, j)
  {
    FunctionCodeSplits(Direct(w), b, j);
  }

  // Compiled code from the label of instruction j, where control is at that instruction's pc.
  lemma {:induction false} FunctionRuns(w: World, fuel: nat, b: Block, j: nat, m: Machine) returns (n: nat)
    requires Placed(w) && FunctionOk(w, b) && j < |b.pcs| == |b.instrs|
    requires Sound(w, m) && m.x.hart.status == Running && m.x.hart.pc == b.pcs[j]
    ensures var r := RunCode(w.env, fuel, CodeOf(w, b, 0), CodeOf(w, b, j), m);
            r.Some? ==> Done(w, m, r.value, n) && Tally(w, m, r.value, n)
    ensures n > 0
    decreases fuel, 0, |b.pcs| - j, 9
  {
    hide Execute, RunCode, CodeOf, Rest, Retires, FunctionOk, CacheOk, HartOk;
    var m1 := HeadRuns(w, fuel, b, j, m);
    n := 1;
    if m1.x.hart.status == Aborted {
      AbortedEnds(w.env, fuel, CodeOf(w, b, 0), Rest(w, b, j), m1);
    } else {
      var k := TailRuns(w, fuel, b, j, m.x.hart, m1);
      n := 1 + k;
      var r := RunCode(w.env, fuel, CodeOf(w, b, 0), Rest(w, b, j), m1);
      if r.Some? {
        DoneTwice(w, m, m1, r.value, 1, k);
      }
    }
  }

  // The control-flow code after instruction j, which has taken h to m's hart.
  lemma TailRuns(w: World, fuel: nat, b: Block, j: nat, h: Hart, m: Machine) returns (n: nat)
    requires Placed(w) && FunctionOk(w, b) && j < |b.pcs| == |b.instrs|
    requires Sound(w, m) && h.status == Running && h.pc == b.pcs[j] && m.x.hart == Execute(b.instrs[j], h) &&
             m.x.hart.status != Aborted
    ensures var r := RunCode(w.env, fuel, CodeOf(w, b, 0), Rest(w, b, j), m);
            r.Some? ==> Done(w, m, r.value, n) && Tally(w, m, r.value, n)
    decreases fuel, 0, |b.pcs| - j, 8
  {
    hide Execute, RunCode, Sound, Done, FunctionCodeFrom, FunctionOk, Placed, Counted, PostCallCheck, EmitCall,
         FallThrough, BranchDispatch;
    var i, ctx, rest := b.instrs[j], ContextOf(b.pcs, j), CodeOf(w, b, j + 1);
    ExecuteFlow(i, h);
    InstrIsImage(w, b, j);
    if IsBranch(i.opcode) {
      n := BranchRuns(w, fuel, b, j, Target(i, h.pc), m);
    } else if i.opcode.JAL? {
      if i.rd == 0 {
        JumpCode(w.env, fuel, CodeOf(w, b, 0), LabelOf(Target(i, h.pc), b.pcs), rest, m);
        n := JumpRuns(w, fuel, b, m);
      } else {
        n := CallRuns(w, fuel, b, j, Const(Target(i, h.pc)), m);
      }
    } else if i.opcode.JALR? && i.rd != 0 {
      n := CallRuns(w, fuel, b, j, PcCell, m);
    } else if i.opcode.JALR? || i.opcode.ECALL? {
      JumpCode(w.env, fuel, CodeOf(w, b, 0), Exit, rest, m);
      ExitJump(w, fuel, b, m);
      DoneNothing(w, m);
      n := 0;
    } else {
      n := FallRuns(w, fuel, b, j, m);
    }
  }

  lemma InstrIsImage(w: World, b: Block, j: nat)
    requires FunctionOk(w, b) && j < |b.pcs|
    ensures b.instrs[j] == w.image(b.pcs[j])
  {}

  lemma JumpCode(env: Env, fuel: nat, full: seq<Ins>, l: Label, rest: seq<Ins>, m: Machine)
    requires m.x.hart.status != Aborted
    ensures RunCode(env, fuel, full, [Jmp(l)] + rest, m) == RunJump(env, fuel, full, l, m)
  {
    hide RunCall, Exec;
  }

  lemma JccCode(env: Env, fuel: nat, full: seq<Ins>, cc: Cond, l: Label, rest: seq<Ins>, m: Machine)
    requires m.x.hart.status != Aborted
    ensures RunCode(env, fuel, full, [Jcc(cc, l)] + rest, m)
         == if m.x.cpu.Holds(cc) then RunJump(env, fuel, full, l, m) else RunCode(env, fuel, full, rest, m)
  {
    hide RunCall, Exec;
    assert ([Jcc(cc, l)] + rest)[1..] == rest;
  }

  lemma CallCode(env: Env, fuel: nat, full: seq<Ins>, rest: seq<Ins>, m: Machine)
    requires m.x.hart.status != Aborted
    ensures RunCode(env, fuel, full, [CallTrampoline] + rest, m)
         == if fuel == 0 then None
            else
              match RunCall(env, fuel - 1, m.x.cpu.rsi, m.x.cpu.rdx, m)
              case None => None
              case Some(m') => RunCode(env, fuel, full, rest, Returned(env, m'))
  {
    hide RunCall, Exec;
    assert ([CallTrampoline] + rest)[1..] == rest;
  }

  // A jump to wherever the pc cell points: its label, or the exit.
  lemma JumpRuns(w: World, fuel: nat, b: Block, m: Machine) returns (n: nat)
    requires Placed(w) && FunctionOk(w, b) && |b.pcs| == |b.instrs| && Sound(w, m) && m.x.hart.status == Running
    ensures var r := RunJump(w.env, fuel, CodeOf(w, b, 0), LabelOf(m.x.hart.pc, b.pcs), m);
            r.Some? ==> Done(w, m, r.value, n) && Tally(w, m, r.value, n)
    decreases fuel, 0, 0, 5
  {
    hide RunCode, Sound, Done, FunctionCodeFrom, Counted, IsExec;
    n := 0;
    if m.x.hart.pc in b.pcs && fuel > 0 {
      var j: nat :| j < |b.pcs| && b.pcs[j] == m.x.hart.pc;
      FromLabel(Direct(w), b.instrs, b.pcs, 0, j);
      n := FunctionRuns(w, fuel - 1, b, j, m);
    } else {
      ExitJump(w, fuel, b, m);
      DoneNothing(w, m);
    }
  }

  // Control falls through: onto the next label, by a jump, or out of the block.
  lemma FallRuns(w: World, fuel: nat, b: Block, j: nat, m: Machine) returns (n: nat)
    requires Placed(w) && FunctionOk(w, b) && j < |b.pcs| == |b.instrs|
    requires Sound(w, m) && m.x.hart.status == Running && m.x.hart.pc == Add(b.pcs[j], 4)
    ensures var r := RunCode(w.env, fuel, CodeOf(w, b, 0), FallThrough(ContextOf(b.pcs, j)) + CodeOf(w, b, j + 1), m);
            r.Some? ==> Done(w, m, r.value, n) && Tally(w, m, r.value, n)
    decreases fuel, 0, |b.pcs| - j, 6
  {
    hide RunCode, RunJump, Sound, Done, FunctionCodeFrom, Placed, IsExec;
    var ctx, rest := ContextOf(b.pcs, j), CodeOf(w, b, j + 1);
    if ctx.fallthroughIsNext {
      assert [] + rest == rest;
      n := FunctionRuns(w, fuel, b, j + 1, m);
    } else {
      JumpCode(w.env, fuel, CodeOf(w, b, 0), LabelOf(ctx.nextPc, b.pcs), rest, m);
      n := JumpRuns(w, fuel, b, m);
    }
  }

  // Both ways of a branch, or the exit when either label is missing.
  lemma BranchRuns(w: World, fuel: nat, b: Block, j: nat, target: bv64, m: Machine) returns (n: nat)
    requires Placed(w) && FunctionOk(w, b) && j < |b.pcs| == |b.instrs|
    requires Sound(w, m) && m.x.hart.status == Running && (m.x.hart.pc == target || m.x.hart.pc == Add(b.pcs[j], 4))
    ensures var r :=
            RunCode(w.env, fuel, CodeOf(w, b, 0), BranchDispatch(target, ContextOf(b.pcs, j)) + CodeOf(w, b, j + 1), m);
            r.Some? ==> Done(w, m, r.value, n) && Tally(w, m, r.value, n)
    decreases fuel, 0, |b.pcs| - j, 7
  {
    hide RunCode, Sound, Done, FunctionCodeFrom, FunctionOk, Placed, Counted, Add;
    var ctx, full, rest := ContextOf(b.pcs, j), CodeOf(w, b, 0), CodeOf(w, b, j + 1);
    if target !in b.pcs || ctx.nextPc !in b.pcs {
      JumpCode(w.env, fuel, full, Exit, rest, m);
      ExitJump(w, fuel, b, m);
      DoneNothing(w, m);
      n := 0;
    } else {
      var jumps := [Jcc(CcE, At(target))] + ([Jmp(At(ctx.nextPc))] + rest);
      assert BranchDispatch(target, ctx) + rest == ComparePc(target) + jumps;
      var m1 := CompareRuns(w, fuel, full, target, jumps, m);
      JccCode(w.env, fuel, full, CcE, At(target), [Jmp(At(ctx.nextPc))] + rest, m1);
      JumpCode(w.env, fuel, full, At(ctx.nextPc), rest, m1);
      n := JumpRuns(w, fuel, b, m1);
    }
  }

  function ComparePc(pc: bv64): seq<Ins> { [Do(Mov(RAX, PcCell)), Do(Mov(RCX, Const(pc))), Do(Cmp(RAX, R(RCX)))] }

  // Comparing the pc cell with a constant sets the flags and changes no more than scratch registers.
  lemma CompareRuns(w: World, fuel: nat, full: seq<Ins>, pc: bv64, rest: seq<Ins>, m: Machine) returns (m': Machine)
    requires m.x.hart.status != Aborted
    ensures RunCode(w.env, fuel, full, ComparePc(pc) + rest, m) == RunCode(w.env, fuel, full, rest, m')
    ensures m' == m.(x := m.x.(cpu := m'.x.cpu))
    ensures m'.x.cpu.Holds(CcE) == (m.x.hart.pc == pc) && m'.x.cpu.Holds(CcNE) == (m.x.hart.pc != pc)
    ensures Sound(w, m) ==> Sound(w, m')
    ensures forall r, n: nat :: Done(w, m', r, n) && Tally(w, m', r, n) ==> Done(w, m, r, n) && Tally(w, m, r, n)
  {
    hide RunCode, CacheOk, HartOk, Counted, Retires;
    RunStraight(w.env, fuel, full, ComparePc(pc), rest, m);
    m' := m.(x := Run(ComparePc(pc), m.x, w.env.junk));
    CompareEffect(pc, m.x, w.env.junk);
  }

  lemma CompareEffect(pc: bv64, x: State, junk: bv64)
    requires x.hart.status != Aborted
    ensures var y := Run(ComparePc(pc), x, junk);
            y == x.(cpu := y.cpu) && y.cpu.Holds(CcE) == (x.hart.pc == pc) && y.cpu.Holds(CcNE) == (x.hart.pc != pc)
  {
    hide Load, Store, AluValue32;
    Run3(Do(Mov(RAX, PcCell)), Do(Mov(RCX, Const(pc))), Do(Cmp(RAX, R(RCX))), x, junk);
  }

  function CallArguments(target: Operand, ret: bv64): seq<Ins> { [Do(Mov(RSI, target)), Do(Mov(RDX, Const(ret)))] }

  lemma CallArgumentsEffect(target: Operand, ret: bv64, x: State, junk: bv64)
    requires x.hart.status != Aborted && (target == PcCell || target == Const(x.hart.pc))
    ensures var y := Run(CallArguments(target, ret), x, junk);
            y == x.(cpu := y.cpu) && y.cpu.rsi == x.hart.pc && y.cpu.rdx == ret
  {
    hide Extended, Cpu.Holds, Cell;
    Run2(Do(Mov(RSI, target)), Do(Mov(RDX, Const(ret))), x, junk);
  }

  function AfterCall(w: World, b: Block, j: nat): seq<Ins>
    requires j < |b.pcs| == |b.instrs|
  {
    PostCallCheck(ContextOf(b.pcs, j)) + CodeOf(w, b, j + 1)
  }

  lemma CallSplits(w: World, b: Block, j: nat, target: Operand)
    requires j < |b.pcs| == |b.instrs|
    ensures var ret := ContextOf(b.pcs, j).nextPc;
            Straight(CallArguments(target, ret)) &&
            EmitCall(target, ret) + PostCallCheck(ContextOf(b.pcs, j)) + CodeOf(w, b, j + 1)
              == CallArguments(target, ret) + ([CallTrampoline] + AfterCall(w, b, j))
  {
    hide CodeOf;
  }

  // A linking jump: the trampoline call and what follows it.
  lemma CallRuns(w: World, fuel: nat, b: Block, j: nat, target: Operand, m: Machine) returns (n: nat)
    requires Placed(w) && FunctionOk(w, b) && j < |b.pcs| == |b.instrs| && !w.image(b.pcs[j]).opcode.ECALL?
    requires Sound(w, m) && m.x.hart.status == Running && (target == PcCell || target == Const(m.x.hart.pc))
    ensures var ctx := ContextOf(b.pcs, j);
            var r := RunCode(w.env, fuel, CodeOf(w, b, 0), EmitCall(target, ctx.nextPc) + PostCallCheck(ctx) +
              CodeOf(w, b, j + 1), m);
            r.Some? ==> Done(w, m, r.value, n) && Tally(w, m, r.value, n)
    decreases fuel, 0, |b.pcs| - j, 7
  {
    hide RunCode, RunCall, CodeOf, FunctionOk, Placed, Sound, Done, PostCallCheck, CallArguments, EmitCall, Run;
    var ret, full, after := ContextOf(b.pcs, j).nextPc, CodeOf(w, b, 0), AfterCall(w, b, j);
    CallSplits(w, b, j, target);
    RunStraight(w.env, fuel, full, CallArguments(target, ret), [CallTrampoline] + after, m);
    CallArgumentsEffect(target, ret, m.x, w.env.junk);
    var m1 := m.(x := Run(CallArguments(target, ret), m.x, w.env.junk));
    CallCode(w.env, fuel, full, after, m1);
    CpuIsFree(w, m, m1.x.cpu);
    n := 0;
    if fuel > 0 && RunCall(w.env, fuel - 1, m.x.hart.pc, ret, m1).Some? {
      var k := CallOk(w, fuel - 1, ret, m1);
      n := ReturnRuns(w, fuel, b, j, m, RunCall(w.env, fuel - 1, m.x.hart.pc, ret, m1).value, k);
    }
  }

  // Scratch registers are in none of the invariants.
  lemma CpuIsFree(w: World, m: Machine, c: Cpu)
    requires Sound(w, m)
    ensures Sound(w, m.(x := m.x.(cpu := c)))
    ensures forall r, n: nat :: Done(w, m.(x := m.x.(cpu := c)), r, n) && Tally(w, m.(x := m.x.(cpu := c)), r, n) ==>
            Done(w, m, r, n) && Tally(w, m, r, n)
  {
    hide CacheOk, HartOk, Retires;
  }

  lemma ReturnRuns(w: World, fuel: nat, b: Block, j: nat, m: Machine, back: Machine, k: nat) returns (n: nat)
    requires Placed(w) && FunctionOk(w, b) && j < |b.pcs| == |b.instrs| && !w.image(b.pcs[j]).opcode.ECALL?
    requires Done(w, m, back, k) && Tally(w, m, back, k)
    ensures var r := RunCode(w.env, fuel, CodeOf(w, b, 0), AfterCall(w, b, j), Returned(w.env, back));
            r.Some? ==> Done(w, m, r.value, n) && Tally(w, m, r.value, n)
    decreases fuel, 0, |b.pcs| - j, 7, 1
  {
    hide RunCode, CodeOf, FunctionOk, Placed, CacheOk, HartOk, Retires, AfterCall;
    var m2 := Returned(w.env, back);
    n := k;
    if m2.x.hart.status == Aborted {
      AbortedEnds(w.env, fuel, CodeOf(w, b, 0), AfterCall(w, b, j), m2);
    } else {
      var l := PostCallRuns(w, fuel, b, j, m2);
      n := k + l;
      var r := RunCode(w.env, fuel, CodeOf(w, b, 0), AfterCall(w, b, j), m2);
      if r.Some? {
        DoneTwice(w, m, m2, r.value, k, l);
      }
    }
  }

  // After the call: on to the return pc if control came back there, else out of the block. A halt
  // inside the call never comes back, whatever the depth.
  lemma PostCallRuns(w: World, fuel: nat, b: Block, j: nat, m: Machine) returns (n: nat)
    requires Placed(w) && FunctionOk(w, b) && j < |b.pcs| == |b.instrs| && !w.image(b.pcs[j]).opcode.ECALL?
    requires Sound(w, m) && m.x.hart.status != Aborted
    ensures var r := RunCode(w.env, fuel, CodeOf(w, b, 0), AfterCall(w, b, j), m);
            r.Some? ==> Done(w, m, r.value, n) && Tally(w, m, r.value, n)
    decreases fuel, 0, |b.pcs| - j, 7, 0
  {
    hide RunCode, Done, FunctionCodeFrom, FunctionOk;
    var ctx, full := ContextOf(b.pcs, j), CodeOf(w, b, 0);
    var after := FallThrough(ctx) + CodeOf(w, b, j + 1);
    assert PostCallCheck(ctx) + CodeOf(w, b, j + 1) == ComparePc(ctx.nextPc) + ([Jcc(CcNE, Exit)] + after);
    var m1 := CompareRuns(w, fuel, full, ctx.nextPc, [Jcc(CcNE, Exit)] + after, m);
    JccCode(w.env, fuel, full, CcNE, Exit, after, m1);
    if m.x.hart.pc != ctx.nextPc {
      ExitJump(w, fuel, b, m1);
      DoneNothing(w, m1);
      n := 0;
    } else {
      HaltNeverReturns(w, b.pcs[j], m);
      n := FallRuns(w, fuel, b, j, m1);
    }
  }

  // A halted hart is never at the return pc of a call.
  lemma HaltNeverReturns(w: World, call: bv64, m: Machine)
    requires Sound(w, m) && m.x.hart.status != Aborted && m.x.hart.pc == Add(call, 4) && !w.image(call).opcode.ECALL?
    ensures m.x.hart.status == Running
  {
    hide CacheOk, GoodRun;
    forall p | w.image(p).opcode.ECALL?
      ensures Add(p, 4) != Add(call, 4)
    {
      if Add(p, 4) == Add(call, 4) {
        AddFourInjective(p, call);
      }
    }
  }

  lemma AddFourInjective(p: bv64, q: bv64)
    requires Add(p, 4) == Add(q, 4)
    ensures p == q
  {
    assert Add(p, 4) - 4 == p && Add(q, 4) - 4 == q;
  }

  // A plain compiled block runs its instructions in order and counts none. Its jalrs land on their
  // successors, but for one at its end, which may go anywhere.
  lemma {:induction false} PlainRuns(w: World, fuel: nat, b: Block, full: seq<Ins>, j: nat, m: Machine) returns (n: nat)
    requires Placed(w) && BlockOk(w, b) && !b.isFunction && b.code.Some? && j <= |b.instrs|
    requires Sound(w, m) && m.x.hart.status == Running && (j < |b.instrs| ==> m.x.hart.pc == PcAt(b.startPc, j))
    ensures var r := RunCode(w.env, fuel, full, PlainCodeFrom(Direct(w), b.instrs[j..]), m);
            r.Some? && Done(w, m, r.value, n) && SameCounts(m, r.value) &&
            (r.value.x.hart.status == Aborted || n == |b.instrs| - j)
    ensures j < |b.instrs| ==> n > 0
    decreases |b.instrs| - j
  {
    hide RunCode, Placed, BlockOk, Sound, Retires, PlainCodeFrom;
    n := 0;
    if j == |b.instrs| {
      assert b.instrs[j..] == [];
      assert PlainCodeFrom(Direct(w), []) == [Bind(Exit)] by { PlainCodeEnds(Direct(w)); }
      RunExit(w.env, fuel, full, m);
      DoneNothing(w, m);
    } else {
      var m1 := PlainStep(w, fuel, b, full, j, m);
      if m1.x.hart.status == Aborted {
        AbortedEnds(w.env, fuel, full, PlainCodeFrom(Direct(w), b.instrs[j + 1..]), m1);
        n := 1;
      } else {
        var k := PlainRuns(w, fuel, b, full, j + 1, m1);
        n := 1 + k;
        DonePlain(w, m, m1, RunCode(w.env, fuel, full, PlainCodeFrom(Direct(w), b.instrs[j + 1..]), m1).value, 1, k);
      }
    }
  }

  predicate SameCounts(m: Machine, r: Machine)
  {
    r.x.count == m.x.count && r.plainCalls == m.plainCalls && r.lost == m.lost
  }

  lemma DonePlain(w: World, a: Machine, b: Machine, c: Machine, m: nat, n: nat)
    requires Done(w, a, b, m) && Done(w, b, c, n)
    ensures Done(w, a, c, m + n)
  {
    hide Sound;
    RetiresAdd(w.env.dec, m, n, a.x.hart, b.x.hart, c.x.hart);
  }

  lemma PlainCodeEnds(direct: bool)
    ensures PlainCodeFrom(direct, []) == [Bind(Exit)]
  {}

  // An instruction of a plain compiled block that another follows lands there.
  lemma PlainLands(w: World, b: Block, j: nat, h: Hart)
    requires Placed(w) && BlockOk(w, b) && !b.isFunction && b.code.Some? && j < |b.instrs|
    requires HartOk(w, h) && h.status == Running && h.pc == PcAt(b.startPc, j)
    ensures var g := Execute(b.instrs[j], h);
            g.status != Aborted ==> g.status == Running && (j + 1 < |b.instrs| ==> g.pc == PcAt(b.startPc, j + 1))
  {
    hide Execute, Agrees, Emittable, IsExec, Index, CompileBlock, Add, ZextWord;
    StepOk(w, h);
    var i := b.instrs[j];
    if Execute(i, h).status != Aborted {
      ExecuteFlow(i, h);
      assert i in b.instrs && Formatted(i);
    }
  }

  // One instruction of a plain compiled block.
  lemma PlainStep(w: World, fuel: nat, b: Block, full: seq<Ins>, j: nat, m: Machine) returns (m': Machine)
    requires Placed(w) && BlockOk(w, b) && !b.isFunction && b.code.Some? && j < |b.instrs|
    requires Sound(w, m) && m.x.hart.status == Running && m.x.hart.pc == PcAt(b.startPc, j)
    ensures RunCode(w.env, fuel, full, PlainCodeFrom(Direct(w), b.instrs[j..]), m)
         == RunCode(w.env, fuel, full, PlainCodeFrom(Direct(w), b.instrs[j + 1..]), m')
    ensures Done(w, m, m', 1) && SameCounts(m, m')
    ensures m'.x.hart.status != Aborted ==>
              m'.x.hart.status == Running && (j + 1 < |b.instrs| ==> m'.x.hart.pc == PcAt(b.startPc, j + 1))
  {
    hide RunCode, DataCode, Run, Retires, CacheOk, Execute, Agrees, Counted, Compilable, IsExec, Cell, Add;
    var i, h := b.instrs[j], m.x.hart;
    StepOk(w, h);
    CompilableNext(w, h);
    DataCodeIsStraight(Direct(w), i);
    assert PlainInstr(Direct(w), i) == DataCode(Direct(w), i);
    PlainCodeStep(Direct(w), b.instrs, j, []);
    PlainSplits(Direct(w), b.instrs, j);
    RunStraight(w.env, fuel, full, DataCode(Direct(w), i), PlainCodeFrom(Direct(w), b.instrs[j + 1..]), m);
    CodeAgrees(Direct(w), i, m.x, w.env.junk);
    m' := m.(x := Run(DataCode(Direct(w), i), m.x, w.env.junk));
    PlainLands(w, b, j, h);
  }

  lemma PlainSplits(direct: bool, instrs: seq<Instr>, j: nat)
    requires j < |instrs|
    ensures PlainCodeFrom(direct, instrs[j..]) == PlainInstr(direct, instrs[j]) + PlainCodeFrom(direct, instrs[j + 1..])
  {
    assert instrs[j..][1..] == instrs[j + 1..];
  }

  lemma RecordedBound(w: World, start: bv64, instrs: seq<Instr>, fns: seq<ExecFn>)
    requires Recorded(w, start, instrs, fns)
    ensures |fns| == |instrs|
  {}

  // The exec function kept for an instruction is the one its image would be executed by.
  lemma RecordedAt(w: World, start: bv64, instrs: seq<Instr>, fns: seq<ExecFn>, j: nat, h: Hart)
    requires Recorded(w, start, instrs, fns) && j < |instrs| == |fns| && h.pc == PcAt(start, j)
    ensures CallFn(fns[j], instrs[j], h) == Execute(w.image(h.pc), h)
  {
    hide Execute;
    OwnFnExecutes(instrs[j], h);
  }

  // Interpreting a cached block, loop-back included, makes as many single steps as it reports.
  lemma {:induction false} InterpretOk(w: World, fuel: nat, b: Block, idx: nat, h: Hart, executed: nat) returns (n: nat)
    requires Recorded(w, b.startPc, b.instrs, b.execFns) && idx <= |b.instrs|
    requires HartOk(w, h) && h.status == Running && h.pc == PcAt(b.startPc, idx)
    ensures var r := Interpret(w.env, fuel, b, idx, h, executed);
            r.Some? ==>
              Retires(w.env.dec, n, h, r.value.0) && HartOk(w, r.value.0) &&
              (r.value.0.status == Aborted || r.value.1 == executed + n)
    ensures idx < |b.instrs| ==> n > 0
    decreases fuel, |b.instrs| - idx
  {
    hide Execute, Retires, HartOk, Recorded, CallFn, Add, Good;
    RecordedBound(w, b.startPc, b.instrs, b.execFns);
    n := 0;
    if idx >= |b.instrs| {
      RetiresNone(w.env.dec, h);
    } else {
      StepOk(w, h);
      RecordedAt(w, b.startPc, b.instrs, b.execFns, idx, h);
      var g := Execute(w.image(h.pc), h);
      n := 1;
      if g.status == Running {
        if g.pc == Add(h.pc, 4) {
          var k := InterpretOk(w, fuel, b, idx + 1, g, executed + 1);
          n := 1 + k;
          var r := Interpret(w.env, fuel, b, idx + 1, g, executed + 1);
          if r.Some? {
            RetiresAdd(w.env.dec, 1, k, h, g, r.value.0);
          }
        } else if g.pc == b.startPc && fuel > 0 {
          var k := InterpretOk(w, fuel - 1, b, 0, g, executed + 1);
          n := 1 + k;
          var r := Interpret(w.env, fuel - 1, b, 0, g, executed + 1);
          if r.Some? {
            RetiresAdd(w.env.dec, 1, k, h, g, r.value.0);
          }
        }
      }
    }
  }

  lemma IntactDecodes(w: World, h: Hart)
    requires Intact(w, h, h.pc)
    ensures DecodeAt(w.env.dec, h, h.pc) == Some(w.image(h.pc))
  {}

  // If the recording ends in a jalr and the next instruction will be recorded too, the jalr is
  // steady.
  ghost predicate LastIsSteady(w: World, start: bv64, h: Hart, instrs: seq<Instr>)
  {
    instrs != [] && instrs[|instrs| - 1].opcode.JALR? && RunsOn(w, h) ==> PcAt(start, |instrs| - 1) in w.steady
  }

  // An instruction that ran on to its successor may be recorded.
  lemma RecordedOneMore(w: World, start: bv64, h: Hart, instrs: seq<Instr>, fns: seq<ExecFn>)
    requires Recorded(w, start, instrs, fns) && |instrs| < w.env.maxBb && start in w.code &&
             (w.env.useJit ==> !IsExec(w.env.ranges, start))
    requires Good(w, h) && h.status == Running && h.pc == PcAt(start, |instrs|) && RunsOn(w, h)
    requires w.env.useJit ==> LastIsSteady(w, start, h, instrs)
    ensures var i, g := w.image(h.pc), Execute(w.image(h.pc), h);
            Recorded(w, start, instrs + [i], fns + [ExecFnOf(i.opcode)]) &&
            (w.env.useJit ==> LastIsSteady(w, start, g, instrs + [i]))
  {
    hide Execute, Agrees, DecodeAt, Emittable, IsExec;
    ExecuteFlow(w.image(h.pc), h);
  }

  // Recording makes as many single steps as it reports, and what it records is the image.
  lemma {:induction false} RecordOk(w: World, start: bv64, h: Hart, instrs: seq<Instr>,
          fns: seq<ExecFn>) returns (n: nat)
    requires Recorded(w, start, instrs, fns) && start in w.code && (w.env.useJit ==> !IsExec(w.env.ranges, start))
    requires HartOk(w, h) && h.status == Running && h.pc == PcAt(start, |instrs|)
    requires w.env.useJit ==> LastIsSteady(w, start, h, instrs)
    ensures var (g, recorded, called, executed) := Record(w.env, h, instrs, fns);
            Retires(w.env.dec, n, h, g) && HartOk(w, g) && Recorded(w, start, recorded, called) &&
            (g.status == Aborted || executed == |instrs| + n)
    ensures |instrs| < w.env.maxBb ==> n > 0
    decreases w.env.maxBb - |instrs|
  {
    hide Execute, HartOk, Retires, IsExec, Add, Recorded, Intact, Compilable, LastIsSteady;
    n := 0;
    if |instrs| >= w.env.maxBb {
      RetiresNone(w.env.dec, h);
    } else {
      StepOk(w, h);
      assert Intact(w, h, h.pc);
      IntactDecodes(w, h);
      var i := w.image(h.pc);
      var g := Execute(i, h);
      n := 1;
      if g.status == Running && g.pc == Add(h.pc, 4) {
        RecordedOneMore(w, start, h, instrs, fns);
        var more := fns + [ExecFnOf(i.opcode)];
        var k := RecordOk(w, start, g, instrs + [i], more);
        n := 1 + k;
        RetiresAdd(w.env.dec, 1, k, h, g, Record(w.env, g, instrs + [i], more).0);
      }
    }
  }

  // What a step reports: the instructions it made, but for those it lost in nested calls. A step
  // by a plain compiled block counts nothing, any other counts what it reports.
  ghost predicate StepTally(w: World, m: Machine, r: Machine, plain: bool, k: int, n: nat)
  {
    History(m, r) && (plain ==> r.x.count == m.x.count && k > 0 && !Counted(w)) &&
    (r.x.hart.status == Aborted ||
     (k + r.lost - m.lost == n && (!plain ==> k == r.x.count - m.x.count) &&
       (Counted(w) ==> r.plainCalls == m.plainCalls)))
  }

  lemma RecordBlockOk(w: World, m: Machine) returns (n: nat)
    requires Placed(w) && Sound(w, m) && m.x.hart.status == Running &&
             (w.env.useJit ==> !IsExec(w.env.ranges, m.x.hart.pc))
    ensures var (r, k) := RecordBlock(w.env, m);
            Done(w, m, r, n) && StepTally(w, m, r, false, k, n)
    ensures w.env.maxBb > 0 ==> n > 0
  {
    hide Record, HartOk, Retires, Install;
    var h := m.x.hart;
    InCode(w, h);
    NothingRecorded(w, h.pc);
    n := RecordOk(w, h.pc, h, [], []);
    var (_, instrs, fns, _) := Record(w.env, h, [], []);
    if instrs != [] {
      InstallOk(w, Block(h.pc, instrs, fns, [], false, None, 0), m.cache);
    }
  }

  lemma InCode(w: World, h: Hart)
    requires Placed(w) && HartOk(w, h) && h.status == Running
    ensures h.pc in w.code && ZextWord(h.pc) == h.pc && Formatted(w.image(h.pc))
  {
    hide Execute;
    StepOk(w, h);
  }

  lemma NothingRecorded(w: World, start: bv64)
    ensures Recorded(w, start, [], []) && PcAt(start, 0) == start
  {}

  // execute_cached_block on the block of the current pc.
  lemma ExecBlockOk(w: World, fuel: nat, b: Block, m: Machine) returns (n: nat)
    requires Placed(w) && BlockOk(w, b) && b.startPc == m.x.hart.pc && Sound(w, m) && m.x.hart.status == Running
    ensures var r := ExecBlock(w.env, fuel, b, m);
            r.Some? ==>
              Done(w, m, r.value.0, n) && StepTally(w, m, r.value.0, b.code.Some? && !b.isFunction, r.value.1, n)
    ensures n > 0
    decreases fuel, 1, 0, 0
  {
    hide RunCode, Interpret, Placed, CacheOk, HartOk, Retires, IsExec, HasJumps, FunctionCodeFrom, PlainCodeFrom;
    NothingRecorded(w, b.startPc);
    n := 0;
    if b.isFunction {
      n := FunctionRuns(w, fuel, b, 0, m);
    } else if b.code.Some? {
      assert b.instrs[0..] == b.instrs;
      n := PlainRuns(w, fuel, b, b.code.value, 0, m);
    } else {
      n := InterpretOk(w, fuel, b, 0, m.x.hart, 0);
    }
  }

  // Cached, compiled or recorded, a step is that many single steps.
  lemma SimStepOk(w: World, fuel: nat, m: Machine) returns (n: nat)
    requires Placed(w) && Sound(w, m) && m.x.hart.status == Running
    ensures var r := SimStep(w.env, fuel, m);
            r.Some? ==> Done(w, m, r.value.0, n) && StepTally(w, m, r.value.0, EntersPlain(w.env, m), r.value.1, n)
    // With a recording bound above 0 every step makes progress.
    ensures w.env.maxBb > 0 ==> n > 0
    decreases fuel, 2, 0, 0
  {
    hide Lookup, BuildAndInstall, ExecBlock, RecordBlock, Placed, CacheOk, GoodRun, Retires, BlockOk, Mode, BehindEcall;
    var h := m.x.hart;
    InCode(w, h);
    LookupOk(w, h.pc, m.cache);
    var (cache, found) := Lookup(w.env, !Paged(h), h.pc, m.cache);
    var m1 := m.(cache := cache);
    if found.Some? {
      n := ExecBlockOk(w, fuel, found.value, m1);
    } else if !w.env.useJit {
      n := RecordBlockOk(w, m1);
    } else {
      BuildOk(w, m1);
      if IsExec(w.env.ranges, h.pc) {
        var m2 := BuildAndInstall(w.env, h.pc, m1).value;
        LookupOk(w, h.pc, m2.cache);
        BuiltIsFound(w.env, h.pc, m1);
        var (cache3, built) := Lookup(w.env, !Paged(h), h.pc, m2.cache);
        n := ExecBlockOk(w, fuel, built.value, m2.(cache := cache3));
      } else {
        n := RecordBlockOk(w, m1);
      }
    }
  }

  // The function block just installed for pc is found there.
  lemma BuiltIsFound(env: Env, pc: bv64, m: Machine)
    requires ZextWord(pc) == pc && BuildAndInstall(env, pc, m).Some? && BuildAndInstall(env, pc, m).value.x == m.x &&
             m.x.hart.status == Running
    ensures var found := Lookup(env, !Paged(m.x.hart), pc, BuildAndInstall(env, pc, m).value.cache).1;
            found.Some? && found.value.isFunction
  {
    hide CompileBlock;
    BuiltStart(env.ranges, DecodingOf(env.dec, m.x.hart), pc);
  }

  lemma BuiltStart(ranges: seq<CodeRange>, dec: Decoding, pc: bv64)
    ensures BuildBlock(ranges, dec, pc).Built? ==>
              BuildBlock(ranges, dec, pc).block.startPc == ZextWord(pc) && BuildBlock(ranges, dec, pc).block.isFunction
  {
    if IsExec(ranges, pc) && Discover(ranges, dec, pc).Some? {
      BuiltBlock(ranges, dec, pc);
    }
  }

  // run_until_pc: it ends with control at the return pc, or because the hart has stopped.
  lemma {:induction false} RunUntilOk(w: World, fuel: nat, ret: bv64, m: Machine) returns (n: nat)
    requires Placed(w) && Sound(w, m)
    ensures var r := RunUntil(w.env, fuel, ret, m);
            r.Some? ==>
              Done(w, m, r.value, n) && Tally(w, m, r.value, n) &&
              (r.value.x.hart.status != Running || r.value.x.hart.pc == ret)
    decreases fuel, 2, 0, 0
  {
    hide SimStep, Placed, CacheOk, HartOk, Retires;
    DoneNothing(w, m);
    n := 0;
    if m.x.hart.status == Running && m.x.hart.pc != ret && fuel > 0 {
      var r1 := SimStep(w.env, fuel - 1, m);
      if r1.Some? {
        n := SimStepOk(w, fuel - 1, m);
        var (m', k) := r1.value;
        var m1 := if EntersPlain(w.env, m) then Losing(m', k) else m';
        if m'.x.hart.status == Aborted {
          assert RunUntil(w.env, fuel - 1, ret, m1) == Some(m1);
        } else {
          var l := RunUntilOk(w, fuel - 1, ret, m1);
          var r := RunUntil(w.env, fuel - 1, ret, m1);
          if r.Some? {
            DoneTwice(w, m, m1, r.value, n, l);
          }
          n := n + l;
        }
      }
    }
  }

  lemma EnsureOk(w: World, m: Machine)
    requires Placed(w) && Sound(w, m) && m.x.hart.status == Running
    ensures var (m', ok) := EnsureJit(w.env, m.x.hart.pc, m);
            m' == m.(cache := m'.cache) && CacheOk(w, m'.cache)
  {
    hide Lookup, BuildAndInstall, GoodRun, BlockOk;
    var h := m.x.hart;
    InCode(w, h);
    LookupOk(w, h.pc, m.cache);
    if w.env.useJit {
      BuildOk(w, m.(cache := Lookup(w.env, !Paged(h), h.pc, m.cache).0));
    }
  }

  // call_trampoline, by whichever of its two routes.
  lemma CallOk(w: World, fuel: nat, ret: bv64, m: Machine) returns (n: nat)
    requires Placed(w) && Sound(w, m) && m.x.hart.status == Running
    ensures var r := RunCall(w.env, fuel, m.x.hart.pc, ret, m);
            r.Some? ==> Done(w, m, r.value, n) && Tally(w, m, r.value, n)
    decreases fuel, 3, 0, 0
  {
    hide EnsureJit, Lookup, RunCode, RunUntil, Placed, CacheOk, GoodRun, Retires, IsExec, BlockOk, Mode, Cell,
         BehindEcall;
    var h := m.x.hart;
    InCode(w, h);
    EnsureOk(w, m);
    var (m1, ok) := EnsureJit(w.env, h.pc, m);
    if !ok {
      n := RunUntilOk(w, fuel, ret, m1);
    } else {
      LookupOk(w, h.pc, m1.cache);
      var (cache, found) := Lookup(w.env, !Paged(h), h.pc, m1.cache);
      n := 0;
      if found.Some? && found.value.code.Some? {
        n := CalleeRuns(w, fuel, found.value, m1.(cache := cache));
      } else {
        RetiresNone(w.env.dec, h);
      }
    }
  }

  // execute_jitted_function on the block of the current pc.
  lemma CalleeRuns(w: World, fuel: nat, b: Block, m: Machine) returns (n: nat)
    requires Placed(w) && BlockOk(w, b) && b.startPc == m.x.hart.pc && b.code.Some? && Sound(w, m) &&
             m.x.hart.status == Running
    ensures var r := RunCode(w.env, fuel, b.code.value, b.code.value, m);
            r.Some? ==>
              var r' := if b.isFunction then r.value else Losing(r.value, |b.instrs|);
              Done(w, m, r', n) && Tally(w, m, r', n)
    decreases fuel, 1, 0, 0
  {
    hide RunCode, Recorded, HartOk, Retires, HasJumps, Distinct, FunctionCodeFrom, PlainCodeFrom;
    NothingRecorded(w, b.startPc);
    if b.isFunction {
      n := FunctionRuns(w, fuel, b, 0, m);
    } else {
      assert b.instrs[0..] == b.instrs;
      n := PlainRuns(w, fuel, b, b.code.value, 0, m);
    }
  }

  ghost predicate CycleTally(w: World, m: Machine, r: Machine, cycles: int, n: nat)
  {
    History(m, r) &&
    (r.x.hart.status == Aborted || (cycles + r.lost - m.lost == n && (Counted(w) ==> r.plainCalls == m.plainCalls)))
  }

  // Machine::run: whatever the settings, the hart ends where single steps would have brought it,
  // and the cycle total is the number of instructions less the lost ones. A run ends stopped or
  // with the bound reached.
  lemma {:induction false} RunMachineOk(w: World, fuel: nat, max: nat, m: Machine, cycle: int) returns (n: nat)
    requires Placed(w) && Sound(w, m)
    ensures var r := RunMachine(w.env, fuel, max, m, cycle);
            r.Some? ==>
              Done(w, m, r.value.0, n) && CycleTally(w, m, r.value.0, r.value.1 - cycle, n) &&
              (r.value.0.x.hart.status != Running || (max != 0 && r.value.1 >= max))
    decreases fuel
  {
    hide SimStep, Placed, CacheOk, HartOk, Retires, Counted;
    DoneNothing(w, m);
    n := 0;
    if !(max != 0 && cycle >= max) && m.x.hart.status == Running && fuel > 0 {
      var r1 := SimStep(w.env, fuel - 1, m);
      if r1.Some? {
        n := SimStepOk(w, fuel - 1, m);
        var (m', k) := r1.value;
        if m'.x.hart.status == Aborted {
          assert RunMachine(w.env, fuel - 1, max, m', cycle + k) == Some((m', cycle + k));
        } else {
          var l := RunMachineOk(w, fuel - 1, max, m', cycle + k);
          var r := RunMachine(w.env, fuel - 1, max, m', cycle + k);
          if r.Some? {
            DonePlain(w, m, m', r.value.0, n, l);
          }
          n := n + l;
        }
      }
    }
  }
}
