/** Code generation for a block: control flow, labels, call trampolines and early exits. */
module Compiler {
  import opened Bits
  import opened Isa
  import opened X86
  import opened Emit

  predicate IsRet(i: Instr) { i.opcode.JALR? && i.rd == 0 && i.rs1 == 1 && i.imm == 0 }

  datatype FlowContext = FlowContext(pc: bv64, nextPc: bv64, fallthroughIsNext: bool, labels: seq<bv64>)

  // The label of a pc of the block, else the exit label.
  function LabelOf(pc: bv64, labels: seq<bv64>): Label { if pc in labels then At(pc) else Exit }

  function BranchDispatch(target: bv64, ctx: FlowContext): seq<Ins>
  {
    if target !in ctx.labels || ctx.nextPc !in ctx.labels then [Jmp(Exit)]
    else
      [Do(Mov(RAX, PcCell)), Do(Mov(RCX, Const(target))), Do(Cmp(RAX, R(RCX))), Jcc(CcE, At(target)),
       Jmp(At(ctx.nextPc))]
  }

  function EmitCall(target: Operand, returnPc: bv64): seq<Ins>
  {
    [Do(Mov(RSI, target)), Do(Mov(RDX, Const(returnPc))), CallTrampoline]
  }

  function FallThrough(ctx: FlowContext): seq<Ins>
  {
    if ctx.fallthroughIsNext then [] else [Jmp(LabelOf(ctx.nextPc, ctx.labels))]
  }

  function PostCallCheck(ctx: FlowContext): seq<Ins>
  {
    [Do(Mov(RAX, PcCell)), Do(Mov(RCX, Const(ctx.nextPc))), Do(Cmp(RAX, R(RCX))), Jcc(CcNE, Exit)] + FallThrough(ctx)
  }

  // What follows the counter and data code of an instruction of a function block.
  function Tail(i: Instr, ctx: FlowContext): seq<Ins>
  {
    var target := Add(ctx.pc, Imm(i));
    if IsBranch(i.opcode) then BranchDispatch(target, ctx)
    else if i.opcode.JAL? then
      if i.rd == 0 then [Jmp(LabelOf(target, ctx.labels))]
      else EmitCall(Const(target), ctx.nextPc) + PostCallCheck(ctx)
    else if i.opcode.JALR? then
      if i.rd != 0 then EmitCall(PcCell, ctx.nextPc) + PostCallCheck(ctx) else [Jmp(Exit)]
    else if i.opcode.ECALL? then [Jmp(Exit)]
    else FallThrough(ctx)
  }

  function InstrCode(direct: bool, i: Instr, ctx: FlowContext): seq<Ins>
  {
    [IncCounter] + DataCode(direct, i) + Tail(i, ctx)
  }

  function ContextOf(pcs: seq<bv64>, k: nat): FlowContext
    requires k < |pcs|
  {
    var next := Add(pcs[k], 4);
    FlowContext(pcs[k], next, k + 1 < |pcs| && pcs[k + 1] == next, pcs)
  }

  // The code of instructions k, k+1, ... of a function block, each behind its label, and the exit label.
  function FunctionCodeFrom(direct: bool, instrs: seq<Instr>, pcs: seq<bv64>, k: nat): seq<Ins>
    requires |instrs| == |pcs| && k <= |pcs|
    decreases |pcs| - k
  {
    if k == |pcs| then [Bind(Exit)]
    else
      [Bind(At(pcs[k]))] + InstrCode(direct, instrs[k], ContextOf(pcs, k)) +
      FunctionCodeFrom(direct, instrs, pcs, k + 1)
  }

  // A plain block: no labels, no counting; an ecall still jumps to the exit.
  function PlainInstr(direct: bool, i: Instr): seq<Ins>
  {
    DataCode(direct, i) + if i.opcode.ECALL? then [Jmp(Exit)] else []
  }

  function PlainCodeFrom(direct: bool, instrs: seq<Instr>): seq<Ins>
  {
    if instrs == [] then [Bind(Exit)] else PlainInstr(direct, instrs[0]) + PlainCodeFrom(direct, instrs[1..])
  }

  datatype Block = Block(startPc: bv64, instrs: seq<Instr>, execFns: seq<ExecFn>, pcs: seq<bv64>, isFunction: bool,
                         code: Option<seq<Ins>>, searchRate: nat)

  function CompileBlock(direct: bool, b: Block): seq<Ins>
  {
    if b.isFunction && |b.pcs| == |b.instrs| then FunctionCodeFrom(direct, b.instrs, b.pcs, 0)
    else PlainCodeFrom(direct, b.instrs)
  }

  // The code from the place where label l is bound; empty if it is bound nowhere.
  function From(code: seq<Ins>, l: Label): seq<Ins>
  {
    if code == [] then [] else if code[0] == Bind(l) then code else From(code[1..], l)
  }

  function Bound(code: seq<Ins>): seq<Label>
  {
    if code == [] then [] else (if code[0].Bind? then [code[0].l] else []) + Bound(code[1..])
  }

  predicate References(i: Ins, l: Label) { (i.Jmp? || i.Jcc?) && i.l == l }

  predicate NoBind(code: seq<Ins>) { forall i | i in code :: !i.Bind? }

  lemma {:induction false} BoundAppend(a: seq<Ins>, b: seq<Ins>)
    ensures Bound(a + b) == Bound(a) + Bound(b)
    decreases |a|
  {
    if a == [] {
      assert a + b == b;
    } else {
      assert (a + b)[1..] == a[1..] + b && (a + b)[0] == a[0];
      BoundAppend(a[1..], b);
      assert Bound(a + b) == (if a[0].Bind? then [a[0].l] else []) + Bound(a[1..] + b);
    }
  }

  lemma {:induction false} NoneBound(a: seq<Ins>)
    requires NoBind(a)
    ensures Bound(a) == []
    decreases |a|
  {
    if a != [] {
      assert a[0] in a;
      forall i | i in a[1..]
        ensures !i.Bind?
      {
        assert i in a;
      }
      NoneBound(a[1..]);
    }
  }

  lemma {:induction false} FromSkips(a: seq<Ins>, b: seq<Ins>, l: Label)
    requires forall i | i in a :: i != Bind(l)
    ensures From(a + b, l) == From(b, l)
    decreases |a|
  {
    if a == [] {
      assert a + b == b;
    } else {
      assert (a + b)[1..] == a[1..] + b;
      assert a[0] in a;
      forall i | i in a[1..]
        ensures i != Bind(l)
      {
        assert i in a;
      }
      FromSkips(a[1..], b, l);
    }
  }

  lemma ValueCodeBindsNothing(i: Instr)
    ensures NoBind(ValueCode(i))
  {}

  lemma MemoryCodeBindsNothing(direct: bool, i: Instr)
    ensures NoBind(LoadCode(direct, i)) && NoBind(StoreCode(direct, i))
  {
    hide Width;
  }

  lemma ControlCodeBindsNothing(i: Instr)
    ensures NoBind(JalCode(i)) && NoBind(JalrCode(i)) && NoBind(BranchCode(i)) && NoBind(EcallCode())
  {}

  lemma DataCodeBindsNothing(direct: bool, i: Instr)
    ensures NoBind(DataCode(direct, i))
  {
    ValueCodeBindsNothing(i);
    MemoryCodeBindsNothing(direct, i);
    ControlCodeBindsNothing(i);
  }

  lemma InstrCodeBindsNothing(direct: bool, i: Instr, ctx: FlowContext)
    ensures NoBind(InstrCode(direct, i, ctx))
  {
    hide DataCode, Add;
    DataCodeBindsNothing(direct, i);
  }

  // Every label of a function block is bound exactly once, in block order, the exit label last.
  lemma {:induction false} LabelsBoundOnce(direct: bool, instrs: seq<Instr>, pcs: seq<bv64>, k: nat)
    requires |instrs| == |pcs| && k <= |pcs|
    ensures Bound(FunctionCodeFrom(direct, instrs, pcs, k))
            == seq(|pcs| - k, j requires 0 <= j < |pcs| - k => At(pcs[k + j])) + [Exit]
    decreases |pcs| - k
  {
    hide InstrCode;
    if k < |pcs| {
      var body := InstrCode(direct, instrs[k], ContextOf(pcs, k));
      var rest := FunctionCodeFrom(direct, instrs, pcs, k + 1);
      InstrCodeBindsNothing(direct, instrs[k], ContextOf(pcs, k));
      NoneBound(body);
      BoundAppend([Bind(At(pcs[k]))] + body, rest);
      BoundAppend([Bind(At(pcs[k]))], body);
      LabelsBoundOnce(direct, instrs, pcs, k + 1);
    }
  }

  // A jump to the label of instruction k, from anywhere in the block, lands on its code.
  lemma {:induction false} FromLabel(direct: bool, instrs: seq<Instr>, pcs: seq<bv64>, k: nat, j: nat)
    requires |instrs| == |pcs| && k <= j < |pcs| && (forall a, b | 0 <= a < b < |pcs| :: pcs[a] != pcs[b])
    ensures From(FunctionCodeFrom(direct, instrs, pcs, k), At(pcs[j])) == FunctionCodeFrom(direct, instrs, pcs, j)
    decreases j - k
  {
    hide InstrCode;
    if k < j {
      var head := [Bind(At(pcs[k]))] + InstrCode(direct, instrs[k], ContextOf(pcs, k));
      InstrCodeBindsNothing(direct, instrs[k], ContextOf(pcs, k));
      FromLabel(direct, instrs, pcs, k + 1, j);
      FromSkips(head, FunctionCodeFrom(direct, instrs, pcs, k + 1), At(pcs[j]));
    }
  }

  lemma {:induction false} FromExit(direct: bool, instrs: seq<Instr>, pcs: seq<bv64>, k: nat)
    requires |instrs| == |pcs| && k <= |pcs|
    ensures From(FunctionCodeFrom(direct, instrs, pcs, k), Exit) == [Bind(Exit)]
    decreases |pcs| - k
  {
    hide InstrCode;
    if k < |pcs| {
      var head := [Bind(At(pcs[k]))] + InstrCode(direct, instrs[k], ContextOf(pcs, k));
      InstrCodeBindsNothing(direct, instrs[k], ContextOf(pcs, k));
      FromExit(direct, instrs, pcs, k + 1);
      FromSkips(head, FunctionCodeFrom(direct, instrs, pcs, k + 1), Exit);
    }
  }

  // Every jump of a block goes to a label the block binds.
  lemma JumpsAreBound(direct: bool, i: Instr, ctx: FlowContext, x: Ins, l: Label)
    requires x in InstrCode(direct, i, ctx) && References(x, l)
    ensures l == Exit || (l.At? && l.pc in ctx.labels)
  {
    hide DataCode, Add, Imm;
    DataCodeIsStraight(direct, i);
  }

  // The assembler buffer and the emitters that append control flow to it.
  class Assembler {
    var code: seq<Ins>

    constructor ()
      ensures code == []
    {
      code := [];
    }

    method Emit(i: Ins)
      modifies this
      ensures code == old(code) + [i]
    {
      code := code + [i];
    }

    method EmitData(direct: bool, i: Instr)
      modifies this
      ensures code == old(code) + DataCode(direct, i)
    {
      code := code + DataCode(direct, i);
    }

    method EmitBranchDispatch(target: bv64, ctx: FlowContext)
      modifies this
      ensures code == old(code) + BranchDispatch(target, ctx)
    {
      if target !in ctx.labels || ctx.nextPc !in ctx.labels {
        Emit(Jmp(Exit));
        return;
      }
      Emit(Do(Mov(RAX, PcCell)));
      Emit(Do(Mov(RCX, Const(target))));
      Emit(Do(Cmp(RAX, R(RCX))));
      Emit(Jcc(CcE, At(target)));
      Emit(Jmp(At(ctx.nextPc)));
    }

    method EmitCallTrampoline(target: Option<bv64>, returnPc: bv64)
      modifies this
      ensures code == old(code) + EmitCall(if target.Some? then Const(target.value) else PcCell, returnPc)
    {
      if target.Some? {
        Emit(Do(Mov(RSI, Const(target.value))));
      } else {
        Emit(Do(Mov(RSI, PcCell)));
      }
      Emit(Do(Mov(RDX, Const(returnPc))));
      Emit(CallTrampoline);
    }

    method EmitJumpOrExit(pc: bv64, labels: seq<bv64>)
      modifies this
      ensures code == old(code) + [Jmp(LabelOf(pc, labels))]
    {
      if pc in labels {
        Emit(Jmp(At(pc)));
      } else {
        Emit(Jmp(Exit));
      }
    }

    method EmitFallThrough(ctx: FlowContext)
      modifies this
      ensures code == old(code) + FallThrough(ctx)
    {
      if !ctx.fallthroughIsNext {
        EmitJumpOrExit(ctx.nextPc, ctx.labels);
      }
    }

    method EmitPostCallCheck(ctx: FlowContext)
      modifies this
      ensures code == old(code) + PostCallCheck(ctx)
    {
      Emit(Do(Mov(RAX, PcCell)));
      Emit(Do(Mov(RCX, Const(ctx.nextPc))));
      Emit(Do(Cmp(RAX, R(RCX))));
      Emit(Jcc(CcNE, Exit));
      EmitFallThrough(ctx);
    }

    method EmitJal(i: Instr, target: bv64, ctx: FlowContext)
      requires i.opcode.JAL? && target == Add(ctx.pc, Imm(i))
      modifies this
      ensures code == old(code) + Tail(i, ctx)
    {
      hide PostCallCheck;
      if i.rd == 0 {
        EmitJumpOrExit(target, ctx.labels);
      } else {
        EmitCallTrampoline(Some(target), ctx.nextPc);
        EmitPostCallCheck(ctx);
      }
    }

    method EmitJalr(i: Instr, ctx: FlowContext)
      requires i.opcode.JALR?
      modifies this
      ensures code == old(code) + Tail(i, ctx)
    {
      hide FallThrough, Add, Imm;
      if IsRet(i) {
        Emit(Jmp(Exit));
      } else if i.rd != 0 {
        EmitCallTrampoline(None, ctx.nextPc);
        EmitPostCallCheck(ctx);
      } else {
        Emit(Jmp(Exit));
      }
    }

    // compile_function_x86: count, data code, then the control flow of the instruction.
    method CompileFunctionInstr(direct: bool, i: Instr, ctx: FlowContext)
      modifies this
      ensures code == old(code) + InstrCode(direct, i, ctx)
    {
      hide DataCode, BranchDispatch, EmitCall, FallThrough, Imm;
      var target := Add(ctx.pc, Imm(i));
      Emit(IncCounter);
      EmitData(direct, i);
      if IsBranch(i.opcode) {
        EmitBranchDispatch(target, ctx);
      } else if i.opcode.JAL? {
        EmitJal(i, target, ctx);
      } else if i.opcode.JALR? {
        EmitJalr(i, ctx);
      } else if i.opcode.ECALL? {
        Emit(Jmp(Exit));
      } else {
        EmitFallThrough(ctx);
      }
    }
  }

  lemma FunctionCodeStep(direct: bool, instrs: seq<Instr>, pcs: seq<bv64>, k: nat, before: seq<Ins>)
    requires |instrs| == |pcs| && k < |pcs|
    ensures before + FunctionCodeFrom(direct, instrs, pcs, k)
         == before + [Bind(At(pcs[k]))] + InstrCode(direct, instrs[k], ContextOf(pcs, k)) +
           FunctionCodeFrom(direct, instrs, pcs, k + 1)
  {
    hide InstrCode;
  }

  lemma PlainCodeStep(direct: bool, instrs: seq<Instr>, k: nat, before: seq<Ins>)
    requires k < |instrs|
    ensures before + PlainCodeFrom(direct, instrs[k..])
         == before + PlainInstr(direct, instrs[k]) + PlainCodeFrom(direct, instrs[k + 1..])
  {
    assert instrs[k..][1..] == instrs[k + 1..];
  }

  method CompileFunctionBlock(direct: bool, b: Block) returns (code: seq<Ins>)
    requires |b.pcs| == |b.instrs|
    ensures code == FunctionCodeFrom(direct, b.instrs, b.pcs, 0)
  {
    hide InstrCode, FunctionCodeFrom;
    var labels: seq<bv64> := [];
    for k := 0 to |b.pcs|
      invariant labels == b.pcs[..k]
    {
      labels := labels + [b.pcs[k]];
    }
    var a := new Assembler();
    var count := |b.instrs|;
    for k := 0 to count
      invariant a.code + FunctionCodeFrom(direct, b.instrs, b.pcs, k) == FunctionCodeFrom(direct, b.instrs, b.pcs, 0)
    {
      FunctionCodeStep(direct, b.instrs, b.pcs, k, a.code);
      a.Emit(Bind(At(b.pcs[k])));
      var nextPc := Add(b.pcs[k], 4);
      var ctx := FlowContext(b.pcs[k], nextPc, k + 1 < count && b.pcs[k + 1] == nextPc, labels);
      assert ctx == ContextOf(b.pcs, k);
      a.CompileFunctionInstr(direct, b.instrs[k], ctx);
    }
    a.Emit(Bind(Exit));
    LastBind(direct, b.instrs, b.pcs);
    code := a.code;
  }

  lemma LastBind(direct: bool, instrs: seq<Instr>, pcs: seq<bv64>)
    requires |instrs| == |pcs|
    ensures FunctionCodeFrom(direct, instrs, pcs, |pcs|) == [Bind(Exit)]
  {}

  method CompileBb(direct: bool, b: Block) returns (code: seq<Ins>)
    ensures code == PlainCodeFrom(direct, b.instrs)
  {
    hide DataCode;
    var a := new Assembler();
    for k := 0 to |b.instrs|
      invariant a.code + PlainCodeFrom(direct, b.instrs[k..]) == PlainCodeFrom(direct, b.instrs)
    {
      PlainCodeStep(direct, b.instrs, k, a.code);
      ghost var before := a.code;
      a.EmitData(direct, b.instrs[k]);
      if b.instrs[k].opcode.ECALL? {
        a.Emit(Jmp(Exit));
      }
      assert a.code == before + PlainInstr(direct, b.instrs[k]);
    }
    a.Emit(Bind(Exit));
    code := a.code;
  }

  // compile_block: function blocks with a pc per instruction have their own scheme.
  method Compile(direct: bool, b: Block) returns (code: seq<Ins>)
    ensures code == CompileBlock(direct, b)
  {
    if b.isFunction && |b.pcs| == |b.instrs| {
      code := CompileFunctionBlock(direct, b);
    } else {
      code := CompileBb(direct, b);
    }
  }
}
