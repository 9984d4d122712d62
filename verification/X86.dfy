/** The abstract x86 machine the emitted code runs on: six scratch registers, the operands of
    the last comparison, and the memory cells of the hart that the pinned pointers reach. */
module X86 {
  import opened Bits
  import opened Memory
  import opened Isa

  datatype Reg = RAX | RCX | RDX | R8 | R10 | RSI

  datatype AluOp = AddOp | SubOp | AndOp | OrOp | XorOp
  datatype ShiftOp = ShlOp | ShrOp | SarOp
  datatype Cond = CcE | CcNE | CcL | CcGE | CcB | CcAE
  datatype Extend = Zx8 | Zx16 | Zx32 | Sx8 | Sx16 | Sx32 | Full

  datatype Label = Exit | At(pc: bv64)

  // A source operand: a register, the register-file cell [regs + 8n] (64 or zero-extended 32
  // bits), the pc cell, or an immediate.
  datatype Operand = R(r: Reg) | RegCell(n: nat) | RegCell32(n: nat) | PcCell | Const(v: bv64)

  // Instructions that change scratch registers only.
  datatype CpuOp =
    | Mov(d: Reg, s: Operand)
    | Alu(op: AluOp, d: Reg, s: Operand)
    | Alu32(op: AluOp, d: Reg, s: Operand)
    | Shift(sh: ShiftOp, d: Reg, s: Operand)    // the count is cl or an immediate
    | Shift32(sh: ShiftOp, d: Reg, s: Operand)
    | Cmp(a: Reg, s: Operand)
    | CMov(cc: Cond, d: Reg, r: Reg)
    | SetCc(cc: Cond, d: Reg)                   // writes the low byte only
    | Ext(how: Extend, d: Reg)
    | LdMem(how: Extend, d: Reg, a: Reg, n: nat)

  // An address in a register is a guest address: lea r10, [mem_base + rax] is Mov(R10, R(RAX)).
  datatype Ins =
    | Do(op: CpuOp)
    | StCell(n: nat, s: Reg)
    | StPc(s: Reg)
    | StMem(a: Reg, s: Reg, n: nat)
    | IncCounter
    | CallMemRead                   // rsi = address, rdx = size, rax = result
    | CallMemWrite                  // rsi = address, rdx = value, rcx = size
    | CallEcall
    | CallTrampoline                // rsi = target pc, rdx = return pc
    | Jmp(l: Label)
    | Jcc(cc: Cond, l: Label)
    | Bind(l: Label)

  predicate IsStraight(i: Ins) { !i.CallTrampoline? && !i.Jmp? && !i.Jcc? }

  datatype Flags = Undefined | Compared(a: bv64, b: bv64)

  datatype Cpu = Cpu(rax: bv64, rcx: bv64, rdx: bv64, r8: bv64, r10: bv64, rsi: bv64, flags: Flags) {
    function Get(r: Reg): bv64
    {
      match r
      case RAX => rax
      case RCX => rcx
      case RDX => rdx
      case R8 => r8
      case R10 => r10
      case RSI => rsi
    }

    function Set(r: Reg, v: bv64): Cpu
    {
      match r
      case RAX => this.(rax := v)
      case RCX => this.(rcx := v)
      case RDX => this.(rdx := v)
      case R8 => this.(r8 := v)
      case R10 => this.(r10 := v)
      case RSI => this.(rsi := v)
    }

    // Arithmetic leaves the flags unusable for the conditions below.
    function Compute(r: Reg, v: bv64): Cpu { Set(r, v).(flags := Undefined) }

    // After a call every scratch register but rax holds a value the code may not rely on.
    function Clobbered(result: bv64, junk: bv64): Cpu { Cpu(result, junk, junk, junk, junk, junk, Undefined) }

    predicate Holds(cc: Cond)
    {
      flags.Compared? &&
      match cc
      case CcE => Same(flags.a, flags.b)
      case CcNE => !Same(flags.a, flags.b)
      case CcL => Slt(flags.a, flags.b)
      case CcGE => !Slt(flags.a, flags.b)
      case CcB => Ult(flags.a, flags.b)
      case CcAE => !Ult(flags.a, flags.b)
    }
  }

  function AluValue(op: AluOp, a: bv64, b: bv64): bv64
  {
    match op
    case AddOp => Add(a, b)
    case SubOp => Sub(a, b)
    case AndOp => And(a, b)
    case OrOp => Or(a, b)
    case XorOp => Xor(a, b)
  }

  function ShiftValue(sh: ShiftOp, a: bv64, k: bv64): bv64
  {
    match sh
    case ShlOp => Shl(a, k)
    case ShrOp => Shr(a, k)
    case SarOp => Sar(a, k)
  }

  // The emitters use 32-bit add and sub only.
  function AluValue32(op: AluOp, a: bv64, b: bv64): bv64
  {
    match op
    case AddOp => AddLow(a, b)
    case SubOp => SubLow(a, b)
    case _ => ZextWord(AluValue(op, a, b))
  }

  function ShiftValue32(sh: ShiftOp, a: bv64, k: bv64): bv64
  {
    match sh
    case ShlOp => ShlAt(Word(a), Count5(k))
    case ShrOp => ShrAt(Word(a), Count5(k))
    case SarOp => SarAt(Word(a), Count5(k))
  }

  function Extended(how: Extend, v: bv64): bv64
  {
    match how
    case Zx8 => ZextByte(v)
    case Zx16 => ZextHalf(v)
    case Zx32 => ZextWord(v)
    case Sx8 => SextByte(v)
    case Sx16 => SextHalf(v)
    case Sx32 => SextWord(v)
    case Full => v
  }

  function SizeArg(v: bv64): nat { if v == 1 then 1 else if v == 2 then 2 else if v == 4 then 4 else 8 }

  datatype State = State(cpu: Cpu, hart: Hart, count: nat)

  function Fetch(s: Operand, c: Cpu, h: Hart): bv64
  {
    match s
    case R(r) => c.Get(r)
    case RegCell(n) => Cell(h, n)
    case RegCell32(n) => ZextWord(Cell(h, n))
    case PcCell => h.pc
    case Const(v) => v
  }

  function DoOp(op: CpuOp, c: Cpu, h: Hart): Cpu
  {
    match op
    case Mov(d, s) => c.Set(d, Fetch(s, c, h))
    case Alu(op, d, s) => c.Compute(d, AluValue(op, c.Get(d), Fetch(s, c, h)))
    case Alu32(op, d, s) => c.Compute(d, AluValue32(op, c.Get(d), Fetch(s, c, h)))
    case Shift(sh, d, s) => c.Compute(d, ShiftValue(sh, c.Get(d), Fetch(s, c, h)))
    case Shift32(sh, d, s) => c.Compute(d, ShiftValue32(sh, c.Get(d), Fetch(s, c, h)))
    case Cmp(a, s) => c.(flags := Compared(c.Get(a), Fetch(s, c, h)))
    case CMov(cc, d, r) => if c.Holds(cc) then c.Set(d, c.Get(r)) else c
    case SetCc(cc, d) => c.Set(d, WithFlag(c.Get(d), c.Holds(cc)))
    case Ext(how, d) => c.Set(d, Extended(how, c.Get(d)))
    case LdMem(how, d, a, n) => c.Set(d, Extended(how, Read(h.mem, c.Get(a), n)))
  }

  function WithFlag(v: bv64, b: bool): bv64 { (v & !0xFF) | FromBool(b) }

  // One instruction that neither jumps nor calls the call trampoline. An aborted process runs nothing.
  function Exec(i: Ins, x: State, junk: bv64): State
  {
    var c, h := x.cpu, x.hart;
    if h.status == Aborted then x else
    match i
    case Do(op) => x.(cpu := DoOp(op, c, h))
    case StCell(n, s) => x.(hart := h.(regs := h.regs[n := c.Get(s)]))
    case StPc(s) => x.(hart := h.(pc := c.Get(s)))
    case StMem(a, s, n) => x.(hart := h.(mem := Write(h.mem, c.Get(a), c.Get(s), n)))
    case IncCounter => State(c.(flags := Undefined), h, x.count + 1)
    case CallMemRead =>
      (match Load(h, c.rsi, SizeArg(c.rdx))
       case None => x.(hart := h.(status := Aborted))
       case Some(v) => x.(cpu := c.Clobbered(v, junk)))
    case CallMemWrite => x.(cpu := c.Clobbered(junk, junk), hart := Store(h, c.rsi, c.rdx, SizeArg(c.rcx)))
    case CallEcall => x.(cpu := c.Clobbered(junk, junk), hart := h.(status := Halted))
    case Bind(_) | CallTrampoline | Jmp(_) | Jcc(_, _) => x
  }

  predicate Straight(code: seq<Ins>) { forall i | i in code :: IsStraight(i) }

  // Straight-line code.
  function Run(code: seq<Ins>, x: State, junk: bv64): State
  {
    if code == [] then x else Run(code[1..], Exec(code[0], x, junk), junk)
  }

  lemma {:induction false} RunAppend(a: seq<Ins>, b: seq<Ins>, x: State, junk: bv64)
    ensures Run(a + b, x, junk) == Run(b, Run(a, x, junk), junk)
    decreases |a|
  {
    hide Exec;
    if a == [] {
      assert a + b == b;
    } else {
      assert (a + b)[1..] == a[1..] + b;
      RunAppend(a[1..], b, Exec(a[0], x, junk), junk);
    }
  }

  lemma Run1(a: Ins, x: State, junk: bv64)
    ensures Run([a], x, junk) == Exec(a, x, junk)
  {
    assert [a][1..] == [];
  }

  lemma Run2(a: Ins, b: Ins, x: State, junk: bv64)
    ensures Run([a, b], x, junk) == Exec(b, Exec(a, x, junk), junk)
  {
    assert [a, b][1..] == [b];
    Run1(b, Exec(a, x, junk), junk);
  }

  lemma Run3(a: Ins, b: Ins, c: Ins, x: State, junk: bv64)
    ensures Run([a, b, c], x, junk) == Exec(c, Exec(b, Exec(a, x, junk), junk), junk)
  {
    hide Exec;
    assert [a, b, c][1..] == [b, c];
    Run2(b, c, Exec(a, x, junk), junk);
  }

  lemma Run4(a: Ins, b: Ins, c: Ins, d: Ins, x: State, junk: bv64)
    ensures Run([a, b, c, d], x, junk) == Exec(d, Exec(c, Exec(b, Exec(a, x, junk), junk), junk), junk)
  {
    hide Exec;
    assert [a, b, c, d][1..] == [b, c, d];
    Run3(b, c, d, Exec(a, x, junk), junk);
  }

  lemma Run5(a: Ins, b: Ins, c: Ins, d: Ins, e: Ins, x: State, junk: bv64)
    ensures Run([a, b, c, d, e], x, junk)
            == Exec(e, Exec(d, Exec(c, Exec(b, Exec(a, x, junk), junk), junk), junk), junk)
  {
    hide Exec;
    assert [a, b, c, d, e][1..] == [b, c, d, e];
    Run4(b, c, d, e, Exec(a, x, junk), junk);
  }
}
