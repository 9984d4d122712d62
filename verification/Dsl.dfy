/** The instruction DSL: from expressions to three-address statements, and what they compute. */
module Dsl {
  import opened Bits
  import opened Constants
  import Memory
  import Sv39

  // C++ variables of a generated body. Every constant is called `_val`: Constant drops its name.
  datatype Name = Tmp(n: nat) | Shared | Rd | Rs1 | Rs2 | ImmVar | PcVar

  datatype Ty = I32 | IConst

  datatype Operand = Var(name: Name, ty: Ty) | ConstOf(value: int)

  datatype BinOp = OpAdd | OpSub | OpAnd | OpOr | OpXor | OpShl | OpSrl | OpSra | OpEq | OpNeq | OpLt | OpGt | OpLtu |
    OpGtu
  datatype WordOp = AddW | SubW | ShlW | SrlW | SraW

  datatype Ir =
    | NewVar(v: Operand)
    | NewConst(value: int)
    | GetReg(reg: Name)
    | SetReg
    | GetImm
    | GetPc
    | Binary(op: BinOp, dest: Operand, a: Operand, b: Operand)
    | Word(w: WordOp, dest: Operand, a: Operand, b: Operand)
    | Let(dest: Operand, src: Operand)
    | LoadMem(dest: Operand, address: Operand, size: nat)
    | StoreMem(address: Operand, src: Operand, size: nat)
    | SetPc(src: Operand)
    | IfStmt(cond: Operand, body: seq<Ir>)
    | Ecall

  datatype Expr =
    | Lit(value: int)
    | Reg1
    | Reg2
    | Imm
    | Pc
    | Bin(op: BinOp, a: Expr, b: Expr)
    | Ge(a: Expr, b: Expr)
    | Geu(a: Expr, b: Expr)
    | WordExpr(w: WordOp, a: Expr, b: Expr)
    | MemLoad(a: Expr, size: nat)

  predicate IsShift(w: WordOp) { w.ShlW? || w.SrlW? || w.SraW? }

  // --- what an expression means ---

  // `mem` is the memory when the expression is evaluated.
  datatype Inputs = Inputs(rs1: bv64, rs2: bv64, imm: bv64, pc: bv64, satp: bv64, mem: Memory.Mem)

  // hart.load zero-extends, whatever sign the description asks for. Where the address does not
  // translate it ends the process, and the value does not matter.
  function LoadValue(mem: Memory.Mem, satp: bv64, va: bv64, size: nat): bv64
  {
    match Sv39.Translate(mem, satp, va)
    case None => 0
    case Some(pa) => Memory.Read(mem, pa, size)
  }

  predicate Unmapped(mem: Memory.Mem, satp: bv64, va: bv64) { Sv39.Translate(mem, satp, va).None? }

  function ApplyBin(op: BinOp, a: bv64, b: bv64): bv64
  {
    match op
    case OpAdd => Add(a, b)
    case OpSub => Sub(a, b)
    case OpAnd => And(a, b)
    case OpOr => Or(a, b)
    case OpXor => Xor(a, b)
    case OpShl => Shl(a, b)
    case OpSrl => Shr(a, b)
    case OpSra => Sar(a, b)
    case OpEq => FromBool(Same(a, b))
    case OpNeq => FromBool(!Same(a, b))
    case OpLt => FromBool(Slt(a, b))
    case OpGt => FromBool(Slt(b, a))
    case OpLtu => FromBool(Ult(a, b))
    case OpGtu => FromBool(Ult(b, a))
  }

  function ApplyWord(w: WordOp, a: bv64, b: bv64): bv64
  {
    match w
    case AddW => SextWord(AddLow(ZextWord(a), ZextWord(b)))
    case SubW => SextWord(SubLow(ZextWord(a), ZextWord(b)))
    case ShlW => ShlAt(Bits.Word(a), b)
    case SrlW => ShrAt(Bits.Word(a), b)
    case SraW => SextWord(SarAt(Bits.Word(a), b))
  }

  function Eval(e: Expr, x: Inputs): bv64
  {
    match e
    case Lit(v) => Value64(v)
    case Reg1 => x.rs1
    case Reg2 => x.rs2
    case Imm => x.imm
    case Pc => x.pc
    case Bin(op, a, b) => ApplyBin(op, Eval(a, x), Eval(b, x))
    case Ge(a, b) => FromBool(!Slt(Eval(a, x), Eval(b, x)))
    case Geu(a, b) => FromBool(!Ult(Eval(a, x), Eval(b, x)))
    case WordExpr(w, a, b) => ApplyWord(w, Eval(a, x), if IsShift(w) then Count5(Eval(b, x)) else Eval(b, x))
    case MemLoad(a, size) => LoadValue(x.mem, x.satp, Eval(a, x), size)
  }

  // Some load of the expression has an address that does not translate.
  predicate Faults(e: Expr, x: Inputs)
  {
    match e
    case Bin(_, a, b) => Faults(a, x) || Faults(b, x)
    case Ge(a, b) => Faults(a, x) || Faults(b, x)
    case Geu(a, b) => Faults(a, x) || Faults(b, x)
    case WordExpr(_, a, b) => Faults(a, x) || Faults(b, x)
    case MemLoad(a, _) => Faults(a, x) || Unmapped(x.mem, x.satp, Eval(a, x))
    case _ => false
  }

  // --- the builder ---

  // A DSL value: a Ruby integer, or a variable or constant of the scope.
  datatype Raw = Int(v: int) | Ref(o: Operand)

  // The global counter, and whether the scope already has its pc and imm variables.
  datatype Counter = Counter(next: nat, hasPc: bool, hasImm: bool)

  datatype Built = Built(code: seq<Ir>, r: Raw, c: Counter)

  function TypeOf(o: Operand): Ty { if o.Var? then o.ty else IConst }

  function Temp(n: nat, ty: Ty): Operand { Var(Tmp(n), ty) }

  function Fresh(c: Counter): Counter { c.(next := c.next + 1) }

  function Resolved(x: Raw): Operand { if x.Int? then ConstOf(x.v) else x.o }

  function ResolveCode(x: Raw): seq<Ir> { if x.Int? then [NewConst(x.v)] else [] }

  function ResolveCounter(x: Raw, c: Counter): Counter { if x.Int? then Fresh(c) else c }

  // binOp on evaluated arguments: constants first, then the temporary, typed by its left operand.
  function BinCode(op: BinOp, x: Raw, y: Raw, c: Counter): Built
  {
    var p, q := Resolved(x), Resolved(y);
    var c' := ResolveCounter(y, ResolveCounter(x, c));
    var t := Temp(c'.next, TypeOf(p));
    Built(ResolveCode(x) + ResolveCode(y) + [NewVar(t), Binary(op, t, p, q)], Ref(t), Fresh(c'))
  }

  // `b & 0x1F`, on a Ruby integer, of whatever sign, or on a variable.
  function MaskCode(y: Raw, c: Counter): Built
  {
    if y.Int? then Built([], Int(y.v % 32), c) else BinCode(OpAnd, y, Int(31), c)
  }

  function WordCode(w: WordOp, x: Raw, y: Raw, c: Counter): Built
  {
    var t := Temp(c.next, I32);
    var c1 := ResolveCounter(x, Fresh(c));
    var m := if IsShift(w) then MaskCode(y, c1) else Built([], y, c1);
    Built([NewVar(t)] + ResolveCode(x) + m.code + ResolveCode(m.r) + [Word(w, t, Resolved(x), Resolved(m.r))],
          Ref(t), ResolveCounter(m.r, m.c))
  }

  // memory_ld: the temporary, then the address if it is a constant, then the load.
  function LoadCode(x: Raw, size: nat, c: Counter): Built
  {
    var t := Temp(c.next, I32);
    Built([NewVar(t)] + ResolveCode(x) + [LoadMem(t, Resolved(x), size)], Ref(t), ResolveCounter(x, Fresh(c)))
  }

  function Then(a: Built, last: Built): Built { Built(a.code + last.code, last.r, last.c) }

  function Both(a: Built, b: Built, last: Built): Built { Built(a.code + b.code + last.code, last.r, last.c) }

  // ge and geu are neq(lt, 1).
  function NotLess(less: Built): Built
  {
    var n := BinCode(OpNeq, less.r, Int(1), less.c);
    Built(less.code + n.code, n.r, n.c)
  }

  // Arguments first, left to right, then the operation.
  function Build(e: Expr, c: Counter): Built
  {
    match e
    case Lit(v) => Built([], Int(v), c)
    case Reg1 => Built([], Ref(Var(Rs1, I32)), c)
    case Reg2 => Built([], Ref(Var(Rs2, I32)), c)
    case Imm =>
      var v := Var(ImmVar, I32);
      if c.hasImm then Built([], Ref(v), c) else Built([NewVar(v), GetImm], Ref(v), c.(hasImm := true))
    case Pc =>
      var v := Var(PcVar, I32);
      if c.hasPc then Built([], Ref(v), c) else Built([NewVar(v), GetPc], Ref(v), c.(hasPc := true))
    case Bin(op, a, b) =>
      var x := Build(a, c);
      var y := Build(b, x.c);
      Both(x, y, BinCode(op, x.r, y.r, y.c))
    case Ge(a, b) =>
      var x := Build(a, c);
      var y := Build(b, x.c);
      NotLess(Both(x, y, BinCode(OpLt, x.r, y.r, y.c)))
    case Geu(a, b) =>
      var x := Build(a, c);
      var y := Build(b, x.c);
      NotLess(Both(x, y, BinCode(OpLtu, x.r, y.r, y.c)))
    case WordExpr(w, a, b) =>
      var x := Build(a, c);
      var y := Build(b, x.c);
      Both(x, y, WordCode(w, x.r, y.r, y.c))
    case MemLoad(a, size) =>
      var x := Build(a, c);
      Then(x, LoadCode(x.r, size, x.c))
  }

  // --- running the generated statements ---

  type Env = map<Name, bv64>

  function Get(env: Env, n: Name): bv64 { if n in env then env[n] else 0 }

  function CppName(o: Operand): Name { if o.Var? then o.name else Shared }

  // Reading a constant reads the variable all constants share.
  function Read(env: Env, o: Operand): bv64 { Get(env, CppName(o)) }

  // What runs after `aborted` is set is never seen: the process has ended.
  datatype Cpp = Cpp(env: Env, nextPc: bv64, wrote: Option<bv64>, halted: bool, mem: Memory.Mem, aborted: bool)

  function Set(s: Cpp, n: Name, v: bv64): Cpp { s.(env := s.env[n := v]) }

  // hart.store: the memory afterwards, unless the address does not translate.
  function StoreInto(mem: Memory.Mem, satp: bv64, va: bv64, v: bv64, size: nat): Option<Memory.Mem>
  {
    match Sv39.Translate(mem, satp, va)
    case None => None
    case Some(pa) => Some(Memory.Write(mem, pa, v, size))
  }

  function Stored(s: Cpp, satp: bv64, va: bv64, v: bv64, size: nat): Cpp
  {
    match StoreInto(s.mem, satp, va, v, size)
    case None => s.(aborted := true)
    case Some(mem) => s.(mem := mem)
  }

  function ExecIr(i: Ir, s: Cpp, x: Inputs): Cpp
  {
    match i
    case NewVar(_) => s
    case NewConst(v) => Set(s, Shared, LiteralWord(v))
    case GetReg(r) => Set(s, r, if r == Rs1 then x.rs1 else x.rs2)
    case SetReg => s.(wrote := Some(Get(s.env, Rd)))
    case GetImm => Set(s, ImmVar, x.imm)
    case GetPc => Set(s, PcVar, x.pc)
    case Binary(op, d, a, b) => Set(s, CppName(d), ApplyBin(op, Read(s.env, a), Read(s.env, b)))
    case Word(w, d, a, b) => Set(s, CppName(d), ApplyWord(w, Read(s.env, a), Read(s.env, b)))
    case Let(d, v) => Set(s, CppName(d), Read(s.env, v))
    case LoadMem(d, a, size) =>
      var va := Read(s.env, a);
      Set(s, CppName(d), LoadValue(s.mem, x.satp, va, size)).(aborted := s.aborted || Unmapped(s.mem, x.satp, va))
    case StoreMem(a, v, size) => Stored(s, x.satp, Read(s.env, a), Read(s.env, v), size)
    case SetPc(v) => s.(nextPc := Read(s.env, v))
    // What a body declares is gone after it.
    case IfStmt(c, body) => if Read(s.env, c) == 0 then s else RunIr(body, s, x).(env := s.env)
    case Ecall => s.(halted := true)
  }

  function RunIr(code: seq<Ir>, s: Cpp, x: Inputs): Cpp
  {
    if code == [] then s else RunIr(code[1..], ExecIr(code[0], s, x), x)
  }

  lemma {:induction false} RunIrAppend(a: seq<Ir>, b: seq<Ir>, s: Cpp, x: Inputs)
    ensures RunIr(a + b, s, x) == RunIr(b, RunIr(a, s, x), x)
    decreases |a|
  {
    if a == [] {
      assert a + b == b;
    } else {
      assert (a + b)[1..] == a[1..] + b;
      RunIrAppend(a[1..], b, ExecIr(a[0], s, x), x);
    }
  }

  lemma RunIr1(i: Ir, s: Cpp, x: Inputs)
    ensures RunIr([i], s, x) == ExecIr(i, s, x)
  {
    assert [i][1..] == [];
  }

  lemma RunIr2(i: Ir, j: Ir, s: Cpp, x: Inputs)
    ensures RunIr([i, j], s, x) == ExecIr(j, ExecIr(i, s, x), x)
  {
    assert [i, j][1..] == [j];
    RunIr1(j, ExecIr(i, s, x), x);
  }

  // --- correctness ---

  function RawValue(r: Raw, env: Env): bv64 { if r.Int? then Value64(r.v) else Read(env, r.o) }

  // A value the builder hands on: never the shared constant, never a temporary yet to come.
  predicate Settled(r: Raw, c: Counter)
  {
    r.Int? ||
    (r.o.Var? &&
     match r.o.name
     case Tmp(n) => n < c.next
     case Rs1 | Rs2 => true
     case ImmVar => c.hasImm
     case PcVar => c.hasPc
     case Shared | Rd => false)
  }

  // The input variables that exist hold the inputs.
  predicate Loaded(env: Env, c: Counter, x: Inputs)
  {
    Get(env, Rs1) == x.rs1 && Get(env, Rs2) == x.rs2 &&
    (c.hasImm ==> Get(env, ImmVar) == x.imm) && (c.hasPc ==> Get(env, PcVar) == x.pc)
  }

  predicate Later(c: Counter, d: Counter) { c.next <= d.next && (c.hasImm ==> d.hasImm) && (c.hasPc ==> d.hasPc) }

  // No earlier temporary is overwritten, and nothing but variables changes.
  ghost predicate Keeps(s: Cpp, t: Cpp, c: Counter)
  {
    t == s.(env := t.env) && Get(t.env, Rd) == Get(s.env, Rd) &&
    forall n: nat | n < c.next :: Get(t.env, Tmp(n)) == Get(s.env, Tmp(n))
  }

  // The constant, if it is one, is emitted with its 64-bit value.
  predicate GoodRaw(r: Raw) { r.Int? ==> GoodLiteral(r.v) }

  // At most one of two operands is a constant.
  predicate Usable(p: Raw, q: Raw) { GoodRaw(p) && GoodRaw(q) && !(p.Int? && q.Int?) }

  // Constants are emitted with their values, and no operation takes two of them: they would share
  // a variable while both are needed. A constant shift count is masked before it is emitted.
  predicate NoClash(e: Expr)
  {
    match e
    case Bin(_, a, b) => NoClash(a) && NoClash(b) && !(a.Lit? && b.Lit?)
    case Ge(a, b) => NoClash(a) && NoClash(b) && !(a.Lit? && b.Lit?)
    case Geu(a, b) => NoClash(a) && NoClash(b) && !(a.Lit? && b.Lit?)
    case WordExpr(w, a, b) =>
      NoClash(a) && (NoClash(b) || (IsShift(w) && b.Lit?)) && !(a.Lit? && (b.Lit? || IsShift(w)))
    case MemLoad(a, _) => NoClash(a)
    case Lit(v) => GoodLiteral(v)
    case _ => true
  }

  // s, but for the process having ended if f.
  function Ended(s: Cpp, f: bool): Cpp { s.(aborted := s.aborted || f) }

  // The code b, run from s, leaves v in its result, ends the process exactly if f, keeps what was
  // there, and loads what it needs.
  ghost predicate Yields(b: Built, v: bv64, f: bool, s: Cpp, c: Counter, x: Inputs)
  {
    var t := RunIr(b.code, s, x);
    RawValue(b.r, t.env) == v && Settled(b.r, b.c) && Later(c, b.c) && Loaded(t.env, b.c, x) && Keeps(Ended(s, f), t, c)
  }

  lemma NotEnded(s: Cpp)
    ensures Ended(s, false) == s
  {}

  lemma SettledStays(r: Raw, s: Cpp, t: Cpp, c: Counter, x: Inputs)
    requires Settled(r, c) && Keeps(s, t, c) && Loaded(s.env, c, x) && Loaded(t.env, c, x)
    ensures RawValue(r, t.env) == RawValue(r, s.env)
  {}

  lemma ResolveRuns(r: Raw, s: Cpp, c: Counter, x: Inputs)
    requires Settled(r, c) && Loaded(s.env, c, x) && GoodRaw(r)
    ensures var t := RunIr(ResolveCode(r), s, x);
            Read(t.env, Resolved(r)) == RawValue(r, s.env) && Keeps(s, t, c) && Loaded(t.env, c, x) &&
            (r.Ref? ==> t == s)
  {
    hide ApplyWord, Value64, LiteralWord, GoodLiteral;
    if r.Int? {
      RunIr1(NewConst(r.v), s, x);
      GoodLiteralIsRight(r.v);
    }
  }

  lemma KeepsTwice(s: Cpp, t: Cpp, u: Cpp, c: Counter, d: Counter)
    requires Keeps(s, t, c) && Keeps(t, u, d) && c.next <= d.next
    ensures Keeps(s, u, c)
  {}

  lemma EndsTwice(s: Cpp, t: Cpp, u: Cpp, c: Counter, d: Counter, f: bool, g: bool)
    requires Keeps(Ended(s, f), t, c) && Keeps(Ended(t, g), u, d) && c.next <= d.next
    ensures Keeps(Ended(s, f || g), u, c)
  {}

  // Assigning a new temporary keeps everything else.
  lemma SetTemp(s: Cpp, n: nat, v: bv64, c: Counter, x: Inputs)
    requires Loaded(s.env, c, x) && c.next <= n
    ensures Keeps(s, Set(s, Tmp(n), v), c) && Loaded(Set(s, Tmp(n), v).env, c, x)
  {}

  // Two operands ready to be read: at most one of them is the shared constant.
  lemma OperandsReady(p: Raw, q: Raw, s: Cpp, c: Counter, x: Inputs)
    requires Settled(p, c) && Settled(q, c) && Loaded(s.env, c, x) && Usable(p, q)
    ensures var t := RunIr(ResolveCode(p) + ResolveCode(q), s, x);
            Read(t.env, Resolved(p)) == RawValue(p, s.env) && Read(t.env, Resolved(q)) == RawValue(q, s.env) &&
            Keeps(s, t, c) && Loaded(t.env, c, x)
  {
    RunIrAppend(ResolveCode(p), ResolveCode(q), s, x);
    var s1 := RunIr(ResolveCode(p), s, x);
    var s2 := RunIr(ResolveCode(q), s1, x);
    ResolveRuns(p, s, c, x);
    ResolveRuns(q, s1, c, x);
    KeepsTwice(s, s1, s2, c, c);
    SettledStays(q, s, s1, c, x);
    if p.Ref? {
      SettledStays(p, s1, s2, c, x);
    }
  }

  // One operation on settled operands, of which at most one is a constant.
  lemma BinRuns(op: BinOp, p: Raw, q: Raw, s: Cpp, c: Counter, x: Inputs)
    requires Settled(p, c) && Settled(q, c) && Loaded(s.env, c, x) && Usable(p, q)
    ensures Yields(BinCode(op, p, q, c), ApplyBin(op, RawValue(p, s.env), RawValue(q, s.env)), false, s, c, x)
  {
    hide ApplyBin, ApplyWord, ResolveCode, Resolved, RunIr, Loaded, Keeps;
    OperandsReady(p, q, s, c, x);
    var s2 := RunIr(ResolveCode(p) + ResolveCode(q), s, x);
    var n := ResolveCounter(q, ResolveCounter(p, c)).next;
    var t := Temp(n, TypeOf(Resolved(p)));
    var v := ApplyBin(op, Read(s2.env, Resolved(p)), Read(s2.env, Resolved(q)));
    RunIrAppend(ResolveCode(p) + ResolveCode(q), [NewVar(t), Binary(op, t, Resolved(p), Resolved(q))], s, x);
    RunIr2(NewVar(t), Binary(op, t, Resolved(p), Resolved(q)), s2, x);
    SetTemp(s2, n, v, c, x);
    KeepsTwice(s, s2, Set(s2, Tmp(n), v), c, c);
    LoadedLater(Set(s2, Tmp(n), v).env, c, BinCode(op, p, q, c).c, x);
    NotEnded(s);
  }

  lemma LoadedLater(env: Env, c: Counter, d: Counter, x: Inputs)
    requires Loaded(env, c, x) && d == c.(next := d.next)
    ensures Loaded(env, d, x)
  {}

  lemma NewVarRuns(v: Operand, rest: seq<Ir>, s: Cpp, x: Inputs)
    ensures RunIr([NewVar(v)] + rest, s, x) == RunIr(rest, s, x)
  {
    RunIrAppend([NewVar(v)], rest, s, x);
    RunIr1(NewVar(v), s, x);
  }

  // The word statement after its operands are ready.
  lemma WordEnds(w: WordOp, n: nat, p: Operand, q: Operand, before: seq<Ir>, s: Cpp, c: Counter, d: Counter, x: Inputs)
    requires c.next <= n < d.next && d == c.(next := d.next)
    requires Keeps(s, RunIr(before, s, x), c) && Loaded(RunIr(before, s, x).env, c, x)
    ensures var env := RunIr(before, s, x).env;
            Yields(Built([NewVar(Temp(n, I32))] + before + [Word(w, Temp(n, I32), p, q)], Ref(Temp(n, I32)), d),
                   ApplyWord(w, Read(env, p), Read(env, q)), false, s, c, x)
  {
    hide ApplyWord, RunIr, Loaded, Keeps;
    var t := Temp(n, I32);
    var s2 := RunIr(before, s, x);
    var v := ApplyWord(w, Read(s2.env, p), Read(s2.env, q));
    assert [NewVar(t)] + before + [Word(w, t, p, q)] == [NewVar(t)] + (before + [Word(w, t, p, q)]);
    NewVarRuns(t, before + [Word(w, t, p, q)], s, x);
    RunIrAppend(before, [Word(w, t, p, q)], s, x);
    RunIr1(Word(w, t, p, q), s2, x);
    SetTemp(s2, n, v, c, x);
    KeepsTwice(s, s2, Set(s2, Tmp(n), v), c, c);
    LoadedLater(Set(s2, Tmp(n), v).env, c, d, x);
    NotEnded(s);
  }

  lemma AddSubRuns(w: WordOp, p: Raw, q: Raw, s: Cpp, c: Counter, x: Inputs)
    requires !IsShift(w) && Settled(p, c) && Settled(q, c) && Loaded(s.env, c, x) && Usable(p, q)
    ensures Yields(WordCode(w, p, q, c), ApplyWord(w, RawValue(p, s.env), RawValue(q, s.env)), false, s, c, x)
  {
    hide ResolveCode, Resolved, RunIr, Loaded, Keeps, Yields, Settled;
    var t := Temp(c.next, I32);
    var before := ResolveCode(p) + ResolveCode(q);
    OperandsReady(p, q, s, c, x);
    WordEnds(w, c.next, Resolved(p), Resolved(q), before, s, c, WordCode(w, p, q, c).c, x);
    assert WordCode(w, p, q, c).code == [NewVar(t)] + before + [Word(w, t, Resolved(p), Resolved(q))];
  }

  // The masked count is a constant, or one more temporary.
  lemma ShiftRuns(w: WordOp, p: Raw, q: Raw, s: Cpp, c: Counter, x: Inputs)
    requires IsShift(w) && Settled(p, c) && Settled(q, c) && Loaded(s.env, c, x) && p.Ref?
    ensures Yields(WordCode(w, p, q, c), ApplyWord(w, RawValue(p, s.env), Count5(RawValue(q, s.env))), false, s, c, x)
  {
    hide ApplyBin, ApplyWord, RunIr, Loaded, Keeps, Yields, Settled, Value64, GoodLiteral, Count5;
    var t := Temp(c.next, I32);
    var code := WordCode(w, p, q, c);
    if q.Int? {
      var m := Int(q.v % 32);
      CountOfInteger(q.v);
      CountIsSettled(m.v, c);
      OperandsReady(p, m, s, c, x);
      WordEnds(w, c.next, Resolved(p), Resolved(m), ResolveCode(p) + ResolveCode(m), s, c, code.c, x);
      assert code.code == [NewVar(t)] + (ResolveCode(p) + ResolveCode(m)) + [Word(w, t, Resolved(p), Resolved(m))];
    } else {
      var m := BinCode(OpAnd, q, Int(31), Fresh(c));
      MaskRuns(p, q, s, c, x);
      WordEnds(w, c.next, Resolved(p), m.r.o, m.code, s, c, code.c, x);
      assert code.code == [NewVar(t)] + m.code + [Word(w, t, Resolved(p), m.r.o)];
    }
  }

  lemma CountIsSettled(v: int, c: Counter)
    ensures Settled(Int(v), c)
  {}

  // `b & 0x1F` on a variable leaves its low five bits, and the left operand as it was.
  lemma MaskRuns(p: Raw, q: Raw, s: Cpp, c: Counter, x: Inputs)
    requires p.Ref? && q.Ref? && Settled(p, c) && Settled(q, c) && Loaded(s.env, c, x)
    ensures var m := BinCode(OpAnd, q, Int(31), Fresh(c));
            var t := RunIr(m.code, s, x);
            m.r.Ref? && Read(t.env, m.r.o) == Count5(RawValue(q, s.env)) && Read(t.env, p.o) == RawValue(p, s.env) &&
            Keeps(s, t, c) && Loaded(t.env, c, x)
  {
    hide RunIr, Value64, GoodLiteral;
    ShippedLiterals();
    CountIsAnd(RawValue(q, s.env));
    var d := Fresh(c);
    assert Settled(p, d) && Settled(q, d) && Settled(Int(31), d) && Loaded(s.env, d, x);
    BinRuns(OpAnd, q, Int(31), s, d, x);
    NotEnded(s);
    var t := RunIr(BinCode(OpAnd, q, Int(31), d).code, s, x);
    SettledStays(p, s, t, d, x);
  }

  lemma CountIsAnd(x: bv64)
    ensures Count5(x) == And(x, 31)
  {}

  lemma SettledLater(r: Raw, c: Counter, d: Counter)
    requires Settled(r, c) && Later(c, d)
    ensures Settled(r, d)
  {}

  lemma OnlyLiteralsAreInt(e: Expr, c: Counter)
    ensures Build(e, c).r.Int? <==> e.Lit?
    ensures e.Lit? ==> Build(e, c).r == Int(e.value)
  {
    hide WordCode, BinCode, NotLess;
    match e
    case Bin(op, a, b) => OperationsAreVars(op, AddW, Build(a, c), Build(b, Build(a, c).c));
    case Ge(a, b) => OperationsAreVars(OpLt, AddW, Build(a, c), Build(b, Build(a, c).c));
    case Geu(a, b) => OperationsAreVars(OpLtu, AddW, Build(a, c), Build(b, Build(a, c).c));
    case WordExpr(w, a, b) => OperationsAreVars(OpAdd, w, Build(a, c), Build(b, Build(a, c).c));
    case MemLoad(a, size) => LoadIsVar(Build(a, c), size);
    case _ =>
  }

  lemma OperationsAreVars(op: BinOp, w: WordOp, p: Built, q: Built)
    ensures Both(p, q, BinCode(op, p.r, q.r, q.c)).r.Ref?
    ensures NotLess(Both(p, q, BinCode(op, p.r, q.r, q.c))).r.Ref?
    ensures Both(p, q, WordCode(w, p.r, q.r, q.c)).r.Ref?
  {
    hide WordCode, BinCode, NotLess;
    ResultIsVar(op, p.r, q.r, q.c);
    NotLessIsVar(Both(p, q, BinCode(op, p.r, q.r, q.c)));
    WordIsVar(w, p.r, q.r, q.c);
  }

  lemma LoadIsVar(a: Built, size: nat)
    ensures Then(a, LoadCode(a.r, size, a.c)).r.Ref?
  {}

  lemma ResultIsVar(op: BinOp, p: Raw, q: Raw, c: Counter)
    ensures BinCode(op, p, q, c).r.Ref?
  {}

  lemma WordIsVar(w: WordOp, p: Raw, q: Raw, c: Counter)
    ensures WordCode(w, p, q, c).r.Ref?
  {}

  lemma NotLessIsVar(less: Built)
    ensures NotLess(less).r.Ref?
  {}

  // Both arguments, evaluated left to right, hold their values when the operation comes.
  ghost predicate HoldBoth(a: Built, b: Built, u: bv64, v: bv64, f: bool, s: Cpp, c: Counter, x: Inputs)
  {
    var t := RunIr(a.code + b.code, s, x);
    RawValue(a.r, t.env) == u && RawValue(b.r, t.env) == v && Settled(a.r, b.c) && Settled(b.r, b.c) &&
    Loaded(t.env, b.c, x) && Keeps(Ended(s, f), t, c) && Later(c, b.c)
  }

  lemma ArgumentsHold(a: Built, b: Built, u: bv64, v: bv64, f: bool, g: bool, s: Cpp, c: Counter, x: Inputs)
    requires Yields(a, u, f, s, c, x) && Yields(b, v, g, RunIr(a.code, s, x), a.c, x)
    ensures HoldBoth(a, b, u, v, f || g, s, c, x)
  {
    var t := RunIr(a.code, s, x);
    RunIrAppend(a.code, b.code, s, x);
    SettledKept(a.r, Ended(t, g), RunIr(b.code, t, x), a.c, b.c, x);
    SettledLater(a.r, a.c, b.c);
    EndsTwice(s, t, RunIr(b.code, t, x), c, a.c, f, g);
  }

  lemma SettledKept(r: Raw, s: Cpp, t: Cpp, c: Counter, d: Counter, x: Inputs)
    requires Settled(r, c) && Keeps(s, t, c) && Later(c, d) && Loaded(s.env, c, x) && Loaded(t.env, d, x)
    ensures RawValue(r, t.env) == RawValue(r, s.env)
  {}

  lemma OperationEnds(a: Built, b: Built, last: Built, u: bv64, v: bv64, w: bv64, f: bool, s: Cpp, c: Counter,
          x: Inputs)
    requires HoldBoth(a, b, u, v, f, s, c, x) && Yields(last, w, false, RunIr(a.code + b.code, s, x), b.c, x)
    ensures Yields(Both(a, b, last), w, f, s, c, x)
  {
    RunIrAppend(a.code + b.code, last.code, s, x);
    var t := RunIr(a.code + b.code, s, x);
    EndsTwice(s, t, RunIr(last.code, t, x), c, b.c, f, false);
  }

  lemma NotLessRuns(less: Built, b: bool, f: bool, s: Cpp, c: Counter, x: Inputs)
    requires Yields(less, FromBool(b), f, s, c, x) && less.r.Ref?
    ensures Yields(NotLess(less), FromBool(!b), f, s, c, x)
  {
    hide BinCode, Value64, GoodLiteral;
    ShippedLiterals();
    var t := RunIr(less.code, s, x);
    var n := BinCode(OpNeq, less.r, Int(1), less.c);
    RunIrAppend(less.code, n.code, s, x);
    BinRuns(OpNeq, less.r, Int(1), t, less.c, x);
    FlagIsOne(b);
    EndsTwice(s, t, RunIr(n.code, t, x), c, less.c, f, false);
  }

  lemma FlagIsOne(b: bool)
    ensures Same(FromBool(b), 1) == b
  {}

  // Running what the builder appends for e leaves e's 64-bit value in its result, and changes no
  // earlier temporary; the process ends exactly if one of e's loads faults.
  lemma {:induction false} BuildRuns(e: Expr, s: Cpp, c: Counter, x: Inputs)
    requires NoClash(e) && Loaded(s.env, c, x) && s.mem == x.mem
    ensures Yields(Build(e, c), Eval(e, x), Faults(e, x), s, c, x)
    decreases e, 2
  {
    hide ApplyBin, ApplyWord, BinCode, WordCode, LoadCode, Then, NotLess, Both, HoldBoth, Yields, Loaded, Count5,
         LoadValue, Unmapped, Value64, GoodLiteral;
    match e
    case Bin(op, a, b) =>
      var p, q := ArgumentsRun(e, a, b, s, c, x);
      var t := RunIr(p.code + q.code, s, x);
      HeldParts(p, q, Eval(a, x), Eval(b, x), Faults(e, x), s, c, x);
      BinRuns(op, p.r, q.r, t, q.c, x);
      OperationEnds(p, q, BinCode(op, p.r, q.r, q.c), Eval(a, x), Eval(b, x), Eval(e, x), Faults(e, x), s, c, x);
    case Ge(_, _) => NegationRuns(e, s, c, x);
    case Geu(_, _) => NegationRuns(e, s, c, x);
    case WordExpr(w, a, b) =>
      var p, q := ArgumentsRun(e, a, b, s, c, x);
      var t := RunIr(p.code + q.code, s, x);
      HeldParts(p, q, Eval(a, x), Eval(b, x), Faults(e, x), s, c, x);
      if IsShift(w) {
        ShiftRuns(w, p.r, q.r, t, q.c, x);
      } else {
        AddSubRuns(w, p.r, q.r, t, q.c, x);
      }
      OperationEnds(p, q, WordCode(w, p.r, q.r, q.c), Eval(a, x), Eval(b, x), Eval(e, x), Faults(e, x), s, c, x);
    case MemLoad(a, size) =>
      BuildRuns(a, s, c, x);
      OnlyLiteralsAreInt(a, c);
      MemLoadRuns(Build(a, c), size, Eval(a, x), Faults(a, x), s, c, x);
    case _ => LeafRuns(e, s, c, x);
  }

  // The two comparisons made from a negated one.
  lemma {:induction false} NegationRuns(e: Expr, s: Cpp, c: Counter, x: Inputs)
    requires (e.Ge? || e.Geu?) && NoClash(e) && Loaded(s.env, c, x) && s.mem == x.mem
    ensures Yields(Build(e, c), Eval(e, x), Faults(e, x), s, c, x)
    decreases e, 1
  {
    hide ApplyBin, BinCode, Then, NotLess, Both, HoldBoth, Yields, Loaded;
    var p, q := ArgumentsRun(e, e.a, e.b, s, c, x);
    NegatedSlt(Eval(e.a, x), Eval(e.b, x));
    if e.Ge? {
      CompareRuns(OpLt, p, q, Eval(e.a, x), Eval(e.b, x), Faults(e, x), s, c, x);
      NotLessRuns(Both(p, q, BinCode(OpLt, p.r, q.r, q.c)), Slt(Eval(e.a, x), Eval(e.b, x)), Faults(e, x), s, c, x);
    } else {
      CompareRuns(OpLtu, p, q, Eval(e.a, x), Eval(e.b, x), Faults(e, x), s, c, x);
      NotLessRuns(Both(p, q, BinCode(OpLtu, p.r, q.r, q.c)), Ult(Eval(e.a, x), Eval(e.b, x)), Faults(e, x), s, c, x);
    }
  }

  lemma ArgumentsRun(whole: Expr, a: Expr, b: Expr, s: Cpp, c: Counter, x: Inputs) returns (p: Built, q: Built)
    requires a < whole && b < whole && NoClash(a) && (NoClash(b) || b.Lit?) && Loaded(s.env, c, x) && s.mem == x.mem
    ensures p == Build(a, c) && q == Build(b, p.c) &&
            HoldBoth(p, q, Eval(a, x), Eval(b, x), Faults(a, x) || Faults(b, x), s, c, x)
    ensures (p.r.Int? <==> a.Lit?) && (q.r.Int? <==> b.Lit?) && GoodRaw(p.r) && (NoClash(b) ==> GoodRaw(q.r))
    decreases whole, 0
  {
    hide HoldBoth, Loaded, NoClash, Yields, Eval, Faults, Build, GoodLiteral;
    p := Build(a, c);
    q := Build(b, p.c);
    BuildRuns(a, s, c, x);
    YieldsLoaded(p, Eval(a, x), Faults(a, x), s, c, x);
    if b.Lit? {
      LeafRuns(b, RunIr(p.code, s, x), p.c, x);
    } else {
      BuildRuns(b, RunIr(p.code, s, x), p.c, x);
    }
    ArgumentsHold(p, q, Eval(a, x), Eval(b, x), Faults(a, x), Faults(b, x), s, c, x);
    OnlyLiteralsAreInt(a, c);
    OnlyLiteralsAreInt(b, p.c);
    GoodOperand(a);
    GoodOperand(b);
  }

  lemma GoodOperand(e: Expr)
    ensures NoClash(e) && e.Lit? ==> GoodLiteral(e.value)
  {}

  lemma YieldsLoaded(b: Built, v: bv64, f: bool, s: Cpp, c: Counter, x: Inputs)
    requires Yields(b, v, f, s, c, x)
    ensures var t := RunIr(b.code, s, x); Loaded(t.env, b.c, x) && t.mem == s.mem
  {}

  lemma HeldParts(p: Built, q: Built, u: bv64, v: bv64, f: bool, s: Cpp, c: Counter, x: Inputs)
    requires HoldBoth(p, q, u, v, f, s, c, x)
    ensures var t := RunIr(p.code + q.code, s, x);
            Settled(p.r, q.c) && Settled(q.r, q.c) && Loaded(t.env, q.c, x) && RawValue(p.r, t.env) == u &&
            RawValue(q.r, t.env) == v
  {}

  lemma NegatedSlt(u: bv64, v: bv64)
    ensures ApplyBin(OpLt, u, v) == FromBool(Slt(u, v)) && ApplyBin(OpLtu, u, v) == FromBool(Ult(u, v))
  {}

  lemma CompareRuns(op: BinOp, p: Built, q: Built, u: bv64, v: bv64, f: bool, s: Cpp, c: Counter, x: Inputs)
    requires HoldBoth(p, q, u, v, f, s, c, x) && Usable(p.r, q.r)
    ensures Yields(Both(p, q, BinCode(op, p.r, q.r, q.c)), ApplyBin(op, u, v), f, s, c, x) &&
            Both(p, q, BinCode(op, p.r, q.r, q.c)).r.Ref?
  {
    hide ApplyBin, BinCode, HoldBoth, Yields;
    var t := RunIr(p.code + q.code, s, x);
    HeldParts(p, q, u, v, f, s, c, x);
    BinRuns(op, p.r, q.r, t, q.c, x);
    ResultIsVar(op, p.r, q.r, q.c);
    OperationEnds(p, q, BinCode(op, p.r, q.r, q.c), u, v, ApplyBin(op, u, v), f, s, c, x);
  }

  // A load at an address that has been evaluated.
  lemma MemLoadRuns(a: Built, size: nat, u: bv64, f: bool, s: Cpp, c: Counter, x: Inputs)
    requires Yields(a, u, f, s, c, x) && s.mem == x.mem && GoodRaw(a.r)
    ensures Yields(Then(a, LoadCode(a.r, size, a.c)), LoadValue(x.mem, x.satp, u, size),
                   f || Unmapped(x.mem, x.satp, u), s, c, x)
  {
    hide LoadCode, LoadValue, Unmapped, RunIr, Loaded;
    var t := RunIr(a.code, s, x);
    var last := LoadCode(a.r, size, a.c);
    RunIrAppend(a.code, last.code, s, x);
    LoadRuns(a.r, size, t, a.c, x);
    EndsTwice(s, t, RunIr(last.code, t, x), c, a.c, f, Unmapped(x.mem, x.satp, u));
  }

  lemma LoadRuns(p: Raw, size: nat, s: Cpp, c: Counter, x: Inputs)
    requires Settled(p, c) && Loaded(s.env, c, x) && GoodRaw(p)
    ensures var va := RawValue(p, s.env);
            Yields(LoadCode(p, size, c), LoadValue(s.mem, x.satp, va, size), Unmapped(s.mem, x.satp, va), s, c, x)
  {
    hide LoadValue, Unmapped, RunIr, Loaded, Keeps, ResolveCode, Resolved;
    var t := Temp(c.next, I32);
    var last := LoadMem(t, Resolved(p), size);
    assert [NewVar(t)] + ResolveCode(p) + [last] == [NewVar(t)] + (ResolveCode(p) + [last]);
    NewVarRuns(t, ResolveCode(p) + [last], s, x);
    RunIrAppend(ResolveCode(p), [last], s, x);
    ResolveRuns(p, s, c, x);
    var s1 := RunIr(ResolveCode(p), s, x);
    RunIr1(last, s1, x);
    var va := RawValue(p, s.env);
    LoadSets(s, s1, c.next, LoadValue(s.mem, x.satp, va, size), Unmapped(s.mem, x.satp, va), c, x);
    LoadedLater(Set(s1, Tmp(c.next), LoadValue(s.mem, x.satp, va, size)).env, c, LoadCode(p, size, c).c, x);
  }

  lemma LoadSets(s: Cpp, t: Cpp, n: nat, v: bv64, f: bool, c: Counter, x: Inputs)
    requires Keeps(s, t, c) && Loaded(t.env, c, x) && c.next <= n
    ensures var u := Set(t, Tmp(n), v).(aborted := t.aborted || f);
            Keeps(Ended(s, f), u, c) && Loaded(u.env, c, x) && t.mem == s.mem && Get(u.env, Tmp(n)) == v
  {}

  lemma LeafRuns(e: Expr, s: Cpp, c: Counter, x: Inputs)
    requires e.Lit? || e.Reg1? || e.Reg2? || e.Imm? || e.Pc?
    requires Loaded(s.env, c, x)
    ensures Yields(Build(e, c), Eval(e, x), false, s, c, x) && !Faults(e, x)
  {
    hide ApplyBin, ExecIr;
    if e.Imm? && !c.hasImm {
      ImmRuns(s, c, x);
    } else if e.Pc? && !c.hasPc {
      PcRuns(s, c, x);
    }
  }

  lemma SetInputKeeps(s: Cpp, n: Name, v: bv64, c: Counter)
    requires n == ImmVar || n == PcVar
    ensures Keeps(s, Set(s, n, v), c) && Get(Set(s, n, v).env, n) == v
  {}

  lemma SetImm(s: Cpp, c: Counter, x: Inputs)
    requires Loaded(s.env, c, x)
    ensures Keeps(s, Set(s, ImmVar, x.imm), c) && Loaded(Set(s, ImmVar, x.imm).env, c.(hasImm := true), x)
    ensures Get(Set(s, ImmVar, x.imm).env, ImmVar) == x.imm
  {
    hide Keeps;
    SetInputKeeps(s, ImmVar, x.imm, c);
  }

  lemma SetPcVar(s: Cpp, c: Counter, x: Inputs)
    requires Loaded(s.env, c, x)
    ensures Keeps(s, Set(s, PcVar, x.pc), c) && Loaded(Set(s, PcVar, x.pc).env, c.(hasPc := true), x)
    ensures Get(Set(s, PcVar, x.pc).env, PcVar) == x.pc
  {
    hide Keeps;
    SetInputKeeps(s, PcVar, x.pc, c);
  }

  lemma ImmRuns(s: Cpp, c: Counter, x: Inputs)
    requires Loaded(s.env, c, x) && !c.hasImm
    ensures Yields(Build(Imm, c), x.imm, false, s, c, x)
  {
    hide RunIr, Loaded, Get;
    RunIr2(NewVar(Var(ImmVar, I32)), GetImm, s, x);
    SetImm(s, c, x);
  }

  lemma PcRuns(s: Cpp, c: Counter, x: Inputs)
    requires Loaded(s.env, c, x) && !c.hasPc
    ensures Yields(Build(Pc, c), x.pc, false, s, c, x)
  {
    hide ApplyWord, RunIr, Loaded, Get;
    RunIr2(NewVar(Var(PcVar, I32)), GetPc, s, x);
    SetPcVar(s, c, x);
  }
}
