/** When the C++ generated for a whole body is valid, the scopes of its if_exprs included; and that
    every body of the ISA description is. */
module CppBodies {
  import opened Dsl
  import opened DslPrograms
  import opened CppScopes
  import opened GeneratedExecuter
  import I = Isa

  // A scope is valid if its own declarations are and every scope inside it is.
  ghost predicate ValidCode(code: seq<Ir>)
    decreases code, 1
  {
    ValidScope(code) && InnerValid(code)
  }

  ghost predicate InnerValid(code: seq<Ir>)
    decreases code, 0
  {
    forall i | i in code && i.IfStmt? :: ValidCode(i.body)
  }

  // How often the statement makes the builder declare a name in its own scope.
  function StmNeeds(m: Stm, n: Inline): nat
  {
    match m
    case LetRd(e) => Needs(e, n) + One(e.Lit? && n.ConstName?)
    case SetPcTo(e) => Needs(e, n) + One(e.Lit? && n.ConstName?)
    case StoreTo(a, e, _) => Needs(a, n) + Needs(e, n) + Literals(a, e, n)
    case If(cond, _) => Needs(cond, n) + One(cond.Lit? && n.ConstName?)
    case EcallStm => 0
  }

  function BodyNeeds(ms: seq<Stm>, n: Inline): nat
  {
    if ms == [] then 0 else StmNeeds(ms[0], n) + BodyNeeds(ms[1..], n)
  }

  predicate StmTyped(m: Stm)
  {
    match m
    case LetRd(e) => Typed(e) && Fits(e)
    case SetPcTo(e) => Typed(e) && Fits(e)
    case StoreTo(a, e, _) => Typed(a) && Typed(e) && Fits(a) && Fits(e)
    case If(cond, _) => Typed(cond) && Fits(cond)
    case EcallStm => true
  }

  // At most one constant and one word operation of each kind in each scope, no literal on the left
  // of an operation, and literals of less than 64 bits.
  ghost predicate BodyValid(ms: seq<Stm>)
    decreases ms, 1
  {
    (forall m | m in ms :: StmTyped(m)) && (forall n: Inline :: BodyNeeds(ms, n) <= 1) && InnerBodiesValid(ms)
  }

  ghost predicate InnerBodiesValid(ms: seq<Stm>)
    decreases ms, 0
  {
    forall m | m in ms && m.If? :: BodyValid(m.body)
  }

  ghost predicate NoIfs(code: seq<Ir>) { forall i | i in code :: !i.IfStmt? }

  lemma NoIfsAppend(a: seq<Ir>, b: seq<Ir>)
    requires NoIfs(a) && NoIfs(b)
    ensures NoIfs(a + b)
  {}

  lemma ResolveHasNoIfs(r: Raw)
    ensures NoIfs(ResolveCode(r))
  {}

  lemma BinHasNoIfs(op: BinOp, x: Raw, y: Raw, c: Counter)
    ensures NoIfs(BinCode(op, x, y, c).code)
  {}

  lemma WordHasNoIfs(w: WordOp, x: Raw, y: Raw, c: Counter)
    ensures NoIfs(WordCode(w, x, y, c).code)
  {
    hide BinCode, ResolveCode;
    var c1 := ResolveCounter(x, Fresh(c));
    var m := if IsShift(w) then MaskCode(y, c1) else Built([], y, c1);
    BinHasNoIfs(OpAnd, y, Int(31), c1);
    ResolveHasNoIfs(x);
    ResolveHasNoIfs(m.r);
  }

  lemma LoadHasNoIfs(x: Raw, size: nat, c: Counter)
    ensures NoIfs(LoadCode(x, size, c).code)
  {}

  lemma BothHaveNoIfs(a: Built, b: Built, last: Built)
    requires NoIfs(a.code) && NoIfs(b.code) && NoIfs(last.code)
    ensures NoIfs(Both(a, b, last).code)
  {}

  lemma NotLessHasNoIfs(less: Built)
    requires NoIfs(less.code)
    ensures NoIfs(NotLess(less).code)
  {
    hide BinCode;
    BinHasNoIfs(OpNeq, less.r, Int(1), less.c);
  }

  lemma {:induction false} BuildHasNoIfs(e: Expr, c: Counter)
    ensures NoIfs(Build(e, c).code)
    decreases e
  {
    hide BinCode, WordCode, LoadCode, Both, NotLess, NoIfs;
    match e
    case Bin(op, a, b) =>
      var p, q := Build(a, c), Build(b, Build(a, c).c);
      BuildHasNoIfs(a, c);
      BuildHasNoIfs(b, p.c);
      BinHasNoIfs(op, p.r, q.r, q.c);
      BothHaveNoIfs(p, q, BinCode(op, p.r, q.r, q.c));
    case Ge(a, b) => CompareHasNoIfs(e, OpLt, a, b, c);
    case Geu(a, b) => CompareHasNoIfs(e, OpLtu, a, b, c);
    case WordExpr(w, a, b) =>
      var p, q := Build(a, c), Build(b, Build(a, c).c);
      BuildHasNoIfs(a, c);
      BuildHasNoIfs(b, p.c);
      WordHasNoIfs(w, p.r, q.r, q.c);
      BothHaveNoIfs(p, q, WordCode(w, p.r, q.r, q.c));
    case MemLoad(a, size) =>
      var p := Build(a, c);
      BuildHasNoIfs(a, c);
      LoadHasNoIfs(p.r, size, p.c);
      NoIfsAppend(p.code, LoadCode(p.r, size, p.c).code);
    case _ => LeafHasNoIfs(e, c);
  }

  lemma CompareHasNoIfs(whole: Expr, op: BinOp, a: Expr, b: Expr, c: Counter)
    requires a < whole && b < whole
    ensures var p := Build(a, c);
            var q := Build(b, p.c);
            NoIfs(NotLess(Both(p, q, BinCode(op, p.r, q.r, q.c))).code)
    decreases whole, 0
  {
    hide BinCode, Both, NotLess, NoIfs, Build;
    var p, q := Build(a, c), Build(b, Build(a, c).c);
    BuildHasNoIfs(a, c);
    BuildHasNoIfs(b, p.c);
    BinHasNoIfs(op, p.r, q.r, q.c);
    BothHaveNoIfs(p, q, BinCode(op, p.r, q.r, q.c));
    NotLessHasNoIfs(Both(p, q, BinCode(op, p.r, q.r, q.c)));
  }

  lemma LeafHasNoIfs(e: Expr, c: Counter)
    requires e.Lit? || e.Reg1? || e.Reg2? || e.Imm? || e.Pc?
    ensures NoIfs(Build(e, c).code)
  {}

  // --- statements ---

  lemma InnerAppend(a: seq<Ir>, b: seq<Ir>)
    ensures InnerValid(a + b) <==> InnerValid(a) && InnerValid(b)
  {
    hide ValidCode;
    if InnerValid(a + b) {
      assert forall i | i in a :: i in a + b;
      assert forall i | i in b :: i in a + b;
    }
  }

  lemma NoIfsInner(code: seq<Ir>)
    requires NoIfs(code)
    ensures InnerValid(code)
  {}

  // What the code of one statement adds to its scope.
  ghost predicate StmAdds(m: Stm, code: seq<Ir>)
  {
    (forall n: Inline :: Count(code, n) == StmNeeds(m, n)) && (AllDeclared(code) <==> StmTyped(m))
  }

  lemma UseAdds(m: Stm, e: Expr, c: Counter, d: Counter, last: Ir)
    requires (m.LetRd? && m.e == e) || (m.SetPcTo? && m.e == e) || (m.If? && m.cond == e)
    requires !last.NewVar? && !last.NewConst? && !last.Word?
    ensures var b := Build(e, c); StmAdds(m, Use(b.(c := d), last).code)
    ensures InnerValid(Use(Build(e, c).(c := d), last).code) <==> (last.IfStmt? ==> ValidCode(last.body))
  {
    hide Build, Needs, Typed, AllDeclared, Count, InnerValid, ValidCode, DeclaresInline, ResolveCode;
    var b := Build(e, c);
    BuildHasNoIfs(e, c);
    ResolveHasNoIfs(b.r);
    NoIfsInner(b.code);
    NoIfsInner(ResolveCode(b.r));
    InnerAppend(b.code + ResolveCode(b.r), [last]);
    InnerAppend(b.code, ResolveCode(b.r));
    OneInner(last);
    BuildDeclares(e, c);
    OnlyLiteralsAreInt(e, c);
    AllDeclaredAppend(b.code + ResolveCode(b.r), [last]);
    AllDeclaredAppend(b.code, ResolveCode(b.r));
    ResolveDeclares(b.r);
    OneDeclared(last);
    forall n: Inline
      ensures Count(b.code + ResolveCode(b.r) + [last], n) == StmNeeds(m, n)
    {
      BuildCounts(e, c, n);
      CountAppend(b.code + ResolveCode(b.r), [last], n);
      CountAppend(b.code, ResolveCode(b.r), n);
      CountResolve(b.r, n);
      CountOne(last, n);
      NothingInline(last, n);
    }
  }

  lemma NothingInline(i: Ir, n: Inline)
    requires !i.NewConst? && !i.Word?
    ensures !DeclaresInline(i, n)
  {}

  lemma OneInner(i: Ir)
    ensures InnerValid([i]) <==> (i.IfStmt? ==> ValidCode(i.body))
  {
    hide ValidCode;
    assert i in [i];
  }

  lemma OneDeclared(i: Ir)
    requires !i.NewVar? && !i.NewConst?
    ensures AllDeclared([i])
  {}

  lemma StoreAdds(a: Expr, e: Expr, size: nat, c: Counter)
    ensures var p := Build(a, c);
            var code := StoreCode(p, Build(e, p.c), size).code;
            StmAdds(StoreTo(a, e, size), code) && InnerValid(code)
  {
    hide Build, Needs, Typed, AllDeclared, Count, InnerValid, ValidCode, DeclaresInline, ResolveCode, Resolved;
    var p := Build(a, c);
    var q := Build(e, p.c);
    var resolve := ResolveCode(p.r) + ResolveCode(q.r);
    var last := StoreMem(Resolved(p.r), Resolved(q.r), size);
    BuildHasNoIfs(a, c);
    BuildHasNoIfs(e, p.c);
    ResolveHasNoIfs(p.r);
    ResolveHasNoIfs(q.r);
    NoIfsAppend(p.code, q.code);
    NoIfsAppend(ResolveCode(p.r), ResolveCode(q.r));
    NoIfsAppend(p.code + q.code, resolve);
    NoIfsInner(p.code + q.code + resolve);
    InnerAppend(p.code + q.code + resolve, [last]);
    OneInner(last);
    OneDeclared(last);
    BuildDeclares(a, c);
    BuildDeclares(e, p.c);
    ResolveDeclares(p.r);
    ResolveDeclares(q.r);
    AllDeclaredAppend(p.code + q.code + resolve, [last]);
    AllDeclaredAppend(p.code + q.code, resolve);
    AllDeclaredAppend(p.code, q.code);
    AllDeclaredAppend(ResolveCode(p.r), ResolveCode(q.r));
    OnlyLiteralsAreInt(a, c);
    OnlyLiteralsAreInt(e, p.c);
    forall n: Inline
      ensures Count(p.code + q.code + resolve + [last], n) == StmNeeds(StoreTo(a, e, size), n)
    {
      StoreCounts(a, e, size, c, n);
    }
  }

  lemma StoreCounts(a: Expr, e: Expr, size: nat, c: Counter, n: Inline)
    ensures var p := Build(a, c);
            Count(StoreCode(p, Build(e, p.c), size).code, n) == Needs(a, n) + Needs(e, n) + Literals(a, e, n)
  {
    hide Build, Needs, Count, DeclaresInline, ResolveCode, Resolved;
    var p := Build(a, c);
    var q := Build(e, p.c);
    var resolve := ResolveCode(p.r) + ResolveCode(q.r);
    var last := StoreMem(Resolved(p.r), Resolved(q.r), size);
    BuildCounts(a, c, n);
    BuildCounts(e, p.c, n);
    OnlyLiteralsAreInt(a, c);
    OnlyLiteralsAreInt(e, p.c);
    CountAppend(p.code + q.code + resolve, [last], n);
    CountAppend(p.code + q.code, resolve, n);
    CountAppend(p.code, q.code, n);
    CountAppend(ResolveCode(p.r), ResolveCode(q.r), n);
    CountResolve(p.r, n);
    CountResolve(q.r, n);
    CountOne(last, n);
    NothingInline(last, n);
  }

  lemma EcallAdds()
    ensures StmAdds(EcallStm, [Ecall]) && InnerValid([Ecall])
  {
    forall n: Inline
      ensures Count([Ecall], n) == 0
    {
      CountOne(Ecall, n);
    }
  }

  lemma StmDeclares(m: Stm, c: Counter)
    ensures StmAdds(m, BuildStm(m, c).code)
    ensures InnerValid(BuildStm(m, c).code) <==> (m.If? ==> BodyValid(m.body))
    decreases m, 2
  {
    hide Build, StmAdds, InnerValid, BodyValid, ValidCode, Use, StoreCode;
    match m
    case LetRd(e) => UseAdds(m, e, c, Build(e, c).c, Let(Var(Rd, I32), Resolved(Build(e, c).r)));
    case SetPcTo(e) => UseAdds(m, e, c, Build(e, c).c, SetPc(Resolved(Build(e, c).r)));
    case StoreTo(a, e, size) => StoreAdds(a, e, size, c);
    case If(cond, body) =>
      var b := Build(cond, c);
      var inner := BuildAll(body, Counter(b.c.next, false, false));
      BodyIsValid(body, Counter(b.c.next, false, false));
      UseAdds(m, cond, c, b.c.(next := inner.c.next), IfStmt(Resolved(b.r), inner.code));
    case EcallStm => EcallAdds();
  }

  // What the code of a body adds to its scope.
  lemma {:induction false} AllDeclare(ms: seq<Stm>, c: Counter)
    ensures forall n: Inline :: Count(BuildAll(ms, c).code, n) == BodyNeeds(ms, n)
    ensures AllDeclared(BuildAll(ms, c).code) <==> forall m | m in ms :: StmTyped(m)
    ensures InnerValid(BuildAll(ms, c).code) <==> InnerBodiesValid(ms)
    decreases ms, 0
  {
    hide BuildStm, StmNeeds, StmTyped, InnerValid, BodyValid, AllDeclared, Count;
    if ms == [] {
      NothingDeclared();
    } else {
      var first := BuildStm(ms[0], c);
      var rest := BuildAll(ms[1..], first.c);
      StmDeclares(ms[0], c);
      AllDeclare(ms[1..], first.c);
      AllDeclaredAppend(first.code, rest.code);
      InnerAppend(first.code, rest.code);
      assert ms == [ms[0]] + ms[1..];
      forall n: Inline
        ensures Count(first.code + rest.code, n) == BodyNeeds(ms, n)
      {
        CountAppend(first.code, rest.code, n);
      }
      SplitBodies(ms);
    }
  }

  lemma NothingDeclared()
    ensures AllDeclared([]) && InnerValid([]) && forall n: Inline :: Count([], n) == 0
  {}

  lemma SplitBodies(ms: seq<Stm>)
    requires ms != []
    ensures InnerBodiesValid(ms) <==> (ms[0].If? ==> BodyValid(ms[0].body)) && InnerBodiesValid(ms[1..])
    ensures (forall m | m in ms :: StmTyped(m)) <==> StmTyped(ms[0]) && forall m | m in ms[1..] :: StmTyped(m)
  {
    hide BodyValid, StmTyped;
    assert ms == [ms[0]] + ms[1..];
    assert ms[0] in ms;
    assert forall m | m in ms[1..] :: m in ms;
  }

  // The code of a body is valid C++ exactly if the body is.
  lemma BodyIsValid(ms: seq<Stm>, c: Counter)
    ensures ValidCode(BuildAll(ms, c).code) <==> BodyValid(ms)
    decreases ms, 1
  {
    hide BuildAll, InnerValid, InnerBodiesValid, AllDeclared, Count, StmTyped, BodyNeeds;
    AllDeclare(ms, c);
  }

  // --- whole functions ---

  lemma PrologueDeclares(f: Fields)
    ensures AllDeclared(Prologue(f)) && InnerValid(Prologue(f)) && forall n: Inline :: Count(Prologue(f), n) == 0
  {
    var a := if f.rd then [NewVar(Var(Rd, I32))] else [];
    var b := if f.rs1 then [NewVar(Var(Rs1, I32)), GetReg(Rs1)] else [];
    var d := if f.rs2 then [NewVar(Var(Rs2, I32)), GetReg(Rs2)] else [];
    forall n: Inline
      ensures Count(Prologue(f), n) == 0
    {
      CountAppend(a + b, d, n);
      CountAppend(a, b, n);
      CountOne(NewVar(Var(Rd, I32)), n);
      CountTwo(NewVar(Var(Rs1, I32)), GetReg(Rs1), n);
      CountTwo(NewVar(Var(Rs2, I32)), GetReg(Rs2), n);
      NothingCounted(n);
    }
  }

  lemma EpilogueDeclares(f: Fields)
    ensures var last := if f.rd then [SetReg] else [];
            AllDeclared(last) && InnerValid(last) && forall n: Inline :: Count(last, n) == 0
  {
    var last := if f.rd then [SetReg] else [];
    forall n: Inline
      ensures Count(last, n) == 0
    {
      CountOne(SetReg, n);
      NothingCounted(n);
    }
  }

  // So is the whole execute function around it.
  lemma GeneratedIsValid(f: Fields, ms: seq<Stm>, next: nat)
    ensures ValidCode(Generated(f, ms, next)) <==> BodyValid(ms)
  {
    hide BuildAll, InnerValid, AllDeclared, Count, Prologue, BodyValid;
    var c := Counter(next, false, false);
    var body := BuildAll(ms, c).code;
    var last := if f.rd then [SetReg] else [];
    PrologueDeclares(f);
    EpilogueDeclares(f);
    BodyIsValid(ms, c);
    InnerAppend(Prologue(f) + body, last);
    InnerAppend(Prologue(f), body);
    AllDeclaredAppend(Prologue(f) + body, last);
    AllDeclaredAppend(Prologue(f), body);
    forall n: Inline
      ensures Count(Generated(f, ms, next), n) == Count(body, n)
    {
      CountAppend(Prologue(f) + body, last, n);
      CountAppend(Prologue(f), body, n);
    }
  }

  // --- the shipped bodies ---

  // One operation on rs1 and rs2 or the immediate, or one of the two upper immediates.
  predicate Simple(e: Expr)
  {
    (e.Bin? && e.a.Reg1? && (e.b.Reg2? || e.b.Imm?)) || (e.WordExpr? && e.a.Reg1? && (e.b.Reg2? || e.b.Imm?)) ||
    e == Bin(OpShl, Imm, Lit(12)) || e == Bin(OpAdd, Pc, Bin(OpShl, Imm, Lit(12)))
  }

  lemma ValuesAreSimple(op: I.Opcode)
    ensures Simple(ValueSource(op))
  {}

  lemma ValuesNeedLittle(op: I.Opcode, n: Inline)
    ensures Needs(ValueSource(op), n) <= 1 && Typed(ValueSource(op)) && !ValueSource(op).Lit?
  {
    hide ValueSource;
    ValuesAreSimple(op);
  }

  lemma ConditionsNeedLittle(op: I.Opcode, n: Inline)
    ensures Needs(Condition(op), n) <= 1 && Typed(Condition(op)) && !Condition(op).Lit?
  {}

  lemma SumsNeedLittle(n: Inline)
    ensures Needs(Address(), n) == 0 && Needs(Bin(OpAdd, Pc, Imm), n) == 0 && Needs(Bin(OpAdd, Pc, Lit(4)), n) <= 1
    ensures Typed(Address()) && Typed(Bin(OpAdd, Pc, Imm)) && Typed(Bin(OpAdd, Pc, Lit(4)))
  {}

  lemma OneStatement(m: Stm)
    requires StmTyped(m) && (forall n: Inline :: StmNeeds(m, n) <= 1) && (m.If? ==> BodyValid(m.body))
    ensures BodyValid([m])
  {
    hide StmTyped, StmNeeds;
    forall n: Inline
      ensures BodyNeeds([m], n) <= 1
    {
      assert BodyNeeds([m][1..], n) == 0;
    }
  }

  lemma TwoStatements(a: Stm, b: Stm)
    requires StmTyped(a) && StmTyped(b) && !a.If? && !b.If? && forall n: Inline :: StmNeeds(a, n) + StmNeeds(b, n) <= 1
    ensures BodyValid([a, b])
  {
    hide StmTyped, StmNeeds;
    forall n: Inline
      ensures BodyNeeds([a, b], n) <= 1
    {
      assert [a, b][1..] == [b];
      assert BodyNeeds([b][1..], n) == 0;
    }
  }

  lemma NoNeeds(n: Inline)
    ensures BodyNeeds([EcallStm], n) == 0 && BodyNeeds([LetRd(Pc), EcallStm], n) == 0
  {
    assert [EcallStm][1..] == [] && [LetRd(Pc), EcallStm][1..] == [EcallStm];
  }

  lemma EcallBody()
    ensures BodyValid([EcallStm, LetRd(Pc), EcallStm])
  {
    forall n: Inline
      ensures BodyNeeds([EcallStm, LetRd(Pc), EcallStm], n) <= 1
    {
      NoNeeds(n);
      assert [EcallStm, LetRd(Pc), EcallStm][1..] == [LetRd(Pc), EcallStm];
    }
  }

  lemma MemoryBodies(size: nat)
    ensures BodyValid([LetRd(MemLoad(Address(), size))]) && BodyValid([StoreTo(Address(), Reg2, size)])
  {
    hide BodyValid;
    forall n: Inline
      ensures StmNeeds(LetRd(MemLoad(Address(), size)), n) <= 1 && StmNeeds(StoreTo(Address(), Reg2, size), n) <= 1
      ensures StmTyped(LetRd(MemLoad(Address(), size))) && StmTyped(StoreTo(Address(), Reg2, size))
    {
      SumsNeedLittle(n);
    }
    SumsNeedLittle(ConstName);
    OneStatement(LetRd(MemLoad(Address(), size)));
    OneStatement(StoreTo(Address(), Reg2, size));
  }

  lemma BranchBody(e: Expr)
    requires Typed(e) && !e.Lit? && forall n: Inline :: Needs(e, n) <= 1
    ensures BodyValid([If(e, [SetPcTo(Bin(OpAdd, Pc, Imm))])])
  {
    hide BodyValid, Needs, Typed;
    forall n: Inline
      ensures StmNeeds(SetPcTo(Bin(OpAdd, Pc, Imm)), n) == 0
    {
      SumsNeedLittle(n);
    }
    SumsNeedLittle(ConstName);
    OneStatement(SetPcTo(Bin(OpAdd, Pc, Imm)));
    OneStatement(If(e, [SetPcTo(Bin(OpAdd, Pc, Imm))]));
  }

  lemma JumpBodies()
    ensures BodyValid([LetRd(Bin(OpAdd, Pc, Lit(4))), SetPcTo(Bin(OpAdd, Pc, Imm))])
    ensures BodyValid([LetRd(Bin(OpAdd, Pc, Lit(4))), SetPcTo(Address())])
  {
    hide BodyValid, Needs, Typed;
    forall n: Inline
      ensures StmNeeds(LetRd(Bin(OpAdd, Pc, Lit(4))), n) <= 1
      ensures StmNeeds(SetPcTo(Bin(OpAdd, Pc, Imm)), n) == 0 && StmNeeds(SetPcTo(Address()), n) == 0
    {
      SumsNeedLittle(n);
    }
    SumsNeedLittle(ConstName);
    TwoStatements(LetRd(Bin(OpAdd, Pc, Lit(4))), SetPcTo(Bin(OpAdd, Pc, Imm)));
    TwoStatements(LetRd(Bin(OpAdd, Pc, Lit(4))), SetPcTo(Address()));
  }

  lemma ValueBody(e: Expr)
    requires Typed(e) && !e.Lit? && forall n: Inline :: Needs(e, n) <= 1
    ensures BodyValid([LetRd(e)])
  {
    hide BodyValid, Needs, Typed;
    OneStatement(LetRd(e));
  }

  // The body of every instruction of the ISA description, csrw's aside, is valid.
  lemma ShippedBodiesAreValid(op: I.Opcode, next: nat)
    requires Generatable(op)
    ensures ValidCode(Generated(FieldsOf(op), Source(op), next))
  {
    hide ValidCode, Generated, BodyValid, Source, FieldsOf, ValueSource, Condition, Needs, Typed, I.IsLoad, I.IsStore,
         I.IsBranch, I.Width;
    SourceOfMemory(op);
    SourceOfControl(op);
    if I.IsLoad(op) || I.IsStore(op) {
      MemoryBodies(I.Width(op));
    } else if I.IsBranch(op) {
      forall n: Inline
        ensures Needs(Condition(op), n) <= 1
      {
        ConditionsNeedLittle(op, n);
      }
      ConditionsNeedLittle(op, ConstName);
      BranchBody(Condition(op));
    } else if op.JAL? || op.JALR? {
      JumpBodies();
    } else if op.ECALL? {
      EcallBody();
    } else {
      forall n: Inline
        ensures Needs(ValueSource(op), n) <= 1
      {
        ValuesNeedLittle(op, n);
      }
      ValuesNeedLittle(op, ConstName);
      SourceOfValue(op);
      ValueBody(ValueSource(op));
    }
    GeneratedIsValid(FieldsOf(op), Source(op), next);
  }

  // --- valid bodies are right ---

  // rd is not in the scope of an if_expr, and only bodies whose format has an rd may assign it.
  predicate RdInScope(ms: seq<Stm>, top: bool)
    decreases ms
  {
    forall m | m in ms :: (m.LetRd? ==> top) && (m.If? ==> RdInScope(m.body, false))
  }

  // And no literal that is emitted is a negative number of less than 32 bits.
  predicate NoShortNegatives(ms: seq<Stm>)
    decreases ms
  {
    forall m | m in ms ::
      match m
      case LetRd(e) => NoShortNegative(e)
      case SetPcTo(e) => NoShortNegative(e)
      case StoreTo(a, e, _) => NoShortNegative(a) && NoShortNegative(e)
      case If(cond, body) => NoShortNegative(cond) && NoShortNegatives(body)
      case EcallStm => true
  }

  lemma StmNeedsWithin(ms: seq<Stm>, m: Stm, n: Inline)
    requires m in ms
    ensures StmNeeds(m, n) <= BodyNeeds(ms, n)
    decreases |ms|
  {
    if m != ms[0] {
      StmNeedsWithin(ms[1..], m, n);
    }
  }

  lemma {:induction false} ValidBodyIsSane(ms: seq<Stm>, top: bool)
    requires BodyValid(ms) && RdInScope(ms, top) && NoShortNegatives(ms)
    ensures Sane(ms, top)
    decreases ms
  {
    hide NoClash, Needs, Typed, Fits, NoShortNegative;
    forall m | m in ms
      ensures match m
              case LetRd(e) => top && NoClash(e)
              case SetPcTo(e) => NoClash(e)
              case StoreTo(a, e, _) => NoClash(a) && NoClash(e) && !(a.Lit? && e.Lit?)
              case If(cond, body) => NoClash(cond) && Sane(body, false)
              case EcallStm => true
    {
      StmNeedsWithin(ms, m, ConstName);
      match m
      case LetRd(e) => FewConstantsNeverClash(e);
      case SetPcTo(e) => FewConstantsNeverClash(e);
      case StoreTo(a, e, _) =>
        FewConstantsNeverClash(a);
        FewConstantsNeverClash(e);
      case If(cond, body) =>
        FewConstantsNeverClash(cond);
        ValidBodyIsSane(body, false);
      case EcallStm =>
    }
  }

  // What compiles does what the body says, but for short negative literals.
  lemma ValidBodyIsRight(ms: seq<Stm>, top: bool, s: Cpp, c: Counter, x: Inputs)
    requires ValidCode(BuildAll(ms, c).code) && RdInScope(ms, top) && NoShortNegatives(ms) &&
             Loaded(s.env, c, x)
    ensures Does(BuildAll(ms, c), Perform(ms, x, OutcomeOf(s)), s, c, x)
  {
    hide Sane, Does, Perform, BuildAll, ValidCode, BodyValid, RdInScope, NoShortNegatives, Loaded;
    BodyIsValid(ms, c);
    ValidBodyIsSane(ms, top);
    AllRun(ms, top, s, c, x);
  }
}
