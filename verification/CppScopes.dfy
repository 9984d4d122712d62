/** When the C++ that the DSL generates for an expression is a valid scope: every constant is
    declared under one name, word operations declare fixed locals, and temporaries typed as
    constants are never declared. */
module CppScopes {
  import opened Bits
  import opened Constants
  import opened Dsl

  // Names declared where they are first assigned: `_val`, `tmp`, `res`.
  datatype Inline = ConstName | TmpName | ResName

  predicate DeclaresInline(i: Ir, n: Inline)
  {
    match n
    case ConstName => i.NewConst?
    case TmpName => i.Word? && !IsShift(i.w)
    case ResName => i.Word? && IsShift(i.w)
  }

  function Count(code: seq<Ir>, n: Inline): nat
  {
    if code == [] then 0 else (if DeclaresInline(code[0], n) then 1 else 0) + Count(code[1..], n)
  }

  // collect_declarations takes i32 variables only, and some unsigned type must hold a constant's
  // digits.
  predicate Declared(i: Ir)
  {
    (i.NewVar? ==> TypeOf(i.v) == I32) && (i.NewConst? ==> Representable(i.value))
  }

  ghost predicate AllDeclared(code: seq<Ir>) { forall i | i in code :: Declared(i) }

  ghost predicate ValidScope(code: seq<Ir>)
  {
    AllDeclared(code) && forall n: Inline :: Count(code, n) <= 1
  }

  function One(b: bool): nat { if b then 1 else 0 }

  // How often an expression makes the builder declare a name.
  function Needs(e: Expr, n: Inline): nat
  {
    match e
    case Bin(_, a, b) => Needs(a, n) + Needs(b, n) + Literals(a, b, n)
    case Ge(a, b) => Needs(a, n) + Needs(b, n) + Literals(a, b, n) + One(n.ConstName?)
    case Geu(a, b) => Needs(a, n) + Needs(b, n) + Literals(a, b, n) + One(n.ConstName?)
    case WordExpr(w, a, b) =>
      Needs(a, n) + Needs(b, n) +
      if IsShift(w) then One(n.ConstName?) * (1 + One(a.Lit?)) + One(n.ResName?)
      else Literals(a, b, n) + One(n.TmpName?)
    case MemLoad(a, _) => Needs(a, n) + One(a.Lit? && n.ConstName?)
    case _ => 0
  }

  function Literals(a: Expr, b: Expr, n: Inline): nat { if n.ConstName? then One(a.Lit?) + One(b.Lit?) else 0 }

  // A literal that is emitted has a type.
  predicate Fits(e: Expr) { e.Lit? ==> Representable(e.value) }

  predicate RawFits(r: Raw) { r.Int? ==> Representable(r.v) }

  // No temporary takes the type of a constant: no left operand is a literal; and the literals that
  // are emitted, which a shift count is only masked, have types.
  predicate Typed(e: Expr)
  {
    match e
    case Bin(_, a, b) => Typed(a) && Typed(b) && !a.Lit? && Fits(b)
    case Ge(a, b) => Typed(a) && Typed(b) && !a.Lit? && Fits(b)
    case Geu(a, b) => Typed(a) && Typed(b) && !a.Lit? && Fits(b)
    case WordExpr(w, a, b) => Typed(a) && Typed(b) && Fits(a) && (IsShift(w) || Fits(b))
    case MemLoad(a, _) => Typed(a) && Fits(a)
    case _ => true
  }

  lemma {:induction false} CountAppend(a: seq<Ir>, b: seq<Ir>, n: Inline)
    ensures Count(a + b, n) == Count(a, n) + Count(b, n)
    decreases |a|
  {
    if a == [] {
      assert a + b == b;
    } else {
      assert (a + b)[1..] == a[1..] + b;
      CountAppend(a[1..], b, n);
    }
  }

  lemma CountOne(i: Ir, n: Inline)
    ensures Count([i], n) == One(DeclaresInline(i, n))
  {
    assert [i][1..] == [];
  }

  lemma CountTwo(i: Ir, j: Ir, n: Inline)
    ensures Count([i, j], n) == One(DeclaresInline(i, n)) + One(DeclaresInline(j, n))
  {
    assert [i, j][1..] == [j];
    CountOne(j, n);
  }

  lemma CountResolve(r: Raw, n: Inline)
    ensures Count(ResolveCode(r), n) == One(r.Int? && n.ConstName?)
  {
    if r.Int? {
      CountOne(NewConst(r.v), n);
    }
  }

  lemma CountBin(op: BinOp, x: Raw, y: Raw, c: Counter, n: Inline)
    ensures Count(BinCode(op, x, y, c).code, n) == One(x.Int? && n.ConstName?) + One(y.Int? && n.ConstName?)
  {
    var t := Temp(ResolveCounter(y, ResolveCounter(x, c)).next, TypeOf(Resolved(x)));
    CountAppend(ResolveCode(x) + ResolveCode(y), [NewVar(t), Binary(op, t, Resolved(x), Resolved(y))], n);
    CountAppend(ResolveCode(x), ResolveCode(y), n);
    CountResolve(x, n);
    CountResolve(y, n);
    CountTwo(NewVar(t), Binary(op, t, Resolved(x), Resolved(y)), n);
  }

  lemma CountWord(w: WordOp, x: Raw, y: Raw, c: Counter, n: Inline)
    ensures Count(WordCode(w, x, y, c).code, n)
         == if IsShift(w) then One(n.ConstName?) * (1 + One(x.Int?)) + One(n.ResName?)
            else One(x.Int? && n.ConstName?) + One(y.Int? && n.ConstName?) + One(n.TmpName?)
  {
    hide Count;
    var t := Temp(c.next, I32);
    var c1 := ResolveCounter(x, Fresh(c));
    var m := if IsShift(w) then MaskCode(y, c1) else Built([], y, c1);
    var last := [Word(w, t, Resolved(x), Resolved(m.r))];
    CountAppend([NewVar(t)] + ResolveCode(x) + m.code + ResolveCode(m.r), last, n);
    CountAppend([NewVar(t)] + ResolveCode(x) + m.code, ResolveCode(m.r), n);
    CountAppend([NewVar(t)] + ResolveCode(x), m.code, n);
    CountAppend([NewVar(t)], ResolveCode(x), n);
    CountOne(NewVar(t), n);
    CountOne(last[0], n);
    CountResolve(x, n);
    CountResolve(m.r, n);
    NothingCounted(n);
    CountBin(OpAnd, y, Int(31), c1, n);
    ResultIsVar(OpAnd, y, Int(31), c1);
  }

  lemma NothingCounted(n: Inline)
    ensures Count([], n) == 0
  {}

  lemma CountBoth(a: Built, b: Built, last: Built, n: Inline)
    ensures Count(Both(a, b, last).code, n) == Count(a.code, n) + Count(b.code, n) + Count(last.code, n)
  {
    CountAppend(a.code + b.code, last.code, n);
    CountAppend(a.code, b.code, n);
  }

  lemma CountNotLess(less: Built, n: Inline)
    requires less.r.Ref?
    ensures Count(NotLess(less).code, n) == Count(less.code, n) + One(n.ConstName?)
  {
    CountAppend(less.code, BinCode(OpNeq, less.r, Int(1), less.c).code, n);
    CountBin(OpNeq, less.r, Int(1), less.c, n);
  }

  // The builder declares each inline name exactly as often as the expression needs it.
  lemma {:induction false} BuildCounts(e: Expr, c: Counter, n: Inline)
    ensures Count(Build(e, c).code, n) == Needs(e, n)
    decreases e, 2
  {
    hide BinCode, WordCode, Both, NotLess, Count;
    match e
    case Bin(op, a, b) => BinCounts(e, op, a, b, c, n);
    case Ge(a, b) => CompareCounts(e, OpLt, a, b, c, n);
    case Geu(a, b) => CompareCounts(e, OpLtu, a, b, c, n);
    case WordExpr(w, a, b) => WordCounts(e, w, a, b, c, n);
    case MemLoad(a, size) =>
      BuildCounts(a, c, n);
      OnlyLiteralsAreInt(a, c);
      LoadCounts(Build(a, c), size, n);
    case _ => LeafCounts(e, c, n);
  }

  lemma LoadCounts(a: Built, size: nat, n: Inline)
    ensures Count(Then(a, LoadCode(a.r, size, a.c)).code, n) == Count(a.code, n) + One(a.r.Int? && n.ConstName?)
  {
    hide Count;
    var t := Temp(a.c.next, I32);
    var last := LoadMem(t, Resolved(a.r), size);
    CountAppend(a.code, LoadCode(a.r, size, a.c).code, n);
    CountAppend([NewVar(t)] + ResolveCode(a.r), [last], n);
    CountAppend([NewVar(t)], ResolveCode(a.r), n);
    CountOne(NewVar(t), n);
    CountOne(last, n);
    CountResolve(a.r, n);
  }

  lemma LeafCounts(e: Expr, c: Counter, n: Inline)
    requires e.Lit? || e.Reg1? || e.Reg2? || e.Imm? || e.Pc?
    ensures Count(Build(e, c).code, n) == 0
  {
    NothingCounted(n);
    CountTwo(NewVar(Var(ImmVar, I32)), GetImm, n);
    CountTwo(NewVar(Var(PcVar, I32)), GetPc, n);
  }

  lemma ArgumentCounts(whole: Expr, a: Expr, b: Expr, c: Counter, n: Inline) returns (p: Built, q: Built)
    requires a < whole && b < whole
    ensures p == Build(a, c) && q == Build(b, p.c)
    ensures Count(p.code, n) == Needs(a, n) && Count(q.code, n) == Needs(b, n)
    ensures (p.r.Int? <==> a.Lit?) && (q.r.Int? <==> b.Lit?)
    decreases whole, 0
  {
    p := Build(a, c);
    q := Build(b, p.c);
    BuildCounts(a, c, n);
    BuildCounts(b, p.c, n);
    OnlyLiteralsAreInt(a, c);
    OnlyLiteralsAreInt(b, p.c);
  }

  lemma BinCounts(whole: Expr, op: BinOp, a: Expr, b: Expr, c: Counter, n: Inline)
    requires a < whole && b < whole
    ensures Count(Build(Bin(op, a, b), c).code, n) == Needs(a, n) + Needs(b, n) + Literals(a, b, n)
    decreases whole, 1
  {
    hide BinCode, Both, Count, Needs;
    var p, q := ArgumentCounts(whole, a, b, c, n);
    CountBin(op, p.r, q.r, q.c, n);
    CountBoth(p, q, BinCode(op, p.r, q.r, q.c), n);
  }

  lemma WordCounts(whole: Expr, w: WordOp, a: Expr, b: Expr, c: Counter, n: Inline)
    requires a < whole && b < whole
    ensures Count(Build(WordExpr(w, a, b), c).code, n)
         == Needs(a, n) + Needs(b, n) +
            if IsShift(w) then One(n.ConstName?) * (1 + One(a.Lit?)) + One(n.ResName?)
            else Literals(a, b, n) + One(n.TmpName?)
    decreases whole, 1
  {
    hide WordCode, Count, Needs;
    var p, q := ArgumentCounts(whole, a, b, c, n);
    CountWord(w, p.r, q.r, q.c, n);
    CountBoth(p, q, WordCode(w, p.r, q.r, q.c), n);
  }

  lemma CompareCounts(whole: Expr, op: BinOp, a: Expr, b: Expr, c: Counter, n: Inline)
    requires a < whole && b < whole
    ensures var p := Build(a, c);
            var q := Build(b, p.c);
            Count(NotLess(Both(p, q, BinCode(op, p.r, q.r, q.c))).code, n) == Needs(a, n) + Needs(b, n) +
              Literals(a, b, n) + One(n.ConstName?)
    decreases whole, 1
  {
    var p, q := ArgumentCounts(whole, a, b, c, n);
    CountBin(op, p.r, q.r, q.c, n);
    CountBoth(p, q, BinCode(op, p.r, q.r, q.c), n);
    ResultIsVar(op, p.r, q.r, q.c);
    BothResult(p, q, BinCode(op, p.r, q.r, q.c));
    CountNotLess(Both(p, q, BinCode(op, p.r, q.r, q.c)), n);
  }

  lemma BothResult(a: Built, b: Built, last: Built)
    ensures Both(a, b, last).r == last.r
  {}

  predicate ResultTyped(r: Raw) { r.Ref? ==> TypeOf(r.o) == I32 }

  lemma AllDeclaredAppend(a: seq<Ir>, b: seq<Ir>)
    ensures AllDeclared(a + b) <==> AllDeclared(a) && AllDeclared(b)
  {
    if AllDeclared(a + b) {
      assert forall i | i in a :: i in a + b;
      assert forall i | i in b :: i in a + b;
    }
  }

  lemma ResolveDeclares(r: Raw)
    ensures AllDeclared(ResolveCode(r)) <==> RawFits(r)
  {
    hide Representable;
    if r.Int? {
      assert NewConst(r.v) in ResolveCode(r);
    }
  }

  lemma BinDeclares(op: BinOp, x: Raw, y: Raw, c: Counter)
    ensures AllDeclared(BinCode(op, x, y, c).code) <==> TypeOf(Resolved(x)) == I32 && RawFits(x) && RawFits(y)
    ensures TypeOf(BinCode(op, x, y, c).r.o) == TypeOf(Resolved(x))
  {
    var p := Resolved(x);
    var t := Temp(ResolveCounter(y, ResolveCounter(x, c)).next, TypeOf(p));
    AllDeclaredAppend(ResolveCode(x) + ResolveCode(y), [NewVar(t), Binary(op, t, p, Resolved(y))]);
    AllDeclaredAppend(ResolveCode(x), ResolveCode(y));
    ResolveDeclares(x);
    ResolveDeclares(y);
    TempDeclared(t, Binary(op, t, p, Resolved(y)));
  }

  lemma TempDeclared(t: Operand, last: Ir)
    requires !last.NewVar? && !last.NewConst?
    ensures AllDeclared([NewVar(t), last]) <==> TypeOf(t) == I32
    ensures AllDeclared([NewVar(t)]) <==> TypeOf(t) == I32
    ensures AllDeclared([last]) && AllDeclared([])
    ensures t.Var? ==> TypeOf(t) == t.ty
  {
    assert NewVar(t) in [NewVar(t), last] && NewVar(t) in [NewVar(t)];
  }

  lemma WordDeclares(w: WordOp, x: Raw, y: Raw, c: Counter)
    requires ResultTyped(y)
    ensures AllDeclared(WordCode(w, x, y, c).code) <==> RawFits(x) && (IsShift(w) || RawFits(y))
    ensures TypeOf(WordCode(w, x, y, c).r.o) == I32
  {
    var t := Temp(c.next, I32);
    var c1 := ResolveCounter(x, Fresh(c));
    var m := if IsShift(w) then MaskCode(y, c1) else Built([], y, c1);
    var last := Word(w, t, Resolved(x), Resolved(m.r));
    AllDeclaredAppend([NewVar(t)] + ResolveCode(x) + m.code + ResolveCode(m.r), [last]);
    AllDeclaredAppend([NewVar(t)] + ResolveCode(x) + m.code, ResolveCode(m.r));
    AllDeclaredAppend([NewVar(t)] + ResolveCode(x), m.code);
    AllDeclaredAppend([NewVar(t)], ResolveCode(x));
    TempDeclared(t, last);
    ResolveDeclares(x);
    ResolveDeclares(m.r);
    BinDeclares(OpAnd, y, Int(31), c1);
  }

  lemma BothDeclares(a: Built, b: Built, last: Built)
    ensures AllDeclared(Both(a, b, last).code) <==> AllDeclared(a.code) && AllDeclared(b.code) && AllDeclared(last.code)
  {
    AllDeclaredAppend(a.code + b.code, last.code);
    AllDeclaredAppend(a.code, b.code);
  }

  // Every temporary of the generated code is declared exactly when no left operand is a literal.
  lemma {:induction false} BuildDeclares(e: Expr, c: Counter)
    ensures AllDeclared(Build(e, c).code) <==> Typed(e)
    ensures Typed(e) ==> ResultTyped(Build(e, c).r)
    decreases e, 2
  {
    hide BinCode, WordCode, AllDeclared, ResultTyped;
    match e
    case Bin(op, a, b) => OperationDeclares(e, op, a, b, c);
    case Ge(a, b) => CompareDeclares(e, OpLt, a, b, c);
    case Geu(a, b) => CompareDeclares(e, OpLtu, a, b, c);
    case WordExpr(w, a, b) => WordExprDeclares(e, w, a, b, c);
    case MemLoad(a, size) =>
      BuildDeclares(a, c);
      OnlyLiteralsAreInt(a, c);
      LoadDeclares(Build(a, c), size);
    case _ => LeafDeclares(e, c);
  }

  lemma LoadDeclares(a: Built, size: nat)
    ensures AllDeclared(Then(a, LoadCode(a.r, size, a.c)).code) <==> AllDeclared(a.code) && RawFits(a.r)
    ensures ResultTyped(Then(a, LoadCode(a.r, size, a.c)).r)
  {
    var t := Temp(a.c.next, I32);
    var last := LoadMem(t, Resolved(a.r), size);
    AllDeclaredAppend(a.code, LoadCode(a.r, size, a.c).code);
    AllDeclaredAppend([NewVar(t)] + ResolveCode(a.r), [last]);
    AllDeclaredAppend([NewVar(t)], ResolveCode(a.r));
    TempDeclared(t, last);
    ResolveDeclares(a.r);
  }

  lemma LeafDeclares(e: Expr, c: Counter)
    requires e.Lit? || e.Reg1? || e.Reg2? || e.Imm? || e.Pc?
    ensures AllDeclared(Build(e, c).code) && ResultTyped(Build(e, c).r)
  {}

  lemma OperationDeclares(whole: Expr, op: BinOp, a: Expr, b: Expr, c: Counter)
    requires a < whole && b < whole
    ensures var p := Build(a, c);
            var q := Build(b, p.c);
            var r := Both(p, q, BinCode(op, p.r, q.r, q.c));
            (AllDeclared(r.code) <==> Typed(a) && Typed(b) && !a.Lit? && Fits(b)) && r.r.Ref? &&
            (Typed(a) && Typed(b) && !a.Lit? && Fits(b) ==> ResultTyped(r.r))
    decreases whole, 1, 0
  {
    var p := Build(a, c);
    var q := Build(b, p.c);
    BuildDeclares(a, c);
    BuildDeclares(b, p.c);
    OnlyLiteralsAreInt(a, c);
    OnlyLiteralsAreInt(b, p.c);
    BinDeclares(op, p.r, q.r, q.c);
    ResultIsVar(op, p.r, q.r, q.c);
    BothResult(p, q, BinCode(op, p.r, q.r, q.c));
    BothDeclares(p, q, BinCode(op, p.r, q.r, q.c));
  }

  lemma CompareDeclares(whole: Expr, op: BinOp, a: Expr, b: Expr, c: Counter)
    requires a < whole && b < whole
    ensures var p := Build(a, c);
            var q := Build(b, p.c);
            var r := NotLess(Both(p, q, BinCode(op, p.r, q.r, q.c)));
            (AllDeclared(r.code) <==> Typed(a) && Typed(b) && !a.Lit? && Fits(b)) &&
            (Typed(a) && Typed(b) && !a.Lit? && Fits(b) ==> ResultTyped(r.r))
    decreases whole, 1, 1
  {
    var p := Build(a, c);
    var q := Build(b, p.c);
    var less := Both(p, q, BinCode(op, p.r, q.r, q.c));
    OperationDeclares(whole, op, a, b, c);
    AllDeclaredAppend(less.code, BinCode(OpNeq, less.r, Int(1), less.c).code);
    BinDeclares(OpNeq, less.r, Int(1), less.c);
    ResultIsVar(OpNeq, less.r, Int(1), less.c);
  }

  lemma WordExprDeclares(whole: Expr, w: WordOp, a: Expr, b: Expr, c: Counter)
    requires a < whole && b < whole
    ensures var p := Build(a, c);
            var q := Build(b, p.c);
            var r := Both(p, q, WordCode(w, p.r, q.r, q.c));
            (AllDeclared(r.code) <==> Typed(a) && Typed(b) && Fits(a) && (IsShift(w) || Fits(b))) &&
            (Typed(a) && Typed(b) ==> ResultTyped(r.r))
    decreases whole, 1
  {
    var p := Build(a, c);
    var q := Build(b, p.c);
    BuildDeclares(a, c);
    BuildDeclares(b, p.c);
    OnlyLiteralsAreInt(a, c);
    OnlyLiteralsAreInt(b, p.c);
    if Typed(b) {
      WordDeclares(w, p.r, q.r, q.c);
    }
    BothDeclares(p, q, WordCode(w, p.r, q.r, q.c));
    BothResult(p, q, WordCode(w, p.r, q.r, q.c));
  }

  // The generated scope is valid C++ exactly for expressions with at most one constant and one
  // word operation of each kind, no literal on the left, and literals of less than 64 bits.
  lemma BuildIsValid(e: Expr, c: Counter)
    ensures ValidScope(Build(e, c).code) <==>
              Needs(e, ConstName) <= 1 && Needs(e, TmpName) <= 1 && Needs(e, ResName) <= 1 && Typed(e)
  {
    BuildDeclares(e, c);
    BuildCounts(e, c, ConstName);
    BuildCounts(e, c, TmpName);
    BuildCounts(e, c, ResName);
    if Needs(e, ConstName) <= 1 && Needs(e, TmpName) <= 1 && Needs(e, ResName) <= 1 {
      forall n: Inline
        ensures Count(Build(e, c).code, n) <= 1
      {
        assert n.ConstName? || n.TmpName? || n.ResName?;
        BuildCounts(e, c, n);
      }
    }
  }

  // No literal that is emitted is a negative number of less than 32 bits.
  predicate NoShortNegative(e: Expr)
  {
    match e
    case Lit(v) => !ShortNegative(v)
    case Bin(_, a, b) => NoShortNegative(a) && NoShortNegative(b)
    case Ge(a, b) => NoShortNegative(a) && NoShortNegative(b)
    case Geu(a, b) => NoShortNegative(a) && NoShortNegative(b)
    case WordExpr(w, a, b) => NoShortNegative(a) && (NoShortNegative(b) || (IsShift(w) && b.Lit?))
    case MemLoad(a, _) => NoShortNegative(a)
    case _ => true
  }

  // One constant per scope rules clashes out, and the literals left are good.
  lemma {:induction false} FewConstantsNeverClash(e: Expr)
    requires Needs(e, ConstName) <= 1 && Typed(e) && NoShortNegative(e) && Fits(e)
    ensures NoClash(e)
    decreases e
  {
    hide Representable, ShortNegative;
    match e
    case Bin(_, a, b) =>
      FewConstantsNeverClash(a);
      FewConstantsNeverClash(b);
    case Ge(a, b) =>
      FewConstantsNeverClash(a);
      FewConstantsNeverClash(b);
    case Geu(a, b) =>
      FewConstantsNeverClash(a);
      FewConstantsNeverClash(b);
    case WordExpr(w, a, b) =>
      FewConstantsNeverClash(a);
      if !b.Lit? || !IsShift(w) {
        FewConstantsNeverClash(b);
      }
    case MemLoad(a, _) => FewConstantsNeverClash(a);
    case _ =>
  }

  // Code that compiles is right, but for short negative literals: code that is a valid scope leaves
  // the expression's value in its result and overwrites no earlier temporary.
  lemma ValidCodeIsRight(e: Expr, s: Cpp, c: Counter, x: Inputs)
    requires ValidScope(Build(e, c).code) && NoShortNegative(e) && Loaded(s.env, c, x) && s.mem == x.mem
    ensures Yields(Build(e, c), Eval(e, x), Faults(e, x), s, c, x)
  {
    hide NoClash, Build, Yields, Needs, Typed, NoShortNegative;
    if e.Lit? {
      LeafRuns(e, s, c, x);
    } else {
      BuildIsValid(e, c);
      FewConstantsNeverClash(e);
      BuildRuns(e, s, c, x);
    }
  }

  // rs1 + (-1), as the DSL spells it.
  function MinusOne(): Expr { Bin(OpAdd, Reg1, Lit(-1)) }

  // It compiles, and adds 2^32 - 1: always the wrong sum.
  lemma MinusOneIsWrong(s: Cpp, c: Counter, x: Inputs)
    requires Loaded(s.env, c, x)
    ensures var b := Build(MinusOne(), c);
            ValidScope(b.code) && RawValue(b.r, RunIr(b.code, s, x).env) == Add(x.rs1, 0xFFFF_FFFF) &&
            Eval(MinusOne(), x) == Sub(x.rs1, 1) && Add(x.rs1, 0xFFFF_FFFF) != Sub(x.rs1, 1)
  {
    hide RunIr, Add, Sub, LiteralWord, Value64;
    MinusOneLiteral();
    SumsDiffer(x.rs1);
    BuildIsValid(MinusOne(), c);
    var t := Temp(c.next + 1, I32);
    var ops := [NewVar(t), Binary(OpAdd, t, Var(Rs1, I32), ConstOf(-1))];
    assert Build(MinusOne(), c).code == [NewConst(-1)] + ops;
    RunIrAppend([NewConst(-1)], ops, s, x);
    RunIr1(NewConst(-1), s, x);
    RunIr2(NewVar(t), ops[1], Set(s, Shared, LiteralWord(-1)), x);
  }

  lemma SumsDiffer(a: bv64)
    ensures Add(a, 0xFFFF_FFFF) != Sub(a, 1) && Add(a, 0xFFFF_FFFF_FFFF_FFFF) == Sub(a, 1)
  {}

  // With two constants in one operation the second is read for both.
  lemma SecondConstantWins(op: BinOp, v: int, w: int, s: Cpp, c: Counter, x: Inputs)
    ensures var b := BinCode(op, Int(v), Int(w), c);
            RawValue(b.r, RunIr(b.code, s, x).env) == ApplyBin(op, LiteralWord(w), LiteralWord(w))
  {
    hide ApplyBin, RunIr, ApplyWord, LiteralWord;
    var t := Temp(c.next + 2, IConst);
    var ops := [NewVar(t), Binary(op, t, ConstOf(v), ConstOf(w))];
    RunIrAppend([NewConst(v)] + [NewConst(w)], ops, s, x);
    RunIrAppend([NewConst(v)], [NewConst(w)], s, x);
    RunIr1(NewConst(v), s, x);
    RunIr1(NewConst(w), Set(s, Shared, LiteralWord(v)), x);
    var both := Set(Set(s, Shared, LiteralWord(v)), Shared, LiteralWord(w));
    RunIr2(NewVar(t), Binary(op, t, ConstOf(v), ConstOf(w)), both, x);
  }
}
