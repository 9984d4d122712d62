/** The DSL scope as the object it is: statements are appended to its tree one by one. */
module ScopeBuilder {
  import opened Bits
  import opened Dsl
  import opened DslPrograms

  lemma NotLessOfBoth(p: Built, q: Built, last: Built)
    ensures NotLess(Both(p, q, last)) == Both(p, q, NotLess(last))
  {}

  lemma GeIsNotLess(a: Expr, b: Expr, c: Counter)
    ensures var p := Build(a, c);
            var q := Build(b, p.c);
            Build(Ge(a, b), c) == Both(p, q, NotLess(BinCode(OpLt, p.r, q.r, q.c)))
  {
    hide BinCode, NotLess;
    var p := Build(a, c);
    var q := Build(b, p.c);
    NotLessOfBoth(p, q, BinCode(OpLt, p.r, q.r, q.c));
  }

  lemma GeuIsNotLess(a: Expr, b: Expr, c: Counter)
    ensures var p := Build(a, c);
            var q := Build(b, p.c);
            Build(Geu(a, b), c) == Both(p, q, NotLess(BinCode(OpLtu, p.r, q.r, q.c)))
  {
    hide BinCode, NotLess;
    var p := Build(a, c);
    var q := Build(b, p.c);
    NotLessOfBoth(p, q, BinCode(OpLtu, p.r, q.r, q.c));
  }

  class Scope {
    var tree: seq<Ir>
    var c: Counter      // the global counter, and which input variables this scope has

    constructor (next: nat)
      ensures tree == [] && c == Counter(next, false, false)
    {
      tree, c := [], Counter(next, false, false);
    }

    method Stmt(i: Ir)
      modifies this`tree
      ensures tree == old(tree) + [i]
    {
      tree := tree + [i];
    }

    method NextCounter() returns (n: nat)
      modifies this`c
      ensures n == old(c).next && c == Fresh(old(c))
    {
      n := c.next;
      c := c.(next := n + 1);
    }

    method TmpVar(ty: Ty) returns (t: Operand)
      modifies this
      ensures t == Temp(old(c).next, ty) && c == Fresh(old(c)) && tree == old(tree) + [NewVar(t)]
    {
      var n := NextCounter();
      t := Temp(n, ty);
      Stmt(NewVar(t));
    }

    method ResolveConst(x: Raw) returns (o: Operand)
      modifies this
      ensures o == Resolved(x) && c == ResolveCounter(x, old(c)) && tree == old(tree) + ResolveCode(x)
    {
      if x.Ref? {
        return x.o;
      }
      var _ := NextCounter();
      o := ConstOf(x.v);
      Stmt(NewConst(x.v));
    }

    // binOp.
    method BinaryOp(op: BinOp, x: Raw, y: Raw) returns (r: Raw)
      modifies this
      ensures var b := BinCode(op, x, y, old(c)); r == b.r && c == b.c && tree == old(tree) + b.code
    {
      hide ResolveCode;
      var p := ResolveConst(x);
      var q := ResolveConst(y);
      var t := TmpVar(TypeOf(p));
      Stmt(Binary(op, t, p, q));
      r := Ref(t);
    }

    method NotLessOp(l: Raw) returns (r: Raw)
      modifies this
      ensures var b := BinCode(OpNeq, l, Int(1), old(c)); r == b.r && c == b.c && tree == old(tree) + b.code
    {
      r := BinaryOp(OpNeq, l, Int(1));
    }

    method Masked(y: Raw) returns (r: Raw)
      modifies this
      ensures var b := MaskCode(y, old(c)); r == b.r && c == b.c && tree == old(tree) + b.code
    {
      if y.Int? {
        return Int(y.v % 32);
      }
      r := BinaryOp(OpAnd, y, Int(31));
    }

    method RightOperand(w: WordOp, y: Raw) returns (r: Raw)
      modifies this
      ensures var b := if IsShift(w) then MaskCode(y, old(c)) else Built([], y, old(c));
              r == b.r && c == b.c && tree == old(tree) + b.code
    {
      r := y;
      if IsShift(w) {
        r := Masked(y);
      }
    }

    method WordStmt(w: WordOp, x: Raw, y: Raw) returns (r: Raw)
      modifies this
      ensures var b := WordCode(w, x, y, old(c)); r == b.r && c == b.c && tree == old(tree) + b.code
    {
      hide ResolveCode, Resolved, BinCode, Count5;
      var t := TmpVar(I32);
      var p := ResolveConst(x);
      var m := RightOperand(w, y);
      var q := ResolveConst(m);
      Stmt(Word(w, t, p, q));
      r := Ref(t);
    }

    // memoryLoad: the statement resolves the address after the temporary exists.
    method MemoryLoad(x: Raw, size: nat) returns (r: Raw)
      modifies this
      ensures var b := LoadCode(x, size, old(c)); r == b.r && c == b.c && tree == old(tree) + b.code
    {
      hide ResolveCode, Resolved;
      var t := TmpVar(I32);
      var a := ResolveConst(x);
      Stmt(LoadMem(t, a, size));
      r := Ref(t);
    }

    method MemoryStore(x: Raw, y: Raw, size: nat)
      modifies this
      ensures c == ResolveCounter(y, ResolveCounter(x, old(c)))
      ensures tree == old(tree) + (ResolveCode(x) + ResolveCode(y)) + [StoreMem(Resolved(x), Resolved(y), size)]
    {
      hide ResolveCode, Resolved;
      var a := ResolveConst(x);
      var v := ResolveConst(y);
      Stmt(StoreMem(a, v, size));
    }

    method ImmHandler() returns (r: Raw)
      modifies this
      ensures var b := Build(Imm, old(c)); r == b.r && c == b.c && tree == old(tree) + b.code
    {
      r := Ref(Var(ImmVar, I32));
      if !c.hasImm {
        Stmt(NewVar(r.o));
        Stmt(GetImm);
        c := c.(hasImm := true);
      }
    }

    method PcHandler() returns (r: Raw)
      modifies this
      ensures var b := Build(Pc, old(c)); r == b.r && c == b.c && tree == old(tree) + b.code
    {
      r := Ref(Var(PcVar, I32));
      if !c.hasPc {
        Stmt(NewVar(r.o));
        Stmt(GetPc);
        c := c.(hasPc := true);
      }
    }

    // ge and geu.
    method NotLessThan(op: BinOp, x: Raw, y: Raw) returns (r: Raw)
      modifies this
      ensures var b := NotLess(BinCode(op, x, y, old(c))); r == b.r && c == b.c && tree == old(tree) + b.code
    {
      var l := BinaryOp(op, x, y);
      r := NotLessOp(l);
    }

    // What evaluating a DSL expression does to the scope.
    method Evaluate(e: Expr) returns (r: Raw)
      modifies this
      ensures var b := Build(e, old(c)); r == b.r && c == b.c && tree == old(tree) + b.code
      decreases e, 1
    {
      hide BinCode, WordCode, LoadCode;
      match e
      case Lit(v) => r := Int(v);
      case Reg1 => r := Ref(Var(Rs1, I32));
      case Reg2 => r := Ref(Var(Rs2, I32));
      case Imm => r := ImmHandler();
      case Pc => r := PcHandler();
      case Bin(op, a, b) =>
        var x, y := Arguments(e, a, b);
        r := BinaryOp(op, x, y);
      case Ge(a, b) =>
        var x, y := Arguments(e, a, b);
        r := NotLessThan(OpLt, x, y);
        GeIsNotLess(a, b, old(c));
      case Geu(a, b) =>
        var x, y := Arguments(e, a, b);
        r := NotLessThan(OpLtu, x, y);
        GeuIsNotLess(a, b, old(c));
      case WordExpr(w, a, b) =>
        var x, y := Arguments(e, a, b);
        r := WordStmt(w, x, y);
      case MemLoad(a, size) =>
        var x := Evaluate(a);
        r := MemoryLoad(x, size);
    }

    // Arguments are evaluated left to right before the operation sees them.
    method Arguments(ghost whole: Expr, a: Expr, b: Expr) returns (x: Raw, y: Raw)
      requires a < whole && b < whole
      modifies this
      ensures var p := Build(a, old(c));
              var q := Build(b, p.c);
              x == p.r && y == q.r && c == q.c && tree == old(tree) + (p.code + q.code)
      decreases whole, 0
    {
      hide Build;
      x := Evaluate(a);
      y := Evaluate(b);
    }

    method Operands(a: Expr, e: Expr) returns (x: Raw, y: Raw)
      modifies this
      ensures var p := Build(a, old(c));
              var q := Build(e, p.c);
              x == p.r && y == q.r && c == q.c && tree == old(tree) + (p.code + q.code)
    {
      hide Build;
      x := Evaluate(a);
      y := Evaluate(e);
    }

    // One statement of a body.
    method Perform(m: Stm)
      modifies this
      ensures var b := BuildStm(m, old(c)); c == b.c && tree == old(tree) + b.code
      decreases m
    {
      hide Build, ResolveCode, ResolveCounter;
      match m
      case LetRd(e) =>
        var r := Evaluate(e);
        var o := ResolveConst(r);
        Stmt(Let(Var(Rd, I32), o));
      case SetPcTo(e) =>
        var r := Evaluate(e);
        var o := ResolveConst(r);
        Stmt(SetPc(o));
      case StoreTo(a, e, size) =>
        var x, y := Operands(a, e);
        MemoryStore(x, y, size);
      case If(cond, body) =>
        var r := Evaluate(cond);
        var inner := new Scope(c.next);
        inner.PerformAll(body);
        assert inner.tree == BuildAll(body, Counter(c.next, false, false)).code;
        c := c.(next := inner.c.next);
        var o := ResolveConst(r);
        Stmt(IfStmt(o, inner.tree));
      case EcallStm => Stmt(Ecall);
    }

    method PerformAll(ms: seq<Stm>)
      modifies this
      ensures var b := BuildAll(ms, old(c)); c == b.c && tree == old(tree) + b.code
      decreases ms
    {
      hide BuildStm;
      if ms != [] {
        Perform(ms[0]);
        PerformAll(ms[1..]);
      }
    }
  }
}
