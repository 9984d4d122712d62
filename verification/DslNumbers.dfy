/** The comparisons of the DSL, in numbers: they yield 1 or 0. */
module DslNumbers {
  import opened Numbers
  import opened Bits
  import opened WordLaws
  import opened Dsl

  // The order each comparison names, of signed or of unsigned numbers.
  predicate Compares(op: BinOp, a: bv64, b: bv64)
  {
    match op
    case OpEq => Unsigned(a) == Unsigned(b)
    case OpNeq => Unsigned(a) != Unsigned(b)
    case OpLt => Signed(a) < Signed(b)
    case OpGt => Signed(a) > Signed(b)
    case OpLtu => Unsigned(a) < Unsigned(b)
    case OpGtu => Unsigned(a) > Unsigned(b)
    case _ => false
  }

  lemma BinComparisonsAre(op: BinOp, a: bv64, b: bv64)
    requires op.OpEq? || op.OpNeq? || op.OpLt? || op.OpGt? || op.OpLtu? || op.OpGtu?
    ensures Unsigned(ApplyBin(op, a, b)) == if Compares(op, a, b) then 1 else 0
  {
    hide Unsigned, Signed, Same, Slt, Ult, FromBool;
    FlagsAreNumbers(true, 0);
    FlagsAreNumbers(false, 0);
    SameIsEqual(a, b);
    SltIsOrder(a, b);
    SltIsOrder(b, a);
    UltIsOrder(a, b);
    UltIsOrder(b, a);
  }

  // `ge` and `geu`, which the builder expresses by `lt` and `neq`.
  lemma NotLessAre(a: Expr, b: Expr, x: Inputs)
    ensures Unsigned(Eval(Ge(a, b), x)) == if Signed(Eval(a, x)) >= Signed(Eval(b, x)) then 1 else 0
    ensures Unsigned(Eval(Geu(a, b), x)) == if Unsigned(Eval(a, x)) >= Unsigned(Eval(b, x)) then 1 else 0
  {
    hide Unsigned, Signed, Slt, Ult, FromBool;
    FlagsAreNumbers(true, 0);
    FlagsAreNumbers(false, 0);
    SltIsOrder(Eval(a, x), Eval(b, x));
    UltIsOrder(Eval(a, x), Eval(b, x));
  }
}
