/** Whole DSL bodies: statements, their scopes, and what the generated code does. */
module DslPrograms {
  import opened Dsl
  import Memory

  datatype Stm =
    | LetRd(e: Expr)
    | SetPcTo(e: Expr)
    | StoreTo(a: Expr, e: Expr, size: nat)
    | If(cond: Expr, body: seq<Stm>)
    | EcallStm

  datatype Code = Code(code: seq<Ir>, c: Counter)

  function Use(b: Built, last: Ir): Code { Code(b.code + ResolveCode(b.r) + [last], ResolveCounter(b.r, b.c)) }

  // memory_st: address and value are evaluated, then constants are declared in that order.
  function StoreCode(p: Built, q: Built, size: nat): Code
  {
    Code(p.code + q.code + (ResolveCode(p.r) + ResolveCode(q.r)) + [StoreMem(Resolved(p.r), Resolved(q.r), size)],
         ResolveCounter(q.r, ResolveCounter(p.r, q.c)))
  }

  function BuildStm(m: Stm, c: Counter): Code
    decreases m
  {
    match m
    case LetRd(e) =>
      var b := Build(e, c);
      Use(b, Let(Var(Rd, I32), Resolved(b.r)))
    case SetPcTo(e) =>
      var b := Build(e, c);
      Use(b, SetPc(Resolved(b.r)))
    case StoreTo(a, e, size) =>
      var p := Build(a, c);
      StoreCode(p, Build(e, p.c), size)
    // The condition, then the body in a scope of its own, then the statement.
    case If(cond, body) =>
      var b := Build(cond, c);
      var inner := BuildAll(body, Counter(b.c.next, false, false));
      Use(b.(c := b.c.(next := inner.c.next)), IfStmt(Resolved(b.r), inner.code))
    case EcallStm => Code([Ecall], c)
  }

  function BuildAll(ms: seq<Stm>, c: Counter): Code
    decreases ms
  {
    if ms == [] then Code([], c)
    else
      var first := BuildStm(ms[0], c);
      var rest := BuildAll(ms[1..], first.c);
      Code(first.code + rest.code, rest.c)
  }

  // --- what statements mean ---

  // Nothing after `aborted` is seen.
  datatype Outcome = Outcome(rd: bv64, nextPc: bv64, halted: bool, mem: Memory.Mem, aborted: bool)

  // The inputs, with the memory of this moment.
  function Now(x: Inputs, mem: Memory.Mem): Inputs { x.(mem := mem) }

  function StoreOutcome(o: Outcome, satp: bv64, va: bv64, v: bv64, size: nat): Outcome
  {
    match StoreInto(o.mem, satp, va, v, size)
    case None => o.(aborted := true)
    case Some(mem) => o.(mem := mem)
  }

  function FaultsIn(o: Outcome, f: bool): Outcome { o.(aborted := o.aborted || f) }

  function PerformStm(m: Stm, x: Inputs, o: Outcome): Outcome
    decreases m
  {
    var y := Now(x, o.mem);
    match m
    case LetRd(e) => FaultsIn(o, Faults(e, y)).(rd := Eval(e, y))
    case SetPcTo(e) => FaultsIn(o, Faults(e, y)).(nextPc := Eval(e, y))
    case StoreTo(a, e, size) => StoreOutcome(FaultsIn(o, Faults(a, y) || Faults(e, y)), x.satp, Eval(a, y), Eval(e, y),
      size)
    case If(cond, body) =>
      var o' := FaultsIn(o, Faults(cond, y));
      if Eval(cond, y) == 0 then o' else Perform(body, x, o')
    case EcallStm => o.(halted := true)
  }

  function Perform(ms: seq<Stm>, x: Inputs, o: Outcome): Outcome
    decreases ms
  {
    if ms == [] then o else Perform(ms[1..], x, PerformStm(ms[0], x, o))
  }

  // Every expression is free of clashes, and no if-body assigns rd, which is not in its scope.
  predicate Sane(ms: seq<Stm>, top: bool)
    decreases ms
  {
    forall m | m in ms ::
      match m
      case LetRd(e) => top && NoClash(e)
      case SetPcTo(e) => NoClash(e)
      case StoreTo(a, e, _) => NoClash(a) && NoClash(e) && !(a.Lit? && e.Lit?)
      case If(cond, body) => NoClash(cond) && Sane(body, false)
      case EcallStm => true
  }

  function OutcomeOf(s: Cpp): Outcome { Outcome(Get(s.env, Rd), s.nextPc, s.halted, s.mem, s.aborted) }

  // The generated code has the statements' effect and keeps the input variables.
  ghost predicate Does(code: Code, o: Outcome, s: Cpp, c: Counter, x: Inputs)
  {
    var t := RunIr(code.code, s, x);
    OutcomeOf(t) == o && t.wrote == s.wrote && Loaded(t.env, code.c, x) && Later(c, code.c)
  }

  lemma OneIgnoresInputs(i: Ir, s: Cpp, x: Inputs, mem: Memory.Mem)
    requires !i.IfStmt?
    ensures ExecIr(i, s, x) == ExecIr(i, s, Now(x, mem))
  {
    hide ApplyBin, ApplyWord, LoadValue, Unmapped, Stored, Get;
  }

  // Running code looks at the memory of the state, not at that of the inputs.
  lemma {:induction false} RunIgnoresInputs(code: seq<Ir>, s: Cpp, x: Inputs, mem: Memory.Mem)
    ensures RunIr(code, s, x) == RunIr(code, s, Now(x, mem))
    decreases code
  {
    hide ApplyBin, ApplyWord, LoadValue, Unmapped, Stored, Get;
    if code != [] {
      var i := code[0];
      if i.IfStmt? {
        RunIgnoresInputs(i.body, s, x, mem);
      } else {
        OneIgnoresInputs(i, s, x, mem);
      }
      RunIgnoresInputs(code[1..], ExecIr(i, s, x), x, mem);
    }
  }

  lemma LoadedIgnoresMemory(env: Env, c: Counter, x: Inputs, mem: Memory.Mem)
    ensures Loaded(env, c, x) <==> Loaded(env, c, Now(x, mem))
  {}

  // An expression evaluated in the memory of the moment.
  lemma BuildRunsNow(e: Expr, s: Cpp, c: Counter, x: Inputs)
    requires NoClash(e) && Loaded(s.env, c, x)
    ensures var y := Now(x, s.mem); Yields(Build(e, c), Eval(e, y), Faults(e, y), s, c, x)
    ensures GoodRaw(Build(e, c).r)
  {
    hide RunIr, Loaded, Build, Eval, Faults, NoClash, Keeps;
    OnlyLiteralsAreInt(e, c);
    GoodOperand(e);
    var y := Now(x, s.mem);
    LoadedIgnoresMemory(s.env, c, x, s.mem);
    BuildRuns(e, s, c, y);
    RunIgnoresInputs(Build(e, c).code, s, x, s.mem);
    LoadedIgnoresMemory(RunIr(Build(e, c).code, s, x).env, Build(e, c).c, x, s.mem);
  }

  lemma StmRuns(m: Stm, top: bool, s: Cpp, c: Counter, x: Inputs)
    requires Sane([m], top) && Loaded(s.env, c, x)
    ensures Does(BuildStm(m, c), PerformStm(m, x, OutcomeOf(s)), s, c, x)
    decreases m, 1
  {
    hide Loaded, Yields, Build, Eval, Faults, Does, RunIr, NoClash, Use, StoreCode, StoreOutcome, ResolveCode, Resolved,
         GoodRaw;
    assert m in [m];
    var y := Now(x, s.mem);
    match m
    case LetRd(e) =>
      BuildRunsNow(e, s, c, x);
      LetRuns(Build(e, c), Eval(e, y), Faults(e, y), s, c, x);
    case SetPcTo(e) =>
      BuildRunsNow(e, s, c, x);
      SetPcRuns(Build(e, c), Eval(e, y), Faults(e, y), s, c, x);
    case StoreTo(a, e, size) =>
      var p := Build(a, c);
      BuildRunsNow(a, s, c, x);
      YieldsLoaded(p, Eval(a, y), Faults(a, y), s, c, x);
      BuildRunsNow(e, RunIr(p.code, s, x), p.c, x);
      OnlyLiteralsAreInt(a, c);
      OnlyLiteralsAreInt(e, p.c);
      StoreRuns(p, Build(e, p.c), Eval(a, y), Eval(e, y), Faults(a, y), Faults(e, y), size, s, c, x);
    case If(cond, body) =>
      var b := Build(cond, c);
      BuildRunsNow(cond, s, c, x);
      var d := Counter(b.c.next, false, false);
      var t := RunIr(b.code + ResolveCode(b.r), s, x);
      ConditionReady(b, Eval(cond, y), Faults(cond, y), s, c, x);
      AllRun(body, false, t, d, x);
      DoesParts(BuildAll(body, d), Perform(body, x, OutcomeOf(t)), t, d, x);
      BodyKeepsRd(body, x, OutcomeOf(t));
      IfRuns(b, BuildAll(body, d), Eval(cond, y), Faults(cond, y), Perform(body, x, OutcomeOf(t)), s, c, x);
    case EcallStm => EcallRuns(s, c, x);
  }

  lemma DoesParts(code: Code, o: Outcome, s: Cpp, c: Counter, x: Inputs)
    requires Does(code, o, s, c, x)
    ensures var t := RunIr(code.code, s, x); OutcomeOf(t) == o && t.wrote == s.wrote && Later(c, code.c)
  {}

  lemma EcallRuns(s: Cpp, c: Counter, x: Inputs)
    requires Loaded(s.env, c, x)
    ensures Does(Code([Ecall], c), OutcomeOf(s).(halted := true), s, c, x)
  {
    RunIr1(Ecall, s, x);
  }

  lemma {:induction false} AllRun(ms: seq<Stm>, top: bool, s: Cpp, c: Counter, x: Inputs)
    requires Sane(ms, top) && Loaded(s.env, c, x)
    ensures Does(BuildAll(ms, c), Perform(ms, x, OutcomeOf(s)), s, c, x)
    decreases ms, 0
  {
    hide BuildStm, PerformStm, Sane, Loaded;
    if ms != [] {
      var first := BuildStm(ms[0], c);
      SaneParts(ms, top);
      StmRuns(ms[0], top, s, c, x);
      var t := RunIr(first.code, s, x);
      AllRun(ms[1..], top, t, first.c, x);
      RunIrAppend(first.code, BuildAll(ms[1..], first.c).code, s, x);
    }
  }

  lemma SaneParts(ms: seq<Stm>, top: bool)
    requires ms != [] && Sane(ms, top)
    ensures Sane([ms[0]], top) && Sane(ms[1..], top)
  {
    assert ms[0] in ms;
    assert forall m | m in ms[1..] :: m in ms;
  }

  lemma {:induction false} BodyKeepsRd(ms: seq<Stm>, x: Inputs, o: Outcome)
    requires Sane(ms, false)
    ensures Perform(ms, x, o).rd == o.rd
    decreases ms
  {
    if ms != [] {
      SaneParts(ms, false);
      var m := ms[0];
      assert m in ms;
      if m.If? {
        BodyKeepsRd(m.body, x, FaultsIn(o, Faults(m.cond, Now(x, o.mem))));
      }
      BodyKeepsRd(ms[1..], x, PerformStm(m, x, o));
    }
  }

  // The value of a built expression, resolved, is what the next statement reads.
  lemma ConditionReady(b: Built, v: bv64, f: bool, s: Cpp, c: Counter, x: Inputs)
    requires Yields(b, v, f, s, c, x) && GoodRaw(b.r)
    ensures var t := RunIr(b.code + ResolveCode(b.r), s, x);
            Read(t.env, Resolved(b.r)) == v && OutcomeOf(t) == FaultsIn(OutcomeOf(s), f) && t.wrote == s.wrote &&
            Loaded(t.env, b.c, x) && Loaded(t.env, Counter(b.c.next, false, false), x) && Later(c, b.c)
  {
    hide RunIr, ResolveCode, Resolved, Get;
    var t := RunIr(b.code, s, x);
    RunIrAppend(b.code, ResolveCode(b.r), s, x);
    ResolveRuns(b.r, t, b.c, x);
  }

  lemma LetRuns(b: Built, v: bv64, f: bool, s: Cpp, c: Counter, x: Inputs)
    requires Yields(b, v, f, s, c, x) && GoodRaw(b.r)
    ensures Does(Use(b, Let(Var(Rd, I32), Resolved(b.r))), FaultsIn(OutcomeOf(s), f).(rd := v), s, c, x)
  {
    hide RunIr, ResolveCode, Resolved, Get, Loaded, Yields;
    var last := Let(Var(Rd, I32), Resolved(b.r));
    ConditionReady(b, v, f, s, c, x);
    var t := RunIr(b.code + ResolveCode(b.r), s, x);
    RunIrAppend(b.code + ResolveCode(b.r), [last], s, x);
    RunIr1(last, t, x);
    SetRd(t, v, b.c, x);
    LoadedLater(Set(t, Rd, v).env, b.c, ResolveCounter(b.r, b.c), x);
  }

  lemma SetRd(s: Cpp, v: bv64, c: Counter, x: Inputs)
    requires Loaded(s.env, c, x)
    ensures Get(Set(s, Rd, v).env, Rd) == v && Loaded(Set(s, Rd, v).env, c, x)
  {}

  lemma SetPcRuns(b: Built, v: bv64, f: bool, s: Cpp, c: Counter, x: Inputs)
    requires Yields(b, v, f, s, c, x) && GoodRaw(b.r)
    ensures Does(Use(b, SetPc(Resolved(b.r))), FaultsIn(OutcomeOf(s), f).(nextPc := v), s, c, x)
  {
    hide RunIr, ResolveCode, Resolved, Get, Loaded, Yields;
    var last := SetPc(Resolved(b.r));
    ConditionReady(b, v, f, s, c, x);
    var t := RunIr(b.code + ResolveCode(b.r), s, x);
    RunIrAppend(b.code + ResolveCode(b.r), [last], s, x);
    RunIr1(last, t, x);
    LoadedLater(t.env, b.c, ResolveCounter(b.r, b.c), x);
  }

  // Both operands of a store are in their variables.
  lemma StoreReady(p: Built, q: Built, va: bv64, v: bv64, f: bool, g: bool, s: Cpp, c: Counter, x: Inputs)
    requires Yields(p, va, f, s, c, x) && Yields(q, v, g, RunIr(p.code, s, x), p.c, x) && Usable(p.r, q.r)
    ensures var u := RunIr(p.code + q.code + (ResolveCode(p.r) + ResolveCode(q.r)), s, x);
            Read(u.env, Resolved(p.r)) == va && Read(u.env, Resolved(q.r)) == v && Loaded(u.env, q.c, x) &&
            OutcomeOf(u) == FaultsIn(OutcomeOf(s), f || g) && u.wrote == s.wrote && Later(c, q.c)
  {
    hide RunIr, ResolveCode, Resolved, Get, Loaded, Yields, Keeps;
    ArgumentsHold(p, q, va, v, f, g, s, c, x);
    var t := RunIr(p.code + q.code, s, x);
    HeldParts(p, q, va, v, f || g, s, c, x);
    OperandsReady(p.r, q.r, t, q.c, x);
    RunIrAppend(p.code + q.code, ResolveCode(p.r) + ResolveCode(q.r), s, x);
    KeptOutcome(s, t, RunIr(ResolveCode(p.r) + ResolveCode(q.r), t, x), f || g, c, q.c);
  }

  lemma StoreExecutes(a: Operand, v: Operand, size: nat, u: Cpp, x: Inputs)
    ensures var t := ExecIr(StoreMem(a, v, size), u, x);
            OutcomeOf(t) == StoreOutcome(OutcomeOf(u), x.satp, Read(u.env, a), Read(u.env, v), size) &&
            t.wrote == u.wrote && t.env == u.env
  {
    hide Get, Stored, OutcomeOf, StoreOutcome, Read;
    StoredOutcome(u, x.satp, Read(u.env, a), Read(u.env, v), size);
  }

  lemma StoredOutcome(u: Cpp, satp: bv64, va: bv64, v: bv64, size: nat)
    ensures var t := Stored(u, satp, va, v, size);
            OutcomeOf(t) == StoreOutcome(OutcomeOf(u), satp, va, v, size) && t.wrote == u.wrote && t.env == u.env
  {
    hide Get;
    match StoreInto(u.mem, satp, va, v, size)
    case None =>
    case Some(mem) =>
  }

  // A store, once address and value have been evaluated.
  lemma StoreRuns(p: Built, q: Built, va: bv64, v: bv64, f: bool, g: bool, size: nat, s: Cpp, c: Counter, x: Inputs)
    requires Yields(p, va, f, s, c, x) && Yields(q, v, g, RunIr(p.code, s, x), p.c, x) && Usable(p.r, q.r)
    ensures Does(StoreCode(p, q, size), StoreOutcome(FaultsIn(OutcomeOf(s), f || g), x.satp, va, v, size), s, c, x)
  {
    hide RunIr, ExecIr, ResolveCode, Resolved, Read, Loaded, Yields, OutcomeOf, StoreOutcome, FaultsIn;
    var before := p.code + q.code + (ResolveCode(p.r) + ResolveCode(q.r));
    var u := RunIr(before, s, x);
    var last := StoreMem(Resolved(p.r), Resolved(q.r), size);
    StoreReady(p, q, va, v, f, g, s, c, x);
    RunIrAppend(before, [last], s, x);
    RunIr1(last, u, x);
    StoreExecutes(Resolved(p.r), Resolved(q.r), size, u, x);
    LoadedLater(u.env, q.c, StoreCode(p, q, size).c, x);
  }

  lemma KeptOutcome(s: Cpp, t: Cpp, u: Cpp, f: bool, c: Counter, d: Counter)
    requires Keeps(Ended(s, f), t, c) && Keeps(t, u, d)
    ensures OutcomeOf(u) == FaultsIn(OutcomeOf(s), f) && u.wrote == s.wrote
  {}

  lemma IfRuns(b: Built, inner: Code, v: bv64, f: bool, o: Outcome, s: Cpp, c: Counter, x: Inputs)
    requires Yields(b, v, f, s, c, x) && GoodRaw(b.r) && b.c.next <= inner.c.next
    requires var t := RunIr(b.code + ResolveCode(b.r), s, x);
             OutcomeOf(RunIr(inner.code, t, x)) == o && RunIr(inner.code, t, x).wrote == t.wrote &&
             o.rd == OutcomeOf(t).rd
    ensures Does(Use(b.(c := b.c.(next := inner.c.next)), IfStmt(Resolved(b.r), inner.code)),
                 if v == 0 then FaultsIn(OutcomeOf(s), f) else o, s, c, x)
  {
    hide RunIr, ResolveCode, Resolved, Get, Loaded, Yields;
    var last := IfStmt(Resolved(b.r), inner.code);
    ConditionReady(b, v, f, s, c, x);
    var t := RunIr(b.code + ResolveCode(b.r), s, x);
    RunIrAppend(b.code + ResolveCode(b.r), [last], s, x);
    RunIr1(last, t, x);
    LoadedLater(t.env, b.c, ResolveCounter(b.r, b.c.(next := inner.c.next)), x);
  }
}
