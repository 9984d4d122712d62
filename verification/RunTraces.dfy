/** Where the simulator's loops stop: the states each of them passes through, from its first to its
    last. */
module RunTraces {
  import opened Bits
  import opened Isa
  import opened Compiler
  import opened Reference
  import opened Sim
  import opened SlotIndex

  // Machine::run stops here: the hart is not running, or a bound is set and the total has reached it.
  predicate AtRunEnd(max: nat, m: Machine, cycle: int)
  {
    m.x.hart.status != Running || (max != 0 && cycle >= max)
  }

  // One more step, which reports the difference of the totals.
  ghost predicate Stepped(env: Env, fuel: nat, before: (Machine, int), after: (Machine, int))
  {
    SimStep(env, fuel, before.0) == Some((after.0, after.1 - before.1))
  }

  // A run is the steps from its start to the first state in which it must stop.
  lemma {:induction false} RunTrace(env: Env, fuel: nat, max: nat, m: Machine, cycle: int)
    returns (trace: seq<(Machine, int)>)
    requires RunMachine(env, fuel, max, m, cycle).Some?
    ensures 0 < |trace| <= fuel + 1 && trace[0] == (m, cycle)
    ensures trace[|trace| - 1] == RunMachine(env, fuel, max, m, cycle).value
    ensures forall j | 0 <= j < |trace| :: AtRunEnd(max, trace[j].0, trace[j].1) <==> j == |trace| - 1
    ensures forall j | 0 <= j < |trace| - 1 :: Stepped(env, fuel - 1 - j, trace[j], trace[j + 1])
    decreases fuel
  {
    hide SimStep;
    trace := [(m, cycle)];
    if !AtRunEnd(max, m, cycle) {
      var (m', k) := SimStep(env, fuel - 1, m).value;
      var rest := RunTrace(env, fuel - 1, max, m', cycle + k);
      assert Stepped(env, fuel - 1, (m, cycle), rest[0]);
      trace := trace + rest;
    }
  }

  // run_until_pc stops here.
  predicate AtUntilEnd(ret: bv64, m: Machine) { m.x.hart.status != Running || m.x.hart.pc == ret }

  // One more step, apart from the history of what its plain compiled blocks lose.
  ghost predicate SteppedUncounted(env: Env, fuel: nat, before: Machine, after: Machine)
  {
    SimStep(env, fuel, before).Some? &&
    var m := SimStep(env, fuel, before).value.0;
    after.x == m.x && after.cache == m.cache
  }

  // The loop up to a return pc is the steps from its start to the first state in which the hart is
  // there or has stopped.
  lemma {:induction false} UntilTrace(env: Env, fuel: nat, ret: bv64, m: Machine) returns (trace: seq<Machine>)
    requires RunUntil(env, fuel, ret, m).Some?
    ensures 0 < |trace| <= fuel + 1 && trace[0] == m && trace[|trace| - 1] == RunUntil(env, fuel, ret, m).value
    ensures forall j | 0 <= j < |trace| :: AtUntilEnd(ret, trace[j]) <==> j == |trace| - 1
    ensures forall j | 0 <= j < |trace| - 1 :: SteppedUncounted(env, fuel - 1 - j, trace[j], trace[j + 1])
    decreases fuel
  {
    hide SimStep, EntersPlain;
    trace := [m];
    if !AtUntilEnd(ret, m) {
      var (m', k) := SimStep(env, fuel - 1, m).value;
      var m1 := if EntersPlain(env, m) then Losing(m', k) else m';
      var rest := UntilTrace(env, fuel - 1, ret, m1);
      assert SteppedUncounted(env, fuel - 1, m, rest[0]);
      trace := trace + rest;
    }
  }

  // A turn of the interpreting loop: the hart before it and the index of the instruction it executes.
  datatype Turn = Turn(h: Hart, idx: nat)

  function After(b: Block, t: Turn): Hart
    requires t.idx < |b.instrs| == |b.execFns|
  {
    CallFn(b.execFns[t.idx], b.instrs[t.idx], t.h)
  }

  // The loop goes on behind turn t in turn u: at the next instruction, or back at the first.
  ghost predicate TurnFollows(b: Block, t: Turn, u: Turn)
    requires t.idx < |b.instrs| == |b.execFns|
  {
    u.h == After(b, t) && u.h.status == Running &&
    if u.h.pc == Add(t.h.pc, 4) then u.idx == t.idx + 1 else u.h.pc == b.startPc && u.idx == 0
  }

  // The loop ends behind turn t: the hart has stopped, ran off the last instruction, or left for a
  // pc that is neither the next instruction's nor the block's start.
  predicate LastTurn(b: Block, t: Turn)
    requires t.idx < |b.instrs| == |b.execFns|
  {
    var g := After(b, t);
    g.status != Running ||
    if g.pc == Add(t.h.pc, 4) then t.idx + 1 == |b.instrs| else g.pc != b.startPc
  }

  // Interpretation of a recorded block takes the turns it must, and ends behind the first that
  // leaves the block; it counts every turn but an aborted one.
  lemma {:induction false} InterpretTrace(env: Env, fuel: nat, b: Block, idx: nat, h: Hart, executed: nat)
    returns (turns: seq<Turn>)
    requires idx < |b.instrs| == |b.execFns| && Interpret(env, fuel, b, idx, h, executed).Some?
    ensures turns != [] && turns[0] == Turn(h, idx) && forall j | 0 <= j < |turns| :: turns[j].idx < |b.instrs|
    ensures forall j | 0 <= j < |turns| - 1 :: TurnFollows(b, turns[j], turns[j + 1])
    ensures var (g, total) := Interpret(env, fuel, b, idx, h, executed).value;
            var last := turns[|turns| - 1];
            LastTurn(b, last) && g == After(b, last) &&
            total == executed + |turns| - if g.status == Aborted then 1 else 0
    decreases fuel, |b.instrs| - idx
  {
    hide Execute, Add;
    turns := [Turn(h, idx)];
    if !LastTurn(b, turns[0]) {
      var g := After(b, turns[0]);
      var rest;
      if g.pc == Add(h.pc, 4) {
        rest := InterpretTrace(env, fuel, b, idx + 1, g, executed + 1);
      } else {
        rest := InterpretTrace(env, fuel - 1, b, 0, g, executed + 1);
      }
      assert TurnFollows(b, turns[0], rest[0]);
      turns := turns + rest;
    }
  }

  // Recording goes on while the hart falls through, up to the bound: hart k of hs fell through
  // instruction k into hart k + 1, and the last of hs is where the recording reached the bound,
  // faulted in the fetch, or executed an instruction that did not fall through, which is not kept.
  lemma RecordTrace(env: Env, h: Hart) returns (hs: seq<Hart>)
    ensures var (g, recorded, kept, executed) := Record(env, h, [], []);
            |hs| == |recorded| + 1 && hs[0] == h && |recorded| <= env.maxBb && Recording(env, hs, recorded, kept, 0) &&
            RecordEnd(env, hs[|recorded|], |recorded|, g, executed)
  {
    hs := RecordTraceFrom(env, [], h, [], []);
  }

  // From instruction n on.
  ghost predicate Recording(env: Env, hs: seq<Hart>, recorded: seq<Instr>, kept: seq<ExecFn>, n: nat)
  {
    |hs| == |recorded| + 1 && |kept| == |recorded| &&
    forall k | n <= k < |recorded| ::
      FallsThrough(env, hs[k], recorded[k], hs[k + 1]) && kept[k] == ExecFnOf(recorded[k].opcode)
  }

  lemma {:induction false} RecordTraceFrom(env: Env, before: seq<Hart>, h: Hart, instrs: seq<Instr>, fns: seq<ExecFn>)
    returns (hs: seq<Hart>)
    requires |fns| == |instrs| == |before| <= env.maxBb
    ensures var (g, recorded, kept, executed) := Record(env, h, instrs, fns);
            |hs| == |recorded| + 1 && before + [h] <= hs && instrs <= recorded && fns <= kept &&
            |recorded| <= env.maxBb && Recording(env, hs, recorded, kept, |instrs|) &&
            RecordEnd(env, hs[|recorded|], |recorded|, g, executed)
    decreases env.maxBb - |instrs|
  {
    hide Execute, Add, DecodeAt;
    hs := before + [h];
    if |instrs| < env.maxBb && DecodeAt(env.dec, h, h.pc).Some? {
      var i := DecodeAt(env.dec, h, h.pc).value;
      var g := Execute(i, h);
      if FallsThrough(env, h, i, g) {
        hs := RecordTraceFrom(env, before + [h], g, instrs + [i], fns + [ExecFnOf(i.opcode)]);
        var (_, recorded, kept, _) := Record(env, g, instrs + [i], fns + [ExecFnOf(i.opcode)]);
        var n := |instrs|;
        assert hs[n] == (before + [h])[n] == h && hs[n + 1] == (before + [h] + [g])[n + 1] == g;
        assert recorded[n] == (instrs + [i])[n] == i && kept[n] == (fns + [ExecFnOf(i.opcode)])[n];
      }
    }
  }

  // The instruction decoded at the hart's pc runs on into the next one.
  ghost predicate FallsThrough(env: Env, h: Hart, i: Instr, g: Hart)
  {
    DecodeAt(env.dec, h, h.pc) == Some(i) && g == Execute(i, h) && g.status == Running && g.pc == Add(h.pc, 4)
  }

  ghost predicate RecordEnd(env: Env, h: Hart, recorded: nat, g: Hart, executed: nat)
  {
    if recorded >= env.maxBb then g == h && executed == recorded
    else
      match DecodeAt(env.dec, h, h.pc)
      case None => g == h.(status := Aborted) && executed == recorded
      case Some(i) =>
        g == Execute(i, h) && !FallsThrough(env, h, i, g) &&
        executed == recorded + if g.status == Aborted then 0 else 1
  }

  // The decoder plays no part in interpreting a cached block.
  lemma {:induction false} InterpretDecodesNothing(env: Env, other: DecodeFn, fuel: nat, b: Block, idx: nat, h: Hart,
          executed: nat)
    ensures Interpret(env, fuel, b, idx, h, executed) == Interpret(env.(dec := other), fuel, b, idx, h, executed)
    decreases fuel, |b.instrs| - idx
  {
    hide Execute, Add;
    if idx < |b.instrs| && idx < |b.execFns| {
      var g := CallFn(b.execFns[idx], b.instrs[idx], h);
      if g.pc == Add(h.pc, 4) {
        InterpretDecodesNothing(env, other, fuel, b, idx + 1, g, executed + 1);
      } else if fuel > 0 {
        InterpretDecodesNothing(env, other, fuel - 1, b, 0, g, executed + 1);
      }
    }
  }

  // So a step at a pc whose block is cached and not compiled decodes nothing.
  lemma CachedStepDecodesNothing(env: Env, other: DecodeFn, fuel: nat, m: Machine)
    requires var found := Lookup(env, !Paged(m.x.hart), m.x.hart.pc, m.cache).1;
             found.Some? && found.value.code.None?
    ensures SimStep(env, fuel, m) == SimStep(env.(dec := other), fuel, m)
  {
    hide Interpret, Index, CompileBlock, HasJumps, Paged;
    var h := m.x.hart;
    assert Lookup(env.(dec := other), !Paged(h), h.pc, m.cache) == Lookup(env, !Paged(h), h.pc, m.cache);
    InterpretDecodesNothing(env, other, fuel, Lookup(env, !Paged(h), h.pc, m.cache).1.value, 0, h, 0);
  }

  // A step without the JIT and with nothing in the slot leaves there what it recorded.
  lemma RecordedIsFound(env: Env, direct: bool, fuel: nat, m: Machine)
    requires !env.useJit && Index(env.mask, m.x.hart.pc) !in m.cache && ZextWord(m.x.hart.pc) == m.x.hart.pc
    ensures var recorded := Record(env, m.x.hart, [], []);
            SimStep(env, fuel, m).Some? &&
            var found := Lookup(env, direct, m.x.hart.pc, SimStep(env, fuel, m).value.0.cache).1;
            if recorded.1 == [] then found.None?
            else found.Some? && found.value.startPc == m.x.hart.pc && found.value.instrs == recorded.1 &&
                 found.value.execFns == recorded.2 && found.value.code.None?
  {
    hide Record, Index, CompileBlock, HasJumps, ZextWord;
  }

  // What n lookups of one pc leave in the cache.
  function LookedUp(env: Env, direct: bool, pc: bv64, cache: Slots, n: nat): Slots
  {
    if n == 0 then cache else Lookup(env, direct, pc, LookedUp(env, direct, pc, cache, n - 1)).0
  }

  // A cached block without code is compiled at the lookup that brings its count to the bound, when
  // the JIT is on and it holds no branch and no jal; other slots are left alone.
  lemma {:induction false} PromotedAtBound(env: Env, direct: bool, pc: bv64, cache: Slots, n: nat)
    requires Index(env.mask, pc) in cache && cache[Index(env.mask, pc)].code.None?
    ensures var k := Index(env.mask, pc);
            var b := cache[k];
            var c := LookedUp(env, direct, pc, cache, n);
            c.Keys == cache.Keys && (forall j | j in cache && j != k :: c[j] == cache[j]) &&
            c[k] == b.(searchRate := b.searchRate + n, code := c[k].code) &&
            (c[k].code.Some? <==>
              env.useJit && b.searchRate < env.jitBound <= b.searchRate + n &&
              forall i | i in b.instrs :: !i.format.FormatJ? && !i.format.FormatB?)
    ensures var c := LookedUp(env, direct, pc, cache, n)[Index(env.mask, pc)];
            c.code.Some? ==>
              c.code == Some(CompileBlock(direct, cache[Index(env.mask, pc)].(searchRate := env.jitBound)))
  {
    hide CompileBlock, Index;
    if n > 0 {
      PromotedAtBound(env, direct, pc, cache, n - 1);
    }
  }
}
