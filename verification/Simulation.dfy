/** The simulator against the slow machine: whatever mix of cached blocks, recordings and compiled
    code runs, the hart is where single steps would have brought it. */
module Simulation {
  import opened Bits
  import opened Sv39
  import opened Isa
  import opened X86
  import opened EmitEffect
  import opened Compiler
  import opened Cfg
  import opened Reference
  import opened Sim
  import opened SlotIndex

  // What the guest program fixes: the instruction at every pc, the pcs control can reach, satp, and
  // which jalrs always land on their successor.
  datatype World = World(env: Env, image: bv64 -> Instr, code: iset<bv64>, satp: bv64, steady: iset<bv64>)

  predicate Direct(w: World) { Mode(w.satp) == 0 }

  ghost predicate AllExec(w: World) { forall pc | pc in w.code :: IsExec(w.env.ranges, pc) }

  // No instruction is executed by a plain compiled block.
  ghost predicate Counted(w: World) { !w.env.useJit || AllExec(w) }

  // Reached pcs fit the 32 bits the cache keeps of them, and no two share a slot.
  ghost predicate Placed(w: World)
  {
    (forall pc | pc in w.code :: ZextWord(pc) == pc && Formatted(w.image(pc))) &&
    forall p, q | p in w.code && q in w.code :: Index(w.env.mask, p) == Index(w.env.mask, q) ==> p == q
  }

  // The instruction in memory at pc is the image's.
  ghost predicate Intact(w: World, h: Hart, pc: bv64) { DecodeAt(w.env.dec, h, pc) == Some(w.image(pc)) }

  // The next instruction lands on its successor.
  ghost predicate RunsOn(w: World, h: Hart)
  {
    var g := Execute(w.image(h.pc), h);
    g.status == Running && g.pc == Add(h.pc, 4)
  }

  // Plain compiled code runs its instructions in order, so a jalr it may run past must land on its
  // successor every time. It may hold a jalr in front of another instruction only if both have
  // once been executed that way, and only if some reached code is not executable.
  ghost predicate JalrSteady(w: World, h: Hart)
  {
    w.image(h.pc).opcode.JALR? && !AllExec(w) ==>
      (h.pc in w.steady ==> RunsOn(w, h)) &&
      (RunsOn(w, h) && RunsOn(w, Execute(w.image(h.pc), h)) ==> h.pc in w.steady)
  }

  // What compiled code relies on in a running state: executable memory still holds the image, and
  // the emitted code of the next instruction agrees with the executer.
  ghost predicate Compilable(w: World, h: Hart)
  {
    (forall pc | IsExec(w.env.ranges, pc) :: Intact(w, h, pc)) &&
    Emittable(w.image(h.pc)) && Agrees(w.image(h.pc), h) && JalrSteady(w, h)
  }

  ghost predicate Good(w: World, h: Hart)
  {
    h.status == Running ==> h.pc in w.code && Intact(w, h, h.pc) && (w.env.useJit ==> Compilable(w, h))
  }

  // Every state the slow machine reaches is good.
  ghost predicate GoodRun(w: World, h: Hart) { forall n: nat :: Good(w, StepN(w.env.dec, n, h)) }

  // A halted hart stands behind an ecall.
  ghost predicate BehindEcall(w: World, h: Hart)
  {
    h.status == Halted ==> exists p :: w.image(p).opcode.ECALL? && h.pc == Add(p, 4)
  }

  ghost predicate HartOk(w: World, h: Hart)
  {
    GoodRun(w, h) && h.satp == w.satp && Cell(h, 0) == 0 && BehindEcall(w, h)
  }

  lemma StepOk(w: World, h: Hart)
    requires HartOk(w, h) && h.status == Running
    ensures Good(w, h) && Retires(w.env.dec, 1, h, Execute(w.image(h.pc), h))
    ensures HartOk(w, Execute(w.image(h.pc), h))
  {
    hide Execute, DecodeAt, Compilable;
    var g := Execute(w.image(h.pc), h);
    assert Good(w, StepN(w.env.dec, 0, h));
    assert Step(w.env.dec, h) == g;
    RetiresOne(w.env.dec, h);
    forall n: nat
      ensures Good(w, StepN(w.env.dec, n, g))
    {
      assert StepN(w.env.dec, n + 1, h) == StepN(w.env.dec, n, g);
      assert Good(w, StepN(w.env.dec, n + 1, h));
    }
    ExecuteKeeps(w.image(h.pc), h);
    if g.status == Halted {
      ExecuteFlow(w.image(h.pc), h);
    }
  }

  // The pc j instructions after start.
  function PcAt(start: bv64, j: nat): bv64 { if j == 0 then start else Add(PcAt(start, j - 1), 4) }

  ghost predicate FunctionOk(w: World, b: Block)
  {
    w.env.useJit && 0 < |b.pcs| == |b.instrs| && Distinct(b.pcs) && b.pcs[0] == b.startPc &&
    (forall j | 0 <= j < |b.pcs| :: IsExec(w.env.ranges, b.pcs[j]) && b.instrs[j] == w.image(b.pcs[j])) &&
    b.execFns == [] &&
    b.code == Some(CompileBlock(Direct(w), b))
  }

  // What a recording that began at start may hold: instructions of the image, each with its exec
  // function, and only steady jalrs before the last.
  ghost predicate Recorded(w: World, start: bv64, instrs: seq<Instr>, fns: seq<ExecFn>)
  {
    |instrs| <= w.env.maxBb && |fns| == |instrs| &&
    (forall j | 0 <= j < |instrs| :: instrs[j] == w.image(PcAt(start, j)) && !instrs[j].opcode.ECALL?) &&
    (forall j | 0 <= j < |instrs| :: fns[j] == ExecFnOf(instrs[j].opcode)) &&
    (w.env.useJit ==> SteadyBeforeLast(w, start, instrs))
  }

  ghost predicate SteadyBeforeLast(w: World, start: bv64, instrs: seq<Instr>)
  {
    forall j | 0 <= j < |instrs| - 1 && instrs[j].opcode.JALR? :: PcAt(start, j) in w.steady
  }

  ghost predicate PlainOk(w: World, b: Block)
  {
    Recorded(w, b.startPc, b.instrs, b.execFns) &&
    (w.env.useJit ==> !IsExec(w.env.ranges, b.startPc)) &&
    (b.code.Some? ==> w.env.useJit && !HasJumps(b.instrs) && b.code == Some(CompileBlock(Direct(w), b)))
  }

  // What a valid slot holds: the instructions of the image from its start on, and, compiled,
  // their code.
  ghost predicate BlockOk(w: World, b: Block)
  {
    b.instrs != [] && b.startPc in w.code && if b.isFunction then FunctionOk(w, b) else PlainOk(w, b)
  }

  ghost predicate CacheOk(w: World, cache: Slots)
  {
    forall k | k in cache :: k == Index(w.env.mask, cache[k].startPc) && BlockOk(w, cache[k])
  }

  lemma PromotedOk(w: World, b: Block)
    requires BlockOk(w, b)
    ensures BlockOk(w, Promoted(w.env, Direct(w), b)) && Promoted(w.env, Direct(w), b).startPc == b.startPc
  {
    hide FunctionCodeFrom, PlainCodeFrom;
  }

  // A hit for a reached pc is the block of that pc.
  lemma LookupOk(w: World, pc: bv64, cache: Slots)
    requires Placed(w) && CacheOk(w, cache) && pc in w.code
    ensures var (c, found) := Lookup(w.env, Direct(w), pc, cache);
            CacheOk(w, c) && (found.Some? ==> BlockOk(w, found.value) && found.value.startPc == pc)
  {
    hide Index;
    var k := Index(w.env.mask, pc);
    if k in cache {
      PromotedOk(w, cache[k]);
      assert cache[k].startPc in w.code by { BlockStart(w, cache[k]); }
    }
  }

  // The blocks a lookup can return: an interpreted one has an exec function for each of its
  // instructions, that of the instruction's opcode; a function block has none, and is compiled.
  lemma ExecFnsMatch(w: World, pc: bv64, cache: Slots)
    requires Placed(w) && CacheOk(w, cache) && pc in w.code
    ensures var found := Lookup(w.env, Direct(w), pc, cache).1;
            found.Some? ==>
              var b := found.value;
              if b.isFunction then b.execFns == [] && b.code.Some?
              else 0 < |b.execFns| == |b.instrs| <= w.env.maxBb &&
                   forall k | 0 <= k < |b.instrs| :: b.execFns[k] == ExecFnOf(b.instrs[k].opcode)
  {
    hide Lookup, CompileBlock, Placed, CacheOk;
    LookupOk(w, pc, cache);
  }

  lemma BlockStart(w: World, b: Block)
    requires BlockOk(w, b)
    ensures b.startPc in w.code
  {}

  lemma InstallOk(w: World, b: Block, cache: Slots)
    requires CacheOk(w, cache) && BlockOk(w, b)
    ensures CacheOk(w, Install(w.env, b, cache))
  {
    hide BlockOk;
  }

  lemma BuildOk(w: World, m: Machine)
    requires Placed(w) && CacheOk(w, m.cache) && HartOk(w, m.x.hart) && m.x.hart.status == Running && w.env.useJit
    ensures var r := BuildAndInstall(w.env, m.x.hart.pc, m);
            if IsExec(w.env.ranges, m.x.hart.pc) then r.Some? && r.value == m.(cache := r.value.cache) &&
              CacheOk(w, r.value.cache)
            else r.None?
  {
    hide IsExec, DecodeAt, Explore, Flow, Layout, CompileBlock, Distinct, Formatted, Index, Install, CacheOk,
         Compilable;
    var h := m.x.hart;
    var dec := DecodingOf(w.env.dec, h);
    StepOk(w, h);
    assert Compilable(w, h);
    ExecutableDecodes(w, h);
    if IsExec(w.env.ranges, h.pc) {
      ExploreSucceeds(w.env.ranges, Flow(w.env.ranges, dec), h.pc);
      BuiltBlock(w.env.ranges, dec, h.pc);
      var b := BuildBlock(w.env.ranges, dec, h.pc).block;
      var c := b.(code := Some(CompileBlock(Direct(w), b)));
      CodeIgnoresCode(Direct(w), b, c.code);
      assert FunctionOk(w, c);
      InstallOk(w, c, m.cache);
    }
  }

  lemma ExecutableDecodes(w: World, h: Hart)
    requires Compilable(w, h)
    ensures var dec := DecodingOf(w.env.dec, h);
            forall pc | IsExec(w.env.ranges, pc) :: dec(pc) == Some(w.image(pc)) && Flow(w.env.ranges, dec)(pc).Some?
  {
    hide Execute, Emittable, Successors;
    forall pc | IsExec(w.env.ranges, pc)
      ensures DecodingOf(w.env.dec, h)(pc) == Some(w.image(pc)) &&
              Flow(w.env.ranges, DecodingOf(w.env.dec, h))(pc).Some?
    {
      assert Intact(w, h, pc);
    }
  }

  lemma CodeIgnoresCode(direct: bool, b: Block, code: Option<seq<Ins>>)
    ensures CompileBlock(direct, b.(code := code)) == CompileBlock(direct, b)
  {}
}
