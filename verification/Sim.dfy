/** The simulator as functions on values: block cache, interpreter over cached blocks, recording,
    compiled code with nested calls, and the run loop. `None` means that the fuel, one unit per
    jump, nested call or step, ran out before the run ended. */
module Sim {
  import opened Bits
  import opened Sv39
  import opened Isa
  import opened X86
  import opened Compiler
  import opened Cfg
  import opened Reference
  import opened SlotIndex

  // The configuration: decoder, executable ranges, JIT settings, recording bound, slot mask, and
  // the value a call leaves in scratch registers.
  datatype Env = Env(dec: DecodeFn, ranges: seq<CodeRange>, useJit: bool, jitBound: nat, maxBb: nat, mask: nat,
    junk: bv64)

  type Slots = map<nat, Block>

  // `x` is the hart with its counter and the scratch registers of compiled code. The other two are
  // history: how often a plain compiled block was executed inside a nested call, where the number
  // of instructions it reports is dropped, and the sum of the numbers dropped.
  datatype Machine = Machine(x: State, cache: Slots, plainCalls: nat, lost: int)

  function Losing(m: Machine, k: int): Machine { m.(plainCalls := m.plainCalls + 1, lost := m.lost + k) }

  function DecodingOf(dec: DecodeFn, h: Hart): Decoding { pc => DecodeAt(dec, h, pc) }

  predicate Paged(h: Hart) { Mode(h.satp) != 0 }

  predicate HasJumps(instrs: seq<Instr>) { exists i | i in instrs :: i.format.FormatJ? || i.format.FormatB? }

  // A lookup counts itself and compiles a block that has become hot.
  function Promoted(env: Env, direct: bool, b: Block): Block
  {
    var c := b.(searchRate := b.searchRate + 1);
    if env.useJit && c.searchRate == env.jitBound && !HasJumps(c.instrs)
    then c.(code := Some(CompileBlock(direct, c)))
    else c
  }

  function Lookup(env: Env, direct: bool, pc: bv64, cache: Slots): (Slots, Option<Block>)
  {
    var k := Index(env.mask, pc);
    if k !in cache then (cache, None)
    else
      var b := Promoted(env, direct, cache[k]);
      (cache[k := b], Some(b))
  }

  function Install(env: Env, b: Block, cache: Slots): Slots { cache[Index(env.mask, b.startPc) := b] }

  function Abort(m: Machine): Machine { m.(x := m.x.(hart := m.x.hart.(status := Aborted))) }

  function WithHart(m: Machine, h: Hart, executed: nat): Machine
  {
    m.(x := m.x.(hart := h, count := m.x.count + executed))
  }

  // The executable function at pc, compiled and installed.
  function BuildAndInstall(env: Env, pc: bv64, m: Machine): Option<Machine>
  {
    var h := m.x.hart;
    match BuildBlock(env.ranges, DecodingOf(env.dec, h), pc)
    case FetchFault => Some(Abort(m))
    case NotExecutable => None
    case Built(b, _) => Some(m.(cache := Install(env, b.(code := Some(CompileBlock(!Paged(h), b))), m.cache)))
  }

  // Interpretation of a cached block from instruction idx: calls its exec function, then falls
  // through, loops back to the start, or leaves. Returns the hart and the number of instructions
  // executed. Reading past the exec functions is undefined in the source and ends the process here.
  function Interpret(env: Env, fuel: nat, b: Block, idx: nat, h: Hart, executed: nat): Option<(Hart, nat)>
    decreases fuel, |b.instrs| - idx
  {
    if idx >= |b.instrs| then Some((h, executed))
    else if idx >= |b.execFns| then Some((h.(status := Aborted), executed))
    else
      var g := CallFn(b.execFns[idx], b.instrs[idx], h);
      if g.status == Aborted then Some((g, executed))
      else if g.status == Halted then Some((g, executed + 1))
      else if g.pc == Add(h.pc, 4) then Interpret(env, fuel, b, idx + 1, g, executed + 1)
      else if g.pc == b.startPc then
        if fuel == 0 then None else Interpret(env, fuel - 1, b, 0, g, executed + 1)
      else Some((g, executed + 1))
  }

  // Execution that records the instructions it falls through, with their exec functions. Returns
  // the hart, what was recorded and the number executed.
  function Record(env: Env, h: Hart, instrs: seq<Instr>, fns: seq<ExecFn>): (Hart, seq<Instr>, seq<ExecFn>, nat)
    decreases env.maxBb - |instrs|
  {
    if |instrs| >= env.maxBb then (h, instrs, fns, |instrs|)
    else
      match DecodeAt(env.dec, h, h.pc)
      case None => (h.(status := Aborted), instrs, fns, |instrs|)
      case Some(i) =>
        var g := Execute(i, h);
        if g.status == Aborted then (g, instrs, fns, |instrs|)
        else if g.status == Halted || g.pc != Add(h.pc, 4) then (g, instrs, fns, |instrs| + 1)
        else Record(env, g, instrs + [i], fns + [ExecFnOf(i.opcode)])
  }

  function RecordBlock(env: Env, m: Machine): (Machine, int)
  {
    var h := m.x.hart;
    var (g, instrs, fns, executed) := Record(env, h, [], []);
    var cache := if instrs == [] then m.cache
      else Install(env, Block(ZextWord(h.pc), instrs, fns, [], false, None, 0), m.cache);
    (WithHart(m, g, executed).(cache := cache), executed)
  }

  // Compiled code: `rest` is what follows the program counter within `full`. An aborted process
  // runs nothing.
  function RunCode(env: Env, fuel: nat, full: seq<Ins>, rest: seq<Ins>, m: Machine): Option<Machine>
    decreases fuel, 0, |rest|
  {
    if rest == [] || m.x.hart.status == Aborted then Some(m)
    else
      var i := rest[0];
      if i.Jmp? then RunJump(env, fuel, full, i.l, m)
      else if i.Jcc? then
        if m.x.cpu.Holds(i.cc) then RunJump(env, fuel, full, i.l, m) else RunCode(env, fuel, full, rest[1..], m)
      else if i.CallTrampoline? then
        if fuel == 0 then None
        else
          match RunCall(env, fuel - 1, m.x.cpu.rsi, m.x.cpu.rdx, m)
          case None => None
          case Some(m') => RunCode(env, fuel, full, rest[1..], Returned(env, m'))
      else RunCode(env, fuel, full, rest[1..], m.(x := Exec(i, m.x, env.junk)))
  }

  function RunJump(env: Env, fuel: nat, full: seq<Ins>, l: Label, m: Machine): Option<Machine>
    decreases fuel, 0, 0
  {
    if fuel == 0 then None else RunCode(env, fuel - 1, full, From(full, l), m)
  }

  // A call leaves nothing in the scratch registers the code may rely on.
  function Returned(env: Env, m: Machine): Machine { m.(x := m.x.(cpu := m.x.cpu.Clobbered(env.junk, env.junk))) }

  // call_trampoline: run the callee compiled, else step until control is back at ret.
  function RunCall(env: Env, fuel: nat, target: bv64, ret: bv64, m: Machine): Option<Machine>
    decreases fuel, 3, 0
  {
    match EnsureJit(env, target, m)
    case (m', false) => RunUntil(env, fuel, ret, m')
    case (m', true) => if m'.x.hart.status == Aborted then Some(m') else RunFunction(env, fuel, target, m')
  }

  // execute_jitted_function.
  function RunFunction(env: Env, fuel: nat, entry: bv64, m: Machine): Option<Machine>
    decreases fuel, 2, 0
  {
    var (cache, found) := Lookup(env, !Paged(m.x.hart), entry, m.cache);
    var m' := m.(cache := cache);
    if found.Some? && found.value.code.Some? then
      var b := found.value;
      match RunCode(env, fuel, b.code.value, b.code.value, m')
      case None => None
      case Some(r) => Some(if b.isFunction then r else Losing(r, |b.instrs|))
    else Some(m')
  }

  // Whether compiled code for the function at target is in the cache afterwards.
  function EnsureJit(env: Env, target: bv64, m: Machine): (Machine, bool)
  {
    if !env.useJit then (m, false)
    else
      var (cache, found) := Lookup(env, !Paged(m.x.hart), target, m.cache);
      var m' := m.(cache := cache);
      if found.Some? && found.value.code.Some? then (m', true)
      else
        match BuildAndInstall(env, target, m')
        case None => (m', false)
        case Some(m'') => (m'', true)
  }

  // The next step executes a plain compiled block, which counts nothing.
  predicate EntersPlain(env: Env, m: Machine)
  {
    var found := Lookup(env, !Paged(m.x.hart), m.x.hart.pc, m.cache).1;
    found.Some? && found.value.code.Some? && !found.value.isFunction
  }

  // run_until_pc: the number each step returns is dropped.
  function RunUntil(env: Env, fuel: nat, ret: bv64, m: Machine): Option<Machine>
    decreases fuel, 2, 0
  {
    if m.x.hart.status != Running || m.x.hart.pc == ret then Some(m)
    else if fuel == 0 then None
    else
      match SimStep(env, fuel - 1, m)
      case None => None
      case Some((m', k)) => RunUntil(env, fuel - 1, ret, if EntersPlain(env, m) then Losing(m', k) else m')
  }

  // execute_cached_block.
  function ExecBlock(env: Env, fuel: nat, b: Block, m: Machine): Option<(Machine, int)>
    decreases fuel, 1, 0
  {
    if b.code.Some? then
      match RunCode(env, fuel, b.code.value, b.code.value, m)
      case None => None
      case Some(m') => Some((m', if b.isFunction then m'.x.count - m.x.count else |b.instrs|))
    else
      match Interpret(env, fuel, b, 0, m.x.hart, 0)
      case None => None
      case Some((h, executed)) => Some((WithHart(m, h, executed), executed))
  }

  // step: the new state and the number of instructions it reports.
  function SimStep(env: Env, fuel: nat, m: Machine): Option<(Machine, int)>
    decreases fuel, 2, 0
  {
    var h := m.x.hart;
    var (cache, found) := Lookup(env, !Paged(h), h.pc, m.cache);
    var m1 := m.(cache := cache);
    if found.Some? then ExecBlock(env, fuel, found.value, m1)
    else if !env.useJit then Some(RecordBlock(env, m1))
    else
      match BuildAndInstall(env, h.pc, m1)
      case None => Some(RecordBlock(env, m1))
      case Some(m2) =>
        if m2.x.hart.status == Aborted then Some((m2, 0))
        else
          var (cache3, built) := Lookup(env, !Paged(h), h.pc, m2.cache);
          if built.Some? then ExecBlock(env, fuel, built.value, m2.(cache := cache3))
          else Some(RecordBlock(env, m2.(cache := cache3)))
  }

  // Machine::run: steps until the hart stops or max cycles, 0 meaning no bound, are reached.
  function RunMachine(env: Env, fuel: nat, max: nat, m: Machine, cycle: int): Option<(Machine, int)>
    decreases fuel
  {
    if (max != 0 && cycle >= max) || m.x.hart.status != Running then Some((m, cycle))
    else if fuel == 0 then None
    else
      match SimStep(env, fuel - 1, m)
      case None => None
      case Some((m', k)) => RunMachine(env, fuel - 1, max, m', cycle + k)
  }
}
