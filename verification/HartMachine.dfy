/** The hart as an object whose methods run code in place: stepping, cached blocks, compiled code
    and its trampolines. Each method is proved equal to its function of module Sim. A method that
    might not return takes fuel and says whether it ended. */
module HartMachine {
  import opened Bits
  import opened Memory
  import opened Isa
  import opened X86
  import opened Compiler
  import opened Cfg
  import opened Reference
  import opened Sim
  import opened SlotIndex
  import opened BlockCache
  import opened Predecode

  lemma CallOf(f: ExecFn, i: Instr, h: Isa.Hart)
    ensures CallFn(f, i, h) == Execute(i.(opcode := f.op), h)
  {}

  class Hart {
    var regs: map<nat, bv64>
    var mem: Mem
    var pc: bv64
    var nextPc: bv64
    var satp: bv64
    var status: Status
    var instrCounter: nat
    var cpu: Cpu            // the host's scratch registers
    ghost var plainCalls: nat
    ghost var lost: int
    const cache: NaiveCache
    const env: Env

    ghost predicate Valid() { cache.Valid() && env.mask == cache.mask }

    function Value(): Isa.Hart
      reads this
    {
      Isa.Hart(regs, mem, pc, satp, status)
    }

    ghost function Snapshot(): Machine
      reads this, cache.slots
    {
      Machine(State(cpu, Value(), instrCounter), cache.Contents(), plainCalls, lost)
    }

    constructor (h: Isa.Hart, e: Env)
      requires exists k: nat :: IsMask(e.mask, k)
      ensures Valid() && env == e && fresh(cache) && fresh(cache.slots)
      ensures Snapshot() == Machine(State(Cpu(0, 0, 0, 0, 0, 0, Undefined), h, 0), map[], 0, 0)
    {
      regs, mem, pc, satp, status := h.regs, h.mem, h.pc, h.satp, h.status;
      nextPc := 0;
      instrCounter := 0;
      cpu := Cpu(0, 0, 0, 0, 0, 0, Undefined);
      plainCalls, lost := 0, 0;
      env := e;
      cache := new NaiveCache(e.mask + 1);
    }

    // next_pc_ = pc_ + 4, then a call through the exec function pointer.
    method Dispatch(fn: ExecFn, instr: Instr)
      requires status == Running
      modifies this`regs, this`mem, this`status, this`nextPc
      ensures Value() == CallFn(fn, instr, old(Value())).(pc := pc) && nextPc == CallFn(fn, instr, old(Value())).pc
      ensures status == Aborted ==> Value() == CallFn(fn, instr, old(Value()))
    {
      CallOf(fn, instr, Value());
      Perform(instr.(opcode := fn.op));
    }

    // `execute`: runs the instruction by its opcode and returns the function it ran.
    method ExecuteByOpcode(i: Instr) returns (fn: ExecFn)
      requires status == Running
      modifies this`regs, this`mem, this`status, this`nextPc
      ensures Value() == Execute(i, old(Value())).(pc := pc) && nextPc == Execute(i, old(Value())).pc
      ensures status == Aborted ==> Value() == Execute(i, old(Value()))
      ensures fn == ExecFnOf(i.opcode)
    {
      Perform(i);
      fn := ExecFnOf(i.opcode);
    }

    // The effect of one execute function on the fields.
    method Perform(i: Instr)
      requires status == Running
      modifies this`regs, this`mem, this`status, this`nextPc
      ensures Value() == Execute(i, old(Value())).(pc := pc) && nextPc == Execute(i, old(Value())).pc
      ensures status == Aborted ==> Value() == Execute(i, old(Value()))
    {
      hide Execute;
      var h := Value();
      var g := Execute(i, h);
      ExecuteKeeps(i, h);
      if g.status == Aborted {
        AbortKeepsPc(i, h);
      }
      regs, mem, status, nextPc := g.regs, g.mem, g.status, g.pc;
    }

    // Fetch and decode at pc; a failed fetch ends the process.
    method Fetch() returns (i: Option<Instr>)
      modifies this`status
      ensures i == DecodeAt(env.dec, old(Value()), pc)
      ensures Value() == if i.None? then old(Value()).(status := Aborted) else old(Value())
    {
      hide DecodeAt;
      i := DecodeAt(env.dec, Value(), pc);
      if i.None? {
        status := Aborted;
      }
    }

    // threaded_code's lookup.
    method Lookup(at: bv64) returns (b: Option<Block>)
      requires Valid()
      modifies cache.slots
      ensures Snapshot() == old(Snapshot()).(cache := Sim.Lookup(env, !Paged(Value()), at, old(cache.Contents())).0)
      ensures b == Sim.Lookup(env, !Paged(Value()), at, old(cache.Contents())).1
    {
      hide CompileBlock, HasJumps, Paged;
      ghost var before := cache.Contents();
      var k := cache.IndexFor(at);
      b := cache.slots[k];
      if b.Some? {
        var c := b.value.(searchRate := b.value.searchRate + 1);
        if env.useJit && c.searchRate == env.jitBound {
          var jumps := FindJump(c.instrs);
          if !jumps {
            var code := Compile(!Paged(Value()), c);
            c := c.(code := Some(code));
          }
        }
        cache.slots[k] := Some(c);
        b := Some(c);
        assert cache.Contents() == before[k := c];
      }
    }

    // std::find_if over the formats.
    method FindJump(instrs: seq<Instr>) returns (found: bool)
      ensures found == HasJumps(instrs)
    {
      for k := 0 to |instrs|
        invariant forall i | i in instrs[..k] :: !(i.format.FormatJ? || i.format.FormatB?)
      {
        assert instrs[..k + 1] == instrs[..k] + [instrs[k]];
        if instrs[k].format.FormatJ? || instrs[k].format.FormatB? {
          return true;
        }
      }
      assert instrs[..|instrs|] == instrs;
      return false;
    }

    method Install(b: Block)
      requires Valid()
      modifies cache.slots
      ensures Snapshot() == old(Snapshot()).(cache := Sim.Install(env, b, old(cache.Contents())))
    {
      cache.Install(b);
    }

    // install_bb_if_valid: only blocks with instructions are installed.
    method InstallIfValid(b: Block)
      requires Valid()
      modifies cache.slots
      ensures Snapshot()
              == old(Snapshot()).(cache := if b.instrs == [] then old(cache.Contents())
                else Sim.Install(env, b, old(cache.Contents())))
    {
      if |b.instrs| > 0 {
        Install(b);
      }
    }

    // The recording loop of step.
    method RecordLoop() returns (instrs: seq<Instr>, fns: seq<ExecFn>, collected: nat)
      requires status == Running
      modifies this`regs, this`mem, this`status, this`nextPc, this`pc
      ensures (Value(), instrs, fns, collected) == Record(env, old(Value()), [], [])
    {
      hide Execute, DecodeAt;
      ghost var h0 := Value();
      instrs, fns, collected := [], [], 0;
      while collected < env.maxBb
        invariant collected == |instrs| && status == Running
        invariant Record(env, Value(), instrs, fns) == Record(env, h0, [], [])
        decreases env.maxBb - collected
      {
        var i := Fetch();
        if i.None? {
          return;
        }
        var fn := ExecuteByOpcode(i.value);
        if status == Aborted {
          return;
        }
        collected := collected + 1;
        if status == Halted || nextPc != Add(pc, 4) {
          pc := nextPc;
          return;
        }
        instrs, fns := instrs + [i.value], fns + [fn];
        pc := nextPc;
      }
    }

    // The part of step that records a block and installs it.
    method RecordAndInstall() returns (collected: int)
      requires Valid() && status == Running
      modifies this`regs, this`mem, this`status, this`nextPc, this`pc, this`instrCounter, cache.slots
      ensures (Snapshot(), collected) == RecordBlock(env, old(Snapshot()))
    {
      hide Record;
      var start := ZextWord(pc);
      var instrs, fns, n := RecordLoop();
      InstallIfValid(Block(start, instrs, fns, [], false, None, 0));
      instrCounter := instrCounter + n;
      collected := n;
    }

    // The interpreting loop of execute_cached_block.
    method InterpretLoop(fuel: nat, b: Block) returns (ended: bool, executed: nat)
      requires status == Running
      modifies this`regs, this`mem, this`status, this`nextPc, this`pc
      ensures Interpret(env, fuel, b, 0, old(Value()), 0) == if ended then Some((Value(), executed)) else None
    {
      hide Execute;
      ghost var h0 := Value();
      ended, executed := true, 0;
      var left, idx := fuel, 0;
      while idx < |b.instrs|
        invariant idx <= |b.instrs| && status == Running
        invariant Interpret(env, left, b, idx, Value(), executed) == Interpret(env, fuel, b, 0, h0, 0)
        decreases left, |b.instrs| - idx
      {
        if idx >= |b.execFns| {
          status := Aborted;
          return;
        }
        Dispatch(b.execFns[idx], b.instrs[idx]);
        if status == Aborted {
          return;
        }
        executed := executed + 1;
        var expected := Add(pc, 4);
        pc := nextPc;
        if status == Halted {
          return;
        }
        if nextPc == expected {
          idx := idx + 1;
        } else if nextPc == b.startPc {
          if left == 0 {
            return false, 0;
          }
          left, idx := left - 1, 0;
        } else {
          return;
        }
      }
    }

    // execute_cached_block.
    method ExecuteCachedBlock(fuel: nat, b: Block) returns (ended: bool, executed: int)
      requires Valid() && status == Running
      modifies this, cache.slots
      ensures Valid() && ended == ExecBlock(env, fuel, b, old(Snapshot())).Some?
      ensures ended ==> ExecBlock(env, fuel, b, old(Snapshot())).value == (Snapshot(), executed)
      decreases fuel, 1
    {
      hide RunCode, Interpret;
      if b.code.Some? {
        var before := instrCounter;
        ended := RunCompiled(fuel, b.code.value);
        executed := if b.isFunction then instrCounter - before else |b.instrs|;
      } else {
        var n;
        ended, n := InterpretLoop(fuel, b);
        instrCounter := instrCounter + n;
        executed := n;
      }
    }

    // The host running emitted code: straight-line instructions, jumps, and trampoline calls.
    method RunCompiled(fuel: nat, code: seq<Ins>) returns (ended: bool)
      requires Valid()
      modifies this, cache.slots
      ensures Valid() && ended == RunCode(env, fuel, code, code, old(Snapshot())).Some?
      ensures ended ==> RunCode(env, fuel, code, code, old(Snapshot())).value == Snapshot()
      decreases fuel, 0
    {
      hide Exec, RunCall;
      ghost var m0 := Snapshot();
      var left: nat, rest := fuel, code;
      while rest != [] && status != Aborted
        invariant Valid() && left <= fuel
        invariant RunCode(env, left, code, rest, Snapshot()) == RunCode(env, fuel, code, code, m0)
        decreases left, |rest|
      {
        var i := rest[0];
        if i.Jmp? || (i.Jcc? && cpu.Holds(i.cc)) {
          if left == 0 {
            return false;
          }
          left, rest := left - 1, From(code, i.l);
        } else if i.Jcc? {
          rest := rest[1..];
        } else if i.CallTrampoline? {
          if left == 0 {
            return false;
          }
          var back := CallTrampoline(left - 1, cpu.rsi, cpu.rdx);
          if !back {
            return false;
          }
          Clobber();
          rest := rest[1..];
        } else {
          ExecHost(i);
          rest := rest[1..];
        }
      }
      return true;
    }

    // One straight-line host instruction.
    method ExecHost(i: Ins)
      modifies this
      ensures Snapshot() == old(Snapshot()).(x := Exec(i, old(Snapshot()).x, env.junk))
    {
      hide Exec;
      var x := Exec(i, State(cpu, Value(), instrCounter), env.junk);
      regs, mem, pc, satp, status := x.hart.regs, x.hart.mem, x.hart.pc, x.hart.satp, x.hart.status;
      cpu, instrCounter := x.cpu, x.count;
    }

    method Clobber()
      modifies this`cpu
      ensures Snapshot() == Returned(env, old(Snapshot()))
    {
      cpu := cpu.Clobbered(env.junk, env.junk);
    }

    // call_trampoline.
    method CallTrampoline(fuel: nat, target: bv64, ret: bv64) returns (ended: bool)
      requires Valid()
      modifies this, cache.slots
      ensures Valid() && ended == RunCall(env, fuel, target, ret, old(Snapshot())).Some?
      ensures ended ==> RunCall(env, fuel, target, ret, old(Snapshot())).value == Snapshot()
      decreases fuel, 3
    {
      hide EnsureJit, RunUntil, RunCode, Sim.Lookup;
      var ok := EnsureJitFunction(target);
      if ok {
        if status == Aborted {
          return true;
        }
        ended := ExecuteJittedFunction(fuel, target);
      } else {
        ended := RunUntilPc(fuel, ret);
      }
    }

    method EnsureJitFunction(entry: bv64) returns (ok: bool)
      requires Valid()
      modifies this`status, cache.slots
      ensures Valid() && (Snapshot(), ok) == EnsureJit(env, entry, old(Snapshot()))
    {
      hide Sim.Lookup, BuildAndInstall;
      if !env.useJit {
        return false;
      }
      var b := Lookup(entry);
      if b.Some? && b.value.code.Some? {
        return true;
      }
      ok := CompileFunction(entry);
    }

    // build_function_block, then install_and_jit.
    method CompileFunction(entry: bv64) returns (ok: bool)
      requires Valid()
      modifies this`status, cache.slots
      ensures Valid() && ok == BuildAndInstall(env, entry, old(Snapshot())).Some?
      ensures Snapshot() == if ok then BuildAndInstall(env, entry, old(Snapshot())).value else old(Snapshot())
      ensures status == old(status) || status == Aborted
    {
      hide BuildBlock, CompileBlock;
      var r := BuildFunctionBlock(env.ranges, DecodingOf(env.dec, Value()), entry);
      match r
      case FetchFault =>
        status := Aborted;
        ok := true;
      case NotExecutable =>
        ok := false;
      case Built(b, _) =>
        var code := Compile(!Paged(Value()), b);
        Install(b.(code := Some(code)));
        ok := true;
    }

    method ExecuteJittedFunction(fuel: nat, entry: bv64) returns (ended: bool)
      requires Valid()
      modifies this, cache.slots
      ensures Valid() && ended == RunFunction(env, fuel, entry, old(Snapshot())).Some?
      ensures ended ==> RunFunction(env, fuel, entry, old(Snapshot())).value == Snapshot()
      decreases fuel, 2
    {
      hide RunCode, Sim.Lookup, Paged;
      var b := Lookup(entry);
      ended := true;
      if b.Some? && b.value.code.Some? {
        ended := RunCompiled(fuel, b.value.code.value);
        if !b.value.isFunction {
          plainCalls, lost := plainCalls + 1, lost + |b.value.instrs|;
        }
      }
    }

    // run_until_pc.
    method RunUntilPc(fuel: nat, target: bv64) returns (ended: bool)
      requires Valid()
      modifies this, cache.slots
      ensures Valid() && ended == RunUntil(env, fuel, target, old(Snapshot())).Some?
      ensures ended ==> RunUntil(env, fuel, target, old(Snapshot())).value == Snapshot()
      decreases fuel, 2
    {
      hide SimStep;
      ghost var m0 := Snapshot();
      var left: nat := fuel;
      while status == Running && pc != target
        invariant Valid() && left <= fuel
        invariant RunUntil(env, left, target, Snapshot()) == RunUntil(env, fuel, target, m0)
        decreases left
      {
        if left == 0 {
          return false;
        }
        left := left - 1;
        ghost var plain := EntersPlain(env, Snapshot());
        var stepped, k := Step(left);
        if !stepped {
          return false;
        }
        if plain {
          plainCalls, lost := plainCalls + 1, lost + k;
        }
      }
      return true;
    }

    // step.
    method Step(fuel: nat) returns (ended: bool, executed: int)
      requires Valid() && status == Running
      modifies this, cache.slots
      ensures Valid() && ended == SimStep(env, fuel, old(Snapshot())).Some?
      ensures ended ==> SimStep(env, fuel, old(Snapshot())).value == (Snapshot(), executed)
      decreases fuel, 2
    {
      hide Sim.Lookup, BuildAndInstall, ExecBlock, RecordBlock;
      var b := Lookup(pc);
      if b.Some? {
        ended, executed := ExecuteCachedBlock(fuel, b.value);
        return;
      }
      if env.useJit {
        var built := CompileFunction(pc);
        if status == Aborted {
          return true, 0;
        }
        if built {
          var c := Lookup(pc);
          if c.Some? {
            ended, executed := ExecuteCachedBlock(fuel, c.value);
            return;
          }
        }
      }
      executed := RecordAndInstall();
      ended := true;
    }

    // predecode_and_jit_if_small; a failed fetch ends the process.
    method PredecodeAndJitIfSmall() returns (done: bool)
      requires Valid()
      modifies this`status, cache.slots
      ensures Valid()
      ensures match PredecodeIfSmall(env, old(Value()), old(cache.Contents()))
              case Faulted => !done && Snapshot() == Sim.Abort(old(Snapshot()))
              case Declined => !done && Snapshot() == old(Snapshot())
              case Done(slots) => done && Snapshot() == old(Snapshot()).(cache := slots)
    {
      hide InstallAll, BlocksAt, Entries;
      if !env.useJit || env.ranges == [] {
        return false;
      }
      var collected := CollectBlocks(env.ranges, DecodingOf(env.dec, Value()), pc);
      if collected.None? {
        status := Aborted;
        return false;
      }
      var (blocks, total) := collected.value;
      var capacity := cache.slots.Length;
      if capacity == 0 || |blocks| > capacity || total > capacity * env.maxBb {
        return false;
      }
      InstallBlocks(blocks);
      return true;
    }

    method InstallBlocks(blocks: seq<Block>)
      requires Valid()
      modifies cache.slots
      ensures Snapshot() == old(Snapshot()).(cache := InstallAll(env, !Paged(Value()), blocks, old(cache.Contents())))
    {
      hide CompileBlock;
      ghost var before := Snapshot();
      for k := 0 to |blocks|
        invariant Snapshot() == before.(cache := InstallAll(env, !Paged(Value()), blocks[..k], before.cache))
      {
        assert blocks[..k + 1][..k] == blocks[..k];
        var code := Compile(!Paged(Value()), blocks[k]);
        Install(blocks[k].(code := Some(code)));
      }
      assert blocks[..|blocks|] == blocks;
    }

    // Machine::run.
    method Run(fuel: nat, max: nat) returns (ended: bool, cycles: int)
      requires Valid()
      modifies this, cache.slots
      ensures Valid() && ended == RunMachine(env, fuel, max, old(Snapshot()), 0).Some?
      ensures ended ==> RunMachine(env, fuel, max, old(Snapshot()), 0).value == (Snapshot(), cycles)
    {
      hide SimStep;
      ghost var m0 := Snapshot();
      var left: nat := fuel;
      cycles := 0;
      while (max == 0 || cycles < max) && status == Running
        invariant Valid() && left <= fuel
        invariant RunMachine(env, left, max, Snapshot(), cycles) == RunMachine(env, fuel, max, m0, 0)
        decreases left
      {
        if left == 0 {
          return false, 0;
        }
        left := left - 1;
        var stepped, k := Step(left);
        if !stepped {
          return false, 0;
        }
        cycles := cycles + k;
      }
      return true, cycles;
    }
  }
}
