/** Plain compiled code on its own: it runs its instructions in order whatever the pc cell says, and
    that is single stepping exactly as long as every jalr lands on its successor. */
module PlainBlocks {
  import opened Bits
  import opened Isa
  import opened X86
  import opened Emit
  import opened EmitAgrees
  import opened EmitEffect
  import opened Compiler
  import opened Decoder
  import opened Reference
  import opened Sim
  import opened Simulation
  import opened JitSimulation
  import opened RunTheorems
  import opened SlotIndex
  import opened Programs
  import opened Memory

  // The hart after the instructions in order, whatever its pc; a hart that is not running stays.
  function InOrder(instrs: seq<Instr>, h: Hart): Hart
  {
    if instrs == [] || h.status != Running then h else InOrder(instrs[1..], Execute(instrs[0], h))
  }

  // Each instruction reached is one whose emitted code agrees with the executer.
  predicate InOrderAgrees(instrs: seq<Instr>, h: Hart)
  {
    instrs == [] || h.status != Running ||
    (!instrs[0].opcode.ECALL? && Emittable(instrs[0]) && Agrees(instrs[0], h) &&
      InOrderAgrees(instrs[1..], Execute(instrs[0], h)))
  }

  lemma {:induction false} InOrderSnoc(instrs: seq<Instr>, j: nat, h: Hart)
    requires j < |instrs|
    ensures var g := InOrder(instrs[..j], h);
            InOrder(instrs[..j + 1], h) == if g.status == Running then Execute(instrs[j], g) else g
    decreases j
  {
    hide Execute;
    if j == 0 {
      assert instrs[..1][1..] == [];
    } else if h.status == Running {
      assert instrs[..j + 1][1..] == instrs[1..][..j] && instrs[..j][1..] == instrs[1..][..j - 1];
      InOrderSnoc(instrs[1..], j - 1, Execute(instrs[0], h));
    }
  }

  // One instruction of plain code.
  lemma PlainHead(env: Env, direct: bool, fuel: nat, full: seq<Ins>, i: Instr, rest: seq<Ins>,
          m: Machine) returns (r: Machine)
    requires Ready(direct, m.x) && !i.opcode.ECALL? && Emittable(i) && Agrees(i, m.x.hart)
    ensures RunCode(env, fuel, full, PlainInstr(direct, i) + rest, m) == RunCode(env, fuel, full, rest, r)
    ensures r.x.hart == Execute(i, m.x.hart) && SameCounts(m, r) && r.cache == m.cache
    ensures r.x.hart.status == Aborted || Ready(direct, r.x)
  {
    hide RunCode, DataCode, Execute, Agrees, Emittable, Run, Cell;
    assert PlainInstr(direct, i) == DataCode(direct, i);
    DataCodeIsStraight(direct, i);
    RunStraight(env, fuel, full, DataCode(direct, i), rest, m);
    CodeAgrees(direct, i, m.x, env.junk);
    r := m.(x := Run(DataCode(direct, i), m.x, env.junk));
    ExecuteKeeps(i, m.x.hart);
    if r.x.hart.status != Aborted {
      ExecuteFlow(i, m.x.hart);
    }
  }

  lemma NothingInOrder(instrs: seq<Instr>, h: Hart)
    ensures InOrder(instrs[..0], h) == h
  {}

  lemma FirstInOrder(direct: bool, instrs: seq<Instr>, j: nat, x: State)
    requires 0 < j <= |instrs| && InOrderAgrees(instrs, x.hart) && Ready(direct, x)
    ensures InOrder(instrs[..j], x.hart) == InOrder(instrs[1..][..j - 1], Execute(instrs[0], x.hart))
    ensures !instrs[0].opcode.ECALL? && Emittable(instrs[0]) && Agrees(instrs[0], x.hart)
    ensures InOrderAgrees(instrs[1..], Execute(instrs[0], x.hart))
    ensures PlainCodeFrom(direct, instrs) == PlainInstr(direct, instrs[0]) + PlainCodeFrom(direct, instrs[1..])
  {
    hide Execute, Agrees, Emittable, Cell, PlainInstr;
    assert instrs[..j][1..] == instrs[1..][..j - 1];
  }

  lemma StoppedInOrder(instrs: seq<Instr>, h: Hart)
    requires h.status != Running
    ensures InOrder(instrs, h) == h
  {}

  // Plain compiled code gets to the code of instruction j with the hart the first j instructions
  // in order leave.
  lemma {:induction false} PlainReaches(env: Env, direct: bool, fuel: nat, full: seq<Ins>, instrs: seq<Instr>, j: nat,
          m: Machine)
    returns (r: Machine)
    requires j <= |instrs| && InOrderAgrees(instrs, m.x.hart) && Ready(direct, m.x)
    ensures RunCode(env, fuel, full, PlainCodeFrom(direct, instrs), m)
            == RunCode(env, fuel, full, PlainCodeFrom(direct, instrs[j..]), r)
    ensures r.x.hart == InOrder(instrs[..j], m.x.hart) && SameCounts(m, r) && r.cache == m.cache
    decreases j
  {
    hide RunCode, PlainInstr, PlainCodeFrom, InOrder, InOrderAgrees, Execute, Agrees, Emittable, Ready;
    r := m;
    if j == 0 {
      assert instrs[0..] == instrs;
      NothingInOrder(instrs, m.x.hart);
    } else {
      FirstInOrder(direct, instrs, j, m.x);
      var next := PlainHead(env, direct, fuel, full, instrs[0], PlainCodeFrom(direct, instrs[1..]), m);
      assert instrs[..j][1..] == instrs[1..][..j - 1] && instrs[1..][j - 1..] == instrs[j..];
      if next.x.hart.status == Aborted {
        r := next;
        AbortedEnds(env, fuel, full, PlainCodeFrom(direct, instrs[1..]), next);
        AbortedEnds(env, fuel, full, PlainCodeFrom(direct, instrs[j..]), next);
        StoppedInOrder(instrs[1..][..j - 1], next.x.hart);
      } else {
        r := PlainReaches(env, direct, fuel, full, instrs[1..], j - 1, next);
      }
    }
  }

  // The pc cell is at the right pc before each of the instructions 0 to j.
  predicate OnTrack(instrs: seq<Instr>, j: nat, h: Hart)
    requires j <= |instrs|
  {
    forall k | 0 <= k <= j :: InOrder(instrs[..k], h).pc == PcAt(h.pc, k)
  }

  // Every jalr among the first j instructions lands on its successor.
  predicate JalrsLand(instrs: seq<Instr>, j: nat, h: Hart)
    requires j <= |instrs|
  {
    forall k | 0 <= k < j && instrs[k].opcode.JALR? ::
      var g := InOrder(instrs[..k], h);
      Execute(instrs[k], g).pc == Add(g.pc, 4)
  }

  predicate NoDirectJumps(instrs: seq<Instr>)
  {
    forall i | i in instrs :: !IsBranch(i.opcode) && !i.opcode.JAL? && !i.opcode.ECALL?
  }

  // Control is at the right pc before every instruction up to j exactly when every jalr before it
  // lands on its successor.
  lemma {:induction false} OnTrackExactly(instrs: seq<Instr>, j: nat, h: Hart)
    requires j <= |instrs| && NoDirectJumps(instrs) && InOrder(instrs[..j], h).status == Running
    ensures OnTrack(instrs, j, h) <==> JalrsLand(instrs, j, h)
    decreases j
  {
    hide Execute, InOrder, NoDirectJumps, Add;
    if j == 0 {
      NothingInOrder(instrs, h);
    } else {
      InOrderSnoc(instrs, j - 1, h);
      var g := InOrder(instrs[..j - 1], h);
      OnTrackExactly(instrs, j - 1, h);
      OthersFallThrough(instrs, j - 1, g);
    }
  }

  lemma OthersFallThrough(instrs: seq<Instr>, k: nat, g: Hart)
    requires k < |instrs| && NoDirectJumps(instrs) && g.status == Running && Execute(instrs[k], g).status == Running
    ensures !instrs[k].opcode.JALR? ==> Execute(instrs[k], g).pc == Add(g.pc, 4)
  {
    hide Execute, Add;
    assert instrs[k] in instrs;
    ExecuteFlow(instrs[k], g);
  }

  // Instructions that are on track are single steps of the machine whose memory holds them.
  lemma {:induction false} OnTrackIsStepping(dec: DecodeFn, instrs: seq<Instr>, j: nat, h: Hart)
    requires j <= |instrs| && (j > 0 ==> OnTrack(instrs, j - 1, h)) && InOrder(instrs[..j], h).status != Halted
    requires forall k | 0 <= k < j ::
               var g := InOrder(instrs[..k], h);
               g.status == Running && DecodeAt(dec, g, PcAt(h.pc, k)) == Some(instrs[k])
    ensures Retires(dec, j, h, InOrder(instrs[..j], h))
    decreases j
  {
    hide Execute, InOrder, Retires, DecodeAt;
    if j == 0 {
      NothingInOrder(instrs, h);
      RetiresNone(dec, h);
    } else {
      var g := InOrder(instrs[..j - 1], h);
      InOrderSnoc(instrs, j - 1, h);
      OnTrackIsStepping(dec, instrs, j - 1, h);
      RetiresOne(dec, g);
      RetiresAdd(dec, j - 1, 1, h, g, InOrder(instrs[..j], h));
    }
  }

  // --- a run in which it is not single stepping ---

  const HOP := Instr(JALR, FormatI, 0, 1, UNSET, 4)                // jalr x0, 4(x1)
  const GROW := Instr(ADDI, FormatI, 1, 1, UNSET, 4)               // addi x1, x1, 4
  const LOOP := Instr(JAL, FormatJ, 0, UNSET, UNSET, 0xFFFF_FFF8)  // jal x0, -8

  function TrackMemory(): Mem { Program(HOP, GROW, LOOP, STOP, STOP) }

  function TrackStart(): Hart { Hart(map[], TrackMemory(), 0, 0, Running) }

  // With x1 at 0 the first jump lands on its successor. From then on it skips the increment.
  function TrackState(n: nat): Hart
  {
    if n == 0 then TrackStart()
    else if n == 1 then TrackStart().(pc := 4)
    else TrackStart().(regs := map[1 := 4], pc := if n % 2 == 0 then 8 else 0)
  }

  // Nothing is executable, and a block is hot at its first lookup.
  function TrackEnv(): Env { Env(Decode, [], true, 1, 10, 7, 0) }

  lemma HopEncodable()
    ensures Encodable(HOP)
  {
    hide Decoder.Number;
  }

  lemma GrowEncodable()
    ensures Encodable(GROW)
  {
    hide Decoder.Number;
  }

  lemma LoopEncodable()
    ensures Encodable(LOOP)
  {
    hide Decoder.Number;
  }

  lemma TrackDecodes(h: Hart)
    requires h.mem == TrackMemory() && h.satp == 0
    ensures DecodeAt(Decode, h, 0) == Some(HOP) && DecodeAt(Decode, h, 4) == Some(GROW) &&
            DecodeAt(Decode, h, 8) == Some(LOOP) && DecodeAt(Decode, h, 12) == Some(STOP)
  {
    hide InstrAt, Program, DecodeAt, Decode;
    HopEncodable();
    GrowEncodable();
    LoopEncodable();
    StopEncodable();
    ProgramHolds(HOP, GROW, LOOP, STOP, STOP);
    AlwaysIntact(TrackEnv(), h.mem, h, 0);
    AlwaysIntact(TrackEnv(), h.mem, h, 4);
    AlwaysIntact(TrackEnv(), h.mem, h, 8);
    AlwaysIntact(TrackEnv(), h.mem, h, 12);
  }

  lemma TrackImmediates()
    ensures Imm(HOP) == 4 && Imm(GROW) == 4 && Add(8, Imm(LOOP)) == 0
    ensures Add(0, 4) == 4 && Add(4, 4) == 8 && Add(8, 4) == 12 && Add(12, 4) == 16
  {}

  lemma HopExecutes(h: Hart)
    ensures Execute(HOP, h) == h.(pc := Add(GetReg(h, 1), 4))
  {
    hide Execute, Imm, Add, Target;
    TrackImmediates();
    JumpExecutes(HOP, h);
  }

  lemma GrowExecutes(h: Hart)
    ensures Execute(GROW, h) == h.(regs := h.regs[1 := Add(GetReg(h, 1), 4)], pc := Add(h.pc, 4))
  {
    hide Execute, Imm, Add, Value;
    TrackImmediates();
    ExecuteValue(GROW, h);
    GrowValue(h);
  }

  lemma GrowValue(h: Hart)
    ensures Value(GROW, h) == Add(GetReg(h, 1), Imm(GROW))
  {
    hide Imm, Add;
  }

  lemma LoopExecutes(h: Hart)
    requires h.pc == 8
    ensures Execute(LOOP, h) == h.(pc := 0)
  {
    hide Execute, Imm, Add;
    TrackImmediates();
    JumpExecutes(LOOP, h);
  }

  lemma TrackStep(n: nat)
    ensures Step(Decode, TrackState(n)) == TrackState(n + 1)
  {
    hide Execute, TrackMemory, Add, DecodeAt, Decode, Imm;
    var h := TrackState(n);
    TrackDecodes(h);
    TrackImmediates();
    if h.pc == 0 {
      HopExecutes(h);
    } else if h.pc == 4 {
      GrowExecutes(h);
    } else {
      LoopExecutes(h);
    }
  }

  // The slow machine goes round between 0 and 8 for good.
  lemma {:induction false} TrackSteps(n: nat)
    ensures StepN(Decode, n, TrackStart()) == TrackState(n)
    decreases n
  {
    hide Step, TrackMemory, Decode;
    if n > 0 {
      TrackSteps(n - 1);
      StepNAdd(Decode, n - 1, 1, TrackStart());
      StepOnce(Decode, TrackState(n - 1));
      TrackStep(n - 1);
    }
  }

  function TrackFns(): seq<ExecFn> { [ExecFnOf(JALR), ExecFnOf(ADDI)] }

  function TrackBlock(): Block { Block(0, [HOP, GROW], TrackFns(), [], false, None, 0) }

  // The first step executes the jump, the increment and the jump back, and records the first two as
  // one block.
  lemma BothAreRecorded()
    ensures Record(TrackEnv(), TrackState(0), [], []) == (TrackState(3), [HOP, GROW], TrackFns(), 3)
  {
    hide Execute, TrackMemory, Add, DecodeAt, Decode;
    TrackDecodes(TrackState(0));
    TrackDecodes(TrackState(1));
    TrackDecodes(TrackState(2));
    TrackImmediates();
    HopExecutes(TrackState(0));
    GrowExecutes(TrackState(1));
    LoopExecutes(TrackState(2));
    var f, g := [ExecFnOf(JALR)], TrackFns();
    assert [] + [HOP] == [HOP] && [HOP] + [GROW] == [HOP, GROW];
    assert [] + [ExecFnOf(JALR)] == f && f + [ExecFnOf(ADDI)] == g;
    assert Record(TrackEnv(), TrackState(2), [HOP, GROW], g) == (TrackState(3), [HOP, GROW], g, 3);
    assert Record(TrackEnv(), TrackState(1), [HOP], f) == (TrackState(3), [HOP, GROW], g, 3);
  }

  lemma FirstTrackStep(fuel: nat)
    ensures SimStep(TrackEnv(), fuel, Boot(TrackStart(), map[]))
         == Some((WithHart(Boot(TrackStart(), map[]), TrackState(3), 3).(cache := map[0 := TrackBlock()]), 3))
  {
    hide Record, TrackMemory, Index;
    BothAreRecorded();
    SlotsOfPcs();
    SmallPc(7, 0);
  }

  // Off the track: what the block, compiled, leaves of the state after the first step.
  function Strayed(): Hart { TrackStart().(regs := map[1 := 8], pc := 12) }

  lemma StraysInOrder()
    ensures InOrderAgrees([HOP, GROW], TrackState(3)) && InOrder([HOP, GROW], TrackState(3)) == Strayed()
  {
    hide TrackMemory, Execute, Imm, Add, Value, SignClear;
    var h := TrackState(3);
    var g := h.(pc := 8);
    TrackImmediates();
    HopExecutes(h);
    GrowExecutes(g);
    assert Clear(8, 1);
    assert [HOP, GROW][1..] == [GROW] && [GROW][1..] == [];
    assert InOrder([], Strayed()) == Strayed() && InOrderAgrees([], Strayed());
    assert InOrder([GROW], g) == Strayed() && InOrderAgrees([GROW], g);
  }

  lemma HotBlock(cache: Slots)
    requires cache == map[0 := TrackBlock()]
    ensures var b := TrackBlock().(searchRate := 1, code := Some(PlainCodeFrom(true, [HOP, GROW])));
            Lookup(TrackEnv(), true, 0, cache) == (map[0 := b], Some(b))
  {
    hide PlainCodeFrom, Index;
    SlotsOfPcs();
    assert !HasJumps([HOP, GROW]);
    var b := Promoted(TrackEnv(), true, TrackBlock());
    assert cache[0 := b] == map[0 := b];
  }

  lemma SecondTrackStep(fuel: nat, m: Machine)
    requires m.x.hart == TrackState(3) && m.cache == map[0 := TrackBlock()]
    ensures var r := SimStep(TrackEnv(), fuel, m);
            r.Some? && r.value.0.x.hart == Strayed() && r.value.0.cache.Keys == {0} && r.value.1 == 2
  {
    hide RunCode, TrackMemory, PlainCodeFrom, InOrder, InOrderAgrees, Lookup;
    var code := PlainCodeFrom(true, [HOP, GROW]);
    HotBlock(m.cache);
    StraysInOrder();
    var r := PlainReaches(TrackEnv(), true, fuel, code, [HOP, GROW], 2,
      m.(cache := Lookup(TrackEnv(), true, 0, m.cache).0));
    assert [HOP, GROW][..2] == [HOP, GROW] && [HOP, GROW][2..] == [];
    PlainCodeEnds(true);
    RunExit(TrackEnv(), fuel, code, r);
  }

  lemma ThirdTrackStep(fuel: nat, m: Machine)
    requires m.x.hart == Strayed() && m.cache.Keys == {0}
    ensures var r := SimStep(TrackEnv(), fuel, m);
            r.Some? && r.value.0.x.hart == Strayed().(pc := 16, status := Halted) && r.value.1 == 1
  {
    hide TrackMemory, Index, DecodeAt, Execute, Add, Decode;
    SlotsOfPcs();
    TrackDecodes(Strayed());
    TrackImmediates();
    JumpExecutes(STOP, Strayed());
  }

  // From an empty cache the simulator halts, with 8 in x1. The slow machine never does either.
  lemma CompiledReturnIsLost(fuel: nat, n: nat)
    requires fuel >= 3
    ensures var r := RunMachine(TrackEnv(), fuel, 0, Boot(TrackStart(), map[]), 0);
            r.Some? && r.value.0.x.hart.status == Halted && Cell(r.value.0.x.hart, 1) == 8
    ensures var h := StepN(Decode, n, TrackStart()); h.status == Running && Cell(h, 1) != 8
  {
    hide SimStep, TrackMemory, StepN, Decode;
    TrackSteps(n);
    FirstTrackStep(fuel - 1);
    var m1 := SimStep(TrackEnv(), fuel - 1, Boot(TrackStart(), map[])).value.0;
    SecondTrackStep(fuel - 2, m1);
    var m2 := SimStep(TrackEnv(), fuel - 2, m1).value.0;
    ThirdTrackStep(fuel - 3, m2);
    var m3 := SimStep(TrackEnv(), fuel - 3, m2).value.0;
    assert RunMachine(TrackEnv(), fuel - 3, 0, m3, 6) == Some((m3, 6));
    assert RunMachine(TrackEnv(), fuel - 2, 0, m2, 5) == Some((m3, 6));
    assert RunMachine(TrackEnv(), fuel - 1, 0, m1, 3) == Some((m3, 6));
  }
}
