/** Loading a hart, predecoding and running it: the whole simulator against the slow machine. */
module Simulator {
  import I = Isa
  import opened Cfg
  import opened Reference
  import opened Sim
  import opened SlotIndex
  import opened Simulation
  import opened Predecode
  import opened RunTheorems
  import opened HartMachine

  // No fetch of the predecoder faults where all executable memory can be fetched.
  lemma PredecodeNeverFaults(w: World, h: I.Hart, cache: Slots)
    requires HartOk(w, h) && h.status == I.Running && w.env.useJit
    ensures !PredecodeIfSmall(w.env, h, cache).Faulted?
  {
    hide Compilable, I.Execute, BuildBlock, InstallAll, TotalInstrs, CallGraph;
    StepOk(w, h);
    var dec := DecodingOf(w.env.dec, h);
    ExecutableDecodes(w, h);
    forall pc | IsExec(w.env.ranges, pc)
      ensures CallGraph(w.env.ranges, dec)(pc).Some?
    {
      BuildsWhereFetched(w.env.ranges, dec, pc);
      CallGraphAt(w.env.ranges, dec, pc);
    }
    ExploreSucceeds(w.env.ranges, CallGraph(w.env.ranges, dec), h.pc);
  }

  lemma BuildsWhereFetched(ranges: seq<CodeRange>, dec: Decoding, entry: bv64)
    requires forall pc | IsExec(ranges, pc) :: Flow(ranges, dec)(pc).Some?
    ensures !BuildBlock(ranges, dec, entry).FetchFault?
  {
    ExploreSucceeds(ranges, Flow(ranges, dec), entry);
  }

  // The entries predecoding may install are among the pcs with slots of their own.
  ghost predicate EntriesPlaced(w: World, h: I.Hart)
  {
    match Entries(w.env.ranges, DecodingOf(w.env.dec, h), h.pc)
    case None => true
    case Some(v) => forall e | e in v :: e in w.code
  }

  // The simulator, run on any hart whose slow run is good: if it ends, the hart is where the slow
  // machine is after exactly n instructions. The reported cycles are those n if and only if no plain
  // compiled block was executed inside a nested call, and fewer otherwise.
  method Simulate(env: Env, h: I.Hart, fuel: nat, max: nat, ghost w: World)
    returns (ended: bool, final: I.Hart, cycles: int, ghost n: nat, ghost plainCalls: nat)
    requires w.env == env && (exists k: nat :: IsMask(env.mask, k))
    requires Placed(w) && HartOk(w, h) && h.status == I.Running && EntriesPlaced(w, h)
    ensures ended ==> Retires(env.dec, n, h, final)
    ensures ended && final.status != I.Aborted ==>
              cycles + plainCalls <= n && (cycles == n <==> plainCalls == 0) && (Counted(w) ==> cycles == n)
  {
    hide RunMachine, HartOk, Retires;
    var m := new Hart(h, env);
    var predecoded := m.PredecodeAndJitIfSmall();
    EmptyCacheOk(w);
    if env.useJit {
      PredecodeNeverFaults(w, h, map[]);
    }
    assert !PredecodeIfSmall(env, h, map[]).Faulted? by { OnlyWithJit(env, h, map[]); }
    ghost var cache := m.cache.Contents();
    if predecoded {
      EntriesKnown(w, h, map[]);
      PredecodedIsSound(w, h, map[]);
    }
    assert m.Snapshot() == Boot(h, cache);
    ended, cycles := m.Run(fuel, max);
    final := m.Value();
    n := RunIsSlowRun(w, fuel, max, h, cache);
    plainCalls := m.plainCalls;
  }

  lemma OnlyWithJit(env: Env, h: I.Hart, cache: Slots)
    ensures !env.useJit ==> PredecodeIfSmall(env, h, cache).Declined?
  {}

  lemma EntriesKnown(w: World, h: I.Hart, cache: Slots)
    requires PredecodeIfSmall(w.env, h, cache).Done? && EntriesPlaced(w, h)
    ensures forall e | e in Entries(w.env.ranges, DecodingOf(w.env.dec, h), h.pc).value :: e in w.code
  {
    hide InstallAll;
  }
}
