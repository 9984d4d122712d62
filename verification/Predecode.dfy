/** Ahead-of-time compilation of every function reachable by direct calls, when they are few. */
module Predecode {
  import opened Bits
  import opened Isa
  import opened Compiler
  import opened Cfg
  import opened Sim
  import opened SlotIndex
  import opened Reference
  import opened Simulation

  // The inter-procedural graph: a function's direct callees.
  function CallGraph(ranges: seq<CodeRange>, dec: Decoding): Graph
  {
    entry =>
      match BuildBlock(ranges, dec, entry)
      case Built(_, calls) => Some(calls)
      case FetchFault => None
      case NotExecutable => Some([])
  }

  // The entries of the functions reached from pc, in visiting order; None when a fetch faults.
  function Entries(ranges: seq<CodeRange>, dec: Decoding, pc: bv64): Option<seq<bv64>>
  {
    Explore(ranges, CallGraph(ranges, dec), [pc], [])
  }

  // The function blocks at the given entries.
  function BlocksAt(ranges: seq<CodeRange>, dec: Decoding, entries: seq<bv64>): seq<Block>
  {
    if entries == [] then []
    else
      BlocksAt(ranges, dec, entries[..|entries| - 1]) +
      match BuildBlock(ranges, dec, entries[|entries| - 1])
      case Built(b, _) => [b]
      case _ => []
  }

  function TotalInstrs(blocks: seq<Block>): nat
  {
    if blocks == [] then 0 else TotalInstrs(blocks[..|blocks| - 1]) + |blocks[|blocks| - 1].instrs|
  }

  function Compiled(direct: bool, b: Block): Block { b.(code := Some(CompileBlock(direct, b))) }

  function InstallAll(env: Env, direct: bool, blocks: seq<Block>, cache: Slots): Slots
  {
    if blocks == [] then cache
    else Install(env, Compiled(direct, blocks[|blocks| - 1]), InstallAll(env, direct, blocks[..|blocks| - 1], cache))
  }

  datatype Outcome = Faulted | Declined | Done(cache: Slots)

  predicate Fits(env: Env, blocks: seq<Block>)
  {
    |blocks| <= env.mask + 1 && TotalInstrs(blocks) <= (env.mask + 1) * env.maxBb
  }

  // predecode_and_jit_if_small from the hart's pc.
  function PredecodeIfSmall(env: Env, h: Hart, cache: Slots): Outcome
  {
    if !env.useJit || env.ranges == [] then Declined
    else
      var dec := DecodingOf(env.dec, h);
      match Entries(env.ranges, dec, h.pc)
      case None => Faulted
      case Some(v) =>
        var blocks := BlocksAt(env.ranges, dec, v);
        if Fits(env, blocks) then Done(InstallAll(env, !Paged(h), blocks, cache)) else Declined
  }

  // Entries whose slots are pairwise different.
  ghost predicate OwnSlots(mask: nat, entries: seq<bv64>)
  {
    forall a, b | 0 <= a < b < |entries| :: Index(mask, ZextWord(entries[a])) != Index(mask, ZextWord(entries[b]))
  }

  // The compiled function of the entry, in its slot.
  ghost predicate Holds(env: Env, direct: bool, dec: Decoding, entry: bv64, cache: Slots)
  {
    var k := Index(env.mask, ZextWord(entry));
    k in cache && BuildBlock(env.ranges, dec, entry).Built? &&
    cache[k] == Compiled(direct, BuildBlock(env.ranges, dec, entry).block)
  }

  lemma BuildStart(ranges: seq<CodeRange>, dec: Decoding, entry: bv64)
    requires BuildBlock(ranges, dec, entry).Built?
    ensures BuildBlock(ranges, dec, entry).block.startPc == ZextWord(entry)
  {
    BuiltBlock(ranges, dec, entry);
  }

  lemma InstallHolds(env: Env, direct: bool, dec: Decoding, entry: bv64, cache: Slots)
    requires BuildBlock(env.ranges, dec, entry).Built?
    ensures Holds(env, direct, dec, entry,
            Install(env, Compiled(direct, BuildBlock(env.ranges, dec, entry).block), cache))
  {
    hide CompileBlock;
    BuildStart(env.ranges, dec, entry);
  }

  lemma InstallKeeps(env: Env, direct: bool, dec: Decoding, entry: bv64, other: bv64, cache: Slots)
    requires Holds(env, direct, dec, entry, cache) && BuildBlock(env.ranges, dec, other).Built?
    requires Index(env.mask, ZextWord(entry)) != Index(env.mask, ZextWord(other))
    ensures Holds(env, direct, dec, entry,
            Install(env, Compiled(direct, BuildBlock(env.ranges, dec, other).block), cache))
  {
    hide CompileBlock, Index;
    BuildStart(env.ranges, dec, other);
  }

  lemma OwnSlotsRest(mask: nat, rest: seq<bv64>, last: bv64, e: bv64)
    requires OwnSlots(mask, rest + [last])
    ensures OwnSlots(mask, rest) && (e in rest ==> Index(mask, ZextWord(e)) != Index(mask, ZextWord(last)))
  {
    var all := rest + [last];
    assert forall a | 0 <= a < |rest| :: all[a] == rest[a];
    if e in rest {
      var a :| 0 <= a < |rest| && rest[a] == e;
      assert Index(mask, ZextWord(all[a])) != Index(mask, ZextWord(all[|rest|]));
    }
  }

  lemma {:induction false} BlocksInstall(env: Env, direct: bool, dec: Decoding, entries: seq<bv64>, cache: Slots,
          e: bv64)
    requires OwnSlots(env.mask, entries) && e in entries
    requires forall x | x in entries :: BuildBlock(env.ranges, dec, x).Built?
    ensures Holds(env, direct, dec, e, InstallAll(env, direct, BlocksAt(env.ranges, dec, entries), cache))
    decreases |entries|
  {
    hide BuildBlock, Compiled, Index, ZextWord, Holds, Install, OwnSlots;
    var last := entries[|entries| - 1];
    var rest := entries[..|entries| - 1];
    assert entries == rest + [last] && last in entries;
    assert forall x | x in rest :: x in entries;
    OwnSlotsRest(env.mask, rest, last, e);
    var b := BuildBlock(env.ranges, dec, last).block;
    var before := BlocksAt(env.ranges, dec, rest);
    var blocks := BlocksAt(env.ranges, dec, entries);
    assert blocks == before + [b] && blocks[..|blocks| - 1] == before;
    if e == last {
      InstallHolds(env, direct, dec, last, InstallAll(env, direct, before, cache));
    } else {
      BlocksInstall(env, direct, dec, rest, cache, e);
      InstallKeeps(env, direct, dec, e, last, InstallAll(env, direct, before, cache));
    }
  }

  lemma VisitedBuild(ranges: seq<CodeRange>, dec: Decoding, v: seq<bv64>, e: bv64)
    requires Cfg.AllExec(ranges, v) && Closed(ranges, CallGraph(ranges, dec), Elements(v)) && e in v
    ensures BuildBlock(ranges, dec, e).Built?
  {
    MemberSucceeds(ranges, CallGraph(ranges, dec), Elements(v), e);
    assert CallGraph(ranges, dec)(e).Some?;
  }

  // What a finished traversal has installed for the entries v: no more blocks than slots and no more
  // instructions than slots times the recording bound; and if no two entries share a slot, each
  // entry's slot holds its own compiled function.
  ghost predicate Installed(env: Env, h: Hart, v: seq<bv64>, cache: Slots)
  {
    var dec := DecodingOf(env.dec, h);
    |BlocksAt(env.ranges, dec, v)| <= env.mask + 1 &&
    TotalInstrs(BlocksAt(env.ranges, dec, v)) <= (env.mask + 1) * env.maxBb &&
    (OwnSlots(env.mask, v) ==> forall e | e in v :: Holds(env, !Paged(h), dec, e, cache))
  }

  // No function built at a member of S faults, and S holds every executable pc that one of them
  // calls directly.
  ghost predicate CallClosed(ranges: seq<CodeRange>, dec: Decoding, S: set<bv64>)
  {
    forall e | e in S :: CalleesIn(ranges, BuildBlock(ranges, dec, e), S)
  }

  ghost predicate CalleesIn(ranges: seq<CodeRange>, r: BuildResult, S: set<bv64>)
  {
    !r.FetchFault? && (r.Built? ==> forall t | IsExec(ranges, t) && BlockCalls(r.block, t) :: t in S)
  }

  lemma CalleesInIsSuccessorsIn(ranges: seq<CodeRange>, dec: Decoding, e: bv64, S: set<bv64>)
    ensures CalleesIn(ranges, BuildBlock(ranges, dec, e), S) <==>
            CallGraph(ranges, dec)(e).Some? && SuccessorsIn(ranges, CallGraph(ranges, dec)(e).value, S)
  {
    hide BuildBlock, BlockCalls, IsExec;
    CallGraphAt(ranges, dec, e);
    if BuildBlock(ranges, dec, e).Built? {
      forall t
        ensures t in BuildBlock(ranges, dec, e).callTargets <==>
                IsExec(ranges, t) && BlockCalls(BuildBlock(ranges, dec, e).block, t)
      {
        CallTargetsAre(ranges, dec, e, t);
      }
    }
  }

  lemma CallClosedIsClosed(ranges: seq<CodeRange>, dec: Decoding, S: set<bv64>)
    ensures CallClosed(ranges, dec, S) <==> Closed(ranges, CallGraph(ranges, dec), S)
  {
    hide CalleesIn, BuildBlock, SuccessorsIn, CallGraph;
    forall e | e in S
      ensures CalleesIn(ranges, BuildBlock(ranges, dec, e), S) <==>
              CallGraph(ranges, dec)(e).Some? && SuccessorsIn(ranges, CallGraph(ranges, dec)(e).value, S)
    {
      CalleesInIsSuccessorsIn(ranges, dec, e, S);
    }
    ClosedIs(ranges, CallGraph(ranges, dec), S);
  }

  lemma ClosedIs(ranges: seq<CodeRange>, succ: Graph, S: set<bv64>)
    ensures Closed(ranges, succ, S) <==> forall e | e in S :: succ(e).Some? && SuccessorsIn(ranges, succ(e).value, S)
  {}

  // It runs to its end exactly when the JIT is on, some range is registered, the pcs it may have to
  // visit fetch without fault, and the functions found meet both bounds.
  lemma DoneExactly(env: Env, h: Hart, cache: Slots)
    ensures var dec := DecodingOf(env.dec, h);
            PredecodeIfSmall(env, h, cache).Done? <==>
              env.useJit && env.ranges != [] && NoFault(env.ranges, dec, h.pc) &&
                |BlocksAt(env.ranges, dec, Entries(env.ranges, dec, h.pc).value)| <= env.mask + 1 &&
                TotalInstrs(BlocksAt(env.ranges, dec, Entries(env.ranges, dec, h.pc).value))
                <= (env.mask + 1) * env.maxBb
    ensures PredecodeIfSmall(env, h, cache).Faulted? <==>
            env.useJit && env.ranges != [] && !NoFault(env.ranges, DecodingOf(env.dec, h), h.pc)
  {
    hide Entries, BlocksAt, TotalInstrs, InstallAll;
  }

  // Some set holds the entry, if that is executable, and is closed under direct calls.
  ghost predicate NoFault(ranges: seq<CodeRange>, dec: Decoding, pc: bv64)
    ensures NoFault(ranges, dec, pc) <==> Entries(ranges, dec, pc).Some?
  {
    EntriesFound(ranges, dec, pc);
    exists S :: (IsExec(ranges, pc) ==> pc in S) && CallClosed(ranges, dec, S)
  }

  lemma EntriesFound(ranges: seq<CodeRange>, dec: Decoding, pc: bv64)
    ensures Entries(ranges, dec, pc).Some? <==>
            exists S :: (IsExec(ranges, pc) ==> pc in S) && CallClosed(ranges, dec, S)
  {
    hide IsExec, Explore, CallClosed, CallGraph, Closed;
    if S :| (IsExec(ranges, pc) ==> pc in S) && CallClosed(ranges, dec, S) {
      CallClosedIsClosed(ranges, dec, S);
      ExploreStaysIn(ranges, CallGraph(ranges, dec), [pc], [], S);
    }
    if Entries(ranges, dec, pc).Some? {
      var v := Entries(ranges, dec, pc).value;
      if IsExec(ranges, pc) {
        ExploreFrom(ranges, CallGraph(ranges, dec), pc);
      } else {
        NothingVisited(ranges, dec, pc);
      }
      CallClosedIsClosed(ranges, dec, Elements(v));
    }
  }

  // When it returns true, the entries visited are exactly the least set that contains the hart's
  // pc, if that is executable, and is closed under direct calls into executable memory. From a pc
  // that is not executable it returns true with the cache as it was.
  lemma PredecodeCovers(env: Env, h: Hart, cache: Slots, S: set<bv64>)
    requires PredecodeIfSmall(env, h, cache).Done?
    requires CallClosed(env.ranges, DecodingOf(env.dec, h), S)
    requires IsExec(env.ranges, h.pc) ==> h.pc in S
    ensures var dec := DecodingOf(env.dec, h);
            var v := Entries(env.ranges, dec, h.pc).value;
            (h.pc in v <==> IsExec(env.ranges, h.pc)) && Elements(v) <= S &&
            CallClosed(env.ranges, dec, Elements(v)) &&
            Installed(env, h, v, PredecodeIfSmall(env, h, cache).cache) &&
            (!IsExec(env.ranges, h.pc) ==> PredecodeIfSmall(env, h, cache).cache == cache)
  {
    hide IsExec, BuildBlock, Closed, CallClosed, Explore, TotalInstrs, InstallAll, BlocksAt, Holds;
    var dec := DecodingOf(env.dec, h);
    var v := Entries(env.ranges, dec, h.pc).value;
    CallClosedIsClosed(env.ranges, dec, S);
    CallClosedIsClosed(env.ranges, dec, Elements(v));
    if IsExec(env.ranges, h.pc) {
      ExploreIsLeast(env.ranges, CallGraph(env.ranges, dec), h.pc, S);
      forall x | x in v
        ensures BuildBlock(env.ranges, dec, x).Built?
      {
        VisitedBuild(env.ranges, dec, v, x);
      }
    } else {
      NothingVisited(env.ranges, dec, h.pc);
      NothingInstalled(env, !Paged(h), dec, cache);
    }
    if OwnSlots(env.mask, v) {
      forall e | e in v
        ensures Holds(env, !Paged(h), dec, e, PredecodeIfSmall(env, h, cache).cache)
      {
        BlocksInstall(env, !Paged(h), dec, v, cache, e);
      }
    }
  }

  lemma NothingVisited(ranges: seq<CodeRange>, dec: Decoding, entry: bv64)
    requires !IsExec(ranges, entry)
    ensures Entries(ranges, dec, entry) == Some([]) && Closed(ranges, CallGraph(ranges, dec), Elements([]))
  {
    hide IsExec;
    assert [entry][..|[entry]| - 1] == [];
    assert Explore(ranges, CallGraph(ranges, dec), [], []) == Some([]);
  }

  lemma NothingInstalled(env: Env, direct: bool, dec: Decoding, cache: Slots)
    ensures BlocksAt(env.ranges, dec, []) == [] && InstallAll(env, direct, [], cache) == cache
  {}

  // --- the worklist as the source keeps it: callees already seen are not pushed ---

  function Without(work: seq<bv64>, visited: seq<bv64>): seq<bv64>
  {
    if work == [] then []
    else Without(work[..|work| - 1], visited) + if work[|work| - 1] in visited then [] else [work[|work| - 1]]
  }

  lemma {:induction false} WithoutAppend(a: seq<bv64>, b: seq<bv64>, visited: seq<bv64>)
    ensures Without(a + b, visited) == Without(a, visited) + Without(b, visited)
    decreases |b|
  {
    if b == [] {
      assert a + b == a;
    } else {
      assert (a + b)[..|a + b| - 1] == a + b[..|b| - 1];
      WithoutAppend(a, b[..|b| - 1], visited);
    }
  }

  lemma {:induction false} WithoutTwice(work: seq<bv64>, visited: seq<bv64>, more: seq<bv64>)
    requires visited <= more
    ensures Without(Without(work, visited), more) == Without(work, more)
    decreases |work|
  {
    if work != [] {
      var x := work[|work| - 1];
      var rest := work[..|work| - 1];
      WithoutTwice(rest, visited, more);
      if x in visited {
        assert Without(work, visited) == Without(rest, visited);
        assert x in more;
      } else {
        var w := Without(work, visited);
        assert w == Without(rest, visited) + [x] && w[..|w| - 1] == Without(rest, visited);
      }
    }
  }

  // Pending pcs that have been visited make no difference.
  lemma {:induction false} SkipVisited(ranges: seq<CodeRange>, succ: Graph, work: seq<bv64>, visited: seq<bv64>)
    ensures Explore(ranges, succ, work, visited) == Explore(ranges, succ, Without(work, visited), visited)
    decreases Unseen(ranges, visited), |work|
  {
    if work != [] {
      var pc := work[|work| - 1];
      var rest := work[..|work| - 1];
      var less := Without(rest, visited);
      if pc in visited {
        assert Without(work, visited) == less;
        SkipVisited(ranges, succ, rest, visited);
      } else {
        assert (less + [pc])[..|less|] == less;
        if !IsExec(ranges, pc) {
          SkipVisited(ranges, succ, rest, visited);
        } else if succ(pc).Some? {
          UnseenShrinks(ranges, visited, pc);
          SkipVisited(ranges, succ, rest + succ(pc).value, visited + [pc]);
          SkipVisited(ranges, succ, less + succ(pc).value, visited + [pc]);
          WithoutAppend(rest, succ(pc).value, visited + [pc]);
          WithoutAppend(less, succ(pc).value, visited + [pc]);
          WithoutTwice(rest, visited, visited + [pc]);
        }
      }
    }
  }

  // The same worklist but for visited pcs gives the same traversal.
  lemma SameTraversal(ranges: seq<CodeRange>, succ: Graph, work: seq<bv64>, next: seq<bv64>, visited: seq<bv64>)
    ensures Explore(ranges, succ, work + Without(next, visited), visited) == Explore(ranges, succ, work + next, visited)
  {
    SkipVisited(ranges, succ, work + Without(next, visited), visited);
    SkipVisited(ranges, succ, work + next, visited);
    WithoutAppend(work, Without(next, visited), visited);
    WithoutAppend(work, next, visited);
    WithoutTwice(next, visited, visited);
  }

  method PushUnseen(worklist: seq<bv64>, calls: seq<bv64>, seen: seq<bv64>) returns (r: seq<bv64>)
    ensures r == worklist + Without(calls, seen)
  {
    r := worklist;
    for k := 0 to |calls|
      invariant r == worklist + Without(calls[..k], seen)
    {
      assert calls[..k + 1][..k] == calls[..k];
      if calls[k] !in seen {
        r := r + [calls[k]];
      }
    }
    assert calls[..|calls|] == calls;
  }

  // One turn of the traversal.
  lemma OneVisit(ranges: seq<CodeRange>, succ: Graph, work: seq<bv64>, visited: seq<bv64>)
    requires work != []
    ensures var pc, rest := work[|work| - 1], work[..|work| - 1];
            Explore(ranges, succ, work, visited) ==
              if !IsExec(ranges, pc) || pc in visited then Explore(ranges, succ, rest, visited)
              else if succ(pc).None? then None
              else Explore(ranges, succ, rest + succ(pc).value, visited + [pc])
    ensures IsExec(ranges, work[|work| - 1]) && work[|work| - 1] !in visited ==>
              Unseen(ranges, visited + [work[|work| - 1]]) < Unseen(ranges, visited)
  {
    if IsExec(ranges, work[|work| - 1]) && work[|work| - 1] !in visited {
      UnseenShrinks(ranges, visited, work[|work| - 1]);
    }
  }

  lemma CallGraphAt(ranges: seq<CodeRange>, dec: Decoding, entry: bv64)
    ensures CallGraph(ranges, dec)(entry) ==
            match BuildBlock(ranges, dec, entry)
            case Built(_, calls) => Some(calls)
            case FetchFault => None
            case NotExecutable => Some([])
  {}

  lemma OneMoreBlock(ranges: seq<CodeRange>, dec: Decoding, seen: seq<bv64>, entry: bv64)
    ensures BlocksAt(ranges, dec, seen + [entry])
         == BlocksAt(ranges, dec, seen) +
            match BuildBlock(ranges, dec, entry)
            case Built(b, _) => [b]
            case _ => []
  {
    assert (seen + [entry])[..|seen|] == seen;
  }

  lemma OneMoreTotal(blocks: seq<Block>, b: Block)
    ensures TotalInstrs(blocks + [b]) == TotalInstrs(blocks) + |b.instrs|
  {
    assert (blocks + [b])[..|blocks|] == blocks;
  }

  // The collecting loop of predecode_and_jit_if_small; None when a fetch faults.
  method CollectBlocks(ranges: seq<CodeRange>, dec: Decoding, pc: bv64) returns (r: Option<(seq<Block>, nat)>)
    ensures match Entries(ranges, dec, pc)
            case None => r.None?
            case Some(v) => r == Some((BlocksAt(ranges, dec, v), TotalInstrs(BlocksAt(ranges, dec, v))))
  {
    hide BuildBlock, TotalInstrs, Unseen;
    var worklist, seen, blocks, total := [pc], [], [], 0;
    assert blocks == BlocksAt(ranges, dec, seen) && total == TotalInstrs(blocks) by { NoBlocks(ranges, dec); }
    while worklist != []
      invariant Explore(ranges, CallGraph(ranges, dec), worklist, seen) == Entries(ranges, dec, pc)
      invariant blocks == BlocksAt(ranges, dec, seen) && total == TotalInstrs(blocks)
      decreases Unseen(ranges, seen), |worklist|
    {
      OneVisit(ranges, CallGraph(ranges, dec), worklist, seen);
      var entry := worklist[|worklist| - 1];
      worklist := worklist[..|worklist| - 1];
      var exec := IsExecPc(ranges, entry);
      if !exec || entry in seen {
        continue;
      }
      OneMoreBlock(ranges, dec, seen, entry);
      CallGraphAt(ranges, dec, entry);
      seen := seen + [entry];
      var built := BuildFunctionBlock(ranges, dec, entry);
      match built
      case FetchFault =>
        return None;
      case NotExecutable =>
        assert worklist + [] == worklist;
      case Built(b, calls) =>
        OneMoreTotal(blocks, b);
        total := total + |b.instrs|;
        blocks := blocks + [b];
        SameTraversal(ranges, CallGraph(ranges, dec), worklist, calls, seen);
        worklist := PushUnseen(worklist, calls, seen);
    }
    r := Some((blocks, total));
  }

  lemma NoBlocks(ranges: seq<CodeRange>, dec: Decoding)
    ensures BlocksAt(ranges, dec, []) == [] && TotalInstrs([]) == 0
  {}

  // --- predecoding keeps the cache as the simulation needs it ---

  lemma BuiltFunctionOk(w: World, h: Hart, entry: bv64)
    requires Placed(w) && Compilable(w, h) && w.env.useJit && h.satp == w.satp && entry in w.code
    requires BuildBlock(w.env.ranges, DecodingOf(w.env.dec, h), entry).Built?
    ensures BlockOk(w, Compiled(!Paged(h), BuildBlock(w.env.ranges, DecodingOf(w.env.dec, h), entry).block))
  {
    hide DecodeAt, BuildBlock, CompileBlock, Compilable;
    var dec := DecodingOf(w.env.dec, h);
    ExecutableDecodes(w, h);
    BuiltBlock(w.env.ranges, dec, entry);
    var b := BuildBlock(w.env.ranges, dec, entry).block;
    var c := Compiled(!Paged(h), b);
    CodeIgnoresCode(Direct(w), b, c.code);
    assert FunctionOk(w, c);
  }

  lemma {:induction false} InstallAllOk(w: World, h: Hart, entries: seq<bv64>, cache: Slots)
    requires Placed(w) && Compilable(w, h) && w.env.useJit && h.satp == w.satp && CacheOk(w, cache)
    requires forall e | e in entries :: e in w.code
    ensures CacheOk(w, InstallAll(w.env, !Paged(h), BlocksAt(w.env.ranges, DecodingOf(w.env.dec, h), entries), cache))
    decreases |entries|
  {
    hide BuildBlock, Compilable, DecodingOf;
    if entries != [] {
      var dec := DecodingOf(w.env.dec, h);
      var last := entries[|entries| - 1];
      var rest := entries[..|entries| - 1];
      assert entries == rest + [last] && last in entries;
      InstallAllOk(w, h, rest, cache);
      var before := BlocksAt(w.env.ranges, dec, rest);
      var blocks := BlocksAt(w.env.ranges, dec, entries);
      if BuildBlock(w.env.ranges, dec, last).Built? {
        var b := BuildBlock(w.env.ranges, dec, last).block;
        assert blocks == before + [b] && blocks[..|blocks| - 1] == before;
        BuiltFunctionOk(w, h, last);
        InstallOk(w, Compiled(!Paged(h), b), InstallAll(w.env, !Paged(h), before, cache));
      } else {
        assert blocks == before + [] == before;
      }
    }
  }

  // Starting from a predecoded cache is as good as starting from an empty one, provided the
  // entries of all functions found are among the pcs that have slots of their own.
  lemma PredecodedIsSound(w: World, h: Hart, cache: Slots)
    requires Placed(w) && HartOk(w, h) && h.status == Running && CacheOk(w, cache)
    requires PredecodeIfSmall(w.env, h, cache).Done?
    requires forall e | e in Entries(w.env.ranges, DecodingOf(w.env.dec, h), h.pc).value :: e in w.code
    ensures CacheOk(w, PredecodeIfSmall(w.env, h, cache).cache)
  {
    hide Compilable, CacheOk, InstallAll, Execute;
    StepOk(w, h);
    InstallAllOk(w, h, Entries(w.env.ranges, DecodingOf(w.env.dec, h), h.pc).value, cache);
  }
}
