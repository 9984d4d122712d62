/** Discovery of a function's control-flow graph by a worklist. */
module Cfg {
  import opened Numbers
  import opened Bits
  import opened WordLaws
  import opened Isa
  import opened Compiler

  datatype CodeRange = CodeRange(start: bv64, end: bv64)

  predicate InRange(r: CodeRange, pc: bv64) { r.start <= pc && pc < r.end }

  predicate IsExec(ranges: seq<CodeRange>, pc: bv64) { exists r | r in ranges :: InRange(r, pc) }

  // A range holds the pcs from its start up to, but not including, its end.
  lemma ExecExactly(ranges: seq<CodeRange>, pc: bv64)
    ensures IsExec(ranges, pc) <==>
            exists r | r in ranges :: Unsigned(r.start) <= Unsigned(pc) && Unsigned(pc) < Unsigned(r.end)
  {
    hide Unsigned;
    forall r | r in ranges
      ensures InRange(r, pc) <==> Unsigned(r.start) <= Unsigned(pc) && Unsigned(pc) < Unsigned(r.end)
    {
      UltIsOrder(pc, r.start);
      UltIsOrder(pc, r.end);
    }
  }

  // What decoding the word at a pc gives in the current state; None when the fetch faults.
  type Decoding = bv64 -> Option<Instr>

  function NextPc(pc: bv64): bv64 { Add(pc, 4) }

  function TargetPc(i: Instr, pc: bv64): bv64 { Add(pc, Imm(i)) }

  function OnlyExec(ranges: seq<CodeRange>, pc: bv64): seq<bv64> { if IsExec(ranges, pc) then [pc] else [] }

  // The pcs the traversal pushes after instruction i at pc.
  function Successors(ranges: seq<CodeRange>, i: Instr, pc: bv64): seq<bv64>
  {
    if i.opcode.ECALL? then []
    else if i.opcode.JAL? then
      if i.rd != 0 then [NextPc(pc)] else OnlyExec(ranges, TargetPc(i, pc))
    else if i.opcode.JALR? then
      if IsRet(i) then [] else if i.rd != 0 then [NextPc(pc)] else []
    else if i.format.FormatB? then OnlyExec(ranges, TargetPc(i, pc)) + [NextPc(pc)]
    else [NextPc(pc)]
  }

  // The format the decoder gives to branches and jal.
  predicate Formatted(i: Instr) { (IsBranch(i.opcode) ==> i.format.FormatB?) && (i.opcode.JAL? ==> i.format.FormatJ?) }

  // The callee a linking jal contributes.
  function Callees(ranges: seq<CodeRange>, i: Instr, pc: bv64): seq<bv64>
  {
    if i.opcode.JAL? && i.rd != 0 then OnlyExec(ranges, TargetPc(i, pc)) else []
  }

  // --- what the traversal follows, by the instruction's fields ---

  // Control goes on at t: at the next instruction, unless i is an ecall or a jump that links nothing;
  // or at the target of a branch or of a jal that links nothing.
  predicate GoesOn(i: Instr, pc: bv64, t: bv64)
  {
    (t == Add(pc, 4) && !i.opcode.ECALL? && (i.opcode.JAL? || i.opcode.JALR? ==> i.rd != 0)) ||
    (t == Add(pc, Sext(i.imm)) &&
      if i.opcode.JAL? then i.rd == 0 else i.format.FormatB? && !i.opcode.JALR? && !i.opcode.ECALL?)
  }

  // A direct call of t.
  predicate CallsDirectly(i: Instr, pc: bv64, t: bv64) { i.opcode.JAL? && i.rd != 0 && t == Add(pc, Sext(i.imm)) }

  predicate CalledFrom(dec: Decoding, pc: bv64, t: bv64) { dec(pc).Some? && CallsDirectly(dec(pc).value, pc, t) }

  lemma SuccessorsAre(ranges: seq<CodeRange>, i: Instr, pc: bv64, t: bv64)
    requires IsExec(ranges, t)
    ensures t in Successors(ranges, i, pc) <==> GoesOn(i, pc, t)
  {
    hide IsExec, Add, Sext;
  }

  lemma CalleesAre(ranges: seq<CodeRange>, i: Instr, pc: bv64, t: bv64)
    ensures t in Callees(ranges, i, pc) <==> CallsDirectly(i, pc, t) && IsExec(ranges, t)
  {
    hide IsExec, Add, Sext;
  }

  function WordOf(k: nat): bv64
    requires k < 0x1_0000_0000_0000_0000
  {
    k as bv64
  }

  // All executable pcs, as a finite set.
  ghost function ExecSet(ranges: seq<CodeRange>): set<bv64>
  {
    set k: nat | k < 0x1_0000_0000_0000_0000 && IsExec(ranges, WordOf(k)) :: WordOf(k)
  }

  lemma InExecSet(ranges: seq<CodeRange>, pc: bv64)
    requires IsExec(ranges, pc)
    ensures pc in ExecSet(ranges)
  {
    assert WordOf(pc as int) == pc;
  }

  // The executable pcs still to be visited.
  ghost function Unseen(ranges: seq<CodeRange>, visited: seq<bv64>): set<bv64>
  {
    ExecSet(ranges) - set x | x in visited
  }

  lemma UnseenShrinks(ranges: seq<CodeRange>, visited: seq<bv64>, pc: bv64)
    requires IsExec(ranges, pc) && pc !in visited
    ensures Unseen(ranges, visited + [pc]) < Unseen(ranges, visited)
  {
    InExecSet(ranges, pc);
    assert pc in Unseen(ranges, visited) && pc !in Unseen(ranges, visited + [pc]);
  }

  // What a visit of a pc pushes; None when it faults.
  type Graph = bv64 -> Option<seq<bv64>>

  // The worklist loop: a stack of pcs and the pcs visited so far, in visiting order.
  function Explore(ranges: seq<CodeRange>, succ: Graph, work: seq<bv64>, visited: seq<bv64>): Option<seq<bv64>>
    decreases Unseen(ranges, visited), |work|
  {
    if work == [] then Some(visited)
    else
      var pc := work[|work| - 1];
      var rest := work[..|work| - 1];
      if !IsExec(ranges, pc) || pc in visited then Explore(ranges, succ, rest, visited)
      else
        match succ(pc)
        case None => None
        case Some(next) =>
          UnseenShrinks(ranges, visited, pc);
          Explore(ranges, succ, rest + next, visited + [pc])
  }

  function Elements(s: seq<bv64>): set<bv64> { set x | x in s }

  // S holds every executable successor of its members, and visiting none of them faults.
  ghost predicate Closed(ranges: seq<CodeRange>, succ: Graph, S: set<bv64>)
  {
    forall pc | pc in S :: succ(pc).Some? && SuccessorsIn(ranges, succ(pc).value, S)
  }

  ghost predicate SuccessorsIn(ranges: seq<CodeRange>, next: seq<bv64>, S: set<bv64>)
  {
    forall t | t in next && IsExec(ranges, t) :: t in S
  }

  ghost predicate Distinct(s: seq<bv64>) { forall a, b | 0 <= a < b < |s| :: s[a] != s[b] }

  // Every executable successor of a visited pc has been visited or waits in the worklist.
  ghost predicate Pending(ranges: seq<CodeRange>, succ: Graph, work: seq<bv64>, visited: seq<bv64>)
  {
    forall pc | pc in visited ::
      succ(pc).Some? && forall t | t in succ(pc).value && IsExec(ranges, t) :: t in visited || t in work
  }

  ghost predicate AllExec(ranges: seq<CodeRange>, visited: seq<bv64>)
  {
    forall pc | pc in visited :: IsExec(ranges, pc)
  }

  lemma {:induction false} ExploreCloses(ranges: seq<CodeRange>, succ: Graph, work: seq<bv64>, visited: seq<bv64>)
    requires Pending(ranges, succ, work, visited) && Distinct(visited) && AllExec(ranges, visited)
    ensures var r := Explore(ranges, succ, work, visited);
            r.Some? ==>
              visited <= r.value && Distinct(r.value) && AllExec(ranges, r.value) &&
              Pending(ranges, succ, [], r.value) && forall pc | pc in work && IsExec(ranges, pc) :: pc in r.value
    decreases Unseen(ranges, visited), |work|
  {
    hide IsExec;
    if work != [] {
      var pc := work[|work| - 1];
      var rest := work[..|work| - 1];
      assert forall t | t in work :: t in rest || t == pc;
      if !IsExec(ranges, pc) || pc in visited {
        ExploreCloses(ranges, succ, rest, visited);
      } else if succ(pc).Some? {
        UnseenShrinks(ranges, visited, pc);
        ExploreCloses(ranges, succ, rest + succ(pc).value, visited + [pc]);
      }
    }
  }

  // Nothing outside a closed set that holds the start is ever visited.
  lemma {:induction false} ExploreStaysIn(ranges: seq<CodeRange>, succ: Graph, work: seq<bv64>, visited: seq<bv64>,
          S: set<bv64>)
    requires Closed(ranges, succ, S)
    requires forall pc | pc in visited :: pc in S
    requires forall pc | pc in work && IsExec(ranges, pc) :: pc in S
    ensures Explore(ranges, succ, work, visited).Some?
    ensures forall pc | pc in Explore(ranges, succ, work, visited).value :: pc in S
    decreases Unseen(ranges, visited), |work|
  {
    if work != [] {
      var pc := work[|work| - 1];
      var rest := work[..|work| - 1];
      assert pc in work;
      assert forall t | t in rest :: t in work;
      if !IsExec(ranges, pc) || pc in visited {
        ExploreStaysIn(ranges, succ, rest, visited, S);
      } else {
        UnseenShrinks(ranges, visited, pc);
        assert SuccessorsIn(ranges, succ(pc).value, S);
        ExploreStaysIn(ranges, succ, rest + succ(pc).value, visited + [pc], S);
      }
    }
  }

  // A traversal from one executable pc, when nothing faults, visits it first and yields, without
  // duplicates, the least set that holds it and is closed under executable successors.
  lemma ExploreIsLeast(ranges: seq<CodeRange>, succ: Graph, entry: bv64, S: set<bv64>)
    requires IsExec(ranges, entry) && Explore(ranges, succ, [entry], []).Some?
    requires Closed(ranges, succ, S) && entry in S
    ensures var v := Explore(ranges, succ, [entry], []).value;
            v != [] && v[0] == entry && Distinct(v) && AllExec(ranges, v) &&
            Closed(ranges, succ, Elements(v)) && Elements(v) <= S
  {
    ExploreFrom(ranges, succ, entry);
    ExploreStaysIn(ranges, succ, [entry], [], S);
  }

  lemma ExploreFrom(ranges: seq<CodeRange>, succ: Graph, entry: bv64)
    requires IsExec(ranges, entry) && Explore(ranges, succ, [entry], []).Some?
    ensures var v := Explore(ranges, succ, [entry], []).value;
            v != [] && v[0] == entry && Distinct(v) && AllExec(ranges, v) && Closed(ranges, succ, Elements(v))
  {
    hide IsExec;
    UnseenShrinks(ranges, [], entry);
    assert [entry][|[entry]| - 1] == entry && [entry][..|[entry]| - 1] == [];
    var next := succ(entry).value;
    assert [] + next == next && [] + [entry] == [entry];
    assert Explore(ranges, succ, [entry], []) == Explore(ranges, succ, next, [entry]);
    ExploreCloses(ranges, succ, next, [entry]);
  }

  // A traversal fails only where an executable pc faults.
  lemma ExploreSucceeds(ranges: seq<CodeRange>, succ: Graph, entry: bv64)
    requires forall pc | IsExec(ranges, pc) :: succ(pc).Some?
    ensures Explore(ranges, succ, [entry], []).Some?
  {
    var S := ExecSet(ranges);
    forall pc | IsExec(ranges, pc)
      ensures pc in S
    {
      InExecSet(ranges, pc);
    }
    assert forall pc | pc in S :: IsExec(ranges, pc);
    ExploreStaysIn(ranges, succ, [entry], [], S);
  }

  // The intra-procedural graph of the code that decodes so.
  function Flow(ranges: seq<CodeRange>, dec: Decoding): Graph
  {
    pc => match dec(pc) case None => None case Some(i) => Some(Successors(ranges, i, pc))
  }

  // The pcs of the function at entry, in visiting order.
  function Discover(ranges: seq<CodeRange>, dec: Decoding, entry: bv64): Option<seq<bv64>>
  {
    Explore(ranges, Flow(ranges, dec), [entry], [])
  }

  // Address order.
  predicate Below(a: bv64, b: bv64) { Ult(a, b) }

  lemma BelowIsTotal(a: bv64, b: bv64)
    requires !Below(a, b) && !Below(b, a)
    ensures a == b
  {
    hide Unsigned, Ult;
    UltIsOrder(a, b);
    UltIsOrder(b, a);
    UnsignedInjective(a, b);
  }

  lemma BelowIsTransitive(a: bv64, b: bv64, c: bv64)
    requires Below(a, b) && Below(b, c)
    ensures Below(a, c)
  {}

  ghost predicate StrictlySorted(s: seq<bv64>) { forall a, b | 0 <= a < b < |s| :: Below(s[a], s[b]) }

  ghost predicate Ascending(s: seq<bv64>) { forall a, b | 0 <= a < b < |s| :: Unsigned(s[a]) < Unsigned(s[b]) }

  lemma SortedAscends(s: seq<bv64>)
    requires StrictlySorted(s)
    ensures Ascending(s)
  {
    hide Unsigned;
    forall a, b | 0 <= a < b < |s|
      ensures Unsigned(s[a]) < Unsigned(s[b])
    {
      assert Below(s[a], s[b]);
      UltIsOrder(s[a], s[b]);
    }
  }

  ghost predicate SameElements(s: seq<bv64>, t: seq<bv64>) { |s| == |t| && forall x :: x in s <==> x in t }

  // std::sort, by insertion.
  function Insert(x: bv64, s: seq<bv64>): seq<bv64>
  {
    if s == [] || Below(x, s[0]) then [x] + s else [s[0]] + Insert(x, s[1..])
  }

  function Sort(s: seq<bv64>): seq<bv64>
  {
    if s == [] then [] else Insert(s[0], Sort(s[1..]))
  }

  lemma {:induction false} InsertSorts(x: bv64, s: seq<bv64>)
    requires StrictlySorted(s) && x !in s
    ensures StrictlySorted(Insert(x, s)) && SameElements(Insert(x, s), [x] + s)
    decreases |s|
  {
    hide Below;
    if s == [] {
    } else if Below(x, s[0]) {
      forall b | 0 < b < |s|
        ensures Below(x, s[b])
      {
        BelowIsTransitive(x, s[0], s[b]);
      }
    } else {
      if !Below(s[0], x) {
        BelowIsTotal(x, s[0]);
      }
      InsertSorts(x, s[1..]);
      var t := Insert(x, s[1..]);
      forall b | 0 <= b < |t|
        ensures Below(s[0], t[b])
      {
        assert t[b] in t;
        assert t[b] in [x] + s[1..];
        if t[b] != x {
          var c :| 0 <= c < |s[1..]| && s[1..][c] == t[b];
          assert s[c + 1] == t[b];
        }
      }
    }
  }

  lemma {:induction false} SortSorts(s: seq<bv64>)
    requires Distinct(s)
    ensures StrictlySorted(Sort(s)) && SameElements(Sort(s), s)
    decreases |s|
  {
    if s != [] {
      assert forall b | 0 <= b < |s[1..]| :: s[1..][b] == s[b + 1];
      assert s[0] !in s[1..];
      SortSorts(s[1..]);
      InsertSorts(s[0], Sort(s[1..]));
      assert [s[0]] + s[1..] == s;
    }
  }

  function IndexOf(s: seq<bv64>, x: bv64): (k: nat)
    ensures k <= |s|
    ensures k < |s| ==> s[k] == x
    ensures x in s ==> k < |s|
  {
    if s == [] || s[0] == x then 0 else 1 + IndexOf(s[1..], x)
  }

  function Rotate(s: seq<bv64>, k: nat): seq<bv64>
    requires k <= |s|
  {
    s[k..] + s[..k]
  }

  // Address order, rotated to start at the entry.
  function Layout(visited: seq<bv64>, entry: bv64): seq<bv64>
  {
    var sorted := Sort(visited);
    Rotate(sorted, IndexOf(sorted, entry))
  }

  lemma LayoutIsRotatedOrder(visited: seq<bv64>, entry: bv64)
    requires Distinct(visited) && entry in visited
    ensures var pcs := Layout(visited, entry);
            SameElements(pcs, visited) && Distinct(pcs) && pcs != [] && pcs[0] == entry &&
            exists k | 0 <= k < |pcs| :: Ascending(pcs[k..] + pcs[..k])
  {
    SortSorts(visited);
    var sorted := Sort(visited);
    assert entry in sorted;
    SortedIsDistinct(sorted);
    SortedAscends(sorted);
    RotateBack(sorted, IndexOf(sorted, entry));
  }

  lemma RotateBack(s: seq<bv64>, k: nat)
    requires k < |s| && Distinct(s)
    ensures var t := Rotate(s, k);
            SameElements(t, s) && Distinct(t) && t[0] == s[k] && exists j | 0 <= j < |t| :: t[j..] + t[..j] == s
  {
    var t := Rotate(s, k);
    assert s == s[..k] + s[k..];
    var j := if k == 0 then 0 else |s| - k;
    assert t[j..] + t[..j] == s;
  }

  lemma SortedIsDistinct(s: seq<bv64>)
    requires StrictlySorted(s)
    ensures Distinct(s)
  {
    assert forall a, b | 0 <= a < b < |s| :: Below(s[a], s[b]);
  }

  // The decoded instructions at the given pcs.
  ghost predicate AllDecode(dec: Decoding, pcs: seq<bv64>) { forall k | 0 <= k < |pcs| :: dec(pcs[k]).Some? }

  function InstrsAt(dec: Decoding, pcs: seq<bv64>): (instrs: seq<Instr>)
    requires AllDecode(dec, pcs)
    ensures |instrs| == |pcs|
    ensures forall k | 0 <= k < |pcs| :: dec(pcs[k]) == Some(instrs[k])
  {
    if pcs == [] then [] else [dec(pcs[0]).value] + InstrsAt(dec, pcs[1..])
  }

  function CalleesOf(ranges: seq<CodeRange>, dec: Decoding, pcs: seq<bv64>): seq<bv64>
    requires AllDecode(dec, pcs)
  {
    if pcs == [] then []
    else
      CalleesOf(ranges, dec, pcs[..|pcs| - 1]) + Callees(ranges, dec(pcs[|pcs| - 1]).value, pcs[|pcs| - 1])
  }

  datatype BuildResult = FetchFault | NotExecutable | Built(block: Block, callTargets: seq<bv64>)

  lemma MemberSucceeds(ranges: seq<CodeRange>, succ: Graph, S: set<bv64>, pc: bv64)
    requires Closed(ranges, succ, S) && pc in S
    ensures succ(pc).Some?
  {}

  lemma FlowDecodes(ranges: seq<CodeRange>, dec: Decoding, pc: bv64)
    ensures Flow(ranges, dec)(pc).Some? <==> dec(pc).Some?
  {}

  lemma MembersDecode(ranges: seq<CodeRange>, dec: Decoding, v: seq<bv64>)
    requires Closed(ranges, Flow(ranges, dec), Elements(v))
    ensures AllDecode(dec, v)
  {
    forall k | 0 <= k < |v|
      ensures dec(v[k]).Some?
    {
      assert v[k] in Elements(v);
      MemberSucceeds(ranges, Flow(ranges, dec), Elements(v), v[k]);
      FlowDecodes(ranges, dec, v[k]);
    }
  }

  lemma LayoutDecodes(ranges: seq<CodeRange>, dec: Decoding, entry: bv64)
    requires IsExec(ranges, entry) && Discover(ranges, dec, entry).Some?
    ensures var v := Discover(ranges, dec, entry).value;
            AllDecode(dec, v) && AllDecode(dec, Layout(v, entry))
  {
    ExploreFrom(ranges, Flow(ranges, dec), entry);
    var v := Discover(ranges, dec, entry).value;
    MembersDecode(ranges, dec, v);
    LayoutIsRotatedOrder(v, entry);
    SameDecode(dec, v, Layout(v, entry));
  }

  lemma SameDecode(dec: Decoding, s: seq<bv64>, t: seq<bv64>)
    requires AllDecode(dec, s) && SameElements(t, s)
    ensures AllDecode(dec, t)
  {
    forall k | 0 <= k < |t|
      ensures dec(t[k]).Some?
    {
      var x := t[k];
      assert x in t && x in s;
    }
  }

  function BuildBlock(ranges: seq<CodeRange>, dec: Decoding, entry: bv64): BuildResult
  {
    if !IsExec(ranges, entry) then NotExecutable
    else
      match Discover(ranges, dec, entry)
      case None => FetchFault
      case Some(v) =>
        LayoutDecodes(ranges, dec, entry);
        var pcs := Layout(v, entry);
        Built(Block(ZextWord(entry), InstrsAt(dec, pcs), [], pcs, true, None, 0), CalleesOf(ranges, dec, v))
  }

  // What the simulation needs of a built block.
  lemma BuiltBlock(ranges: seq<CodeRange>, dec: Decoding, entry: bv64)
    requires BuildBlock(ranges, dec, entry).Built?
    ensures var b := BuildBlock(ranges, dec, entry).block;
            b.isFunction && b.code == None && b.execFns == [] && b.startPc == ZextWord(entry) &&
            |b.pcs| == |b.instrs| > 0 && b.pcs[0] == entry && Distinct(b.pcs) &&
            forall k | 0 <= k < |b.pcs| :: IsExec(ranges, b.pcs[k]) && dec(b.pcs[k]) == Some(b.instrs[k])
  {
    hide Explore, CalleesOf;
    ExploreFrom(ranges, Flow(ranges, dec), entry);
    LayoutDecodes(ranges, dec, entry);
    var v := Discover(ranges, dec, entry).value;
    LayoutIsRotatedOrder(v, entry);
    var pcs := Layout(v, entry);
    forall k | 0 <= k < |pcs|
      ensures IsExec(ranges, pcs[k]) && dec(pcs[k]).Some?
    {
      assert pcs[k] in pcs;
    }
  }

  // Every pc of S decodes, and S holds every executable pc where control goes on from one of its own.
  ghost predicate FlowClosed(ranges: seq<CodeRange>, dec: Decoding, S: set<bv64>)
  {
    forall pc | pc in S ::
      dec(pc).Some? && forall t | IsExec(ranges, t) && GoesOn(dec(pc).value, pc, t) :: t in S
  }

  lemma FlowClosedIsClosed(ranges: seq<CodeRange>, dec: Decoding, S: set<bv64>)
    ensures FlowClosed(ranges, dec, S) <==> Closed(ranges, Flow(ranges, dec), S)
  {
    hide GoesOn, Successors, IsExec;
    if FlowClosed(ranges, dec, S) {
      forall pc | pc in S
        ensures SuccessorsIn(ranges, Successors(ranges, dec(pc).value, pc), S)
      {
        forall t | IsExec(ranges, t)
          ensures t in Successors(ranges, dec(pc).value, pc) ==> t in S
        {
          SuccessorsAre(ranges, dec(pc).value, pc, t);
        }
      }
    }
    if Closed(ranges, Flow(ranges, dec), S) {
      forall pc | pc in S
        ensures dec(pc).Some? && forall t | IsExec(ranges, t) && GoesOn(dec(pc).value, pc, t) :: t in S
      {
        MemberSucceeds(ranges, Flow(ranges, dec), S, pc);
        FlowDecodes(ranges, dec, pc);
        MemberFlows(ranges, dec, S, pc);
        forall t | IsExec(ranges, t) && GoesOn(dec(pc).value, pc, t)
          ensures t in S
        {
          SuccessorsAre(ranges, dec(pc).value, pc, t);
        }
      }
    }
  }

  // A function block holds exactly the least set of pcs that contains the entry and is closed under
  // where control goes on inside executable memory, in address order rotated to start at the entry,
  // with the instruction decoded at each.
  lemma BlockIsLeast(ranges: seq<CodeRange>, dec: Decoding, entry: bv64, S: set<bv64>)
    requires BuildBlock(ranges, dec, entry).Built?
    requires FlowClosed(ranges, dec, S) && entry in S
    ensures var b := BuildBlock(ranges, dec, entry).block;
            Elements(b.pcs) <= S && FlowClosed(ranges, dec, Elements(b.pcs)) && b.pcs != [] &&
            b.pcs[0] == entry &&
            exists k | 0 <= k < |b.pcs| :: Ascending(b.pcs[k..] + b.pcs[..k])
  {
    hide Layout, Explore, CalleesOf, Closed, FlowClosed;
    FlowClosedIsClosed(ranges, dec, S);
    BuiltBlock(ranges, dec, entry);
    ExploreIsLeast(ranges, Flow(ranges, dec), entry, S);
    LayoutDecodes(ranges, dec, entry);
    var v := Discover(ranges, dec, entry).value;
    LayoutIsRotatedOrder(v, entry);
    assert Elements(Layout(v, entry)) == Elements(v);
    FlowClosedIsClosed(ranges, dec, Elements(v));
  }

  lemma {:induction false} CalleesOfAre(ranges: seq<CodeRange>, dec: Decoding, pcs: seq<bv64>, t: bv64)
    requires AllDecode(dec, pcs)
    ensures t in CalleesOf(ranges, dec, pcs) <==>
            IsExec(ranges, t) && exists pc | pc in pcs :: CalledFrom(dec, pc, t)
    decreases |pcs|
  {
    hide Callees, CallsDirectly, IsExec;
    if pcs != [] {
      var rest, last := pcs[..|pcs| - 1], pcs[|pcs| - 1];
      assert pcs == rest + [last];
      CalleesOfAre(ranges, dec, rest, t);
      CalleesAre(ranges, dec(last).value, last, t);
      assert last in pcs && forall pc | pc in pcs :: pc in rest || pc == last;
      assert forall pc | pc in rest :: pc in pcs;
    }
  }

  // Some instruction of the block is a direct call of t.
  ghost predicate BlockCalls(b: Block, t: bv64)
  {
    |b.instrs| == |b.pcs| && exists k | 0 <= k < |b.pcs| :: CallsDirectly(b.instrs[k], b.pcs[k], t)
  }

  // The call targets of a built block are the executable pcs that its instructions call directly.
  lemma CallTargetsAre(ranges: seq<CodeRange>, dec: Decoding, entry: bv64, t: bv64)
    requires BuildBlock(ranges, dec, entry).Built?
    ensures var r := BuildBlock(ranges, dec, entry);
            t in r.callTargets <==> IsExec(ranges, t) && BlockCalls(r.block, t)
  {
    hide Layout, Explore, Callees, CallsDirectly, IsExec;
    BuiltBlock(ranges, dec, entry);
    LayoutDecodes(ranges, dec, entry);
    ExploreFrom(ranges, Flow(ranges, dec), entry);
    var v := Discover(ranges, dec, entry).value;
    var b := BuildBlock(ranges, dec, entry).block;
    LayoutIsRotatedOrder(v, entry);
    CalleesOfAre(ranges, dec, v, t);
    CalledSomewhere(dec, v, b.pcs, b.instrs, t);
  }

  lemma CalledSomewhere(dec: Decoding, v: seq<bv64>, pcs: seq<bv64>, instrs: seq<Instr>, t: bv64)
    requires SameElements(pcs, v) && |pcs| == |instrs| && AllDecode(dec, v)
    requires forall k | 0 <= k < |pcs| :: dec(pcs[k]) == Some(instrs[k])
    ensures (exists pc | pc in v :: CalledFrom(dec, pc, t)) <==>
            exists k | 0 <= k < |pcs| :: CallsDirectly(instrs[k], pcs[k], t)
  {
    hide CallsDirectly;
    if k :| 0 <= k < |pcs| && CallsDirectly(instrs[k], pcs[k], t) {
      assert pcs[k] in pcs && pcs[k] in v;
    }
    if pc :| pc in v && CalledFrom(dec, pc, t) {
      assert pc in pcs;
      var k :| 0 <= k < |pcs| && pcs[k] == pc;
      assert CallsDirectly(instrs[k], pcs[k], t);
    }
  }

  predicate StaysInFunction(i: Instr) { !i.opcode.JALR? && !(i.opcode.JAL? && i.rd != 0) }

  // The traversal misses no way control can go without a call or an indirect jump, and a call's
  // return pc is a successor too.
  lemma SuccessorsCover(ranges: seq<CodeRange>, i: Instr, h: Hart)
    requires h.status == Running && Execute(i, h).status == Running && Formatted(i)
    ensures StaysInFunction(i) && IsExec(ranges, Execute(i, h).pc) ==> Execute(i, h).pc in Successors(ranges, i, h.pc)
    ensures !StaysInFunction(i) && i.rd != 0 ==> NextPc(h.pc) in Successors(ranges, i, h.pc)
  {
    hide Execute, IsExec, Imm, Add;
    ExecuteFlow(i, h);
  }

  // So control that is inside a built function stays on its labels until a call, a return, an
  // ecall or a pc outside executable memory.
  lemma ControlStaysInBlock(ranges: seq<CodeRange>, dec: Decoding, entry: bv64, j: nat, h: Hart)
    requires BuildBlock(ranges, dec, entry).Built?
    requires var b := BuildBlock(ranges, dec, entry).block;
             j < |b.pcs| == |b.instrs| && h.pc == b.pcs[j] && h.status == Running && Formatted(b.instrs[j]) &&
             StaysInFunction(b.instrs[j])
    requires var b := BuildBlock(ranges, dec, entry).block;
             var g := Execute(b.instrs[j], h);
             g.status == Running && IsExec(ranges, g.pc)
    ensures var b := BuildBlock(ranges, dec, entry).block;
            Execute(b.instrs[j], h).pc in b.pcs
  {
    hide Execute, Flow;
    var b := BuildBlock(ranges, dec, entry).block;
    BuiltBlock(ranges, dec, entry);
    BlockIsClosed(ranges, dec, entry);
    SuccessorsCover(ranges, b.instrs[j], h);
    MemberFlows(ranges, dec, Elements(b.pcs), h.pc);
  }

  lemma BlockIsClosed(ranges: seq<CodeRange>, dec: Decoding, entry: bv64)
    requires BuildBlock(ranges, dec, entry).Built?
    ensures Closed(ranges, Flow(ranges, dec), Elements(BuildBlock(ranges, dec, entry).block.pcs))
  {
    ExploreFrom(ranges, Flow(ranges, dec), entry);
    var v := Discover(ranges, dec, entry).value;
    assert v[0] in Elements(v);
    FlowClosedIsClosed(ranges, dec, Elements(v));
    BlockIsLeast(ranges, dec, entry, Elements(v));
    FlowClosedIsClosed(ranges, dec, Elements(BuildBlock(ranges, dec, entry).block.pcs));
  }

  lemma MemberFlows(ranges: seq<CodeRange>, dec: Decoding, S: set<bv64>, pc: bv64)
    requires Closed(ranges, Flow(ranges, dec), S) && pc in S && dec(pc).Some?
    ensures SuccessorsIn(ranges, Successors(ranges, dec(pc).value, pc), S)
  {}

  method IsExecPc(ranges: seq<CodeRange>, pc: bv64) returns (b: bool)
    ensures b == IsExec(ranges, pc)
  {
    for k := 0 to |ranges|
      invariant forall j | 0 <= j < k :: !InRange(ranges[j], pc)
    {
      if InRange(ranges[k], pc) {
        assert ranges[k] in ranges;
        return true;
      }
    }
    return false;
  }

  lemma SuccessorsAndCallees(ranges: seq<CodeRange>, i: Instr, pc: bv64)
    ensures forall t | IsExec(ranges, t) :: t in Successors(ranges, i, pc) <==> GoesOn(i, pc, t)
    ensures forall t :: t in Callees(ranges, i, pc) <==> CallsDirectly(i, pc, t) && IsExec(ranges, t)
  {
    hide GoesOn, CallsDirectly, IsExec, Successors, Callees;
    forall t | IsExec(ranges, t)
      ensures t in Successors(ranges, i, pc) <==> GoesOn(i, pc, t)
    {
      SuccessorsAre(ranges, i, pc, t);
    }
    forall t
      ensures t in Callees(ranges, i, pc) <==> CallsDirectly(i, pc, t) && IsExec(ranges, t)
    {
      CalleesAre(ranges, i, pc, t);
    }
  }

  // The branches of the loop body for one decoded instruction.
  method PushSuccessors(ranges: seq<CodeRange>, i: Instr, pc: bv64, worklist0: seq<bv64>, calls0: seq<bv64>)
    returns (worklist: seq<bv64>, calls: seq<bv64>)
    ensures worklist == worklist0 + Successors(ranges, i, pc)
    ensures calls == calls0 + Callees(ranges, i, pc)
    ensures forall t | IsExec(ranges, t) :: t in worklist <==> t in worklist0 || GoesOn(i, pc, t)
    ensures forall t :: t in calls <==> t in calls0 || (CallsDirectly(i, pc, t) && IsExec(ranges, t))
  {
    SuccessorsAndCallees(ranges, i, pc);
    hide GoesOn, CallsDirectly, IsExec;
    worklist, calls := worklist0, calls0;
    if i.opcode.ECALL? {
      return;
    }
    if i.opcode.JAL? {
      var targetExec := IsExecPc(ranges, TargetPc(i, pc));
      if i.rd != 0 {
        if targetExec {
          calls := calls + [TargetPc(i, pc)];
        }
        worklist := worklist + [NextPc(pc)];
      } else if targetExec {
        worklist := worklist + [TargetPc(i, pc)];
      }
      return;
    }
    if i.opcode.JALR? {
      if !IsRet(i) && i.rd != 0 {
        worklist := worklist + [NextPc(pc)];
      }
      return;
    }
    if i.format.FormatB? {
      var targetExec := IsExecPc(ranges, TargetPc(i, pc));
      if targetExec {
        worklist := worklist + [TargetPc(i, pc)];
      }
    }
    worklist := worklist + [NextPc(pc)];
  }

  // build_function_block: the worklist loop, the sort and the rotation.
  method BuildFunctionBlock(ranges: seq<CodeRange>, dec: Decoding, entry: bv64) returns (r: BuildResult)
    ensures r == BuildBlock(ranges, dec, entry)
  {
    hide IsExec, Layout, Successors, Callees;
    var executable := IsExecPc(ranges, entry);
    if !executable {
      return NotExecutable;
    }
    var visited: seq<bv64>, callTargets: seq<bv64> := [], [];
    var worklist := [entry];
    while worklist != []
      invariant Explore(ranges, Flow(ranges, dec), worklist, visited) == Discover(ranges, dec, entry)
      invariant AllDecode(dec, visited) && callTargets == CalleesOf(ranges, dec, visited)
      decreases Unseen(ranges, visited), |worklist|
    {
      var pc := worklist[|worklist| - 1];
      worklist := worklist[..|worklist| - 1];
      var exec := IsExecPc(ranges, pc);
      if !exec || pc in visited {
        continue;
      }
      if dec(pc).None? {
        return FetchFault;
      }
      UnseenShrinks(ranges, visited, pc);
      assert (visited + [pc])[..|visited|] == visited;
      visited := visited + [pc];
      worklist, callTargets := PushSuccessors(ranges, dec(pc).value, pc, worklist, callTargets);
    }
    LayoutDecodes(ranges, dec, entry);
    var pcs := Layout(visited, entry);
    r := Built(Block(ZextWord(entry), InstrsAt(dec, pcs), [], pcs, true, None, 0), callTargets);
  }
}
