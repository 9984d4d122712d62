/** The guest program that builds the Sv39 tables, and the walker that reads them back. */
module PageTables {
  import opened Bits
  import opened Memory
  import opened Sv39
  import opened Numbers

  // The three statically allocated, page-aligned tables.
  datatype Layout = Layout(l1: bv64, l2: bv64, l3: bv64) {
    predicate Valid()
    {
      Aligned(l1) && Aligned(l2) && Aligned(l3) && l1 != l2 && l1 != l3 && l2 != l3
    }
  }

  predicate Aligned(table: bv64) { table & 0xFFF == 0 }

  // An entry that points to the next table.
  function Link(table: bv64): bv64 { (table >> 2) | PTE_V }

  // The 1:1 leaf of va's page.
  function LeafEntry(page: bv64, flags: bv64): bv64 { (page << 10) | flags }

  function PageOf(va: bv64): bv64 { va >> 12 }

  datatype Call = Call(va: bv64, flags: bv64) {
    function Index(level: Level): bv64 { VpnsOf(va)[level] }
    function Leaf(): bv64 { LeafEntry(PageOf(va), flags) }
    predicate Valid() { Below39(va) && UsableFlags(flags) }
  }

  predicate Below39(va: bv64) { va < 0x80_0000_0000 }

  // 2^39, as a number.
  const VA_LIMIT: nat := 0x80_0000_0000

  // V and R set, nothing outside the ten flag bits.
  predicate UsableFlags(flags: bv64) { flags & !0x3FF == 0 && flags & 3 == 3 }

  // The memory after map_page.
  function MapPage(layout: Layout, m: Mem, c: Call): Mem
  {
    var m1 := SetPte(m, layout.l1, c.Index(2), Link(layout.l2));
    var m2 := SetPte(m1, layout.l2, c.Index(1), Link(layout.l3));
    SetPte(m2, layout.l3, c.Index(0), c.Leaf())
  }

  function SetPte(m: Mem, table: bv64, i: bv64, v: bv64): Mem { Write(m, PteAddr(table, i), v, 8) }

  function MapAll(layout: Layout, m: Mem, calls: seq<Call>): Mem
  {
    if calls == [] then m else MapPage(layout, MapAll(layout, m, calls[..|calls| - 1]), calls[|calls| - 1])
  }

  // The last call whose page has the given lowest VPN.
  function LastAt(calls: seq<Call>, i: bv64): Option<Call>
  {
    if calls == [] then None
    else if calls[|calls| - 1].Index(0) == i then Some(calls[|calls| - 1])
    else LastAt(calls[..|calls| - 1], i)
  }

  lemma IndexSmall(c: Call, level: Level)
    ensures c.Index(level) < 512
  {}

  lemma SlotAligned(table: bv64, i: bv64)
    requires Aligned(table) && i < 512
    ensures PteAddr(table, i) & 7 == 0
  {}

  lemma SlotTable(table: bv64, i: bv64)
    requires Aligned(table) && i < 512
    ensures PteAddr(table, i) & !0xFFF == table
  {}

  lemma SlotIndex(table: bv64, i: bv64)
    requires Aligned(table) && i < 512
    ensures (PteAddr(table, i) & 0xFFF) >> 3 == i
  {}

  // Writing one entry changes that entry and no other entry of any page-aligned table.
  lemma ReadSlot(m: Mem, table: bv64, i: bv64, v: bv64, table': bv64, i': bv64)
    requires Aligned(table) && Aligned(table') && i < 512 && i' < 512
    ensures ReadPte(SetPte(m, table, i, v), PteAddr(table', i'))
         == if table == table' && i == i' then v else ReadPte(m, PteAddr(table', i'))
  {
    var a, a' := PteAddr(table, i), PteAddr(table', i');
    if table == table' && i == i' {
      ReadBack(m, a, v);
    } else {
      SlotAligned(table, i);
      SlotAligned(table', i');
      SlotTable(table, i);
      SlotTable(table', i');
      SlotIndex(table, i);
      SlotIndex(table', i');
      assert a != a';
      forall x | x in Span(a', 8)
        ensures x !in Span(a, 8)
      {
        AlignedWord(a', x);
        if x in Span(a, 8) {
          AlignedWord(a, x);
        }
      }
      ReadAfterDisjointWrite(m, a', 8, a, v, 8);
    }
  }

  // What the three tables hold after a sequence of calls.
  lemma {:induction false} TablesHold(layout: Layout, m: Mem, calls: seq<Call>, k: nat)
    requires layout.Valid() && k < |calls|
    ensures var m' := MapAll(layout, m, calls);
            ReadPte(m', PteAddr(layout.l1, calls[k].Index(2))) == Link(layout.l2)
            && ReadPte(m', PteAddr(layout.l2, calls[k].Index(1))) == Link(layout.l3)
    decreases |calls|
  {
    hide SetPte;
    var rest := calls[..|calls| - 1];
    var c := calls[|calls| - 1];
    if k < |calls| - 1 {
      TablesHold(layout, m, rest, k);
    }
    StepHolds(layout, MapAll(layout, m, rest), c, calls[k]);
  }

  // After one call, the entry of d's path in each of the three tables.
  lemma StepHolds(layout: Layout, m: Mem, c: Call, d: Call)
    requires layout.Valid()
    ensures ReadPte(MapPage(layout, m, c), PteAddr(layout.l1, d.Index(2)))
         == if c.Index(2) == d.Index(2) then Link(layout.l2) else ReadPte(m, PteAddr(layout.l1, d.Index(2)))
    ensures ReadPte(MapPage(layout, m, c), PteAddr(layout.l2, d.Index(1)))
         == if c.Index(1) == d.Index(1) then Link(layout.l3) else ReadPte(m, PteAddr(layout.l2, d.Index(1)))
    ensures ReadPte(MapPage(layout, m, c), PteAddr(layout.l3, d.Index(0)))
         == if c.Index(0) == d.Index(0) then c.Leaf() else ReadPte(m, PteAddr(layout.l3, d.Index(0)))
  {
    hide SetPte, PteAddr, Link, Call.Index, Call.Leaf, Layout.Valid;
    IndexSmall(d, 2);
    IndexSmall(d, 1);
    IndexSmall(d, 0);
    SlotAfterCall(layout, m, c, layout.l1, d.Index(2));
    SlotAfterCall(layout, m, c, layout.l2, d.Index(1));
    SlotAfterCall(layout, m, c, layout.l3, d.Index(0));
    assert layout.l1 != layout.l2 && layout.l1 != layout.l3 && layout.l2 != layout.l3 by { TablesDiffer(layout); }
  }

  lemma TablesDiffer(layout: Layout)
    requires layout.Valid()
    ensures layout.l1 != layout.l2 && layout.l1 != layout.l3 && layout.l2 != layout.l3
  {}

  // Slot j of a table after the three stores of a call.
  lemma SlotAfterCall(layout: Layout, m: Mem, c: Call, table: bv64, j: bv64)
    requires layout.Valid() && j < 512 && (table == layout.l1 || table == layout.l2 || table == layout.l3)
    ensures ReadPte(MapPage(layout, m, c), PteAddr(table, j))
         == if table == layout.l1 && c.Index(2) == j then Link(layout.l2)
            else if table == layout.l2 && c.Index(1) == j then Link(layout.l3)
            else if table == layout.l3 && c.Index(0) == j then c.Leaf()
            else ReadPte(m, PteAddr(table, j))
  {
    hide SetPte, PteAddr, Link, Call.Index, Call.Leaf;
    IndexSmall(c, 2);
    IndexSmall(c, 1);
    IndexSmall(c, 0);
    var m1 := SetPte(m, layout.l1, c.Index(2), Link(layout.l2));
    var m2 := SetPte(m1, layout.l2, c.Index(1), Link(layout.l3));
    ReadSlot(m, layout.l1, c.Index(2), Link(layout.l2), table, j);
    ReadSlot(m1, layout.l2, c.Index(1), Link(layout.l3), table, j);
    ReadSlot(m2, layout.l3, c.Index(0), c.Leaf(), table, j);
  }

  lemma {:induction false} LeafHolds(layout: Layout, m: Mem, calls: seq<Call>, d: Call)
    requires layout.Valid()
    ensures ReadPte(MapAll(layout, m, calls), PteAddr(layout.l3, d.Index(0)))
         == match LastAt(calls, d.Index(0))
            case Some(c) => c.Leaf()
            case None => ReadPte(m, PteAddr(layout.l3, d.Index(0)))
    decreases |calls|
  {
    hide SetPte;
    if calls != [] {
      var rest := calls[..|calls| - 1];
      LeafHolds(layout, m, rest, d);
      StepHolds(layout, MapAll(layout, m, rest), calls[|calls| - 1], d);
    }
  }

  lemma {:induction false} LastAtIsACall(calls: seq<Call>, k: nat)
    requires k < |calls|
    ensures LastAt(calls, calls[k].Index(0)).Some?
    ensures LastAt(calls, calls[k].Index(0)).value in calls
    ensures LastAt(calls, calls[k].Index(0)).value.Index(0) == calls[k].Index(0)
    decreases |calls|
  {
    if calls[|calls| - 1].Index(0) != calls[k].Index(0) {
      LastAtIsACall(calls[..|calls| - 1], k);
    }
  }

  lemma LinkIsPointer(table: bv64)
    requires Aligned(table)
    ensures !Faulting(Link(table)) && !IsLeaf(Link(table))
  {}

  lemma LinkTarget(table: bv64)
    requires Aligned(table)
    ensures NextTable(Link(table)) == table
  {}

  lemma LeafEntryIsLeaf(page: bv64, flags: bv64)
    requires UsableFlags(flags)
    ensures !Faulting(LeafEntry(page, flags)) && IsLeaf(LeafEntry(page, flags))
  {}

  lemma LeafEntryPpn(page: bv64, flags: bv64)
    requires UsableFlags(flags) && page < 0x800_0000
    ensures LeafEntry(page, flags) >> 10 == page
  {}

  lemma PageBound(va: bv64)
    requires Below39(va)
    ensures PageOf(va) < 0x800_0000
  {}

  lemma SpliceOwnPage(page: bv64, va: bv64)
    requires page < 0x800_0000
    ensures Splice(page, va, 0xFFF) == va <==> page == PageOf(va)
  {
    SplicePage(page, va);
    SpliceSelf(va);
  }

  lemma SplicePage(page: bv64, va: bv64)
    requires page < 0x800_0000
    ensures PageOf(Splice(page, va, 0xFFF)) == page
  {}

  lemma SpliceSelf(va: bv64)
    ensures Splice(PageOf(va), va, 0xFFF) == va
  {}

  lemma SamePageSameVpns(va: bv64, va': bv64)
    requires PageOf(va) == PageOf(va')
    ensures VpnsOf(va) == VpnsOf(va')
  {
    assert (va >> 12) >> 9 == va >> 21 && (va >> 12) >> 18 == va >> 30;
    assert (va' >> 12) >> 9 == va' >> 21 && (va' >> 12) >> 18 == va' >> 30;
  }

  // After any sequence of calls, the walk from the L1 table ends, for every address of every
  // mapped page, at the leaf of the last call with the same lowest VPN; so the address
  // translates to itself exactly when that call was for the same page.
  lemma WalkOfMapped(layout: Layout, m: Mem, calls: seq<Call>, k: nat, va: bv64)
    requires layout.Valid() && (forall c | c in calls :: c.Valid())
    requires k < |calls| && PageOf(va) == PageOf(calls[k].va)
    ensures LastAt(calls, calls[k].Index(0)).Some?
    ensures var last := LastAt(calls, calls[k].Index(0)).value;
            var w := Walk(MapAll(layout, m, calls), layout.l1, VpnsOf(va), TOP);
            w == Leaf(last.Leaf(), 0) && (LeafPa(w.pte, va, w.level) == va <==> PageOf(last.va) == PageOf(va))
  {
    SamePageSameVpns(va, calls[k].va);
    LastAtIsACall(calls, k);
    var last := LastAt(calls, calls[k].Index(0)).value;
    assert last.Valid();
    TablesHold(layout, m, calls, k);
    LeafHolds(layout, m, calls, calls[k]);
    LeafEntryIsLeaf(PageOf(last.va), last.flags);
    ThreeSteps(layout, MapAll(layout, m, calls), VpnsOf(va), last.Leaf());
    LeafIdentity(last, va);
  }

  lemma LeafIdentity(last: Call, va: bv64)
    requires last.Valid()
    ensures LeafPa(last.Leaf(), va, 0) == va <==> PageOf(last.va) == PageOf(va)
  {
    hide UsableFlags, PageOf;
    PageBound(last.va);
    LeafEntryPpn(PageOf(last.va), last.flags);
    LeafPaPage(last.Leaf(), va);
    SpliceOwnPage(PageOf(last.va), va);
  }

  // Two links and a leaf make a three-step walk.
  lemma ThreeSteps(layout: Layout, m: Mem, vpn: Vpns, leaf: bv64)
    requires layout.Valid()
    requires ReadPte(m, PteAddr(layout.l1, vpn[2])) == Link(layout.l2)
    requires ReadPte(m, PteAddr(layout.l2, vpn[1])) == Link(layout.l3)
    requires ReadPte(m, PteAddr(layout.l3, vpn[0])) == leaf && !Faulting(leaf) && IsLeaf(leaf)
    ensures Walk(m, layout.l1, vpn, TOP) == Leaf(leaf, 0)
  {
    hide ReadPte, NextTable;
    LinkIsPointer(layout.l2);
    LinkTarget(layout.l2);
    LinkIsPointer(layout.l3);
    LinkTarget(layout.l3);
    assert Walk(m, layout.l3, vpn, 0) == Leaf(leaf, 0);
    assert Walk(m, layout.l2, vpn, 1) == Walk(m, layout.l3, vpn, 0);
    assert Walk(m, layout.l1, vpn, 2) == Walk(m, layout.l2, vpn, 1);
  }

  // No two mapped pages share bits 20:12 of their addresses.
  ghost predicate OnePagePerLeafSlot(calls: seq<Call>)
  {
    forall c, d | c in calls && d in calls && c.Index(0) == d.Index(0) :: PageOf(c.va) == PageOf(d.va)
  }

  // The value enable_vm puts into satp.
  function SatpFor(root: bv64): bv64 { (SV39_MODE << 60) | ((root >> 12) & 0xFFF_FFFF_FFFF) }

  lemma SatpFields(root: bv64)
    requires Aligned(root) && root < 0x100_0000_0000_0000
    ensures Mode(SatpFor(root)) == SV39_MODE
    ensures RootTable(SatpFor(root)) == root
  {
    SatpMode(root);
    SatpRoot(root);
  }

  lemma SatpMode(root: bv64)
    ensures (((8 << 60) | ((root >> 12) & 0xFFF_FFFF_FFFF)) >> 60) & 0xF == 8
  {}

  lemma SatpRoot(root: bv64)
    requires root & 0xFFF == 0 && root < 0x100_0000_0000_0000
    ensures (((8 << 60) | ((root >> 12) & 0xFFF_FFFF_FFFF)) & 0xFFF_FFFF_FFFF) * 4096 == root
  {}

  // With paging on, every address of every mapped page translates to itself.
  lemma MappedIsIdentity(layout: Layout, m: Mem, calls: seq<Call>, k: nat, va: bv64)
    requires layout.Valid() && layout.l1 < 0x100_0000_0000_0000
    requires (forall c | c in calls :: c.Valid()) && OnePagePerLeafSlot(calls)
    requires k < |calls| && PageOf(va) == PageOf(calls[k].va)
    ensures Translate(MapAll(layout, m, calls), SatpFor(layout.l1), va) == Some(va)
  {
    SatpFields(layout.l1);
    LastAtIsACall(calls, k);
    WalkOfMapped(layout, m, calls, k, va);
    assert PageOf(LastAt(calls, calls[k].Index(0)).value.va) == PageOf(calls[k].va);
  }

  // The calls of one of the loops over [va, end).
  function PageLoop(va: nat, end: nat, flags: bv64): seq<Call>
    decreases end - va
  {
    if va >= end then [] else [Call(ToWord(va), flags)] + PageLoop(va + 4096, end, flags)
  }

  lemma {:induction false} MapAllAppend(layout: Layout, m: Mem, a: seq<Call>, b: seq<Call>)
    ensures MapAll(layout, m, a + b) == MapAll(layout, MapAll(layout, m, a), b)
    decreases |b|
  {
    if b == [] {
      assert a + b == a;
    } else {
      assert (a + b)[..|a + b| - 1] == a + b[..|b| - 1];
      MapAllAppend(layout, m, a, b[..|b| - 1]);
    }
  }

  lemma MapAllLast(layout: Layout, m: Mem, a: seq<Call>, c: Call)
    ensures MapAll(layout, m, a + [c]) == MapPage(layout, MapAll(layout, m, a), c)
  {
    assert (a + [c])[..|a|] == a;
  }

  lemma TakeOne(done: seq<Call>, va: nat, end: nat, flags: bv64)
    requires va < end
    ensures done + PageLoop(va, end, flags) == (done + [Call(ToWord(va), flags)]) + PageLoop(va + 4096, end, flags)
  {}

  // The linker-script addresses the guest maps.
  datatype Sections = Sections(textStart: nat, textEnd: nat, dataStart: nat, dataEnd: nat, stack: nat) {
    predicate Valid() { textEnd <= VA_LIMIT && dataEnd <= VA_LIMIT && stack < VA_LIMIT }

    function TextCalls(): seq<Call> { PageLoop(textStart, textEnd, PTE_V | PTE_R | PTE_X) }

    function DataCalls(): seq<Call> { PageLoop(dataStart, dataEnd, PTE_V | PTE_R | PTE_W) }

    function Calls(): seq<Call>
    {
      TextCalls() + DataCalls() + [Call(ToWord(stack), PTE_V | PTE_R | PTE_W)]
    }
  }

  class Guest {
    var mem: Mem
    const layout: Layout

    constructor (m: Mem, l: Layout)
      ensures mem == m && layout == l
    {
      mem := m;
      layout := l;
    }

    method MapOne(va: bv64, flags: bv64)
      modifies this
      ensures mem == MapPage(layout, old(mem), Call(va, flags))
    {
      var l1Index := VpnsOf(va)[2];
      mem := SetPte(mem, layout.l1, l1Index, Link(layout.l2));
      var l2Index := VpnsOf(va)[1];
      mem := SetPte(mem, layout.l2, l2Index, Link(layout.l3));
      var l3Index := VpnsOf(va)[0];
      mem := SetPte(mem, layout.l3, l3Index, LeafEntry(PageOf(va), flags));
    }

    method MapRange(start: nat, end: nat, flags: bv64)
      requires end <= VA_LIMIT
        modifies this
      ensures mem == MapAll(layout, old(mem), PageLoop(start, end, flags))
    {
      var va := start;
      ghost var done: seq<Call> := [];
      while va < end
        invariant mem == MapAll(layout, old(mem), done)
        invariant done + PageLoop(va, end, flags) == PageLoop(start, end, flags)
      {
        MapOne(ToWord(va), flags);
        MapAllLast(layout, old(mem), done, Call(ToWord(va), flags));
        TakeOne(done, va, end, flags);
        done := done + [Call(ToWord(va), flags)];
        va := va + 4096;
      }
      assert PageLoop(va, end, flags) == [];
      assert done + [] == done;
    }

    method BuildSv39PageTables(s: Sections)
      requires s.Valid()
      modifies this
      ensures mem == MapAll(layout, old(mem), s.Calls())
    {
      ghost var m0 := mem;
      MapRange(s.textStart, s.textEnd, PTE_V | PTE_R | PTE_X);
      MapRange(s.dataStart, s.dataEnd, PTE_V | PTE_R | PTE_W);
      MapOne(ToWord(s.stack), PTE_V | PTE_R | PTE_W);
      ghost var stack := Call(ToWord(s.stack), PTE_V | PTE_R | PTE_W);
      MapAllAppend(layout, m0, s.TextCalls(), s.DataCalls());
      MapAllLast(layout, m0, s.TextCalls() + s.DataCalls(), stack);
    }
  }
}
