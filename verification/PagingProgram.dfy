/** A guest program that runs with paging on, through tables built by map_page: the hypotheses of the
    TLB runs hold of it. */
module PagingProgram {
  import opened Bits
  import opened Memory
  import opened Sv39
  import opened Isa
  import opened Decoder
  import opened Reference
  import opened PageTables
  import opened Programs
  import opened TlbAliases
  import opened TlbRuns
  import M = Mmu

  const CODE: bv64 := 0x4000

  // An increment and an ecall in one page, and the tables that map the page to itself.
  function CodeMemory(): Mem { Place(Place(Nothing(), CODE + 4, STOP), CODE, BUMP) }

  const CODE_PAGE := Call(CODE, LEAF)

  function PagedMemory(): Mem { MapPage(TABLES, CodeMemory(), CODE_PAGE) }

  function PagedStart(): Hart { Hart(map[], PagedMemory(), CODE, SatpFor(TABLES.l1), Running) }

  function PagedState(n: nat): Hart
  {
    var h := PagedStart();
    if n == 0 then h
    else if n == 1 then h.(regs := map[2 := 1], pc := CODE + 4)
    else h.(regs := map[2 := 1], pc := CODE + 8, status := Halted)
  }

  lemma PageIsValid()
    ensures CODE_PAGE.Valid() && TABLES.Valid() && Aligned(TABLES.l1)
  {}

  // Addresses of the code page, and no entry of the tables, are in the page at CODE.
  lemma InCodePage(a: bv64, x: bv64)
    requires (a == CODE || a == CODE + 4) && x in Span(a, 4)
    ensures PageBase(x) == CODE
  {
    InWord(a, x);
    CodeWord(a, x);
  }

  lemma CodeWord(a: bv64, x: bv64)
    requires (a == CODE || a == CODE + 4) && x & !3 == a
    ensures PageBase(x) == CODE
  {}

  function PageBase(x: bv64): bv64 { x & !0xFFF }

  lemma PageOfWord(x: bv64, a: bv64)
    requires x & !7 == a
    ensures PageBase(x) == PageBase(a)
  {
    MaskTwice(x);
  }

  lemma MaskTwice(x: bv64)
    ensures (x & !7) & !0xFFF == x & !0xFFF
  {}

  lemma EntryPage(table: bv64, i: bv64)
    requires Aligned(table) && i < 512
    ensures PageBase(PteAddr(table, i)) == table
  {
    SlotTable(table, i);
  }

  lemma InTablePage(table: bv64, i: bv64, x: bv64)
    requires Aligned(table) && i < 512 && x in Span(PteAddr(table, i), 8)
    ensures PageBase(x) == table
  {
    hide Span, PteAddr, Aligned, PageBase;
    EntryPage(table, i);
    SlotAligned(table, i);
    AlignedWord(PteAddr(table, i), x);
    PageOfWord(x, PteAddr(table, i));
  }

  lemma EntryElsewhere(m: Mem, table: bv64, i: bv64, v: bv64, a: bv64)
    requires Aligned(table) && i < 512 && table != CODE && (a == CODE || a == CODE + 4)
    ensures Read(SetPte(m, table, i, v), a, 4) == Read(m, a, 4)
  {
    hide Span, PteAddr, Aligned, Read, Write, PageBase;
    forall x | x in Span(a, 4)
      ensures x !in Span(PteAddr(table, i), 8)
    {
      InCodePage(a, x);
      if x in Span(PteAddr(table, i), 8) {
        InTablePage(table, i, x);
      }
    }
    ReadAfterDisjointWrite(m, a, 4, PteAddr(table, i), v, 8);
  }

  lemma CodeIsKept(a: bv64)
    requires a == CODE || a == CODE + 4
    ensures Read(PagedMemory(), a, 4) == Read(CodeMemory(), a, 4)
  {
    hide SetPte, Read, CodeMemory, Aligned, Link;
    PageIsValid();
    TablesApartFromCode();
    var c := CODE_PAGE;
    IndexSmall(c, 0);
    IndexSmall(c, 1);
    IndexSmall(c, 2);
    var m := CodeMemory();
    var m1 := SetPte(m, TABLES.l1, c.Index(2), Link(TABLES.l2));
    var m2 := SetPte(m1, TABLES.l2, c.Index(1), Link(TABLES.l3));
    EntryElsewhere(m, TABLES.l1, c.Index(2), Link(TABLES.l2), a);
    EntryElsewhere(m1, TABLES.l2, c.Index(1), Link(TABLES.l3), a);
    EntryElsewhere(m2, TABLES.l3, c.Index(0), c.Leaf(), a);
  }

  lemma TablesApartFromCode()
    ensures TABLES.l1 != CODE && TABLES.l2 != CODE && TABLES.l3 != CODE
  {}

  lemma CodeHolds()
    ensures InstrAt(PagedMemory(), CODE) == BUMP && InstrAt(PagedMemory(), CODE + 4) == STOP
  {
    hide Place, PagedMemory, Decode, Read;
    BumpEncodable();
    StopEncodable();
    CodeIsKept(CODE);
    CodeIsKept(CODE + 4);
    var m := Place(Nothing(), CODE + 4, STOP);
    PlacedHere(Nothing(), CODE + 4, STOP);
    PlacedHere(m, CODE, BUMP);
    PlacedElsewhere(m, CODE, BUMP, CODE + 4);
  }

  lemma CodeIsMapped(va: bv64)
    requires PageOf(va) == PageOf(CODE)
    ensures Translate(PagedMemory(), SatpFor(TABLES.l1), va) == Some(va)
    ensures var w := Walk(PagedMemory(), TABLES.l1, VpnsOf(va), TOP); w.Leaf? && w.level == 0
  {
    hide MapPage, CodeMemory, Walk, LeafPa, Layout.Valid, Call.Valid, PageOf, SatpFor, VpnsOf, Translate;
    PageIsValid();
    var calls := [CODE_PAGE];
    assert calls[..|calls| - 1] == [] && MapAll(TABLES, CodeMemory(), []) == CodeMemory();
    assert MapAll(TABLES, CodeMemory(), calls) == PagedMemory();
    RootIsLow();
    MappedIsIdentity(TABLES, CodeMemory(), calls, 0, va);
    WalkOfMapped(TABLES, CodeMemory(), calls, 0, va);
  }

  lemma RootIsLow()
    ensures TABLES.l1 < 0x100_0000_0000_0000
  {}

  lemma OneCodePage()
    ensures PageOf(CODE + 4) == PageOf(CODE) && M.UpperVpn(CODE + 4) == M.UpperVpn(CODE)
    ensures Add(CODE, 4) == CODE + 4 && Add(CODE + 4, 4) == CODE + 8
  {}

  function Fetched(): iset<bv64> { iset{CODE, CODE + 4} }

  lemma SatpIsPaging()
    ensures Mode(SatpFor(TABLES.l1)) == SV39_MODE && RootTable(SatpFor(TABLES.l1)) == TABLES.l1
  {
    PageIsValid();
    RootIsLow();
    hide SatpFor, Mode, RootTable;
    SatpFields(TABLES.l1);
  }

  lemma FetchesInReach(h: Hart, va: bv64)
    requires h.mem == PagedMemory() && h.satp == SatpFor(TABLES.l1) && va in Fetched()
    ensures InReach(h, va, Fetched())
  {
    hide Walk, VpnsOf, PagedMemory, SatpFor, Mode, RootTable, PageOf, M.UpperVpn, M.NoAlias;
    SatpIsPaging();
    OneCodePage();
    forall va0 | va0 in Fetched()
      ensures var w := Walk(h.mem, TABLES.l1, VpnsOf(va0), TOP);
              M.UpperVpn(va0) == M.UpperVpn(va) && (w.Leaf? ==> w.level == 0)
    {
      CodeIsMapped(va0);
    }
    M.PagesHaveNoAlias(h.mem, TABLES.l1, Fetched(), va);
  }

  lemma PagedDecode(dec: DecodeFn, h: Hart, va: bv64)
    requires (forall word: bv32 :: dec(word) == Decode(word)) && h.mem == PagedMemory() &&
             h.satp == SatpFor(TABLES.l1) && va in Fetched()
    ensures DecodeAt(dec, h, va) == Some(if va == CODE then BUMP else STOP)
  {
    hide PagedMemory, SatpFor, Decode, Read, Translate, PageOf;
    OneCodePage();
    CodeIsMapped(va);
    CodeHolds();
  }

  lemma PagedStep(dec: DecodeFn, n: nat)
    requires forall word: bv32 :: dec(word) == Decode(word)
    ensures Step(dec, PagedState(n)) == PagedState(n + 1)
  {
    hide PagedMemory, SatpFor, DecodeAt, Execute, Imm, Add;
    var h := PagedState(n);
    OneCodePage();
    Immediates();
    if n == 0 {
      PagedDecode(dec, h, CODE);
      BumpsOn(h);
      assert GetReg(h, 2) == 0;
    } else if n == 1 {
      PagedDecode(dec, h, CODE + 4);
      JumpExecutes(STOP, h);
    }
  }

  lemma {:induction false} PagedReaches(dec: DecodeFn, n: nat)
    requires forall word: bv32 :: dec(word) == Decode(word)
    ensures StepN(dec, n, PagedStart()) == PagedState(n)
    decreases n
  {
    hide Step, PagedMemory, SatpFor;
    if n > 0 {
      PagedReaches(dec, n - 1);
      StepAfter(dec, n - 1, PagedStart());
      PagedStep(dec, n - 1);
    }
  }

  // Every state of the run fits, so PagedHart.Run applies to it.
  lemma PagingProgramFits(dec: DecodeFn)
    requires forall word: bv32 :: dec(word) == Decode(word)
    ensures RunFits(dec, PagedStart(), Fetched()) && StepN(dec, 2, PagedStart()).status == Halted
  {
    hide PagedMemory, SatpFor, DecodeAt, InReach, StepN;
    forall n: nat
      ensures StepFits(dec, StepN(dec, n, PagedStart()), Fetched())
    {
      PagedReaches(dec, n);
      var h := PagedState(n);
      if n < 2 {
        FetchesInReach(h, h.pc);
        PagedDecode(dec, h, h.pc);
      }
    }
    PagedReaches(dec, 2);
  }
}
