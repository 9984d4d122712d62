/** Which addresses of the guest's sections its page tables map to themselves. */
module GuestSections {
  import opened Bits
  import opened Memory
  import opened Sv39
  import opened PageTables
  import opened Numbers
  import opened TlbAliases

  // --- addresses as numbers ---

  lemma WithinIsBelow(x: bv64)
    requires Within(x, 0x7F_FFFF_FFFF)
    ensures Below39(x)
  {}

  lemma AddressBelow(n: nat)
    requires n < VA_LIMIT
    ensures Below39(ToWord(n))
  {
    Powers();
    Masks39();
    hide Within, LowMask, Pow2, ToWord, Below39;
    WordWithin(n, 39);
    WithinIsBelow(ToWord(n));
  }

  function Sixteenth(x: bv64): bv64 { Half(Half(Half(Half(x)))) }

  lemma HalvesOf(n: nat)
    ensures n / 2 / 2 / 2 / 2 == n / 16 && n / 16 / 16 / 16 == n / 4096
  {}

  lemma SixteenthAddress(n: nat)
    requires n < VA_LIMIT
    ensures Sixteenth(ToWord(n)) == ToWord(n / 16)
  {
    hide Half, ToWord;
    var a, b, c := n / 2, n / 2 / 2, n / 2 / 2 / 2;
    HalfWord(n);
    HalfWord(a);
    HalfWord(b);
    HalfWord(c);
    HalvesOf(n);
  }

  lemma ThreeSixteenths(x: bv64)
    ensures Sixteenth(Sixteenth(Sixteenth(x))) == PageOf(x)
  {}

  // Two addresses are in one page exactly if they are in one page as numbers.
  lemma SamePage(a: nat, b: nat)
    requires a < VA_LIMIT && b < VA_LIMIT
    ensures PageOf(ToWord(a)) == PageOf(ToWord(b)) <==> a / 4096 == b / 4096
  {
    hide PageOf, ToWord;
    PageIsQuotient(a);
    PageIsQuotient(b);
    if ToWord(a / 4096) == ToWord(b / 4096) {
      WordInjective(a / 4096, b / 4096);
    }
  }

  lemma PageIsQuotient(n: nat)
    requires n < VA_LIMIT
    ensures PageOf(ToWord(n)) == ToWord(n / 4096)
  {
    hide PageOf, ToWord, Sixteenth;
    var a, b := n / 16, n / 16 / 16;
    SixteenthAddress(n);
    SixteenthAddress(a);
    SixteenthAddress(b);
    HalvesOf(n);
    ThreeSixteenths(ToWord(n));
  }

  // --- one loop ---

  ghost predicate CallsPage(calls: seq<Call>, page: bv64) { exists c | c in calls :: PageOf(c.va) == page }

  // The loop steps whole pages from start, so it enters the page of the section's last byte
  // exactly if that byte is not before start's offset in its page.
  predicate LastPageReached(start: nat, end: nat)
    requires start < end
  {
    (end - 1) % 4096 >= start % 4096
  }

  lemma {:induction false} PageLoopCalls(start: nat, end: nat, flags: bv64, c: Call) returns (va: nat)
    requires c in PageLoop(start, end, flags)
    ensures start <= va < end && va % 4096 == start % 4096 && c == Call(ToWord(va), flags)
    decreases end - start
  {
    hide ToWord;
    va := start;
    if c != Call(ToWord(start), flags) {
      va := PageLoopCalls(start + 4096, end, flags, c);
    }
  }

  lemma {:induction false} CalledAt(start: nat, end: nat, flags: bv64, va: nat)
    requires start <= va < end && va % 4096 == start % 4096
    ensures Call(ToWord(va), flags) in PageLoop(start, end, flags)
    decreases end - start
  {
    hide ToWord;
    if va != start {
      CalledAt(start + 4096, end, flags, va);
    }
  }

  // The page of every address is called, but that of a last page that the loop does not reach.
  lemma LoopReaches(start: nat, end: nat, flags: bv64, va: nat)
    requires start <= va < end <= VA_LIMIT && (LastPageReached(start, end) || va / 4096 != (end - 1) / 4096)
    ensures CallsPage(PageLoop(start, end, flags), PageOf(ToWord(va)))
  {
    hide ToWord, PageOf, PageLoop;
    var entry := va / 4096 * 4096 + start % 4096;
    assert entry / 4096 == va / 4096 && entry % 4096 == start % 4096;
    CalledAt(start, end, flags, entry);
    SamePage(entry, va);
  }

  lemma OffsetGrows(a: nat, b: nat)
    requires a <= b && a / 4096 == b / 4096
    ensures a % 4096 <= b % 4096
  {}

  ghost predicate Covers(calls: seq<Call>, start: nat, end: nat)
  {
    forall va: nat | start <= va < end :: CallsPage(calls, PageOf(ToWord(va)))
  }

  // A loop calls map_page for the page of every address of [start, end) if and only if the last
  // byte is not before start's offset in its page.
  lemma LoopCovers(start: nat, end: nat, flags: bv64)
    requires start < end <= VA_LIMIT
    ensures Covers(PageLoop(start, end, flags), start, end) <==> LastPageReached(start, end)
  {
    hide PageOf, ToWord, CallsPage, PageLoop;
    var calls := PageLoop(start, end, flags);
    if LastPageReached(start, end) {
      forall va: nat | start <= va < end
        ensures CallsPage(calls, PageOf(ToWord(va)))
      {
        LoopReaches(start, end, flags, va);
      }
    } else if Covers(calls, start, end) {
      LastIsReached(start, end, flags);
    }
  }

  lemma LastIsReached(start: nat, end: nat, flags: bv64)
    requires start < end <= VA_LIMIT && Covers(PageLoop(start, end, flags), start, end)
    ensures LastPageReached(start, end)
  {
    hide PageOf, PageLoop, ToWord;
    var last: nat := end - 1;
    assert CallsPage(PageLoop(start, end, flags), PageOf(ToWord(last)));
    var c :| c in PageLoop(start, end, flags) && PageOf(c.va) == PageOf(ToWord(end - 1));
    var va := PageLoopCalls(start, end, flags, c);
    SamePage(va, end - 1);
    OffsetGrows(va, end - 1);
  }

  // --- what translates to itself ---

  // The tables as the guest finds them: static data, all zero.
  ghost predicate Zeroed(layout: Layout, m: Mem)
  {
    forall i: bv64 | i < 512 ::
      ReadPte(m, PteAddr(layout.l1, i)) == 0 && ReadPte(m, PteAddr(layout.l2, i)) == 0 &&
      ReadPte(m, PteAddr(layout.l3, i)) == 0
  }

  lemma NothingIsZeroed(layout: Layout)
    ensures Zeroed(layout, Nothing())
  {
    hide ReadPte, PteAddr;
    forall i: bv64 | i < 512
      ensures ReadPte(Nothing(), PteAddr(layout.l1, i)) == 0 && ReadPte(Nothing(), PteAddr(layout.l2, i)) == 0 &&
              ReadPte(Nothing(), PteAddr(layout.l3, i)) == 0
    {
      NothingReads(PteAddr(layout.l1, i));
      NothingReads(PteAddr(layout.l2, i));
      NothingReads(PteAddr(layout.l3, i));
    }
  }

  lemma NoCalls(layout: Layout, m: Mem)
    ensures MapAll(layout, m, []) == m
  {}

  // The upper two tables hold links and zeros.
  lemma {:induction false} LinkOrZero(layout: Layout, m: Mem, calls: seq<Call>, d: Call)
    requires layout.Valid() && Zeroed(layout, m)
    ensures var m' := MapAll(layout, m, calls);
            ReadPte(m', PteAddr(layout.l1, d.Index(2))) in {0, Link(layout.l2)} &&
            ReadPte(m', PteAddr(layout.l2, d.Index(1))) in {0, Link(layout.l3)}
    decreases |calls|
  {
    hide SetPte, ReadPte, PteAddr, Link, Layout.Valid, MapPage, Call.Index;
    IndexSmall(d, 2);
    IndexSmall(d, 1);
    if calls == [] {
      NoCalls(layout, m);
    } else {
      var rest := calls[..|calls| - 1];
      LinkOrZero(layout, m, rest, d);
      StepHolds(layout, MapAll(layout, m, rest), calls[|calls| - 1], d);
    }
  }

  lemma {:induction false} LastAtFound(calls: seq<Call>, i: bv64)
    ensures LastAt(calls, i).Some? ==> LastAt(calls, i).value in calls && LastAt(calls, i).value.Index(0) == i
    decreases |calls|
  {
    hide Call.Index;
    if calls != [] {
      LastAtFound(calls[..|calls| - 1], i);
    }
  }

  // The walk in tables of that form: a fault, or the leaf of the last call in the slot.
  lemma WalkOfAny(layout: Layout, m: Mem, calls: seq<Call>, va: bv64)
    requires layout.Valid() && Zeroed(layout, m) && (forall c | c in calls :: c.Valid())
    ensures var w := Walk(MapAll(layout, m, calls), layout.l1, VpnsOf(va), TOP);
            w == PageFault ||
            (LastAt(calls, VpnsOf(va)[0]).Some? && w == Leaf(LastAt(calls, VpnsOf(va)[0]).value.Leaf(), 0))
  {
    hide SetPte, ReadPte, PteAddr, Link, MapPage, MapAll, Call.Leaf, UsableFlags, NextTable, Faulting, IsLeaf, VpnsOf;
    var d, m', vpn := Call(va, 0), MapAll(layout, m, calls), VpnsOf(va);
    LinkOrZero(layout, m, calls, d);
    LeafHolds(layout, m, calls, d);
    IndexSmall(d, 0);
    LeafIsLeaf();
    LastAtFound(calls, vpn[0]);
    var last := LastAt(calls, vpn[0]);
    if ReadPte(m', PteAddr(layout.l1, vpn[2])) == Link(layout.l2) &&
       ReadPte(m', PteAddr(layout.l2, vpn[1])) == Link(layout.l3) && last.Some? {
      EntryIsLeaf(last.value);
      ThreeSteps(layout, m', vpn, last.value.Leaf());
    } else {
      StepsToFault(layout, m', vpn);
    }
  }

  lemma EntryIsLeaf(c: Call)
    requires c.Valid()
    ensures !Faulting(c.Leaf()) && IsLeaf(c.Leaf())
  {
    LeafEntryIsLeaf(PageOf(c.va), c.flags);
  }

  lemma StepsToFault(layout: Layout, m: Mem, vpn: Vpns)
    requires layout.Valid()
    requires ReadPte(m, PteAddr(layout.l1, vpn[2])) in {0, Link(layout.l2)}
    requires ReadPte(m, PteAddr(layout.l2, vpn[1])) in {0, Link(layout.l3)}
    requires ReadPte(m, PteAddr(layout.l1, vpn[2])) == 0 || ReadPte(m, PteAddr(layout.l2, vpn[1])) == 0 ||
             ReadPte(m, PteAddr(layout.l3, vpn[0])) == 0
    ensures Walk(m, layout.l1, vpn, TOP) == PageFault
  {
    hide ReadPte, NextTable, PteAddr, Link, Faulting, IsLeaf, Aligned;
    LeafIsLeaf();
    LinkIsPointer(layout.l2);
    LinkTarget(layout.l2);
    LinkIsPointer(layout.l3);
    LinkTarget(layout.l3);
    assert ReadPte(m, PteAddr(layout.l3, vpn[0])) == 0 ==> Walk(m, layout.l3, vpn, 0) == PageFault;
    assert ReadPte(m, PteAddr(layout.l1, vpn[2])) == Link(layout.l2) ==> Walk(m, layout.l2, vpn, 1) == PageFault;
  }

  lemma SatpTranslates(layout: Layout, m: Mem, va: bv64)
    requires layout.Valid() && layout.l1 < 0x100_0000_0000_0000
    ensures Translate(m, SatpFor(layout.l1), va) ==
            match Walk(m, layout.l1, VpnsOf(va), TOP)
            case PageFault => None
            case Leaf(pte, level) => Some(LeafPa(pte, va, level))
  {
    SatpFields(layout.l1);
    hide SatpFor, Mode, RootTable, Walk, LeafPa, VpnsOf;
  }

  // After any calls on zeroed tables an address translates to itself if and only if the last call
  // that wrote its leaf slot was for its page; if there was none it faults.
  lemma IdentityExactly(layout: Layout, m: Mem, calls: seq<Call>, va: bv64)
    requires layout.Valid() && layout.l1 < 0x100_0000_0000_0000 && Zeroed(layout, m)
    requires forall c | c in calls :: c.Valid()
    ensures var t := Translate(MapAll(layout, m, calls), SatpFor(layout.l1), va);
            match LastAt(calls, VpnsOf(va)[0])
            case None => t == None
            case Some(last) => t == Some(va) <==> PageOf(last.va) == PageOf(va)
  {
    hide MapAll, SatpFor, Walk, LeafPa, PageOf, VpnsOf, UsableFlags, Call.Leaf;
    SatpTranslates(layout, MapAll(layout, m, calls), va);
    WalkOfAny(layout, m, calls, va);
    LastAtFound(calls, VpnsOf(va)[0]);
    match LastAt(calls, VpnsOf(va)[0])
    case None =>
    case Some(last) =>
      LeafIdentity(last, va);
      if PageOf(last.va) == PageOf(va) {
        var k :| 0 <= k < |calls| && calls[k] == last;
        WalkOfMapped(layout, m, calls, k, va);
      }
  }

  lemma CalledHasLast(calls: seq<Call>, va: bv64)
    requires CallsPage(calls, PageOf(va))
    ensures LastAt(calls, VpnsOf(va)[0]).Some?
  {
    hide PageOf, VpnsOf;
    var c :| c in calls && PageOf(c.va) == PageOf(va);
    SamePageSameVpns(c.va, va);
    var k :| 0 <= k < |calls| && calls[k] == c;
    LastAtIsACall(calls, k);
  }

  // Where no two called pages share a leaf slot, these are the addresses of called pages.
  lemma CalledExactly(layout: Layout, m: Mem, calls: seq<Call>, va: bv64)
    requires layout.Valid() && layout.l1 < 0x100_0000_0000_0000 && Zeroed(layout, m)
    requires (forall c | c in calls :: c.Valid()) && OnePagePerLeafSlot(calls)
    ensures Translate(MapAll(layout, m, calls), SatpFor(layout.l1), va) == Some(va) <==> CallsPage(calls, PageOf(va))
  {
    hide MapAll, SatpFor, PageOf, VpnsOf, UsableFlags, Translate;
    IdentityExactly(layout, m, calls, va);
    LastAtFound(calls, VpnsOf(va)[0]);
    if CallsPage(calls, PageOf(va)) {
      CalledHasLast(calls, va);
      var c :| c in calls && PageOf(c.va) == PageOf(va);
      SamePageSameVpns(c.va, va);
    }
  }

  // --- the program ---

  predicate Holds(s: Sections, va: nat)
  {
    s.textStart <= va < s.textEnd || s.dataStart <= va < s.dataEnd
  }

  // What a caller can check: each section's loop reaches its last page.
  predicate Reached(s: Sections)
  {
    (s.textStart < s.textEnd ==> LastPageReached(s.textStart, s.textEnd)) &&
    (s.dataStart < s.dataEnd ==> LastPageReached(s.dataStart, s.dataEnd))
  }

  // Or the other loop, or the stack's call, happens to.
  ghost predicate LastPagesCalled(s: Sections)
  {
    (s.textStart < s.textEnd ==> CallsPage(s.Calls(), PageOf(ToWord(s.textEnd - 1)))) &&
    (s.dataStart < s.dataEnd ==> CallsPage(s.Calls(), PageOf(ToWord(s.dataEnd - 1))))
  }

  ghost predicate Identity(layout: Layout, m: Mem, s: Sections, va: bv64)
  {
    Translate(MapAll(layout, m, s.Calls()), SatpFor(layout.l1), va) == Some(va)
  }

  lemma LoopIsValid(start: nat, end: nat, flags: bv64)
    requires end <= VA_LIMIT && UsableFlags(flags)
    ensures forall c | c in PageLoop(start, end, flags) :: c.Valid()
  {
    hide PageLoop, ToWord, UsableFlags, Below39;
    forall c | c in PageLoop(start, end, flags)
      ensures c.Valid()
    {
      var va := PageLoopCalls(start, end, flags, c);
      AddressBelow(va);
    }
  }

  lemma CallsAreValid(s: Sections)
    requires s.Valid()
    ensures forall c | c in s.Calls() :: c.Valid()
  {
    LoopIsValid(s.textStart, s.textEnd, PTE_V | PTE_R | PTE_X);
    LoopIsValid(s.dataStart, s.dataEnd, PTE_V | PTE_R | PTE_W);
    AddressBelow(s.stack);
    hide PageLoop, ToWord;
  }

  lemma PartCalls(s: Sections, page: bv64)
    ensures CallsPage(s.TextCalls(), page) || CallsPage(s.DataCalls(), page) || page == PageOf(ToWord(s.stack)) ==>
              CallsPage(s.Calls(), page)
  {
    hide PageOf, PageLoop, ToWord;
    assert Call(ToWord(s.stack), PTE_V | PTE_R | PTE_W) in s.Calls();
    assert forall c | c in s.TextCalls() || c in s.DataCalls() :: c in s.Calls();
  }

  lemma HeldIsCalled(s: Sections, va: nat)
    requires s.Valid() && Holds(s, va) && LastPagesCalled(s)
    ensures CallsPage(s.Calls(), PageOf(ToWord(va)))
  {
    hide PageOf, Sections.Calls, CallsPage, ToWord;
    PartCalls(s, PageOf(ToWord(va)));
    if s.textStart <= va < s.textEnd {
      SamePage(va, s.textEnd - 1);
      if va / 4096 != (s.textEnd - 1) / 4096 {
        LoopReaches(s.textStart, s.textEnd, PTE_V | PTE_R | PTE_X, va);
      }
    } else {
      SamePage(va, s.dataEnd - 1);
      if va / 4096 != (s.dataEnd - 1) / 4096 {
        LoopReaches(s.dataStart, s.dataEnd, PTE_V | PTE_R | PTE_W, va);
      }
    }
  }

  lemma ReachedIsCalled(s: Sections)
    requires s.Valid() && Reached(s)
    ensures LastPagesCalled(s)
  {
    hide PageOf, Sections.Calls, CallsPage, LastPageReached, ToWord;
    if s.textStart < s.textEnd {
      LoopReaches(s.textStart, s.textEnd, PTE_V | PTE_R | PTE_X, s.textEnd - 1);
      PartCalls(s, PageOf(ToWord(s.textEnd - 1)));
    }
    if s.dataStart < s.dataEnd {
      LoopReaches(s.dataStart, s.dataEnd, PTE_V | PTE_R | PTE_W, s.dataEnd - 1);
      PartCalls(s, PageOf(ToWord(s.dataEnd - 1)));
    }
  }

  lemma CalledIsIdentity(layout: Layout, m: Mem, s: Sections, va: bv64)
    requires layout.Valid() && layout.l1 < 0x100_0000_0000_0000 && s.Valid()
    requires OnePagePerLeafSlot(s.Calls()) && CallsPage(s.Calls(), PageOf(va))
    ensures Identity(layout, m, s, va)
  {
    hide PageOf, MapAll, SatpFor, Translate, Sections.Calls, OnePagePerLeafSlot, Call.Valid;
    CallsAreValid(s);
    var calls := s.Calls();
    var c :| c in calls && PageOf(c.va) == PageOf(va);
    var k :| 0 <= k < |calls| && calls[k] == c;
    MappedIsIdentity(layout, m, calls, k, va);
  }

  // The whole program: for sections whose loops reach their last pages, no two of whose pages
  // share a leaf slot, every address of text and data, and of the stack page, translates to itself
  // once paging is on, whatever memory held before.
  lemma ProgramIsIdentityMapped(layout: Layout, m: Mem, s: Sections)
    requires layout.Valid() && layout.l1 < 0x100_0000_0000_0000 && s.Valid()
    requires OnePagePerLeafSlot(s.Calls()) && Reached(s)
    ensures forall va: nat | Holds(s, va) :: Identity(layout, m, s, ToWord(va))
    ensures forall va | PageOf(va) == PageOf(ToWord(s.stack)) :: Identity(layout, m, s, va)
  {
    hide PageOf, Identity, Sections.Calls, OnePagePerLeafSlot, LastPagesCalled, CallsPage, ToWord;
    ReachedIsCalled(s);
    forall va: nat | Holds(s, va)
      ensures Identity(layout, m, s, ToWord(va))
    {
      HeldIsCalled(s, va);
      CalledIsIdentity(layout, m, s, ToWord(va));
    }
    forall va | PageOf(va) == PageOf(ToWord(s.stack))
      ensures Identity(layout, m, s, va)
    {
      PartCalls(s, PageOf(va));
      CalledIsIdentity(layout, m, s, va);
    }
  }

  // On zeroed tables all addresses of text and data translate to themselves if and only if the
  // last page of each is called.
  lemma SectionsExactly(layout: Layout, m: Mem, s: Sections)
    requires layout.Valid() && layout.l1 < 0x100_0000_0000_0000 && s.Valid() && Zeroed(layout, m)
    requires OnePagePerLeafSlot(s.Calls())
    ensures (forall va: nat | Holds(s, va) :: Identity(layout, m, s, ToWord(va))) <==> LastPagesCalled(s)
  {
    hide PageOf, Sections.Calls, OnePagePerLeafSlot, Call.Valid, CallsPage, Zeroed, ToWord, Translate, MapAll,
         SatpFor;
    CallsAreValid(s);
    forall va: nat
      ensures Identity(layout, m, s, ToWord(va)) <==> CallsPage(s.Calls(), PageOf(ToWord(va)))
    {
      CalledExactly(layout, m, s.Calls(), ToWord(va));
    }
    if LastPagesCalled(s) {
      forall va: nat | Holds(s, va)
        ensures CallsPage(s.Calls(), PageOf(ToWord(va)))
      {
        HeldIsCalled(s, va);
      }
    } else {
      assert s.textStart < s.textEnd ==> Holds(s, s.textEnd - 1);
      assert s.dataStart < s.dataEnd ==> Holds(s, s.dataEnd - 1);
    }
  }

  // The linker script's stack, with sections below the page that has its leaf slot.
  lemma ShippedStackFits(s: Sections)
    requires s.textEnd <= 0x1F_F000 && s.dataEnd <= 0x1F_F000 && s.stack == 0xFF_F000
    ensures OnePagePerLeafSlot(s.Calls())
  {
    hide ToWord, PageOf, Call.Index, PageLoop;
    forall c, d | c in s.Calls() && d in s.Calls() && c.Index(0) == d.Index(0)
      ensures PageOf(c.va) == PageOf(d.va)
    {
      var a := CalledAddress(s, c);
      var b := CalledAddress(s, d);
      SlotOfPage(a);
      SlotOfPage(b);
      SamePage(a, b);
      WordInjective(LowBits(a / 4096, 9), LowBits(b / 4096, 9));
    }
  }

  // Where a call is for: below the stack's rival, or the stack.
  lemma CalledAddress(s: Sections, c: Call) returns (va: nat)
    requires s.textEnd <= 0x1F_F000 && s.dataEnd <= 0x1F_F000 && s.stack == 0xFF_F000 && c in s.Calls()
    ensures c.va == ToWord(va) && (va < 0x1F_F000 || va == 0xFF_F000)
  {
    hide ToWord, PageLoop;
    if c in s.TextCalls() {
      va := PageLoopCalls(s.textStart, s.textEnd, PTE_V | PTE_R | PTE_X, c);
    } else if c in s.DataCalls() {
      va := PageLoopCalls(s.dataStart, s.dataEnd, PTE_V | PTE_R | PTE_W, c);
    } else {
      va := s.stack;
    }
  }

  lemma SlotIsMasked(va: bv64, flags: bv64)
    ensures Call(va, flags).Index(0) == Masked(PageOf(va), 0x1FF)
  {}

  lemma NineBits()
    ensures LowMask(9) == 0x1FF && Pow2(9) == 512 && LowBits(0xFFF, 9) == 0x1FF
  {}

  // The leaf slot of such an address is its page, or 511 for the stack's.
  lemma SlotOfPage(va: nat)
    requires va < 0x1F_F000 || va == 0xFF_F000
    ensures forall flags :: Call(ToWord(va), flags).Index(0) == ToWord(LowBits(va / 4096, 9))
    ensures LowBits(va / 4096, 9) == if va == 0xFF_F000 then 511 else va / 4096
  {
    hide ToWord, PageOf, Call.Index, Masked, LowBits, LowMask, Pow2;
    NineBits();
    PageIsQuotient(va);
    MaskOfWord(va / 4096, 9);
    if va < 0x1F_F000 {
      SmallLowBits(va / 4096, 9);
    }
    forall flags
      ensures Call(ToWord(va), flags).Index(0) == ToWord(LowBits(va / 4096, 9))
    {
      SlotIsMasked(ToWord(va), flags);
    }
  }

  // --- where they do not ---

  // Text that ends inside a page and data right behind it, as the linker script places them.
  const UNALIGNED := Sections(0x1000, 0x1F00, 0x1F00, 0x2100, 0xFF_F000)

  lemma {:induction false} NoneAt(calls: seq<Call>, i: bv64)
    requires forall c | c in calls :: c.Index(0) != i
    ensures LastAt(calls, i) == None
    decreases |calls|
  {
    if calls != [] {
      NoneAt(calls[..|calls| - 1], i);
    }
  }

  function SlotOf(high: bv64, low: bool): bv64 { AddBit(high, low) & 0x1FF }

  // The lowest VPN of an address in page n.
  lemma IndexOfPage(va: nat, n: nat)
    requires va < VA_LIMIT && n == va / 4096
    ensures VpnsOf(ToWord(va))[0] == SlotOf(ToWord(n / 2), n % 2 == 1)
  {
    hide AddBit, ToWord;
    PageIsQuotient(va);
    WordSplits(n);
  }

  lemma OddIsNotTwo(high: bv64)
    ensures SlotOf(high, true) != SlotOf(1, false)
  {}

  lemma WordOfOne()
    ensures ToWord(1) == 1
  {}

  lemma UnalignedIndices()
    ensures var i := VpnsOf(ToWord(0x2000))[0];
            VpnsOf(ToWord(0x1000))[0] != i && VpnsOf(ToWord(0x1F00))[0] != i &&
            VpnsOf(ToWord(0xFF_F000))[0] != i
  {
    hide ToWord, VpnsOf, SlotOf;
    IndexOfPage(0x1000, 1);
    IndexOfPage(0x1F00, 1);
    IndexOfPage(0x2000, 2);
    IndexOfPage(0xFF_F000, 0xFFF);
    WordOfOne();
    OddIsNotTwo(ToWord(0));
    OddIsNotTwo(ToWord(0x7FF));
  }

  lemma UnalignedCalls()
    ensures forall c | c in UNALIGNED.Calls() :: c.Index(0) != VpnsOf(ToWord(0x2000))[0]
  {
    hide ToWord, VpnsOf;
    UnalignedIndices();
    var x, w := PTE_V | PTE_R | PTE_X, PTE_V | PTE_R | PTE_W;
    assert PageLoop(0x2000, 0x1F00, x) == [] && PageLoop(0x2F00, 0x2100, w) == [];
    assert UNALIGNED.TextCalls() == [Call(ToWord(0x1000), x)];
    assert UNALIGNED.DataCalls() == [Call(ToWord(0x1F00), w)];
  }

  // 0x2000 is in the data section, and faults.
  lemma DataFaults(layout: Layout)
    requires layout.Valid() && layout.l1 < 0x100_0000_0000_0000
    ensures UNALIGNED.Valid() && Holds(UNALIGNED, 0x2000) && !Reached(UNALIGNED)
    ensures Translate(MapAll(layout, Nothing(), UNALIGNED.Calls()), SatpFor(layout.l1), ToWord(0x2000)) == None
  {
    hide MapAll, SatpFor, Translate, Sections.Calls, Zeroed, Call.Index, VpnsOf, PageLoop, LastAt, ToWord;
    UnalignedCalls();
    NothingIsZeroed(layout);
    CallsAreValid(UNALIGNED);
    NoneAt(UNALIGNED.Calls(), VpnsOf(ToWord(0x2000))[0]);
    IdentityExactly(layout, Nothing(), UNALIGNED.Calls(), ToWord(0x2000));
  }
}
