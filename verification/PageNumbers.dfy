/** The fields of addresses, table entries and satp as numbers. */
module PageNumbers {
  import opened Bits
  import opened Numbers
  import opened WordLaws
  import opened Memory
  import opened Sv39
  import opened PageTables
  import opened Mmu

  // --- cutting words ---

  lemma Right6(x: bv64)
    ensures ShiftRight(x, 6) == x >> 6
  {}

  lemma {:induction false} RightTwice(x: bv64, m: nat, n: nat)
    ensures ShiftRight(ShiftRight(x, m), n) == ShiftRight(x, m + n)
    decreases m
  {
    if m > 0 {
      RightTwice(x >> 1, m - 1, n);
    }
  }

  lemma Right12(x: bv64)
    ensures ShiftRight(x, 12) == x >> 12
  {
    Right6(x);
    Right6(x >> 6);
    RightTwice(x, 6, 6);
  }

  lemma Right10(x: bv64)
    ensures ShiftRight(x, 10) == x >> 10
  {
    Right6(x);
    assert ShiftRight(x >> 6, 4) == x >> 10;
    RightTwice(x, 6, 4);
  }

  lemma Right21(x: bv64)
    ensures ShiftRight(x, 21) == x >> 21
  {
    Right12(x);
    assert ShiftRight(x >> 12, 3) == x >> 15;
    RightTwice(x, 12, 3);
    Right6(x >> 15);
    RightTwice(x, 15, 6);
  }

  lemma Right30(x: bv64)
    ensures ShiftRight(x, 30) == x >> 30
  {
    Right12(x);
    Right12(x >> 12);
    RightTwice(x, 12, 12);
    Right6(x >> 24);
    RightTwice(x, 24, 6);
  }

  lemma Right32(x: bv64)
    ensures ShiftRight(x, 32) == x >> 32
  {
    Right30(x);
    assert ShiftRight(x >> 30, 2) == x >> 32;
    RightTwice(x, 30, 2);
  }

  lemma Right60(x: bv64)
    ensures ShiftRight(x, 60) == x >> 60
  {
    Right30(x);
    Right30(x >> 30);
    RightTwice(x, 30, 30);
  }

  lemma Powers36()
    ensures Pow2(6) == 64 && Pow2(7) == 128 && Pow2(9) == 512 && Pow2(10) == 1024 && Pow2(12) == 4096
    ensures Pow2(18) == 0x4_0000 && Pow2(20) == 0x10_0000 && Pow2(21) == 0x20_0000 && Pow2(30) == 0x4000_0000
  {
    assert Pow2(6) == 64;
    assert Pow2(12) == 4096;
    assert Pow2(18) == 0x4_0000;
    assert Pow2(24) == 0x100_0000;
  }

  lemma PowersTop()
    ensures Pow2(32) == 0x1_0000_0000 && Pow2(44) == 0x1000_0000_0000 && Pow2(60) == 0x1000_0000_0000_0000
  {
    Masks32();
    Powers();
    assert Pow2(44) == 32 * Pow2(39);
    assert Pow2(57) == Pow2(63) / 64;
  }

  lemma RemainderOfLow(n: nat, k: nat)
    ensures Pow2(k) > 0 && LowBits(n, k) == n % Pow2(k)
  {
    hide LowBits, HighBits, Pow2, Times, Quotient;
    LowBitsAre(n, k);
    QuotientUnique(n, Pow2(k), HighBits(n, k));
    RemainderIs(n, Pow2(k));
  }

  lemma RemainderIs(n: int, d: int)
    requires d > 0
    ensures n % d == n - Times(Quotient(n, d), d)
  {}

  lemma QuotientIs(n: int, d: int)
    requires d > 0
    ensures Quotient(n, d) == n / d
  {}

  // k bits from bit n on.
  lemma CutNumber(x: bv64, n: nat, k: nat)
    ensures Pow2(n) > 0 && Pow2(k) > 0
    ensures Unsigned(Masked(ShiftRight(x, n), LowMask(k))) == Unsigned(x) / Pow2(n) % Pow2(k)
  {
    hide Unsigned, Masked, ShiftRight, LowMask, LowBits, Pow2, Quotient;
    MaskedNumber(ShiftRight(x, n), k);
    ShiftRightDivides(x, n);
    QuotientIs(Unsigned(x), Pow2(n));
    RemainderOfLow(Unsigned(ShiftRight(x, n)), k);
  }

  // --- the walk ---

  lemma NineBitMask()
    ensures LowMask(9) == 0x1FF
  {}

  lemma VpnsAreCuts(va: bv64)
    ensures VpnsOf(va)[0] == Masked(va >> 12, 0x1FF) && VpnsOf(va)[1] == Masked(va >> 21, 0x1FF)
    ensures VpnsOf(va)[2] == Masked(va >> 30, 0x1FF)
  {}

  function PageBytes(level: Level): nat
  {
    match level
    case 0 => 0x1000
    case 1 => 0x20_0000
    case _ => 0x4000_0000
  }

  // VPN[l] counts pages of level l, modulo 512.
  lemma VpnIsQuotient(va: bv64, level: Level)
    ensures Unsigned(VpnsOf(va)[level]) == Unsigned(va) / PageBytes(level) % 512
  {
    NineBitMask();
    Powers36();
    hide Unsigned, VpnsOf, Masked, ShiftRight, LowMask, Pow2;
    VpnsAreCuts(va);
    match level
    case 0 =>
      Right12(va);
      CutNumber(va, 12, 9);
    case 1 =>
      Right21(va);
      CutNumber(va, 21, 9);
    case _ =>
      Right30(va);
      CutNumber(va, 30, 9);
  }

  // So are the indices map_page uses.
  lemma IndexIsQuotient(c: Call, level: Level)
    ensures Unsigned(c.Index(level)) == Unsigned(c.va) / PageBytes(level) % 512
  {
    hide Unsigned, VpnsOf;
    VpnIsQuotient(c.va, level);
  }

  lemma ScaledWord(x: bv64)
    ensures x * PTE_SIZE == ShiftLeft(x, 3)
  {}

  lemma PagesOf(x: bv64)
    ensures x * PAGE_SIZE == ShiftLeft(x, 12)
  {
    assert ShiftLeft(x, 12) == ShiftLeft(x << 6, 6);
  }

  lemma EntryIsSum(base: bv64, i: bv64)
    ensures PteAddr(base, i) == Plus(base, i * PTE_SIZE)
  {}

  // Entry i of a table.
  lemma EntryAddress(base: bv64, i: bv64)
    ensures Unsigned(PteAddr(base, i)) == (Unsigned(base) + 8 * Unsigned(i)) % WORD_LIMIT
  {
    assert Pow2(3) == 8;
    hide Unsigned, ShiftLeft, Plus, Pow2, PteAddr;
    EntryIsSum(base, i);
    ScaledWord(i);
    ShiftLeftMultiplies(i, 3);
    UnsignedSum(base, ShiftLeft(i, 3));
    SumWraps(Unsigned(base), 8 * Unsigned(i));
  }

  lemma SumWraps(a: int, b: int)
    ensures (a + b % WORD_LIMIT) % WORD_LIMIT == (a + b) % WORD_LIMIT
  {}

  // The table an entry points to.
  lemma NextTableAddress(pte: bv64)
    ensures Unsigned(NextTable(pte)) == Unsigned(pte) / 1024 * 4096 % WORD_LIMIT
  {
    Powers36();
    hide Unsigned, ShiftLeft, ShiftRight, Pow2, Quotient;
    Right10(pte);
    ShiftRightDivides(pte, 10);
    QuotientIs(Unsigned(pte), 1024);
    PagesOf(pte >> 10);
    ShiftLeftMultiplies(pte >> 10, 12);
  }

  // --- satp ---

  lemma SatpMasks()
    ensures LowMask(44) == 0xFFF_FFFF_FFFF && LowMask(4) == 0xF && Pow2(4) == 16
  {
    Masks39();
  }

  lemma SatpCuts(satp: bv64)
    ensures Mode(satp) == Masked(satp >> 60, 0xF) && RootTable(satp) == Masked(satp, 0xFFF_FFFF_FFFF) * PAGE_SIZE
  {}

  lemma NoShift(x: bv64)
    ensures ShiftRight(x, 0) == x
  {}

  lemma ModeIsTop(satp: bv64)
    ensures Unsigned(Mode(satp)) == Unsigned(satp) / 0x1000_0000_0000_0000 % 16
  {
    SatpMasks();
    PowersTop();
    hide Unsigned, Mode, Masked, ShiftRight, LowMask, Pow2;
    SatpCuts(satp);
    Right60(satp);
    CutNumber(satp, 60, 4);
  }

  lemma ModeNumbers()
    ensures Unsigned(0) == 0 && Unsigned(8) == 8
  {}

  // Mode 0 translates nothing, mode 8 walks the tables, and any other mode faults.
  lemma ModeDecides(mem: Mem, satp: bv64, va: bv64)
    ensures var mode := Unsigned(satp) / 0x1000_0000_0000_0000 % 16;
            Translate(mem, satp, va) ==
              if mode == 0 then Some(va)
              else if mode == 8 then
                match Walk(mem, RootTable(satp), VpnsOf(va), TOP)
                case PageFault => None
                case Leaf(pte, level) => Some(LeafPa(pte, va, level))
              else None
  {
    ModeNumbers();
    hide Unsigned, Mode, Walk, LeafPa, RootTable, VpnsOf;
    ModeIsTop(satp);
    if Unsigned(Mode(satp)) == 0 {
      UnsignedInjective(Mode(satp), 0);
    }
    if Unsigned(Mode(satp)) == 8 {
      UnsignedInjective(Mode(satp), 8);
    }
  }

  lemma RootIsLow(satp: bv64)
    ensures Unsigned(RootTable(satp)) == Unsigned(satp) % 0x1000_0000_0000 * 4096
  {
    SatpMasks();
    PowersTop();
    Powers36();
    hide Unsigned, RootTable, Masked, ShiftRight, ShiftLeft, LowMask, Pow2;
    SatpCuts(satp);
    NoShift(satp);
    MaskedNumber(satp, 44);
    RemainderOfLow(Unsigned(satp), 44);
    PagesOf(Masked(satp, 0xFFF_FFFF_FFFF));
    ShiftLeftMultiplies(Masked(satp, 0xFFF_FFFF_FFFF), 12);
  }

  // --- the TLBs ---

  lemma SixBitMask()
    ensures LowMask(6) == 63
  {}

  lemma HashIsCut(va: bv64)
    ensures TlbHash(va) == Unsigned(Masked(va >> 12, 63))
  {}

  // The slot is the page number modulo the number of slots.
  lemma HashIsRemainder(va: bv64)
    ensures TlbHash(va) == Unsigned(va) / 4096 % TLB_SIZE
  {
    SixBitMask();
    Powers36();
    hide Unsigned, TlbHash, Masked, ShiftRight, LowMask, Pow2;
    HashIsCut(va);
    Right12(va);
    CutNumber(va, 12, 6);
  }

  lemma TagMasks()
    ensures LowMask(20) == 0xF_FFFF && LowMask(11) == 0x7FF && LowMask(2) == 3 && Pow2(11) == 2048 && Pow2(2) == 4
  {
    assert LowMask(10) == 0x3FF;
  }

  lemma PageTag(va: bv64)
    ensures TagOf(va, 0x1000) == Masked(va >> 12, 0xF_FFFF)
  {}

  lemma MegaTag(va: bv64)
    ensures TagOf(va, 0x20_0000) == Masked(va >> 21, 0x7FF) << 9
  {}

  lemma GigaTag(va: bv64)
    ensures TagOf(va, 0x4000_0000) == Masked(va >> 30, 3) << 18
  {}

  lemma Left9(x: bv64)
    ensures x << 9 == ShiftLeft(x, 9)
  {}

  lemma Left18(x: bv64)
    ensures x << 18 == ShiftLeft(x, 18)
  {
    Left9(x);
    assert ShiftLeft(x, 18) == ShiftLeft(x << 6, 12);
    assert ShiftLeft(x << 6, 12) == ShiftLeft(x << 12, 6);
  }

  lemma PageTagNumber(va: bv64)
    ensures Unsigned(TagOf(va, 0x1000)) == Unsigned(va) / 0x1000 % 0x10_0000
  {
    TagMasks();
    Powers36();
    hide Unsigned, TagOf, Masked, ShiftRight, LowMask, Pow2;
    PageTag(va);
    Right12(va);
    CutNumber(va, 12, 20);
  }

  lemma MegaTagNumber(va: bv64)
    ensures Unsigned(TagOf(va, 0x20_0000)) == Unsigned(va) / 0x20_0000 % 2048 * 512
  {
    TagMasks();
    Powers36();
    hide Unsigned, TagOf, Masked, ShiftRight, ShiftLeft, LowMask, Pow2;
    MegaTag(va);
    Right21(va);
    CutNumber(va, 21, 11);
    Left9(Masked(va >> 21, 0x7FF));
    ShiftLeftMultiplies(Masked(va >> 21, 0x7FF), 9);
  }

  lemma GigaTagNumber(va: bv64)
    ensures Unsigned(TagOf(va, 0x4000_0000)) == Unsigned(va) / 0x4000_0000 % 4 * 0x4_0000
  {
    TagMasks();
    Powers36();
    hide Unsigned, TagOf, Masked, ShiftRight, ShiftLeft, LowMask, Pow2;
    GigaTag(va);
    Right30(va);
    CutNumber(va, 30, 2);
    Left18(Masked(va >> 30, 3));
    ShiftLeftMultiplies(Masked(va >> 30, 3), 18);
  }

  lemma LowOf(n: int, p: int, x: int)
    requires n == p * 0x1_0000_0000 + x && 0 <= x < 0x1_0000_0000
    ensures n % 0x1_0000_0000 == x
  {}

  lemma CutOfLowPage(n: nat)
    ensures n / 0x1000 % 0x10_0000 == n % 0x1_0000_0000 / 0x1000
  {
    var q, r := n / 0x1000, n % 0x1000;
    LowOf(n, q / 0x10_0000, q % 0x10_0000 * 0x1000 + r);
  }

  lemma CutOfLowMega(n: nat)
    ensures n / 0x20_0000 % 2048 == n % 0x1_0000_0000 / 0x20_0000
  {
    var q, r := n / 0x20_0000, n % 0x20_0000;
    LowOf(n, q / 2048, q % 2048 * 0x20_0000 + r);
  }

  lemma CutOfLowGiga(n: nat)
    ensures n / 0x4000_0000 % 4 == n % 0x1_0000_0000 / 0x4000_0000
  {
    var q, r := n / 0x4000_0000, n % 0x4000_0000;
    LowOf(n, q / 4, q % 4 * 0x4000_0000 + r);
  }

  // The tag is the first page number of the (super)page that holds the low 32 bits of the address.
  lemma TagIsFloor(va: bv64, level: Level)
    ensures Unsigned(TagOf(va, PageSizeOf(level)))
         == Unsigned(va) % 0x1_0000_0000 / PageBytes(level) * (PageBytes(level) / 4096)
  {
    hide Unsigned, TagOf;
    match level
    case 0 =>
      PageTagNumber(va);
      CutOfLowPage(Unsigned(va));
    case 1 =>
      MegaTagNumber(va);
      CutOfLowMega(Unsigned(va));
    case _ =>
      GigaTagNumber(va);
      CutOfLowGiga(Unsigned(va));
  }

  lemma SevenBitMask()
    ensures LowMask(7) == 0x7F
  {}

  lemma UpperIsCut(va: bv64)
    ensures UpperVpn(va) == Masked(va >> 32, 0x7F)
  {}

  // Bits 38:32.
  lemma UpperIsQuotient(va: bv64)
    ensures Unsigned(UpperVpn(va)) == Unsigned(va) / 0x1_0000_0000 % 128
  {
    SevenBitMask();
    Powers36();
    PowersTop();
    hide Unsigned, UpperVpn, Masked, ShiftRight, LowMask, Pow2;
    UpperIsCut(va);
    Right32(va);
    CutNumber(va, 32, 7);
  }
}
