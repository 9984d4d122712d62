/** The three TLBs and the translation fast path in front of the Sv39 walk. */
module Mmu {
  import opened Bits
  import opened Numbers
  import opened Memory
  import opened Sv39

  datatype Access = Fetch | Load | Store

  const TLB_SIZE := 64

  datatype TlbEntry = TlbEntry(tag: bv64, ppn: bv64, pageSize: bv64, valid: bool) {
    predicate Match(va: bv64) { valid && TagOf(va, pageSize) == tag }
  }

  // `page_size` is a 32-bit quantity, so the mask clears bits 63:32 as well.
  function TagOf(va: bv64, pageSize: bv64): bv64 { (va & (!(pageSize - 1) & 0xFFFF_FFFF)) >> 12 }

  function TlbHash(va: bv64): (i: nat)
    ensures i < TLB_SIZE
  {
    HashBound(va);
    Unsigned((va >> 12) & 63)
  }

  lemma HashBound(va: bv64)
    ensures Unsigned((va >> 12) & 63) < TLB_SIZE
  {
    assert LowMask(6) == 63 && Pow2(6) == 64;
    hide Unsigned, LowMask, Pow2;
    HashWithin(va >> 12);
    UnsignedWithin((va >> 12) & 63, 6);
  }

  lemma HashWithin(page: bv64)
    ensures Within(page & 63, 63)
  {}

  function EntryFor(va: bv64, pa: bv64, pageSize: bv64): TlbEntry
  {
    TlbEntry(TagOf(va, pageSize), pa >> 12, pageSize, true)
  }

  // The address the hit path returns.
  function HitPa(ppn: bv64, pageSize: bv64, va: bv64): bv64 { (ppn << 12) | (va & (pageSize - 1)) }

  function HitPaFor(pa0: bv64, pageSize: bv64, va: bv64): bv64 { HitPa(pa0 >> 12, pageSize, va) }

  // Bits 38:32 of an address: the VPN bits a TLB tag does not see.
  function UpperVpn(va: bv64): bv64 { (va >> 32) & 0x7F }

  // The VPN bits that lie inside a (super)page of the given level.
  function InnerMask(level: Level): bv64
  {
    match level
    case 0 => 0
    case 1 => 0x1F_F000
    case _ => 0x3FFF_F000
  }

  // The right address pa with va0's bits under the mask ORed in.
  function Smeared(pa: bv64, va0: bv64, mask: bv64): bv64 { pa | (va0 & mask) }

  predicate Covered(va0: bv64, va: bv64, mask: bv64) { va0 & mask & !va == 0 }

  lemma SamePageFields(va0: bv64, va: bv64, level: Level)
    requires TagOf(va0, PageSizeOf(level)) == TagOf(va, PageSizeOf(level))
    requires UpperVpn(va0) == UpperVpn(va)
    ensures forall l: Level | level <= l :: VpnsOf(va)[l] == VpnsOf(va0)[l]
  {
    match level
    case 0 => SameTagPage(va0, va);
    case 1 => SameTagMega(va0, va);
    case _ => SameTagGiga(va0, va);
  }

  lemma SameTagPage(a: bv64, b: bv64)
    requires TagOf(a, 0x1000) == TagOf(b, 0x1000) && UpperVpn(a) == UpperVpn(b)
    ensures (a >> 12) & 0x1FF == (b >> 12) & 0x1FF
    ensures (a >> 21) & 0x1FF == (b >> 21) & 0x1FF
    ensures (a >> 30) & 0x1FF == (b >> 30) & 0x1FF
  {}

  lemma SameTagMega(a: bv64, b: bv64)
    requires TagOf(a, 0x20_0000) == TagOf(b, 0x20_0000) && UpperVpn(a) == UpperVpn(b)
    ensures (a >> 21) & 0x1FF == (b >> 21) & 0x1FF
    ensures (a >> 30) & 0x1FF == (b >> 30) & 0x1FF
  {}

  lemma SameTagGiga(a: bv64, b: bv64)
    requires TagOf(a, 0x4000_0000) == TagOf(b, 0x4000_0000) && UpperVpn(a) == UpperVpn(b)
    ensures (a >> 30) & 0x1FF == (b >> 30) & 0x1FF
  {}

  // What a hit on an entry inserted for va0 returns for va: the right address with va0's
  // in-superpage VPN bits ORed in.
  lemma HitAddress(pte: bv64, va0: bv64, va: bv64, level: Level)
    ensures HitPaFor(LeafPa(pte, va0, level), PageSizeOf(level), va)
         == Smeared(LeafPa(pte, va, level), va0, InnerMask(level))
  {
    hide LeafPa;
    LeafPaSplits(pte, va0, level);
    LeafPaSplits(pte, va, level);
    match level
    case 0 => HitPage(pte >> 10, va0, va);
    case 1 => HitMega(pte >> 10, va0, va);
    case _ => HitGiga(pte >> 10, va0, va);
  }

  lemma HitPage(q: bv64, va0: bv64, va: bv64)
    ensures HitPaFor(Splice(q, va0, 0xFFF), 0x1000, va) == Smeared(Splice(q, va, 0xFFF), va0, 0)
  {}

  lemma HitMega(q: bv64, va0: bv64, va: bv64)
    ensures HitPaFor(Splice(q, va0, 0x1F_FFFF), 0x20_0000, va) == Smeared(Splice(q, va, 0x1F_FFFF), va0, 0x1F_F000)
  {}

  lemma HitGiga(q: bv64, va0: bv64, va: bv64)
    ensures HitPaFor(Splice(q, va0, 0x3FFF_FFFF), 0x4000_0000, va)
         == Smeared(Splice(q, va, 0x3FFF_FFFF), va0, 0x3FFF_F000)
  {}

  // So the hit is right exactly when va has every one of those bits set itself.
  lemma HitRight(pte: bv64, va0: bv64, va: bv64, level: Level)
    ensures Smeared(LeafPa(pte, va, level), va0, InnerMask(level)) == LeafPa(pte, va, level)
       <==> Covered(va0, va, InnerMask(level))
  {
    LeafPaSplits(pte, va, level);
    match level
    case 0 => CoveredPage(pte >> 10, va0, va);
    case 1 => CoveredMega(pte >> 10, va0, va);
    case _ => CoveredGiga(pte >> 10, va0, va);
  }

  lemma CoveredPage(q: bv64, va0: bv64, va: bv64)
    ensures Smeared(Splice(q, va, 0xFFF), va0, 0) == Splice(q, va, 0xFFF)
    ensures Covered(va0, va, 0)
  {
    hide Splice, Smeared, Covered;
    NothingSmeared(Splice(q, va, 0xFFF), va0);
    NothingCovered(va0, va);
  }

  lemma NothingSmeared(pa: bv64, va0: bv64)
    ensures Smeared(pa, va0, 0) == pa
  {}

  lemma CoveredMega(q: bv64, va0: bv64, va: bv64)
    ensures Smeared(Splice(q, va, 0x1F_FFFF), va0, 0x1F_F000) == Splice(q, va, 0x1F_FFFF)
       <==> Covered(va0, va, 0x1F_F000)
  {
    OrAbsorbs(Splice(q, va, 0x1F_FFFF), va0, 0x1F_F000);
    assert va0 & 0x1F_F000 & !Splice(q, va, 0x1F_FFFF) == va0 & 0x1F_F000 & !va;
  }

  lemma CoveredGiga(q: bv64, va0: bv64, va: bv64)
    ensures Smeared(Splice(q, va, 0x3FFF_FFFF), va0, 0x3FFF_F000) == Splice(q, va, 0x3FFF_FFFF)
       <==> Covered(va0, va, 0x3FFF_F000)
  {
    OrAbsorbs(Splice(q, va, 0x3FFF_FFFF), va0, 0x3FFF_F000);
    assert va0 & 0x3FFF_F000 & !Splice(q, va, 0x3FFF_FFFF) == va0 & 0x3FFF_F000 & !va;
  }

  lemma OrAbsorbs(pa: bv64, va0: bv64, mask: bv64)
    ensures Smeared(pa, va0, mask) == pa <==> va0 & mask & !pa == 0
  {}

  datatype Context = Context(root: bv64, mode: bv64)

  datatype TranslateResult = Fault | Address(pa: bv64)

  // Entry e in slot i was filled by the walk of some address seen so far.
  ghost predicate Witnessed(e: TlbEntry, i: nat, mem: Mem, root: bv64, seen: iset<bv64>)
  {
    exists va0 | va0 in seen :: FilledBy(e, i, mem, root, va0)
  }

  ghost predicate FilledBy(e: TlbEntry, i: nat, mem: Mem, root: bv64, va0: bv64)
  {
    var w := Walk(mem, root, VpnsOf(va0), TOP);
    w.Leaf? && e == EntryFor(va0, LeafPa(w.pte, va0, w.level), PageSizeOf(w.level)) && TlbHash(va0) == i
  }

  ghost predicate Sound(entries: seq<TlbEntry>, mem: Mem, root: bv64, seen: iset<bv64>)
  {
    forall i | 0 <= i < |entries| && entries[i].valid :: Witnessed(entries[i], i, mem, root, seen)
  }

  // A lookup of va hits the entry that a walk of va0, a leaf at this level, filled.
  predicate Hits(va0: bv64, va: bv64, level: Level)
  {
    TlbHash(va) == TlbHash(va0) && TagOf(va, PageSizeOf(level)) == TagOf(va0, PageSizeOf(level))
  }

  // What that hit returns.
  function Hit(pte: bv64, va0: bv64, level: Level, va: bv64): TranslateResult
  {
    Address(HitPaFor(LeafPa(pte, va0, level), PageSizeOf(level), va))
  }

  // The answer for va is the walk's own, or a hit on the entry va0 filled.
  ghost predicate Answered(r: TranslateResult, mem: Mem, root: bv64, va: bv64, va0: bv64)
  {
    r == Uncached(mem, root, va) ||
    var w := Walk(mem, root, VpnsOf(va0), TOP);
    w.Leaf? && Hits(va0, va, w.level) && r == Hit(w.pte, va0, w.level, va)
  }

  // No entry that an address seen so far may have filled gives va a wrong answer.
  ghost predicate NoAlias(mem: Mem, root: bv64, seen: iset<bv64>, va: bv64)
  {
    forall va0 | va0 in seen ::
      var w := Walk(mem, root, VpnsOf(va0), TOP);
      w.Leaf? && Hits(va0, va, w.level) ==> UpperVpn(va0) == UpperVpn(va) && Covered(va0, va, InnerMask(w.level))
  }

  // A translation of va that was served by a walk of va0 (va itself on a miss).
  ghost predicate ServedBy(r: TranslateResult, mem: Mem, root: bv64, va: bv64, va0: bv64)
  {
    match Walk(mem, root, VpnsOf(va), TOP)
    case PageFault => r == Fault
    case Leaf(pte, level) => r == Address(Smeared(LeafPa(pte, va, level), va0, InnerMask(level)))
  }

  // The TLB-free answer.
  function Uncached(mem: Mem, root: bv64, va: bv64): TranslateResult
  {
    match Walk(mem, root, VpnsOf(va), TOP)
    case PageFault => Fault
    case Leaf(pte, level) => Address(LeafPa(pte, va, level))
  }

  // The TLB-free answer is the translation the hart's loads, stores and fetches are modelled by.
  lemma UncachedIsTranslate(mem: Mem, satp: bv64, va: bv64)
    requires Mode(satp) == SV39_MODE
    ensures Translate(mem, satp, va) ==
            match Uncached(mem, RootTable(satp), va)
            case Fault => None
            case Address(pa) => Some(pa)
  {}

  // A served translation is the TLB-free one for every 4 KiB page, and for a superpage exactly
  // when the address has all of va0's in-superpage VPN bits set.
  lemma ServedIsUncached(r: TranslateResult, mem: Mem, root: bv64, va: bv64, va0: bv64)
    requires ServedBy(r, mem, root, va, va0)
    ensures r == Uncached(mem, root, va) <==>
            match Walk(mem, root, VpnsOf(va), TOP)
            case PageFault => true
            case Leaf(pte, level) => level == 0 || Covered(va0, va, InnerMask(level))
  {
    match Walk(mem, root, VpnsOf(va), TOP)
    case PageFault =>
    case Leaf(pte, level) =>
      HitRight(pte, va0, va, level);
      if level == 0 {
        NothingCovered(va0, va);
      }
  }

  lemma NothingCovered(va0: bv64, va: bv64)
    ensures Covered(va0, va, 0)
  {}

  lemma OwnBitsCovered(va: bv64, mask: bv64)
    ensures Covered(va, va, mask)
  {}

  // A hit is served by the address that filled the entry, if the two share the bits the tags drop.
  lemma HitServed(e: TlbEntry, i: nat, mem: Mem, root: bv64, va0: bv64, va: bv64)
    requires FilledBy(e, i, mem, root, va0) && e.Match(va) && UpperVpn(va) == UpperVpn(va0)
    ensures ServedBy(Address(HitPa(e.ppn, e.pageSize, va)), mem, root, va, va0)
  {
    var w := Walk(mem, root, VpnsOf(va0), TOP);
    var pa0 := LeafPa(w.pte, va0, w.level);
    assert HitPa(e.ppn, e.pageSize, va) == HitPaFor(pa0, e.pageSize, va);
    SamePageFields(va0, va, w.level);
    WalkSharedPage(mem, root, VpnsOf(va0), VpnsOf(va), TOP);
    HitAddress(w.pte, va0, va, w.level);
  }

  // The walk of va, put into its slot, is a sound entry, and the walk itself serves va.
  lemma FilledEntry(mem: Mem, root: bv64, va: bv64, seen: iset<bv64>)
    requires Walk(mem, root, VpnsOf(va), TOP).Leaf? && va in seen
    ensures var w := Walk(mem, root, VpnsOf(va), TOP);
            Witnessed(EntryFor(va, LeafPa(w.pte, va, w.level), PageSizeOf(w.level)), TlbHash(va), mem, root, seen)
            && ServedBy(Address(LeafPa(w.pte, va, w.level)), mem, root, va, va)
  {
    hide LeafPa, Smeared, Covered, TagOf, TlbHash;
    var w := Walk(mem, root, VpnsOf(va), TOP);
    assert FilledBy(EntryFor(va, LeafPa(w.pte, va, w.level), PageSizeOf(w.level)), TlbHash(va), mem, root, va);
    HitRight(w.pte, va, va, w.level);
    OwnBitsCovered(va, InnerMask(w.level));
  }

  // A hit on a sound entry is the hit of some address seen.
  lemma SoundHit(entries: seq<TlbEntry>, mem: Mem, root: bv64, seen: iset<bv64>, va: bv64) returns (va0: bv64)
    requires Sound(entries, mem, root, seen) && |entries| == TLB_SIZE && entries[TlbHash(va)].Match(va)
    ensures var e := entries[TlbHash(va)];
            va0 in seen && Answered(Address(HitPa(e.ppn, e.pageSize, va)), mem, root, va, va0)
  {
    hide LeafPa, VpnsOf, HitPa, TagOf, TlbHash, Walk, Uncached;
    var e := entries[TlbHash(va)];
    assert Witnessed(e, TlbHash(va), mem, root, seen);
    va0 :| va0 in seen && FilledBy(e, TlbHash(va), mem, root, va0);
  }

  // Where no alias is possible the answer is the walk's own.
  lemma NoAliasIsRight(r: TranslateResult, mem: Mem, root: bv64, seen: iset<bv64>, va: bv64, va0: bv64)
    requires Answered(r, mem, root, va, va0) && va0 in seen && NoAlias(mem, root, seen, va)
    ensures r == Uncached(mem, root, va)
  {
    hide LeafPa, Hits, Hit, UpperVpn, Covered, VpnsOf, Walk, Uncached;
    if r != Uncached(mem, root, va) {
      HitIsServed(mem, root, va0, va);
      ServedIsUncached(r, mem, root, va, va0);
      SharedUpperWalks(mem, root, va0, va);
    }
  }

  lemma SharedUpperWalks(mem: Mem, root: bv64, va0: bv64, va: bv64)
    requires var w := Walk(mem, root, VpnsOf(va0), TOP); w.Leaf? && Hits(va0, va, w.level)
    requires UpperVpn(va0) == UpperVpn(va)
    ensures Walk(mem, root, VpnsOf(va), TOP) == Walk(mem, root, VpnsOf(va0), TOP)
  {
    hide TagOf, TlbHash, UpperVpn;
    SamePageFields(va0, va, Walk(mem, root, VpnsOf(va0), TOP).level);
    WalkSharedPage(mem, root, VpnsOf(va0), VpnsOf(va), TOP);
  }

  lemma HitIsServed(mem: Mem, root: bv64, va0: bv64, va: bv64)
    requires var w := Walk(mem, root, VpnsOf(va0), TOP); w.Leaf? && Hits(va0, va, w.level)
    requires UpperVpn(va0) == UpperVpn(va)
    ensures var w := Walk(mem, root, VpnsOf(va0), TOP);
            ServedBy(Hit(w.pte, va0, w.level, va), mem, root, va, va0)
  {
    hide LeafPa, HitPa, TagOf, TlbHash, UpperVpn, Walk, VpnsOf, ServedBy;
    var w := Walk(mem, root, VpnsOf(va0), TOP);
    HitServed(EntryFor(va0, LeafPa(w.pte, va0, w.level), PageSizeOf(w.level)), TlbHash(va0), mem, root, va0, va);
  }

  // Addresses on 4 KiB pages that share bits 38:32 have no aliases.
  lemma PagesHaveNoAlias(mem: Mem, root: bv64, seen: iset<bv64>, va: bv64)
    requires forall va0 | va0 in seen ::
               var w := Walk(mem, root, VpnsOf(va0), TOP);
               UpperVpn(va0) == UpperVpn(va) && (w.Leaf? ==> w.level == 0)
    ensures NoAlias(mem, root, seen, va)
  {
    hide Walk, VpnsOf, Hits, UpperVpn, Covered;
    forall va0 | va0 in seen
      ensures Covered(va0, va, InnerMask(0))
    {
      NothingCovered(va0, va);
    }
  }

  class Tlb {
    const entries: array<TlbEntry>

    constructor ()
      ensures fresh(entries) && entries.Length == TLB_SIZE
      ensures forall i | 0 <= i < TLB_SIZE :: !entries[i].valid
    {
      entries := new TlbEntry[TLB_SIZE](_ => TlbEntry(0, 0, 0, false));
    }

    method Lookup(va: bv64) returns (hit: Option<TlbEntry>)
      requires entries.Length == TLB_SIZE
      ensures hit == if entries[TlbHash(va)].Match(va) then Some(entries[TlbHash(va)]) else None
    {
      var e := entries[TlbHash(va)];
      hit := if e.Match(va) then Some(e) else None;
    }

    method Insert(va: bv64, pa: bv64, pageSize: bv64)
      requires entries.Length == TLB_SIZE
      modifies entries
      ensures entries[..] == old(entries[..])[TlbHash(va) := EntryFor(va, pa, pageSize)]
    {
      entries[TlbHash(va)] := EntryFor(va, pa, pageSize);
    }

    method Flush()
      modifies entries
      ensures forall i | 0 <= i < entries.Length :: !entries[i].valid
    {
      for i := 0 to entries.Length
        invariant forall j | 0 <= j < i :: !entries[j].valid
      {
        entries[i] := entries[i].(valid := false);
      }
    }
  }

  class Mmu {
    var mem: Mem
    const itlb: Tlb
    const dtlbR: Tlb
    const dtlbW: Tlb

    ghost predicate Valid()
      reads this, itlb.entries, dtlbR.entries, dtlbW.entries
    {
      itlb.entries.Length == TLB_SIZE && dtlbR.entries.Length == TLB_SIZE && dtlbW.entries.Length == TLB_SIZE &&
      itlb.entries != dtlbR.entries && itlb.entries != dtlbW.entries && dtlbR.entries != dtlbW.entries
    }

    // Every valid entry of every TLB was filled from the tables at root, by an address seen.
    ghost predicate Coherent(root: bv64, seen: iset<bv64>)
      reads this, itlb.entries, dtlbR.entries, dtlbW.entries
    {
      Valid() && Sound(itlb.entries[..], mem, root, seen) && Sound(dtlbR.entries[..], mem, root, seen) &&
      Sound(dtlbW.entries[..], mem, root, seen)
    }

    function TlbFor(access: Access): Tlb
    {
      match access
      case Fetch => itlb
      case Load => dtlbR
      case Store => dtlbW
    }

    constructor (m: Mem)
      ensures fresh(itlb.entries) && fresh(dtlbR.entries) && fresh(dtlbW.entries)
      ensures mem == m && Valid()
      ensures forall i | 0 <= i < TLB_SIZE ::
                !itlb.entries[i].valid && !dtlbR.entries[i].valid && !dtlbW.entries[i].valid
      ensures forall root, seen :: Coherent(root, seen)
    {
      mem := m;
      itlb := new Tlb();
      dtlbR := new Tlb();
      dtlbW := new Tlb();
    }

    method TranslateGeneric(va: bv64, access: Access, ctx: Context, ghost seen: iset<bv64>) returns (r: TranslateResult)
      requires Valid()
      modifies TlbFor(access).entries
      ensures Valid()
      ensures ctx.mode == 0 ==> r == Address(va)
      ensures ctx.mode != 0 && ctx.mode != SV39_MODE ==> r == Fault
      ensures ctx.mode == SV39_MODE ==> r == Uncached(mem, ctx.root, va)
      ensures ctx.mode != SV39_MODE ==> TlbFor(access).entries[..] == old(TlbFor(access).entries[..])
      ensures ctx.mode == SV39_MODE && va in seen && old(Coherent(ctx.root, seen)) ==> Coherent(ctx.root, seen)
    {
      hide LeafPa, VpnsOf, TlbHash, EntryFor, Sound, Walk, Witnessed, ServedBy;
      if ctx.mode == 0 {
        return Address(va);
      }
      if ctx.mode != SV39_MODE {
        return Fault;
      }
      var w := WalkTables(ctx.root, va);
      if w.PageFault? {
        return Fault;
      }
      var pa := LeafPa(w.pte, va, w.level);
      TlbFor(access).Insert(va, pa, PageSizeOf(w.level));
      if va in seen && old(Coherent(ctx.root, seen)) {
        FilledEntry(mem, ctx.root, va, seen);
        SoundInsert(old(TlbFor(access).entries[..]), TlbHash(va), EntryFor(va, pa, PageSizeOf(w.level)), mem, ctx.root,
          seen);
      }
      return Address(pa);
    }

    // The walker's loop.
    method WalkTables(root: bv64, va: bv64) returns (w: WalkResult)
      ensures w == Walk(mem, root, VpnsOf(va), TOP)
    {
      hide PteAddr, VpnsOf;
      var vpn := VpnsOf(va);
      var level: Level := TOP;
      var base := root;
      var pte := ReadPte(mem, PteAddr(base, vpn[level]));
      while !Faulting(pte) && !IsLeaf(pte)
        invariant pte == ReadPte(mem, PteAddr(base, vpn[level]))
        invariant Walk(mem, base, vpn, level) == Walk(mem, root, vpn, TOP)
        decreases level
      {
        if level == 0 {
          return PageFault;
        }
        level := level - 1;
        base := NextTable(pte);
        pte := ReadPte(mem, PteAddr(base, vpn[level]));
      }
      w := if Faulting(pte) then PageFault else Leaf(pte, level);
    }

    // Bare mode bypasses the TLBs. Under Sv39, in every coherent state, the answer is the walk's or
    // a hit on the entry some address seen has filled. In any other mode a hit still answers.
    method Translate(access: Access, va: bv64, ctx: Context, ghost seen: iset<bv64>) returns (r: TranslateResult,
            ghost va0: bv64)
      requires Valid()
      modifies TlbFor(access).entries
      ensures Valid()
      ensures ctx.mode == 0 ==> r == Address(va)
      ensures var e := old(TlbFor(access).entries[TlbHash(va)]);
              if ctx.mode != 0 && e.Match(va) then
                r == Address(HitPa(e.ppn, e.pageSize, va)) &&
                TlbFor(access).entries[..] == old(TlbFor(access).entries[..])
              else
                (ctx.mode == SV39_MODE ==> r == Uncached(mem, ctx.root, va)) &&
                (ctx.mode != 0 && ctx.mode != SV39_MODE ==> r == Fault)
      ensures ctx.mode == SV39_MODE && va in seen && old(Coherent(ctx.root, seen)) ==>
                va0 in seen && Answered(r, mem, ctx.root, va, va0) && Coherent(ctx.root, seen)
      ensures ctx.mode != SV39_MODE ==> TlbFor(access).entries[..] == old(TlbFor(access).entries[..])
    {
      hide VpnsOf, TlbHash, EntryFor, HitPa, TlbEntry.Match, Walk, Sound, Uncached, Hits, Hit;
      va0 := va;
      if ctx.mode == 0 {
        return Address(va), va;
      }
      var hit := TlbFor(access).Lookup(va);
      if hit.Some? {
        var e := hit.value;
        if Coherent(ctx.root, seen) {
          va0 := SoundHit(TlbFor(access).entries[..], mem, ctx.root, seen, va);
        }
        return Address(HitPa(e.ppn, e.pageSize, va)), va0;
      }
      r := TranslateGeneric(va, access, ctx, seen);
    }

    // A store outside the entries the walks read keeps the TLBs coherent.
    method MemStore(pa: bv64, value: bv64, size: nat, ghost root: bv64, ghost seen: iset<bv64>)
      requires Valid()
      modifies this`mem
      ensures mem == Write(old(mem), pa, value, size)
      ensures old(Coherent(root, seen)) && SparesTables(old(mem), root, pa, size) ==> Coherent(root, seen)
    {
      ghost var m0 := mem;
      mem := Write(mem, pa, value, size);
      if old(Coherent(root, seen)) && SparesTables(m0, root, pa, size) {
        SparedWalks(m0, root, pa, value, size);
        SoundTransfers(itlb.entries[..], m0, mem, root, seen);
        SoundTransfers(dtlbR.entries[..], m0, mem, root, seen);
        SoundTransfers(dtlbW.entries[..], m0, mem, root, seen);
      }
    }
  }

  // The bytes lie in no page-table entry that a walk from root reads.
  ghost predicate SparesTables(mem: Mem, root: bv64, pa: bv64, size: nat)
  {
    forall vpn: Vpns, a | a in Reads(mem, root, vpn, TOP) :: Span(a, 8) !! Span(pa, size)
  }

  lemma SparedWalks(m0: Mem, root: bv64, pa: bv64, value: bv64, size: nat)
    requires SparesTables(m0, root, pa, size)
    ensures forall vpn: Vpns :: Walk(Write(m0, pa, value, size), root, vpn, TOP) == Walk(m0, root, vpn, TOP)
  {
    var m1 := Write(m0, pa, value, size);
    forall vpn: Vpns
      ensures Walk(m1, root, vpn, TOP) == Walk(m0, root, vpn, TOP)
    {
      forall a | a in Reads(m0, root, vpn, TOP)
        ensures ReadPte(m1, a) == ReadPte(m0, a)
      {
        ReadAfterDisjointWrite(m0, a, 8, pa, value, size);
      }
      WalkReadsOnly(m0, m1, root, vpn, TOP);
    }
  }

  lemma SoundInsert(entries: seq<TlbEntry>, i: nat, e: TlbEntry, mem: Mem, root: bv64, seen: iset<bv64>)
    requires Sound(entries, mem, root, seen) && i < |entries| && Witnessed(e, i, mem, root, seen)
    ensures Sound(entries[i := e], mem, root, seen)
  {}

  lemma SoundTransfers(entries: seq<TlbEntry>, m0: Mem, m1: Mem, root: bv64, seen: iset<bv64>)
    requires Sound(entries, m0, root, seen)
    requires forall vpn: Vpns :: Walk(m1, root, vpn, TOP) == Walk(m0, root, vpn, TOP)
    ensures Sound(entries, m1, root, seen)
  {
    forall i | 0 <= i < |entries| && entries[i].valid
      ensures Witnessed(entries[i], i, m1, root, seen)
    {
      assert Witnessed(entries[i], i, m0, root, seen);
      var va0 :| va0 in seen && FilledBy(entries[i], i, m0, root, va0);
      assert FilledBy(entries[i], i, m1, root, va0);
    }
  }
}
