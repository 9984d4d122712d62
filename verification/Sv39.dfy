/** The three-level Sv39 page walk, without any TLB. */
module Sv39 {
  import opened Bits
  import opened Memory

  const PAGE_SIZE: bv64 := 4096
  const PTE_SIZE: bv64 := 8
  const PTE_V: bv64 := 1
  const PTE_R: bv64 := 2
  const PTE_W: bv64 := 4
  const PTE_X: bv64 := 8
  const LEVELS := 3
  const SV39_MODE: bv64 := 8

  type Level = l: nat | l < LEVELS

  const TOP: Level := LEVELS - 1

  datatype WalkResult = PageFault | Leaf(pte: bv64, level: Level)

  // The three VPN fields of an address, lowest first.
  type Vpns = v: seq<bv64> | |v| == LEVELS witness [0, 0, 0]

  function VpnsOf(va: bv64): Vpns { [(va >> 12) & 0x1FF, (va >> 21) & 0x1FF, (va >> 30) & 0x1FF] }

  function PageSizeOf(level: Level): bv64
  {
    match level
    case 0 => 0x1000
    case 1 => 0x20_0000
    case _ => 0x4000_0000
  }

  function PteAddr(base: bv64, vpn: bv64): bv64 { base + vpn * PTE_SIZE }

  function NextTable(pte: bv64): bv64 { (pte >> 10) * PAGE_SIZE }

  predicate Faulting(pte: bv64)
  {
    pte & PTE_V != PTE_V || (pte & PTE_R != PTE_R && pte & PTE_W == PTE_W)
  }

  // The second disjunct compares the X bit with the R mask, so it never holds.
  predicate IsLeaf(pte: bv64) { pte & PTE_R == PTE_R || pte & PTE_X == PTE_R }

  function ReadPte(mem: Mem, a: bv64): bv64 { Read(mem, a, 8) }

  // The loop of the walker, entered at `level` with table `base`.
  function Walk(mem: Mem, base: bv64, vpn: Vpns, level: Level): WalkResult
    decreases level
  {
    var pte := ReadPte(mem, PteAddr(base, vpn[level]));
    if Faulting(pte) then PageFault
    else if IsLeaf(pte) then Leaf(pte, level)
    else if level == 0 then PageFault
    else Walk(mem, NextTable(pte), vpn, level - 1)
  }

  // The physical address built from a leaf: VPN[j] replaces PPN[j] below the leaf's level.
  function LeafPa(pte: bv64, va: bv64, level: Level): bv64
  {
    var ppnAll := pte >> 10;
    var ppn0 := if level > 0 then VpnsOf(va)[0] else ppnAll & 0x1FF;
    var ppn1 := if level > 1 then VpnsOf(va)[1] else (ppnAll >> 9) & 0x1FF;
    var ppn2 := ppnAll >> 18;
    (((ppn2 << 18) | (ppn1 << 9) | ppn0) << 12) | (va & (PAGE_SIZE - 1))
  }

  // satp fields.
  function Mode(satp: bv64): bv64 { (satp >> 60) & 0xF }
  function RootTable(satp: bv64): bv64 { (satp & 0xFFF_FFFF_FFFF) * PAGE_SIZE }

  // Address translation as every access sees it, a TLB aside.
  function Translate(mem: Mem, satp: bv64, va: bv64): Option<bv64>
  {
    if Mode(satp) == 0 then Some(va)
    else if Mode(satp) != SV39_MODE then None
    else
      match Walk(mem, RootTable(satp), VpnsOf(va), TOP)
      case PageFault => None
      case Leaf(pte, level) => Some(LeafPa(pte, va, level))
  }

  // The addresses of the page-table entries a walk reads, in order.
  function Reads(mem: Mem, base: bv64, vpn: Vpns, level: Level): seq<bv64>
    decreases level
  {
    var a := PteAddr(base, vpn[level]);
    var pte := ReadPte(mem, a);
    if Faulting(pte) || IsLeaf(pte) || level == 0 then [a]
    else [a] + Reads(mem, NextTable(pte), vpn, level - 1)
  }

  // The offset bits inside a (super)page of the given level.
  function OffsetMask(level: Level): bv64
  {
    match level
    case 0 => 0xFFF
    case 1 => 0x1F_FFFF
    case _ => 0x3FFF_FFFF
  }

  function Splice(ppn: bv64, va: bv64, mask: bv64): bv64 { ((ppn << 12) & !mask) | (va & mask) }

  // On success the address keeps va's offset inside the (super)page and takes every
  // higher bit from the leaf's PPN, modulo 2^64.
  lemma LeafPaSplits(pte: bv64, va: bv64, level: Level)
    ensures LeafPa(pte, va, level) == Splice(pte >> 10, va, OffsetMask(level))
  {
    hide Splice;
    match level
    case 0 => LeafPaPage(pte, va);
    case 1 => LeafPaMega(pte, va);
    case _ => LeafPaGiga(pte, va);
  }

  lemma LeafPaPage(pte: bv64, va: bv64)
    ensures LeafPa(pte, va, 0) == Splice(pte >> 10, va, 0xFFF)
  {}

  lemma LeafPaMega(pte: bv64, va: bv64)
    ensures LeafPa(pte, va, 1) == Splice(pte >> 10, va, 0x1F_FFFF)
  {}

  lemma LeafPaGiga(pte: bv64, va: bv64)
    ensures LeafPa(pte, va, 2) == Splice(pte >> 10, va, 0x3FFF_FFFF)
  {}

  // A walk reads one entry per level at most, starting with one of the root table.
  lemma {:induction false} AtMostThreeReads(mem: Mem, base: bv64, vpn: Vpns, level: Level)
    ensures 1 <= |Reads(mem, base, vpn, level)| <= level + 1
    ensures Reads(mem, base, vpn, level)[0] == PteAddr(base, vpn[level])
    decreases level
  {
    hide NextTable, PteAddr, ReadPte;
    if level != 0 {
      AtMostThreeReads(mem, NextTable(ReadPte(mem, PteAddr(base, vpn[level]))), vpn, level - 1);
    }
  }

  // A walk depends on no other part of memory.
  lemma {:induction false} WalkReadsOnly(m1: Mem, m2: Mem, base: bv64, vpn: Vpns, level: Level)
    requires forall a | a in Reads(m1, base, vpn, level) :: ReadPte(m2, a) == ReadPte(m1, a)
    ensures Walk(m2, base, vpn, level) == Walk(m1, base, vpn, level)
    decreases level
  {
    hide NextTable, PteAddr, ReadPte;
    var a := PteAddr(base, vpn[level]);
    var pte := ReadPte(m1, a);
    AtMostThreeReads(m1, base, vpn, level);
    assert ReadPte(m2, a) == pte;
    if !(Faulting(pte) || IsLeaf(pte) || level == 0) {
      var next := NextTable(pte);
      assert Reads(m1, base, vpn, level) == [a] + Reads(m1, next, vpn, level - 1);
      WalkReadsOnly(m1, m2, next, vpn, level - 1);
    }
  }

  // Which page-table entry a walk ends at is decided by the VPN fields from the leaf's level up.
  lemma {:induction false} WalkSharedPage(mem: Mem, base: bv64, vpn: Vpns, vpn': Vpns, level: Level)
    requires Walk(mem, base, vpn, level).Leaf?
    requires forall l: Level | Walk(mem, base, vpn, level).level <= l :: vpn'[l] == vpn[l]
    ensures Walk(mem, base, vpn', level) == Walk(mem, base, vpn, level)
    ensures Walk(mem, base, vpn, level).level <= level
    decreases level
  {
    hide NextTable, ReadPte;
    var pte := ReadPte(mem, PteAddr(base, vpn[level]));
    if !IsLeaf(pte) {
      WalkSharedPage(mem, NextTable(pte), vpn, vpn', level - 1);
    }
    assert vpn'[level] == vpn[level];
  }

  // R alone makes a leaf: the X bit cannot equal the R mask.
  lemma LeafMeansReadable(pte: bv64)
    ensures IsLeaf(pte) <==> pte & 2 == 2
  {
    assert pte & 8 != 2;
  }

  // What the flags of an entry say: V, R and W in bits 0, 1 and 2. A valid pointer has V alone of
  // the three.
  predicate LeafFlags(pte: bv64) { pte & 3 == 3 }
  predicate PointerFlags(pte: bv64) { pte & 7 == 1 }

  lemma FlagsOf(pte: bv64)
    ensures !Faulting(pte) && IsLeaf(pte) <==> LeafFlags(pte)
    ensures !Faulting(pte) && !IsLeaf(pte) <==> PointerFlags(pte)
  {}

  // Reads `r` end the walk with `w`: the last entry read decides. A leaf succeeds at its level; the
  // walk faults exactly when V is clear, or R is and either W is set or it is at the bottom. All
  // entries before it are valid pointers.
  ghost predicate EndWith(mem: Mem, r: seq<bv64>, w: WalkResult, level: Level)
  {
    0 < |r| <= level + 1 &&
    var p := ReadPte(mem, r[|r| - 1]);
    w == (if p & 3 == 3 then Leaf(p, level + 1 - |r|) else PageFault) &&
    (w.PageFault? <==> p & 1 == 0 || p & 6 == 4 || (|r| == level + 1 && p & 2 == 0)) &&
    forall k | 0 <= k < |r| - 1 :: ReadPte(mem, r[k]) & 7 == 1
  }

  lemma LastEntry(p: bv64, w: WalkResult, level: Level, bottom: bool)
    requires w == (if LeafFlags(p) then Leaf(p, level) else PageFault) && (PointerFlags(p) ==> bottom)
    ensures w == (if p & 3 == 3 then Leaf(p, level) else PageFault)
    ensures w.PageFault? <==> p & 1 == 0 || p & 6 == 4 || (bottom && p & 2 == 0)
  {}

  lemma OneMoreRead(mem: Mem, a: bv64, rest: seq<bv64>, w: WalkResult, level: Level)
    requires level > 0 && EndWith(mem, rest, w, level - 1) && ReadPte(mem, a) & 7 == 1
    ensures EndWith(mem, [a] + rest, w, level)
  {
    hide ReadPte;
    assert forall k | 1 <= k < |[a] + rest| :: ([a] + rest)[k] == rest[k - 1];
  }

  lemma {:induction false} LastReadDecides(mem: Mem, base: bv64, vpn: Vpns, level: Level)
    ensures EndWith(mem, Reads(mem, base, vpn, level), Walk(mem, base, vpn, level), level)
    decreases level
  {
    hide NextTable, PteAddr, ReadPte, Faulting, IsLeaf;
    var a := PteAddr(base, vpn[level]);
    var pte := ReadPte(mem, a);
    FlagsOf(pte);
    if Faulting(pte) || IsLeaf(pte) || level == 0 {
      LastEntry(pte, Walk(mem, base, vpn, level), level, level == 0);
    } else {
      var rest := Reads(mem, NextTable(pte), vpn, level - 1);
      LastReadDecides(mem, NextTable(pte), vpn, level - 1);
      OneMoreRead(mem, a, rest, Walk(mem, base, vpn, level), level);
      assert Reads(mem, base, vpn, level) == [a] + rest;
    }
  }
}
