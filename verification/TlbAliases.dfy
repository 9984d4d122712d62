/** When a TLB answers for an address other than the one that filled the entry: the tags drop bits
    63:32, and exactly which addresses the hit is then wrong for. */
module TlbAliases {
  import opened Bits
  import opened Memory
  import opened Sv39
  import opened PageTables
  import M = Mmu

  function Nothing(): Mem { _ => 0 }

  lemma NothingReads(a: bv64)
    ensures ReadPte(Nothing(), a) == 0
  {
    NothingBelow(a, 8);
  }

  lemma {:induction false} NothingBelow(a: bv64, n: nat)
    ensures Read(Nothing(), a, n) == 0
    decreases n
  {
    hide Glue, Next;
    GlueNothing();
    if n > 0 {
      NothingBelow(Next(a), n - 1);
    }
  }

  lemma GlueNothing()
    ensures Glue(0, 0) == 0
  {}

  const TABLES := Layout(0x1000, 0x2000, 0x3000)

  // V and R, frame 0.
  const LEAF: bv64 := 3

  // Memory in which the walk of an address with these VPN fields is a leaf at the level, and the
  // only one there is.
  function OnlyLeaf(vpn: Vpns, level: Level): Mem
  {
    var m := SetPte(Nothing(), TABLES.l1, vpn[2], if level == 2 then LEAF else Link(TABLES.l2));
    if level == 2 then m
    else
      var m' := SetPte(m, TABLES.l2, vpn[1], if level == 1 then LEAF else Link(TABLES.l3));
      if level == 1 then m' else SetPte(m', TABLES.l3, vpn[0], LEAF)
  }

  lemma FieldsSmall(va: bv64)
    ensures VpnsOf(va)[0] < 512 && VpnsOf(va)[1] < 512 && VpnsOf(va)[2] < 512
  {}

  lemma TablesValid()
    ensures TABLES.Valid()
  {}

  // The root entry with index i of that memory.
  lemma RootEntry(vpn: Vpns, level: Level, i: bv64)
    requires vpn[0] < 512 && vpn[1] < 512 && vpn[2] < 512 && i < 512
    ensures ReadPte(OnlyLeaf(vpn, level), PteAddr(TABLES.l1, i))
         == if i == vpn[2] then (if level == 2 then LEAF else Link(TABLES.l2)) else 0
  {
    hide SetPte, ReadPte, PteAddr, Link, Aligned;
    TablesValid();
    var first := if level == 2 then LEAF else Link(TABLES.l2);
    var second := if level == 1 then LEAF else Link(TABLES.l3);
    var m := SetPte(Nothing(), TABLES.l1, vpn[2], first);
    NothingReads(PteAddr(TABLES.l1, i));
    ReadSlot(Nothing(), TABLES.l1, vpn[2], first, TABLES.l1, i);
    ReadSlot(m, TABLES.l2, vpn[1], second, TABLES.l1, i);
    ReadSlot(SetPte(m, TABLES.l2, vpn[1], second), TABLES.l3, vpn[0], LEAF, TABLES.l1, i);
  }

  lemma SecondEntry(vpn: Vpns, level: Level)
    requires vpn[0] < 512 && vpn[1] < 512 && vpn[2] < 512 && level < 2
    ensures ReadPte(OnlyLeaf(vpn, level), PteAddr(TABLES.l2, vpn[1])) == if level == 1 then LEAF else Link(TABLES.l3)
  {
    hide SetPte, ReadPte, PteAddr, Link, Aligned;
    TablesValid();
    var second := if level == 1 then LEAF else Link(TABLES.l3);
    var m := SetPte(Nothing(), TABLES.l1, vpn[2], Link(TABLES.l2));
    ReadSlot(m, TABLES.l2, vpn[1], second, TABLES.l2, vpn[1]);
    ReadSlot(SetPte(m, TABLES.l2, vpn[1], second), TABLES.l3, vpn[0], LEAF, TABLES.l2, vpn[1]);
  }

  lemma ThirdEntry(vpn: Vpns)
    requires vpn[0] < 512
    ensures ReadPte(OnlyLeaf(vpn, 0), PteAddr(TABLES.l3, vpn[0])) == LEAF
  {
    hide SetPte, ReadPte, PteAddr, Link, Aligned;
    TablesValid();
    var m := SetPte(Nothing(), TABLES.l1, vpn[2], Link(TABLES.l2));
    ReadSlot(SetPte(m, TABLES.l2, vpn[1], Link(TABLES.l3)), TABLES.l3, vpn[0], LEAF, TABLES.l3, vpn[0]);
  }

  lemma LeafIsLeaf()
    ensures !Faulting(LEAF) && IsLeaf(LEAF) && Faulting(0)
  {}

  lemma OnlyLeafWalks(vpn: Vpns, level: Level)
    requires vpn[0] < 512 && vpn[1] < 512 && vpn[2] < 512
    ensures Walk(OnlyLeaf(vpn, level), TABLES.l1, vpn, TOP) == Leaf(LEAF, level)
  {
    hide OnlyLeaf, ReadPte, NextTable, PteAddr, Link, Faulting, IsLeaf, Aligned;
    var m := OnlyLeaf(vpn, level);
    TablesValid();
    LeafIsLeaf();
    RootEntry(vpn, level, vpn[2]);
    if level < 2 {
      LinkIsPointer(TABLES.l2);
      LinkTarget(TABLES.l2);
      SecondEntry(vpn, level);
      if level == 0 {
        LinkIsPointer(TABLES.l3);
        LinkTarget(TABLES.l3);
        ThirdEntry(vpn);
        assert Walk(m, TABLES.l3, vpn, 0) == Leaf(LEAF, 0);
      }
      assert Walk(m, TABLES.l2, vpn, 1) == Leaf(LEAF, level);
    }
  }

  // Any other top field faults.
  lemma OthersFault(vpn: Vpns, level: Level, other: Vpns)
    requires vpn[0] < 512 && vpn[1] < 512 && vpn[2] < 512 && other[2] < 512 && other[2] != vpn[2]
    ensures Walk(OnlyLeaf(vpn, level), TABLES.l1, other, TOP) == PageFault
  {
    hide OnlyLeaf, ReadPte, PteAddr, Faulting, IsLeaf;
    LeafIsLeaf();
    RootEntry(vpn, level, other[2]);
  }

  lemma UpperIsInTopField(a: bv64, b: bv64)
    requires VpnsOf(a)[2] == VpnsOf(b)[2]
    ensures M.UpperVpn(a) == M.UpperVpn(b)
  {
    assert M.UpperVpn(a) == VpnsOf(a)[2] >> 2 && M.UpperVpn(b) == VpnsOf(b)[2] >> 2;
  }

  ghost predicate AlwaysServed(va0: bv64, va: bv64, level: Level)
  {
    forall mem, root, pte | Walk(mem, root, VpnsOf(va0), TOP) == Leaf(pte, level) ::
      M.ServedBy(M.Hit(pte, va0, level, va), mem, root, va, va0)
  }

  ghost predicate AlwaysRight(va0: bv64, va: bv64, level: Level)
  {
    forall mem, root, pte | Walk(mem, root, VpnsOf(va0), TOP) == Leaf(pte, level) ::
      M.Hit(pte, va0, level, va) == M.Uncached(mem, root, va)
  }

  lemma WitnessMemory(va0: bv64, va: bv64, level: Level)
    ensures Walk(OnlyLeaf(VpnsOf(va0), level), TABLES.l1, VpnsOf(va0), TOP) == Leaf(LEAF, level)
    ensures M.UpperVpn(va0) != M.UpperVpn(va) ==>
              Walk(OnlyLeaf(VpnsOf(va0), level), TABLES.l1, VpnsOf(va), TOP) == PageFault
  {
    hide OnlyLeaf, VpnsOf, M.UpperVpn;
    FieldsSmall(va0);
    FieldsSmall(va);
    OnlyLeafWalks(VpnsOf(va0), level);
    if M.UpperVpn(va0) != M.UpperVpn(va) {
      if VpnsOf(va)[2] == VpnsOf(va0)[2] {
        UpperIsInTopField(va0, va);
      }
      OthersFault(VpnsOf(va0), level, VpnsOf(va));
    }
  }

  // Whatever the tables, a hit is served as by the walk, up to superpage bits, if and only if the
  // two addresses agree in bits 38:32, which the tags drop.
  lemma ServedExactly(va0: bv64, va: bv64, level: Level)
    requires M.Hits(va0, va, level)
    ensures AlwaysServed(va0, va, level) <==> M.UpperVpn(va0) == M.UpperVpn(va)
  {
    hide OnlyLeaf, VpnsOf, M.UpperVpn, M.Hit, M.Hits, Walk;
    if M.UpperVpn(va0) == M.UpperVpn(va) {
      forall mem, root, pte | Walk(mem, root, VpnsOf(va0), TOP) == Leaf(pte, level)
        ensures M.ServedBy(M.Hit(pte, va0, level, va), mem, root, va, va0)
      {
        M.HitIsServed(mem, root, va0, va);
      }
    } else {
      WitnessMemory(va0, va, level);
      HitIsAddress(LEAF, va0, level, va);
    }
  }

  lemma HitIsAddress(pte: bv64, va0: bv64, level: Level, va: bv64)
    ensures M.Hit(pte, va0, level, va).Address?
  {}

  // And it is the walk's very answer if and only if, besides, va has all the in-superpage VPN bits
  // of va0.
  lemma RightExactly(va0: bv64, va: bv64, level: Level)
    requires M.Hits(va0, va, level)
    ensures AlwaysRight(va0, va, level) <==> M.UpperVpn(va0) == M.UpperVpn(va) && M.Covered(va0, va, M.InnerMask(level))
  {
    hide OnlyLeaf, VpnsOf, M.UpperVpn, M.Hit, M.Hits, Walk, M.Covered, LeafPa;
    if M.UpperVpn(va0) != M.UpperVpn(va) {
      WitnessMemory(va0, va, level);
      HitIsAddress(LEAF, va0, level, va);
    } else {
      forall mem, root, pte | Walk(mem, root, VpnsOf(va0), TOP) == Leaf(pte, level)
        ensures M.Hit(pte, va0, level, va) == M.Uncached(mem, root, va) <==> M.Covered(va0, va, M.InnerMask(level))
      {
        M.HitIsServed(mem, root, va0, va);
        M.SharedUpperWalks(mem, root, va0, va);
        M.ServedIsUncached(M.Hit(pte, va0, level, va), mem, root, va, va0);
        if level == 0 {
          M.NothingCovered(va0, va);
        }
      }
      WitnessMemory(va0, va, level);
    }
  }

  const ALIAS: bv64 := 0x1_0000_0000

  // After map_page of page 0 into empty memory, address 2^32 hits the entry that address 0 filled
  // and is answered with frame 0, though its walk faults.
  lemma AliasIsAnswered(layout: Layout)
    requires layout.Valid()
    ensures var m := MapPage(layout, Nothing(), Call(0, LEAF));
            var w := Walk(m, layout.l1, VpnsOf(0), TOP);
            w.Leaf? && w.level == 0 && M.Hits(0, ALIAS, 0) &&
            M.Hit(w.pte, 0, 0, ALIAS) == M.Address(0) && M.Uncached(m, layout.l1, ALIAS) == M.Fault
  {
    hide MapPage, Walk, Layout.Valid;
    var c := Call(0, LEAF);
    assert c.Valid() && c.Leaf() == LEAF && VpnsOf(0) == [0, 0, 0] && VpnsOf(ALIAS)[2] == 4;
    MappedOnce(layout, c);
    AliasFaults(layout, c);
    AliasHits();
  }

  lemma MappedOnce(layout: Layout, c: Call)
    requires layout.Valid() && c.Valid()
    ensures Walk(MapPage(layout, Nothing(), c), layout.l1, VpnsOf(c.va), TOP) == Leaf(c.Leaf(), 0)
  {
    hide MapPage, Layout.Valid, Call.Valid, VpnsOf, Walk;
    assert [c][..|[c]| - 1] == [] && MapAll(layout, Nothing(), []) == Nothing();
    assert MapAll(layout, Nothing(), [c]) == MapPage(layout, Nothing(), c);
    WalkOfMapped(layout, Nothing(), [c], 0, c.va);
    assert LastAt([c], c.Index(0)) == Some(c);
  }

  lemma AliasFaults(layout: Layout, c: Call)
    requires layout.Valid() && c.Index(2) == 0 && VpnsOf(ALIAS)[2] == 4
    ensures Walk(MapPage(layout, Nothing(), c), layout.l1, VpnsOf(ALIAS), TOP) == PageFault
  {
    hide MapPage, Layout.Valid, ReadPte, Faulting, IsLeaf, PteAddr;
    LeafIsLeaf();
    NothingReads(PteAddr(layout.l1, 4));
    StepHolds(layout, Nothing(), c, Call(ALIAS, LEAF));
  }

  lemma AliasHits()
    ensures M.Hits(0, ALIAS, 0) && M.Hit(LEAF, 0, 0, ALIAS) == M.Address(0)
  {}
}
