/** The decoder generator run on the shipped ISA table yields the decoder's switches. */
module ShippedDecoder {
  import opened Bits
  import opened Isa
  import opened Decoder
  import Gen = DecoderGen

  // The table in its own order.
  function Loads(): seq<Opcode> { [LB, LH, LW, LD, LBU, LHU, LWU] }
  function Stores(): seq<Opcode> { [SB, SH, SW, SD] }
  function WordImmediates(): seq<Opcode> { [ADDIW, SLLIW, SRLIW, SRAIW] }
  function WordRegisters(): seq<Opcode> { [ADDW, SUBW, SLLW, SRLW, SRAW] }
  function Registers(): seq<Opcode> { [ADD, SUB, SLL, SLT, SLTU, XOR, SRL, SRA, OR, AND] }
  function Immediates(): seq<Opcode> { [ADDI, SLTI, SLTIU, XORI, ORI, ANDI, SLLI, SRLI, SRAI] }
  function Branches(): seq<Opcode> { [BEQ, BNE, BLT, BGE, BLTU, BGEU] }
  function Others(): seq<Opcode> { [LUI, AUIPC, JAL, ECALL, CSRW] }

  function Listing(): seq<Opcode>
  {
    Loads() + Stores() + WordImmediates() + WordRegisters() + Registers() + Immediates() + [JALR] + Branches() +
      Others()
  }

  predicate DeclaresFunct3(op: Opcode) { !(op.LUI? || op.AUIPC? || op.JAL?) }

  predicate DeclaresFunct7(op: Opcode)
  {
    IsRegReg(op) || op.SLLI? || op.SRLI? || op.SRAI? || op.SLLIW? || op.SRLIW? || op.SRAIW?
  }

  function Number7(x: bv7): nat { x as nat }
  function Number3(x: bv3): nat { x as nat }

  function EntryOf(op: Opcode, name: Opcode -> string): Gen.Entry
  {
    Gen.Entry(name(op), Number7(MajorOf(op)),
              if DeclaresFunct3(op) then Some(Number3(MinorOf(op))) else None,
              if DeclaresFunct7(op) then Some(Number7(UpperOf(op))) else None)
  }

  function Table(name: Opcode -> string): seq<Gen.Entry>
  {
    seq(|Listing()|, k requires 0 <= k < |Listing()| => EntryOf(Listing()[k], name))
  }

  function FieldsOf(o: bv7, f3: bv3, f7: bv7): Gen.Fields { Gen.Fields(Number7(o), Number3(f3), Number7(f7)) }

  // --- the table ---

  lemma KindsListed(op: Opcode)
    requires !op.UNKNOWN?
    ensures op in Loads() || op in Stores() || op in WordImmediates() || op in WordRegisters() || op in Registers() ||
            op in Immediates() || op == JALR || op in Branches() || op in Others()
  {
    Kinds(op);
    if IsLoad(op) {
      assert op in Loads();
    } else if IsStore(op) {
      assert op in Stores();
    } else if IsWordImmediate(op) {
      assert op in WordImmediates();
    } else if IsWordRegister(op) {
      assert op in WordRegisters();
    } else if IsRegister(op) {
      assert op in Registers();
    } else if IsImmediate(op) {
      assert op in Immediates();
    } else if IsBranch(op) {
      assert op in Branches();
    } else if op != JALR {
      assert op in Others();
    }
  }

  lemma AllListed(op: Opcode)
    ensures op in Listing() <==> !op.UNKNOWN?
  {
    if !op.UNKNOWN? {
      KindsListed(op);
    }
  }

  lemma InTable(name: Opcode -> string, op: Opcode)
    requires !op.UNKNOWN?
    ensures EntryOf(op, name) in Table(name)
  {
    hide Listing;
    AllListed(op);
    var k :| 0 <= k < |Listing()| && Listing()[k] == op;
    assert Table(name)[k] == EntryOf(op, name);
  }

  lemma FromTable(name: Opcode -> string, k: nat)
    requires k < |Table(name)|
    ensures k < |Listing()| && !Listing()[k].UNKNOWN? && Table(name)[k] == EntryOf(Listing()[k], name)
  {
    AllListed(Listing()[k]);
  }

  lemma Injective7(a: bv7, b: bv7)
    ensures Number7(a) == Number7(b) <==> a == b
  {}

  lemma Injective3(a: bv3, b: bv3)
    ensures Number3(a) == Number3(b) <==> a == b
  {}

  // --- two instructions never claim the same word ---

  lemma Dispatched(op: Opcode, f3: bv3, f7: bv7)
    requires !op.UNKNOWN?
    ensures OpcodeFrom(MajorOf(op), f3, f7) == op <==> MinorListed(op, f3, f7)
  {
    DispatchIsListing(op, MajorOf(op), f3, f7);
  }

  lemma DeclaresTested(op: Opcode)
    ensures TestsMinor(op) ==> DeclaresFunct3(op)
    ensures TestsUpper(op) ==> DeclaresFunct7(op) && TestsMinor(op)
  {}

  lemma Apart(a: Opcode, b: Opcode)
    requires a != b && !a.UNKNOWN? && !b.UNKNOWN? && MajorOf(a) == MajorOf(b)
    ensures TestsMinor(a) && TestsMinor(b)
    ensures MinorOf(a) == MinorOf(b) ==> TestsUpper(a) && TestsUpper(b) && UpperOf(a) != UpperOf(b)
  {
    DeclaresTested(a);
    DeclaresTested(b);
    Dispatched(a, MinorOf(a), UpperOf(a));
    Dispatched(b, MinorOf(a), UpperOf(a));
    Dispatched(a, MinorOf(b), UpperOf(b));
    Dispatched(b, MinorOf(b), UpperOf(b));
  }

  lemma EntriesSeparable(name: Opcode -> string, a: Opcode, b: Opcode)
    requires a != b && !a.UNKNOWN? && !b.UNKNOWN?
    ensures Gen.Separable(EntryOf(a, name), EntryOf(b, name))
  {
    Injective7(MajorOf(a), MajorOf(b));
    Injective3(MinorOf(a), MinorOf(b));
    Injective7(UpperOf(a), UpperOf(b));
    DeclaresTested(a);
    DeclaresTested(b);
    if MajorOf(a) == MajorOf(b) {
      Apart(a, b);
    }
  }

  // The shipped table meets the conditions under which the generated switches are right.
  lemma TableIsWellFormed(name: Opcode -> string)
    requires Gen.UniqueNames(Table(name))
    ensures Gen.WellFormed(Table(name))
  {
    forall a, b | 0 <= a < b < |Table(name)|
      ensures Gen.Separable(Table(name)[a], Table(name)[b])
    {
      FromTable(name, a);
      FromTable(name, b);
      NamesDiffer(name, Listing()[a], Listing()[b]);
      EntriesSeparable(name, Listing()[a], Listing()[b]);
    }
  }

  lemma NamesDiffer(name: Opcode -> string, a: Opcode, b: Opcode)
    ensures EntryOf(a, name).name != EntryOf(b, name).name ==> a != b
  {}

  // --- which fields the generated switches test ---

  // Another instruction with the same opcode, and the same funct3 if funct7 is tested.
  function Partner(op: Opcode): Opcode
  {
    if op.ADD? then SUB else if op.SRL? then SRA else if op.SRA? then SRL
    else if op.ADDW? then SUBW else if op.SRLW? then SRAW else if op.SRAW? then SRLW
    else if op.SRLI? then SRAI else if op.SRAI? then SRLI else if op.SRLIW? then SRAIW else if op.SRAIW? then SRLIW
    else if op.LB? then LH else if IsLoad(op) then LB
    else if op.SB? then SH else if IsStore(op) then SB
    else if op.BEQ? then BNE else if IsBranch(op) then BEQ
    else if IsWordImmediate(op) then SRLIW else if IsWordRegister(op) then ADDW
    else if op.ADDI? then ORI else if IsImmediate(op) then ADDI
    else if op.ECALL? then CSRW else if op.CSRW? then ECALL
    else ADD
  }

  lemma RegisterPartners(op: Opcode)
    requires IsRegister(op)
    ensures IsRegister(Partner(op)) && Partner(op) != op
  {}

  lemma ImmediatePartners(op: Opcode)
    requires IsImmediate(op)
    ensures IsImmediate(Partner(op)) && Partner(op) != op
  {}

  lemma WordImmediatePartners(op: Opcode)
    requires IsWordImmediate(op)
    ensures IsWordImmediate(Partner(op)) && Partner(op) != op
  {}

  lemma WordRegisterPartners(op: Opcode)
    requires IsWordRegister(op)
    ensures IsWordRegister(Partner(op)) && Partner(op) != op
  {}

  lemma LoadPartners(op: Opcode)
    requires IsLoad(op)
    ensures IsLoad(Partner(op)) && Partner(op) != op
  {}

  lemma StorePartners(op: Opcode)
    requires IsStore(op)
    ensures IsStore(Partner(op)) && Partner(op) != op
  {}

  lemma BranchPartners(op: Opcode)
    requires IsBranch(op)
    ensures IsBranch(Partner(op)) && Partner(op) != op
  {}

  lemma SystemPartners(op: Opcode)
    requires op.ECALL? || op.CSRW?
    ensures (Partner(op).ECALL? || Partner(op).CSRW?) && Partner(op) != op
  {}

  lemma TestedKinds(op: Opcode)
    requires TestsMinor(op) && !op.UNKNOWN?
    ensures IsRegister(op) || IsImmediate(op) || IsWordImmediate(op) || IsWordRegister(op) ||
            IsLoad(op) || IsStore(op) || IsBranch(op) || op.ECALL? || op.CSRW?
  {}

  lemma KindsAreKnown(op: Opcode)
    ensures IsRegister(op) || IsImmediate(op) || IsWordImmediate(op) || IsWordRegister(op) || IsLoad(op) ||
            IsStore(op) || IsBranch(op)
            ==> !op.UNKNOWN?
  {}

  lemma PartnerShares(op: Opcode)
    requires TestsMinor(op) && !op.UNKNOWN?
    ensures Partner(op) != op && !Partner(op).UNKNOWN? && MajorOf(Partner(op)) == MajorOf(op)
  {
    TestedKinds(op);
    MajorKinds(op);
    OtherMajors(op);
    MajorKinds(Partner(op));
    OtherMajors(Partner(op));
    KindsAreKnown(Partner(op));
    if IsRegister(op) {
      RegisterPartners(op);
    } else if IsImmediate(op) {
      ImmediatePartners(op);
    } else if IsWordImmediate(op) {
      WordImmediatePartners(op);
    } else if IsWordRegister(op) {
      WordRegisterPartners(op);
    } else if IsLoad(op) {
      LoadPartners(op);
    } else if IsStore(op) {
      StorePartners(op);
    } else if IsBranch(op) {
      BranchPartners(op);
    } else {
      SystemPartners(op);
    }
  }

  lemma PartnerSharesFunct3(op: Opcode)
    requires TestsUpper(op)
    ensures TestsMinor(op) && MinorOf(Partner(op)) == MinorOf(op) && DeclaresFunct3(Partner(op))
  {}

  lemma SharesOpcode(name: Opcode -> string, op: Opcode)
    requires !op.UNKNOWN? && Gen.UniqueNames(Table(name))
    ensures Gen.SharesOpcode(Table(name), EntryOf(op, name)) <==> TestsMinor(op)
  {
    hide Table;
    var e := EntryOf(op, name);
    if TestsMinor(op) {
      PartnerShares(op);
      InTable(name, Partner(op));
      EntriesDiffer(name, op, Partner(op));
    }
    if d :| d in Table(name) && d != e && d.opcode == e.opcode {
      var k: nat :| k < |Table(name)| && Table(name)[k] == d;
      FromTable(name, k);
      Injective7(MajorOf(Listing()[k]), MajorOf(op));
      Apart(op, Listing()[k]);
    }
  }

  lemma SharesFunct3(name: Opcode -> string, op: Opcode)
    requires !op.UNKNOWN? && Gen.UniqueNames(Table(name))
    ensures Gen.SharesFunct3(Table(name), EntryOf(op, name)) <==> TestsUpper(op)
  {
    hide Number7, Table;
    var e := EntryOf(op, name);
    if TestsUpper(op) {
      PartnerSharesFunct3(op);
      PartnerShares(op);
      DeclaresTested(op);
      InTable(name, Partner(op));
      EntriesDiffer(name, op, Partner(op));
    }
    if d :| d in Table(name) && d != e && d.opcode == e.opcode && d.funct3 == e.funct3 {
      var k: nat :| k < |Table(name)| && Table(name)[k] == d;
      FromTable(name, k);
      Injective7(MajorOf(Listing()[k]), MajorOf(op));
      Injective3(MinorOf(Listing()[k]), MinorOf(op));
      Apart(op, Listing()[k]);
      DeclaresTested(op);
      DeclaresTested(Listing()[k]);
    }
  }

  // Names are unique, and the table lists every instruction once, so entries differ.
  lemma EntriesDiffer(name: Opcode -> string, a: Opcode, b: Opcode)
    requires a != b && !a.UNKNOWN? && !b.UNKNOWN? && Gen.UniqueNames(Table(name))
    ensures EntryOf(a, name) != EntryOf(b, name)
  {
    hide Listing, MajorOf, DeclaresFunct3;
    AllListed(a);
    AllListed(b);
    var j :| 0 <= j < |Listing()| && Listing()[j] == a;
    var k :| 0 <= k < |Listing()| && Listing()[k] == b;
    assert Table(name)[j].name != Table(name)[k].name;
  }

  lemma FieldsAgree(name: Opcode -> string, op: Opcode, o: bv7, f3: bv3, f7: bv7)
    ensures var e, w := EntryOf(op, name), FieldsOf(o, f3, f7);
            (e.opcode == w.opcode <==> o == MajorOf(op)) &&
            (TestsMinor(op) ==> (e.funct3 == Some(w.funct3) <==> f3 == MinorOf(op))) &&
            (TestsUpper(op) ==> (e.funct7 == Some(w.funct7) <==> f7 == UpperOf(op)))
  {
    hide MajorOf, UpperOf, DeclaresFunct3, DeclaresFunct7;
    DeclaresTested(op);
    Injective7(MajorOf(op), o);
    Injective3(MinorOf(op), f3);
    Injective7(UpperOf(op), f7);
  }

  lemma TestedIsListed(name: Opcode -> string, op: Opcode, o: bv7, f3: bv3, f7: bv7)
    requires !op.UNKNOWN? && Gen.UniqueNames(Table(name))
    ensures Gen.Tested(Table(name), EntryOf(op, name), FieldsOf(o, f3, f7)) <==> OpcodeFrom(o, f3, f7) == op
  {
    hide Table, MajorOf, MinorOf, Gen.SharesFunct3, Gen.UniqueNames, EntryOf, FieldsOf;
    SharesOpcode(name, op);
    SharesFunct3(name, op);
    FieldsAgree(name, op, o, f3, f7);
    DispatchIsListing(op, o, f3, f7);
  }

  // For every word the generated switches over the shipped table dispatch what the decoder does,
  // and are silent exactly where it answers UNKNOWN.
  lemma GeneratedIsDecoder(name: Opcode -> string, o: bv7, f3: bv3, f7: bv7)
    requires Gen.UniqueNames(Table(name))
    ensures var op := OpcodeFrom(o, f3, f7);
            Gen.Dispatch(Table(name), FieldsOf(o, f3, f7)) == if op.UNKNOWN? then None else Some(name(op))
  {
    hide Listing;
    var op, w := OpcodeFrom(o, f3, f7), FieldsOf(o, f3, f7);
    TableIsWellFormed(name);
    if !op.UNKNOWN? {
      TestedIsListed(name, op, o, f3, f7);
      InTable(name, op);
      Gen.TestedIsDispatched(Table(name), EntryOf(op, name), w);
    } else if Gen.Dispatch(Table(name), w).Some? {
      var e := Gen.DispatchedIsTested(Table(name), w);
      var k: nat :| k < |Table(name)| && Table(name)[k] == e;
      FromTable(name, k);
      TestedIsListed(name, Listing()[k], o, f3, f7);
      assert false;
    }
  }
}
