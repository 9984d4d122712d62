/** The generated decoder: field extraction, immediates and the nested dispatch, against an
    assembler after the instruction formats of the RISC-V Unprivileged ISA, sections 2.2-2.3. */
module Decoder {
  import opened Isa

  // Register numbers, funct3, funct7, opcode.
  function RdBits(w: bv32): bv32 { (w >> 7) & 0x1F }
  function Rs1Bits(w: bv32): bv32 { (w >> 15) & 0x1F }
  function Rs2Bits(w: bv32): bv32 { (w >> 20) & 0x1F }
  function Funct3(w: bv32): bv32 { (w >> 12) & 0x7 }
  function Funct7(w: bv32): bv32 { (w >> 25) & 0x7F }
  function OpcodeBits(w: bv32): bv32 { w & 0x7F }

  // static_cast<int32_t>(x) >> k.
  function Sar32(x: bv32, k: bv32): bv32
    requires k <= 32
  {
    if x & 0x8000_0000 == 0 then x >> k else !(!x >> k)
  }

  function ImmI(w: bv32): bv32 { Sar32(w, 20) }

  function ImmS(w: bv32): bv32 { Sar32(((((w >> 25) & 0x7F) << 5) | ((w >> 7) & 0x1F)) << 20, 20) }

  function ImmB(w: bv32): bv32
  {
    var i0 := ((w >> 31) & 0x1) << 12;
    var i1 := i0 | (((w >> 25) & 0x3F) << 5);
    var i2 := i1 | (((w >> 8) & 0xF) << 1);
    var i3 := i2 | (((w >> 7) & 0x1) << 11);
    Sar32(i3 << 19, 19)
  }

  function ImmU(w: bv32): bv32 { (w & 0xFFFF_F000) >> 12 }

  function BitsJ(w: bv32): bv32
  {
    var i0 := ((w >> 31) & 0x1) << 20;
    var i1 := i0 | (((w >> 21) & 0x3FF) << 1);
    var i2 := i1 | (((w >> 20) & 0x1) << 11);
    i2 | (((w >> 12) & 0xFF) << 12)
  }

  function ImmJ(w: bv32): bv32 { Sar32(BitsJ(w) << 11, 11) }

  // --- the assembler's words ---

  function RWord(f7: bv32, rs2: bv32, rs1: bv32, f3: bv32, rd: bv32, op: bv32): bv32
  {
    (f7 << 25) | (rs2 << 20) | (rs1 << 15) | (f3 << 12) | (rd << 7) | op
  }

  function IWord(imm: bv32, rs1: bv32, f3: bv32, rd: bv32, op: bv32): bv32
  {
    (imm << 20) | (rs1 << 15) | (f3 << 12) | (rd << 7) | op
  }

  function SWord(imm: bv32, rs2: bv32, rs1: bv32, f3: bv32, op: bv32): bv32
  {
    (((imm >> 5) & 0x7F) << 25) | (rs2 << 20) | (rs1 << 15) | (f3 << 12) | ((imm & 0x1F) << 7) | op
  }

  function BWord(imm: bv32, rs2: bv32, rs1: bv32, f3: bv32, op: bv32): bv32
  {
    (((imm >> 12) & 1) << 31) | (((imm >> 5) & 0x3F) << 25) | (rs2 << 20) | (rs1 << 15) | (f3 << 12) |
    (((imm >> 1) & 0xF) << 8) | (((imm >> 11) & 1) << 7) | op
  }

  function UWord(imm: bv32, rd: bv32, op: bv32): bv32 { (imm << 12) | (rd << 7) | op }

  function JWord(imm: bv32, rd: bv32, op: bv32): bv32
  {
    (((imm >> 20) & 1) << 31) | (((imm >> 1) & 0x3FF) << 21) | (((imm >> 11) & 1) << 20) |
      (((imm >> 12) & 0xFF) << 12) | (rd << 7) | op
  }

  // Field values of the right width.
  predicate Reg5(r: bv32) { r & 0xFFFF_FFE0 == 0 }
  predicate F3(f: bv32) { f & 0xFFFF_FFF8 == 0 }
  predicate F7(f: bv32) { f & 0xFFFF_FF80 == 0 }

  // Immediates in range: sign-extended from their top bit, even where the format has no bit 0.
  predicate Fits12(imm: bv32) { imm & 0xFFFF_F800 == 0 || imm & 0xFFFF_F800 == 0xFFFF_F800 }
  predicate Fits13(imm: bv32) { imm & 1 == 0 && (imm & 0xFFFF_F000 == 0 || imm & 0xFFFF_F000 == 0xFFFF_F000) }
  predicate Fits20(imm: bv32) { imm & 0xFFF0_0000 == 0 }
  predicate Fits21(imm: bv32) { imm & 1 == 0 && (imm & 0xFFF0_0000 == 0 || imm & 0xFFF0_0000 == 0xFFF0_0000) }

  lemma RFields(f7: bv32, rs2: bv32, rs1: bv32, f3: bv32, rd: bv32, op: bv32)
    requires F7(f7) && Reg5(rs2) && Reg5(rs1) && F3(f3) && Reg5(rd) && F7(op)
    ensures var w := RWord(f7, rs2, rs1, f3, rd, op);
            OpcodeBits(w) == op && Funct3(w) == f3 && Funct7(w) == f7 && RdBits(w) == rd && Rs1Bits(w) == rs1 &&
            Rs2Bits(w) == rs2
  {}

  lemma IFields(imm: bv32, rs1: bv32, f3: bv32, rd: bv32, op: bv32)
    requires Fits12(imm) && Reg5(rs1) && F3(f3) && Reg5(rd) && F7(op)
    ensures var w := IWord(imm, rs1, f3, rd, op);
            OpcodeBits(w) == op && Funct3(w) == f3 && RdBits(w) == rd && Rs1Bits(w) == rs1 &&
            Funct7(w) == (imm >> 5) & 0x7F
  {}

  lemma IImmediate(imm: bv32, rs1: bv32, f3: bv32, rd: bv32, op: bv32)
    requires Fits12(imm) && Reg5(rs1) && F3(f3) && Reg5(rd) && F7(op)
    ensures ImmI(IWord(imm, rs1, f3, rd, op)) == imm
  {}

  lemma SFields(imm: bv32, rs2: bv32, rs1: bv32, f3: bv32, op: bv32)
    requires Fits12(imm) && Reg5(rs2) && Reg5(rs1) && F3(f3) && F7(op)
    ensures var w := SWord(imm, rs2, rs1, f3, op);
            OpcodeBits(w) == op && Funct3(w) == f3 && Rs1Bits(w) == rs1 && Rs2Bits(w) == rs2 && ImmS(w) == imm &&
            RdBits(w) == imm & 0x1F
  {}

  lemma BFields(imm: bv32, rs2: bv32, rs1: bv32, f3: bv32, op: bv32)
    requires Fits13(imm) && Reg5(rs2) && Reg5(rs1) && F3(f3) && F7(op)
    ensures var w := BWord(imm, rs2, rs1, f3, op);
            OpcodeBits(w) == op && Funct3(w) == f3 && Rs1Bits(w) == rs1 && Rs2Bits(w) == rs2 && ImmB(w) == imm
  {}

  lemma UFields(imm: bv32, rd: bv32, op: bv32)
    requires Fits20(imm) && Reg5(rd) && F7(op)
    ensures var w := UWord(imm, rd, op);
            OpcodeBits(w) == op && RdBits(w) == rd && ImmU(w) == imm
  {}

  lemma JFields(imm: bv32, rd: bv32, op: bv32)
    requires Fits21(imm) && Reg5(rd) && F7(op)
    ensures var w := JWord(imm, rd, op);
            OpcodeBits(w) == op && RdBits(w) == rd && Funct3(w) == (imm >> 12) & 0x7
  {}

  lemma PositiveJ(imm: bv32)
    requires imm & 1 == 0 && imm & 0xFFF0_0000 == 0
    ensures ((imm & 0x1F_FFFE) << 11) & 0x8000_0000 == 0 && ((imm & 0x1F_FFFE) << 11) >> 11 == imm
  {}

  lemma NegativeJ(imm: bv32)
    requires imm & 1 == 0 && imm & 0xFFF0_0000 == 0xFFF0_0000
    ensures ((imm & 0x1F_FFFE) << 11) & 0x8000_0000 != 0 && !(!((imm & 0x1F_FFFE) << 11) >> 11) == imm
  {}

  lemma SignJ(imm: bv32)
    requires Fits21(imm)
    ensures Sar32((imm & 0x1F_FFFE) << 11, 11) == imm
  {
    if imm & 0xFFF0_0000 == 0 {
      PositiveJ(imm);
    } else {
      NegativeJ(imm);
    }
  }

  lemma JBits(imm: bv32, rd: bv32, op: bv32)
    requires imm & 1 == 0 && Reg5(rd) && F7(op)
    ensures BitsJ(JWord(imm, rd, op)) == imm & 0x1F_FFFE
  {}

  lemma JImmediate(imm: bv32, rd: bv32, op: bv32)
    requires Fits21(imm) && Reg5(rd) && F7(op)
    ensures ImmJ(JWord(imm, rd, op)) == imm
  {
    SignJ(imm);
    JBits(imm, rd, op);
  }

  // --- dispatch ---

  function LoadFrom(f3: bv3): Opcode
  {
    if f3 == 0 then LB else if f3 == 1 then LH else if f3 == 2 then LW else if f3 == 3 then LD
    else if f3 == 4 then LBU else if f3 == 5 then LHU else if f3 == 6 then LWU else UNKNOWN
  }

  function StoreFrom(f3: bv3): Opcode
  {
    if f3 == 0 then SB else if f3 == 1 then SH else if f3 == 2 then SW else if f3 == 3 then SD else UNKNOWN
  }

  function WordImmediateFrom(f3: bv3, f7: bv7): Opcode
  {
    if f3 == 0 then ADDIW else if f3 == 1 then SLLIW
    else if f3 == 5 then (if f7 == 0 then SRLIW else if f7 == 32 then SRAIW else UNKNOWN)
    else UNKNOWN
  }

  function WordFrom(f3: bv3, f7: bv7): Opcode
  {
    if f3 == 0 then (if f7 == 0 then ADDW else if f7 == 32 then SUBW else UNKNOWN)
    else if f3 == 1 then SLLW
    else if f3 == 5 then (if f7 == 0 then SRLW else if f7 == 32 then SRAW else UNKNOWN)
    else UNKNOWN
  }

  function RegisterFrom(f3: bv3, f7: bv7): Opcode
  {
    if f3 == 0 then (if f7 == 0 then ADD else if f7 == 32 then SUB else UNKNOWN)
    else if f3 == 1 then SLL else if f3 == 2 then SLT else if f3 == 3 then SLTU else if f3 == 4 then XOR
    else if f3 == 5 then (if f7 == 0 then SRL else if f7 == 32 then SRA else UNKNOWN)
    else if f3 == 6 then OR else if f3 == 7 then AND else UNKNOWN
  }

  function ImmediateFrom(f3: bv3, f7: bv7): Opcode
  {
    if f3 == 0 then ADDI else if f3 == 2 then SLTI else if f3 == 3 then SLTIU else if f3 == 4 then XORI
    else if f3 == 6 then ORI else if f3 == 7 then ANDI else if f3 == 1 then SLLI
    else if f3 == 5 then (if f7 == 0 then SRLI else if f7 == 32 then SRAI else UNKNOWN)
    else UNKNOWN
  }

  function BranchFrom(f3: bv3): Opcode
  {
    if f3 == 0 then BEQ else if f3 == 1 then BNE else if f3 == 4 then BLT
    else if f3 == 5 then BGE else if f3 == 6 then BLTU else if f3 == 7 then BGEU else UNKNOWN
  }

  // The nested switches of decode.
  function OpcodeFrom(o: bv7, f3: bv3, f7: bv7): Opcode
  {
    if o == 3 then LoadFrom(f3)
    else if o == 35 then StoreFrom(f3)
    else if o == 27 then WordImmediateFrom(f3, f7)
    else if o == 59 then WordFrom(f3, f7)
    else if o == 51 then RegisterFrom(f3, f7)
    else if o == 19 then ImmediateFrom(f3, f7)
    else if o == 103 then JALR
    else if o == 99 then BranchFrom(f3)
    else if o == 55 then LUI
    else if o == 23 then AUIPC
    else if o == 111 then JAL
    else if o == 115 then (if f3 == 0 then ECALL else if f3 == 1 then CSRW else UNKNOWN)
    else UNKNOWN
  }

  // Which fields a decode function sets; the others keep the constructor's -1. The text test for
  // `rd` also succeeds on the body of sw, in `word`; csrw's names no rd.
  predicate SetsRd(op: Opcode)
  {
    var f := FormatOf(op);
    f.FormatR? || (f.FormatI? && !op.CSRW?) || f.FormatU? || f.FormatJ? || op.SW?
  }

  predicate SetsRs1(op: Opcode) { var f := FormatOf(op); f.FormatR? || f.FormatI? || f.FormatS? || f.FormatB? }
  predicate SetsRs2(op: Opcode) { var f := FormatOf(op); f.FormatR? || f.FormatS? || f.FormatB? }

  const UNSET: nat := 255

  function Number(r: bv32): nat { ((r & 0x1F) as bv5) as nat }

  function ImmOf(f: Format, w: bv32): bv32
  {
    match f
    case FormatR => 0
    case FormatI => ImmI(w)
    case FormatS => ImmS(w)
    case FormatB => ImmB(w)
    case FormatU => ImmU(w)
    case FormatJ => ImmJ(w)
    case FormatUnknown => 0xFFFF_FFFF
  }

  function Extract(op: Opcode, w: bv32): Instr
  {
    Instr(op, FormatOf(op),
          if SetsRd(op) then Number(RdBits(w)) else UNSET,
          if SetsRs1(op) then Number(Rs1Bits(w)) else UNSET,
          if SetsRs2(op) then Number(Rs2Bits(w)) else UNSET,
          ImmOf(FormatOf(op), w))
  }

  function Decode(w: bv32): Instr { Extract(OpcodeFrom(OpcodeBits(w) as bv7, Funct3(w) as bv3, Funct7(w) as bv7), w) }

  // --- the instruction listing ---

  function MajorOf(op: Opcode): bv7
  {
    if IsLoad(op) then 3
    else if IsStore(op) then 35
    else if op.ADDIW? || op.SLLIW? || op.SRLIW? || op.SRAIW? then 27
    else if op.ADDW? || op.SUBW? || op.SLLW? || op.SRLW? || op.SRAW? then 59
    else if IsRegReg(op) then 51
    else if op.JALR? then 103
    else if IsBranch(op) then 99
    else if op.LUI? then 55
    else if op.AUIPC? then 23
    else if op.JAL? then 111
    else if op.ECALL? || op.CSRW? then 115
    else 19
  }

  function MinorOf(op: Opcode): bv3
  {
    if op.LH? || op.SH? || op.SLLIW? || op.SLLW? || op.SLL? || op.SLLI? || op.BNE? || op.CSRW? then 1
    else if op.LW? || op.SW? || op.SLT? || op.SLTI? then 2
    else if op.LD? || op.SD? || op.SLTU? || op.SLTIU? then 3
    else if op.LBU? || op.XOR? || op.XORI? || op.BLT? then 4
    else if op.LHU? || op.SRLIW? || op.SRAIW? || op.SRLW? || op.SRAW? || op.SRL? || op.SRA? || op.SRLI? || op.SRAI? ||
      op.BGE? then 5
    else if op.LWU? || op.OR? || op.ORI? || op.BLTU? then 6
    else if op.AND? || op.ANDI? || op.BGEU? then 7
    else 0
  }

  function UpperOf(op: Opcode): bv7
  {
    if op.SUB? || op.SUBW? || op.SRA? || op.SRAW? || op.SRAI? || op.SRAIW? then 32 else 0
  }

  // The switches look at funct3 and funct7 for these only.
  predicate TestsMinor(op: Opcode) { !(op.JALR? || op.LUI? || op.AUIPC? || op.JAL?) }

  predicate TestsUpper(op: Opcode)
  {
    op.ADD? || op.SUB? || op.SRL? || op.SRA? || op.ADDW? || op.SUBW? || op.SRLW? || op.SRAW? ||
    op.SRLI? || op.SRAI? || op.SRLIW? || op.SRAIW?
  }

  predicate IsWordImmediate(op: Opcode) { op.ADDIW? || op.SLLIW? || op.SRLIW? || op.SRAIW? }
  predicate IsWordRegister(op: Opcode) { op.ADDW? || op.SUBW? || op.SLLW? || op.SRLW? || op.SRAW? }
  predicate IsRegister(op: Opcode) { IsRegReg(op) && !IsWordRegister(op) }
  predicate IsImmediate(op: Opcode)
  {
    op.ADDI? || op.SLTI? || op.SLTIU? || op.XORI? || op.ORI? || op.ANDI? || op.SLLI? || op.SRLI? || op.SRAI?
  }
  predicate IsOther(op: Opcode) { op.JALR? || op.LUI? || op.AUIPC? || op.JAL? || op.ECALL? || op.CSRW? }

  // Each inner switch knows its own instructions only.
  lemma InnerSwitches(f3: bv3, f7: bv7)
    ensures IsLoad(LoadFrom(f3)) || LoadFrom(f3).UNKNOWN?
    ensures IsStore(StoreFrom(f3)) || StoreFrom(f3).UNKNOWN?
    ensures IsBranch(BranchFrom(f3)) || BranchFrom(f3).UNKNOWN?
    ensures IsWordImmediate(WordImmediateFrom(f3, f7)) || WordImmediateFrom(f3, f7).UNKNOWN?
    ensures IsWordRegister(WordFrom(f3, f7)) || WordFrom(f3, f7).UNKNOWN?
    ensures IsRegister(RegisterFrom(f3, f7)) || RegisterFrom(f3, f7).UNKNOWN?
    ensures IsImmediate(ImmediateFrom(f3, f7)) || ImmediateFrom(f3, f7).UNKNOWN?
  {}

  predicate MinorListed(op: Opcode, f3: bv3, f7: bv7)
  {
    (TestsMinor(op) ==> f3 == MinorOf(op)) && (TestsUpper(op) ==> f7 == UpperOf(op))
  }

  lemma LoadsListed(op: Opcode, f3: bv3, f7: bv7)
    ensures IsLoad(op) ==> (LoadFrom(f3) == op <==> MinorListed(op, f3, f7))
  {}

  lemma StoresAndBranchesListed(op: Opcode, f3: bv3, f7: bv7)
    ensures IsStore(op) ==> (StoreFrom(f3) == op <==> MinorListed(op, f3, f7))
    ensures IsBranch(op) ==> (BranchFrom(f3) == op <==> MinorListed(op, f3, f7))
  {}

  lemma WordsListed(op: Opcode, f3: bv3, f7: bv7)
    ensures IsWordImmediate(op) ==> (WordImmediateFrom(f3, f7) == op <==> MinorListed(op, f3, f7))
    ensures IsWordRegister(op) ==> (WordFrom(f3, f7) == op <==> MinorListed(op, f3, f7))
  {}

  lemma RegistersListed(op: Opcode, f3: bv3, f7: bv7)
    requires IsRegister(op)
    ensures RegisterFrom(f3, f7) == op <==> MinorListed(op, f3, f7)
  {}

  lemma ImmediatesListed(op: Opcode, f3: bv3, f7: bv7)
    requires IsImmediate(op)
    ensures ImmediateFrom(f3, f7) == op <==> MinorListed(op, f3, f7)
  {}

  lemma OthersListed(op: Opcode, f3: bv3, f7: bv7)
    requires IsOther(op)
    ensures MinorListed(op, f3, f7) <==> (op.ECALL? ==> f3 == 0) && (op.CSRW? ==> f3 == 1)
  {}

  lemma MajorKinds(op: Opcode)
    ensures IsLoad(op) ==> MajorOf(op) == 3
    ensures IsStore(op) ==> MajorOf(op) == 35
    ensures IsBranch(op) ==> MajorOf(op) == 99
    ensures IsWordImmediate(op) ==> MajorOf(op) == 27
    ensures IsWordRegister(op) ==> MajorOf(op) == 59
    ensures IsRegister(op) ==> MajorOf(op) == 51
    ensures IsImmediate(op) ==> MajorOf(op) == 19
  {
    WordMajors(op);
    ArithmeticMajors(op);
  }

  lemma WordMajors(op: Opcode)
    ensures IsWordImmediate(op) ==> MajorOf(op) == 27
    ensures IsWordRegister(op) ==> MajorOf(op) == 59
  {}

  lemma ArithmeticMajors(op: Opcode)
    ensures IsRegister(op) ==> MajorOf(op) == 51
    ensures IsImmediate(op) ==> MajorOf(op) == 19
  {}

  lemma Kinds(op: Opcode)
    requires !op.UNKNOWN?
    ensures IsLoad(op) || IsStore(op) || IsBranch(op) || IsWordImmediate(op) || IsWordRegister(op) || IsRegister(op) ||
            IsImmediate(op) || IsOther(op)
  {}

  // The outer switch: which major opcode leads to which kind.
  lemma OuterSwitch(o: bv7, f3: bv3, f7: bv7)
    ensures var r := OpcodeFrom(o, f3, f7);
            (o == 3 ==> r == LoadFrom(f3)) && (o == 35 ==> r == StoreFrom(f3)) && (o == 99 ==> r == BranchFrom(f3)) &&
            (o == 27 ==> r == WordImmediateFrom(f3, f7)) && (o == 59 ==> r == WordFrom(f3, f7)) &&
            (o == 51 ==> r == RegisterFrom(f3, f7)) && (o == 19 ==> r == ImmediateFrom(f3, f7))
  {}

  // A kind comes from its own major opcode only.
  lemma KindsComeFrom(o: bv7, f3: bv3, f7: bv7)
    ensures var r := OpcodeFrom(o, f3, f7);
            (IsLoad(r) ==> o == 3) && (IsStore(r) ==> o == 35) && (IsBranch(r) ==> o == 99) &&
            (IsWordImmediate(r) ==> o == 27) &&
            (IsWordRegister(r) ==> o == 59) && (IsRegister(r) ==> o == 51) && (IsImmediate(r) ==> o == 19)
  {
    hide LoadFrom, StoreFrom, BranchFrom, WordImmediateFrom, WordFrom, RegisterFrom, ImmediateFrom;
    InnerSwitches(f3, f7);
  }

  lemma OtherMajors(op: Opcode)
    ensures (op.JALR? ==> MajorOf(op) == 103) && (op.LUI? ==> MajorOf(op) == 55) && (op.AUIPC? ==> MajorOf(op) == 23)
    ensures (op.JAL? ==> MajorOf(op) == 111) && (op.ECALL? || op.CSRW? ==> MajorOf(op) == 115)
  {}

  lemma OthersOuter(o: bv7, f3: bv3, f7: bv7)
    ensures var r := OpcodeFrom(o, f3, f7);
            (r.JALR? <==> o == 103) && (r.LUI? <==> o == 55) && (r.AUIPC? <==> o == 23) && (r.JAL? <==> o == 111) &&
            (r.ECALL? <==> o == 115 && f3 == 0) && (r.CSRW? <==> o == 115 && f3 == 1)
  {
    hide RegisterFrom;
    InnerSwitches(f3, f7);
  }

  lemma OthersComeFrom(op: Opcode, o: bv7, f3: bv3, f7: bv7)
    requires IsOther(op)
    ensures OpcodeFrom(o, f3, f7) == op <==> o == MajorOf(op) && (op.ECALL? ==> f3 == 0) && (op.CSRW? ==> f3 == 1)
  {
    OtherMajors(op);
    OthersOuter(o, f3, f7);
  }

  // The switches dispatch a word to an instruction exactly when its opcode and the fields tested
  // for it are the listed ones; no other field matters.
  lemma DispatchIsListing(op: Opcode, o: bv7, f3: bv3, f7: bv7)
    requires !op.UNKNOWN?
    ensures OpcodeFrom(o, f3, f7) == op <==> o == MajorOf(op) && MinorListed(op, f3, f7)
  {
    hide MinorListed, MajorOf;
    Kinds(op);
    MajorKinds(op);
    OuterSwitch(o, f3, f7);
    KindsComeFrom(o, f3, f7);
    if IsOther(op) {
      OthersListed(op, f3, f7);
      OthersComeFrom(op, o, f3, f7);
    } else if IsRegister(op) {
      RegistersListed(op, f3, f7);
    } else if IsImmediate(op) {
      ImmediatesListed(op, f3, f7);
    } else {
      LoadsListed(op, f3, f7);
      StoresAndBranchesListed(op, f3, f7);
      WordsListed(op, f3, f7);
    }
  }

  // --- assembling ---

  function Reg(r: nat): bv32 { if r < 32 then (r as bv5) as bv32 else 0 }

  function Major(op: Opcode): bv32 { MajorOf(op) as bv32 }
  function Minor(op: Opcode): bv32 { MinorOf(op) as bv32 }
  function Upper7(op: Opcode): bv32 { UpperOf(op) as bv32 }

  function Assemble(i: Instr): bv32
  {
    var op := i.opcode;
    match FormatOf(op)
    case FormatR => RWord(Upper7(op), Reg(i.rs2), Reg(i.rs1), Minor(op), Reg(i.rd), Major(op))
    case FormatI => IWord(i.imm, Reg(i.rs1), Minor(op), Reg(i.rd), Major(op))
    case FormatS => SWord(i.imm, Reg(i.rs2), Reg(i.rs1), Minor(op), Major(op))
    case FormatB => BWord(i.imm, Reg(i.rs2), Reg(i.rs1), Minor(op), Major(op))
    case FormatU => UWord(i.imm, Reg(i.rd), Major(op))
    case FormatJ => JWord(i.imm, Reg(i.rd), Major(op))
    case FormatUnknown => 0
  }

  // The funct7 bits inside an I-type immediate, and the funct3 bits inside a J-type one.
  predicate UpperImm(imm: bv32, f7: bv7) { (imm >> 5) & 0x7F == f7 as bv32 }
  predicate NoMinor(imm: bv32) { (imm >> 12) & 0x7 == 0 }

  predicate ImmediateFits(i: Instr)
  {
    match FormatOf(i.opcode)
    case FormatR => i.imm == 0
    // A right shift carries its funct7 in the upper bits of the immediate, so its amount is below 32.
    case FormatI => Fits12(i.imm) && (TestsUpper(i.opcode) ==> UpperImm(i.imm, UpperOf(i.opcode)))
    case FormatS => Fits12(i.imm)
    case FormatB => Fits13(i.imm)
    case FormatU => Fits20(i.imm)
    case FormatJ => Fits21(i.imm) && (i.opcode.ECALL? ==> NoMinor(i.imm))
    case FormatUnknown => false
  }

  predicate RegisterFits(r: nat, given: bool) { if given then r < 32 else r == UNSET }

  // The operands of each instruction, by the manual: an assembler is given no rs1 for lui, auipc,
  // jal and ecall, an rs2 for register-register instructions, stores and branches only, and no rd
  // for stores, branches and csrw.
  predicate TakesRs1(op: Opcode) { !op.LUI? && !op.AUIPC? && !op.JAL? && !op.ECALL? && !op.UNKNOWN? }

  predicate TakesRs2(op: Opcode)
  {
    op.ADD? || op.SUB? || op.SLL? || op.SLT? || op.SLTU? || op.XOR? || op.SRL? || op.SRA? || op.OR? || op.AND? ||
    op.ADDW? || op.SUBW? || op.SLLW? || op.SRLW? || op.SRAW? || op.SB? || op.SH? || op.SW? || op.SD? ||
    op.BEQ? || op.BNE? || op.BLT? || op.BGE? || op.BLTU? || op.BGEU?
  }

  predicate TakesRd(op: Opcode)
  {
    !op.SB? && !op.SH? && !op.SW? && !op.SD? && !op.BEQ? && !op.BNE? && !op.BLT? && !op.BGE? && !op.BLTU? &&
    !op.BGEU? && !op.CSRW? && !op.UNKNOWN?
  }

  // An instruction as an assembler would be given it; sw's rd is the low bits of its immediate.
  predicate Encodable(i: Instr)
  {
    i.format == FormatOf(i.opcode) && ImmediateFits(i) &&
    (if i.opcode.SW? then i.rd == Number(i.imm) else RegisterFits(i.rd, TakesRd(i.opcode))) &&
    RegisterFits(i.rs1, TakesRs1(i.opcode)) && RegisterFits(i.rs2, TakesRs2(i.opcode))
  }

  lemma OperandsListed(op: Opcode)
    requires !op.UNKNOWN?
    ensures SetsRs1(op) == TakesRs1(op) && SetsRs2(op) == TakesRs2(op) && SetsRd(op) == (TakesRd(op) || op.SW?)
  {}

  // Bits 4:0 of a word, as a number.
  function LowFive(w: bv32): nat { ((w & 31) as bv5) as nat }

  // The instructions of each format, by the manual; ecall's and csrw's are the description's.
  predicate TypeI(op: Opcode)
  {
    op.LB? || op.LH? || op.LW? || op.LD? || op.LBU? || op.LHU? || op.LWU? || op.ADDIW? || op.SLLIW? || op.SRLIW? ||
    op.SRAIW? || op.ADDI? || op.SLTI? || op.SLTIU? || op.XORI? || op.ORI? || op.ANDI? || op.SLLI? || op.SRLI? ||
    op.SRAI? || op.JALR? || op.CSRW?
  }

  predicate TypeS(op: Opcode) { op.SB? || op.SH? || op.SW? || op.SD? }
  predicate TypeB(op: Opcode) { op.BEQ? || op.BNE? || op.BLT? || op.BGE? || op.BLTU? || op.BGEU? }
  predicate TypeU(op: Opcode) { op.LUI? || op.AUIPC? }
  predicate TypeJ(op: Opcode) { op.JAL? || op.ECALL? }

  lemma TypeIListed(op: Opcode)
    ensures FormatOf(op).FormatI? <==> TypeI(op)
  {}

  lemma OtherTypesListed(op: Opcode)
    ensures (FormatOf(op).FormatS? <==> TypeS(op)) && (FormatOf(op).FormatB? <==> TypeB(op))
    ensures (FormatOf(op).FormatU? <==> TypeU(op)) && (FormatOf(op).FormatJ? <==> TypeJ(op))
    ensures FormatOf(op).FormatUnknown? <==> op.UNKNOWN?
  {}

  // Where each immediate lies; register-register instructions have none.
  function ImmediateOf(op: Opcode, w: bv32): bv32
  {
    if TypeI(op) then ImmI(w) else if TypeS(op) then ImmS(w) else if TypeB(op) then ImmB(w)
    else if TypeU(op) then ImmU(w) else if TypeJ(op) then ImmJ(w) else 0
  }

  lemma ImmediatesAreListed(op: Opcode, w: bv32)
    requires !op.UNKNOWN?
    ensures ImmOf(FormatOf(op), w) == ImmediateOf(op, w)
  {
    hide ImmI, ImmS, ImmB, ImmU, ImmJ, FormatOf, TypeI, TypeS, TypeB, TypeU, TypeJ;
    TypeIListed(op);
    OtherTypesListed(op);
  }

  // Every word that is not unknown gives its operands' numbers and its immediate from the bits the
  // manual puts them in, and -1 for operands it does not have; sw gives an rd besides.
  lemma DecodedOperands(w: bv32)
    requires !Decode(w).opcode.UNKNOWN?
    ensures var i := Decode(w);
            i.rs1 == (if TakesRs1(i.opcode) then LowFive(w >> 15) else 255) &&
            i.rs2 == (if TakesRs2(i.opcode) then LowFive(w >> 20) else 255) &&
            i.rd == (if TakesRd(i.opcode) || i.opcode.SW? then LowFive(w >> 7) else 255) &&
            i.imm == ImmediateOf(i.opcode, w)
  {
    hide OpcodeFrom, SetsRs1, SetsRs2, SetsRd, TakesRs1, TakesRs2, TakesRd, FormatOf, ImmOf, ImmediateOf, Number,
         LowFive, RdBits, Rs1Bits, Rs2Bits;
    var op := Decode(w).opcode;
    OperandsListed(op);
    ImmediatesAreListed(op, w);
    RegisterBits(w);
  }

  lemma RegisterBits(w: bv32)
    ensures Number(RdBits(w)) == LowFive(w >> 7) && Number(Rs1Bits(w)) == LowFive(w >> 15)
    ensures Number(Rs2Bits(w)) == LowFive(w >> 20)
  {
    MaskedTwice(w >> 7);
    MaskedTwice(w >> 15);
    MaskedTwice(w >> 20);
  }

  lemma MaskedTwice(x: bv32)
    ensures (x & 0x1F) & 0x1F == x & 31
  {}

  lemma RegFits(r: nat)
    ensures Reg5(Reg(r)) && (r < 32 ==> Number(Reg(r)) == r)
  {
    if r < 32 {
      SmallWord(r as bv5);
    }
  }

  lemma SmallWord(b: bv5)
    ensures Reg5(b as bv32) && (((b as bv32) & 0x1F) as bv5) == b
  {}

  lemma FieldsFit(op: Opcode)
    ensures F7(Major(op)) && F3(Minor(op)) && F7(Upper7(op))
    ensures Major(op) as bv7 == MajorOf(op) && Minor(op) as bv3 == MinorOf(op) && Upper7(op) as bv7 == UpperOf(op)
  {
    SmallFields(MajorOf(op), MinorOf(op), UpperOf(op));
  }

  lemma SmallFields(o: bv7, f3: bv3, f7: bv7)
    ensures F7(o as bv32) && F3(f3 as bv32) && F7(f7 as bv32)
    ensures (o as bv32) as bv7 == o && (f3 as bv32) as bv3 == f3 && (f7 as bv32) as bv7 == f7
  {}

  // The dispatch of a word whose fields are the listed ones.
  lemma DecodesTo(op: Opcode, w: bv32)
    requires !op.UNKNOWN? && OpcodeBits(w) == Major(op)
    requires (TestsMinor(op) ==> Funct3(w) == Minor(op)) && (TestsUpper(op) ==> Funct7(w) == Upper7(op))
    ensures Decode(w) == Extract(op, w)
  {
    FieldsFit(op);
    FieldWidths(w);
    DispatchIsListing(op, OpcodeBits(w) as bv7, Funct3(w) as bv3, Funct7(w) as bv7);
  }

  lemma FieldWidths(w: bv32)
    ensures OpcodeBits(w) < 128 && Funct3(w) < 8 && Funct7(w) < 128
  {}

  lemma RRoundTrip(i: Instr)
    requires Encodable(i) && FormatOf(i.opcode).FormatR?
    ensures Decode(Assemble(i)) == i
  {
    hide Decode;
    var op := i.opcode;
    OperandsListed(op);
    FieldsFit(op);
    RegFits(i.rd);
    RegFits(i.rs1);
    RegFits(i.rs2);
    RFields(Upper7(op), Reg(i.rs2), Reg(i.rs1), Minor(op), Reg(i.rd), Major(op));
    DecodesTo(op, Assemble(i));
  }

  lemma IRoundTrip(i: Instr)
    requires Encodable(i) && FormatOf(i.opcode).FormatI?
    ensures Decode(Assemble(i)) == i
  {
    var op := i.opcode;
    OperandsListed(op);
    FieldsFit(op);
    RegFits(i.rd);
    RegFits(i.rs1);
    IFields(i.imm, Reg(i.rs1), Minor(op), Reg(i.rd), Major(op));
    IImmediate(i.imm, Reg(i.rs1), Minor(op), Reg(i.rd), Major(op));
    DecodesTo(op, Assemble(i));
  }

  lemma LowNumber(imm: bv32)
    ensures Number(imm & 0x1F) == Number(imm)
  {
    assert (imm & 0x1F) & 0x1F == imm & 0x1F;
  }

  lemma StoresTestNoUpper(op: Opcode)
    requires FormatOf(op).FormatS? || FormatOf(op).FormatB? || FormatOf(op).FormatU? || FormatOf(op).FormatJ?
    ensures !TestsUpper(op) && (FormatOf(op).FormatU? ==> !TestsMinor(op)) &&
            (FormatOf(op).FormatJ? && !op.ECALL? ==> !TestsMinor(op))
    ensures op.ECALL? ==> Minor(op) == 0
  {}

  lemma SRoundTrip(i: Instr)
    requires Encodable(i) && FormatOf(i.opcode).FormatS?
    ensures Decode(Assemble(i)) == i
  {
    hide Decode;
    var op := i.opcode;
    OperandsListed(op);
    FieldsFit(op);
    RegFits(i.rs1);
    RegFits(i.rs2);
    LowNumber(i.imm);
    StoresTestNoUpper(op);
    SFields(i.imm, Reg(i.rs2), Reg(i.rs1), Minor(op), Major(op));
    DecodesTo(op, Assemble(i));
  }

  lemma BRoundTrip(i: Instr)
    requires Encodable(i) && FormatOf(i.opcode).FormatB?
    ensures Decode(Assemble(i)) == i
  {
    hide Number, Decode;
    var op := i.opcode;
    OperandsListed(op);
    FieldsFit(op);
    RegFits(i.rs1);
    RegFits(i.rs2);
    StoresTestNoUpper(op);
    BFields(i.imm, Reg(i.rs2), Reg(i.rs1), Minor(op), Major(op));
    DecodesTo(op, Assemble(i));
  }

  lemma URoundTrip(i: Instr)
    requires Encodable(i) && FormatOf(i.opcode).FormatU?
    ensures Decode(Assemble(i)) == i
  {
    var op := i.opcode;
    OperandsListed(op);
    FieldsFit(op);
    RegFits(i.rd);
    StoresTestNoUpper(op);
    UFields(i.imm, Reg(i.rd), Major(op));
    DecodesTo(op, Assemble(i));
  }

  lemma JRoundTrip(i: Instr)
    requires Encodable(i) && FormatOf(i.opcode).FormatJ?
    ensures Decode(Assemble(i)) == i
  {
    hide MajorOf, MinorOf, TestsMinor, Decode;
    var op := i.opcode;
    OperandsListed(op);
    FieldsFit(op);
    RegFits(i.rd);
    StoresTestNoUpper(op);
    JFields(i.imm, Reg(i.rd), Major(op));
    JImmediate(i.imm, Reg(i.rd), Major(op));
    DecodesTo(op, Assemble(i));
  }

  // Every instruction with operands in range decodes, once assembled, to itself: same opcode, same
  // registers, same sign-extended immediate.
  lemma AssembleThenDecode(i: Instr)
    requires Encodable(i)
    ensures Decode(Assemble(i)) == i
  {
    match FormatOf(i.opcode)
    case FormatR => RRoundTrip(i);
    case FormatI => IRoundTrip(i);
    case FormatS => SRoundTrip(i);
    case FormatB => BRoundTrip(i);
    case FormatU => URoundTrip(i);
    case FormatJ => JRoundTrip(i);
    case FormatUnknown =>
  }

  // What the block cache asks of the decoder: branches have format B, jal has format J.
  lemma DecodeIsFormatted(w: bv32)
    ensures (IsBranch(Decode(w).opcode) ==> Decode(w).format.FormatB?) &&
            (Decode(w).opcode.JAL? ==> Decode(w).format.FormatJ?)
  {
    hide OpcodeFrom, OpcodeBits, Funct3, Funct7, ImmOf;
  }
}
