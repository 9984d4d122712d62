/** The slow machine with its memory behind the MMU object: every fetch, load and store goes through
    a TLB, and whole runs still are those of the machine that walks the tables each time. */
module TlbRuns {
  import opened Bits
  import opened Memory
  import opened Sv39
  import opened Isa
  import opened Reference
  import M = Mmu

  // Bare mode, or an address among those the run translates for which none of them is an alias.
  ghost predicate InReach(h: Hart, va: bv64, seen: iset<bv64>)
  {
    Mode(h.satp) == 0 || (Mode(h.satp) == SV39_MODE && va in seen && M.NoAlias(h.mem, RootTable(h.satp), seen, va))
  }

  ghost predicate StoreFits(h: Hart, va: bv64, n: nat)
  {
    var pa := Translate(h.mem, h.satp, va);
    Mode(h.satp) == SV39_MODE && pa.Some? ==> M.SparesTables(h.mem, RootTable(h.satp), pa.value, n)
  }

  function DataAddress(i: Instr, h: Hart): bv64 { Add(GetReg(h, i.rs1), Imm(i)) }

  // What the next instruction must respect: it translates addresses in reach and does not store
  // into live page tables.
  ghost predicate StepFits(dec: DecodeFn, h: Hart, seen: iset<bv64>)
  {
    h.status == Running ==>
      InReach(h, h.pc, seen) &&
      match DecodeAt(dec, h, h.pc)
      case None => true
      case Some(i) =>
        (IsLoad(i.opcode) || IsStore(i.opcode) ==> InReach(h, DataAddress(i, h), seen)) &&
        (IsStore(i.opcode) ==> StoreFits(h, DataAddress(i, h), Width(i.opcode)))
  }

  ghost predicate RunFits(dec: DecodeFn, h: Hart, seen: iset<bv64>)
  {
    forall n: nat :: StepFits(dec, StepN(dec, n, h), seen)
  }

  ghost predicate AllInvalid(entries: seq<M.TlbEntry>) { forall i | 0 <= i < |entries| :: !entries[i].valid }

  lemma InvalidIsSound(entries: seq<M.TlbEntry>, mem: Mem, root: bv64, seen: iset<bv64>)
    requires AllInvalid(entries)
    ensures M.Sound(entries, mem, root, seen)
  {}

  lemma SetRegMemory(h: Hart, r: nat, v: bv64, pc: bv64)
    ensures SetReg(h, r, v).(pc := pc).mem == h.mem
  {}

  // What an instruction that neither loads nor stores leaves alone.
  lemma ComputesOnly(i: Instr, h: Hart)
    requires !IsLoad(i.opcode) && !IsStore(i.opcode)
    ensures Execute(i, h).mem == h.mem && Execute(i, h).satp == h.satp
  {
    hide SetReg, Value, Isa.Load, Isa.Store;
    ExecuteKeeps(i, h);
    SetRegMemory(h, i.rd, Add(h.pc, 4), Target(i, h.pc));
    SetRegMemory(h, i.rd, Add(h.pc, 4), Add(GetReg(h, i.rs1), Imm(i)));
    SetRegMemory(h.(status := Halted), i.rd, h.pc, Add(h.pc, 4));
    SetRegMemory(h, i.rd, Value(i, h), Add(h.pc, 4));
  }

  lemma StoreEffect(i: Instr, h: Hart)
    requires IsStore(i.opcode) && h.status == Running
    ensures Execute(i, h) ==
            match Translate(h.mem, h.satp, DataAddress(i, h))
            case None => h.(status := Aborted)
            case Some(pa) => h.(mem := Write(h.mem, pa, GetReg(h, i.rs2), Width(i.opcode))).(pc := Add(h.pc, 4))
  {
    hide Translate, Width;
  }

  lemma StepIsExecute(dec: DecodeFn, h: Hart)
    requires h.status == Running
    ensures Step(dec, h) ==
            match Isa.Load(h, h.pc, 4)
            case None => h.(status := Aborted)
            case Some(word) => Execute(dec(Word(word)), h)
  {}

  lemma ReachModes(h: Hart, va: bv64, seen: iset<bv64>)
    requires InReach(h, va, seen)
    ensures Mode(h.satp) == 0 || (Mode(h.satp) == SV39_MODE && va in seen)
  {}

  // For an address in reach the MMU's answer is the walk's.
  lemma AnswerIsRight(h: Hart, va: bv64, seen: iset<bv64>, r: M.TranslateResult, va0: bv64)
    requires InReach(h, va, seen)
    requires Mode(h.satp) == 0 ==> r == M.Address(va)
    requires Mode(h.satp) == SV39_MODE ==> va0 in seen && M.Answered(r, h.mem, RootTable(h.satp), va, va0)
    ensures Translate(h.mem, h.satp, va) == if r.Fault? then None else Some(r.pa)
  {
    hide RootTable, Mode, M.NoAlias, M.Answered, M.Uncached;
    if Mode(h.satp) != 0 {
      M.NoAliasIsRight(r, h.mem, RootTable(h.satp), seen, va, va0);
      M.UncachedIsTranslate(h.mem, h.satp, va);
    }
  }

  lemma NoStep(dec: DecodeFn, h: Hart)
    ensures StepN(dec, 0, h) == h
  {}

  lemma StepAfter(dec: DecodeFn, k: nat, h: Hart)
    ensures StepN(dec, k + 1, h) == Step(dec, StepN(dec, k, h))
  {
    StepNAdd(dec, k, 1, h);
    NoStep(dec, Step(dec, StepN(dec, k, h)));
  }

  lemma {:induction false} RunKeepsSatp(dec: DecodeFn, k: nat, h: Hart)
    ensures StepN(dec, k, h).satp == h.satp
    decreases k
  {
    hide Execute;
    if k > 0 {
      if h.status == Running && DecodeAt(dec, h, h.pc).Some? {
        ExecuteKeeps(DecodeAt(dec, h, h.pc).value, h);
      }
      RunKeepsSatp(dec, k - 1, Step(dec, h));
    }
  }

  // In Bare mode nothing is asked of the program.
  lemma BareRunFits(dec: DecodeFn, h: Hart, seen: iset<bv64>)
    requires Mode(h.satp) == 0
    ensures RunFits(dec, h, seen)
  {
    hide Mode, Translate;
    forall n: nat
      ensures StepFits(dec, StepN(dec, n, h), seen)
    {
      RunKeepsSatp(dec, n, h);
    }
  }

  // The hart with its MMU; `hart.mem` is the memory behind the MMU.
  class PagedHart {
    const mmu: M.Mmu
    var hart: Hart

    ghost predicate Empty()
      reads mmu.itlb.entries, mmu.dtlbR.entries, mmu.dtlbW.entries
    {
      AllInvalid(mmu.itlb.entries[..]) && AllInvalid(mmu.dtlbR.entries[..]) && AllInvalid(mmu.dtlbW.entries[..])
    }

    ghost predicate Valid(seen: iset<bv64>)
      reads this, mmu, mmu.itlb.entries, mmu.dtlbR.entries, mmu.dtlbW.entries
    {
      && mmu.Valid() && mmu.mem == hart.mem
      && (Mode(hart.satp) == 0 ==> Empty())
      && (Mode(hart.satp) == SV39_MODE ==> mmu.Coherent(RootTable(hart.satp), seen))
    }

    constructor (h: Hart)
      ensures hart == h && Empty() && forall seen :: Valid(seen)
      ensures fresh(mmu) && fresh(mmu.itlb.entries) && fresh(mmu.dtlbR.entries) && fresh(mmu.dtlbW.entries)
    {
      mmu := new M.Mmu(h.mem);
      hart := h;
    }

    method VaToPa(access: M.Access, va: bv64, ghost seen: iset<bv64>) returns (pa: Option<bv64>)
      requires Valid(seen) && InReach(hart, va, seen)
      modifies mmu.itlb.entries, mmu.dtlbR.entries, mmu.dtlbW.entries
      ensures Valid(seen) && pa == Translate(hart.mem, hart.satp, va)
    {
      hide Walk, M.ServedBy, M.UpperVpn, InReach, Translate;
      var ctx := M.Context(RootTable(hart.satp), Mode(hart.satp));
      ReachModes(hart, va, seen);
      var r, va0 := mmu.Translate(access, va, ctx, seen);
      AnswerIsRight(hart, va, seen, r, va0);
      pa := if r.Fault? then None else Some(r.pa);
    }

    method Load(access: M.Access, va: bv64, n: nat, ghost seen: iset<bv64>) returns (v: Option<bv64>)
      requires Valid(seen) && InReach(hart, va, seen)
      modifies mmu.itlb.entries, mmu.dtlbR.entries, mmu.dtlbW.entries
      ensures Valid(seen) && v == Isa.Load(hart, va, n)
    {
      var pa := VaToPa(access, va, seen);
      v := if pa.None? then None else Some(Read(mmu.mem, pa.value, n));
    }

    // The new memory, or an abort.
    method Store(va: bv64, value: bv64, n: nat, ghost seen: iset<bv64>) returns (ok: bool)
      requires Valid(seen) && InReach(hart, va, seen) && StoreFits(hart, va, n)
      modifies this, mmu`mem, mmu.itlb.entries, mmu.dtlbR.entries, mmu.dtlbW.entries
      ensures Valid(seen) && hart == (if ok then Isa.Store(old(hart), va, value, n) else old(hart))
      ensures ok <==> Translate(old(hart).mem, old(hart).satp, va).Some?
    {
      hide InReach, Translate, Mode, Write, M.SparesTables;
      var pa := VaToPa(M.Store, va, seen);
      ok := pa.Some?;
      if ok {
        mmu.MemStore(pa.value, value, n, RootTable(hart.satp), seen);
        hart := hart.(mem := mmu.mem);
      }
    }

    // One fetched, decoded and executed instruction.
    method Step(dec: DecodeFn, ghost seen: iset<bv64>)
      requires Valid(seen) && StepFits(dec, hart, seen)
      modifies this, mmu`mem, mmu.itlb.entries, mmu.dtlbR.entries, mmu.dtlbW.entries
      ensures Valid(seen) && hart == Reference.Step(dec, old(hart))
    {
      if hart.status != Running {
        return;
      }
      var word := Load(M.Fetch, hart.pc, 4, seen);
      StepIsExecute(dec, hart);
      if word.None? {
        hart := hart.(status := Aborted);
      } else {
        ExecuteOne(dec(Word(word.value)), seen);
      }
    }

    method ExecuteOne(i: Instr, ghost seen: iset<bv64>)
      requires Valid(seen) && hart.status == Running
      requires IsLoad(i.opcode) || IsStore(i.opcode) ==> InReach(hart, DataAddress(i, hart), seen)
      requires IsStore(i.opcode) ==> StoreFits(hart, DataAddress(i, hart), Width(i.opcode))
      modifies this, mmu`mem, mmu.itlb.entries, mmu.dtlbR.entries, mmu.dtlbW.entries
      ensures Valid(seen) && hart == Execute(i, old(hart))
    {
      hide Execute, IsStore;
      if IsLoad(i.opcode) {
        ExecuteLoad(i, seen);
      } else if IsStore(i.opcode) {
        ExecuteStore(i, seen);
      } else {
        ComputesOnly(i, hart);
        hart := Execute(i, hart);
      }
    }

    method ExecuteLoad(i: Instr, ghost seen: iset<bv64>)
      requires Valid(seen) && hart.status == Running && IsLoad(i.opcode) && InReach(hart, DataAddress(i, hart), seen)
      modifies this, mmu.itlb.entries, mmu.dtlbR.entries, mmu.dtlbW.entries
      ensures Valid(seen) && hart == Execute(i, old(hart))
    {
      hide Execute, InReach, SetReg, Isa.Load, Mode;
      Isa.ExecuteLoad(i, hart);
      var v := Load(M.Load, DataAddress(i, hart), Width(i.opcode), seen);
      if v.None? {
        hart := hart.(status := Aborted);
      } else {
        SetRegMemory(hart, i.rd, v.value, Add(hart.pc, 4));
        SetRegKeeps(hart, i.rd, v.value, Add(hart.pc, 4));
        hart := SetReg(hart, i.rd, v.value).(pc := Add(hart.pc, 4));
      }
    }

    method ExecuteStore(i: Instr, ghost seen: iset<bv64>)
      requires Valid(seen) && hart.status == Running && IsStore(i.opcode)
      requires InReach(hart, DataAddress(i, hart), seen) && StoreFits(hart, DataAddress(i, hart), Width(i.opcode))
      modifies this, mmu`mem, mmu.itlb.entries, mmu.dtlbR.entries, mmu.dtlbW.entries
      ensures Valid(seen) && hart == Execute(i, old(hart))
    {
      hide Execute, InReach, DataAddress, Width, StoreFits, Translate, Write, GetReg, Empty, Mode, RootTable, Add;
      StoreEffect(i, hart);
      var ok := Store(DataAddress(i, hart), GetReg(hart, i.rs2), Width(i.opcode), seen);
      hart := if ok then hart.(pc := Add(hart.pc, 4)) else hart.(status := Aborted);
    }

    // n steps through the TLBs are n steps of the machine without them.
    method Run(dec: DecodeFn, n: nat, ghost seen: iset<bv64>)
      requires Valid(seen) && RunFits(dec, hart, seen)
      modifies this, mmu`mem, mmu.itlb.entries, mmu.dtlbR.entries, mmu.dtlbW.entries
      ensures Valid(seen) && hart == StepN(dec, n, old(hart))
    {
      hide Reference.Step, Valid;
      NoStep(dec, hart);
      for k := 0 to n
        invariant Valid(seen) && hart == StepN(dec, k, old(hart))
      {
        StepAfter(dec, k, old(hart));
        Step(dec, seen);
      }
    }

    // satp is set without a flush, which is sound while nothing is cached: from Bare mode.
    method SetSatp(satp: bv64, ghost seen: iset<bv64>)
      requires Valid(seen) && Mode(hart.satp) == 0
      modifies this
      ensures Valid(seen) && hart == old(hart).(satp := satp)
    {
      InvalidIsSound(mmu.itlb.entries[..], mmu.mem, RootTable(satp), seen);
      InvalidIsSound(mmu.dtlbR.entries[..], mmu.mem, RootTable(satp), seen);
      InvalidIsSound(mmu.dtlbW.entries[..], mmu.mem, RootTable(satp), seen);
      hart := hart.(satp := satp);
    }

    // A whole program: n steps in Bare mode, which build the tables, then satp is set once and
    // paging stays on.
    method RunThenPage(dec: DecodeFn, n: nat, satp: bv64, k: nat, ghost seen: iset<bv64>)
      requires Valid(seen) && Mode(hart.satp) == 0 && RunFits(dec, StepN(dec, n, hart).(satp := satp), seen)
      modifies this, mmu`mem, mmu.itlb.entries, mmu.dtlbR.entries, mmu.dtlbW.entries
      ensures hart == StepN(dec, k, StepN(dec, n, old(hart)).(satp := satp))
    {
      hide StepN, RunFits;
      BareRunFits(dec, hart, seen);
      RunKeepsSatp(dec, n, hart);
      Run(dec, n, seen);
      SetSatp(satp, seen);
      Run(dec, k, seen);
    }
  }
}
