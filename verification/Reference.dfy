/** The slow machine: fetch, decode and execute one instruction at a time. */
module Reference {
  import opened Bits
  import opened Isa

  type DecodeFn = bv32 -> Instr

  // The instruction at pc, or None when the fetch faults.
  function DecodeAt(dec: DecodeFn, h: Hart, pc: bv64): Option<Instr>
  {
    match Load(h, pc, 4)
    case None => None
    case Some(word) => Some(dec(Word(word)))
  }

  // One step; a halted or aborted machine stays as it is.
  function Step(dec: DecodeFn, h: Hart): Hart
  {
    if h.status != Running then h
    else
      match DecodeAt(dec, h, h.pc)
      case None => h.(status := Aborted)
      case Some(i) => Execute(i, h)
  }

  function StepN(dec: DecodeFn, n: nat, h: Hart): Hart
  {
    if n == 0 then h else StepN(dec, n - 1, Step(dec, h))
  }

  lemma {:induction false} StepNAdd(dec: DecodeFn, m: nat, n: nat, h: Hart)
    ensures StepN(dec, m + n, h) == StepN(dec, n, StepN(dec, m, h))
    decreases m
  {
    hide Step;
    if m > 0 {
      StepNAdd(dec, m - 1, n, Step(dec, h));
    }
  }

  lemma {:induction false} StoppedStays(dec: DecodeFn, n: nat, h: Hart)
    requires h.status != Running
    ensures StepN(dec, n, h) == h
    decreases n
  {
    if n > 0 {
      StoppedStays(dec, n - 1, h);
    }
  }

  // g is h after n instructions, each of them executed: no step was made by a stopped machine.
  ghost predicate Retires(dec: DecodeFn, n: nat, h: Hart, g: Hart)
  {
    g == StepN(dec, n, h) && (n == 0 || StepN(dec, n - 1, h).status == Running)
  }

  lemma RetiresNone(dec: DecodeFn, h: Hart)
    ensures Retires(dec, 0, h, h)
  {}

  lemma RetiresOne(dec: DecodeFn, h: Hart)
    requires h.status == Running
    ensures Retires(dec, 1, h, Step(dec, h))
  {
    assert StepN(dec, 1, h) == StepN(dec, 0, Step(dec, h));
  }

  lemma RetiresAdd(dec: DecodeFn, m: nat, n: nat, f: Hart, g: Hart, h: Hart)
    requires Retires(dec, m, f, g) && Retires(dec, n, g, h)
    ensures Retires(dec, m + n, f, h)
  {
    hide StepN;
    StepNAdd(dec, m, n, f);
    if n > 0 {
      StepNAdd(dec, m, n - 1, f);
    }
  }

  // Two stopped states of the same run are the same state, reached by the same number of
  // instructions.
  lemma StopsOnce(dec: DecodeFn, m: nat, n: nat, f: Hart, g: Hart, h: Hart)
    requires Retires(dec, m, f, g) && Retires(dec, n, f, h)
    requires g.status != Running && h.status != Running
    ensures m == n && g == h
  {
    if m < n {
      StopsBefore(dec, m, n, f);
    } else if n < m {
      StopsBefore(dec, n, m, f);
    }
  }

  lemma StopsBefore(dec: DecodeFn, m: nat, n: nat, f: Hart)
    requires m < n && StepN(dec, m, f).status != Running
    ensures StepN(dec, n - 1, f).status != Running
  {
    StepNAdd(dec, m, n - 1 - m, f);
    StoppedStays(dec, n - 1 - m, StepN(dec, m, f));
  }
}
