/** The byte memory: zero-filled, little-endian, written in place. */
module Memory {

  // One byte per address; every byte of the fresh mapping is zero.
  type Mem = bv64 -> bv8

  function SetByte(m: Mem, a: bv64, v: bv8): Mem { x => if x == a then v else m(x) }

  function Next(a: bv64): bv64 { a + 1 }

  function Glue(low: bv8, rest: bv64): bv64 { (low as bv64) | (rest << 8) }

  // `memcpy` of n bytes into a zeroed 64-bit word.
  function Read(m: Mem, a: bv64, n: nat): bv64
    decreases n
  {
    if n == 0 then 0 else Glue(m(a), Read(m, Next(a), n - 1))
  }

  // `memcpy` of the low n bytes of v.
  function Write(m: Mem, a: bv64, v: bv64, n: nat): Mem
    decreases n
  {
    if n == 0 then m else Write(SetByte(m, a, (v & 0xFF) as bv8), Next(a), v >> 8, n - 1)
  }

  // The n bytes from a on, modulo 2^64.
  ghost function Span(a: bv64, n: nat): set<bv64>
    decreases n
  {
    if n == 0 then {} else {a} + Span(Next(a), n - 1)
  }

  // A write changes no byte outside the bytes written.
  lemma {:induction false} WriteElsewhere(m: Mem, b: bv64, v: bv64, k: nat, x: bv64)
    requires x !in Span(b, k)
    ensures Write(m, b, v, k)(x) == m(x)
    decreases k
  {
    if k != 0 {
      WriteElsewhere(SetByte(m, b, (v & 0xFF) as bv8), Next(b), v >> 8, k - 1, x);
    }
  }

  lemma {:induction false} ReadOfSameBytes(m1: Mem, m2: Mem, a: bv64, n: nat)
    requires forall x | x in Span(a, n) :: m1(x) == m2(x)
    ensures Read(m1, a, n) == Read(m2, a, n)
    decreases n
  {
    if n > 0 {
      ReadOfSameBytes(m1, m2, Next(a), n - 1);
    }
  }

  lemma ReadAfterDisjointWrite(m: Mem, a: bv64, n: nat, b: bv64, v: bv64, k: nat)
    requires Span(a, n) !! Span(b, k)
    ensures Read(Write(m, b, v, k), a, n) == Read(m, a, n)
  {
    forall x | x in Span(a, n)
      ensures Write(m, b, v, k)(x) == m(x)
    {
      WriteElsewhere(m, b, v, k, x);
    }
    ReadOfSameBytes(Write(m, b, v, k), m, a, n);
  }

  lemma NearAligned(a: bv64, k: bv64)
    requires a & 7 == 0 && k < 8
    ensures (a + k) & !7 == a
  {}

  ghost function AlignedSpan(a: bv64): set<bv64> { {a, a + 1, a + 2, a + 3, a + 4, a + 5, a + 6, a + 7} }

  lemma Span8(a: bv64)
    ensures Span(a, 8) == AlignedSpan(a)
  {
    Nexts(a);
    var b := Next(a); var c := Next(b); var d := Next(c); var e := Next(d);
    var f := Next(e); var g := Next(f); var h := Next(g);
    calc {
      Span(a, 8);
      ({a}) + Span(b, 7);
      ({a, b}) + Span(c, 6);
      ({a, b, c}) + Span(d, 5);
      ({a, b, c, d}) + Span(e, 4);
    }
    calc {
      Span(e, 4);
      ({e}) + Span(f, 3);
      ({e, f}) + Span(g, 2);
      ({e, f, g}) + Span(h, 1);
      ({e, f, g, h}) + Span(Next(h), 0);
    }
  }

  lemma Nexts(a: bv64)
    ensures Next(a) == a + 1 && Next(a + 1) == a + 2 && Next(a + 2) == a + 3 && Next(a + 3) == a + 4 &&
            Next(a + 4) == a + 5
    ensures Next(a + 5) == a + 6 && Next(a + 6) == a + 7
  {}

  // The eight bytes of an aligned doubleword share all address bits but the low three.
  lemma AlignedWord(a: bv64, x: bv64)
    requires a & 7 == 0 && x in Span(a, 8)
    ensures x & !7 == a
  {
    Span8(a);
    var k: bv64 :| k < 8 && x == a + k;
    NearAligned(a, k);
  }

  // A doubleword read returns what was written there.
  lemma ReadBack(m: Mem, a: bv64, v: bv64)
    ensures Read(Write(m, a, v, 8), a, 8) == v
  {
    Proper8(a);
    hide *;
    ReadBackFrom(m, a, v, 8);
    Low8(v);
  }

  // The low n bytes of v.
  function Low(v: bv64, n: nat): bv64
    decreases n
  {
    if n == 0 then 0 else Glue((v & 0xFF) as bv8, Low(v >> 8, n - 1))
  }

  // The span of n bytes from a does not wrap onto itself.
  ghost predicate Proper(a: bv64, n: nat)
    decreases n
  {
    n == 0 || (a !in Span(Next(a), n - 1) && Proper(Next(a), n - 1))
  }

  lemma {:induction false} ReadBackFrom(m: Mem, a: bv64, v: bv64, n: nat)
    requires Proper(a, n)
    ensures Read(Write(m, a, v, n), a, n) == Low(v, n)
    decreases n
  {
    if n > 0 {
      var m' := SetByte(m, a, (v & 0xFF) as bv8);
      ReadBackFrom(m', Next(a), v >> 8, n - 1);
      WriteElsewhere(m', Next(a), v >> 8, n - 1, a);
    }
  }

  lemma Low8(v: bv64)
    ensures Low(v, 8) == v
  {}

  lemma Proper8(a: bv64)
    ensures Proper(a, 8)
  {
    Nexts(a);
    hide Next;
    var b, c, d, e, f, g, h := a + 1, a + 2, a + 3, a + 4, a + 5, a + 6, a + 7;
    assert a !in {b, c, d, e, f, g, h} && b !in {c, d, e, f, g, h} && c !in {d, e, f, g, h} &&
           d !in {e, f, g, h} && e !in {f, g, h} && f !in {g, h} && g != h;
    assert Span(h, 1) == {h};
    assert Span(g, 2) == {g, h};
    assert Span(f, 3) == {f, g, h};
    assert Span(e, 4) == {e, f, g, h};
    assert Span(d, 5) == {d, e, f, g, h};
    assert Span(c, 6) == {c, d, e, f, g, h};
    assert Span(b, 7) == {b, c, d, e, f, g, h};
  }

  lemma ByteFits(m: Mem, a: bv64)
    ensures Read(m, a, 1) & 0xFF == Read(m, a, 1)
  {
    assert Read(m, a, 1) == Glue(m(a), 0);
    GlueByte(m(a));
  }

  lemma HalfFits(m: Mem, a: bv64)
    ensures Read(m, a, 2) & 0xFFFF == Read(m, a, 2)
  {
    assert Read(m, a, 2) == Glue(m(a), Read(m, Next(a), 1));
    ByteFits(m, Next(a));
    GlueHalf(m(a), Read(m, Next(a), 1));
  }

  lemma WordFits(m: Mem, a: bv64)
    ensures Read(m, a, 4) & 0xFFFF_FFFF == Read(m, a, 4)
  {
    hide Glue;
    assert Read(m, a, 4) == Glue(m(a), Read(m, Next(a), 3));
    assert Read(m, Next(a), 3) == Glue(m(Next(a)), Read(m, Next(Next(a)), 2));
    HalfFits(m, Next(Next(a)));
    GlueThree(m(Next(a)), Read(m, Next(Next(a)), 2));
    GlueWord(m(a), Read(m, Next(a), 3));
  }

  lemma GlueByte(b: bv8)
    ensures Glue(b, 0) & 0xFF == Glue(b, 0)
  {}

  lemma GlueHalf(b: bv8, rest: bv64)
    requires rest & 0xFF == rest
    ensures Glue(b, rest) & 0xFFFF == Glue(b, rest)
  {}

  lemma GlueThree(b: bv8, rest: bv64)
    requires rest & 0xFFFF == rest
    ensures Glue(b, rest) & 0xFF_FFFF == Glue(b, rest)
  {}

  lemma GlueWord(b: bv8, rest: bv64)
    requires rest & 0xFF_FFFF == rest
    ensures Glue(b, rest) & 0xFFFF_FFFF == Glue(b, rest)
  {}
}
