/** The direct-mapped block cache and the promotion of hot blocks, over a slot array. */
module BlockCache {
  import opened Bits
  import opened Compiler
  import opened Sim
  import opened Numbers
  import opened SlotIndex

  predicate IsPowerOfTwo(x: nat) { x != 0 && BitAnd(x, x - 1) == 0 }

  // The bit trick accepts exactly the powers of two.
  lemma {:induction false} PowerOfTwoTest(x: nat)
    ensures IsPowerOfTwo(x) <==> exists k: nat :: x == Pow2(k)
    decreases x
  {
    if x % 2 == 1 {
      OddCase(x);
    } else if x > 0 {
      PowerOfTwoTest(x / 2);
      assert (x - 1) / 2 == x / 2 - 1 && (x - 1) % 2 == 1;
      assert BitAnd(x, x - 1) == 2 * BitAnd(x / 2, x / 2 - 1);
      assert IsPowerOfTwo(x) <==> IsPowerOfTwo(x / 2);
      if IsPowerOfTwo(x / 2) {
        var k: nat :| x / 2 == Pow2(k);
        assert x == Pow2(k + 1);
      } else {
        forall k: nat
          ensures x != Pow2(k)
        {
          if k > 0 {
            assert Pow2(k) == 2 * Pow2(k - 1) && x / 2 != Pow2(k - 1);
          }
        }
      }
    } else {
      forall k: nat
        ensures Pow2(k) > 0
      {
        Pow2Positive(k);
      }
    }
  }

  lemma {:induction false} Pow2Positive(k: nat)
    ensures Pow2(k) > 0
    decreases k
  {
    if k > 0 {
      Pow2Positive(k - 1);
    }
  }

  lemma LaterPowersAreEven(k: nat)
    requires k > 0
    ensures Pow2(k) % 2 == 0
  {}

  lemma OddAnd(x: nat)
    requires x % 2 == 1 && x > 1
    ensures BitAnd(x, x - 1) != 0
  {
    assert BitAnd(x, x - 1) == 2 * BitAnd(x / 2, (x - 1) / 2) && (x - 1) / 2 == x / 2;
    AndWithItself(x / 2);
  }

  lemma OddCase(x: nat)
    requires x % 2 == 1
    ensures IsPowerOfTwo(x) <==> exists k: nat :: x == Pow2(k)
  {
    if x == 1 {
      NothingAnd(x);
      assert x - 1 == 0 && IsPowerOfTwo(x);
      assert x == Pow2(0);
    } else {
      OddAnd(x);
      forall k: nat
        ensures x == Pow2(k) ==> k == 0
      {
        if k > 0 {
          LaterPowersAreEven(k);
        }
      }
    }
  }

  lemma NothingAnd(x: nat)
    ensures BitAnd(x, 0) == 0
  {}

  lemma {:induction false} AndWithItself(x: nat)
    ensures BitAnd(x, x) == x
    decreases x
  {
    if x > 0 {
      AndWithItself(x / 2);
    }
  }

  lemma {:induction false} AndIsBounded(x: nat, y: nat)
    ensures BitAnd(x, y) <= y
    decreases y
  {
    if x != 0 && y != 0 {
      AndIsBounded(x / 2, y / 2);
    }
  }

  class NaiveCache {
    const slots: array<Option<Block>>    // an invalid slot is None
    const mask: nat

    ghost predicate Valid()
    {
      slots.Length == mask + 1
    }

    // The valid slots.
    ghost function Contents(): Slots
      reads slots
    {
      map k: nat | k < slots.Length && slots[k].Some? :: slots[k].value
    }

    constructor (entries: nat)
      requires entries > 0
      ensures Valid() && Contents() == map[] && slots.Length == entries && fresh(slots)
    {
      slots := new Option<Block>[entries](_ => None);
      mask := entries - 1;
    }

    // The source's constructor throws for other sizes than powers of two.
    static method Create(entries: nat) returns (r: NaiveCache?)
      ensures r != null <==> exists k: nat :: entries == Pow2(k)
      ensures r != null ==>
                r.Valid() && r.Contents() == map[] && r.slots.Length == entries && fresh(r) && fresh(r.slots)
    {
      PowerOfTwoTest(entries);
      if IsPowerOfTwo(entries) {
        r := new NaiveCache(entries);
      } else {
        r := null;
      }
    }

    method IndexFor(pc: bv64) returns (k: nat)
      requires Valid()
      ensures k == Index(mask, pc) < slots.Length
    {
      AndIsBounded(Truncated(pc as nat) / 4, mask);
      k := Index(mask, pc);
    }

    method Lookup(pc: bv64) returns (b: Option<Block>)
      requires Valid()
      ensures b == if Index(mask, pc) in Contents() then Some(Contents()[Index(mask, pc)]) else None
    {
      var k := IndexFor(pc);
      b := slots[k];
    }

    // Whatever the slot held before is gone.
    method Install(b: Block)
      requires Valid()
      modifies slots
      ensures Contents() == old(Contents())[Index(mask, b.startPc) := b]
    {
      var k := IndexFor(b.startPc);
      slots[k] := Some(b);
    }

    method InvalidateAll()
      modifies slots
      ensures Contents() == map[]
    {
      for k := 0 to slots.Length
        invariant forall j | 0 <= j < k :: slots[j].None?
      {
        slots[k] := None;
      }
    }
  }
}
