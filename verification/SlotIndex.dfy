/** The slot index of the direct-mapped block cache, and when two pcs share a slot. */
module SlotIndex {
  import opened Numbers

  // x & y, on naturals.
  function BitAnd(x: nat, y: nat): nat
  {
    if x == 0 || y == 0 then 0 else x % 2 * (y % 2) + 2 * BitAnd(x / 2, y / 2)
  }

  const WORD_RANGE: nat := 0x1_0000_0000

  // (start_pc / 4) & mask, start_pc truncated to 32 bits.
  function AddressIndex(mask: nat, address: nat): nat { BitAnd(Truncated(address) / 4, mask) }

  function Truncated(address: nat): nat { if address < WORD_RANGE then address else address % WORD_RANGE }

  function Index(mask: nat, pc: bv64): nat { AddressIndex(mask, pc as nat) }

  // The slot array's constructor: power-of-two sizes only.
  predicate IsMask(mask: nat, k: nat) { mask == Pow2(k) - 1 }

  lemma MaskHalves(x: nat, half: nat)
    requires half > 0
    ensures BitAnd(x, 2 * half - 1) == x % 2 + 2 * BitAnd(x / 2, half - 1)
  {
    assert (2 * half - 1) / 2 == half - 1 && (2 * half - 1) % 2 == 1;
  }

  lemma NoMask(x: nat)
    ensures BitAnd(x, 0) == 0
  {}

  lemma {:induction false} MaskKeepsLow(x: nat, k: nat)
    ensures Pow2(k) > 0 && BitAnd(x, Pow2(k) - 1) == LowBits(x, k)
    decreases k
  {
    hide BitAnd;
    if k == 0 {
      NoMask(x);
    } else {
      MaskKeepsLow(x / 2, k - 1);
      MaskHalves(x, Pow2(k - 1));
    }
  }

  // Numbers less than 2^k apart differ in their low k bits.
  lemma {:induction false} LowSeparates(x: nat, y: nat, k: nat)
    requires LowBits(x, k) == LowBits(y, k) && y <= x < y + Pow2(k)
    ensures x == y
    decreases k
  {
    if k > 0 {
      assert LowBits(x / 2, k - 1) == LowBits(y / 2, k - 1);
      LowSeparates(x / 2, y / 2, k - 1);
    }
  }

  // pc is 4-aligned, below 2^32, and less than 4 * capacity bytes from base on.
  predicate InWindow(base: nat, mask: nat, address: nat)
  {
    address % 4 == 0 && address < WORD_RANGE && base <= address < base + 4 * (mask + 1)
  }

  // In any window of 4 * capacity bytes, each aligned pc has a slot of its own.
  lemma WindowSeparates(base: nat, mask: nat, k: nat, p: bv64, q: bv64)
    requires IsMask(mask, k) && base % 4 == 0 && InWindow(base, mask, p as nat) && InWindow(base, mask, q as nat)
    requires Index(mask, p) == Index(mask, q)
    ensures p == q
  {
    AddressesSeparate(base, mask, k, p as nat, q as nat);
    assert (p as nat) as bv64 == p && (q as nat) as bv64 == q;
  }

  lemma IndexIsLow(mask: nat, k: nat, address: nat)
    requires IsMask(mask, k) && address < WORD_RANGE
    ensures AddressIndex(mask, address) == LowBits(address / 4, k)
  {
    MaskKeepsLow(address / 4, k);
  }

  lemma AddressesSeparate(base: nat, mask: nat, k: nat, p: nat, q: nat)
    requires IsMask(mask, k) && base % 4 == 0 && InWindow(base, mask, p) && InWindow(base, mask, q)
    requires AddressIndex(mask, p) == AddressIndex(mask, q)
    ensures p == q
  {
    IndexIsLow(mask, k, p);
    IndexIsLow(mask, k, q);
    if p >= q {
      LowSeparates(p / 4, q / 4, k);
    } else {
      LowSeparates(q / 4, p / 4, k);
    }
  }

  // Division with a variable divisor, by name, so that proofs need not unfold it.
  function Times(q: nat, d: nat): nat { q * d }

  function Quotient(x: nat, d: nat): nat
    requires d > 0
  {
    x / d
  }

  function Remainder(x: nat, d: nat): nat
    requires d > 0
  {
    x % d
  }

  lemma DivisionHolds(x: nat, d: nat)
    requires d > 0
    ensures x == Times(Quotient(x, d), d) + Remainder(x, d) && Remainder(x, d) < d
  {}

  lemma {:induction false} TimesMonotone(a: nat, b: nat, d: nat)
    requires a < b
    ensures Times(a, d) + d <= Times(b, d)
    decreases b
  {
    if a + 1 < b {
      TimesMonotone(a, b - 1, d);
    }
  }

  lemma RemainderUnique(p: nat, s: nat, q: nat, r: nat, d: nat)
    requires Times(p, d) + s == Times(q, d) + r && s < d && r < d
    ensures s == r
  {
    hide Times;
    if p < q {
      TimesMonotone(p, q, d);
    } else if q < p {
      TimesMonotone(q, p, d);
    }
  }

  lemma TimesTwice(q: nat, half: nat)
    ensures Times(q, 2 * half) == 2 * Times(q, half)
  {}

  lemma DoubledRemainder(x: nat, half: nat)
    requires half > 0
    ensures Remainder(x, 2 * half) == 2 * Remainder(x / 2, half) + x % 2
  {
    hide Times, Quotient, Remainder;
    DivisionHolds(x / 2, half);
    DivisionHolds(x, 2 * half);
    var q := Quotient(x / 2, half);
    TimesTwice(q, half);
    RemainderUnique(Quotient(x, 2 * half), Remainder(x, 2 * half), q, 2 * Remainder(x / 2, half) + x % 2, 2 * half);
  }

  // The low k bits are the remainder by 2^k.
  lemma {:induction false} LowIsRemainder(x: nat, k: nat)
    ensures Pow2(k) > 0 && LowBits(x, k) == Remainder(x, Pow2(k))
    decreases k
  {
    hide Remainder;
    if k == 0 {
      NoRemainder(x);
    } else {
      LowIsRemainder(x / 2, k - 1);
      DoubledRemainder(x, Pow2(k - 1));
    }
  }

  lemma NoRemainder(x: nat)
    ensures Remainder(x, 1) == 0
  {}

  function Number(pc: bv64): nat { pc as nat }

  // Two 32-bit pcs share a slot exactly when their word indices agree modulo the capacity.
  lemma SharedSlot(mask: nat, k: nat, p: bv64, q: bv64)
    requires IsMask(mask, k) && Number(p) < WORD_RANGE && Number(q) < WORD_RANGE
    ensures Index(mask, p) == Index(mask, q) <==>
            Remainder(Number(p) / 4, mask + 1) == Remainder(Number(q) / 4, mask + 1)
  {
    AddressesShare(mask, k, Number(p), Number(q));
  }

  lemma AddressesShare(mask: nat, k: nat, p: nat, q: nat)
    requires IsMask(mask, k) && p < WORD_RANGE && q < WORD_RANGE
    ensures AddressIndex(mask, p) == AddressIndex(mask, q) <==> Remainder(p / 4, mask + 1) == Remainder(q / 4, mask + 1)
  {
    hide Remainder;
    IndexIsLow(mask, k, p);
    IndexIsLow(mask, k, q);
    LowIsRemainder(p / 4, k);
    LowIsRemainder(q / 4, k);
  }
}
