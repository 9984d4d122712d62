/** The memory as a buffer written in place, and its agreement with the byte memory as a value. */
module ByteMemory {
  import opened Memory

  // The low n bytes of v, lowest first, as the host stores a word.
  function BytesOf(v: bv64, n: nat): (s: seq<bv8>)
    ensures |s| == n
  {
    if n == 0 then [] else [(v & 0xFF) as bv8] + BytesOf(v >> 8, n - 1)
  }

  // The word with these bytes, the rest zero.
  function WordOf(s: seq<bv8>): bv64 { if s == [] then 0 else Glue(s[0], WordOf(s[1..])) }

  // The n bytes from a on.
  function BytesAt(m: Mem, a: bv64, n: nat): (s: seq<bv8>)
    ensures |s| == n
    decreases n
  {
    if n == 0 then [] else [m(a)] + BytesAt(m, Next(a), n - 1)
  }

  // A read of the value memory depends on its bytes as a read of the buffer does.
  lemma {:induction false} ReadIsWordOf(m: Mem, a: bv64, n: nat)
    ensures Read(m, a, n) == WordOf(BytesAt(m, a, n))
    decreases n
  {
    if n > 0 {
      ReadIsWordOf(m, Next(a), n - 1);
      assert BytesAt(m, a, n)[1..] == BytesAt(m, Next(a), n - 1);
    }
  }

  // And a write leaves the bytes a write to the buffer leaves.
  lemma {:induction false} WriteIsBytesOf(m: Mem, a: bv64, v: bv64, n: nat)
    requires Proper(a, n)
    ensures BytesAt(Write(m, a, v, n), a, n) == BytesOf(v, n)
    decreases n
  {
    if n > 0 {
      var m' := SetByte(m, a, (v & 0xFF) as bv8);
      WriteIsBytesOf(m', Next(a), v >> 8, n - 1);
      WriteElsewhere(m', Next(a), v >> 8, n - 1, a);
    }
  }

  // What was written is read back, cut to the bytes written.
  lemma {:induction false} StoredIsLow(v: bv64, n: nat)
    ensures WordOf(BytesOf(v, n)) == Low(v, n)
    decreases n
  {
    if n > 0 {
      StoredIsLow(v >> 8, n - 1);
      assert BytesOf(v, n)[1..] == BytesOf(v >> 8, n - 1);
    }
  }

  const ADDRESS_RANGE := 0x1_0000_0000_0000_0000

  // The contents after overwriting from a on.
  function Patched(s: seq<bv8>, a: nat, data: seq<bv8>): seq<bv8>
    requires a + |data| <= |s|
  {
    s[..a] + data + s[a + |data|..]
  }

  lemma PatchedAt(s: seq<bv8>, a: nat, data: seq<bv8>, b: nat, n: nat)
    requires a + |data| <= |s| && b + n <= |s|
    ensures b == a && n == |data| ==> Patched(s, a, data)[b..b + n] == data
    ensures b + n <= a || a + |data| <= b ==> Patched(s, a, data)[b..b + n] == s[b..b + n]
  {
    var r := Patched(s, a, data);
    assert forall k | 0 <= k < |s| :: r[k] == if a <= k < a + |data| then data[k - a] else s[k];
    assert r[a..a + |data|] == data;
    assert b + n <= a || a + |data| <= b ==> r[b..b + n] == s[b..b + n];
  }

  // After a write of m bytes at a, a read of them gives the value cut to those bytes, and a read
  // of any others what it gave before.
  lemma ReadAfterWrite(s: seq<bv8>, a: nat, v: bv64, m: nat, b: nat, n: nat)
    requires a + m <= |s| && b + n <= |s|
    ensures b == a && n == m ==> WordOf(Patched(s, a, BytesOf(v, m))[b..b + n]) == Low(v, m)
    ensures b + n <= a || a + m <= b ==> WordOf(Patched(s, a, BytesOf(v, m))[b..b + n]) == WordOf(s[b..b + n])
  {
    PatchedAt(s, a, BytesOf(v, m), b, n);
    StoredIsLow(v, m);
  }

  // The bounds test of load_data and zero_init: the end is computed in 64 bits.
  predicate PassesTest(addr: nat, size: nat, capacity: nat) { (addr + size) % ADDRESS_RANGE <= capacity }

  // It is right exactly when the end does not wrap, or wraps to beyond the capacity.
  lemma TestIsRight(addr: nat, size: nat, capacity: nat)
    requires addr < ADDRESS_RANGE && size < ADDRESS_RANGE && capacity < ADDRESS_RANGE
    ensures (PassesTest(addr, size, capacity) <==> addr + size <= capacity) <==>
            addr + size < ADDRESS_RANGE || addr + size - ADDRESS_RANGE > capacity
  {}

  // One byte at the last address passes whatever the capacity.
  lemma LastBytePasses(capacity: nat)
    requires capacity < ADDRESS_RANGE
    ensures PassesTest(ADDRESS_RANGE - 1, 1, capacity) && ADDRESS_RANGE - 1 + 1 > capacity
  {}

  // What a bulk write does: it is refused, or copies, or passes the test and then runs out of the
  // buffer, which C++ leaves undefined.
  datatype Outcome = Refused | Copied | OutOfBounds

  function Outcomes(addr: nat, size: nat, capacity: nat): Outcome
  {
    if !PassesTest(addr, size, capacity) then Refused else if addr + size <= capacity then Copied else OutOfBounds
  }

  class PhysicalMemory {
    const backing: array<bv8>

    constructor (pages: nat, pageSize: nat)
      ensures backing.Length == pages * pageSize && fresh(backing)
      ensures forall k | 0 <= k < backing.Length :: backing[k] == 0
    {
      backing := new bv8[pages * pageSize](_ => 0);
    }

    // A size of zero is refused; any other is rounded up to whole pages, all zero.
    static method Create(size: nat, pageSize: nat) returns (r: PhysicalMemory?)
      requires pageSize > 0
      ensures r == null <==> size == 0
      ensures r != null ==> fresh(r) && fresh(r.backing) && size <= r.backing.Length < size + pageSize
      ensures r != null ==>
                (exists pages: nat :: r.backing.Length == pages * pageSize) &&
                forall k | 0 <= k < r.backing.Length :: r.backing[k] == 0
    {
      if size == 0 {
        return null;
      }
      var pages := (size + pageSize - 1) / pageSize;
      Rounding(size + pageSize - 1, pageSize);
      r := new PhysicalMemory(pages, pageSize);
    }

    // Reads are not checked against the capacity: an address out of range is the caller's fault.
    method Read(addr: nat, n: nat) returns (v: bv64)
      requires n <= 8 && addr + n <= backing.Length
      ensures v == WordOf(backing[addr..addr + n])
    {
      v := WordOf(backing[addr..addr + n]);
    }

    method Write(addr: nat, v: bv64, n: nat)
      requires n <= 8 && addr + n <= backing.Length
      modifies backing
      ensures backing[..] == Patched(old(backing[..]), addr, BytesOf(v, n))
    {
      Copy(addr, BytesOf(v, n));
    }

    // Tested as the source tests it. What is in the buffer after an out-of-bounds copy is not said.
    method LoadData(addr: nat, data: seq<bv8>) returns (r: Outcome)
      requires addr < ADDRESS_RANGE && |data| < ADDRESS_RANGE
      modifies backing
      ensures r == Outcomes(addr, |data|, backing.Length)
      ensures r.Copied? ==> backing[..] == Patched(old(backing[..]), addr, data)
      ensures r.Refused? ==> backing[..] == old(backing[..])
    {
      if (addr + |data|) % ADDRESS_RANGE > backing.Length {
        return Refused;
      }
      if addr + |data| > backing.Length {
        return OutOfBounds;
      }
      Copy(addr, data);
      return Copied;
    }

    method ZeroInit(addr: nat, size: nat) returns (r: Outcome)
      requires addr < ADDRESS_RANGE && size < ADDRESS_RANGE
      modifies backing
      ensures r == Outcomes(addr, size, backing.Length)
      ensures r.Copied? ==> backing[..] == Patched(old(backing[..]), addr, seq(size, _ => 0))
      ensures r.Refused? ==> backing[..] == old(backing[..])
    {
      if (addr + size) % ADDRESS_RANGE > backing.Length {
        return Refused;
      }
      if addr + size > backing.Length {
        return OutOfBounds;
      }
      Copy(addr, seq(size, _ => 0));
      return Copied;
    }

    // The host's memcpy.
    method Copy(addr: nat, data: seq<bv8>)
      requires addr + |data| <= backing.Length
      modifies backing
      ensures backing[..] == Patched(old(backing[..]), addr, data)
    {
      forall k | 0 <= k < |data| {
        backing[addr + k] := data[k];
      }
    }
  }

  lemma Rounding(x: nat, d: nat)
    requires d > 0
    ensures x / d * d <= x < x / d * d + d
  {}
}
