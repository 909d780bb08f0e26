// Rounding an allocation request up to a power of two on 32-bit words.
module BuddyRounding {
  import opened Powers

  function IsPowOf2(x: bv32): bool { x & (x - 1) == 0 }

  function NextPowOf2(x: bv32): bv32 {
    if IsPowOf2(x) then x else
    var x1 := x | (x >> 1);
    var x2 := x1 | (x1 >> 2);
    var x3 := x2 | (x2 >> 4);
    var x4 := x3 | (x3 >> 8);
    var x5 := x4 | (x4 >> 16);
    x5 + 1
  }

  // The number a word stands for.
  function Num(x: bv32): nat
    decreases x
  {
    if x == 0 then 0 else 2 * Num(x >> 1) + (if x & 1 == 1 then 1 else 0)
  }

  // The result is a power of two, it covers the request, and half of it would not.
  lemma NextPowOf2IsLeast(x: bv32)
    requires 0 < x <= 0x8000_0000
    ensures NextPowOf2(x) != 0 && IsPowOf2(NextPowOf2(x))
    ensures x <= NextPowOf2(x) && NextPowOf2(x) >> 1 < x
    ensures x <= 0x4000_0000 ==> NextPowOf2(x) <= 0x4000_0000
  {
  }

  // The rounding succeeds exactly for these words; above them the sum wraps round to zero.
  lemma NextPowOf2Wraps(x: bv32)
    ensures NextPowOf2(x) == 0 <==> x == 0 || x > 0x8000_0000
  {
  }

  lemma {:induction false} NumOfPower(r: bv32) returns (k: nat)
    requires r != 0 && IsPowOf2(r)
    ensures Num(r) == Pow2(k)
    ensures k > 0 ==> Num(r >> 1) == Pow2(k - 1)
    decreases r
  {
    if r == 1 {
      assert r >> 1 == 0;
      k := 0;
    } else {
      assert r & 1 == 0 && r >> 1 != 0 && IsPowOf2(r >> 1);
      var j := NumOfPower(r >> 1);
      k := j + 1;
    }
  }

  // The size of the block a request of s units takes.
  function SizeFor(s: bv32): nat { if s == 0 then 1 else Num(NextPowOf2(s)) }

  lemma SizeForIsPower(s: bv32) returns (k: nat)
    requires s <= 0x8000_0000
    ensures SizeFor(s) == Pow2(k)
  {
    if s == 0 {
      k := 0;
    } else {
      NextPowOf2IsLeast(s);
      k := NumOfPower(NextPowOf2(s));
    }
  }

  // The rounded word as the signed number it is cast to.
  function Signed(x: bv32): int { if x >= 0x8000_0000 then Num(x) - 0x1_0000_0000 else Num(x) }

  function SizeOf(s: bv32): int { if s == 0 then 1 else Signed(NextPowOf2(s)) }

  // Up to 2^30 the cast changes nothing.
  lemma SizeInRange(s: bv32)
    requires s <= 0x4000_0000
    ensures SizeOf(s) == SizeFor(s)
  {
    if s != 0 {
      NextPowOf2IsLeast(s);
    }
  }

  lemma TopBit()
    ensures Num(0x8000_0000) == 0x8000_0000
  {
    assert Num(0x1) == 0x1 && Num(0x2) == 0x2 && Num(0x4) == 0x4 && Num(0x8) == 0x8;
    assert Num(0x10) == 0x10 && Num(0x20) == 0x20 && Num(0x40) == 0x40 && Num(0x80) == 0x80;
    assert Num(0x100) == 0x100 && Num(0x200) == 0x200 && Num(0x400) == 0x400 && Num(0x800) == 0x800;
    assert Num(0x1000) == 0x1000 && Num(0x2000) == 0x2000 && Num(0x4000) == 0x4000 && Num(0x8000) == 0x8000;
    assert Num(0x10000) == 0x10000 && Num(0x20000) == 0x20000 && Num(0x40000) == 0x40000 && Num(0x80000) == 0x80000;
    assert Num(0x100000) == 0x100000 && Num(0x200000) == 0x200000 && Num(0x400000) == 0x400000 && Num(0x800000) == 0x800000;
    assert Num(0x1000000) == 0x1000000 && Num(0x2000000) == 0x2000000 && Num(0x4000000) == 0x4000000 && Num(0x8000000) == 0x8000000;
    assert Num(0x10000000) == 0x10000000 && Num(0x20000000) == 0x20000000 && Num(0x40000000) == 0x40000000 && Num(0x80000000) == 0x80000000;
  }

  lemma RoundedToTop(s: bv32)
    requires 0x4000_0000 < s <= 0x8000_0000
    ensures NextPowOf2(s) == 0x8000_0000
  {
  }

  // Above, the size is negative, or zero when the rounding has wrapped round.
  lemma SizeOutOfRange(s: bv32)
    requires s > 0x4000_0000
    ensures SizeOf(s) == if s <= 0x8000_0000 then -0x8000_0000 else 0
  {
    NextPowOf2Wraps(s);
    if s <= 0x8000_0000 {
      RoundedToTop(s);
      TopBit();
    }
  }
}
