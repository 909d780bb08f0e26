// How hash codes select buckets: a mask keeps the low bits of a code, and the parent of a bucket is the
// index without its topmost bit.
module HashLayout {
  import opened Powers

  // c >> l
  function Shift(c: nat, l: nat): nat { if l == 0 then c else Shift(c, l - 1) / 2 }

  function Bit(c: nat, l: nat): bool { Shift(c, l) % 2 == 1 }

  // c & (2^l - 1), the l low bits of c.
  function Cut(c: nat, l: nat): (r: nat)
    ensures r < Pow2(l)
  {
    if l == 0 then 0 else Cut(c, l - 1) + if Bit(c, l - 1) then Pow2(l - 1) else 0
  }

  function Log2(i: nat): (l: nat)
    requires i > 0
    ensures Pow2(l) <= i < 2 * Pow2(l)
  {
    if i == 1 then 0 else 1 + Log2(i / 2)
  }

  function Parent(i: nat): (p: nat)
    requires i > 1
    ensures p < i
  {
    i - Pow2(Log2(i))
  }

  // h is i or one of the parents above it.
  predicate OnChain(i: nat, h: nat) {
    i == h || (i > 1 && OnChain(Parent(i), h))
  }

  // The mask and the shift take a code apart.
  lemma {:induction false} CutAndShift(c: nat, l: nat)
    ensures c == Shift(c, l) * Pow2(l) + Cut(c, l)
  {
    if l > 0 {
      CutAndShift(c, l - 1);
      var q, n := Shift(c, l), Pow2(l - 1);
      Doubled(q, n);
      assert Shift(c, l - 1) == if Bit(c, l - 1) then 2 * q + 1 else 2 * q;
    }
  }

  lemma LogIs(i: nat, l: nat)
    requires Pow2(l) <= i < 2 * Pow2(l)
    ensures Log2(i) == l
  {
    var k := Log2(i);
    PowersCompare(k + 1, l);
    PowersCompare(l + 1, k);
  }

  lemma ParentOfCut(c: nat, l: nat)
    requires l > 0 && Bit(c, l - 1) && Cut(c, l) > 1
    ensures Parent(Cut(c, l)) == Cut(c, l - 1) && Log2(Cut(c, l)) == l - 1
  {
    LogIs(Cut(c, l), l - 1);
  }

  // The buckets on the way from the one c selects upwards are the ones shorter masks select for c.
  lemma {:induction false} ChainOfCut(c: nat, l: nat, h: nat)
    requires h > 1
    ensures OnChain(Cut(c, l), h) <==> Log2(h) < l && Cut(c, Log2(h) + 1) == h
  {
    if l > 0 {
      ChainOfCut(c, l - 1, h);
      var i := Cut(c, l);
      if Bit(c, l - 1) && i > 1 {
        ParentOfCut(c, l);
      } else if Log2(h) == l - 1 && i == h {
        assert false;
      }
    }
  }

  // The first bit that a shorter of two masks cuts off a code.
  lemma {:induction false} FirstDifference(c: nat, m: nat, l: nat) returns (k: nat)
    requires m <= l && Cut(c, m) != Cut(c, l)
    ensures m <= k < l && Bit(c, k) && Cut(c, k) == Cut(c, m)
  {
    if Cut(c, m) == Cut(c, l - 1) {
      k := l - 1;
    } else {
      k := FirstDifference(c, m, l - 1);
    }
  }
}
