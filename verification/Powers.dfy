// Powers of two.
module Powers {

  function Pow2(n: nat): (r: nat)
    ensures r > 0
  {
    if n == 0 then 1 else 2 * Pow2(n - 1)
  }

  lemma {:induction false} Pow2Grows(i: nat, j: nat)
    requires i <= j
    ensures Pow2(i) <= Pow2(j)
    decreases j
  {
    if i < j {
      Pow2Grows(i, j - 1);
    }
  }

  lemma PowersCompare(i: nat, j: nat)
    ensures Pow2(i) == Pow2(j) <==> i == j
    ensures Pow2(i) > Pow2(j) <==> i > j
  {
    if i < j {
      Pow2Grows(i + 1, j);
    } else if j < i {
      Pow2Grows(j + 1, i);
    }
  }

  lemma Doubled(x: int, q: nat)
    ensures x * (2 * q) == (2 * x) * q && (2 * x + 1) * q == (2 * x) * q + q
  {
  }

  lemma LessTimes(a: int, b: int, n: int)
    requires a <= b && n >= 0
    ensures a * n <= b * n
    ensures a < b ==> a * n + n <= b * n
  {
    assert b * n - a * n == (b - a) * n;
    NonNegative(b - a, n);
    if a < b {
      assert (b - a) * n == (b - a - 1) * n + n;
      NonNegative(b - a - 1, n);
    }
  }

  lemma NonNegative(a: int, b: int)
    requires a >= 0 && b >= 0
    ensures a * b >= 0
  {
  }
}
