// Dividing workers among the arenas of one level: each gets its share of the demand, and what rounding cuts off
// is carried on to the next.
module MarketShares {
  import opened MarketBooks
  import opened Powers

  lemma AtLeastOne(a: int, n: int)
    requires a >= 1 && n > 0
    ensures a * n >= n
  {
  }

  lemma QuotientIs(x: int, q: int, c: int, n: int)
    requires n > 0 && x == q * n + c && 0 <= c < n
    ensures x / n == q && x % n == c
  {
    var p := x / n;
    assert x == p * n + x % n;
    assert (p - q) * n == c - x % n;
    assert (q - p) * n == -((p - q) * n);
    if p > q {
      AtLeastOne(p - q, n);
    } else if p < q {
      AtLeastOne(q - p, n);
    }
  }

  // The workers due to the first k arenas of a level together, rounded down.
  function Due(arenas: Arenas, ids: seq<Id>, k: nat, workers: int, demand: int): int
    requires k <= |ids| && demand > 0 && forall id :: id in ids ==> id in arenas
  {
    Total(arenas, ids[..k], Demand) * workers / demand
  }

  // What arena k of a level gets: the difference its own demand makes to the rounded sum, capped by the number
  // of workers it can use.
  function Share(arenas: Arenas, ids: seq<Id>, k: nat, workers: int, demand: int): int
    requires k < |ids| && demand > 0 && forall id :: id in ids ==> id in arenas
  {
    Due(arenas, ids, k + 1, workers, demand) - Due(arenas, ids, k, workers, demand)
  }

  // One step of the division with carry.
  lemma CarryStep(sum: int, r: int, workers: int, demand: int, given: int, carry: int)
    requires demand > 0 && 0 <= workers <= demand && r >= 0 && 0 <= carry < demand
    requires sum * workers == given * demand + carry
    ensures var tmp := r * workers + carry;
      && (sum + r) * workers == (given + tmp / demand) * demand + tmp % demand
      && 0 <= tmp / demand <= r
      && sum * workers / demand == given
      && (sum + r) * workers / demand == given + tmp / demand
  {
    var tmp := r * workers + carry;
    var q, c := tmp / demand, tmp % demand;
    assert tmp == q * demand + c;
    assert (sum + r) * workers == sum * workers + r * workers;
    assert (given + q) * demand == given * demand + q * demand;
    QuotientIs(sum * workers, given, carry, demand);
    QuotientIs((sum + r) * workers, given + q, c, demand);
    NotBeyond(r, workers, demand, carry, q, c);
  }

  lemma NotBeyond(r: int, workers: int, demand: int, carry: int, q: int, c: int)
    requires demand > 0 && 0 <= workers <= demand && r >= 0 && 0 <= carry < demand && 0 <= c < demand
    requires r * workers + carry == q * demand + c
    ensures 0 <= q <= r
  {
    assert workers * r <= demand * r by { LessTimes(workers, demand, r); }
    assert workers * r >= 0 by { NonNegative(workers, r); }
    assert (q - r) * demand == q * demand - r * demand;
    assert (-q) * demand == -(q * demand);
    if q > r {
      AtLeastOne(q - r, demand);
    }
    if q < 0 {
      AtLeastOne(-q, demand);
    }
  }

  // Everything about an arena but its allotment.
  predicate SameButAllotment(a: Arena, b: Arena) { a == b.(allotted := a.allotted) }

  // Only allotments of the listed arenas have changed.
  ghost predicate OnlyAllotments(arenas: Arenas, after: Arenas, ids: seq<Id>) {
    && after.Keys == arenas.Keys
    && (forall id :: id in arenas ==> SameButAllotment(after[id], arenas[id]))
    && (forall id :: id in arenas && id !in ids ==> after[id] == arenas[id])
  }

  // The arenas of a level after its workers have been divided among the first k of them.
  ghost predicate Divided(arenas: Arenas, after: Arenas, ids: seq<Id>, k: nat, workers: int, demand: int)
    requires k <= |ids| && demand > 0 && forall id :: id in ids ==> id in arenas
  {
    && OnlyAllotments(arenas, after, ids)
    && (forall i {:trigger Share(arenas, ids, i, workers, demand)} :: 0 <= i < k ==>
          after[ids[i]].allotted == Min(Share(arenas, ids, i, workers, demand), arenas[ids[i]].maxWorkers))
    && (forall i :: k <= i < |ids| ==> after[ids[i]] == arenas[ids[i]])
  }

  // What each arena gets lies between nothing and its demand.
  lemma {:induction false} ShareIsModest(arenas: Arenas, ids: seq<Id>, k: nat, workers: int, demand: int)
    requires k < |ids| && forall id :: id in ids ==> id in arenas
    requires demand > 0 && 0 <= workers <= demand
    ensures 0 <= Share(arenas, ids, k, workers, demand) <= Pos(arenas[ids[k]].requested)
  {
    var sum := Total(arenas, ids[..k], Demand);
    var r := Pos(arenas[ids[k]].requested);
    assert ids[..k + 1][..k] == ids[..k];
    CarryStep(sum, r, workers, demand, sum * workers / demand, sum * workers % demand);
  }

  lemma DividedIsModest(arenas: Arenas, after: Arenas, ids: seq<Id>, workers: int, demand: int)
    requires forall id :: id in ids ==> id in arenas
    requires demand > 0 && 0 <= workers <= demand && Divided(arenas, after, ids, |ids|, workers, demand)
    ensures forall id :: id in ids ==> after[id].allotted <= Pos(arenas[id].requested)
  {
    forall id | id in ids ensures after[id].allotted <= Pos(arenas[id].requested) {
      var k :| 0 <= k < |ids| && ids[k] == id;
      ShareIsModest(arenas, ids, k, workers, demand);
    }
  }

  // The first k arenas get no more than what is due to them together, and exactly that when no cap binds.
  lemma {:induction false} DividedSum(arenas: Arenas, after: Arenas, ids: seq<Id>, n: nat, k: nat, workers: int, demand: int)
    requires k <= n <= |ids| && forall id :: id in ids ==> id in arenas
    requires demand > 0 && 0 <= workers <= demand && Divided(arenas, after, ids, n, workers, demand)
    ensures Total(after, ids[..k], Allotment) <= Due(arenas, ids, k, workers, demand)
    ensures (forall i :: 0 <= i < k ==> Share(arenas, ids, i, workers, demand) <= arenas[ids[i]].maxWorkers) ==>
      Total(after, ids[..k], Allotment) == Due(arenas, ids, k, workers, demand)
  {
    if k == 0 {
      assert 0 * workers == 0;
    } else {
      DividedSum(arenas, after, ids, n, k - 1, workers, demand);
      assert after[ids[k - 1]].allotted == Min(Share(arenas, ids, k - 1, workers, demand), arenas[ids[k - 1]].maxWorkers);
      assert ids[..k][..k - 1] == ids[..k - 1];
    }
  }

  // The whole level together: at most what it asks for and what there is, and exactly the smaller of the two
  // when no arena's own cap binds.
  lemma LevelSum(arenas: Arenas, after: Arenas, ids: seq<Id>, available: int, demand: int)
    requires forall id :: id in ids ==> id in arenas
    requires demand > 0 && available >= 0 && demand == Total(arenas, ids, Demand)
    requires Divided(arenas, after, ids, |ids|, Min(demand, available), demand)
    ensures Total(after, ids, Allotment) <= Min(demand, available)
    ensures (forall i :: 0 <= i < |ids| ==>
               Share(arenas, ids, i, Min(demand, available), demand) <= arenas[ids[i]].maxWorkers) ==>
      Total(after, ids, Allotment) == Min(demand, available)
  {
    var workers := Min(demand, available);
    assert ids[..|ids|] == ids;
    DividedSum(arenas, after, ids, |ids|, |ids|, workers, demand);
    assert demand * workers == workers * demand + 0;
    QuotientIs(demand * workers, workers, 0, demand);
  }

  // When no arena has all it may have, no cap binds.
  lemma UncappedSum(arenas: Arenas, after: Arenas, ids: seq<Id>, available: int, demand: int)
    requires forall id :: id in ids ==> id in arenas && id in after
    requires demand > 0 && available >= 0 && demand == Total(arenas, ids, Demand)
    requires Divided(arenas, after, ids, |ids|, Min(demand, available), demand) && Uncapped(after, ids)
    ensures Total(after, ids, Allotment) == Min(demand, available)
  {
    var workers := Min(demand, available);
    forall i | 0 <= i < |ids| ensures Share(arenas, ids, i, workers, demand) <= arenas[ids[i]].maxWorkers {
      ShareIsModest(arenas, ids, i, workers, demand);
      assert ids[i] in ids && SameButAllotment(after[ids[i]], arenas[ids[i]]);
    }
    LevelSum(arenas, after, ids, available, demand);
  }

  // A level that has been divided is allotted what it is due, and nobody in it more than asked for.
  lemma DividedIsFair(arenas: Arenas, after: Arenas, ids: seq<Id>, available: int, demand: int)
    requires forall id :: id in ids ==> id in arenas && id in after
    requires demand > 0 && available >= 0 && demand == Total(arenas, ids, Demand)
    requires Divided(arenas, after, ids, |ids|, Min(demand, available), demand)
    ensures Total(after, ids, Allotment) <= Min(demand, available)
    ensures Uncapped(after, ids) ==> Total(after, ids, Allotment) == Min(demand, available)
    ensures forall id :: id in ids ==> after[id].allotted <= Pos(arenas[id].requested)
  {
    LevelSum(arenas, after, ids, available, demand);
    DividedIsModest(arenas, after, ids, Min(demand, available), demand);
    if Uncapped(after, ids) {
      UncappedSum(arenas, after, ids, available, demand);
    }
  }

  // The state of the division before arena k: the demand of the arenas so far, what it comes to, and the carry.
  ghost predicate Carried(arenas: Arenas, ids: seq<Id>, k: nat, workers: int, demand: int, carry: int)
    requires k <= |ids| && demand > 0 && forall id :: id in ids ==> id in arenas
  {
    && 0 <= carry < demand
    && Total(arenas, ids[..k], Demand) * workers == Due(arenas, ids, k, workers, demand) * demand + carry
  }

  lemma CarriedNext(arenas: Arenas, ids: seq<Id>, k: nat, workers: int, demand: int, carry: int)
    requires k < |ids| && demand > 0 && (forall id :: id in ids ==> id in arenas) && 0 <= workers <= demand
    requires Carried(arenas, ids, k, workers, demand, carry)
    ensures var tmp := Pos(arenas[ids[k]].requested) * workers + carry;
      Carried(arenas, ids, k + 1, workers, demand, tmp % demand) && Share(arenas, ids, k, workers, demand) == tmp / demand
  {
    assert ids[..k + 1][..k] == ids[..k];
    CarryStep(Total(arenas, ids[..k], Demand), Pos(arenas[ids[k]].requested), workers, demand,
              Due(arenas, ids, k, workers, demand), carry);
  }

  lemma CarriedSkip(arenas: Arenas, ids: seq<Id>, k: nat, workers: int, demand: int, carry: int)
    requires k < |ids| && demand > 0 && (forall id :: id in ids ==> id in arenas) && 0 <= workers <= demand
    requires Carried(arenas, ids, k, workers, demand, carry) && arenas[ids[k]].requested <= 0
    ensures Carried(arenas, ids, k + 1, workers, demand, carry) && Share(arenas, ids, k, workers, demand) == 0
  {
    CarriedNext(arenas, ids, k, workers, demand, carry);
    assert 0 * workers == 0;
    QuotientIs(carry, 0, carry, demand);
  }

  lemma DividedNext(arenas: Arenas, now: Arenas, ids: seq<Id>, k: nat, workers: int, demand: int, n: int)
    requires k < |ids| && Distinct(ids) && demand > 0 && (forall id :: id in ids ==> id in arenas)
    requires 0 <= workers <= demand && Calm(now) && Divided(arenas, now, ids, k, workers, demand)
    requires n == Min(Share(arenas, ids, k, workers, demand), arenas[ids[k]].maxWorkers)
    ensures now[ids[k]] == arenas[ids[k]]
    ensures var after := now[ids[k] := now[ids[k]].(allotted := n)];
      Divided(arenas, after, ids, k + 1, workers, demand) && Calm(after)
  {
    ShareIsModest(arenas, ids, k, workers, demand);
    assert 0 <= n <= Pos(arenas[ids[k]].requested);
    var after := now[ids[k] := now[ids[k]].(allotted := n)];
    assert OnlyAllotments(arenas, after, ids);
    assert forall i :: 0 <= i < |ids| && i != k ==> after[ids[i]] == now[ids[i]];
    assert Calm(after);
  }

  lemma DividedSkip(arenas: Arenas, now: Arenas, ids: seq<Id>, k: nat, workers: int, demand: int)
    requires k < |ids| && Distinct(ids) && demand > 0 && (forall id :: id in ids ==> id in arenas)
    requires Calm(arenas) && Divided(arenas, now, ids, k, workers, demand)
    requires arenas[ids[k]].requested <= 0 && Share(arenas, ids, k, workers, demand) == 0
    ensures Divided(arenas, now, ids, k + 1, workers, demand)
  {
    assert now[ids[k]] == arenas[ids[k]];
  }

  // The loop of the division before arena k.
  ghost predicate Dividing(arenas: Arenas, now: Arenas, ids: seq<Id>, k: nat, workers: int, demand: int, carry: int)
    requires k <= |ids| && demand > 0 && forall id :: id in ids ==> id in arenas
  {
    Divided(arenas, now, ids, k, workers, demand) && Calm(now) && Carried(arenas, ids, k, workers, demand, carry)
  }

  lemma DividingStarts(arenas: Arenas, ids: seq<Id>, workers: int, demand: int)
    requires demand > 0 && (forall id :: id in ids ==> id in arenas) && Calm(arenas)
    ensures Dividing(arenas, arenas, ids, 0, workers, demand, 0)
  {
    assert ids[..0] == [] && 0 * workers == 0;
  }

  lemma DividingSkips(arenas: Arenas, now: Arenas, ids: seq<Id>, k: nat, workers: int, demand: int, carry: int)
    requires k < |ids| && Distinct(ids) && demand > 0 && (forall id :: id in ids ==> id in arenas)
    requires 0 <= workers <= demand && Calm(arenas) && Dividing(arenas, now, ids, k, workers, demand, carry)
    ensures ids[k] in now && now[ids[k]] == arenas[ids[k]]
    ensures arenas[ids[k]].requested <= 0 ==> Dividing(arenas, now, ids, k + 1, workers, demand, carry)
  {
    assert ids[k] in ids;
    if arenas[ids[k]].requested <= 0 {
      CarriedSkip(arenas, ids, k, workers, demand, carry);
      DividedSkip(arenas, now, ids, k, workers, demand);
    }
  }

  lemma DividingGives(arenas: Arenas, now: Arenas, ids: seq<Id>, k: nat, workers: int, demand: int, carry: int)
    requires k < |ids| && Distinct(ids) && demand > 0 && (forall id :: id in ids ==> id in arenas)
    requires 0 <= workers <= demand && Dividing(arenas, now, ids, k, workers, demand, carry)
    requires arenas[ids[k]].requested > 0
    ensures ids[k] in now && now[ids[k]] == arenas[ids[k]]
    ensures var a := arenas[ids[k]];
      var tmp := a.requested * workers + carry;
      Dividing(arenas, now[ids[k] := a.(allotted := Min(tmp / demand, a.maxWorkers))], ids, k + 1, workers, demand, tmp % demand)
  {
    assert ids[k] in ids;
    CarriedNext(arenas, ids, k, workers, demand, carry);
    DividedNext(arenas, now, ids, k, workers, demand, Min(Share(arenas, ids, k, workers, demand), arenas[ids[k]].maxWorkers));
  }
}
