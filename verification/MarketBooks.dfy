// The market's books: what arenas request and are allotted, level by priority level, and what a level leaves to
// the levels below it.
module MarketBooks {

  type Id = nat

  // requested may be negative for a moment; priority: the level the arena is listed at.
  datatype Arena = Arena(requested: int, allotted: int, maxWorkers: nat, priority: nat, bottom: nat)

  datatype Level = Level(arenas: seq<Id>, requested: int, available: int)

  type Arenas = map<Id, Arena>

  const LEVELS: nat := 3
  const NORMAL: nat := (LEVELS - 1) / 2

  function Pos(x: int): nat { if x > 0 then x else 0 }

  function Min(x: int, y: int): int { if x < y then x else y }

  // Two amounts of an arena are summed up over lists: its demand and its allotment.
  datatype Column = Demand | Allotment

  function Amount(a: Arena, c: Column): int { if c.Demand? then Pos(a.requested) else a.allotted }

  function Total(arenas: Arenas, ids: seq<Id>, c: Column): int
    requires forall id :: id in ids ==> id in arenas
  {
    if ids == [] then 0 else
    var last := |ids| - 1;
    Total(arenas, ids[..last], c) + Amount(arenas[ids[last]], c)
  }

  predicate Distinct(ids: seq<Id>) { forall i, j :: 0 <= i < j < |ids| ==> ids[i] != ids[j] }

  // Lists and arenas agree, and each level knows the demand of its arenas.
  ghost predicate Lists(arenas: Arenas, levels: seq<Level>) {
    && |levels| == LEVELS
    && (forall id :: id in arenas ==> arenas[id].priority < LEVELS)
    && forall l: nat :: l < LEVELS ==> ListOk(arenas, levels, l)
  }

  ghost predicate ListOk(arenas: Arenas, levels: seq<Level>, l: nat)
    requires l < |levels|
  {
    && Distinct(levels[l].arenas)
    && (forall id :: id in levels[l].arenas <==> id in arenas && arenas[id].priority == l)
    && levels[l].requested == Total(arenas, levels[l].arenas, Demand)
  }

  // What the levels above l leave of m workers.
  function LeftAt(levels: seq<Level>, top: nat, l: nat, m: nat): int
    decreases top - l
  {
    if l >= top || l + 1 >= |levels| then m else Pos(LeftAt(levels, top, l + 1, m) - levels[l + 1].requested)
  }

  // No arena that asks for workers has all it may have.
  ghost predicate Uncapped(arenas: Arenas, ids: seq<Id>)
    requires forall id :: id in ids ==> id in arenas
  {
    forall id :: id in ids && arenas[id].requested > 0 ==> arenas[id].allotted < arenas[id].maxWorkers
  }

  // A level is allotted no more than its demand and what is available to it, and exactly the smaller of the
  // two unless the cap of one of its arenas binds.
  ghost predicate Fair(arenas: Arenas, levels: seq<Level>, l: nat)
    requires l < |levels| && ListOk(arenas, levels, l)
  {
    var total, due := Total(arenas, levels[l].arenas, Allotment), Min(levels[l].requested, levels[l].available);
    total <= due && (Uncapped(arenas, levels[l].arenas) ==> total == due)
  }

  // No arena has a negative allotment, or one without demand.
  ghost predicate Calm(arenas: Arenas) {
    forall id :: id in arenas ==> arenas[id].allotted >= 0 && (arenas[id].requested <= 0 ==> arenas[id].allotted == 0)
  }

  // No arena at a level above h is allotted more than it asks for.
  ghost predicate Modest(arenas: Arenas, h: int) {
    forall id :: id in arenas && arenas[id].priority > h ==> arenas[id].allotted <= Pos(arenas[id].requested)
  }

  // The books of the levels above h are in order; nothing is said yet about what h and the levels below are
  // offered and allotted.
  ghost predicate BooksAbove(arenas: Arenas, levels: seq<Level>, top: nat, bottom: nat, m: nat, h: int) {
    && Lists(arenas, levels) && Calm(arenas) && Modest(arenas, h)
    && bottom <= top < LEVELS && -1 <= h <= top
    && (forall l: nat :: l < LEVELS && (l < bottom || l > top) ==> levels[l].requested == 0)
    && (forall l: nat :: bottom <= l <= top && l > h ==> levels[l].available == LeftAt(levels, top, l, m))
    && (forall l: nat :: bottom <= l <= top && l > h ==> Fair(arenas, levels, l))
  }

  ghost predicate Books(arenas: Arenas, levels: seq<Level>, top: nat, bottom: nat, m: nat) {
    BooksAbove(arenas, levels, top, bottom, m, -1)
  }

  // What the market asserts of itself after every operation: there is demand at the top level, unless the range
  // that counts is only the normal level.
  predicate Asserted(levels: seq<Level>, top: nat, bottom: nat) {
    top < |levels| && ((levels[top].requested > 0 && levels[top].arenas != []) || top == bottom == NORMAL)
  }

  function Demands(levels: seq<Level>): seq<int> { seq(|levels|, l requires 0 <= l < |levels| => levels[l].requested) }

  predicate EndsOk(levels: seq<Level>, top: nat, bottom: nat) {
    top < |levels| && (levels[top].requested != 0 || top == bottom == NORMAL)
  }

  // A level with demand has an arena, so the demand of the top level decides.
  lemma DemandDecides(arenas: Arenas, levels: seq<Level>, top: nat, bottom: nat)
    requires Lists(arenas, levels) && top < LEVELS
    ensures Asserted(levels, top, bottom) <==> EndsOk(levels, top, bottom)
  {
    assert ListOk(arenas, levels, top);
    TotalIsNonNegative(arenas, levels[top].arenas);
  }

  // ---------------------------------------------------------------- sums

  lemma {:induction false} SameTotal(arenas: Arenas, after: Arenas, ids: seq<Id>, c: Column)
    requires forall id :: id in ids ==> id in arenas && id in after && Amount(after[id], c) == Amount(arenas[id], c)
    ensures Total(after, ids, c) == Total(arenas, ids, c)
  {
    if ids != [] {
      SameTotal(arenas, after, ids[..|ids| - 1], c);
    }
  }

  // Changing one arena of a list.
  lemma {:induction false} TotalAfter(arenas: Arenas, ids: seq<Id>, id: Id, a: Arena, c: Column)
    requires Distinct(ids) && id in ids && forall i :: i in ids ==> i in arenas
    ensures Total(arenas[id := a], ids, c) == Total(arenas, ids, c) - Amount(arenas[id], c) + Amount(a, c)
  {
    var last := |ids| - 1;
    var rest := ids[..last];
    if ids[last] == id {
      assert id !in rest;
      SameTotal(arenas, arenas[id := a], rest, c);
    } else {
      assert id in rest;
      TotalAfter(arenas, rest, id, a, c);
    }
  }

  lemma {:induction false} TotalWithFront(arenas: Arenas, ids: seq<Id>, id: Id, c: Column)
    requires id in arenas && forall i :: i in ids ==> i in arenas
    ensures Total(arenas, [id] + ids, c) == Amount(arenas[id], c) + Total(arenas, ids, c)
  {
    var all := [id] + ids;
    if ids == [] {
      assert all[..0] == [];
    } else {
      TotalWithFront(arenas, ids[..|ids| - 1], id, c);
      assert all[..|all| - 1] == [id] + ids[..|ids| - 1];
    }
  }

  function Without(ids: seq<Id>, id: Id): seq<Id> {
    if ids == [] then [] else
    var last := |ids| - 1;
    if ids[last] == id then ids[..last] else Without(ids[..last], id) + [ids[last]]
  }

  lemma {:induction false} WithoutIs(ids: seq<Id>, id: Id)
    requires Distinct(ids) && id in ids
    ensures Distinct(Without(ids, id)) && forall i :: i in Without(ids, id) <==> i in ids && i != id
  {
    var last := |ids| - 1;
    var rest := ids[..last];
    assert ids == rest + [ids[last]] && ids[last] !in rest;
    if ids[last] != id {
      WithoutIs(rest, id);
    }
  }

  lemma {:induction false} TotalWithout(arenas: Arenas, ids: seq<Id>, id: Id, c: Column)
    requires Distinct(ids) && id in ids && forall i :: i in ids ==> i in arenas
    ensures forall i :: i in Without(ids, id) ==> i in arenas
    ensures Total(arenas, Without(ids, id), c) == Total(arenas, ids, c) - Amount(arenas[id], c)
  {
    WithoutIs(ids, id);
    var last := |ids| - 1;
    var rest := ids[..last];
    assert ids == rest + [ids[last]];
    if ids[last] != id {
      TotalWithout(arenas, rest, id, c);
      var w := Without(rest, id);
      assert (w + [ids[last]])[..|w|] == w;
    }
  }

  lemma {:induction false} TotalIsNonNegative(arenas: Arenas, ids: seq<Id>)
    requires forall i :: i in ids ==> i in arenas
    ensures Total(arenas, ids, Demand) >= 0
    ensures Total(arenas, ids, Demand) == 0 ==> forall i :: i in ids ==> arenas[i].requested <= 0
  {
    if ids != [] {
      TotalIsNonNegative(arenas, ids[..|ids| - 1]);
      assert ids == ids[..|ids| - 1] + [ids[|ids| - 1]];
    }
  }

  lemma {:induction false} NothingRequestedNothingAllotted(arenas: Arenas, ids: seq<Id>)
    requires Calm(arenas) && (forall i :: i in ids ==> i in arenas) && Total(arenas, ids, Demand) == 0
    ensures Total(arenas, ids, Allotment) == 0
  {
    TotalIsNonNegative(arenas, ids);
    ZeroTotal(arenas, ids);
  }

  lemma {:induction false} ZeroTotal(arenas: Arenas, ids: seq<Id>)
    requires forall id :: id in ids ==> id in arenas && arenas[id].allotted == 0
    ensures Total(arenas, ids, Allotment) == 0
  {
    if ids != [] {
      ZeroTotal(arenas, ids[..|ids| - 1]);
    }
  }

  // ---------------------------------------------------------------- the whole market never hands out too much

  // Everything allotted at level l and above.
  ghost function AllottedFrom(arenas: Arenas, levels: seq<Level>, l: nat): int
    requires Lists(arenas, levels)
    decreases LEVELS - l
  {
    if l >= LEVELS then 0 else
    assert ListOk(arenas, levels, l);
    Total(arenas, levels[l].arenas, Allotment) + AllottedFrom(arenas, levels, l + 1)
  }

  lemma {:induction false} LeftIsNonNegative(levels: seq<Level>, top: nat, l: nat, m: nat)
    ensures LeftAt(levels, top, l, m) >= 0
    decreases top - l
  {
  }

  // A level and what it leaves share what was left to it.
  lemma {:induction false} AllottedAboveIsBounded(arenas: Arenas, levels: seq<Level>, top: nat, bottom: nat, m: nat, l: nat)
    requires Books(arenas, levels, top, bottom, m) && bottom <= l <= top
    ensures AllottedFrom(arenas, levels, l) <= m - Pos(LeftAt(levels, top, l, m) - levels[l].requested)
    decreases top - l
  {
    assert ListOk(arenas, levels, l) && Fair(arenas, levels, l);
    LeftIsNonNegative(levels, top, l, m);
    TotalIsNonNegative(arenas, levels[l].arenas);
    if l < top {
      AllottedAboveIsBounded(arenas, levels, top, bottom, m, l + 1);
    } else {
      NothingAboveTop(arenas, levels, top, bottom, m, l + 1);
    }
  }

  lemma {:induction false} NothingAboveTop(arenas: Arenas, levels: seq<Level>, top: nat, bottom: nat, m: nat, l: nat)
    requires Books(arenas, levels, top, bottom, m) && l > top
    ensures AllottedFrom(arenas, levels, l) <= 0
    decreases LEVELS - l
  {
    if l < LEVELS {
      assert ListOk(arenas, levels, l);
      NothingRequestedNothingAllotted(arenas, levels[l].arenas);
      NothingAboveTop(arenas, levels, top, bottom, m, l + 1);
    }
  }

  lemma {:induction false} NothingBelowBottom(arenas: Arenas, levels: seq<Level>, top: nat, bottom: nat, m: nat, l: nat)
    requires Books(arenas, levels, top, bottom, m) && l <= bottom
    ensures AllottedFrom(arenas, levels, l) <= m
    decreases bottom - l
  {
    if l == bottom {
      AllottedAboveIsBounded(arenas, levels, top, bottom, m, l);
    } else {
      assert ListOk(arenas, levels, l);
      NothingRequestedNothingAllotted(arenas, levels[l].arenas);
      NothingBelowBottom(arenas, levels, top, bottom, m, l + 1);
    }
  }

  // The sum of all requests at levels above l.
  function DemandAbove(levels: seq<Level>, l: nat): int
    decreases LEVELS - l
  {
    if l + 1 >= LEVELS || l + 1 >= |levels| then 0 else levels[l + 1].requested + DemandAbove(levels, l + 1)
  }

  lemma {:induction false} LeftIsWhatDemandLeaves(arenas: Arenas, levels: seq<Level>, top: nat, bottom: nat, m: nat, l: nat)
    requires Books(arenas, levels, top, bottom, m) && l <= top
    ensures LeftAt(levels, top, l, m) == Pos(m - DemandAbove(levels, l))
    ensures DemandAbove(levels, l) >= 0
    decreases top - l
  {
    if l < top {
      assert ListOk(arenas, levels, l + 1);
      TotalIsNonNegative(arenas, levels[l + 1].arenas);
      LeftIsWhatDemandLeaves(arenas, levels, top, bottom, m, l + 1);
    } else {
      NoDemandAboveTop(arenas, levels, top, bottom, m, l);
    }
  }

  lemma {:induction false} NoDemandAboveTop(arenas: Arenas, levels: seq<Level>, top: nat, bottom: nat, m: nat, l: nat)
    requires Books(arenas, levels, top, bottom, m) && l >= top
    ensures DemandAbove(levels, l) == 0
    decreases LEVELS - l
  {
    if l + 1 < LEVELS {
      NoDemandAboveTop(arenas, levels, top, bottom, m, l + 1);
    }
  }

  // Never more than m workers are allotted in all; a level gets at most what the demand of higher levels leaves,
  // and all it asks for up to that, unless the cap of one of its arenas binds.
  lemma BooksAreBalanced(arenas: Arenas, levels: seq<Level>, top: nat, bottom: nat, m: nat, l: nat)
    requires Books(arenas, levels, top, bottom, m) && l < LEVELS
    ensures AllottedFrom(arenas, levels, 0) <= m
    ensures ListOk(arenas, levels, l)
    ensures Total(arenas, levels[l].arenas, Allotment) <= Pos(m - DemandAbove(levels, l))
    ensures Total(arenas, levels[l].arenas, Allotment) <= levels[l].requested
    ensures Uncapped(arenas, levels[l].arenas) ==>
      Total(arenas, levels[l].arenas, Allotment) == Min(levels[l].requested, Pos(m - DemandAbove(levels, l)))
    ensures forall id :: id in arenas ==> 0 <= arenas[id].allotted <= Pos(arenas[id].requested)
  {
    NothingBelowBottom(arenas, levels, top, bottom, m, 0);
    assert ListOk(arenas, levels, l);
    if bottom <= l <= top {
      assert Fair(arenas, levels, l);
      LeftIsWhatDemandLeaves(arenas, levels, top, bottom, m, l);
    } else {
      NothingRequestedNothingAllotted(arenas, levels[l].arenas);
    }
  }
}
