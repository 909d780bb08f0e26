// Changes to the market's books: a new request, an arena listed at another level, and a level settled anew.
module MarketMoves {
  import opened MarketBooks
  import opened MarketShares

  // ---------------------------------------------------------------- settling a level

  lemma {:induction false} SameLeft(levels: seq<Level>, after: seq<Level>, top: nat, l: nat, m: nat)
    requires |after| == |levels|
    requires forall k :: l < k <= top && k < |levels| ==> after[k].requested == levels[k].requested
    ensures LeftAt(after, top, l, m) == LeftAt(levels, top, l, m)
    decreases top - l
  {
    if l < top && l + 1 < |levels| {
      SameLeft(levels, after, top, l + 1, m);
    }
  }

  // Changing allotments keeps lists and demands.
  lemma ListsKept(arenas: Arenas, after: Arenas, levels: seq<Level>, levels': seq<Level>, ids: seq<Id>)
    requires Lists(arenas, levels) && OnlyAllotments(arenas, after, ids)
    requires |levels'| == LEVELS
    requires forall l :: 0 <= l < LEVELS ==> levels'[l].arenas == levels[l].arenas && levels'[l].requested == levels[l].requested
    ensures Lists(after, levels')
  {
    forall l: nat | l < LEVELS ensures ListOk(after, levels', l) {
      assert ListOk(arenas, levels, l);
      SameTotal(arenas, after, levels[l].arenas, Demand);
    }
  }

  // A level that has been offered what is left and allotted no more joins the levels in order.
  lemma SettleLevel(arenas: Arenas, levels: seq<Level>, top: nat, bottom: nat, m: nat, i: nat,
                    after: Arenas, levels': seq<Level>)
    requires BooksAbove(arenas, levels, top, bottom, m, i) && bottom <= i
    requires levels' == levels[i := levels[i].(available := LeftAt(levels, top, i, m))]
    requires OnlyAllotments(arenas, after, levels[i].arenas) && Calm(after) && ListOk(arenas, levels, i)
    requires forall id :: id in levels[i].arenas ==> after[id].allotted <= Pos(arenas[id].requested)
    requires var total, due := Total(after, levels[i].arenas, Allotment), Min(levels[i].requested, LeftAt(levels, top, i, m));
      total <= due && (Uncapped(after, levels[i].arenas) ==> total == due)
    ensures BooksAbove(after, levels', top, bottom, m, i - 1)
  {
    ListsKept(arenas, after, levels, levels', levels[i].arenas);
    forall l: nat | bottom <= l <= top && l > i - 1
      ensures levels'[l].available == LeftAt(levels', top, l, m) && Fair(after, levels', l)
    {
      SameLeft(levels, levels', top, l, m);
      assert ListOk(arenas, levels, l) && ListOk(arenas, levels, i);
      if l != i {
        assert Fair(arenas, levels, l);
        SameTotal(arenas, after, levels[l].arenas, Allotment);
        assert Uncapped(after, levels[l].arenas) ==> Uncapped(arenas, levels[l].arenas);
      }
    }
  }

  // Below the bottom level nothing is asked for, so nothing is left to settle there.
  lemma SettledToBottom(arenas: Arenas, levels: seq<Level>, top: nat, bottom: nat, m: nat, i: int)
    requires BooksAbove(arenas, levels, top, bottom, m, i) && i < bottom
    ensures Books(arenas, levels, top, bottom, m)
  {
    forall id | id in arenas ensures arenas[id].allotted <= Pos(arenas[id].requested) {
      var l := arenas[id].priority;
      if l <= i {
        assert ListOk(arenas, levels, l);
        TotalIsNonNegative(arenas, levels[l].arenas);
      }
    }
  }

  // ---------------------------------------------------------------- changes at a level and below

  // The levels above h are as they were.
  ghost predicate SameAbove(arenas: Arenas, levels: seq<Level>, after: Arenas, levels': seq<Level>, h: nat) {
    && |levels| == |levels'| == LEVELS
    && (forall l :: h < l < LEVELS ==> levels'[l] == levels[l])
    && (forall id :: id in arenas && arenas[id].priority > h ==> id in after && after[id] == arenas[id])
    && (forall id :: id in after && after[id].priority > h ==> id in arenas && after[id] == arenas[id])
  }

  // What changes at h and below leaves the levels above in order.
  lemma ChangedBelow(arenas: Arenas, levels: seq<Level>, top: nat, bottom: nat, m: nat,
                     after: Arenas, levels': seq<Level>, bottom': nat, h: nat)
    requires Books(arenas, levels, top, bottom, m) && Lists(after, levels') && Calm(after)
    requires SameAbove(arenas, levels, after, levels', h) && bottom <= h <= top && bottom' <= top
    requires levels'[h].available == levels[h].available
    requires forall l :: 0 <= l < bottom' ==> levels'[l].requested == 0
    ensures BooksAbove(after, levels', top, bottom', m, h) && levels'[h].available == LeftAt(levels', top, h, m)
  {
    SameLeft(levels, levels', top, h, m);
    forall l: nat | l > top && l < LEVELS ensures levels'[l].requested == 0 {
      assert levels'[l] == levels[l];
    }
    forall l: nat | bottom' <= l <= top && l > h
      ensures levels'[l].available == LeftAt(levels', top, l, m) && Fair(after, levels', l)
    {
      SameLeft(levels, levels', top, l, m);
      assert ListOk(arenas, levels, l) && ListOk(after, levels', l) && Fair(arenas, levels, l);
      SameTotal(arenas, after, levels[l].arenas, Allotment);
      assert Uncapped(after, levels[l].arenas) ==> Uncapped(arenas, levels[l].arenas);
    }
  }

  // A new top level is offered everything.
  lemma NewTop(arenas: Arenas, levels: seq<Level>, top: nat, bottom: nat, m: nat)
    requires Lists(arenas, levels) && Calm(arenas) && bottom <= top < LEVELS && levels[top].available == m
    requires Modest(arenas, top)
    requires forall l :: 0 <= l < LEVELS && (l < bottom || l > top) ==> levels[l].requested == 0
    ensures BooksAbove(arenas, levels, top, bottom, m, top) && levels[top].available == LeftAt(levels, top, top, m)
  {
  }

  // Without any demand the normal level is the only one that counts.
  lemma ResetBooks(arenas: Arenas, levels: seq<Level>, m: nat)
    requires Lists(arenas, levels) && Calm(arenas) && Modest(arenas, -1) && levels[NORMAL].available == m
    requires forall l :: 0 <= l < LEVELS ==> levels[l].requested == 0
    ensures Books(arenas, levels, NORMAL, NORMAL, m)
  {
    assert ListOk(arenas, levels, NORMAL);
    NothingRequestedNothingAllotted(arenas, levels[NORMAL].arenas);
  }

  // ---------------------------------------------------------------- a new request

  function WithRequest(levels: seq<Level>, p: nat, d: int): seq<Level>
    requires p < |levels|
  {
    levels[p := levels[p].(requested := levels[p].requested + d)]
  }

  // An arena's own request changes, and its level's demand by as much.
  lemma RequestKeepsLists(arenas: Arenas, levels: seq<Level>, id: Id, a: Arena)
    requires Lists(arenas, levels) && id in arenas && a.priority == arenas[id].priority
    ensures arenas[id].priority < LEVELS
    ensures Lists(arenas[id := a], WithRequest(levels, a.priority, Pos(a.requested) - Pos(arenas[id].requested)))
  {
    var p := a.priority;
    var after := arenas[id := a];
    var levels' := WithRequest(levels, p, Pos(a.requested) - Pos(arenas[id].requested));
    forall l: nat | l < LEVELS ensures ListOk(after, levels', l) {
      assert ListOk(arenas, levels, l);
      if l == p {
        TotalAfter(arenas, levels[l].arenas, id, a, Demand);
      } else {
        SameTotal(arenas, after, levels[l].arenas, Demand);
      }
    }
  }

  // ---------------------------------------------------------------- another level

  // The arena leaves the list of level p and goes to the front of the list of level q, with its request.
  function Relisted(levels: seq<Level>, id: Id, p: nat, q: nat, d: int): seq<Level>
    requires p < |levels| && q < |levels|
  {
    var out := levels[p := levels[p].(arenas := Without(levels[p].arenas, id), requested := levels[p].requested - d)];
    out[q := out[q].(arenas := [id] + out[q].arenas, requested := out[q].requested + d)]
  }

  // The books follow, unless the request is negative: it then counts in the demand of the levels, but not in theirs.
  lemma RelistKeepsLists(arenas: Arenas, levels: seq<Level>, id: Id, q: nat)
    requires Lists(arenas, levels) && id in arenas && q < LEVELS && q != arenas[id].priority
    ensures arenas[id].priority < LEVELS
    ensures Lists(arenas[id := arenas[id].(priority := q)], Relisted(levels, id, arenas[id].priority, q, arenas[id].requested))
      <==> arenas[id].requested >= 0
  {
    var p, d := arenas[id].priority, arenas[id].requested;
    var after := arenas[id := arenas[id].(priority := q)];
    var levels' := Relisted(levels, id, p, q, d);
    assert ListOk(arenas, levels, p);
    WithoutIs(levels[p].arenas, id);
    TotalWithout(arenas, levels[p].arenas, id, Demand);
    SameTotal(arenas, after, levels'[p].arenas, Demand);
    if d >= 0 {
      forall l: nat | l < LEVELS ensures ListOk(after, levels', l) {
        assert ListOk(arenas, levels, l);
        if l == q {
          TotalWithFront(after, levels[q].arenas, id, Demand);
        }
        if l != p {
          SameTotal(arenas, after, levels[l].arenas, Demand);
        }
      }
    } else {
      assert !ListOk(after, levels', p);
    }
  }

  // An arena that neither requests nor holds anything may be listed anywhere.
  lemma RelistIdle(arenas: Arenas, levels: seq<Level>, top: nat, bottom: nat, m: nat, h: int, id: Id, q: nat)
    requires BooksAbove(arenas, levels, top, bottom, m, h) && id in arenas
    requires arenas[id].requested == 0 && q < LEVELS && q != arenas[id].priority
    ensures arenas[id].priority < LEVELS
    ensures var after := arenas[id := arenas[id].(priority := q)];
      var levels' := Relisted(levels, id, arenas[id].priority, q, 0);
      && BooksAbove(after, levels', top, bottom, m, h)
      && forall l :: 0 <= l < LEVELS ==> levels'[l].available == levels[l].available && levels'[l].requested == levels[l].requested
  {
    var p := arenas[id].priority;
    var after := arenas[id := arenas[id].(priority := q)];
    var levels' := Relisted(levels, id, p, q, 0);
    RelistKeepsLists(arenas, levels, id, q);
    forall l: nat | bottom <= l <= top && l > h
      ensures levels'[l].available == LeftAt(levels', top, l, m) && Fair(after, levels', l)
    {
      SameLeft(levels, levels', top, l, m);
      assert ListOk(arenas, levels, l) && ListOk(arenas, levels, p) && Fair(arenas, levels, l);
      IdleTotal(arenas, levels, l, id, q);
    }
  }

  lemma IdleTotal(arenas: Arenas, levels: seq<Level>, l: nat, id: Id, q: nat)
    requires Lists(arenas, levels) && Calm(arenas) && id in arenas && arenas[id].requested == 0
    requires q < LEVELS && q != arenas[id].priority < LEVELS && l < LEVELS
    ensures ListOk(arenas, levels, l)
    ensures var after := arenas[id := arenas[id].(priority := q)];
      var levels' := Relisted(levels, id, arenas[id].priority, q, 0);
      && ListOk(after, levels', l) && Total(after, levels'[l].arenas, Allotment) == Total(arenas, levels[l].arenas, Allotment)
      && (Uncapped(after, levels'[l].arenas) ==> Uncapped(arenas, levels[l].arenas))
  {
    var p := arenas[id].priority;
    var after := arenas[id := arenas[id].(priority := q)];
    var levels' := Relisted(levels, id, p, q, 0);
    RelistKeepsLists(arenas, levels, id, q);
    assert ListOk(arenas, levels, l) && ListOk(arenas, levels, p) && ListOk(after, levels', l);
    if l == p {
      WithoutIs(levels[p].arenas, id);
      TotalWithout(arenas, levels[p].arenas, id, Allotment);
      SameTotal(arenas, after, levels'[p].arenas, Allotment);
    } else if l == q {
      TotalWithFront(after, levels[q].arenas, id, Allotment);
      SameTotal(arenas, after, levels[q].arenas, Allotment);
    } else {
      SameTotal(arenas, after, levels[l].arenas, Allotment);
    }
  }

  // A request that is not positive before or after does not count.
  lemma SilentRequest(arenas: Arenas, levels: seq<Level>, top: nat, bottom: nat, m: nat, id: Id, a: Arena)
    requires Books(arenas, levels, top, bottom, m) && id in arenas
    requires arenas[id].requested <= 0 && a.requested <= 0 && a == arenas[id].(requested := a.requested, allotted := 0)
    ensures Books(arenas[id := a], levels, top, bottom, m)
  {
    var after := arenas[id := a];
    forall l: nat | l < LEVELS ensures ListOk(after, levels, l) {
      assert ListOk(arenas, levels, l);
      SameTotal(arenas, after, levels[l].arenas, Demand);
    }
    forall l: nat | bottom <= l <= top ensures Fair(after, levels, l) {
      assert Fair(arenas, levels, l);
      assert ListOk(arenas, levels, l);
      SameTotal(arenas, after, levels[l].arenas, Allotment);
      assert Uncapped(after, levels[l].arenas) ==> Uncapped(arenas, levels[l].arenas);
    }
  }

  // ---------------------------------------------------------------- new ends of the range that counts

  function Offered(levels: seq<Level>, p: nat, n: int): seq<Level>
    requires p < |levels|
  {
    levels[p := levels[p].(available := n)]
  }

  lemma OfferKeepsLists(arenas: Arenas, levels: seq<Level>, p: nat, n: int)
    requires Lists(arenas, levels) && p < LEVELS
    ensures Lists(arenas, Offered(levels, p, n))
  {
    forall l: nat | l < LEVELS ensures ListOk(arenas, Offered(levels, p, n), l) {
      assert ListOk(arenas, levels, l);
    }
  }

  // Levels without demand hold nothing.
  lemma QuietLevels(arenas: Arenas, levels: seq<Level>, h: int)
    requires Lists(arenas, levels) && Calm(arenas)
    requires forall l: nat :: l < LEVELS && l > h ==> levels[l].requested == 0
    ensures Modest(arenas, h)
  {
    forall id | id in arenas && arenas[id].priority > h ensures arenas[id].allotted <= Pos(arenas[id].requested) {
      var l := arenas[id].priority;
      assert ListOk(arenas, levels, l);
      TotalIsNonNegative(arenas, levels[l].arenas);
    }
  }

  // The level of an arena with demand is in the range that counts.
  lemma DemandInRange(arenas: Arenas, levels: seq<Level>, top: nat, bottom: nat, m: nat, h: int, id: Id)
    requires BooksAbove(arenas, levels, top, bottom, m, h) && id in arenas && arenas[id].requested > 0
    ensures bottom <= arenas[id].priority <= top && levels[arenas[id].priority].requested > 0
  {
    var l := arenas[id].priority;
    assert ListOk(arenas, levels, l);
    TotalIsNonNegative(arenas, levels[l].arenas);
  }

  // Another top level, above which there is no demand.
  lemma TopMoves(arenas: Arenas, levels: seq<Level>, top: nat, bottom: nat, m: nat)
    requires Lists(arenas, levels) && Calm(arenas) && bottom <= top < LEVELS
    requires forall l :: 0 <= l < LEVELS && (l < bottom || l > top) ==> levels[l].requested == 0
    ensures var after := Offered(levels, top, m);
      BooksAbove(arenas, after, top, bottom, m, top) && after[top].available == LeftAt(after, top, top, m)
  {
    OfferKeepsLists(arenas, levels, top, m);
    QuietLevels(arenas, levels, top);
    NewTop(arenas, Offered(levels, top, m), top, bottom, m);
  }

  // Back to the normal level when nothing is asked for.
  lemma Emptied(arenas: Arenas, levels: seq<Level>, m: nat)
    requires Lists(arenas, levels) && Calm(arenas) && forall l :: 0 <= l < LEVELS ==> levels[l].requested == 0
    ensures Books(arenas, Offered(levels, NORMAL, m), NORMAL, NORMAL, m)
  {
    OfferKeepsLists(arenas, levels, NORMAL, m);
    QuietLevels(arenas, levels, -1);
    ResetBooks(arenas, Offered(levels, NORMAL, m), m);
  }

  // The bottom level has emptied.
  lemma BottomRises(arenas: Arenas, levels: seq<Level>, top: nat, bottom: nat, m: nat, bottom': nat)
    requires BooksAbove(arenas, levels, top, bottom, m, bottom) && bottom < bottom' <= top
    requires forall l :: bottom <= l < bottom' ==> levels[l].requested == 0
    ensures Books(arenas, levels, top, bottom', m)
  {
    SettledToBottom(arenas, levels, top, bottom', m, bottom);
  }

  // The first request above the top level: the arena gets all it asks for, as far as there are workers, and the
  // level below is offered the rest.
  lemma TopRises(arenas: Arenas, levels: seq<Level>, top: nat, bottom: nat, m: nat, id: Id, a: Arena, p: nat)
    requires Books(arenas, levels, top, bottom, m) && id in arenas && top < p < LEVELS
    requires a.priority == arenas[id].priority == p && a.requested > 0 && arenas[id].requested <= 0
    requires a.allotted == Min(m, a.requested)
    ensures var after := arenas[id := a];
      var levels' := Offered(Offered(WithRequest(levels, p, a.requested), p, m), p - 1, m - a.allotted);
      && BooksAbove(after, levels', p, bottom, m, p - 1)
      && levels'[p - 1].available == LeftAt(levels', p, p - 1, m)
  {
    var after := arenas[id := a];
    var one := WithRequest(levels, p, a.requested);
    var two := Offered(one, p, m);
    var levels' := Offered(two, p - 1, m - a.allotted);
    RequestKeepsLists(arenas, levels, id, a);
    OfferKeepsLists(after, one, p, m);
    OfferKeepsLists(after, two, p - 1, m - a.allotted);
    assert ListOk(arenas, levels, p) && ListOk(after, levels', p);
    NothingRequestedNothingAllotted(arenas, levels[p].arenas);
    TotalAfter(arenas, levels[p].arenas, id, a, Allotment);
    assert Fair(after, levels', p);
  }

  // An arena with demand goes to another level: the books stay in order above the higher of the two.
  lemma RelistBusy(arenas: Arenas, levels: seq<Level>, top: nat, bottom: nat, m: nat, id: Id, q: nat, h: nat, bottom': nat)
    requires Books(arenas, levels, top, bottom, m) && id in arenas && arenas[id].requested > 0
    requires q < LEVELS && q != arenas[id].priority
    requires q <= h && arenas[id].priority <= h <= top && bottom' <= q && bottom' <= bottom
    ensures bottom <= arenas[id].priority <= top
    ensures var after := arenas[id := arenas[id].(priority := q)];
      var levels' := Relisted(levels, id, arenas[id].priority, q, arenas[id].requested);
      && BooksAbove(after, levels', top, bottom', m, h)
      && levels'[h].available == LeftAt(levels', top, h, m)
      && levels'[q].requested > 0
  {
    var after := arenas[id := arenas[id].(priority := q)];
    DemandInRange(arenas, levels, top, bottom, m, -1, id);
    var levels' := Relisted(levels, id, arenas[id].priority, q, arenas[id].requested);
    RelistKeepsLists(arenas, levels, id, q);
    ChangedBelow(arenas, levels, top, bottom, m, after, levels', bottom', h);
    DemandInRange(after, levels', top, bottom', m, h, id);
  }

  // A changed request leaves the levels above the arena's own in order.
  lemma RequestKeepsAbove(arenas: Arenas, levels: seq<Level>, top: nat, bottom: nat, m: nat, id: Id, a: Arena)
    requires Books(arenas, levels, top, bottom, m) && id in arenas && a.priority == arenas[id].priority
    requires bottom <= a.priority <= top && a.allotted >= 0 && (a.requested <= 0 ==> a.allotted == 0)
    ensures var p := a.priority;
      var levels' := WithRequest(levels, p, Pos(a.requested) - Pos(arenas[id].requested));
      && BooksAbove(arenas[id := a], levels', top, bottom, m, p)
      && levels'[p].available == LeftAt(levels', top, p, m)
  {
    var p := a.priority;
    var levels' := WithRequest(levels, p, Pos(a.requested) - Pos(arenas[id].requested));
    RequestKeepsLists(arenas, levels, id, a);
    ChangedBelow(arenas, levels, top, bottom, m, arenas[id := a], levels', bottom, p);
  }

  // ---------------------------------------------------------------- arenas come and go

  function Listed(levels: seq<Level>, id: Id, q: nat): seq<Level>
    requires q < |levels|
  {
    levels[q := levels[q].(arenas := [id] + levels[q].arenas)]
  }

  lemma NewArenaAtLevel(arenas: Arenas, levels: seq<Level>, id: Id, a: Arena, l: nat)
    requires Lists(arenas, levels) && id !in arenas && l < LEVELS
    requires a.requested == 0 && a.allotted == 0 && a.priority < LEVELS
    ensures ListOk(arenas, levels, l)
    ensures var after, levels' := arenas[id := a], Listed(levels, id, a.priority);
      && ListOk(after, levels', l) && Total(after, levels'[l].arenas, Allotment) == Total(arenas, levels[l].arenas, Allotment)
      && (Uncapped(after, levels'[l].arenas) ==> Uncapped(arenas, levels[l].arenas))
  {
    var after, levels' := arenas[id := a], Listed(levels, id, a.priority);
    assert ListOk(arenas, levels, l);
    SameTotal(arenas, after, levels[l].arenas, Demand);
    SameTotal(arenas, after, levels[l].arenas, Allotment);
    if l == a.priority {
      TotalWithFront(after, levels[l].arenas, id, Demand);
      TotalWithFront(after, levels[l].arenas, id, Allotment);
    }
    assert forall i :: i in levels[l].arenas ==> i in levels'[l].arenas && after[i] == arenas[i];
  }

  lemma NewArenaKeepsBooks(arenas: Arenas, levels: seq<Level>, top: nat, bottom: nat, m: nat, id: Id, a: Arena)
    requires Books(arenas, levels, top, bottom, m) && id !in arenas
    requires a.requested == 0 && a.allotted == 0 && a.priority < LEVELS
    ensures Books(arenas[id := a], Listed(levels, id, a.priority), top, bottom, m)
  {
    var after, levels' := arenas[id := a], Listed(levels, id, a.priority);
    forall l: nat | l < LEVELS ensures ListOk(after, levels', l) {
      NewArenaAtLevel(arenas, levels, id, a, l);
    }
    forall l: nat | bottom <= l <= top ensures levels'[l].available == LeftAt(levels', top, l, m) && Fair(after, levels', l) {
      SameLeft(levels, levels', top, l, m);
      NewArenaAtLevel(arenas, levels, id, a, l);
      assert Fair(arenas, levels, l);
    }
  }
}
