// The market: arenas ask for workers, change priority, and have the workers there are divided among them anew,
// level by level from the top.
module Market {
  import opened MarketBooks
  import opened MarketShares
  import opened MarketMoves

  predicate Idle(a: Arena) { a.allotted >= 0 && (a.requested <= 0 ==> a.allotted == 0) }

  // One arena's request has changed, and nobody else's.
  ghost predicate Requested(arenas: Arenas, after: Arenas, id: Id, a: Arena)
    requires id in arenas
  {
    && after.Keys == arenas.Keys
    && SameButAllotment(after[id], a.(priority := if a.requested <= 0 then NORMAL else a.priority))
    && forall x :: x in arenas && x != id ==> SameButAllotment(after[x], arenas[x])
  }

  function AfterRequest(a: Arena, requested: int): Arena {
    if a.requested > 0 && requested <= 0 then a.(requested := requested, priority := NORMAL, bottom := NORMAL)
    else a.(requested := requested)
  }

  // Outside the range that counts nobody asks for workers.
  lemma NoDemandOutside(arenas: Arenas, levels: seq<Level>, top: nat, bottom: nat, m: nat, id: Id)
    requires Books(arenas, levels, top, bottom, m) && id in arenas
    requires arenas[id].priority < bottom || arenas[id].priority > top
    ensures arenas[id].requested <= 0
  {
    if arenas[id].requested > 0 {
      DemandInRange(arenas, levels, top, bottom, m, -1, id);
    }
  }

  class Market {
    const maxWorkers: nat
    var top: nat
    var bottom: nat
    var levels: seq<Level>
    var arenas: Arenas

    ghost predicate Valid()
      reads this
    {
      Books(arenas, levels, top, bottom, maxWorkers)
    }

    constructor (maxWorkers: nat)
      ensures Valid() && Asserted(levels, top, bottom) && arenas == map[] && this.maxWorkers == maxWorkers
    {
      this.maxWorkers := maxWorkers;
      top, bottom := NORMAL, NORMAL;
      levels := seq(LEVELS, l requires 0 <= l => Level([], 0, if l == NORMAL then maxWorkers else 0));
      arenas := map[];
      new;
      forall l: nat | l < LEVELS ensures ListOk(arenas, levels, l) {}
      ResetBooks(arenas, levels, maxWorkers);
    }

    // A new arena is listed at the normal level and asks for nothing yet.
    method CreateArena(id: Id, maxNumWorkers: nat)
      requires Valid() && id !in arenas
      modifies this`arenas, this`levels
      ensures Valid()
      ensures Asserted(levels, top, bottom) <==> old(Asserted(levels, top, bottom))
      ensures arenas == old(arenas)[id := Arena(0, 0, if maxNumWorkers < maxWorkers then maxNumWorkers else maxWorkers, NORMAL, NORMAL)]
    {
      var a := Arena(0, 0, if maxNumWorkers < maxWorkers then maxNumWorkers else maxWorkers, NORMAL, NORMAL);
      NewArenaKeepsBooks(arenas, levels, top, bottom, maxWorkers, id, a);
      DemandDecides(arenas, levels, top, bottom);
      arenas := arenas[id := a];
      levels := Listed(levels, id, NORMAL);
      DemandDecides(arenas, levels, top, bottom);
    }

    // Divides the workers available to one level among its arenas.
    method Divide(ids: seq<Id>, demand: int, available: int)
      requires Distinct(ids) && (forall id :: id in ids ==> id in arenas) && Calm(arenas)
      requires demand > 0 && available >= 0 && demand == Total(arenas, ids, Demand)
      modifies this`arenas
      ensures Divided(old(arenas), arenas, ids, |ids|, Min(demand, available), demand) && Calm(arenas)
    {
      ghost var was := arenas;
      var workers := Min(demand, available);
      var carry := 0;
      DividingStarts(arenas, ids, workers, demand);
      var k := 0;
      while k < |ids|
        invariant k <= |ids| && Dividing(was, arenas, ids, k, workers, demand, carry)
      {
        DividingSkips(was, arenas, ids, k, workers, demand, carry);
        var a := arenas[ids[k]];
        if a.requested > 0 {
          DividingGives(was, arenas, ids, k, workers, demand, carry);
          var tmp := a.requested * workers + carry;
          var allotted := tmp / demand;
          carry := tmp % demand;
          arenas := arenas[ids[k] := a.(allotted := Min(allotted, a.maxWorkers))];
        }
        k := k + 1;
      }
    }

    method TakeAll(ids: seq<Id>)
      requires forall id :: id in ids ==> id in arenas
      requires Calm(arenas)
      modifies this`arenas
      ensures OnlyAllotments(old(arenas), arenas, ids) && Calm(arenas)
      ensures forall id :: id in ids ==> arenas[id].allotted == 0
    {
      ghost var was := arenas;
      var k := 0;
      while k < |ids|
        invariant k <= |ids| && OnlyAllotments(was, arenas, ids) && Calm(arenas)
        invariant forall i :: 0 <= i < k ==> arenas[ids[i]].allotted == 0
      {
        arenas := arenas[ids[k] := arenas[ids[k]].(allotted := 0)];
        k := k + 1;
      }
    }

    // Recalculates allotments from a level downwards, whose own offer is already right.
    method UpdateAllotment(highest: nat)
      requires BooksAbove(arenas, levels, top, bottom, maxWorkers, highest) && bottom <= highest
      requires levels[highest].available == LeftAt(levels, top, highest, maxWorkers)
      modifies this`arenas, this`levels
      ensures Valid() && |levels| == LEVELS && forall l :: 0 <= l < LEVELS ==> levels[l].requested == old(levels)[l].requested
      ensures arenas.Keys == old(arenas.Keys)
      ensures forall id :: id in arenas ==> SameButAllotment(arenas[id], old(arenas)[id])
    {
      ghost var was, before := arenas, levels;
      var i: int := highest;
      var available := levels[i].available;
      LeftIsNonNegative(levels, top, highest, maxWorkers);
      while i >= bottom
        invariant bottom - 1 <= i <= highest && available >= 0
        invariant BooksAbove(arenas, levels, top, bottom, maxWorkers, i) && Demands(levels) == Demands(before)
        invariant i >= bottom ==> available == LeftAt(levels, top, i, maxWorkers)
        invariant arenas.Keys == was.Keys && forall id :: id in arenas ==> SameButAllotment(arenas[id], was[id])
        decreases i
      {
        available := SettleOne(i, available);
        i := i - 1;
        if available < 0 {
          available := 0;
          break;
        }
      }
      while i >= bottom
        invariant bottom - 1 <= i <= highest
        invariant BooksAbove(arenas, levels, top, bottom, maxWorkers, i) && Demands(levels) == Demands(before)
        invariant i >= bottom ==> LeftAt(levels, top, i, maxWorkers) == 0
        invariant arenas.Keys == was.Keys && forall id :: id in arenas ==> SameButAllotment(arenas[id], was[id])
        decreases i
      {
        SettleNone(i);
        i := i - 1;
      }
      SettledToBottom(arenas, levels, top, bottom, maxWorkers, i);
      forall l | 0 <= l < LEVELS ensures levels[l].requested == before[l].requested {
        assert Demands(levels)[l] == Demands(before)[l];
      }
    }

    // Settles one level with the workers left to it; returns what it leaves to the next.
    method SettleOne(i: nat, available: int) returns (left: int)
      requires BooksAbove(arenas, levels, top, bottom, maxWorkers, i) && bottom <= i
      requires available >= 0 && available == LeftAt(levels, top, i, maxWorkers)
      modifies this`arenas, this`levels
      ensures BooksAbove(arenas, levels, top, bottom, maxWorkers, i - 1) && Demands(levels) == old(Demands(levels))
      ensures left == available - levels[i].requested
      ensures levels[i].requested == old(levels)[i].requested >= 0
      ensures i > 0 ==> LeftAt(levels, top, i - 1, maxWorkers) == Pos(left)
      ensures arenas.Keys == old(arenas).Keys
      ensures forall id :: id in arenas ==> SameButAllotment(arenas[id], old(arenas)[id])
    {
      ghost var was, before := arenas, levels;
      assert ListOk(arenas, levels, i);
      TotalIsNonNegative(arenas, levels[i].arenas);
      if levels[i].requested != 0 {
        Divide(levels[i].arenas, levels[i].requested, available);
        DividedIsFair(was, arenas, levels[i].arenas, available, levels[i].requested);
      } else {
        NothingRequestedNothingAllotted(arenas, levels[i].arenas);
      }
      levels := levels[i := levels[i].(available := available)];
      SettleLevel(was, before, top, bottom, maxWorkers, i, arenas, levels);
      SameLeft(before, levels, top, i, maxWorkers);
      left := available - levels[i].requested;
    }

    // Nothing is left for a level: its arenas give everything back.
    method SettleNone(i: nat)
      requires BooksAbove(arenas, levels, top, bottom, maxWorkers, i) && bottom <= i
      requires LeftAt(levels, top, i, maxWorkers) == 0
      modifies this`arenas, this`levels
      ensures BooksAbove(arenas, levels, top, bottom, maxWorkers, i - 1) && Demands(levels) == old(Demands(levels))
      ensures i > 0 ==> LeftAt(levels, top, i - 1, maxWorkers) == 0
      ensures arenas.Keys == old(arenas).Keys
      ensures forall id :: id in arenas ==> SameButAllotment(arenas[id], old(arenas)[id])
    {
      ghost var was, before := arenas, levels;
      assert ListOk(arenas, levels, i);
      TotalIsNonNegative(arenas, levels[i].arenas);
      levels := levels[i := levels[i].(available := 0)];
      TakeAll(levels[i].arenas);
      ZeroTotal(arenas, levels[i].arenas);
      SettleLevel(was, before, top, bottom, maxWorkers, i, arenas, levels);
      SameLeft(before, levels, top, i, maxWorkers);
    }

    method UpdateGlobalTopPriority(p: nat)
      requires |levels| == LEVELS && p < LEVELS
      modifies this`top, this`levels
      ensures top == p && levels == old(levels)[p := old(levels)[p].(available := maxWorkers)]
    {
      top := p;
      levels := levels[p := levels[p].(available := maxWorkers)];
    }

    method ResetGlobalPriority()
      requires |levels| == LEVELS
      modifies this`top, this`bottom, this`levels
      ensures top == bottom == NORMAL
      ensures levels == old(levels)[NORMAL := old(levels)[NORMAL].(available := maxWorkers)]
    {
      bottom := NORMAL;
      UpdateGlobalTopPriority(NORMAL);
    }

    // Lists the arena at another level.
    method UpdateArenaTopPriority(id: Id, p: nat)
      requires |levels| == LEVELS && id in arenas && arenas[id].priority < LEVELS && p < LEVELS
      requires p != arenas[id].priority
      modifies this`arenas, this`levels
      ensures arenas == old(arenas)[id := old(arenas)[id].(priority := p)]
      ensures levels == Relisted(old(levels), id, old(arenas)[id].priority, p, old(arenas)[id].requested)
    {
      var a := arenas[id];
      levels := levels[a.priority := levels[a.priority].(arenas := Without(levels[a.priority].arenas, id))];
      arenas := arenas[id := a.(priority := p)];
      levels := levels[p := levels[p].(arenas := [id] + levels[p].arenas)];
      levels := levels[a.priority := levels[a.priority].(requested := levels[a.priority].requested - a.requested)];
      levels := levels[p := levels[p].(requested := levels[p].requested + a.requested)];
    }

    // The highest level at or below p with demand, or one below the bottom level.
    method NextBelow(p: int) returns (q: int)
      requires |levels| == LEVELS && bottom - 1 <= p < LEVELS
      ensures bottom - 1 <= q <= p && (q >= bottom ==> levels[q].requested != 0)
      ensures forall l :: q < l <= p ==> levels[l].requested == 0
    {
      q := p;
      while q >= bottom && levels[q].requested == 0
        invariant bottom - 1 <= q <= p && forall l :: q < l <= p ==> levels[l].requested == 0
      {
        q := q - 1;
      }
    }

    // The lowest level at or above p with demand, or one above the top level.
    method NextAbove(p: nat) returns (q: nat)
      requires |levels| == LEVELS && p <= top + 1 <= LEVELS
      ensures p <= q <= top + 1 && (q <= top ==> levels[q].requested != 0)
      ensures forall l :: p <= l < q ==> levels[l].requested == 0
    {
      q := p;
      while q <= top && levels[q].requested == 0
        invariant p <= q <= top + 1 && forall l :: p <= l < q ==> levels[l].requested == 0
      {
        q := q + 1;
      }
    }

    // Changes the number of workers an arena asks for. Returns the change in demand the server is told.
    method AdjustDemand(id: Id, delta: int) returns (told: int)
      requires Valid() && id in arenas
      // The request changes sign only through zero.
      requires var prev := arenas[id].requested;
        (prev <= 0 && prev + delta <= 0) || (prev >= 0 && prev + delta >= 0)
      modifies this
      ensures Valid() && arenas.Keys == old(arenas).Keys
      // An arena that stops asking for workers is back at the normal priority; nothing else changes but allotments.
      ensures var was := old(arenas)[id];
        SameButAllotment(arenas[id], AfterRequest(was, was.requested + delta))
      ensures forall x :: x in arenas && x != id ==> SameButAllotment(arenas[x], old(arenas)[x])
      ensures told == Pos(arenas[id].requested) - Pos(old(arenas)[id].requested)
      // The market's own assertion survives, except when nobody asks for workers and an arena below the normal
      // priority begins to.
      ensures old(Asserted(levels, top, bottom)) ==>
        (Asserted(levels, top, bottom) <==> old(levels[top].requested != 0 || arenas[id].priority >= bottom || !(arenas[id].requested == 0 < delta)))
    {
      if delta == 0 {
        return 0;
      }
      var a := arenas[id];
      var prev := a.requested;
      DemandDecides(arenas, levels, top, bottom);
      a := a.(requested := prev + delta);
      told := delta;
      if a.requested <= 0 {
        a := a.(allotted := 0);
        if prev <= 0 {
          SilentRequest(arenas, levels, top, bottom, maxWorkers, id, a);
          arenas := arenas[id := a];
          return 0;
        }
        told := -prev;
        a := a.(bottom := NORMAL);
      }
      var p := a.priority;
      if p > top {
        RequestAboveTop(id, a, told);
      } else if p < bottom {
        NoDemandOutside(arenas, levels, top, bottom, maxWorkers, id);
        RequestBelowBottom(id, a, told);
      } else {
        RequestInRange(id, a, told);
      }
      DemandDecides(arenas, levels, top, bottom);
    }

    // The first request at a level above the top.
    method RequestAboveTop(id: Id, a: Arena, told: int)
      requires Valid() && id in arenas && a.priority == arenas[id].priority > top
      requires a == arenas[id].(requested := a.requested, allotted := a.allotted, bottom := a.bottom)
      requires told == Pos(a.requested) - Pos(arenas[id].requested) && told != 0 && Idle(a)
      modifies this
      ensures Valid() && Requested(old(arenas), arenas, id, a) && EndsOk(levels, top, bottom)
    {
      NoDemandOutside(arenas, levels, top, bottom, maxWorkers, id);
      var p := a.priority;
      ghost var was, before := arenas, levels;
      var b := a.(allotted := Min(maxWorkers, a.requested));
      TopRises(arenas, levels, top, bottom, maxWorkers, id, b, p);
      arenas := arenas[id := b];
      levels := WithRequest(levels, p, told);
      UpdateGlobalTopPriority(p);
      levels := Offered(levels, p - 1, maxWorkers - b.allotted);
      UpdateAllotment(p - 1);
    }

    // The first request at a level below the bottom.
    method RequestBelowBottom(id: Id, a: Arena, told: int)
      requires Valid() && id in arenas && a.priority == arenas[id].priority < bottom
      requires a == arenas[id].(requested := a.requested, allotted := a.allotted, bottom := a.bottom)
      requires told == Pos(a.requested) - Pos(arenas[id].requested) && told != 0 && Idle(a)
      modifies this
      ensures Valid() && Requested(old(arenas), arenas, id, a)
      ensures top == old(top) && bottom == a.priority && levels[top].requested == old(levels[top].requested)
    {
      NoDemandOutside(arenas, levels, top, bottom, maxWorkers, id);
      RequestKeepsLists(arenas, levels, id, a);
      ghost var was, before := arenas, levels;
      var p := a.priority;
      arenas := arenas[id := a];
      levels := WithRequest(levels, p, told);
      var prevBottom := bottom;
      ChangedBelow(was, before, top, bottom, maxWorkers, arenas, levels, p, bottom);
      bottom := p;
      UpdateAllotment(prevBottom);
    }

    // An arena at level p that asks for nothing any more goes back to the normal level.
    method ResetPriority(id: Id, p: nat)
      requires BooksAbove(arenas, levels, top, bottom, maxWorkers, p) && bottom <= p
      requires levels[p].available == LeftAt(levels, top, p, maxWorkers)
      requires id in arenas && arenas[id].requested == 0 && arenas[id].priority == p
      modifies this`arenas, this`levels
      ensures BooksAbove(arenas, levels, top, bottom, maxWorkers, p)
      ensures levels[p].available == LeftAt(levels, top, p, maxWorkers)
      ensures arenas == old(arenas)[id := old(arenas)[id].(priority := NORMAL)]
      ensures forall l :: 0 <= l < LEVELS ==> levels[l].requested == old(levels)[l].requested
    {
      if p != NORMAL {
        RelistIdle(arenas, levels, top, bottom, maxWorkers, p, id, NORMAL);
        SameLeft(levels, Relisted(levels, id, p, NORMAL, 0), top, p, maxWorkers);
        UpdateArenaTopPriority(id, NORMAL);
      }
    }

    // A changed request at a level that counts.
    method RequestInRange(id: Id, a: Arena, told: int)
      requires Valid() && id in arenas && bottom <= a.priority <= top && a.priority == arenas[id].priority
      requires a == arenas[id].(requested := a.requested, allotted := a.allotted, bottom := a.bottom)
      requires told == Pos(a.requested) - Pos(arenas[id].requested) && told != 0 && Idle(a)
      requires a.requested >= 0
      modifies this
      ensures Valid() && Requested(old(arenas), arenas, id, a)
      ensures old(EndsOk(levels, top, bottom)) ==> EndsOk(levels, top, bottom)
    {
      RequestKeepsAbove(arenas, levels, top, bottom, maxWorkers, id, a);
      var p := a.priority;
      ghost var before := levels;
      arenas := arenas[id := a];
      levels := WithRequest(levels, p, told);
      if a.requested <= 0 {
        ResetPriority(id, p);
      }
      assert p == top || levels[top].requested == before[top].requested;
      Rebalance(p);
    }

    // Decides, from the demand left at level p, which levels count from now on, and settles p and below.
    method Rebalance(p: nat)
      requires BooksAbove(arenas, levels, top, bottom, maxWorkers, p) && bottom <= p
      requires levels[p].available == LeftAt(levels, top, p, maxWorkers)
      modifies this
      ensures Valid() && arenas.Keys == old(arenas).Keys
      ensures p == old(top) || old(levels[top].requested) != 0 ==> EndsOk(levels, top, bottom)
      ensures forall x :: x in arenas ==> SameButAllotment(arenas[x], old(arenas)[x])
    {
      if p == top {
        if levels[p].requested == 0 {
          var q := NextBelow(p - 1);
          if q < bottom {
            Emptied(arenas, levels, maxWorkers);
            TopMoves(arenas, levels, NORMAL, NORMAL, maxWorkers);
            ResetGlobalPriority();
          } else {
            TopMoves(arenas, levels, q, bottom, maxWorkers);
            UpdateGlobalTopPriority(q);
          }
        }
        UpdateAllotment(top);
      } else if p == bottom {
        if levels[p].requested == 0 {
          var q := NextAbove(p + 1);
          if q > top {
            Emptied(arenas, levels, maxWorkers);
            ResetGlobalPriority();
          } else {
            BottomRises(arenas, levels, top, bottom, maxWorkers, q);
            bottom := q;
          }
        } else {
          UpdateAllotment(p);
        }
      } else {
        UpdateAllotment(p);
      }
    }

    // Moves an arena to a lower priority, unless its priority has changed meanwhile.
    method LowerArenaPriority(id: Id, newPriority: nat, oldPriority: nat) returns (r: bool)
      requires Valid() && id in arenas
      requires arenas[id].priority == oldPriority ==> newPriority < oldPriority
      modifies this
      ensures r <==> old(arenas)[id].priority == oldPriority
      ensures Valid() <==> !r || old(arenas)[id].requested >= 0
      ensures Valid() && old(Asserted(levels, top, bottom)) ==> Asserted(levels, top, bottom)
      ensures arenas.Keys == old(arenas).Keys
      ensures forall x :: x in arenas ==>
        SameButAllotment(arenas[x], if x == id && r then old(arenas)[x].(priority := newPriority) else old(arenas)[x])
    {
      if arenas[id].priority != oldPriority {
        return false;
      }
      DemandDecides(arenas, levels, top, bottom);
      if arenas[id].requested > 0 {
        DemandInRange(arenas, levels, top, bottom, maxWorkers, -1, id);
        var newBottom := if newPriority < bottom then newPriority else bottom;
        RelistBusy(arenas, levels, top, bottom, maxWorkers, id, newPriority, oldPriority, newBottom);
        UpdateArenaTopPriority(id, newPriority);
        bottom := newBottom;
        SettleLowered(oldPriority, newPriority);
      } else {
        RelistQuiet(arenas, levels, top, bottom, maxWorkers, id, newPriority);
        UpdateArenaTopPriority(id, newPriority);
      }
      if Valid() {
        DemandDecides(arenas, levels, top, bottom);
      }
      return true;
    }

    // An arena with demand has gone from level p to a lower one.
    method SettleLowered(p: nat, newPriority: nat)
      requires BooksAbove(arenas, levels, top, bottom, maxWorkers, p) && bottom <= newPriority < p
      requires levels[p].available == LeftAt(levels, top, p, maxWorkers) && levels[newPriority].requested > 0
      modifies this
      ensures Valid() && arenas.Keys == old(arenas).Keys
      ensures p == old(top) || old(levels[top].requested) != 0 ==> EndsOk(levels, top, bottom)
      ensures forall x :: x in arenas ==> SameButAllotment(arenas[x], old(arenas)[x])
    {
      if p == top && levels[p].requested == 0 {
        var q := NextBelow(p - 1);
        TopMoves(arenas, levels, q, bottom, maxWorkers);
        UpdateGlobalTopPriority(q);
        UpdateAllotment(q);
      } else {
        UpdateAllotment(p);
      }
    }

    // Raises the priority of an arena; a request to lower it only widens the range the arena looks at.
    method UpdateArenaPriority(id: Id, newPriority: nat) returns (r: bool)
      requires Valid() && id in arenas && newPriority < LEVELS
      modifies this
      ensures r <==> newPriority > old(arenas)[id].priority
      ensures Valid() <==> !r || old(arenas)[id].requested >= 0
      ensures Valid() && old(Asserted(levels, top, bottom)) ==> Asserted(levels, top, bottom)
      ensures arenas.Keys == old(arenas).Keys
      ensures forall x :: x in arenas && x != id ==> SameButAllotment(arenas[x], old(arenas)[x])
      ensures var was := old(arenas)[id];
        SameButAllotment(arenas[id], if r then was.(priority := newPriority)
                                     else if newPriority < was.priority then was.(bottom := Min(was.bottom, newPriority))
                                     else was)
    {
      var a := arenas[id];
      if a.priority == newPriority {
        return false;
      }
      if a.priority > newPriority {
        if a.bottom > newPriority {
          SameBooks(arenas, levels, top, bottom, maxWorkers, id, a.(bottom := newPriority));
          arenas := arenas[id := a.(bottom := newPriority)];
        }
        return false;
      }
      DemandDecides(arenas, levels, top, bottom);
      if a.requested > 0 {
        DemandInRange(arenas, levels, top, bottom, maxWorkers, -1, id);
        if top < newPriority {
          RaiseAboveTop(id, newPriority);
        } else {
          RelistBusy(arenas, levels, top, bottom, maxWorkers, id, newPriority, newPriority, bottom);
          UpdateArenaTopPriority(id, newPriority);
          SettleRaised(a.priority, newPriority);
        }
      } else {
        RelistQuiet(arenas, levels, top, bottom, maxWorkers, id, newPriority);
        UpdateArenaTopPriority(id, newPriority);
      }
      if Valid() {
        DemandDecides(arenas, levels, top, bottom);
      }
      return true;
    }

    // An arena with demand becomes the new top.
    method RaiseAboveTop(id: Id, newPriority: nat)
      requires Valid() && id in arenas && arenas[id].requested > 0 && top < newPriority < LEVELS
      modifies this
      ensures Valid() && arenas.Keys == old(arenas).Keys
      ensures newPriority == top || old(levels[top].requested) != 0 ==> EndsOk(levels, top, bottom)
      ensures forall x :: x in arenas ==>
        SameButAllotment(arenas[x], if x == id then old(arenas)[x].(priority := newPriority) else old(arenas)[x])
    {
      var p := arenas[id].priority;
      DemandInRange(arenas, levels, top, bottom, maxWorkers, -1, id);
      RelistKeepsLists(arenas, levels, id, newPriority);
      UpdateArenaTopPriority(id, newPriority);
      TopMoves(arenas, levels, newPriority, bottom, maxWorkers);
      UpdateGlobalTopPriority(newPriority);
      DemandInRange(arenas, levels, top, bottom, maxWorkers, newPriority, id);
      SettleRaised(p, newPriority);
    }

    // An arena with demand has gone up from level p.
    method SettleRaised(p: nat, newPriority: nat)
      requires BooksAbove(arenas, levels, top, bottom, maxWorkers, newPriority) && bottom <= p < newPriority
      requires levels[newPriority].available == LeftAt(levels, top, newPriority, maxWorkers)
      requires levels[newPriority].requested > 0
      modifies this
      ensures Valid() && arenas.Keys == old(arenas).Keys
      ensures newPriority == top || old(levels[top].requested) != 0 ==> EndsOk(levels, top, bottom)
      ensures forall x :: x in arenas ==> SameButAllotment(arenas[x], old(arenas)[x])
    {
      if p == bottom {
        RaiseBottom(newPriority);
      }
      UpdateAllotment(newPriority);
    }

    // Levels without demand at the bottom stop counting.
    method RaiseBottom(h: nat)
      requires BooksAbove(arenas, levels, top, bottom, maxWorkers, h) && bottom <= h && levels[h].requested != 0
      modifies this`bottom
      ensures BooksAbove(arenas, levels, top, bottom, maxWorkers, h) && bottom <= h
    {
      var q := NextAbove(bottom);
      assert q <= h;
      bottom := q;
    }
  }

  // An arena that asks for no worker changes its level: the books stay in order unless its request is negative.
  lemma RelistQuiet(arenas: Arenas, levels: seq<Level>, top: nat, bottom: nat, m: nat, id: Id, q: nat)
    requires Books(arenas, levels, top, bottom, m) && id in arenas && arenas[id].requested <= 0
    requires q < LEVELS && q != arenas[id].priority
    ensures arenas[id].priority < LEVELS
    ensures var after := arenas[id := arenas[id].(priority := q)];
      var levels' := Relisted(levels, id, arenas[id].priority, q, arenas[id].requested);
      && (Books(after, levels', top, bottom, m) <==> arenas[id].requested >= 0)
      && (arenas[id].requested >= 0 && EndsOk(levels, top, bottom) ==> EndsOk(levels', top, bottom))
  {
    RelistKeepsLists(arenas, levels, id, q);
    if arenas[id].requested == 0 {
      RelistIdle(arenas, levels, top, bottom, m, -1, id, q);
    }
  }

  // The range of priorities an arena looks at does not enter the books.
  lemma SameBooks(arenas: Arenas, levels: seq<Level>, top: nat, bottom: nat, m: nat, id: Id, a: Arena)
    requires Books(arenas, levels, top, bottom, m) && id in arenas && a == arenas[id].(bottom := a.bottom)
    ensures Books(arenas[id := a], levels, top, bottom, m)
  {
    var after := arenas[id := a];
    forall l: nat | l < LEVELS ensures ListOk(after, levels, l) {
      assert ListOk(arenas, levels, l);
      SameTotal(arenas, after, levels[l].arenas, Demand);
    }
    forall l: nat | bottom <= l <= top ensures Fair(after, levels, l) {
      assert Fair(arenas, levels, l) && ListOk(arenas, levels, l);
      SameTotal(arenas, after, levels[l].arenas, Allotment);
      assert Uncapped(after, levels[l].arenas) ==> Uncapped(arenas, levels[l].arenas);
    }
  }

  lemma {:induction false} NoDemand(arenas: Arenas, ids: seq<Id>)
    requires forall id :: id in ids ==> id in arenas && arenas[id].requested <= 0
    ensures Total(arenas, ids, Demand) == 0
  {
    if ids != [] {
      NoDemand(arenas, ids[..|ids| - 1]);
    }
  }

  // The market's assertion fails: an arena that asks for nothing is put on the lowest level, and then asks for a worker.
  method IdleArenaAsksFromBelow() returns (m: Market)
    ensures fresh(m) && m.Valid() && m.arenas.Keys == {0} && m.arenas[0].requested == 1
    ensures !Asserted(m.levels, m.top, m.bottom)
  {
    m := new Market(1);
    m.CreateArena(0, 1);
    var lowered := m.LowerArenaPriority(0, 0, NORMAL);
    assert ListOk(m.arenas, m.levels, m.top);
    NoDemand(m.arenas, m.levels[m.top].arenas);
    var told := m.AdjustDemand(0, 1);
  }
}
