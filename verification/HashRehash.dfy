// Serial rehashing of a whole table: buckets that wait below a rehashed root are marked level by level, and
// the root's items are spread over all of them at once.
module HashRehash {
  import opened Powers
  import opened HashLayout
  import opened HashTable
  import opened HashState

  // What marking below h does.
  ghost predicate MarkedBelow(b: Table, t: Table, h: nat) {
    && |t| == |b|
    && forall i :: 0 <= i < |b| ==> t[i] == if b[i].RehashReq? && Root(b, i) == h then Chain([]) else b[i]
  }

  // Part of it: every change is one of these, and what still waits still waits for h.
  ghost predicate Marking(b: Table, t: Table, h: nat) {
    && |t| == |b|
    && (forall i :: 0 <= i < |b| && t[i] != b[i] ==> b[i].RehashReq? && Root(b, i) == h && t[i] == Chain([]))
    && (forall i :: 0 <= i < |b| && t[i].RehashReq? && Root(b, i) == h ==> Root(t, i) == h)
  }

  function Segment(h: nat): nat { if h == 0 then 0 else Log2(h) }

  lemma BelowSegment(h: nat, s: nat)
    requires Segment(h) < s
    ensures h < Pow2(s) && Pow2(s) >= 2
  {
    Pow2Grows(1, s);
    if h > 0 {
      Pow2Grows(Log2(h) + 1, s);
    }
  }

  lemma ParentIs(x: nat, s: nat)
    requires Pow2(s) <= x < 2 * Pow2(s) && x > 1
    ensures Parent(x) == x - Pow2(s)
  {
    LogIs(x, s);
  }

  lemma ChildOf(h: nat, s: nat)
    requires Segment(h) < s
    ensures h + Pow2(s) > 1 && Parent(h + Pow2(s)) == h
  {
    BelowSegment(h, s);
    ParentIs(h + Pow2(s), s);
  }

  lemma ChildInTable(h: nat, s: nat, level: nat)
    requires Segment(h) < s < level
    ensures h + Pow2(s) < Pow2(level)
  {
    BelowSegment(h, s);
    Pow2Grows(s + 1, level);
  }

  lemma ParentSegment(x: nat)
    requires x > 1
    ensures Segment(Parent(x)) < Log2(x) && x == Parent(x) + Pow2(Log2(x))
  {
    var p := Parent(x);
    if p > 0 && Log2(p) >= Log2(x) {
      Pow2Grows(Log2(x), Log2(p));
    }
  }

  lemma {:induction false} RootAfterMark(t: Table, x: nat, i: nat)
    requires 1 < x < |t| && !t[x].Chain? && i < |t|
    ensures var u := t[x := Chain([])];
      && (Root(u, i) == Root(t, i) || Root(u, i) == x)
      && (Root(u, i) == x ==> Root(t, i) == Root(t, x))
  {
    if i > 1 && i != x && !t[i].Chain? {
      RootAfterMark(t, x, Parent(i));
    }
  }

  // With fewer lists the root is the same, if it was one already.
  lemma {:induction false} RootBefore(b: Table, t: Table, i: nat)
    requires |t| == |b| && i < |b|
    requires forall j :: 0 <= j < |b| && b[j].Chain? ==> t[j].Chain?
    requires Root(t, i) <= 1 || b[Root(t, i)].Chain?
    ensures Root(b, i) == Root(t, i)
  {
    if i > 1 && !t[i].Chain? {
      RootBefore(b, t, Parent(i));
    }
  }

  lemma {:induction false} RootUnmarked(t: Table, u: Table, x: nat, i: nat)
    requires MarkedBelow(t, u, x) && i < |t| && Root(t, i) != x
    ensures Root(u, i) == Root(t, i)
  {
    if i > 1 && !t[i].Chain? {
      RootUnmarked(t, u, x, Parent(i));
    }
  }

  // Marking one child and everything below it.
  lemma MarkChild(b: Table, t: Table, u: Table, h: nat, x: nat)
    requires NoClaims(b) && h < x < |b| && x > 1 && Parent(x) == h && b[h].Chain?
    requires Marking(b, t, h) && t[x].RehashReq? && MarkedBelow(t[x := Chain([])], u, x)
    ensures Marking(b, u, h) && u[x].Chain?
    ensures forall i :: 0 <= i < |b| && t[i].Chain? ==> u[i].Chain?
  {
    var t1 := t[x := Chain([])];
    assert Root(t, x) == h;
    RootBefore(b, t, x);
    forall i | 0 <= i < |b| && u[i] != b[i] ensures b[i].RehashReq? && Root(b, i) == h && u[i] == Chain([]) {
      if i != x && u[i] != t[i] {
        RootAfterMark(t, x, i);
        RootBefore(b, t, i);
      }
    }
    forall i | 0 <= i < |b| && u[i].RehashReq? && Root(b, i) == h ensures Root(u, i) == h {
      assert u[i] == t1[i] == t[i];
      RootAfterMark(t, x, i);
      RootUnmarked(t1, u, x, i);
    }
  }

  lemma {:induction false} WaitingChild(t: Table, level: nat, i: nat, h: nat) returns (s: nat)
    requires Usable(t, level) && NoClaims(t) && i < |t| && t[i].RehashReq? && Root(t, i) == h
    ensures Segment(h) < s < level && h + Pow2(s) < |t| && t[h + Pow2(s)].RehashReq?
  {
    if t[Parent(i)].RehashReq? {
      s := WaitingChild(t, level, Parent(i), h);
    } else {
      s := Log2(i);
      ParentSegment(i);
      LogOfIndex(i, level);
    }
  }

  lemma MarkingDone(b: Table, t: Table, level: nat, h: nat)
    requires Usable(t, level) && NoClaims(b) && Marking(b, t, h) && h < |b|
    requires forall s :: Segment(h) < s < level && h + Pow2(s) < |t| ==> !t[h + Pow2(s)].RehashReq?
    ensures MarkedBelow(b, t, h)
  {
    forall i | 0 <= i < |b| && b[i].RehashReq? && Root(b, i) == h ensures t[i] == Chain([]) {
      if t[i].RehashReq? {
        assert NoClaims(t);
        var s := WaitingChild(t, level, i, h);
      }
    }
  }

  // ---------------------------------------------------------------- spreading the items of a root

  // The result of marking below h and spreading its items by the whole mask.
  ghost predicate SpreadFrom(b: Table, u: Table, level: nat, h: nat) {
    && |u| == |b| && h < |b|
    && forall j :: 0 <= j < |b| ==>
         u[j] == if j == h then Chain(Stay(Nodes(b[h]), level, h))
                 else if b[j].RehashReq? && Root(b, j) == h then Chain(Picked(Nodes(b[h]), level, j))
                 else b[j]
  }

  // The items the mask leaves in bucket h, in order.
  function Stay(ns: seq<Item>, l: nat, h: nat): seq<Item> {
    if ns == [] then [] else
    var last := |ns| - 1;
    Stay(ns[..last], l, h) + if Cut(ns[last].key.hash, l) == h then [ns[last]] else []
  }

  lemma {:induction false} StayOf(ns: seq<Item>, l: nat, h: nat)
    requires UniqueKeys(ns)
    ensures UniqueKeys(Stay(ns, l, h))
    ensures forall it :: it in Stay(ns, l, h) <==> it in ns && Cut(it.key.hash, l) == h
  {
    if ns != [] {
      var rest, x := ns[..|ns| - 1], ns[|ns| - 1];
      StayOf(rest, l, h);
      assert ns == rest + [x];
      forall it | it in rest ensures it.key != x.key {
        var k :| 0 <= k < |rest| && rest[k] == it;
      }
      UniqueWith(Stay(rest, l, h), x);
    }
  }

  lemma {:induction false} SpreadRoots(b: Table, u: Table, level: nat, h: nat, i: nat)
    requires NoClaims(b) && SpreadFrom(b, u, level, h) && b[h].Chain? && i < |b|
    ensures Root(u, i) == if Root(b, i) == h then i else Root(b, i)
  {
    if i > 1 && b[i].RehashReq? {
      SpreadRoots(b, u, level, h, Parent(i));
    }
  }

  lemma SpreadItem(b: Table, u: Table, level: nat, h: nat, j: nat, it: Item)
    requires Sound(b, level) && NoClaims(b) && SpreadFrom(b, u, level, h) && b[h].Chain? && j < |b|
    ensures it in Nodes(u[j]) <==>
      if it in Nodes(b[h]) then Cut(it.key.hash, level) == j else j != h && it in Nodes(b[j])
  {
    var c := it.key.hash;
    StayOf(Nodes(b[h]), level, h);
    PickedOrPassed(Nodes(b[h]), level, j, it);
    if it in Nodes(b[h]) {
      assert Root(b, Cut(c, level)) == h;
      if Cut(c, level) == j && j != h {
        assert b[j].RehashReq?;
      }
    }
  }

  lemma SpreadKeepsItems(b: Table, u: Table, level: nat, h: nat, it: Item)
    requires Sound(b, level) && NoClaims(b) && SpreadFrom(b, u, level, h) && b[h].Chain?
    ensures Holds(b, it) <==> Holds(u, it)
  {
    if Holds(b, it) {
      var j :| 0 <= j < |b| && it in Nodes(b[j]);
      var k := if j == h then Cut(it.key.hash, level) else j;
      SpreadItem(b, u, level, h, k, it);
      assert it in Nodes(u[k]);
    }
    if Holds(u, it) {
      var j :| 0 <= j < |u| && it in Nodes(u[j]);
      SpreadItem(b, u, level, h, j, it);
      assert it in Nodes(b[h]) || it in Nodes(b[j]);
    }
  }

  lemma SpreadHome(b: Table, u: Table, level: nat, h: nat, j: nat, it: Item)
    requires Sound(b, level) && NoClaims(b) && SpreadFrom(b, u, level, h) && b[h].Chain?
    requires j < |b| && it in Nodes(u[j])
    ensures Home(u, level, it.key.hash) == j
  {
    SpreadItem(b, u, level, h, j, it);
    SpreadRoots(b, u, level, h, Cut(it.key.hash, level));
  }

  lemma SpreadIsSound(b: Table, u: Table, level: nat, h: nat)
    requires Sound(b, level) && NoClaims(b) && SpreadFrom(b, u, level, h) && b[h].Chain?
    ensures Sound(u, level) && NoClaims(u) && Items(u) == Items(b)
  {
    forall j, it | 0 <= j < |u| && it in Nodes(u[j]) ensures Home(u, level, it.key.hash) == j {
      SpreadHome(b, u, level, h, j, it);
    }
    forall j | 0 <= j < |u| ensures UniqueKeys(Nodes(u[j])) {
      StayOf(Nodes(b[h]), level, h);
      PartsKeepUniqueKeys(Nodes(b[h]), level, j);
    }
    forall it ensures Holds(b, it) <==> Holds(u, it) {
      SpreadKeepsItems(b, u, level, h, it);
    }
    SameItems(b, u);
  }

  // While the root's list is walked: k items have been dealt with.
  ghost predicate Spreading(b: Table, u: Table, level: nat, h: nat, k: nat) {
    && |u| == |b| && h < |b|
    && var ns := Nodes(b[h]);
    && k <= |ns|
    && forall j :: 0 <= j < |b| ==>
         u[j] == if j == h then Chain(Stay(ns[..k], level, h) + ns[k..])
                 else if b[j].RehashReq? && Root(b, j) == h then Chain(Picked(ns[..k], level, j))
                 else b[j]
  }

  lemma StartSpreading(b: Table, t: Table, level: nat, h: nat)
    requires MarkedBelow(b, t, h) && h < |b| && b[h].Chain?
    ensures Spreading(b, t, level, h, 0)
  {
  }

  lemma EndSpreading(b: Table, u: Table, level: nat, h: nat)
    requires h < |b| && Spreading(b, u, level, h, |Nodes(b[h])|)
    ensures SpreadFrom(b, u, level, h)
  {
    var ns := Nodes(b[h]);
    assert ns[..|ns|] == ns;
  }

  // The list after one more item has been dealt with.
  lemma WalkStep(ns: seq<Item>, level: nat, h: nat, k: nat)
    requires k < |ns|
    ensures var i := |Stay(ns[..k], level, h)|;
      var rest := Stay(ns[..k], level, h) + ns[k..];
      && i < |rest| && rest[i] == ns[k]
      && if Cut(ns[k].key.hash, level) == h
         then rest == Stay(ns[..k + 1], level, h) + ns[k + 1..] && |Stay(ns[..k + 1], level, h)| == i + 1
         else rest[..i] + rest[i + 1..] == Stay(ns[..k + 1], level, h) + ns[k + 1..]
              && |Stay(ns[..k + 1], level, h)| == i
  {
    assert ns[..k + 1][..k] == ns[..k];
  }

  lemma PickStep(ns: seq<Item>, level: nat, k: nat, j: nat)
    requires k < |ns|
    ensures Picked(ns[..k + 1], level, j)
         == (if Cut(ns[k].key.hash, level) == j then [ns[k]] else []) + Picked(ns[..k], level, j)
  {
    assert ns[..k + 1][..k] == ns[..k];
  }

  // The bucket the next item goes to has been marked.
  lemma NextTarget(b: Table, u: Table, level: nat, h: nat, k: nat)
    requires Sound(b, level) && NoClaims(b) && h < |b| && b[h].Chain?
    requires Spreading(b, u, level, h, k) && k < |Nodes(b[h])|
    ensures var c := Cut(Nodes(b[h])[k].key.hash, level);
      c < |b| && u[c].Chain? && (c != h ==> b[c].RehashReq? && Root(b, c) == h)
  {
    var n := Nodes(b[h])[k];
    assert n in Nodes(b[h]);
    assert Home(b, level, n.key.hash) == h;
  }

  // The next item stays in the root's list.
  lemma SpreadStays(b: Table, u: Table, level: nat, h: nat, k: nat)
    requires Spreading(b, u, level, h, k) && k < |Nodes(b[h])| && Cut(Nodes(b[h])[k].key.hash, level) == h
    ensures Spreading(b, u, level, h, k + 1)
  {
    var ns := Nodes(b[h]);
    WalkStep(ns, level, h, k);
    forall j | 0 <= j < |b| && j != h ensures Picked(ns[..k + 1], level, j) == Picked(ns[..k], level, j) {
      PickStep(ns, level, k, j);
    }
  }

  // The next item goes from position i of the root's list to bucket c.
  lemma SpreadMoves(b: Table, u: Table, level: nat, h: nat, k: nat, i: nat, c: nat)
    requires Spreading(b, u, level, h, k) && k < |Nodes(b[h])| && c == Cut(Nodes(b[h])[k].key.hash, level)
    requires c != h && c < |b| && b[c].RehashReq? && Root(b, c) == h
    requires i == |Stay(Nodes(b[h])[..k], level, h)|
    ensures i < |Nodes(u[h])|
    ensures Spreading(b, u[h := Chain(Nodes(u[h])[..i] + Nodes(u[h])[i + 1..])]
                          [c := Chain([Nodes(b[h])[k]] + Nodes(u[c]))], level, h, k + 1)
  {
    var ns := Nodes(b[h]);
    WalkStep(ns, level, h, k);
    forall j | 0 <= j < |b| ensures Picked(ns[..k + 1], level, j)
        == (if c == j then [ns[k]] else []) + Picked(ns[..k], level, j) {
      PickStep(ns, level, k, j);
    }
    var l := Nodes(u[h])[..i] + Nodes(u[h])[i + 1..];
    assert l == Stay(ns[..k + 1], level, h) + ns[k + 1..];
  }

  // Position i of the root's list holds the next item, which stays or goes to a marked bucket.
  lemma SpreadStep(b: Table, u: Table, level: nat, h: nat, k: nat, i: nat)
    requires Sound(b, level) && NoClaims(b) && h < |b| && b[h].Chain? && Spreading(b, u, level, h, k)
    requires i == |Stay(Nodes(b[h])[..k], level, h)| < |Nodes(u[h])|
    ensures k < |Nodes(b[h])| && Nodes(u[h])[i] == Nodes(b[h])[k]
    ensures var n := Nodes(u[h])[i];
      var c := Cut(n.key.hash, level);
      && c < |b|
      && |Stay(Nodes(b[h])[..k + 1], level, h)| == (if c == h then i + 1 else i)
      && Spreading(b, if c == h then u else
                      u[h := Chain(Nodes(u[h])[..i] + Nodes(u[h])[i + 1..])][c := Chain([n] + Nodes(u[c]))],
                   level, h, k + 1)
  {
    var ns := Nodes(b[h]);
    assert k < |ns|;
    WalkStep(ns, level, h, k);
    NextTarget(b, u, level, h, k);
    var c := Cut(ns[k].key.hash, level);
    if c == h {
      SpreadStays(b, u, level, h, k);
    } else {
      SpreadMoves(b, u, level, h, k, i, c);
    }
  }

  // ---------------------------------------------------------------- the scan of the last segment

  // Bucket x waits, and so does some bucket scanned so far with the same root.
  ghost predicate Reached(b: Table, from: nat, to: nat, x: nat)
    requires x < |b|
  {
    exists y :: from <= y < to && y < |b| && b[y].RehashReq? && Root(b, y) == Root(b, x)
  }

  // Which buckets still wait after scanning the buckets from `from` to `to`.
  ghost predicate Scanned(b: Table, u: Table, from: nat, to: nat) {
    && |u| == |b|
    && (forall x :: 0 <= x < |b| ==> (u[x].RehashReq? <==> b[x].RehashReq? && !Reached(b, from, to, x)))
    && (forall x :: 0 <= x < |b| && u[x].RehashReq? ==> Root(u, x) == Root(b, x))
  }

  lemma ScanSkips(b: Table, u: Table, from: nat, to: nat)
    requires Scanned(b, u, from, to) && from <= to < |b| && !u[to].RehashReq?
    ensures Scanned(b, u, from, to + 1)
  {
    forall x | 0 <= x < |b| && b[x].RehashReq? && Reached(b, from, to + 1, x) ensures Reached(b, from, to, x) {
      var y :| from <= y < to + 1 && y < |b| && b[y].RehashReq? && Root(b, y) == Root(b, x);
      if y == to {
        var z :| from <= z < to && z < |b| && b[z].RehashReq? && Root(b, z) == Root(b, to);
      }
    }
    forall x | 0 <= x < |b| && Reached(b, from, to, x) ensures Reached(b, from, to + 1, x) {
      var y :| from <= y < to && y < |b| && b[y].RehashReq? && Root(b, y) == Root(b, x);
    }
  }

  lemma ScanSpreads(b: Table, u: Table, v: Table, level: nat, from: nat, to: nat)
    requires Scanned(b, u, from, to) && from <= to < |b| && u[to].RehashReq? && NoClaims(u)
    requires SpreadFrom(u, v, level, Root(u, to)) && u[Root(u, to)].Chain?
    ensures Scanned(b, v, from, to + 1)
  {
    var h := Root(u, to);
    forall x | 0 <= x < |b|
      ensures v[x].RehashReq? <==> b[x].RehashReq? && !Reached(b, from, to + 1, x)
      ensures v[x].RehashReq? ==> Root(v, x) == Root(b, x)
    {
      SpreadRoots(u, v, level, h, x);
      if Reached(b, from, to, x) {
        var y :| from <= y < to && y < |b| && b[y].RehashReq? && Root(b, y) == Root(b, x);
        assert from <= y < to + 1;
      } else if Reached(b, from, to + 1, x) {
        var y :| from <= y < to + 1 && y < |b| && b[y].RehashReq? && Root(b, y) == Root(b, x);
        assert y == to;
      } else if b[x].RehashReq? {
        assert from <= to < to + 1;
      }
    }
  }

  // The scan has come to bucket i.
  ghost predicate Scanning(b: Table, u: Table, level: nat, base: nat, half: nat, i: nat) {
    Ok(u, level, base) && Items(u) == Items(b) && Scanned(b, u, half, i)
  }

  lemma ScanStarts(b: Table, level: nat, base: nat, half: nat)
    requires Ok(b, level, base)
    ensures Scanning(b, b, level, base, half, half)
  {
  }

  lemma ScanSkipsOne(b: Table, u: Table, level: nat, base: nat, half: nat, i: nat)
    requires Scanning(b, u, level, base, half, i) && half <= i < |u| && !u[i].RehashReq?
    ensures Scanning(b, u, level, base, half, i + 1)
  {
    ScanSkips(b, u, half, i);
  }

  lemma ScanSpreadsOne(b: Table, u: Table, v: Table, level: nat, base: nat, half: nat, i: nat)
    requires Scanning(b, u, level, base, half, i) && half <= i < |u| && u[i].RehashReq?
    requires SpreadFrom(u, v, level, Root(u, i))
    ensures Scanning(b, v, level, base, half, i + 1)
  {
    RootHasList(u, level, i);
    SpreadIsSound(u, v, level, Root(u, i));
    SpreadIsClosed(u, v, level, Root(u, i), Pow2(base));
    ScanSpreads(b, u, v, level, half, i);
  }

  // In a table whose rehashed buckets all have rehashed parents, the last segment meets every waiting bucket.
  lemma ClosedIsReached(b: Table, level: nat, x: nat)
    requires Usable(b, level) && NoClaims(b) && ClosedFrom(b, 2) && x < |b| && b[x].RehashReq?
    ensures Reached(b, Pow2(level - 1), Pow2(level), x)
  {
    if x < Pow2(level - 1) {
      var y := x + Pow2(level - 1);
      Pow2Grows(1, level - 1);
      ParentIs(y, level - 1);
      assert y < |b| && !b[Parent(y)].Chain?;
      assert b[y].RehashReq?;
    }
  }

  lemma SpreadIsClosed(b: Table, u: Table, level: nat, h: nat, n: nat)
    requires NoClaims(b) && SpreadFrom(b, u, level, h) && b[h].Chain? && ClosedFrom(b, n)
    ensures ClosedFrom(u, n)
  {
  }

  predicate Waits(b: Table) { exists i :: 0 <= i < |b| && b[i].RehashReq? }

  // A waiting bucket that the scan of the last segment misses: no bucket there waits for the same root.
  ghost predicate Hidden(b: Table, level: nat, x: nat)
    requires x < |b| && level >= 1
  {
    b[x].RehashReq? && !Reached(b, Pow2(level - 1), |b|, x)
  }

  ghost predicate HasHidden(b: Table, level: nat) {
    level >= 1 && exists x :: 0 <= x < |b| && Hidden(b, level, x)
  }

  lemma ScanLeavesHidden(b: Table, u: Table, level: nat)
    requires level >= 1 && Scanned(b, u, Pow2(level - 1), |b|)
    ensures Waits(u) <==> HasHidden(b, level)
  {
    if Waits(u) {
      var x :| 0 <= x < |u| && u[x].RehashReq?;
      assert Hidden(b, level, x);
    }
    if HasHidden(b, level) {
      var x :| 0 <= x < |b| && Hidden(b, level, x);
      assert u[x].RehashReq?;
    }
  }

  // After b0 has been enlarged to the size of u and scanned, something waits exactly when it was hidden.
  ghost predicate LeavesHidden(b0: Table, empty: bool, u: Table, level: nat) {
    |b0| <= |u| && (Waits(u) <==> HasHidden(Grown(b0, |u| - |b0|, Fill(empty)), level))
  }

  lemma ScanVerdict(b0: Table, level0: nat, more: nat, empty: bool, b: Table, u: Table, level: nat, half: nat)
    requires Usable(b0, level0) && NoClaims(b0) && b == Grown(b0, more, Fill(empty))
    requires |b0| + more == Pow2(level) && level >= 1 && half == Pow2(level - 1)
    requires Scanned(b, u, half, |u|)
    ensures LeavesHidden(b0, empty, u, level)
    ensures ClosedFrom(b0, 2) ==> (Waits(u) <==> empty && more > 0 && Waits(b0))
  {
    ScanLeavesHidden(Grown(b0, more, Fill(empty)), u, level);
    if ClosedFrom(b0, 2) {
      Leftovers(b0, level0, more, empty, u, level, half);
    }
  }

  // Segments taken as rehashed when they were added hide the older waiting buckets from the scan.
  lemma LeftoversOfEmpty(b0: Table, level0: nat, more: nat, u: Table, level: nat, half: nat)
    requires Usable(b0, level0) && more > 0 && |b0| + more == Pow2(level) && level >= 1 && half == Pow2(level - 1)
    requires Scanned(Grown(b0, more, Chain([])), u, half, |b0| + more)
    ensures Waits(u) <==> Waits(b0)
  {
    var b := Grown(b0, more, Chain([]));
    PowersCompare(level, level0);
    Pow2Grows(level0, level - 1);
    assert forall y :: half <= y < |b| ==> b[y] == Chain([]);
    forall x | 0 <= x < |b| ensures !Reached(b, half, |b|, x) {}
    assert forall x :: 0 <= x < |b| ==> (u[x].RehashReq? <==> b[x].RehashReq?);
    if Waits(b0) {
      var i :| 0 <= i < |b0| && b0[i].RehashReq?;
      assert b[i].RehashReq? && u[i].RehashReq?;
    }
    if Waits(u) {
      var i :| 0 <= i < |u| && u[i].RehashReq?;
      assert b[i].RehashReq? && b0[i].RehashReq?;
    }
  }

  // Otherwise the scan meets every waiting bucket.
  lemma NoLeftovers(b: Table, u: Table, level: nat)
    requires Usable(b, level) && NoClaims(b) && ClosedFrom(b, 2)
    requires Scanned(b, u, Pow2(level - 1), Pow2(level))
    ensures !Waits(u)
  {
    forall x | 0 <= x < |b| && b[x].RehashReq? ensures !u[x].RehashReq? {
      ClosedIsReached(b, level, x);
    }
  }

  lemma GrownIsClosed(b: Table, more: nat)
    requires ClosedFrom(b, 2)
    ensures ClosedFrom(Grown(b, more, RehashReq), 2)
  {
    var u := Grown(b, more, RehashReq);
    forall i | 2 <= i < |u| && u[i].Chain? ensures u[Parent(i)].Chain? {
      assert b[i].Chain?;
    }
  }

  // What the scan leaves in a table that has just been enlarged by `more` buckets, or not at all.
  lemma Leftovers(b0: Table, level0: nat, more: nat, empty: bool, u: Table, level: nat, half: nat)
    requires Usable(b0, level0) && NoClaims(b0) && ClosedFrom(b0, 2)
    requires |b0| + more == Pow2(level) && level >= 1 && half == Pow2(level - 1)
    requires Scanned(Grown(b0, more, Fill(empty)), u, half, |u|)
    ensures Waits(u) <==> empty && more > 0 && Waits(b0)
  {
    if more == 0 {
      assert Grown(b0, more, Fill(empty)) == b0;
      PowersCompare(level, level0);
      NoLeftovers(b0, u, level);
    } else if empty {
      LeftoversOfEmpty(b0, level0, more, u, level, half);
    } else {
      GrownIsClosed(b0, more);
      NoLeftovers(Grown(b0, more, RehashReq), u, level);
    }
  }

  // Every item is in the bucket the whole mask selects for it.
  ghost predicate InPlace(b: Table, level: nat) {
    forall j, it :: 0 <= j < |b| && it in Nodes(b[j]) ==> j == Cut(it.key.hash, level)
  }

  lemma AllInPlace(b: Table, level: nat)
    requires Sound(b, level) && NoClaims(b) && !Waits(b)
    ensures InPlace(b, level)
  {
    forall j, it | 0 <= j < |b| && it in Nodes(b[j]) ensures j == Cut(it.key.hash, level) {
      assert b[Cut(it.key.hash, level)].Chain?;
    }
  }

  // A table without items in which only the first two buckets are in use.
  lemma AllWaitingIsOk(b: Table, level: nat)
    requires Usable(b, level) && level >= FIRST_BLOCK && b[0] == b[1] == Chain([])
    requires forall i :: 2 <= i < |b| ==> b[i] == RehashReq
    ensures Ok(b, level, 1) && Items(b) == {} && ClosedFrom(b, 2)
  {
    assert forall i :: 0 <= i < |b| ==> Nodes(b[i]) == [];
    NoItems(b);
    assert Pow2(1) == 2;
  }

  // The case exists: a table of the first block whose items are all gone, enlarged to 512 buckets.
  lemma EmptyTableKeepsWaitingBuckets()
    ensures var b0 := Grown([Chain([]), Chain([])], 254, RehashReq);
      && Ok(b0, 8, 1) && Items(b0) == {} && ClosedFrom(b0, 2)
      && forall u: Table :: Scanned(Grown(b0, 256, Chain([])), u, 256, 512) ==> u[2].RehashReq?
  {
    var b0 := Grown([Chain([]), Chain([])], 254, RehashReq);
    assert Pow2(8) == 256;
    AllWaitingIsOk(b0, 8);
    var b := Grown(b0, 256, Chain([]));
    assert b[2] == b0[2] == RehashReq;
    forall y | 256 <= y < 512 ensures b[y].Chain? {}
    assert !Reached(b, 256, 512, 2);
  }
}
