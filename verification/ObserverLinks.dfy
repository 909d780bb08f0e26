// The doubly linked list of proxies: its pointers spell an order, and appending and unlinking keep that so.
module ObserverLinks {
  import opened ObserverModel

  function PtrAt(order: seq<Proxy>, i: int): Ptr { if 0 <= i < |order| then To(order[i]) else Null }

  // The pointers spell the order.
  ghost predicate Spell(first: Ptr, last: Ptr, next: map<Proxy, Ptr>, prev: map<Proxy, Ptr>, order: seq<Proxy>) {
    && first == PtrAt(order, 0) && last == PtrAt(order, |order| - 1)
    && (forall i {:trigger Read(next, order[i])} :: 0 <= i < |order| ==> Read(next, order[i]) == PtrAt(order, i + 1))
    && (forall i {:trigger Read(prev, order[i])} :: 0 <= i < |order| ==> Read(prev, order[i]) == PtrAt(order, i - 1))
    && (forall i, j :: 0 <= i < j < |order| ==> order[i] != order[j])
  }

  ghost predicate Links(s: State) { Spell(s.first, s.last, s.next, s.prev, s.order) }

  lemma {:induction false} RemovedIs(order: seq<Proxy>, i: nat)
    requires i < |order| && forall j, k :: 0 <= j < k < |order| ==> order[j] != order[k]
    ensures Removed(order, order[i]) == order[..i] + order[i + 1..]
  {
    if i > 0 {
      RemovedIs(order[1..], i - 1);
      assert order[..i] == [order[0]] + order[1..][..i - 1];
      assert order[1..][i..] == order[i + 1..];
    }
  }

  lemma UnlinkPointers(s: State, i: nat, k: nat)
    requires Links(s) && i < |s.order| && k < |s.order| && k != i
    ensures Unlink(s, s.order[i]).Next(s.order[k]) == PtrAt(s.order, if k == i - 1 then i + 1 else k + 1)
    ensures Unlink(s, s.order[i]).Prev(s.order[k]) == PtrAt(s.order, if k == i + 1 then i - 1 else k - 1)
  {
    var p, q := s.order[i], s.order[k];
    assert s.Next(p) == PtrAt(s.order, i + 1) && s.Prev(p) == PtrAt(s.order, i - 1);
    assert s.Next(q) == PtrAt(s.order, k + 1) && s.Prev(q) == PtrAt(s.order, k - 1);
    assert q != p;
  }

  lemma UnlinkEnds(s: State, i: nat)
    requires Links(s) && i < |s.order|
    ensures var u := Unlink(s, s.order[i]);
      && u.first == PtrAt(s.order, if i == 0 then 1 else 0)
      && u.last == PtrAt(s.order, if i == |s.order| - 1 then i - 1 else |s.order| - 1)
  {
    var p := s.order[i];
    assert s.Next(p) == PtrAt(s.order, i + 1) && s.Prev(p) == PtrAt(s.order, i - 1);
  }

  lemma UnlinkSkips(s: State, i: nat)
    requires Links(s) && i < |s.order|
    ensures Skips(s.order, i, Unlink(s, s.order[i]).order)
  {
    RemovedIs(s.order, i);
    UnlinkChanges(s, s.order[i]);
    assert Unlink(s, s.order[i]).order == Removed(s.order, s.order[i]);
  }

  // The order without its i-th element, index by index.
  ghost predicate Skips(order: seq<Proxy>, i: nat, rest: seq<Proxy>) {
    && i < |order| == |rest| + 1
    && forall j {:trigger rest[j]} :: 0 <= j < |rest| ==> rest[j] == order[if j < i then j else j + 1]
  }

  lemma RestAt(order: seq<Proxy>, i: nat, rest: seq<Proxy>, j: int)
    requires Skips(order, i, rest)
    ensures PtrAt(rest, j) == PtrAt(order, if j < i then j else j + 1)
  {
  }

  lemma SkipsDistinct(order: seq<Proxy>, i: nat, rest: seq<Proxy>)
    requires Skips(order, i, rest) && forall j, k :: 0 <= j < k < |order| ==> order[j] != order[k]
    ensures forall j, k :: 0 <= j < k < |rest| ==> rest[j] != rest[k]
    ensures forall q :: q in rest <==> q in order && q != order[i]
  {
    forall q | q in order && q != order[i] ensures q in rest {
      var j :| 0 <= j < |order| && order[j] == q;
      assert if j < i then rest[j] == q else rest[j - 1] == q;
    }
  }

  // The pointer of the j-th remaining node, from what Unlink does to the pointers.
  lemma NextWithout(order: seq<Proxy>, i: nat, rest: seq<Proxy>, j: nat, ptr: Ptr)
    requires Skips(order, i, rest) && j < |rest|
    requires var k := if j < i then j else j + 1; ptr == PtrAt(order, if k == i - 1 then i + 1 else k + 1)
    ensures ptr == PtrAt(rest, j + 1)
  {
    RestAt(order, i, rest, j + 1);
  }

  lemma PrevWithout(order: seq<Proxy>, i: nat, rest: seq<Proxy>, j: nat, ptr: Ptr)
    requires Skips(order, i, rest) && j < |rest|
    requires var k := if j < i then j else j + 1; ptr == PtrAt(order, if k == i + 1 then i - 1 else k - 1)
    ensures ptr == PtrAt(rest, j - 1)
  {
    RestAt(order, i, rest, j - 1);
  }

  lemma UnlinkedAt(s: State, i: nat, j: nat)
    requires Links(s) && i < |s.order|
    requires Skips(s.order, i, Unlink(s, s.order[i]).order) && j < |Unlink(s, s.order[i]).order|
    ensures var u := Unlink(s, s.order[i]);
      u.Next(u.order[j]) == PtrAt(u.order, j + 1) && u.Prev(u.order[j]) == PtrAt(u.order, j - 1)
  {
    var u := Unlink(s, s.order[i]);
    var k := if j < i then j else j + 1;
    assert u.order[j] == s.order[k];
    UnlinkPointers(s, i, k);
    NextWithout(s.order, i, u.order, j, u.Next(u.order[j]));
    PrevWithout(s.order, i, u.order, j, u.Prev(u.order[j]));
  }

  lemma UnlinkedEnds(s: State, i: nat)
    requires Links(s) && i < |s.order|
    ensures var u := Unlink(s, s.order[i]);
      && Skips(s.order, i, u.order)
      && u.first == PtrAt(u.order, 0) && u.last == PtrAt(u.order, |u.order| - 1)
  {
    var u := Unlink(s, s.order[i]);
    UnlinkEnds(s, i);
    UnlinkSkips(s, i);
    RestAt(s.order, i, u.order, 0);
    RestAt(s.order, i, u.order, |u.order| - 1);
  }

  lemma SpellBy(u: State)
    requires u.first == PtrAt(u.order, 0) && u.last == PtrAt(u.order, |u.order| - 1)
    requires forall j {:trigger u.order[j]} :: 0 <= j < |u.order| ==>
      u.Next(u.order[j]) == PtrAt(u.order, j + 1) && u.Prev(u.order[j]) == PtrAt(u.order, j - 1)
    requires forall j, k :: 0 <= j < k < |u.order| ==> u.order[j] != u.order[k]
    ensures Links(u)
  {
  }

  lemma UnlinkLinks(s: State, i: nat)
    requires Links(s) && i < |s.order|
    ensures Links(Unlink(s, s.order[i]))
    ensures forall q :: q in Unlink(s, s.order[i]).order <==> q in s.order && q != s.order[i]
  {
    var u := Unlink(s, s.order[i]);
    UnlinkedEnds(s, i);
    SkipsDistinct(s.order, i, u.order);
    forall j {:trigger u.order[j]} | 0 <= j < |u.order|
      ensures u.Next(u.order[j]) == PtrAt(u.order, j + 1) && u.Prev(u.order[j]) == PtrAt(u.order, j - 1)
    {
      UnlinkedAt(s, i, j);
    }
    SpellBy(u);
  }

  lemma AppendLinks(s: State, p: Proxy)
    requires Links(s) && p !in s.order
    ensures Links(Append(s, p))
  {
    var u, n := Append(s, p), |s.order|;
    assert u.order == s.order + [p];
    forall j | 0 <= j < |u.order| ensures u.Next(u.order[j]) == PtrAt(u.order, j + 1) {
      if j < n { assert u.order[j] == s.order[j] && s.Next(s.order[j]) == PtrAt(s.order, j + 1); }
    }
    forall j | 0 <= j < |u.order| ensures u.Prev(u.order[j]) == PtrAt(u.order, j - 1) {
      if j < n { assert u.order[j] == s.order[j] && s.Prev(s.order[j]) == PtrAt(s.order, j - 1); }
    }
  }

  lemma NextIsLinked(s: State, cur: Ptr)
    requires Links(s)
    ensures cur.To? && cur.p in s.order && s.Next(cur.p).To? ==> s.Next(cur.p).p in s.order
    ensures s.first.To? ==> s.first.p in s.order
  {
    if cur.To? && cur.p in s.order {
      var i :| 0 <= i < |s.order| && s.order[i] == cur.p;
      assert Read(s.next, s.order[i]) == PtrAt(s.order, i + 1);
    }
  }

  // Unlinking changes only pointers and the order.
  lemma UnlinkChanges(s: State, p: Proxy)
    ensures var u := Unlink(s, p);
      u == s.(first := u.first, last := u.last, next := u.next, prev := u.prev, order := u.order)
  {
  }
}
