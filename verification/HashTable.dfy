// The buckets of a lazily rehashed hash table as values: where an item may sit, and what moving items,
// inserting, removing and growing do to that.
module HashTable {
  import opened Powers
  import opened HashLayout

  type Val(==, !new)

  // A key with its hash code: equal keys have equal codes.
  datatype Key = Key(hash: nat, id: nat)

  datatype Item = Item(key: Key, val: Val)

  // RehashReq: never visited since its segment was allocated. Claimed: marked as rehashed, under the lock of
  // the thread that will move its items in.
  datatype Bucket = RehashReq | Claimed | Chain(nodes: seq<Item>)

  type Table = seq<Bucket>

  // The first two buckets are embedded and always hold a list.
  predicate Usable(b: Table, level: nat) {
    level >= 1 && |b| == Pow2(level) && b[0].Chain? && b[1].Chain?
  }

  function Nodes(b: Bucket): seq<Item> { if b.Chain? then b.nodes else [] }

  // The first bucket with a list on the way from i to its parents.
  function Root(b: Table, i: nat): (r: nat)
    requires i < |b|
    ensures r <= i
  {
    if i <= 1 || b[i].Chain? then i else Root(b, Parent(i))
  }

  function Home(b: Table, level: nat, c: nat): nat
    requires |b| == Pow2(level)
  {
    Root(b, Cut(c, level))
  }

  ghost predicate Placed(b: Table, level: nat) {
    && Usable(b, level)
    && forall j, it :: 0 <= j < |b| && it in Nodes(b[j]) ==> Home(b, level, it.key.hash) == j
  }

  predicate UniqueKeys(ns: seq<Item>) {
    forall i, j :: 0 <= i < j < |ns| ==> ns[i].key != ns[j].key
  }

  ghost predicate Sound(b: Table, level: nat) {
    Placed(b, level) && forall j :: 0 <= j < |b| ==> UniqueKeys(Nodes(b[j]))
  }

  ghost predicate Holds(b: Table, it: Item) {
    exists j :: 0 <= j < |b| && it in Nodes(b[j])
  }

  ghost function ItemsUpTo(b: Table, n: nat): set<Item>
    requires n <= |b|
  {
    if n == 0 then {} else
    var ns := Nodes(b[n - 1]);
    ItemsUpTo(b, n - 1) + set it | it in ns
  }

  ghost function Items(b: Table): set<Item> { ItemsUpTo(b, |b|) }

  lemma {:induction false} ItemsBelow(b: Table, n: nat, it: Item)
    requires n <= |b|
    ensures it in ItemsUpTo(b, n) <==> exists j :: 0 <= j < n && it in Nodes(b[j])
  {
    if n > 0 {
      ItemsBelow(b, n - 1, it);
    }
  }

  lemma ItemsAreHeld(b: Table, it: Item)
    ensures it in Items(b) <==> Holds(b, it)
  {
    ItemsBelow(b, |b|, it);
  }

  // ---------------------------------------------------------------- roots

  lemma {:induction false} RootHasList(b: Table, level: nat, i: nat)
    requires Usable(b, level) && i < |b|
    ensures b[Root(b, i)].Chain?
  {
    if i > 1 && !b[i].Chain? {
      RootHasList(b, level, Parent(i));
    }
  }

  lemma {:induction false} RootOnChain(b: Table, i: nat)
    requires i < |b|
    ensures OnChain(i, Root(b, i))
  {
    if i > 1 && !b[i].Chain? {
      RootOnChain(b, Parent(i));
    }
  }

  lemma {:induction false} OnChainBelow(i: nat, h: nat)
    requires OnChain(i, h)
    ensures h <= i
  {
    if i != h {
      OnChainBelow(Parent(i), h);
    }
  }

  // An item of a given key is found in the key's home bucket or nowhere.
  lemma HomeDecides(b: Table, level: nat, key: Key)
    requires Placed(b, level)
    ensures b[Home(b, level, key.hash)].Chain?
    ensures forall it :: Holds(b, it) && it.key == key ==> it in Nodes(b[Home(b, level, key.hash)])
  {
    RootHasList(b, level, Cut(key.hash, level));
  }

  lemma OneItemPerKey(b: Table, level: nat, x: Item, y: Item)
    requires Sound(b, level) && Holds(b, x) && Holds(b, y) && x.key == y.key
    ensures x == y
  {
    HomeDecides(b, level, x.key);
    var ns := Nodes(b[Home(b, level, x.key.hash)]);
    var i :| 0 <= i < |ns| && ns[i] == x;
    var j :| 0 <= j < |ns| && ns[j] == y;
  }

  // ---------------------------------------------------------------- moving items into a bucket from its parent

  // The items of a list that a mask of length l sends to bucket j, each put in front of the ones before.
  function Picked(ns: seq<Item>, l: nat, j: nat): seq<Item> {
    if ns == [] then [] else
    var last := |ns| - 1;
    (if Cut(ns[last].key.hash, l) == j then [ns[last]] else []) + Picked(ns[..last], l, j)
  }

  // The items it does not send there, in order.
  function Passed(ns: seq<Item>, l: nat, j: nat): seq<Item> {
    if ns == [] then [] else
    var last := |ns| - 1;
    Passed(ns[..last], l, j) + if Cut(ns[last].key.hash, l) == j then [] else [ns[last]]
  }

  // Bucket h takes over the items of its parent that its mask selects.
  function Pull(b: Table, h: nat): Table
    requires 1 < h < |b|
  {
    var p, l := Parent(h), Log2(h) + 1;
    b[p := Chain(Passed(Nodes(b[p]), l, h))][h := Chain(Picked(Nodes(b[p]), l, h))]
  }

  lemma {:induction false} PickedOrPassed(ns: seq<Item>, l: nat, j: nat, it: Item)
    ensures it in Picked(ns, l, j) <==> it in ns && Cut(it.key.hash, l) == j
    ensures it in Passed(ns, l, j) <==> it in ns && Cut(it.key.hash, l) != j
  {
    if ns != [] {
      var rest, x := ns[..|ns| - 1], ns[|ns| - 1];
      PickedOrPassed(rest, l, j, it);
      assert ns == rest + [x];
    }
  }

  lemma UniqueWith(ns: seq<Item>, x: Item)
    requires UniqueKeys(ns) && forall it :: it in ns ==> it.key != x.key
    ensures UniqueKeys(ns + [x]) && UniqueKeys([x] + ns)
  {
    forall i | 0 <= i < |ns| ensures ns[i].key != x.key {
      assert ns[i] in ns;
    }
  }

  lemma {:induction false} PartsKeepUniqueKeys(ns: seq<Item>, l: nat, j: nat)
    requires UniqueKeys(ns)
    ensures UniqueKeys(Picked(ns, l, j)) && UniqueKeys(Passed(ns, l, j))
  {
    if ns != [] {
      var rest, x := ns[..|ns| - 1], ns[|ns| - 1];
      PartsKeepUniqueKeys(rest, l, j);
      forall it | it in rest ensures it.key != x.key {
        var k :| 0 <= k < |rest| && rest[k] == it;
      }
      if Cut(x.key.hash, l) == j {
        forall it | it in Picked(rest, l, j) ensures it.key != x.key { PickedOrPassed(rest, l, j, it); }
        UniqueWith(Picked(rest, l, j), x);
      } else {
        forall it | it in Passed(rest, l, j) ensures it.key != x.key { PickedOrPassed(rest, l, j, it); }
        UniqueWith(Passed(rest, l, j), x);
      }
    }
  }

  lemma {:induction false} RootAfterPull(b: Table, h: nat, i: nat)
    requires 1 < h < |b| && !b[h].Chain? && b[Parent(h)].Chain? && i < |b|
    ensures Root(Pull(b, h), i) == if OnChain(i, h) && Root(b, i) == Parent(h) then h else Root(b, i)
  {
    if i > 1 && i != h && !b[i].Chain? {
      RootAfterPull(b, h, Parent(i));
      assert i != Parent(h);
    } else if i != h && OnChain(i, h) {
      OnChainBelow(i, h);
    }
  }

  lemma PulledInto(b: Table, h: nat, it: Item)
    requires 1 < h < |b| && !b[h].Chain?
    ensures it in Nodes(Pull(b, h)[h]) <==> it in Nodes(b[Parent(h)]) && Cut(it.key.hash, Log2(h) + 1) == h
  {
    assert Pull(b, h)[h] == Chain(Picked(Nodes(b[Parent(h)]), Log2(h) + 1, h));
    PickedOrPassed(Nodes(b[Parent(h)]), Log2(h) + 1, h, it);
  }

  lemma PulledFrom(b: Table, h: nat, it: Item)
    requires 1 < h < |b| && !b[h].Chain?
    ensures it in Nodes(Pull(b, h)[Parent(h)]) <==> it in Nodes(b[Parent(h)]) && Cut(it.key.hash, Log2(h) + 1) != h
  {
    assert Pull(b, h)[Parent(h)] == Chain(Passed(Nodes(b[Parent(h)]), Log2(h) + 1, h));
    PickedOrPassed(Nodes(b[Parent(h)]), Log2(h) + 1, h, it);
  }

  lemma PulledNodes(b: Table, h: nat, j: nat, it: Item)
    requires 1 < h < |b| && !b[h].Chain? && j < |b|
    ensures it in Nodes(Pull(b, h)[j]) <==>
      if j == h then it in Nodes(b[Parent(h)]) && Cut(it.key.hash, Log2(h) + 1) == h
      else it in Nodes(b[j]) && !(j == Parent(h) && Cut(it.key.hash, Log2(h) + 1) == h)
  {
    if j == h { PulledInto(b, h, it); } else if j == Parent(h) { PulledFrom(b, h, it); }
  }

  lemma PulledItem(b: Table, level: nat, h: nat, j: nat, it: Item)
    requires Placed(b, level) && 1 < h < |b| && !b[h].Chain? && b[Parent(h)].Chain?
    requires j < |b| && it in Nodes(Pull(b, h)[j])
    ensures it in Nodes(b[if j == h then Parent(h) else j])
    ensures Home(Pull(b, h), level, it.key.hash) == j
  {
    PulledNodes(b, h, j, it);
    RootAfterPull(b, h, Cut(it.key.hash, level));
    LogOfIndex(h, level);
    ChainOfCut(it.key.hash, level, h);
  }

  lemma PullKeepsItems(b: Table, h: nat, it: Item)
    requires 1 < h < |b| && !b[h].Chain?
    ensures Holds(b, it) <==> Holds(Pull(b, h), it)
  {
    var p, u := Parent(h), Pull(b, h);
    PulledNodes(b, h, p, it);
    PulledNodes(b, h, h, it);
    if Holds(b, it) {
      var j :| 0 <= j < |b| && it in Nodes(b[j]);
      PulledNodes(b, h, j, it);
      assert it in Nodes(u[j]) || it in Nodes(u[h]);
    }
    if Holds(u, it) {
      var j :| 0 <= j < |u| && it in Nodes(u[j]);
      PulledNodes(b, h, j, it);
      assert it in Nodes(b[j]) || it in Nodes(b[p]);
    }
  }

  // Moving keeps every item, in its home bucket.
  lemma PullIsSound(b: Table, level: nat, h: nat)
    requires Sound(b, level) && 1 < h < |b| && !b[h].Chain? && b[Parent(h)].Chain?
    ensures Sound(Pull(b, h), level)
    ensures forall it :: Holds(b, it) <==> Holds(Pull(b, h), it)
  {
    forall j, it | 0 <= j < |b| && it in Nodes(Pull(b, h)[j]) ensures Home(Pull(b, h), level, it.key.hash) == j {
      PulledItem(b, level, h, j, it);
    }
    forall it ensures Holds(b, it) <==> Holds(Pull(b, h), it) {
      PullKeepsItems(b, h, it);
    }
    PartsKeepUniqueKeys(Nodes(b[Parent(h)]), Log2(h) + 1, h);
  }

  lemma LogOfIndex(h: nat, level: nat)
    requires 0 < h < Pow2(level)
    ensures Log2(h) < level
  {
    if Log2(h) >= level {
      Pow2Grows(level, Log2(h));
    }
  }

  // Rehashing bucket h, after rehashing the buckets above it that need it.
  function Rehashed(b: Table, h: nat): (u: Table)
    requires 1 < h < |b|
    ensures |u| == |b|
  {
    var p := Parent(h);
    Pull(if p <= 1 || b[p].Chain? then b else Rehashed(b, p), h)
  }

  // Only buckets at or above h change, and only by gaining or passing on a list.
  ghost predicate Settles(b: Table, u: Table, h: nat)
    requires |u| == |b|
  {
    && (forall i :: h < i < |b| ==> u[i] == b[i])
    && (forall i :: 0 <= i < |b| && i != h ==> u[i] == b[i] || u[i].Chain?)
    && (forall i :: 0 <= i < |b| && b[i].Chain? ==> u[i].Chain?)
  }

  lemma {:induction false} RehashedIsSound(b: Table, level: nat, h: nat)
    requires Sound(b, level) && 1 < h < |b| && !b[h].Chain?
    ensures Sound(Rehashed(b, h), level)
    ensures forall it :: Holds(b, it) <==> Holds(Rehashed(b, h), it)
  {
    var p := Parent(h);
    if p > 1 && !b[p].Chain? {
      RehashedIsSound(b, level, p);
      RehashedSettles(b, p);
      assert Rehashed(b, p)[h] == b[h];
      PullIsSound(Rehashed(b, p), level, h);
    } else {
      PullIsSound(b, level, h);
    }
  }

  lemma {:induction false} RehashedSettles(b: Table, h: nat)
    requires 1 < h < |b|
    ensures Settles(b, Rehashed(b, h), h) && Rehashed(b, h)[h].Chain?
  {
    var p := Parent(h);
    if p > 1 && !b[p].Chain? {
      RehashedSettles(b, p);
      PullSettles(Rehashed(b, p), h);
    } else {
      PullSettles(b, h);
    }
  }

  lemma PullSettles(b: Table, h: nat)
    requires 1 < h < |b|
    ensures Settles(b, Pull(b, h), h) && Pull(b, h)[h].Chain?
  {
  }

  lemma PullElsewhere(b: Table, p: nat, h: nat, x: Bucket)
    requires 1 < p < h < |b|
    ensures Pull(b[h := x], p) == Pull(b, p)[h := x]
  {
  }

  // Marking h first does not matter to the buckets above it.
  lemma {:induction false} RehashedElsewhere(b: Table, p: nat, h: nat, x: Bucket)
    requires 1 < p < h < |b|
    ensures Rehashed(b[h := x], p) == Rehashed(b, p)[h := x]
  {
    var q := Parent(p);
    if q > 1 && !b[q].Chain? {
      RehashedElsewhere(b, q, h, x);
      PullElsewhere(Rehashed(b, q), p, h, x);
    } else {
      PullElsewhere(b, p, h, x);
    }
  }

  // ---------------------------------------------------------------- closed levels

  // From index n on, a bucket has a list only when its parent has one.
  ghost predicate ClosedFrom(b: Table, n: nat) {
    forall i {:trigger Parent(i)} :: n <= i < |b| && i > 1 && b[i].Chain? ==> b[Parent(i)].Chain?
  }

  lemma PullIsClosed(b: Table, h: nat, n: nat)
    requires 1 < h < |b| && b[Parent(h)].Chain? && ClosedFrom(b, n)
    ensures ClosedFrom(Pull(b, h), n)
  {
  }

  lemma {:induction false} RehashedIsClosed(b: Table, level: nat, h: nat, n: nat)
    requires Usable(b, level) && 1 < h < |b| && ClosedFrom(b, n)
    ensures ClosedFrom(Rehashed(b, h), n)
  {
    var p := Parent(h);
    if p > 1 && !b[p].Chain? {
      RehashedIsClosed(b, level, p, n);
      RehashedSettles(b, p);
      PullIsClosed(Rehashed(b, p), h, n);
    } else {
      PullIsClosed(b, h, n);
    }
  }

  lemma {:induction false} ListsBelow(b: Table, c: nat, l: nat, k: nat, low: nat)
    requires ClosedFrom(b, Pow2(low)) && low < k <= l && Bit(c, k - 1) && Pow2(l) <= |b|
    requires 1 <= low && b[Cut(c, l)].Chain?
    ensures Pow2(k) <= |b| && Cut(c, k) < |b| && b[Cut(c, k)].Chain?
    decreases l
  {
    Pow2Grows(k, l);
    if k < l {
      Pow2Grows(l - 1, l);
      Pow2Grows(low, l - 1);
      Pow2Grows(1, low);
      if Bit(c, l - 1) {
        ParentOfCut(c, l);
      }
      ListsBelow(b, c, l - 1, k, low);
    }
  }

  // The bucket an old mask selects is still the home when the next longer mask that selects another bucket
  // selects one without a list.
  lemma {:induction false} NextLevelDecides(b: Table, c: nat, l: nat, k: nat, low: nat)
    requires 1 <= low < k <= l && Pow2(l) <= |b| && ClosedFrom(b, Pow2(low))
    requires Cut(c, k) < |b| && Cut(c, low) < |b|
    requires Bit(c, k - 1) && Cut(c, k - 1) == Cut(c, low) && b[Cut(c, low)].Chain? && !b[Cut(c, k)].Chain?
    ensures Cut(c, l) < |b| && Root(b, Cut(c, l)) == Cut(c, low)
    decreases l
  {
    if b[Cut(c, l)].Chain? {
      ListsBelow(b, c, l, k, low);
    }
    if Bit(c, l - 1) {
      Pow2Grows(low, l - 1);
      Pow2Grows(1, low);
      ParentOfCut(c, l);
    }
    if k < l {
      NextLevelDecides(b, c, l - 1, k, low);
    }
  }

  // It no longer is when that one has a list.
  lemma {:induction false} NextLevelMoved(b: Table, c: nat, l: nat, k: nat)
    requires 0 < k <= l && Pow2(l) <= |b| && Cut(c, k) < |b| && Cut(c, k) > 1
    requires Bit(c, k - 1) && b[Cut(c, k)].Chain?
    ensures Cut(c, l) < |b| && Root(b, Cut(c, l)) >= Cut(c, k)
    decreases l
  {
    if k < l {
      NextLevelMoved(b, c, l - 1, k);
      if Bit(c, l - 1) {
        CutGrows(c, k, l - 1);
        ParentOfCut(c, l);
      }
    }
  }

  lemma {:induction false} CutGrows(c: nat, k: nat, l: nat)
    requires k <= l
    ensures Cut(c, k) <= Cut(c, l)
    decreases l
  {
    if k < l {
      CutGrows(c, k, l - 1);
    }
  }

  // ---------------------------------------------------------------- changing lists in place

  lemma {:induction false} SameRoots(b: Table, u: Table, i: nat)
    requires |u| == |b| && i < |b|
    requires forall j :: 0 <= j < |b| ==> (u[j].Chain? <==> b[j].Chain?)
    ensures Root(u, i) == Root(b, i)
  {
    if i > 1 && !b[i].Chain? {
      SameRoots(b, u, Parent(i));
    }
  }

  // A bucket without a list stays without one.
  lemma ClaimIsSound(b: Table, level: nat, h: nat)
    requires Sound(b, level) && h < |b| && !b[h].Chain?
    ensures Sound(b[h := Claimed], level)
    ensures forall it :: Holds(b, it) <==> Holds(b[h := Claimed], it)
  {
    var u := b[h := Claimed];
    forall j, it | 0 <= j < |u| && it in Nodes(u[j]) ensures Home(u, level, it.key.hash) == j {
      SameRoots(b, u, Cut(it.key.hash, level));
      assert it in Nodes(b[j]);
    }
    forall it | Holds(b, it) ensures Holds(u, it) {
      var j :| 0 <= j < |b| && it in Nodes(b[j]);
      assert it in Nodes(u[j]);
    }
    forall it | Holds(u, it) ensures Holds(b, it) {
      var j :| 0 <= j < |u| && it in Nodes(u[j]);
      assert it in Nodes(b[j]);
    }
  }

  lemma NewListHolds(b: Table, j: nat, ns: seq<Item>, it: Item)
    requires j < |b|
    ensures (exists i :: 0 <= i < |b| && i != j && it in Nodes(b[i])) || it in ns <==> Holds(b[j := Chain(ns)], it)
  {
    var u := b[j := Chain(ns)];
    assert Nodes(u[j]) == ns;
    if i :| 0 <= i < |b| && i != j && it in Nodes(b[i]) {
      assert it in Nodes(u[i]);
    }
    if i :| 0 <= i < |u| && it in Nodes(u[i]) {
      assert i != j ==> it in Nodes(b[i]);
    }
  }

  // Replacing the list of one bucket by another list of unique keys at home there.
  lemma NewList(b: Table, level: nat, j: nat, ns: seq<Item>)
    requires Sound(b, level) && j < |b| && b[j].Chain? && UniqueKeys(ns)
    requires forall it :: it in ns ==> Home(b, level, it.key.hash) == j
    ensures Sound(b[j := Chain(ns)], level)
    ensures forall it :: Holds(b[j := Chain(ns)], it) <==> it in ns || (Holds(b, it) && it !in Nodes(b[j]))
  {
    var u := b[j := Chain(ns)];
    forall i, it | 0 <= i < |u| && it in Nodes(u[i]) ensures Home(u, level, it.key.hash) == i {
      SameRoots(b, u, Cut(it.key.hash, level));
      if i != j {
        assert it in Nodes(b[i]);
      }
    }
    forall it ensures Holds(u, it) <==> it in ns || (Holds(b, it) && it !in Nodes(b[j])) {
      NewListHolds(b, j, ns, it);
      if i :| 0 <= i < |b| && i != j && it in Nodes(b[i]) {
        assert Home(b, level, it.key.hash) == i;
      }
    }
  }

  lemma InsertIsSound(b: Table, level: nat, j: nat, x: Item)
    requires Sound(b, level) && j == Home(b, level, x.key.hash)
    requires forall it :: it in Nodes(b[j]) ==> it.key != x.key
    ensures b[j].Chain? && Sound(b[j := Chain([x] + Nodes(b[j]))], level)
    ensures forall it :: Holds(b[j := Chain([x] + Nodes(b[j]))], it) <==> it == x || Holds(b, it)
    ensures forall it :: Holds(b, it) ==> it.key != x.key
  {
    HomeDecides(b, level, x.key);
    NewList(b, level, j, [x] + Nodes(b[j]));
    forall it | Holds(b, it) && it in Nodes(b[j]) ensures it in [x] + Nodes(b[j]) {
    }
  }

  lemma RemoveIsSound(b: Table, level: nat, j: nat, k: nat)
    requires Sound(b, level) && j < |b| && k < |Nodes(b[j])|
    ensures var ns := Nodes(b[j]);
      var u := b[j := Chain(ns[..k] + ns[k + 1..])];
      Sound(u, level) && forall it :: Holds(u, it) <==> Holds(b, it) && it != ns[k]
  {
    var ns := Nodes(b[j]);
    var rest := ns[..k] + ns[k + 1..];
    forall it ensures it in rest <==> it in ns && it != ns[k] {
      if it in ns && it != ns[k] {
        var i :| 0 <= i < |ns| && ns[i] == it;
        assert if i < k then rest[i] == it else rest[i - 1] == it;
      }
    }
    NewList(b, level, j, rest);
    assert Holds(b, ns[k]);
    forall it | it in rest ensures Holds(b, it) {
      assert it in ns;
    }
  }

  // ---------------------------------------------------------------- new segments

  // Buckets of a segment added to a table known to be empty count as rehashed.
  function Fill(initial: bool): Bucket { if initial then Chain([]) else RehashReq }

  function Grown(b: Table, more: nat, fill: Bucket): Table { b + seq(more, _ => fill) }

  lemma GrownTwice(b: Table, m: nat, n: nat, fill: Bucket)
    ensures Grown(Grown(b, m, fill), n, fill) == Grown(b, m + n, fill)
  {
  }

  lemma {:induction false} RootOfOld(b: Table, more: nat, fill: Bucket, i: nat)
    requires i < |b|
    ensures Root(Grown(b, more, fill), i) == Root(b, i)
  {
    if i > 1 && !b[i].Chain? {
      RootOfOld(b, more, fill, Parent(i));
    }
  }

  lemma {:induction false} HomeOfOld(b: Table, level: nat, more: nat, c: nat, l: nat)
    requires Usable(b, level) && level <= l && Pow2(l) <= |b| + more
    ensures Cut(c, l) < |b| + more && Root(Grown(b, more, RehashReq), Cut(c, l)) == Home(b, level, c)
    decreases l
  {
    if l == level {
      RootOfOld(b, more, RehashReq, Cut(c, l));
    } else {
      HomeOfOld(b, level, more, c, l - 1);
      if Bit(c, l - 1) {
        Pow2Grows(level, l - 1);
        Pow2Grows(1, level);
        ParentOfCut(c, l);
      }
    }
  }

  // Buckets that wait for rehashing change nothing.
  lemma GrowIsSound(b: Table, level: nat, l: nat, more: nat)
    requires Sound(b, level) && level <= l && Pow2(l) == |b| + more
    ensures var u := Grown(b, more, RehashReq);
      && Sound(u, l)
      && (forall it :: Holds(u, it) <==> Holds(b, it))
      && (forall n :: ClosedFrom(b, n) ==> ClosedFrom(u, n))
  {
    var u := Grown(b, more, RehashReq);
    forall j, it | 0 <= j < |u| && it in Nodes(u[j]) ensures Home(u, l, it.key.hash) == j {
      assert it in Nodes(b[j]);
      HomeOfOld(b, level, more, it.key.hash, l);
    }
    forall it | Holds(b, it) ensures Holds(u, it) {
      var j :| 0 <= j < |b| && it in Nodes(b[j]);
      assert it in Nodes(u[j]);
    }
    forall it | Holds(u, it) ensures Holds(b, it) {
      var j :| 0 <= j < |u| && it in Nodes(u[j]);
      assert it in Nodes(b[j]);
    }
  }
}
