// What a hash map keeps between operations, and each change one operation makes to it.
module HashState {
  import opened Powers
  import opened HashLayout
  import opened HashTable

  const EMBEDDED_BLOCK := 1
  const FIRST_BLOCK := 8

  predicate NoClaims(b: Table) { forall i :: 0 <= i < |b| ==> !b[i].Claimed? }

  // base: no mask still in use is shorter than this; from that level on, rehashed buckets have rehashed parents.
  ghost predicate Ok(b: Table, level: nat, base: nat) {
    && Sound(b, level)
    && NoClaims(b)
    && (level == EMBEDDED_BLOCK || level >= FIRST_BLOCK)
    && 1 <= base <= level && ClosedFrom(b, Pow2(base))
  }

  lemma SameItems(b: Table, u: Table)
    requires forall it :: Holds(b, it) <==> Holds(u, it)
    ensures Items(b) == Items(u)
  {
    forall it ensures it in Items(b) <==> it in Items(u) {
      ItemsAreHeld(b, it);
      ItemsAreHeld(u, it);
    }
  }

  lemma InBucket(b: Table, i: nat, it: Item)
    requires i < |b| && it in Nodes(b[i])
    ensures it in Items(b)
  {
    ItemsAreHeld(b, it);
  }

  lemma NoItems(b: Table)
    requires forall i :: 0 <= i < |b| ==> Nodes(b[i]) == []
    ensures Items(b) == {}
  {
    forall it ensures it !in Items(b) {
      ItemsAreHeld(b, it);
    }
  }

  // Rehashing changes where items are, not which.
  lemma OkRehashed(b: Table, level: nat, base: nat, i: nat)
    requires Ok(b, level, base) && i < |b| && b[i].RehashReq?
    ensures 1 < i && Ok(Rehashed(b, i), level, base) && Items(Rehashed(b, i)) == Items(b)
    ensures Rehashed(b, i)[i].Chain?
  {
    RehashedIsSound(b, level, i);
    RehashedSettles(b, i);
    RehashedIsClosed(b, level, i, Pow2(base));
    SameItems(b, Rehashed(b, i));
  }

  lemma InsertedItems(b: Table, level: nat, i: nat, x: Item)
    requires Sound(b, level) && i == Home(b, level, x.key.hash)
    requires forall it :: it in Nodes(b[i]) ==> it.key != x.key
    ensures b[i].Chain? && forall it :: it in Items(b) ==> it.key != x.key
    ensures var u := b[i := Chain([x] + Nodes(b[i]))];
      Sound(u, level) && Items(u) == Items(b) + {x}
  {
    InsertIsSound(b, level, i, x);
    var u := b[i := Chain([x] + Nodes(b[i]))];
    forall it ensures it in Items(u) <==> it == x || it in Items(b) {
      ItemsAreHeld(b, it);
      ItemsAreHeld(u, it);
    }
    forall it | it in Items(b) ensures it.key != x.key {
      ItemsAreHeld(b, it);
    }
    assert Items(u) == Items(b) + {x};
  }

  lemma RemovedItems(b: Table, level: nat, i: nat, k: nat)
    requires Sound(b, level) && i < |b| && k < |Nodes(b[i])|
    ensures var ns := Nodes(b[i]);
      var u := b[i := Chain(ns[..k] + ns[k + 1..])];
      && Sound(u, level) && Items(u) == Items(b) - {ns[k]} && ns[k] in Items(b)
      && forall it :: it in Items(b) ==> (it.key == ns[k].key <==> it == ns[k])
  {
    var ns := Nodes(b[i]);
    var u := b[i := Chain(ns[..k] + ns[k + 1..])];
    InBucket(b, i, ns[k]);
    RemoveIsSound(b, level, i, k);
    forall it ensures it in Items(u) <==> it in Items(b) && it != ns[k] {
      ItemsAreHeld(b, it);
      ItemsAreHeld(u, it);
    }
    assert Items(u) == Items(b) - {ns[k]};
    forall it | it in Items(b) && it.key == ns[k].key ensures it == ns[k] {
      ItemsAreHeld(b, it);
      ItemsAreHeld(b, ns[k]);
      OneItemPerKey(b, level, it, ns[k]);
    }
  }

  lemma MissingItems(b: Table, level: nat, key: Key)
    requires Sound(b, level)
    requires forall it :: it in Nodes(b[Home(b, level, key.hash)]) ==> it.key != key
    ensures forall it :: it in Items(b) ==> it.key != key
  {
    HomeDecides(b, level, key);
    forall it | it in Items(b) ensures it.key != key {
      ItemsAreHeld(b, it);
    }
  }

  lemma OkInserted(b: Table, level: nat, base: nat, i: nat, x: Item)
    requires Ok(b, level, base) && i == Home(b, level, x.key.hash)
    requires forall it :: it in Nodes(b[i]) ==> it.key != x.key
    ensures var u := b[i := Chain([x] + Nodes(b[i]))];
      Ok(u, level, base) && x !in Items(b) && Items(u) == Items(b) + {x}
  {
    InsertedItems(b, level, i, x);
  }

  lemma OkRemoved(b: Table, level: nat, base: nat, i: nat, k: nat)
    requires Ok(b, level, base) && i < |b| && k < |Nodes(b[i])|
    ensures var ns := Nodes(b[i]);
      var u := b[i := Chain(ns[..k] + ns[k + 1..])];
      && Ok(u, level, base) && Items(u) == Items(b) - {ns[k]} && ns[k] in Items(b)
      && forall it :: it in Items(b) ==> (it.key == ns[k].key <==> it == ns[k])
  {
    RemovedItems(b, level, i, k);
  }

  lemma OkGrown(b: Table, level: nat, base: nat, next: nat, more: nat)
    requires Ok(b, level, base) && FIRST_BLOCK <= next && level <= next && Pow2(next) == |b| + more
    ensures var u := Grown(b, more, RehashReq); Ok(u, next, base) && Items(u) == Items(b)
  {
    GrowIsSound(b, level, next, more);
    SameItems(b, Grown(b, more, RehashReq));
  }

  // A segment added to an empty table is taken as rehashed at once.
  lemma OkGrownEmpty(b: Table, level: nat, base: nat, next: nat, more: nat)
    requires Ok(b, level, base) && Items(b) == {} && FIRST_BLOCK <= next && level <= next && Pow2(next) == |b| + more
    ensures var u := Grown(b, more, Chain([])); Ok(u, next, next) && Items(u) == {}
  {
    var u := Grown(b, more, Chain([]));
    forall i | 0 <= i < |b| ensures Nodes(b[i]) == [] {
      if Nodes(b[i]) != [] {
        InBucket(b, i, Nodes(b[i])[0]);
      }
    }
    forall i | 0 <= i < |u| ensures Nodes(u[i]) == [] {
      if i < |b| { assert u[i] == b[i]; }
    }
    NoItems(u);
  }

  lemma OkEnlarged(b: Table, level: nat, base: nat, next: nat, more: nat, initial: bool)
    requires Ok(b, level, base) && (initial ==> Items(b) == {})
    requires FIRST_BLOCK <= next && level <= next && Pow2(next) == |b| + more
    ensures var u := Grown(b, more, Fill(initial));
      Ok(u, next, if initial then next else base) && Items(u) == Items(b) && |u| == |b| + more
  {
    if initial {
      OkGrownEmpty(b, level, base, next, more);
    } else {
      OkGrown(b, level, base, next, more);
    }
  }

  // k is the position of the next bit of c that an old mask cuts off. The bucket that mask selects has stopped
  // being the home of c exactly when the bucket with one more bit has been rehashed.
  lemma CollisionDecides(b: Table, level: nat, base: nat, c: nat, old_: nat, k: nat)
    requires Ok(b, level, base) && base <= old_ <= k < level
    requires Bit(c, k) && Cut(c, k) == Cut(c, old_) && Cut(c, old_) < |b| && b[Cut(c, old_)].Chain?
    ensures Cut(c, k + 1) < |b|
    ensures Home(b, level, c) != Cut(c, old_) <==> !b[Cut(c, k + 1)].RehashReq?
  {
    Pow2Grows(k + 1, level);
    Pow2Grows(1, k);
    Pow2Grows(base, old_);
    if b[Cut(c, k + 1)].RehashReq? {
      assert ClosedFrom(b, Pow2(old_));
      NextLevelDecides(b, c, level, k + 1, old_);
    } else {
      NextLevelMoved(b, c, level, k + 1);
    }
  }
}
