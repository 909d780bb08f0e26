// The hash map: lookup, insertion and erasure through a mask that may be out of date, growth by segments, and
// buckets rehashed when they are first visited.
module HashMap {
  import opened Powers
  import opened HashLayout
  import opened HashTable
  import opened HashState
  import opened HashRehash

  datatype Found = Missing | Present(item: Item)

  // The loop over the parent's list: a matching item is unlinked and put in front of the new list.
  method SplitList(ns: seq<Item>, l: nat, h: nat) returns (kept: seq<Item>, moved: seq<Item>)
    ensures kept == Passed(ns, l, h) && moved == Picked(ns, l, h)
  {
    var i := 0;
    kept, moved := ns, [];
    ghost var k := 0;
    while i < |kept|
      invariant k <= |ns| && kept == Passed(ns[..k], l, h) + ns[k..] && i == |Passed(ns[..k], l, h)|
      invariant moved == Picked(ns[..k], l, h)
      decreases |ns| - k
    {
      var n := kept[i];
      assert n == ns[k] && ns[..k + 1][..k] == ns[..k];
      if Cut(n.key.hash, l) == h {
        kept := kept[..i] + kept[i + 1..];
        moved := [n] + moved;
      } else {
        i := i + 1;
      }
      k := k + 1;
    }
    assert ns[..k] == ns;
  }

  // Bucket h is marked before the buckets above it are rehashed, which comes to the same.
  lemma MarkThenPull(b: Table, h: nat)
    requires 1 < h < |b|
    ensures var p, l := Parent(h), Log2(h) + 1;
      var u := if p > 1 && !b[p].Chain? then Rehashed(b[h := Claimed], p) else b[h := Claimed];
      && |u| == |b|
      && u[p := Chain(Passed(Nodes(u[p]), l, h))][h := Chain(Picked(Nodes(u[p]), l, h))] == Rehashed(b, h)
  {
    var p := Parent(h);
    if p > 1 && !b[p].Chain? {
      RehashedElsewhere(b, p, h, Claimed);
      PullOver(Rehashed(b, p), h, Claimed);
    } else {
      PullOver(b, h, Claimed);
    }
  }

  lemma PullOver(b: Table, h: nat, x: Bucket)
    requires 1 < h < |b|
    ensures Pull(b[h := x], h) == Pull(b, h)
  {
  }

  // The next bit of c that the shorter of two masks cuts off.
  method NextBit(c: nat, old_: nat, l: nat) returns (k: nat)
    requires old_ <= l && Cut(c, old_) != Cut(c, l)
    ensures old_ <= k < l && Bit(c, k) && Cut(c, k) == Cut(c, old_)
  {
    k := old_;
    while !Bit(c, k)
      invariant old_ <= k < l && Cut(c, k) == Cut(c, old_)
      decreases l - k
    {
      k := k + 1;
    }
  }

  // The first block of segments is allocated as a whole; later segments double the table.
  function NextLevel(level: nat): nat { if level == EMBEDDED_BLOCK then FIRST_BLOCK else level + 1 }

  class Map {
    // The mask is 2^level - 1.
    var level: nat
    var buckets: Table
    var size: nat
    // The level at the last growth of an empty table; masks loaded before it are no longer in use.
    ghost var base: nat

    ghost predicate Valid()
      reads this
    {
      Ok(buckets, level, base) && size == |Items(buckets)|
    }

    // The stored pairs.
    ghost function Contents(): set<Item>
      reads this
    {
      Items(buckets)
    }

    constructor ()
      ensures Valid() && level == 1 && base == 1 && Contents() == {}
    {
      level, base := 1, 1;
      buckets := [Chain([]), Chain([])];
      size := 0;
      new;
      NoItems(buckets);
    }

    // Moves into bucket h the items its mask selects, after doing the same for the buckets above it.
    method RehashBucket(h: nat)
      requires 1 < h < |buckets| && !buckets[h].Chain? && buckets[0].Chain? && buckets[1].Chain?
      modifies this`buckets
      ensures buckets == Rehashed(old(buckets), h)
      decreases h
    {
      MarkThenPull(buckets, h);
      buckets := buckets[h := Claimed];
      var p := Parent(h);
      if p > 1 && !buckets[p].Chain? {
        RehashBucket(p);
      }
      var kept, moved := SplitList(Nodes(buckets[p]), Log2(h) + 1, h);
      buckets := buckets[p := Chain(kept)][h := Chain(moved)];
    }

    // A bucket is rehashed when it is visited for the first time.
    method Acquire(i: nat)
      requires Valid() && i < |buckets|
      modifies this`buckets
      ensures Valid() && |buckets| == old(|buckets|) && buckets[i].Chain?
      ensures Contents() == old(Contents())
    {
      if buckets[i].RehashReq? {
        OkRehashed(buckets, level, base, i);
        RehashBucket(i);
      }
    }

    // The position of a key in the list of a bucket, or the length of the list.
    method SearchBucket(key: Key, i: nat) returns (k: nat)
      requires i < |buckets|
      ensures k <= |Nodes(buckets[i])|
      ensures k < |Nodes(buckets[i])| ==> Nodes(buckets[i])[k].key == key
      ensures k == |Nodes(buckets[i])| ==> forall it :: it in Nodes(buckets[i]) ==> it.key != key
    {
      var ns := Nodes(buckets[i]);
      k := 0;
      while k < |ns| && ns[k].key != key
        invariant k <= |ns| && forall j :: 0 <= j < k ==> ns[j].key != key
      {
        k := k + 1;
      }
    }

    // Visits the bucket a mask of length m selects for a key and searches it.
    method Locate(key: Key, m: nat) returns (i: nat, k: nat)
      requires Valid() && m <= level
      modifies this`buckets
      ensures Valid() && Contents() == old(Contents())
      ensures i == Cut(key.hash, m) && i < |buckets| && buckets[i].Chain? && k <= |buckets[i].nodes|
      ensures k < |buckets[i].nodes| ==> buckets[i].nodes[k].key == key && buckets[i].nodes[k] in Contents()
      ensures k == |buckets[i].nodes| ==> forall it :: it in buckets[i].nodes ==> it.key != key
    {
      Pow2Grows(m, level);
      i := Cut(key.hash, m);
      Acquire(i);
      k := SearchBucket(key, i);
      if k < |buckets[i].nodes| {
        InBucket(buckets, i, buckets[i].nodes[k]);
      }
    }

    method Unlink(i: nat, k: nat)
      requires Valid() && i < |buckets| && buckets[i].Chain? && k < |buckets[i].nodes|
      modifies this`buckets, this`size
      ensures Valid()
      ensures old(buckets[i].nodes[k]) in old(Contents())
      ensures forall it :: it in Contents() <==> it in old(Contents()) && it.key != old(buckets[i].nodes[k]).key
    {
      OkRemoved(buckets, level, base, i, k);
      var ns := buckets[i].nodes;
      buckets := buckets[i := Chain(ns[..k] + ns[k + 1..])];
      size := size - 1;
    }

    // Whether the bucket an old mask of length l selects for c has stopped being its home; and the mask now.
    method CheckMaskRace(c: nat, l: nat) returns (race: bool, now: nat)
      requires Valid() && base <= l <= level
      requires Cut(c, l) < |buckets| && buckets[Cut(c, l)].Chain?
      ensures now == level && (race ==> l < now)
      ensures race <==> Home(buckets, level, c) != Cut(c, l)
    {
      now := level;
      if l != now {
        race := CheckRehashingCollision(c, l, now);
      } else {
        race := false;
      }
    }

    method CheckRehashingCollision(c: nat, old_: nat, l: nat) returns (race: bool)
      requires Valid() && base <= old_ < l == level
      requires Cut(c, old_) < |buckets| && buckets[Cut(c, old_)].Chain?
      ensures race <==> Home(buckets, level, c) != Cut(c, old_)
    {
      if Cut(c, old_) != Cut(c, l) {
        var k := NextBit(c, old_, l);
        CollisionDecides(buckets, level, base, c, old_, k);
        if !buckets[Cut(c, k + 1)].RehashReq? {
          return true;
        }
      }
      return false;
    }

    // Doubles the table, or allocates the first block of segments. The new buckets wait for rehashing, unless
    // the table is known to be empty.
    method EnableSegment(initial: bool) returns (ghost more: nat)
      requires Valid() && (initial ==> size == 0)
      modifies this
      ensures Valid() && size == old(size) && Contents() == old(Contents())
      ensures level == NextLevel(old(level))
      ensures base == if initial then level else old(base)
      ensures more > 0 && buckets == Grown(old(buckets), more, Fill(initial))
      ensures |buckets| == old(|buckets|) + more
    {
      var next := NextLevel(level);
      PowersCompare(next, level);
      var count := Pow2(next) - Pow2(level);
      more := count;
      OkEnlarged(buckets, level, base, next, count, initial);
      buckets := Grown(buckets, count, Fill(initial));
      level, base := next, if initial then next else base;
    }

    // Links the item in; grows when the table is full and the mask is the current one.
    method InsertNewNode(i: nat, x: Item, l: nat)
      requires Valid() && l <= level && i == Home(buckets, level, x.key.hash)
      requires forall it :: it in Nodes(buckets[i]) ==> it.key != x.key
      modifies this
      ensures Valid() && base == old(base) && size == old(size) + 1
      ensures level == if size >= Pow2(l) - 1 && l == old(level) then NextLevel(l) else old(level)
      ensures Contents() == old(Contents()) + {x}
    {
      OkInserted(buckets, level, base, i, x);
      size := size + 1;
      buckets := buckets[i := Chain([x] + Nodes(buckets[i]))];
      if size >= Pow2(l) - 1 && l == level {
        ghost var more := EnableSegment(false);
      }
    }

    // Finds a key, or inserts it when it is not there, through a mask of length l loaded some time ago.
    method Lookup(opInsert: bool, key: Key, val: Val, l: nat) returns (r: bool, n: Found)
      requires Valid() && base <= l <= level
      modifies this
      ensures Valid() && base == old(base)
      ensures r <==> opInsert == (forall it :: it in old(Contents()) ==> it.key != key)
      ensures n.Present? ==> n.item.key == key && n.item in Contents()
      ensures n.Missing? <==> !opInsert && !r
      ensures opInsert && r ==> Contents() == old(Contents()) + {Item(key, val)}
      ensures !opInsert || !r ==> Contents() == old(Contents())
      // The table grows when an insertion fills it.
      ensures level == if opInsert && r && size >= Pow2(old(level)) - 1 then NextLevel(old(level)) else old(level)
    {
      var m := l;
      ghost var was := Contents();
      while true
        invariant Valid() && base == old(base) && base <= m <= level == old(level)
        invariant Contents() == was
        decreases level - m
      {
        var i, k := Locate(key, m);
        if k < |buckets[i].nodes| {
          return !opInsert, Present(buckets[i].nodes[k]);
        }
        var race, now := CheckMaskRace(key.hash, m);
        if !race {
          MissingItems(buckets, level, key);
          if opInsert {
            InsertNewNode(i, Item(key, val), now);
            return true, Present(Item(key, val));
          }
          return false, Missing;
        }
        m := now;
      }
    }

    // Unlinks the item of a key, if there is one.
    method Erase(key: Key, l: nat) returns (r: bool)
      requires Valid() && base <= l <= level
      modifies this
      ensures Valid() && base == old(base) && level == old(level)
      ensures r <==> exists it :: it in old(Contents()) && it.key == key
      ensures forall it :: it in Contents() <==> it in old(Contents()) && it.key != key
    {
      var m := l;
      while true
        invariant Valid() && base == old(base) && level == old(level) && base <= m <= level
        invariant Contents() == old(Contents())
        decreases level - m
      {
        var i, k := Locate(key, m);
        if k < |buckets[i].nodes| {
          Unlink(i, k);
          return true;
        }
        var race, now := CheckMaskRace(key.hash, m);
        if !race {
          MissingItems(buckets, level, key);
          return false;
        }
        m := now;
      }
    }

    // Enough segments for a number of buckets.
    method Reserve(count: nat) returns (ghost more: nat)
      requires Valid()
      modifies this
      ensures Valid() && Contents() == old(Contents()) && size == old(size)
      ensures count <= |buckets|
      ensures more > 0 <==> count > old(|buckets|)
      ensures buckets == Grown(old(buckets), more, Fill(old(size) == 0))
    {
      more := 0;
      if count == 0 {
        return;
      }
      var wanted := count - 1;
      var initial := size == 0;
      ghost var b, items, fill := buckets, Contents(), Fill(initial);
      while wanted > |buckets| - 1
        invariant Valid() && Contents() == items && size == old(size)
        invariant buckets == Grown(b, more, fill)
        invariant more > 0 ==> wanted > |b| - 1
        invariant |buckets| == |b| + more
        decreases wanted - |buckets|
      {
        ghost var added := EnableSegment(initial);
        GrownTwice(b, more, added, fill);
        more := more + added;
      }
    }

    // Marks every waiting bucket below h as rehashed.
    method MarkRehashedLevels(h: nat)
      requires Usable(buckets, level) && NoClaims(buckets) && h < |buckets| && buckets[h].Chain?
      modifies this`buckets
      ensures MarkedBelow(old(buckets), buckets, h)
      decreases |buckets| - h
    {
      ghost var b := buckets;
      var s := Segment(h) + 1;
      while s < level
        invariant s > Segment(h) && Usable(buckets, level) && Marking(b, buckets, h)
        invariant forall r :: Segment(h) < r < s && h + Pow2(r) < |buckets| ==> !buckets[h + Pow2(r)].RehashReq?
      {
        var x := h + Pow2(s);
        ChildInTable(h, s, level);
        if buckets[x].RehashReq? {
          ChildOf(h, s);
          ghost var t := buckets;
          buckets := buckets[x := Chain([])];
          MarkRehashedLevels(x);
          MarkChild(b, t, buckets, h, x);
        }
        s := s + 1;
      }
      MarkingDone(b, buckets, level, h);
    }

    // Sends every item of a root to the bucket the whole mask selects.
    method SpreadList(h: nat, ghost b: Table)
      requires Sound(b, level) && NoClaims(b) && h < |b| && b[h].Chain? && MarkedBelow(b, buckets, h)
      modifies this`buckets
      ensures SpreadFrom(b, buckets, level, h)
    {
      StartSpreading(b, buckets, level, h);
      ghost var ns, k := Nodes(b[h]), 0;
      var i := 0;
      while i < |Nodes(buckets[h])|
        invariant Spreading(b, buckets, level, h, k) && i == |Stay(ns[..k], level, h)|
        decreases |ns| - k
      {
        var n := Nodes(buckets[h])[i];
        var c := Cut(n.key.hash, level);
        SpreadStep(b, buckets, level, h, k, i);
        if c != h {
          buckets := buckets[h := Chain(Nodes(buckets[h])[..i] + Nodes(buckets[h])[i + 1..])];
          buckets := buckets[c := Chain([n] + Nodes(buckets[c]))];
        } else {
          i := i + 1;
        }
        k := k + 1;
      }
      EndSpreading(b, buckets, level, h);
    }

    // The nearest bucket above i that has a list.
    method FindRoot(i: nat) returns (h: nat)
      requires Usable(buckets, level) && NoClaims(buckets) && i < |buckets|
      ensures h == Root(buckets, i) && h < |buckets| && buckets[h].Chain?
    {
      h := i;
      while buckets[h].RehashReq?
        invariant h < |buckets| && Root(buckets, h) == Root(buckets, i)
        decreases h
      {
        h := Parent(h);
      }
    }

    // A waiting bucket is traced to its root, everything waiting below the root is marked, and the root's items
    // are spread.
    method SpreadRoot(i: nat)
      requires Sound(buckets, level) && NoClaims(buckets) && i < |buckets|
      modifies this`buckets
      ensures SpreadFrom(old(buckets), buckets, level, Root(old(buckets), i))
    {
      ghost var t := buckets;
      var h := FindRoot(i);
      MarkRehashedLevels(h);
      SpreadList(h, t);
    }

    // The scan of the last segment.
    method ScanLastSegment(half: nat)
      requires Valid() && half <= |buckets|
      modifies this`buckets
      ensures Valid() && Contents() == old(Contents())
      ensures Scanned(old(buckets), buckets, half, |buckets|)
    {
      ghost var b := buckets;
      var i := half;
      ScanStarts(b, level, base, half);
      while i < |buckets|
        invariant half <= i <= |buckets|
        invariant Scanning(b, buckets, level, base, half, i)
      {
        if buckets[i].RehashReq? {
          ghost var u := buckets;
          SpreadRoot(i);
          ScanSpreadsOne(b, u, buckets, level, base, half, i);
        } else {
          ScanSkipsOne(b, buckets, level, base, half, i);
        }
        i := i + 1;
      }
    }

    // Rehashes the whole table while nobody else uses it. A bucket is left waiting exactly when the enlarged
    // table has one that is hidden from the scan. When rehashed buckets have rehashed parents, that is only so
    // if an empty table in which some bucket waits has been enlarged.
    method Rehash(count: nat)
      requires Valid()
      modifies this
      ensures Valid() && Contents() == old(Contents()) && size == old(size)
      ensures count <= |buckets| && LeavesHidden(old(buckets), old(size) == 0, buckets, level)
      ensures ClosedFrom(old(buckets), 2) ==>
        (Waits(buckets) <==> old(size) == 0 && count > old(|buckets|) && Waits(old(buckets)))
      ensures !Waits(buckets) ==> InPlace(buckets, level)
    {
      ghost var b0, level0, empty := buckets, level, size == 0;
      ghost var more := Reserve(count);
      var half := Pow2(level - 1);
      ghost var grown := buckets;
      assert grown == Grown(b0, more, Fill(empty));
      ScanLastSegment(half);
      assert Scanned(grown, buckets, half, |buckets|);
      assert |b0| + more == |grown| == |buckets|;
      assert |buckets| == Pow2(level);
      ScanVerdict(b0, level0, more, empty, grown, buckets, level, half);
      if !Waits(buckets) {
        AllInPlace(buckets, level);
      }
    }
  }
}
