// How the byte array lays out a tree: node k has its children at 2k+1 and 2k+2. A place in the tree is a
// subtree together with the context around it, read upwards to the root.
module BuddyHeap {
  import opened Powers
  import opened BuddyTree

  datatype Tag = NodeUnused | NodeUsed | NodeSplit | NodeFull

  datatype Ctx = Top | Side(full: bool, left: bool, other: Tree, up: Ctx)

  function At(t: seq<Tag>, k: int): Tag { if 0 <= k < |t| then t[k] else NodeUnused }

  function Parent(k: nat): int { (k + 1) / 2 - 1 }

  function Sibling(k: nat): int { k - 1 + (k % 2) * 2 }

  // The tags at and below node k describe the tree s of height h.
  predicate Shows(t: seq<Tag>, k: nat, h: nat, s: Tree)
    decreases s
  {
    match s
    case Unused => At(t, k) == NodeUnused
    case Used => At(t, k) == NodeUsed
    case Branch(full, l, r) =>
      && h > 0
      && At(t, k) == (if full then NodeFull else NodeSplit)
      && Shows(t, 2 * k + 1, h - 1, l)
      && Shows(t, 2 * k + 2, h - 1, r)
  }

  // The tags outside node k, whose subtree has height h in a tree of height top.
  predicate Around(t: seq<Tag>, k: nat, h: nat, top: nat, c: Ctx)
    decreases c
  {
    match c
    case Top => k == 0 && h == top
    case Side(full, left, other, up) =>
      && k > 0 && h < top
      && left == (k % 2 == 1)
      && Shows(t, Sibling(k), h, other)
      && At(t, Parent(k)) == (if full then NodeFull else NodeSplit)
      && Around(t, Parent(k), h + 1, top, up)
  }

  function Both(c: Ctx, s: Tree): Tree
    requires c.Side?
  {
    if c.left then Branch(c.full, s, c.other) else Branch(c.full, c.other, s)
  }

  function Plug(c: Ctx, s: Tree): Tree
    decreases c
  {
    if c.Top? then s else Plug(c.up, Both(c, s))
  }

  function Depth(c: Ctx): nat { if c.Top? then 0 else 1 + Depth(c.up) }

  // The first unit below the place.
  function Start(c: Ctx, h: nat): nat
    decreases c
  {
    if c.Top? then 0 else Start(c.up, h + 1) + (if c.left then 0 else Pow2(h))
  }

  lemma {:induction false} PlugShows(t: seq<Tag>, k: nat, h: nat, top: nat, c: Ctx, s: Tree)
    requires Around(t, k, h, top, c) && Shows(t, k, h, s)
    ensures Shows(t, 0, top, Plug(c, s))
    decreases c
  {
    if c.Side? {
      PlugShows(t, Parent(k), h + 1, top, c.up, Both(c, s));
    }
  }

  // Node k is at this depth, and the depth and the height add up.
  lemma {:induction false} PlaceDepth(t: seq<Tag>, k: nat, h: nat, top: nat, c: Ctx)
    requires Around(t, k, h, top, c)
    ensures h + Depth(c) == top
    ensures Pow2(Depth(c)) <= k + 1 && k + 2 <= 2 * Pow2(Depth(c))
    decreases c
  {
    if c.Side? {
      PlaceDepth(t, Parent(k), h + 1, top, c.up);
    }
  }

  // The offset of a node is its position in its level times the size of a block there.
  lemma {:induction false} PlaceOffset(t: seq<Tag>, k: nat, h: nat, top: nat, c: Ctx)
    requires Around(t, k, h, top, c)
    ensures Start(c, h) == (k + 1 - Pow2(Depth(c))) * Pow2(h)
    decreases c
  {
    if c.Side? {
      var p := Parent(k);
      PlaceOffset(t, p, h + 1, top, c.up);
      var x := p + 1 - Pow2(Depth(c.up));
      assert Start(c.up, h + 1) == x * (2 * Pow2(h));
      assert k + 1 - Pow2(Depth(c)) == 2 * x + (if c.left then 0 else 1);
      Doubled(x, Pow2(h));
      assert Start(c, h) == (if c.left then (2 * x) * Pow2(h) else (2 * x + 1) * Pow2(h));
    }
  }

  // Node k is in the array, and so are its children when it is not a leaf.
  lemma InArray(t: seq<Tag>, k: nat, h: nat, top: nat, c: Ctx)
    requires Around(t, k, h, top, c) && |t| == 2 * Pow2(top) - 1
    ensures k < |t| && (h > 0 ==> 2 * k + 2 < |t|)
  {
    PlaceDepth(t, k, h, top, c);
    Pow2Grows(Depth(c), top);
    if h > 0 {
      Pow2Grows(Depth(c) + 1, top);
    }
  }

  // ---------------------------------------------------------------- frames

  predicate Under(i: nat, k: nat)
    decreases i
  {
    i == k || (i > k && i > 0 && Under((i - 1) / 2, k))
  }

  lemma {:induction false} UnderChild(i: nat, k: nat, j: nat)
    requires j == 2 * k + 1 || j == 2 * k + 2
    requires Under(i, j)
    ensures Under(i, k) && i != k
    decreases i
  {
    if i != j {
      UnderChild((i - 1) / 2, k, j);
    }
  }

  lemma {:induction false} SiblingsApart(i: nat, k: nat)
    requires k > 0 && Under(i, k)
    ensures !Under(i, Sibling(k))
    decreases i
  {
    var j := Sibling(k);
    if i != k {
      SiblingsApart((i - 1) / 2, k);
    }
  }

  lemma {:induction false} ShowsFrame(t: seq<Tag>, u: seq<Tag>, k: nat, h: nat, s: Tree)
    requires Shows(t, k, h, s)
    requires forall i: nat :: Under(i, k) ==> At(t, i) == At(u, i)
    ensures Shows(u, k, h, s)
    decreases s
  {
    assert Under(k, k);
    if s.Branch? {
      forall i: nat | Under(i, 2 * k + 1) ensures At(t, i) == At(u, i) { UnderChild(i, k, 2 * k + 1); }
      forall i: nat | Under(i, 2 * k + 2) ensures At(t, i) == At(u, i) { UnderChild(i, k, 2 * k + 2); }
      ShowsFrame(t, u, 2 * k + 1, h - 1, s.l);
      ShowsFrame(t, u, 2 * k + 2, h - 1, s.r);
    }
  }

  lemma {:induction false} AroundFrame(t: seq<Tag>, u: seq<Tag>, k: nat, h: nat, top: nat, c: Ctx)
    requires Around(t, k, h, top, c)
    requires forall i: nat :: !Under(i, k) ==> At(t, i) == At(u, i)
    ensures Around(u, k, h, top, c)
    decreases c
  {
    if c.Side? {
      var p, j := Parent(k), Sibling(k);
      forall i: nat | Under(i, j) ensures At(t, i) == At(u, i) {
        if Under(i, k) { SiblingsApart(i, k); }
      }
      ShowsFrame(t, u, j, h, c.other);
      forall i: nat | !Under(i, p) ensures At(t, i) == At(u, i) {
        if Under(i, k) { UnderChild(i, p, k); }
      }
      assert !Under(p, k);
      AroundFrame(t, u, p, h + 1, top, c.up);
    }
  }

  // Changing tags at or below a place leaves its surroundings alone.
  lemma WriteBelow(t: seq<Tag>, k: nat, h: nat, top: nat, c: Ctx, i: nat, v: Tag)
    requires Around(t, k, h, top, c) && Under(i, k) && i < |t|
    ensures Around(t[i := v], k, h, top, c)
  {
    AroundFrame(t, t[i := v], k, h, top, c);
  }
}
