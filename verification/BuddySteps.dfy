// What the allocator's loops still have to do above the place they have reached, and one step of each loop
// on the byte array.
module BuddySteps {
  import opened Powers
  import opened BuddyTree
  import opened BuddyHeap

  // ---------------------------------------------------------------- what is left to do above a place

  function JoinAt(c: Ctx, s: Tree): Tree
    requires c.Side?
  {
    if c.left then Join(s, c.other) else Join(c.other, s)
  }

  // Marking upwards from s to the root.
  function JoinAll(c: Ctx, s: Tree): Tree
    decreases c
  {
    if c.Top? then s else JoinAll(c.up, JoinAt(c, s))
  }

  function MeetAt(c: Ctx, s: Tree): Tree
    requires c.Side?
  {
    if c.left then Meet(s, c.other) else Meet(c.other, s)
  }

  // Merging upwards from s to the root.
  function MeetAll(c: Ctx, s: Tree): Tree
    decreases c
  {
    if c.Top? then s else MeetAll(c.up, MeetAt(c, s))
  }

  // The result of the whole search, once the search below this place has ended with res.
  function Resume(c: Ctx, h: nat, k: int, cur: Tree, res: Search): Search
    requires -1 <= k <= h
    decreases c
  {
    if c.Top? then res else
    match res
    case Found(s, o) =>
      Resume(c.up, h + 1, k, Both(c, cur), Found(JoinAt(c, s), if c.left then o else o + Pow2(h)))
    case NotFound =>
      Resume(c.up, h + 1, k, Both(c, cur), if c.left then AllocRight(cur, c.other, h + 1, k) else NotFound)
    case Beyond => Beyond
  }

  // No ancestor is marked full.
  predicate Open(c: Ctx)
    decreases c
  {
    c.Side? ==> !c.full && Open(c.up)
  }

  lemma {:induction false} ResumeFound(c: Ctx, h: nat, k: int, cur: Tree, s: Tree, o: nat)
    requires -1 <= k <= h
    ensures Resume(c, h, k, cur, Found(s, o)) == Found(JoinAll(c, s), o + Start(c, h))
    decreases c
  {
    if c.Side? {
      ResumeFound(c.up, h + 1, k, Both(c, cur), JoinAt(c, s), if c.left then o else o + Pow2(h));
    }
  }

  lemma {:induction false} NotFullStopsMarking(c: Ctx, s: Tree)
    requires Open(c) && !IsFull(s)
    ensures JoinAll(c, s) == Plug(c, s)
    decreases c
  {
    if c.Side? {
      NotFullStopsMarking(c.up, Both(c, s));
    }
  }

  lemma {:induction false} UnusedHasRoom(h: nat, k: int)
    requires -1 <= k <= h
    ensures Alloc(Unused, h, k) != NotFound
  {
    if k < h && h > 0 {
      UnusedHasRoom(h - 1, k);
      assert Alloc(Unused, h, k) == Alloc(Branch(false, Unused, Unused), h, k);
    }
  }

  // Nodes not visited yet: below the place, and below the right siblings still ahead.
  function Nodes(h: nat): nat { 2 * Pow2(h) - 1 }

  function Pending(c: Ctx, h: nat): nat
    decreases c
  {
    if c.Top? then 0 else Pending(c.up, h + 1) + (if c.left then Nodes(h) else 0)
  }

  // ---------------------------------------------------------------- what a release meets above a place

  // The full marks above s are what a legal tree has.
  predicate MarksFit(c: Ctx, s: Tree)
    decreases c
  {
    c.Side? ==> c.full == (IsFull(s) && IsFull(c.other)) && MarksFit(c.up, Both(c, s))
  }

  lemma {:induction false} LegalAbove(c: Ctx, h: nat, s: Tree)
    requires Legal(Plug(c, s), h + Depth(c))
    ensures Legal(s, h) && MarksFit(c, s)
    decreases c
  {
    if c.Side? {
      LegalAbove(c.up, h + 1, Both(c, s));
    }
  }

  lemma {:induction false} NotFullIsOpen(c: Ctx, s: Tree)
    requires MarksFit(c, s) && !IsFull(s)
    ensures Open(c)
    decreases c
  {
    if c.Side? {
      NotFullIsOpen(c.up, Both(c, s));
    }
  }

  // Above a node that stays, a release only clears the full marks.
  function Clear(c: Ctx): Ctx { if c.Top? then Top else Side(false, c.left, c.other, Clear(c.up)) }

  lemma {:induction false} MeetingStops(c: Ctx, s: Tree)
    requires c.Side? ==> !(s.Unused? && c.other.Unused?)
    ensures MeetAll(c, s) == Plug(Clear(c), s)
    decreases c
  {
    if c.Side? {
      MeetingStops(c.up, MeetAt(c, s));
    }
  }

  lemma {:induction false} OpenIsClear(c: Ctx)
    requires Open(c)
    ensures Clear(c) == c
    decreases c
  {
    if c.Side? {
      OpenIsClear(c.up);
    }
  }

  // ---------------------------------------------------------------- one step of each upward loop

  lemma ShowsElsewhere(t: seq<Tag>, k: nat, h: nat, s: Tree, i: nat, v: Tag)
    requires Shows(t, k, h, s) && i < |t| && !Under(i, k)
    ensures Shows(t[i := v], k, h, s)
  {
    ShowsFrame(t, t[i := v], k, h, s);
  }

  // Rewriting the tag of a branch turns it into the branch with that mark.
  lemma Remark(t: seq<Tag>, p: nat, h: nat, top: nat, c: Ctx, s: Tree, full: bool)
    requires Around(t, p, h, top, c) && Shows(t, p, h, s) && s.Branch? && p < |t|
    ensures var u := t[p := if full then NodeFull else NodeSplit];
      Around(u, p, h, top, c) && Shows(u, p, h, s.(full := full))
  {
    var v := if full then NodeFull else NodeSplit;
    WriteBelow(t, p, h, top, c, p, v);
    ShowsElsewhere(t, 2 * p + 1, h - 1, s.l, p, v);
    ShowsElsewhere(t, 2 * p + 2, h - 1, s.r, p, v);
  }

  // The place of the parent.
  lemma StepUp(t: seq<Tag>, k: nat, h: nat, top: nat, c: Ctx, s: Tree)
    requires Around(t, k, h, top, c) && Shows(t, k, h, s) && |t| == 2 * Pow2(top) - 1
    ensures c.Top? ==> Sibling(k) == -1 && Parent(k) == -1
    ensures c.Side? ==>
      && 0 < Sibling(k) < |t| && 0 <= Parent(k) < |t|
      && Around(t, Parent(k), h + 1, top, c.up) && Shows(t, Parent(k), h + 1, Both(c, s))
      && (t[Sibling(k)] == NodeUnused <==> c.other.Unused?)
      && (t[Sibling(k)] == NodeUsed || t[Sibling(k)] == NodeFull <==> IsFull(c.other))
      && (t[Parent(k)] == NodeFull <==> c.full)
  {
    if c.Side? {
      InArray(t, Parent(k), h + 1, top, c.up);
    }
  }

  // Marking the parent when both halves are full.
  lemma MarkUp(t: seq<Tag>, k: nat, h: nat, top: nat, c: Ctx, s: Tree)
    requires Around(t, k, h, top, c) && Shows(t, k, h, s) && |t| == 2 * Pow2(top) - 1
    requires c.Side? && IsFull(s) && IsFull(c.other)
    ensures 0 <= Parent(k) < |t|
    ensures var u := t[Parent(k) := NodeFull];
      Around(u, Parent(k), h + 1, top, c.up) && Shows(u, Parent(k), h + 1, JoinAt(c, s))
  {
    StepUp(t, k, h, top, c, s);
    Remark(t, Parent(k), h + 1, top, c.up, Both(c, s), true);
  }

  lemma MarkDone(t: seq<Tag>, k: nat, h: nat, top: nat, c: Ctx, s: Tree)
    requires Around(t, k, h, top, c) && Shows(t, k, h, s) && Open(c)
    requires c.Side? ==> !IsFull(c.other)
    ensures Shows(t, 0, top, JoinAll(c, s))
  {
    PlugShows(t, k, h, top, c, s);
    if c.Side? {
      NotFullStopsMarking(c.up, Both(c, s));
    }
  }

  // ---------------------------------------------------------------- steps of the search

  // The search is about to look at node i; tags have changed only if it has come to an unused node.
  ghost predicate Looking(t: seq<Tag>, was: seq<Tag>, i: nat, h: nat, top: nat, c: Ctx, s: Tree, k: int, goal: Search)
  {
    && |t| == 2 * Pow2(top) - 1 && -1 <= k <= h
    && Around(t, i, h, top, c) && Shows(t, i, h, s) && Open(c)
    && Resume(c, h, k, s, Alloc(s, h, k)) == goal
    && (t == was || s.Unused? || (s.Branch? && !s.full && s.l.Unused? && k < h))
  }

  // Nothing was found at or below node i, and nothing has changed.
  ghost predicate Leaving(t: seq<Tag>, was: seq<Tag>, i: nat, h: nat, top: nat, c: Ctx, s: Tree, k: int, goal: Search)
  {
    && |t| == 2 * Pow2(top) - 1 && -1 <= k <= h
    && Around(t, i, h, top, c) && Shows(t, i, h, s) && Open(c)
    && Resume(c, h, k, s, NotFound) == goal
    && t == was
  }

  lemma GoLeft(t: seq<Tag>, was: seq<Tag>, i: nat, h: nat, top: nat, c: Ctx, s: Tree, k: int, goal: Search)
      returns (g: nat, d: Ctx, l: Tree)
    requires Looking(t, was, i, h, top, c, s, k, goal) && k < h && h > 0 && s.Branch? && !s.full
    ensures g == h - 1 && Pow2(g) == Pow2(h) / 2
    ensures Looking(t, was, 2 * i + 1, g, top, d, l, k, goal)
    ensures Nodes(g) + Pending(d, g) < Nodes(h) + Pending(c, h)
  {
    g, d, l := h - 1, Side(false, true, s.r, c), s.l;
    assert Both(d, l) == s;
    assert Resume(d, g, k, l, Alloc(l, g, k)) == Resume(c, h, k, s, Alloc(s, h, k));
  }

  lemma SplitHere(t: seq<Tag>, was: seq<Tag>, i: nat, h: nat, top: nat, c: Ctx, k: int, goal: Search)
    requires Looking(t, was, i, h, top, c, Unused, k, goal) && k < h && h > 0
    ensures 2 * i + 2 < |t|
    ensures Looking(t[i := NodeSplit][2 * i + 1 := NodeUnused][2 * i + 2 := NodeUnused], was, i, h, top, c,
                    Branch(false, Unused, Unused), k, goal)
  {
    InArray(t, i, h, top, c);
    var u := t[i := NodeSplit];
    WriteBelow(t, i, h, top, c, i, NodeSplit);
    assert Under(2 * i + 1, i) by { assert Under(i, i); }
    assert Under(2 * i + 2, i) by { assert Under(i, i); }
    WriteBelow(u, i, h, top, c, 2 * i + 1, NodeUnused);
    WriteBelow(u[2 * i + 1 := NodeUnused], i, h, top, c, 2 * i + 2, NodeUnused);
    UnusedHasRoom(h, k);
    assert Alloc(Unused, h, k) == Alloc(Branch(false, Unused, Unused), h, k);
    OpenResume(c, h, k, Unused, Branch(false, Unused, Unused), Alloc(Unused, h, k));
  }

  // An unused leaf of the wrong height: its children lie outside the array.
  lemma FallOff(t: seq<Tag>, was: seq<Tag>, i: nat, top: nat, c: Ctx, s: Tree, k: int, goal: Search)
    requires Looking(t, was, i, 0, top, c, s, k, goal) && k < 0 && !IsFull(s)
    ensures s.Unused? && goal == Beyond && 2 * i + 1 >= |t|
  {
    PlaceDepth(t, i, 0, top, c);
  }

  // An unused node of the right height ends the search.
  lemma TakeHere(t: seq<Tag>, was: seq<Tag>, i: nat, h: nat, top: nat, c: Ctx, k: int, goal: Search)
    requires Looking(t, was, i, h, top, c, Unused, k, goal) && k == h
    ensures i < |t| && t[i] == NodeUnused
    ensures Around(t[i := NodeUsed], i, h, top, c) && Shows(t[i := NodeUsed], i, h, Used)
    ensures h + Depth(c) == top
    ensures goal.Found? && goal.tree == JoinAll(c, Used)
    ensures goal.offset == (i + 1 - Pow2(Depth(c))) * Pow2(h)
  {
    InArray(t, i, h, top, c);
    PlaceDepth(t, i, h, top, c);
    PlaceOffset(t, i, h, top, c);
    ResumeFound(c, h, k, Unused, Used, 0);
    WriteBelow(t, i, h, top, c, i, NodeUsed);
  }

  // What is built on success does not depend on the tree the search left behind.
  lemma OpenResume(c: Ctx, h: nat, k: int, s: Tree, u: Tree, res: Search)
    requires -1 <= k <= h && res != NotFound
    ensures Resume(c, h, k, s, res) == Resume(c, h, k, u, res)
  {
    if res.Found? {
      ResumeFound(c, h, k, s, res.tree, res.offset);
      ResumeFound(c, h, k, u, res.tree, res.offset);
    }
  }

  // After the left half has nothing, what the search finds is what it finds in the right half.
  lemma RightResumes(c: Ctx, h: nat, k: int, s: Tree)
    requires c.Side? && c.left && -1 <= k <= h
    ensures var d := Side(c.full, false, s, c.up);
      Resume(c, h, k, s, NotFound) == Resume(d, h, k, c.other, Alloc(c.other, h, k))
  {
    assert AllocRight(s, c.other, h + 1, k) == match Alloc(c.other, h, k)
                                               case Found(r, o) => Found(Join(s, r), o + Pow2(h))
                                               case NotFound => NotFound
                                               case Beyond => Beyond;
  }

  lemma GoRight(t: seq<Tag>, was: seq<Tag>, i: nat, h: nat, top: nat, c: Ctx, s: Tree, k: int, goal: Search)
      returns (d: Ctx, r: Tree)
    requires Leaving(t, was, i, h, top, c, s, k, goal) && i % 2 == 1
    ensures Looking(t, was, i + 1, h, top, d, r, k, goal)
    ensures Nodes(h) + Pending(d, h) == Pending(c, h)
  {
    d, r := Side(c.full, false, s, c.up), c.other;
    assert Both(d, r) == Both(c, s);
    RightResumes(c, h, k, s);
  }

  lemma GiveUp(t: seq<Tag>, was: seq<Tag>, i: nat, h: nat, top: nat, c: Ctx, s: Tree, k: int, goal: Search)
    requires Looking(t, was, i, h, top, c, s, k, goal)
    requires if k == h then !s.Unused? else IsFull(s)
    ensures Leaving(t, was, i, h, top, c, s, k, goal)
  {
    assert Alloc(s, h, k) == NotFound;
  }

  lemma Arrive(t: seq<Tag>, was: seq<Tag>, i: nat, h: nat, top: nat, c: Ctx, s: Tree, k: int, goal: Search)
    requires Looking(t, was, i, h, top, c, s, k, goal)
    ensures i < |t| && (t[i] == NodeUnused <==> s.Unused?)
    ensures t[i] == NodeUsed || t[i] == NodeFull <==> IsFull(s)
    ensures h > 0 ==> 2 * i + 2 < |t|
  {
    InArray(t, i, h, top, c);
  }

  lemma GoUp(t: seq<Tag>, was: seq<Tag>, i: nat, h: nat, top: nat, c: Ctx, s: Tree, k: int, goal: Search)
      returns (d: Ctx, p: Tree)
    requires Leaving(t, was, i, h, top, c, s, k, goal) && i % 2 == 0
    ensures if Parent(i) < 0 then goal == NotFound else
      && h < top && Pow2(h + 1) == 2 * Pow2(h)
      && Leaving(t, was, Parent(i), h + 1, top, d, p, k, goal)
      && Pending(d, h + 1) == Pending(c, h)
  {
    if c.Top? {
      d, p := c, s;
    } else {
      d, p := c.up, Both(c, s);
    }
  }

  // ---------------------------------------------------------------- steps of a release

  // The block that starts at offset lies at or below node i, whose leftmost unit is `left`.
  ghost predicate Holding(t: seq<Tag>, i: nat, h: nat, top: nat, left: nat, c: Ctx, s: Tree, b: Block, root: Tree)
  {
    && |t| == 2 * Pow2(top) - 1
    && Around(t, i, h, top, c) && Shows(t, i, h, s)
    && Legal(s, h) && left <= b.start && b in Blocks(s, h, left)
    && root == Plug(c, s)
    && MeetAll(c, Release(s, h, b.start - left)) == Release(root, top, b.start)
  }

  lemma GoDown(t: seq<Tag>, i: nat, h: nat, top: nat, left: nat, c: Ctx, s: Tree, b: Block, root: Tree)
      returns (g: nat, d: Ctx, u: Tree)
    requires Holding(t, i, h, top, left, c, s, b, root) && s.Branch?
    ensures g < h && Pow2(g) == Pow2(h) / 2
    ensures if b.start < left + Pow2(g)
      then Holding(t, 2 * i + 1, g, top, left, d, u, b, root)
      else Holding(t, 2 * i + 2, g, top, left + Pow2(g), d, u, b, root)
  {
    g := h - 1;
    HalvesApart(s.l, s.r, h, left);
    if b.start < left + Pow2(g) {
      d, u := Side(s.full, true, s.r, c), s.l;
    } else {
      d, u := Side(s.full, false, s.l, c), s.r;
    }
    assert Both(d, u) == s;
  }

  lemma Reach(t: seq<Tag>, i: nat, h: nat, top: nat, left: nat, c: Ctx, s: Tree, b: Block, root: Tree)
    requires Holding(t, i, h, top, left, c, s, b, root) && Legal(root, top)
    ensures i < |t| && t[i] != NodeUnused
    ensures t[i] == NodeUsed <==> s.Used?
    ensures s.Used? ==> b == Block(left, Pow2(h)) && MarksFit(c, Used)
    ensures s.Used? ==> MeetAll(c, Unused) == Release(root, top, b.start)
  {
    InArray(t, i, h, top, c);
    PlaceDepth(t, i, h, top, c);
    LegalAbove(c, h, s);
  }

  // Climbing past an unused half: the two will be merged.
  lemma MergeUp(t: seq<Tag>, k: nat, h: nat, top: nat, c: Ctx, s: Tree)
    requires Around(t, k, h, top, c) && |t| == 2 * Pow2(top) - 1 && MarksFit(c, s)
    requires c.Side? && c.other.Unused?
    ensures Parent(k) >= 0 && Around(t, Parent(k), h + 1, top, c.up) && MarksFit(c.up, Both(c, s))
    ensures MeetAll(c, Unused) == MeetAll(c.up, Unused)
  {
  }

  // The tags of the sibling and of the parent.
  lemma LookUp(t: seq<Tag>, k: nat, h: nat, top: nat, c: Ctx)
    requires Around(t, k, h, top, c) && |t| == 2 * Pow2(top) - 1
    ensures k < |t|
    ensures c.Top? ==> Sibling(k) < 0 && Parent(k) < 0
    ensures c.Side? ==>
      && 0 < Sibling(k) < |t| && 0 <= Parent(k) < |t|
      && (t[Sibling(k)] == NodeUnused <==> c.other.Unused?)
      && (t[Parent(k)] == NodeFull <==> c.full)
  {
    InArray(t, k, h, top, c);
    if c.Side? {
      InArray(t, Parent(k), h + 1, top, c.up);
    }
  }

  // Clearing the mark of a full parent.
  lemma ClearUp(t: seq<Tag>, k: nat, h: nat, top: nat, c: Ctx, s: Tree)
    requires Around(t, k, h, top, c) && Shows(t, k, h, s) && |t| == 2 * Pow2(top) - 1
    requires c.Side?
    ensures 0 <= Parent(k) < |t|
    ensures var u := t[Parent(k) := NodeSplit]; var p := Both(c, s).(full := false);
      && Around(u, Parent(k), h + 1, top, c.up) && Shows(u, Parent(k), h + 1, p)
      && Plug(Clear(c), s) == Plug(Clear(c.up), p)
  {
    StepUp(t, k, h, top, c, s);
    Remark(t, Parent(k), h + 1, top, c.up, Both(c, s), false);
  }

  lemma ClearDone(t: seq<Tag>, k: nat, h: nat, top: nat, c: Ctx, s: Tree, was: Tree)
    requires Around(t, k, h, top, c) && Shows(t, k, h, s) && MarksFit(c, was)
    requires c.Side? ==> !c.full
    ensures Shows(t, 0, top, Plug(Clear(c), s))
  {
    PlugShows(t, k, h, top, c, s);
    if c.Side? {
      NotFullIsOpen(c.up, Both(c, was));
    }
    OpenIsClear(c);
  }
}
