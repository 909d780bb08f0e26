// The allocator: a byte per node, a backtracking search loop, marks carried upwards after an allocation and
// halves merged upwards after a release. Each loop is shown to compute the recursive function on trees.
module Buddy {
  import opened Powers
  import opened BuddyTree
  import opened BuddyRounding
  import opened BuddyHeap
  import opened BuddySteps

  // An aligned range of n units, all of it free.
  ghost predicate Candidate(bs: set<Block>, length: nat, n: nat, o: nat) {
    MultipleOf(o, n) && o + n <= length && RangeFree(bs, o, n)
  }

  // No two live blocks start at the same unit.
  lemma BlockStarts(root: Tree, level: nat, b: Block)
    requires Legal(root, level) && b in Blocks(root, level, 0)
    ensures forall d :: d in Blocks(root, level, 0) && d.start == b.start ==> d == b
  {
    BlocksAreDisjoint(root, level, 0);
    BlocksWithin(root, level, 0, b);
    forall d | d in Blocks(root, level, 0) && d.start == b.start ensures d == b {
      BlocksWithin(root, level, 0, d);
    }
  }

  // The recursive search finds the lowest candidate.
  lemma FirstFit(root: Tree, level: nat, k: nat)
    requires Legal(root, level) && k <= level
    ensures var f := Alloc(root, level, k);
      && (f.Found? ==> Takes(root, level, 0, k, f))
      && (forall o: nat :: Candidate(Blocks(root, level, 0), Pow2(level), Pow2(k), o) ==> f.Found? && f.offset <= o)
  {
    if Alloc(root, level, k).Found? {
      AllocTakes(root, level, 0, k);
    }
    forall o: nat | Candidate(Blocks(root, level, 0), Pow2(level), Pow2(k), o)
      ensures Alloc(root, level, k).Found? && Alloc(root, level, k).offset <= o
    {
      AllocLowest(root, level, 0, k, o);
    }
  }

  lemma Pow2Of29()
    ensures Pow2(29) == 0x2000_0000
  {
    assert Pow2(8) == 256;
    assert Pow2(16) == 0x1_0000;
    assert Pow2(24) == 0x100_0000;
  }

  // A request just above 2^30 on a fresh allocator: nothing of that size exists, so the answer should be -1, but
  // the cast size is negative and the search leaves the tree.
  lemma FreshTreeIsLeft(level: nat)
    requires level <= 29
    ensures SizeFor(0x4000_0001) == 0x8000_0000 && SizeOf(0x4000_0001) == -0x8000_0000
    ensures forall o: nat :: !Candidate(Blocks(Unused, level, 0), Pow2(level), SizeFor(0x4000_0001), o)
    ensures Alloc(Unused, level, -1) == Beyond
  {
    SizeOutOfRange(0x4000_0001);
    RoundedToTop(0x4000_0001);
    TopBit();
    Pow2Of29();
    Pow2Grows(level, 29);
    AlwaysBeyond(Unused, level);
  }

  // What the search does: it returns, or it touches an index outside the array.
  datatype Outcome = Returned(r: int) | OutOfArray(index: nat)

  class Allocator {
    const level: nat
    const tree: array<Tag>
    ghost var root: Tree

    ghost predicate Valid()
      reads this, tree
    {
      && level <= 29
      && tree.Length == 2 * Pow2(level) - 1
      && Legal(root, level)
      && Shows(tree[..], 0, level, root)
    }

    ghost function Live(): set<Block>
      requires Valid()
      reads this, tree
    {
      Blocks(root, level, 0)
    }

    constructor (level: nat)
      requires level <= 29
      ensures Valid() && fresh(tree) && this.level == level
      ensures Live() == {}
    {
      this.level := level;
      tree := new Tag[2 * Pow2(level) - 1](_ => NodeUnused);
      root := Unused;
    }

    // What a request of s units gets, with the live blocks before and after.
    ghost predicate FirstFitResult(live: set<Block>, s: bv32, r: int, same: bool, after: set<Block>) {
      && (r == -1 <==> forall o: nat :: !Candidate(live, Pow2(level), SizeFor(s), o))
      && (r == -1 ==> same && after == live)
      && (r != -1 ==>
            && r >= 0 && Candidate(live, Pow2(level), SizeFor(s), r)
            && (forall o: nat :: Candidate(live, Pow2(level), SizeFor(s), o) ==> r <= o)
            && after == live + {Block(r, SizeFor(s))})
    }

    // From a full node upwards: a parent whose other half is full too becomes full.
    method MarkParent(start: nat, ghost h0: nat, ghost c0: Ctx, ghost s0: Tree)
      requires tree.Length == 2 * Pow2(level) - 1
      requires Around(tree[..], start, h0, level, c0) && Shows(tree[..], start, h0, s0)
      requires Open(c0) && IsFull(s0)
      modifies tree
      ensures Shows(tree[..], 0, level, JoinAll(c0, s0))
    {
      var index: int := start;
      ghost var h, c, s := h0, c0, s0;
      while true
        invariant 0 <= index && Around(tree[..], index, h, level, c) && Shows(tree[..], index, h, s)
        invariant Open(c) && IsFull(s) && JoinAll(c, s) == JoinAll(c0, s0)
        decreases c
      {
        var buddy := index - 1 + (index % 2) * 2;
        StepUp(tree[..], index, h, level, c, s);
        if buddy > 0 && (tree[buddy] == NodeUsed || tree[buddy] == NodeFull) {
          MarkUp(tree[..], index, h, level, c, s);
          index := (index + 1) / 2 - 1;
          s, h, c := JoinAt(c, s), h + 1, c.up;
          ghost var was := tree[..];
          tree[index] := NodeFull;
          assert tree[..] == was[index := NodeFull];
        } else {
          MarkDone(tree[..], index, h, level, c, s);
          return;
        }
      }
    }

    // The inner loop of the search: from a right child up to the next right sibling not visited yet.
    method Backtrack(index0: int, depth0: int, length0: int, ghost t: seq<Tag>, ghost was: seq<Tag>,
                     ghost h0: nat, ghost c0: Ctx, ghost s0: Tree, ghost k: int, ghost goal: BuddyTree.Search)
        returns (index: int, depth: int, length: int, ghost h: nat, ghost c: Ctx, ghost s: Tree)
      requires 0 <= index0 && index0 % 2 == 0 && h0 <= level && length0 == Pow2(h0) && depth0 == level - h0
      requires Leaving(t, was, index0, h0, level, c0, s0, k, goal)
      ensures index < 0 ==> goal == BuddyTree.NotFound
      ensures index >= 0 ==>
        && h <= level && length == Pow2(h) && depth == level - h
        && Looking(t, was, index, h, level, c, s, k, goal)
        && Nodes(h) + Pending(c, h) <= Pending(c0, h0)
    {
      index, depth, length, h, c, s := index0, depth0, length0, h0, c0, s0;
      while true
        invariant 0 <= index && index % 2 == 0 && h <= level && length == Pow2(h) && depth == level - h
        invariant Leaving(t, was, index, h, level, c, s, k, goal) && Pending(c, h) == Pending(c0, h0)
        decreases level - h
      {
        c, s := GoUp(t, was, index, h, level, c, s, k, goal);
        depth := depth - 1;
        length := length * 2;
        index := (index + 1) / 2 - 1;
        if index < 0 {
          return;
        }
        h := h + 1;
        if index % 2 == 1 {
          c, s := GoRight(t, was, index, h, level, c, s, k, goal);
          index := index + 1;
          return;
        }
      }
    }

    // Splits a node into two unused halves.
    method Split(index: nat) returns (ghost t: seq<Tag>)
      requires 2 * index + 2 < tree.Length
      modifies tree
      ensures t == tree[..] == old(tree[..])[index := NodeSplit][2 * index + 1 := NodeUnused][2 * index + 2 := NodeUnused]
    {
      tree[index] := NodeSplit;
      tree[index * 2 + 1] := NodeUnused;
      tree[index * 2 + 2] := NodeUnused;
      t := tree[..];
    }

    // Takes an unused node of the right height.
    method Take(index: nat, depth: nat, ghost t: seq<Tag>, ghost was: seq<Tag>, ghost h: nat, ghost c: Ctx, ghost k: int,
                ghost goal: BuddyTree.Search) returns (r: Outcome)
      requires Looking(t, was, index, h, level, c, Unused, k, goal) && k == h <= level && depth == level - h && t == tree[..]
      modifies tree
      ensures goal.Found? && r == Returned(goal.offset) && Shows(tree[..], 0, level, goal.tree)
    {
      TakeHere(t, was, index, h, level, c, k, goal);
      tree[index] := NodeUsed;
      assert tree[..] == t[index := NodeUsed];
      MarkParent(index, h, c, Used);
      r := Returned(IndexOffset(index, depth, level));
    }

    // The search loop: it ends as the recursive search does, with its tree in the array or nothing changed. A
    // size that is the length of no node is searched for outside the array.
    method Search(size: int, ghost k: int) returns (r: Outcome)
      requires tree.Length == 2 * Pow2(level) - 1 && Shows(tree[..], 0, level, root)
      requires if k >= 0 then k <= level && size == Pow2(k) else k == -1 && size <= 0
      modifies tree
      ensures match BuddyTree.Alloc(root, level, k)
              case NotFound => r == Returned(-1) && tree[..] == old(tree[..])
              case Found(after, offset) => r == Returned(offset) && Shows(tree[..], 0, level, after)
              case Beyond => r.OutOfArray? && r.index >= tree.Length
    {
      var length, index, depth: int := Pow2(level), 0, 0;
      ghost var goal, was := BuddyTree.Alloc(root, level, k), tree[..];
      ghost var h, c, cur, t := level, Top, root, was;
      while index >= 0
        invariant 0 <= index && length == Pow2(h) && depth == level - h && t == tree[..]
        invariant Looking(t, was, index, h, level, c, cur, k, goal)
        decreases Nodes(h) + Pending(c, h)
      {
        Arrive(t, was, index, h, level, c, cur, k, goal);
        if k >= 0 { PowersCompare(h, k); }
        if size == length {
          if tree[index] == NodeUnused {
            r := Take(index, depth, t, was, h, c, k, goal);
            return r;
          }
        } else {
          if tree[index] == NodeUsed || tree[index] == NodeFull {
          } else {
            if h == 0 { FallOff(t, was, index, level, c, cur, k, goal); }
            if tree[index] == NodeUnused {
              if index * 2 + 1 >= tree.Length {
                return OutOfArray(index * 2 + 1);
              }
              SplitHere(t, was, index, h, level, c, k, goal);
              t := Split(index);
              cur := Branch(false, Unused, Unused);
            }
            h, c, cur := GoLeft(t, was, index, h, level, c, cur, k, goal);
            index := index * 2 + 1;
            length := length / 2;
            depth := depth + 1;
            continue;
          }
        }
        GiveUp(t, was, index, h, level, c, cur, k, goal);
        if index % 2 == 1 {
          c, cur := GoRight(t, was, index, h, level, c, cur, k, goal);
          index := index + 1;
          continue;
        }
        index, depth, length, h, c, cur := Backtrack(index, depth, length, t, was, h, c, cur, k, goal);
        if index < 0 {
          return Returned(-1);
        }
      }
      return Returned(-1);
    }

    // First fit: the lowest aligned range of the rounded size, or -1 when there is none, for requests of up to
    // 2^30 units. Above, the cast of the rounded size makes it negative or zero, and the search leaves the array
    // unless everything is taken.
    method Alloc(s: bv32) returns (r: Outcome)
      requires Valid()
      modifies this, tree
      ensures s <= 0x4000_0000 ==> Valid() && r.Returned? && FirstFitResult(old(Live()), s, r.r, tree[..] == old(tree[..]), Live())
      ensures s > 0x4000_0000 ==>
        if IsFull(old(root)) then r == Returned(-1) && Valid() && root == old(root) && tree[..] == old(tree[..])
        else r.OutOfArray? && r.index >= 2 * Pow2(level) - 1
    {
      var size: int;
      if s == 0 {
        size := 1;
      } else {
        size := Signed(NextPowOf2(s));
      }
      var length := Pow2(level);
      if s <= 0x4000_0000 { SizeInRange(s); } else { SizeOutOfRange(s); }
      if size > length {
        return Returned(-1);
      }
      ghost var k: int := -1;
      if s <= 0x4000_0000 {
        k := SizeForIsPower(s);
        PowersCompare(k, level);
        FirstFit(root, level, k);
        NeverBeyond(root, level, k);
      } else {
        AlwaysBeyond(root, level);
      }
      r := Search(size, k);
      ghost var found := BuddyTree.Alloc(root, level, k);
      if found.Found? {
        root := found.tree;
        assert Candidate(old(Live()), Pow2(level), SizeFor(s), found.offset);
      }
    }

    // The inner loop of combining: the full marks above a node, up to the first ancestor that has none.
    method ClearMarks(start: nat, ghost h0: nat, ghost c0: Ctx, ghost s0: Tree, ghost m0: Tree)
      requires tree.Length == 2 * Pow2(level) - 1
      requires Around(tree[..], start, h0, level, c0) && Shows(tree[..], start, h0, s0) && MarksFit(c0, m0)
      modifies tree
      ensures Shows(tree[..], 0, level, Plug(Clear(c0), s0))
    {
      ghost var k: nat, h, c, s, m, t := start, h0, c0, s0, m0, tree[..];
      LookUp(t, k, h, level, c);
      var index: int := (start + 1) / 2 - 1;
      while index >= 0 && tree[index] == NodeFull
        invariant index == Parent(k) && index < |t| && t == tree[..]
        invariant if index < 0 then c.Top? else c.Side? && (t[index] == NodeFull <==> c.full)
        invariant Around(t, k, h, level, c) && Shows(t, k, h, s) && MarksFit(c, m)
        invariant Plug(Clear(c), s) == Plug(Clear(c0), s0)
        decreases c
      {
        ClearUp(t, k, h, level, c, s);
        tree[index] := NodeSplit;
        t := t[index := NodeSplit];
        assert t == tree[..];
        k, h, c, s, m := index, h + 1, c.up, Both(c, s).(full := false), Both(c, m);
        LookUp(t, k, h, level, c);
        index := (index + 1) / 2 - 1;
      }
      ClearDone(t, k, h, level, c, s, m);
    }

    // A freed node and its buddy merge as long as both are unused; then the full marks above are cleared.
    method Combine(start: nat, ghost h0: nat, ghost c0: Ctx)
      requires tree.Length == 2 * Pow2(level) - 1
      requires Around(tree[..], start, h0, level, c0) && MarksFit(c0, Used)
      modifies tree
      ensures Shows(tree[..], 0, level, MeetAll(c0, Unused))
    {
      var index: int := start;
      ghost var h, c, m := h0, c0, Used;
      ghost var t := tree[..];
      while true
        invariant 0 <= index && t == tree[..]
        invariant Around(t, index, h, level, c) && MarksFit(c, m)
        invariant MeetAll(c, Unused) == MeetAll(c0, Unused)
        decreases c
      {
        var buddy := index - 1 + (index % 2) * 2;
        LookUp(t, index, h, level, c);
        if buddy < 0 || tree[buddy] != NodeUnused {
          MeetingStops(c, Unused);
          WriteBelow(t, index, h, level, c, index, NodeUnused);
          tree[index] := NodeUnused;
          t := t[index := NodeUnused];
          assert t == tree[..];
          ClearMarks(index, h, c, Unused, m);
          return;
        }
        MergeUp(t, index, h, level, c, m);
        index := (index + 1) / 2 - 1;
        h, c, m := h + 1, c.up, Both(c, m);
      }
    }

    // Releases the block that starts at offset, and only that block.
    method Free(offset: nat)
      requires Valid() && StartsBlock(Live(), offset)
      modifies this, tree
      ensures Valid()
      ensures root == Release(old(root), level, offset)
      ensures forall b :: b in Live() <==> b in old(Live()) && b.start != offset
    {
      ghost var b :| b in Live() && b.start == offset;
      BlockStarts(root, level, b);
      var left := 0;
      var length := Pow2(level);
      var index := 0;
      ghost var h, c, cur, t := level, Top, root, tree[..];
      while true
        invariant 0 <= index && 0 <= left && length == Pow2(h) && t == tree[..]
        invariant root == old(root) && Legal(root, level)
        invariant Holding(t, index, h, level, left, c, cur, b, root)
        decreases h
      {
        Reach(t, index, h, level, left, c, cur, b, root);
        if tree[index] == NodeUsed {
          Combine(index, h, c);
          ReleaseRemoves(root, level, 0, b);
          root := Release(root, level, offset);
          return;
        }
        h, c, cur := GoDown(t, index, h, level, left, c, cur, b, root);
        length := length / 2;
        if offset < left + length {
          index := index * 2 + 1;
        } else {
          left := left + length;
          index := index * 2 + 2;
        }
      }
    }

    // The size of the block that starts at offset.
    method Size(offset: nat) returns (size: nat)
      requires Valid() && StartsBlock(Live(), offset)
      ensures Block(offset, size) in Live()
    {
      ghost var b :| b in Live() && b.start == offset;
      var left := 0;
      var length := Pow2(level);
      var index := 0;
      ghost var h, c, cur, t := level, Top, root, tree[..];
      while true
        invariant 0 <= index && 0 <= left && length == Pow2(h)
        invariant Holding(t, index, h, level, left, c, cur, b, root)
        decreases h
      {
        Reach(t, index, h, level, left, c, cur, b, root);
        if tree[index] == NodeUsed {
          return length;
        }
        h, c, cur := GoDown(t, index, h, level, left, c, cur, b, root);
        length := length / 2;
        if offset < left + length {
          index := index * 2 + 1;
        } else {
          left := left + length;
          index := index * 2 + 2;
        }
      }
    }
  }

  function IndexOffset(index: int, level: nat, maxLevel: nat): int
    requires level <= maxLevel
  {
    (index + 1 - Pow2(level)) * Pow2(maxLevel - level)
  }
}
