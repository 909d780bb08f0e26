// The value a buddy allocator's byte array stands for: a binary tree cut off below every unused or used
// node, so bytes left behind by earlier splits do not matter. Allocation and release are given here as
// recursive functions on that tree, and compared with the set of live blocks.
module BuddyTree {
  import opened Powers

  datatype Tree = Unused | Used | Branch(full: bool, l: Tree, r: Tree)

  datatype Block = Block(start: nat, size: nat)

  // Beyond: the search has gone on below a leaf.
  datatype Search = NotFound | Found(tree: Tree, offset: nat) | Beyond

  // Nothing can be allocated below such a node.
  predicate IsFull(s: Tree) { s.Used? || (s.Branch? && s.full) }

  // The trees of height h the allocator can build: a branch is marked full exactly when both halves are,
  // and two unused halves are always merged.
  predicate Legal(s: Tree, h: nat) {
    s.Branch? ==>
      && h > 0
      && Legal(s.l, h - 1)
      && Legal(s.r, h - 1)
      && !(s.l.Unused? && s.r.Unused?)
      && s.full == (IsFull(s.l) && IsFull(s.r))
  }

  // The live blocks of a tree of height h whose leftmost unit is `left`.
  ghost function Blocks(s: Tree, h: nat, left: nat): set<Block>
    requires Legal(s, h)
  {
    match s
    case Unused => {}
    case Used => {Block(left, Pow2(h))}
    case Branch(_, l, r) => Blocks(l, h - 1, left) + Blocks(r, h - 1, left + Pow2(h - 1))
  }

  ghost predicate RangeFree(bs: set<Block>, o: nat, n: nat) {
    forall b :: b in bs ==> b.start + b.size <= o || o + n <= b.start
  }

  ghost predicate MultipleOf(o: nat, n: nat) {
    exists q: nat {:trigger q * n} :: o == q * n
  }

  ghost predicate Disjoint(bs: set<Block>) {
    forall b, c :: b in bs && c in bs && b != c ==> b.start + b.size <= c.start || c.start + c.size <= b.start
  }

  // ---------------------------------------------------------------- the operations on trees

  function Join(l: Tree, r: Tree): Tree { Branch(IsFull(l) && IsFull(r), l, r) }

  function Meet(l: Tree, r: Tree): Tree {
    if l.Unused? && r.Unused? then Unused else Branch(false, l, r)
  }

  // The search for a node of height k. A size that is the length of no node is searched for as height -1.
  function Alloc(s: Tree, h: nat, k: int): Search
    requires -1 <= k <= h
    decreases h, s.Unused?
  {
    if k == h then
      if s.Unused? then Found(Used, 0) else NotFound
    else if IsFull(s) then NotFound
    else if h == 0 then Beyond
    else
      match s
      case Unused => Alloc(Branch(false, Unused, Unused), h, k)
      case Branch(_, l, r) =>
        match Alloc(l, h - 1, k)
        case Found(l', o) => Found(Join(l', r), o)
        case NotFound => AllocRight(l, r, h, k)
        case Beyond => Beyond
  }

  function AllocRight(l: Tree, r: Tree, h: nat, k: int): Search
    requires -1 <= k < h && h > 0
    decreases h, false, 0
  {
    match Alloc(r, h - 1, k)
    case Found(r', o) => Found(Join(l, r'), o + Pow2(h - 1))
    case NotFound => NotFound
    case Beyond => Beyond
  }

  function Release(s: Tree, h: nat, o: nat): Tree {
    match s
    case Unused => Unused
    case Used => Unused
    case Branch(_, l, r) =>
      if h == 0 then s
      else if o < Pow2(h - 1) then Meet(Release(l, h - 1, o), r)
      else Meet(l, Release(r, h - 1, o - Pow2(h - 1)))
  }

  function ReleaseAll(s: Tree, h: nat, offsets: seq<nat>): Tree
    decreases |offsets|
  {
    if offsets == [] then s else ReleaseAll(Release(s, h, offsets[0]), h, offsets[1..])
  }

  // ---------------------------------------------------------------- live blocks

  // The halves a node has once it is split.
  function LeftHalf(s: Tree): Tree { if s.Branch? then s.l else Unused }

  function RightHalf(s: Tree): Tree { if s.Branch? then s.r else Unused }

  lemma {:induction false} BlocksWithin(s: Tree, h: nat, left: nat, b: Block)
    requires Legal(s, h) && b in Blocks(s, h, left)
    ensures left <= b.start && b.size > 0 && b.start + b.size <= left + Pow2(h)
    ensures s.Branch? ==> b.size < Pow2(h)
  {
    if s.Branch? {
      if b in Blocks(s.l, h - 1, left) {
        BlocksWithin(s.l, h - 1, left, b);
      } else {
        BlocksWithin(s.r, h - 1, left + Pow2(h - 1), b);
      }
    }
  }

  lemma {:induction false} Inhabited(s: Tree, h: nat, left: nat) returns (b: Block)
    requires Legal(s, h) && !s.Unused?
    ensures b in Blocks(s, h, left)
  {
    match s
    case Used => b := Block(left, Pow2(h));
    case Branch(_, l, r) =>
      if l.Unused? {
        b := Inhabited(r, h - 1, left + Pow2(h - 1));
      } else {
        b := Inhabited(l, h - 1, left);
      }
  }

  // A tree without live blocks is a single unused node.
  lemma NoBlocksIsUnused(s: Tree, h: nat, left: nat)
    requires Legal(s, h)
    ensures Blocks(s, h, left) == {} <==> s == Unused
  {
    if !s.Unused? {
      var b := Inhabited(s, h, left);
    }
  }

  lemma {:induction false} FullCovers(s: Tree, h: nat, left: nat, x: nat) returns (b: Block)
    requires Legal(s, h) && IsFull(s) && left <= x < left + Pow2(h)
    ensures b in Blocks(s, h, left) && b.start <= x < b.start + b.size
  {
    match s
    case Used => b := Block(left, Pow2(h));
    case Branch(_, l, r) =>
      if x < left + Pow2(h - 1) {
        b := FullCovers(l, h - 1, left, x);
      } else {
        b := FullCovers(r, h - 1, left + Pow2(h - 1), x);
      }
  }

  lemma HalvesApart(l: Tree, r: Tree, h: nat, left: nat)
    requires h > 0 && Legal(l, h - 1) && Legal(r, h - 1)
    ensures forall b :: b in Blocks(l, h - 1, left) ==>
      b.size > 0 && left <= b.start && b.start + b.size <= left + Pow2(h - 1)
    ensures forall b :: b in Blocks(r, h - 1, left + Pow2(h - 1)) ==>
      b.size > 0 && left + Pow2(h - 1) <= b.start
  {
    var g, mid := h - 1, left + Pow2(h - 1);
    forall b | b in Blocks(l, g, left) ensures b.size > 0 && left <= b.start && b.start + b.size <= mid {
      BlocksWithin(l, g, left, b);
    }
    forall b | b in Blocks(r, g, mid) ensures b.size > 0 && mid <= b.start {
      BlocksWithin(r, g, mid, b);
    }
  }

  lemma {:induction false} BlocksAreDisjoint(s: Tree, h: nat, left: nat)
    requires Legal(s, h)
    ensures Disjoint(Blocks(s, h, left))
  {
    if s.Branch? {
      BlocksAreDisjoint(s.l, h - 1, left);
      BlocksAreDisjoint(s.r, h - 1, left + Pow2(h - 1));
      HalvesApart(s.l, s.r, h, left);
    }
  }

  lemma {:induction false} Pow2Divides(k: nat, h: nat) returns (q: nat)
    requires k <= h
    ensures Pow2(h) == q * Pow2(k) && q > 0
  {
    if k == h {
      q := 1;
    } else {
      var p := Pow2Divides(k, h - 1);
      q := 2 * p;
      assert Pow2(h) == 2 * (p * Pow2(k)) == q * Pow2(k);
    }
  }

  lemma AddAligned(x: nat, k: nat, h: nat)
    requires k <= h
    ensures MultipleOf(x + Pow2(h), Pow2(k)) <==> MultipleOf(x, Pow2(k))
  {
    var m := Pow2Divides(k, h);
    var n := Pow2(k);
    if MultipleOf(x, n) {
      var q: nat :| x == q * n;
      assert x + Pow2(h) == (q + m) * n;
    }
    if MultipleOf(x + Pow2(h), n) {
      var q: nat :| x + Pow2(h) == q * n;
      if q < m { LessTimes(q, m, n); }
      assert x == (q - m) * n;
    }
  }

  // An aligned range lies in one half of a larger aligned range.
  lemma InOneHalf(o: nat, k: nat, h: nat)
    requires k <= h && MultipleOf(o, Pow2(k))
    ensures o + Pow2(k) <= Pow2(h) || Pow2(h) <= o
  {
    var m := Pow2Divides(k, h);
    var q: nat :| o == q * Pow2(k);
    if q < m {
      LessTimes(q, m, Pow2(k));
    } else if m < q {
      LessTimes(m, q, Pow2(k));
    }
  }

  // Every live block has a power of two as its size and starts at a multiple of it.
  lemma {:induction false} BlocksAreAligned(s: Tree, h: nat, left: nat, b: Block) returns (k: nat)
    requires Legal(s, h) && b in Blocks(s, h, left)
    requires MultipleOf(left, Pow2(h))
    ensures k <= h && b.size == Pow2(k) && MultipleOf(b.start, Pow2(k))
  {
    match s
    case Used => k := h;
    case Branch(_, l, r) =>
      var q: nat :| left == q * Pow2(h);
      assert left == (2 * q) * Pow2(h - 1);
      if b in Blocks(l, h - 1, left) {
        k := BlocksAreAligned(l, h - 1, left, b);
      } else {
        assert left + Pow2(h - 1) == (2 * q + 1) * Pow2(h - 1);
        k := BlocksAreAligned(r, h - 1, left + Pow2(h - 1), b);
      }
  }

  // ---------------------------------------------------------------- the tree is determined by its blocks

  lemma {:induction false} Canonical(s: Tree, u: Tree, h: nat, left: nat)
    requires Legal(s, h) && Legal(u, h)
    requires Blocks(s, h, left) == Blocks(u, h, left)
    ensures s == u
  {
    NoBlocksIsUnused(s, h, left);
    NoBlocksIsUnused(u, h, left);
    if s.Branch? && u.Branch? {
      var mid := left + Pow2(h - 1);
      HalvesOfBlocks(s, u, h, left);
      HalvesOfBlocks(u, s, h, left);
      Canonical(s.l, u.l, h - 1, left);
      Canonical(s.r, u.r, h - 1, mid);
    } else if s.Used? && u.Branch? {
      BlocksWithin(u, h, left, Block(left, Pow2(h)));
    } else if s.Branch? && u.Used? {
      BlocksWithin(s, h, left, Block(left, Pow2(h)));
    }
  }

  lemma SplitAt(a: set<Block>, b: set<Block>, c: set<Block>, d: set<Block>, mid: nat)
    requires a + b <= c + d
    requires forall x :: x in a || x in c ==> x.size > 0 && x.start + x.size <= mid
    requires forall x :: x in b || x in d ==> mid <= x.start
    ensures a <= c && b <= d
  {
    forall x | x in a ensures x in c {
      assert x in a + b;
    }
    forall x | x in b ensures x in d {
      assert x in a + b;
    }
  }

  lemma HalvesOfBlocks(s: Tree, u: Tree, h: nat, left: nat)
    requires Legal(s, h) && Legal(u, h) && s.Branch? && u.Branch?
    requires Blocks(s, h, left) <= Blocks(u, h, left)
    ensures Blocks(s.l, h - 1, left) <= Blocks(u.l, h - 1, left)
    ensures Blocks(s.r, h - 1, left + Pow2(h - 1)) <= Blocks(u.r, h - 1, left + Pow2(h - 1))
  {
    var g, mid := h - 1, left + Pow2(h - 1);
    HalvesApart(s.l, s.r, h, left);
    HalvesApart(u.l, u.r, h, left);
    SplitAt(Blocks(s.l, g, left), Blocks(s.r, g, mid), Blocks(u.l, g, left), Blocks(u.r, g, mid), mid);
  }

  // ---------------------------------------------------------------- allocation

  // The outcome of a successful search in a tree of height h whose leftmost unit is `left`.
  ghost predicate Takes(s: Tree, h: nat, left: nat, k: nat, f: Search)
    requires Legal(s, h)
  {
    && f.Found? && Legal(f.tree, h) && !f.tree.Unused?
    && f.offset + Pow2(k) <= Pow2(h) && MultipleOf(f.offset, Pow2(k))
    && Blocks(f.tree, h, left) == Blocks(s, h, left) + {Block(left + f.offset, Pow2(k))}
    && RangeFree(Blocks(s, h, left), left + f.offset, Pow2(k))
  }

  lemma TakesOnLeft(l: Tree, r: Tree, h: nat, left: nat, k: nat, f: Search)
    requires k < h && Legal(l, h - 1) && Legal(r, h - 1) && Takes(l, h - 1, left, k, f)
    ensures Legal(Join(f.tree, r), h)
    ensures Blocks(Join(f.tree, r), h, left)
         == Blocks(l, h - 1, left) + Blocks(r, h - 1, left + Pow2(h - 1)) + {Block(left + f.offset, Pow2(k))}
    ensures RangeFree(Blocks(l, h - 1, left) + Blocks(r, h - 1, left + Pow2(h - 1)), left + f.offset, Pow2(k))
  {
    HalvesApart(l, r, h, left);
  }

  lemma TakesOnRight(l: Tree, r: Tree, h: nat, left: nat, k: nat, f: Search)
    requires k < h && Legal(l, h - 1) && Legal(r, h - 1) && Takes(r, h - 1, left + Pow2(h - 1), k, f)
    ensures Legal(Join(l, f.tree), h)
    ensures MultipleOf(f.offset + Pow2(h - 1), Pow2(k))
    ensures var b := Block(left + Pow2(h - 1) + f.offset, Pow2(k));
      && Blocks(Join(l, f.tree), h, left) == Blocks(l, h - 1, left) + Blocks(r, h - 1, left + Pow2(h - 1)) + {b}
      && RangeFree(Blocks(l, h - 1, left) + Blocks(r, h - 1, left + Pow2(h - 1)), b.start, b.size)
  {
    HalvesApart(l, r, h, left);
    AddAligned(f.offset, k, h - 1);
  }

  // One level of the search: the left half first, and the right half only when that fails.
  lemma AllocByHalves(s: Tree, h: nat, k: int)
    requires -1 <= k < h && h > 0 && Legal(s, h)
    ensures IsFull(s) ==> Alloc(s, h, k) == NotFound
    ensures !IsFull(s) ==>
      Alloc(s, h, k) == match Alloc(LeftHalf(s), h - 1, k)
                        case Found(l', o) => Found(Join(l', RightHalf(s)), o)
                        case NotFound => AllocRight(LeftHalf(s), RightHalf(s), h, k)
                        case Beyond => Beyond
  {
    if s.Unused? {
      assert Alloc(s, h, k) == Alloc(Branch(false, Unused, Unused), h, k);
    }
  }

  // What is taken in one half is taken in the whole tree.
  lemma LeftTakes(s: Tree, h: nat, left: nat, k: nat, f: Search)
    requires k < h && Legal(s, h) && !IsFull(s) && Takes(LeftHalf(s), h - 1, left, k, f)
    ensures Takes(s, h, left, k, Found(Join(f.tree, RightHalf(s)), f.offset))
  {
    assert Blocks(s, h, left) == Blocks(LeftHalf(s), h - 1, left) + Blocks(RightHalf(s), h - 1, left + Pow2(h - 1));
    TakesOnLeft(LeftHalf(s), RightHalf(s), h, left, k, f);
  }

  lemma RightTakes(s: Tree, h: nat, left: nat, k: nat, f: Search)
    requires k < h && Legal(s, h) && !IsFull(s) && Takes(RightHalf(s), h - 1, left + Pow2(h - 1), k, f)
    ensures Takes(s, h, left, k, Found(Join(LeftHalf(s), f.tree), Pow2(h - 1) + f.offset))
  {
    assert Blocks(s, h, left) == Blocks(LeftHalf(s), h - 1, left) + Blocks(RightHalf(s), h - 1, left + Pow2(h - 1));
    TakesOnRight(LeftHalf(s), RightHalf(s), h, left, k, f);
  }

  lemma {:induction false} AllocTakes(s: Tree, h: nat, left: nat, k: nat)
    requires k <= h && Legal(s, h) && Alloc(s, h, k).Found?
    ensures Takes(s, h, left, k, Alloc(s, h, k))
    decreases h
  {
    if k < h {
      var l, r := LeftHalf(s), RightHalf(s);
      AllocByHalves(s, h, k);
      NeverBeyond(l, h - 1, k);
      if Alloc(l, h - 1, k).Found? {
        AllocTakes(l, h - 1, left, k);
        LeftTakes(s, h, left, k, Alloc(l, h - 1, k));
      } else {
        AllocTakes(r, h - 1, left + Pow2(h - 1), k);
        RightTakes(s, h, left, k, Alloc(r, h - 1, k));
      }
    } else {
      assert 0 == 0 * Pow2(k);
    }
  }

  // A search for the size of some node stays inside the tree.
  lemma {:induction false} NeverBeyond(s: Tree, h: nat, k: nat)
    requires k <= h && Legal(s, h)
    ensures !Alloc(s, h, k).Beyond?
    decreases h
  {
    if k < h {
      AllocByHalves(s, h, k);
      NeverBeyond(LeftHalf(s), h - 1, k);
      NeverBeyond(RightHalf(s), h - 1, k);
    }
  }

  // Any other size is searched for below the leaves, unless the whole tree is taken.
  lemma {:induction false} AlwaysBeyond(s: Tree, h: nat)
    requires Legal(s, h)
    ensures Alloc(s, h, -1) == if IsFull(s) then NotFound else Beyond
    decreases h
  {
    if h > 0 {
      AllocByHalves(s, h, -1);
      AlwaysBeyond(LeftHalf(s), h - 1);
      AlwaysBeyond(RightHalf(s), h - 1);
    }
  }

  // No aligned free range lies below the one allocation finds; in particular there is none when it fails.
  lemma {:induction false} AllocLowest(s: Tree, h: nat, left: nat, k: nat, o: nat)
    requires k <= h && Legal(s, h)
    requires MultipleOf(o, Pow2(k)) && o + Pow2(k) <= Pow2(h) && RangeFree(Blocks(s, h, left), left + o, Pow2(k))
    ensures Alloc(s, h, k).Found? && Alloc(s, h, k).offset <= o
    decreases h
  {
    if k == h {
      assert o == 0;
      if !s.Unused? {
        var b := Inhabited(s, h, left);
        BlocksWithin(s, h, left, b);
      }
    } else if IsFull(s) {
      var b := FullCovers(s, h, left, left + o);
    } else {
      var l, r := LeftHalf(s), RightHalf(s);
      AllocByHalves(s, h, k);
      NeverBeyond(l, h - 1, k);
      InOneHalf(o, k, h - 1);
      if o < Pow2(h - 1) {
        AllocLowest(l, h - 1, left, k, o);
      } else {
        if Alloc(l, h - 1, k).Found? {
          AllocTakes(l, h - 1, left, k);
        } else {
          AddAligned(o - Pow2(h - 1), k, h - 1);
          AllocLowest(r, h - 1, left + Pow2(h - 1), k, o - Pow2(h - 1));
        }
      }
    }
  }

  // ---------------------------------------------------------------- release

  lemma {:induction false} ReleaseRemoves(s: Tree, h: nat, left: nat, b: Block)
    requires Legal(s, h) && b in Blocks(s, h, left)
    ensures left <= b.start
    ensures var u := Release(s, h, b.start - left);
      && Legal(u, h) && !IsFull(u)
      && Blocks(u, h, left) == Blocks(s, h, left) - {b}
  {
    BlocksWithin(s, h, left, b);
    if s.Branch? {
      var mid := left + Pow2(h - 1);
      HalvesApart(s.l, s.r, h, left);
      if b in Blocks(s.l, h - 1, left) {
        ReleaseRemoves(s.l, h - 1, left, b);
      } else {
        ReleaseRemoves(s.r, h - 1, mid, b);
      }
    }
  }

  // Releasing what was just allocated gives back the same tree.
  lemma AllocThenRelease(s: Tree, h: nat, k: nat)
    requires k <= h && Legal(s, h) && Alloc(s, h, k).Found?
    ensures var f := Alloc(s, h, k); Release(f.tree, h, f.offset) == s
  {
    var f := Alloc(s, h, k);
    var b := Block(f.offset, Pow2(k));
    AllocTakes(s, h, 0, k);
    ReleaseRemoves(f.tree, h, 0, b);
    assert b !in Blocks(s, h, 0);
    assert Blocks(Release(f.tree, h, f.offset), h, 0) == Blocks(s, h, 0);
    Canonical(Release(f.tree, h, f.offset), s, h, 0);
  }

  ghost predicate StartsBlock(bs: set<Block>, o: nat) { exists b :: b in bs && b.start == o }

  // Releasing every live block once, in whatever order, leaves one unused node.
  lemma {:induction false} ReleaseEvery(s: Tree, h: nat, offsets: seq<nat>)
    requires Legal(s, h)
    requires forall i, j :: 0 <= i < j < |offsets| ==> offsets[i] != offsets[j]
    requires forall o :: o in offsets <==> StartsBlock(Blocks(s, h, 0), o)
    ensures ReleaseAll(s, h, offsets) == Unused
    decreases |offsets|
  {
    if offsets == [] {
      if !s.Unused? {
        var b := Inhabited(s, h, 0);
        assert StartsBlock(Blocks(s, h, 0), b.start);
      }
    } else {
      assert offsets[0] in offsets;
      var b :| b in Blocks(s, h, 0) && b.start == offsets[0];
      ReleaseRemoves(s, h, 0, b);
      var u := Release(s, h, offsets[0]);
      BlocksAreDisjoint(s, h, 0);
      forall c | c in Blocks(s, h, 0) && c != b ensures c.start != b.start {
        BlocksWithin(s, h, 0, b);
        BlocksWithin(s, h, 0, c);
      }
      var rest := offsets[1..];
      forall o | o in rest ensures StartsBlock(Blocks(u, h, 0), o) {
        var i :| 0 < i < |offsets| && offsets[i] == o;
        assert StartsBlock(Blocks(s, h, 0), o);
        var c :| c in Blocks(s, h, 0) && c.start == o;
        assert c in Blocks(u, h, 0);
      }
      forall o | StartsBlock(Blocks(u, h, 0), o) ensures o in rest {
        assert StartsBlock(Blocks(s, h, 0), o);
        assert o in offsets && o != offsets[0];
      }
      ReleaseEvery(u, h, rest);
    }
  }
}
