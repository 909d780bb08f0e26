// Control-flow graphs with transaction begins and commits, and which transactions are open along a path.
module TxnPaths {

  type Block = nat

  // Block 0 is the entry. Begins and commits have blocks of their own, and the entry is neither.
  datatype Cfg = Cfg(succ: seq<seq<Block>>, begins: set<Block>, commits: set<Block>, exits: set<Block>) {
    ghost predicate Valid() {
      && |succ| > 0
      && (forall b, i :: 0 <= b < |succ| && 0 <= i < |succ[b]| ==> succ[b][i] < |succ|)
      && begins !! commits && 0 !in begins && 0 !in commits
    }

    predicate Edge(b: Block, c: Block) { b < |succ| && c in succ[b] }
  }

  predicate Path(g: Cfg, p: seq<Block>)
    decreases |p|
  {
    if |p| <= 1 then p == [0] && |g.succ| > 0 else
    var last := |p| - 1;
    Path(g, p[..last]) && g.Edge(p[last - 1], p[last])
  }

  // Leaving a commit block closes the innermost open transaction, if there is one.
  function Closed(g: Cfg, open: seq<Block>, b: Block): seq<Block> {
    if b in g.commits && open != [] then open[..|open| - 1] else open
  }

  // The begins of the transactions open in the last block of a path, outermost first.
  function Open(g: Cfg, p: seq<Block>): seq<Block> {
    if |p| <= 1 then [] else
    var last := |p| - 1;
    var before := Closed(g, Open(g, p[..last]), p[last - 1]);
    if p[last] in g.begins then before + [p[last]] else before
  }

  // The two paths end in the same block with different transactions open.
  ghost predicate Conflict(g: Cfg, p: seq<Block>, q: seq<Block>) {
    Path(g, p) && Path(g, q) && p[|p| - 1] == q[|q| - 1] && Open(g, p) != Open(g, q)
  }

  ghost predicate Ambiguous(g: Cfg) { exists p, q :: Conflict(g, p, q) }

  // The path ends in a block that returns, with a transaction open.
  ghost predicate EndsOpen(g: Cfg, p: seq<Block>) {
    Path(g, p) && p[|p| - 1] in g.exits && Open(g, p) != []
  }

  ghost predicate ReturnsInside(g: Cfg) { exists p :: EndsOpen(g, p) }

  lemma ShorterPath(g: Cfg, p: seq<Block>) returns (q: seq<Block>, b: Block, c: Block)
    requires Path(g, p) && |p| > 1
    ensures p == q + [c] && q != [] && q[|q| - 1] == b && Path(g, q) && g.Edge(b, c)
  {
    q, b, c := p[..|p| - 1], p[|p| - 2], p[|p| - 1];
  }

  lemma LongerPath(g: Cfg, p: seq<Block>, c: Block)
    requires Path(g, p) && g.Edge(p[|p| - 1], c)
    ensures Path(g, p + [c])
    ensures Open(g, p + [c]) ==
      var before := Closed(g, Open(g, p), p[|p| - 1]);
      if c in g.begins then before + [c] else before
  {
    var r := p + [c];
    assert r[..|r| - 1] == p && r[|r| - 1] == c && r[|r| - 2] == p[|p| - 1];
  }
}
