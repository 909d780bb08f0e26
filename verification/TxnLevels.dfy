// The analysis that finds out, block by block, which transaction a function is in: a work list over the
// control-flow graph that records a transaction for each block it meets and checks the blocks it meets again.
module TxnLevels {
  import opened TxnPaths

  // A transaction in the list of the function's transactions, or none.
  datatype Ref = Null | T(i: nat)

  datatype Txn = Txn(begin: Block, parent: Ref, level: nat)

  datatype BBProp = BBProp(txn: Ref, isBegin: bool, isCommit: bool)

  // Transactions only have parents that were added before them, one level up.
  ghost predicate TxnsOk(txns: seq<Txn>) {
    && (forall i {:trigger txns[i].parent} :: 0 <= i < |txns| ==>
          match txns[i].parent
          case Null => txns[i].level == 0
          case T(j) => j < i && txns[i].level == txns[j].level + 1)
    && (forall i, j :: 0 <= i < j < |txns| ==> txns[i].begin != txns[j].begin)
  }

  predicate Known(txns: seq<Txn>, t: Ref) { t.T? ==> t.i < |txns| }

  // The begins of a transaction and of those around it, outermost first.
  function Chain(txns: seq<Txn>, t: Ref): seq<Block>
    decreases if t.T? then t.i + 1 else 0
  {
    if t.Null? || t.i >= |txns| then [] else
    var p := txns[t.i].parent;
    (if p.T? && p.i < t.i then Chain(txns, p) else []) + [txns[t.i].begin]
  }

  lemma {:induction false} ChainLevel(txns: seq<Txn>, t: Ref)
    requires TxnsOk(txns) && Known(txns, t)
    ensures t.Null? ==> Chain(txns, t) == []
    ensures t.T? ==> |Chain(txns, t)| == txns[t.i].level + 1
    ensures t.T? ==> Chain(txns, t) == Chain(txns, txns[t.i].parent) + [txns[t.i].begin]
    decreases if t.T? then t.i + 1 else 0
  {
    if t.T? {
      ChainLevel(txns, txns[t.i].parent);
    }
  }

  // Different transactions have different chains.
  lemma ChainsDiffer(txns: seq<Txn>, t: Ref, u: Ref)
    requires TxnsOk(txns) && Known(txns, t) && Known(txns, u) && t != u
    ensures Chain(txns, t) != Chain(txns, u)
  {
    ChainLevel(txns, t);
    ChainLevel(txns, u);
    if t.T? && u.T? {
      var c, d := Chain(txns, t), Chain(txns, u);
      assert c[|c| - 1] == txns[t.i].begin && d[|d| - 1] == txns[u.i].begin;
    }
  }

  lemma {:induction false} ChainKept(txns: seq<Txn>, x: Txn, t: Ref)
    requires Known(txns, t)
    ensures Chain(txns + [x], t) == Chain(txns, t)
    decreases if t.T? then t.i + 1 else 0
  {
    if t.T? {
      var p := txns[t.i].parent;
      if p.T? && p.i < t.i {
        ChainKept(txns, x, p);
      }
    }
  }

  // The transaction the successors of a block are in.
  function Leave(txns: seq<Txn>, prop: BBProp): Ref {
    if prop.isCommit && prop.txn.T? && prop.txn.i < |txns| then txns[prop.txn.i].parent else prop.txn
  }

  // What the record of a successor says about the transaction its predecessors have to be in.
  function Expected(txns: seq<Txn>, prop: BBProp): Ref {
    if prop.isBegin && prop.txn.T? && prop.txn.i < |txns| then txns[prop.txn.i].parent else prop.txn
  }

  type Props = map<Block, BBProp>

  // The record of a block fits what kind of block it is.
  ghost predicate PropOk(g: Cfg, txns: seq<Txn>, b: Block, prop: BBProp) {
    && Known(txns, prop.txn)
    && (prop.isBegin <==> b in g.begins)
    && (prop.isBegin ==> prop.txn.T? && txns[prop.txn.i].begin == b)
    && (prop.isCommit ==> b in g.commits && prop.txn.T?)
    && (b in g.commits && !prop.isCommit ==> prop.txn == Null)
  }

  // Some path leads to the block, with exactly the recorded transactions open.
  ghost predicate Witnessed(g: Cfg, txns: seq<Txn>, b: Block, prop: BBProp) {
    exists p :: Leads(g, txns, b, prop, p)
  }

  ghost predicate Leads(g: Cfg, txns: seq<Txn>, b: Block, prop: BBProp, p: seq<Block>) {
    Path(g, p) && p[|p| - 1] == b && Open(g, p) == Chain(txns, prop.txn)
  }

  predicate BeginMet(txns: seq<Txn>, props: Props, i: nat)
    requires i < |txns|
  {
    txns[i].begin in props
  }

  ghost predicate RecordsOk(g: Cfg, txns: seq<Txn>, props: Props) {
    && TxnsOk(txns)
    && (forall b :: b in props ==> b < |g.succ| && PropOk(g, txns, b, props[b]) && Witnessed(g, txns, b, props[b]))
    && (forall i :: 0 <= i < |txns| ==> BeginMet(txns, props, i))
  }

  ghost predicate EdgeOk(txns: seq<Txn>, props: Props, b: Block, c: Block) {
    b in props && c in props && Leave(txns, props[b]) == Expected(txns, props[c])
  }

  // Every successor of b has a fitting record, and b does not return inside a transaction.
  ghost predicate BlockOk(g: Cfg, txns: seq<Txn>, props: Props, b: Block) {
    && b in props
    && (forall c :: g.Edge(b, c) ==> EdgeOk(txns, props, b, c))
    && (b in g.exits ==> props[b].txn == Null)
  }

  // ---------------------------------------------------------------- records that fit describe every path

  lemma LeaveClosed(g: Cfg, txns: seq<Txn>, b: Block, prop: BBProp)
    requires TxnsOk(txns) && PropOk(g, txns, b, prop)
    ensures Known(txns, Leave(txns, prop))
    ensures Closed(g, Chain(txns, prop.txn), b) == Chain(txns, Leave(txns, prop))
  {
    ChainLevel(txns, prop.txn);
    ChainLevel(txns, Leave(txns, prop));
    if prop.isCommit {
      var c := Chain(txns, prop.txn);
      assert c[..|c| - 1] == Chain(txns, txns[prop.txn.i].parent);
    }
  }

  lemma ExpectedChain(g: Cfg, txns: seq<Txn>, c: Block, prop: BBProp)
    requires TxnsOk(txns) && PropOk(g, txns, c, prop)
    ensures Known(txns, Expected(txns, prop))
    ensures Chain(txns, prop.txn) ==
      if c in g.begins then Chain(txns, Expected(txns, prop)) + [c] else Chain(txns, Expected(txns, prop))
  {
    ChainLevel(txns, prop.txn);
  }

  // One more block on a path whose open transactions are recorded.
  lemma OpenAfter(g: Cfg, txns: seq<Txn>, b: Block, prop: BBProp, p: seq<Block>, c: Block)
    requires TxnsOk(txns) && PropOk(g, txns, b, prop) && g.Edge(b, c)
    requires Path(g, p) && p[|p| - 1] == b && Open(g, p) == Chain(txns, prop.txn)
    ensures Path(g, p + [c])
    ensures Open(g, p + [c]) ==
      if c in g.begins then Chain(txns, Leave(txns, prop)) + [c] else Chain(txns, Leave(txns, prop))
  {
    LongerPath(g, p, c);
    LeaveClosed(g, txns, b, prop);
  }

  lemma PathMatchesOnce(g: Cfg, txns: seq<Txn>, b: Block, before: BBProp, p: seq<Block>, c: Block, prop: BBProp)
    requires TxnsOk(txns) && PropOk(g, txns, b, before) && PropOk(g, txns, c, prop) && g.Edge(b, c)
    requires Path(g, p) && p[|p| - 1] == b && Open(g, p) == Chain(txns, before.txn)
    requires Leave(txns, before) == Expected(txns, prop)
    ensures Open(g, p + [c]) == Chain(txns, prop.txn)
  {
    OpenAfter(g, txns, b, before, p, c);
    ExpectedChain(g, txns, c, prop);
  }

  ghost predicate MatchesRecord(g: Cfg, txns: seq<Txn>, props: Props, p: seq<Block>)
    requires p != []
  {
    p[|p| - 1] in props && Open(g, p) == Chain(txns, props[p[|p| - 1]].txn)
  }

  lemma {:induction false} PathsMatch(g: Cfg, txns: seq<Txn>, props: Props, p: seq<Block>)
    requires RecordsOk(g, txns, props) && 0 in props && props[0] == BBProp(Null, false, false)
    requires forall b :: b in props ==> BlockOk(g, txns, props, b)
    requires Path(g, p)
    ensures MatchesRecord(g, txns, props, p)
    decreases |p|
  {
    if |p| > 1 {
      var q, b, c := ShorterPath(g, p);
      PathsMatch(g, txns, props, q);
      RecordFits(g, txns, props, b, c);
      PathMatchesOnce(g, txns, b, props[b], q, c, props[c]);
    }
  }

  lemma RecordFits(g: Cfg, txns: seq<Txn>, props: Props, b: Block, c: Block)
    requires RecordsOk(g, txns, props) && b in props && BlockOk(g, txns, props, b) && g.Edge(b, c)
    ensures c in props && PropOk(g, txns, b, props[b]) && PropOk(g, txns, c, props[c])
    ensures Leave(txns, props[b]) == Expected(txns, props[c])
  {
    assert EdgeOk(txns, props, b, c);
  }

  // ---------------------------------------------------------------- a record that does not fit is a real conflict

  lemma DifferentPaths(g: Cfg, txns: seq<Txn>, b: Block, before: BBProp, p: seq<Block>, c: Block, prop: BBProp, q: seq<Block>)
    requires TxnsOk(txns) && PropOk(g, txns, b, before) && PropOk(g, txns, c, prop) && g.Edge(b, c)
    requires Path(g, p) && p[|p| - 1] == b && Open(g, p) == Chain(txns, before.txn)
    requires Path(g, q) && q[|q| - 1] == c && Open(g, q) == Chain(txns, prop.txn)
    requires Leave(txns, before) != Expected(txns, prop)
    ensures Ambiguous(g)
  {
    OpenAfter(g, txns, b, before, p, c);
    ChainsSplit(g, txns, b, before, c, prop);
    IsConflict(g, p + [c], q, c);
  }

  lemma IsConflict(g: Cfg, p: seq<Block>, q: seq<Block>, c: Block)
    requires Path(g, p) && Path(g, q) && p[|p| - 1] == q[|q| - 1] == c && Open(g, p) != Open(g, q)
    ensures Ambiguous(g)
  {
    assert Conflict(g, p, q);
  }

  lemma ChainsSplit(g: Cfg, txns: seq<Txn>, b: Block, before: BBProp, c: Block, prop: BBProp)
    requires TxnsOk(txns) && PropOk(g, txns, b, before) && PropOk(g, txns, c, prop)
    requires Leave(txns, before) != Expected(txns, prop)
    ensures Chain(txns, prop.txn) !=
      if c in g.begins then Chain(txns, Leave(txns, before)) + [c] else Chain(txns, Leave(txns, before))
  {
    LeaveClosed(g, txns, b, before);
    ExpectedChain(g, txns, c, prop);
    ChainsDiffer(txns, Leave(txns, before), Expected(txns, prop));
    SnocDiffers(Chain(txns, Leave(txns, before)), Chain(txns, Expected(txns, prop)), c);
  }

  lemma SnocDiffers(a: seq<Block>, b: seq<Block>, c: Block)
    requires a != b
    ensures a + [c] != b + [c]
  {
    assert (a + [c])[..|a + [c]| - 1] == a && (b + [c])[..|b + [c]| - 1] == b;
  }

  lemma MismatchIsAmbiguous(g: Cfg, txns: seq<Txn>, props: Props, b: Block, c: Block)
    requires RecordsOk(g, txns, props) && b in props && c in props && g.Edge(b, c)
    requires Leave(txns, props[b]) != Expected(txns, props[c])
    ensures Ambiguous(g)
  {
    assert Witnessed(g, txns, b, props[b]) && Witnessed(g, txns, c, props[c]);
    var p :| Leads(g, txns, b, props[b], p);
    var q :| Leads(g, txns, c, props[c], q);
    DifferentPaths(g, txns, b, props[b], p, c, props[c], q);
  }

  lemma ReturnIsInside(g: Cfg, txns: seq<Txn>, props: Props, b: Block)
    requires RecordsOk(g, txns, props) && b in props && b in g.exits && props[b].txn.T?
    ensures ReturnsInside(g)
  {
    var p :| Leads(g, txns, b, props[b], p);
    ChainLevel(txns, props[b].txn);
    assert EndsOpen(g, p);
  }

  // ---------------------------------------------------------------- recording a block met for the first time

  function LevelUnder(txns: seq<Txn>, parent: Ref): nat {
    if parent.T? && parent.i < |txns| then txns[parent.i].level + 1 else 0
  }

  function NewTxns(g: Cfg, txns: seq<Txn>, t: Ref, c: Block): seq<Txn> {
    if c in g.begins then txns + [Txn(c, t, LevelUnder(txns, t))] else txns
  }

  function NewProp(g: Cfg, txns: seq<Txn>, t: Ref, c: Block): BBProp {
    if c in g.begins then BBProp(T(|txns|), true, false)
    else if c in g.commits then (if t.Null? then BBProp(Null, false, false) else BBProp(t, false, true))
    else BBProp(t, false, false)
  }

  // The transactions around a known one do not change when another is added.
  lemma RecordsKept(g: Cfg, txns: seq<Txn>, props: Props, x: Txn)
    requires RecordsOk(g, txns, props) && x.begin !in props
    requires Known(txns, x.parent) && x.level == LevelUnder(txns, x.parent)
    ensures TxnsOk(txns + [x])
    ensures forall b :: b in props ==> PropOk(g, txns + [x], b, props[b]) && Witnessed(g, txns + [x], b, props[b])
  {
    forall i | 0 <= i < |txns| ensures txns[i].begin != x.begin {
      assert BeginMet(txns, props, i);
    }
    forall b | b in props ensures PropOk(g, txns + [x], b, props[b]) && Witnessed(g, txns + [x], b, props[b]) {
      ChainKept(txns, x, props[b].txn);
      var p :| Leads(g, txns, b, props[b], p);
      assert Leads(g, txns + [x], b, props[b], p);
    }
  }

  // The transactions around a block met for the first time, when its predecessor leaves it in t.
  lemma NewChain(g: Cfg, txns: seq<Txn>, t: Ref, c: Block)
    requires Known(txns, t) && TxnsOk(NewTxns(g, txns, t, c))
    ensures Chain(NewTxns(g, txns, t, c), NewProp(g, txns, t, c).txn)
         == if c in g.begins then Chain(txns, t) + [c] else Chain(txns, t)
  {
    if c in g.begins {
      var x := Txn(c, t, LevelUnder(txns, t));
      ChainKept(txns, x, t);
      ChainLevel(txns + [x], T(|txns|));
    }
  }

  lemma NewFits(g: Cfg, txns: seq<Txn>, props: Props, t: Ref, c: Block)
    requires g.Valid() && RecordsOk(g, txns, props) && Known(txns, t) && c !in props
    ensures TxnsOk(NewTxns(g, txns, t, c)) && PropOk(g, NewTxns(g, txns, t, c), c, NewProp(g, txns, t, c))
  {
    if c in g.begins {
      RecordsKept(g, txns, props, Txn(c, t, LevelUnder(txns, t)));
    }
  }

  lemma NewIsWitnessed(g: Cfg, txns: seq<Txn>, props: Props, b: Block, c: Block)
    requires g.Valid() && RecordsOk(g, txns, props) && b in props && g.Edge(b, c) && c !in props
    ensures var t := Leave(txns, props[b]);
      && TxnsOk(NewTxns(g, txns, t, c)) && PropOk(g, NewTxns(g, txns, t, c), c, NewProp(g, txns, t, c))
      && Witnessed(g, NewTxns(g, txns, t, c), c, NewProp(g, txns, t, c))
  {
    var t := Leave(txns, props[b]);
    assert PropOk(g, txns, b, props[b]) && Witnessed(g, txns, b, props[b]);
    var p :| Leads(g, txns, b, props[b], p);
    OpenAfter(g, txns, b, props[b], p, c);
    LeaveClosed(g, txns, b, props[b]);
    NewFits(g, txns, props, t, c);
    NewChain(g, txns, t, c);
    assert Leads(g, NewTxns(g, txns, t, c), c, NewProp(g, txns, t, c), p + [c]);
  }

  lemma RecordsWith(g: Cfg, txns: seq<Txn>, props: Props, more: seq<Txn>, c: Block, prop: BBProp, after: Props)
    requires RecordsOk(g, txns, props) && c < |g.succ| && c !in props && TxnsOk(more) && after == props[c := prop]
    requires forall b :: b in props ==> PropOk(g, more, b, props[b]) && Witnessed(g, more, b, props[b])
    requires PropOk(g, more, c, prop) && Witnessed(g, more, c, prop)
    requires forall i :: 0 <= i < |more| ==> BeginMet(more, after, i)
    ensures RecordsOk(g, more, after)
  {
  }

  lemma NewRecord(g: Cfg, txns: seq<Txn>, props: Props, b: Block, c: Block)
    requires g.Valid() && RecordsOk(g, txns, props) && b in props && g.Edge(b, c) && c !in props
    ensures var t := Leave(txns, props[b]);
      RecordsOk(g, NewTxns(g, txns, t, c), props[c := NewProp(g, txns, t, c)])
  {
    var t := Leave(txns, props[b]);
    LeaveClosed(g, txns, b, props[b]);
    NewIsWitnessed(g, txns, props, b, c);
    if c in g.begins {
      RecordsKept(g, txns, props, Txn(c, t, LevelUnder(txns, t)));
    }
    var more, prop := NewTxns(g, txns, t, c), NewProp(g, txns, t, c);
    var after := props[c := prop];
    forall i | 0 <= i < |more| ensures BeginMet(more, after, i) {
      assert i < |txns| ==> BeginMet(txns, props, i);
    }
    RecordsWith(g, txns, props, more, c, prop, after);
  }

  lemma NewEdge(g: Cfg, txns: seq<Txn>, props: Props, b: Block, c: Block)
    requires RecordsOk(g, txns, props) && b in props && g.Edge(b, c) && c !in props
    ensures var t := Leave(txns, props[b]);
      EdgeOk(NewTxns(g, txns, t, c), props[c := NewProp(g, txns, t, c)], b, c)
  {
    assert PropOk(g, txns, b, props[b]);
  }

  // What was in order stays so.
  lemma EdgeKept(g: Cfg, txns: seq<Txn>, props: Props, t: Ref, c: Block, x: Block, y: Block)
    requires RecordsOk(g, txns, props) && c !in props && EdgeOk(txns, props, x, y)
    ensures EdgeOk(NewTxns(g, txns, t, c), props[c := NewProp(g, txns, t, c)], x, y)
  {
    assert PropOk(g, txns, x, props[x]) && PropOk(g, txns, y, props[y]);
  }

  lemma FittingKept(g: Cfg, txns: seq<Txn>, props: Props, t: Ref, c: Block, x: Block)
    requires RecordsOk(g, txns, props) && c !in props && BlockOk(g, txns, props, x)
    ensures BlockOk(g, NewTxns(g, txns, t, c), props[c := NewProp(g, txns, t, c)], x)
  {
    forall y | g.Edge(x, y) ensures EdgeOk(NewTxns(g, txns, t, c), props[c := NewProp(g, txns, t, c)], x, y) {
      EdgeKept(g, txns, props, t, c, x, y);
    }
  }

  // ---------------------------------------------------------------- the state of the work list

  // Unless an error was found, every block met is in order, except those on the list and those in `skip`.
  ghost predicate WorkOk(g: Cfg, txns: seq<Txn>, props: Props, todo: seq<Block>, skip: set<Block>, error: bool) {
    && RecordsOk(g, txns, props) && 0 in props && props[0] == BBProp(Null, false, false)
    && (forall b :: b in todo ==> b in props)
    && (error ==> Ambiguous(g) || ReturnsInside(g))
    && (!error ==> forall b :: b in props && b !in todo && b !in skip ==> BlockOk(g, txns, props, b))
  }

  // The first n successors of a block fit.
  ghost predicate EdgesOk(g: Cfg, txns: seq<Txn>, props: Props, b: Block, n: nat) {
    && b < |g.succ| && n <= |g.succ[b]|
    && forall j :: 0 <= j < n ==> EdgeOk(txns, props, b, g.succ[b][j])
  }

  // The entry is in order to start with.
  lemma EntryOk(g: Cfg)
    requires g.Valid()
    ensures WorkOk(g, [], map[0 := BBProp(Null, false, false)], [0], {}, false)
  {
    assert Leads(g, [], 0, BBProp(Null, false, false), [0]);
  }

  lemma LastOrBefore(todo: seq<Block>, x: Block)
    requires todo != []
    ensures x in todo <==> x in todo[..|todo| - 1] || x == todo[|todo| - 1]
  {
    assert todo == todo[..|todo| - 1] + [todo[|todo| - 1]];
  }

  // Taking a block off the list.
  lemma Taken(g: Cfg, txns: seq<Txn>, props: Props, todo: seq<Block>, error: bool)
    requires WorkOk(g, txns, props, todo, {}, error) && todo != []
    ensures var last := |todo| - 1;
      todo[last] in props && WorkOk(g, txns, props, todo[..last], {todo[last]}, error)
  {
    var b, rest := todo[|todo| - 1], todo[..|todo| - 1];
    assert b in todo && b in props;
    forall x | x in rest ensures x in props {
      LastOrBefore(todo, x);
    }
    if !error {
      forall x | x in props && x !in rest && x !in {b} ensures BlockOk(g, txns, props, x) {
        LastOrBefore(todo, x);
      }
    }
  }

  lemma MetFirstEdges(g: Cfg, txns: seq<Txn>, props: Props, b: Block, i: nat)
    requires RecordsOk(g, txns, props) && b in props && b < |g.succ|
    requires i < |g.succ[b]| && g.succ[b][i] !in props && EdgesOk(g, txns, props, b, i)
    ensures var c := g.succ[b][i];
      var t := Leave(txns, props[b]);
      EdgesOk(g, NewTxns(g, txns, t, c), props[c := NewProp(g, txns, t, c)], b, i + 1)
  {
    var c := g.succ[b][i];
    var t := Leave(txns, props[b]);
    var more, after := NewTxns(g, txns, t, c), props[c := NewProp(g, txns, t, c)];
    NewEdge(g, txns, props, b, c);
    assert EdgeOk(more, after, b, c);
    forall j | 0 <= j < i ensures EdgeOk(more, after, b, g.succ[b][j]) {
      var y := g.succ[b][j];
      assert EdgeOk(txns, props, b, y);
      EdgeKept(g, txns, props, t, c, b, y);
    }
  }

  // A block met for the first time goes on the list.
  lemma MetFirst(g: Cfg, txns: seq<Txn>, props: Props, todo: seq<Block>, b: Block, c: Block, error: bool)
    requires g.Valid() && WorkOk(g, txns, props, todo, {b}, error) && b in props
    requires g.Edge(b, c) && c !in props
    ensures var t := Leave(txns, props[b]);
      var more, after := NewTxns(g, txns, t, c), props[c := NewProp(g, txns, t, c)];
      && WorkOk(g, more, after, todo + [c], {b}, error)
      && Leave(more, after[b]) == t
  {
    var t := Leave(txns, props[b]);
    var more, after := NewTxns(g, txns, t, c), props[c := NewProp(g, txns, t, c)];
    NewRecord(g, txns, props, b, c);
    assert PropOk(g, txns, b, props[b]);
    if !error {
      forall x | x in after && x !in todo + [c] && x !in {b} ensures BlockOk(g, more, after, x) {
        FittingKept(g, txns, props, t, c, x);
      }
    }
  }

  // A block met again, whose record fits or does not.
  lemma MetAgain(g: Cfg, txns: seq<Txn>, props: Props, todo: seq<Block>, b: Block, i: nat, error: bool)
    requires WorkOk(g, txns, props, todo, {b}, error) && b in props && b < |g.succ|
    requires i < |g.succ[b]| && g.succ[b][i] in props && (!error ==> EdgesOk(g, txns, props, b, i))
    ensures Leave(txns, props[b]) != Expected(txns, props[g.succ[b][i]]) ==> WorkOk(g, txns, props, todo, {b}, true)
    ensures Leave(txns, props[b]) == Expected(txns, props[g.succ[b][i]]) && !error ==> EdgesOk(g, txns, props, b, i + 1)
  {
    if Leave(txns, props[b]) != Expected(txns, props[g.succ[b][i]]) {
      MismatchIsAmbiguous(g, txns, props, b, g.succ[b][i]);
    }
  }

  // A block all of whose successors fit is in order.
  lemma BlockDone(g: Cfg, txns: seq<Txn>, props: Props, todo: seq<Block>, b: Block, error: bool)
    requires WorkOk(g, txns, props, todo, {b}, error) && b in props
    requires !error ==> EdgesOk(g, txns, props, b, |g.succ[b]|) && (b in g.exits ==> props[b].txn == Null)
    ensures WorkOk(g, txns, props, todo, {}, error)
  {
    if !error {
      forall c | g.Edge(b, c) ensures EdgeOk(txns, props, b, c) {
        var j :| 0 <= j < |g.succ[b]| && g.succ[b][j] == c;
      }
    }
  }

  // With the list empty, the verdict is right in both directions.
  lemma Verdict(g: Cfg, txns: seq<Txn>, props: Props, error: bool)
    requires WorkOk(g, txns, props, [], {}, error)
    ensures error <==> Ambiguous(g) || ReturnsInside(g)
    ensures !error ==> forall p :: Path(g, p) ==> MatchesRecord(g, txns, props, p)
  {
    if !error {
      forall p | Path(g, p) ensures MatchesRecord(g, txns, props, p) && !EndsOpen(g, p) {
        PathsMatch(g, txns, props, p);
        assert BlockOk(g, txns, props, p[|p| - 1]);
        ChainLevel(txns, Null);
      }
    }
  }

  // ---------------------------------------------------------------- the analysis

  function UpTo(n: nat): (s: set<Block>)
    ensures forall b: Block :: b in s <==> b < n
  {
    if n == 0 then {} else UpTo(n - 1) + {n - 1}
  }

  lemma Shrinks(all: set<Block>, seen: set<Block>, more: set<Block>)
    requires seen <= more <= all
    ensures all - more == all - seen || all - more < all - seen
    ensures all - more == all - seen ==> more == seen
  {
    if more != seen {
      var b :| b in more && b !in seen;
      assert b in all - seen && b !in all - more;
    }
  }

  class FuncInfo {
    var txns: seq<Txn>
    var freeBegins: set<Block>
    var freeCommits: set<Block>

    constructor (begins: set<Block>, commits: set<Block>)
      ensures txns == [] && freeBegins == begins && freeCommits == commits
    {
      txns, freeBegins, freeCommits := [], begins, commits;
    }

    method AddTxn(begin: Block, parent: Ref) returns (t: Ref)
      modifies this`txns
      ensures t == T(old(|txns|)) && txns == old(txns) + [Txn(begin, parent, LevelUnder(old(txns), parent))]
    {
      t := T(|txns|);
      txns := txns + [Txn(begin, parent, LevelUnder(txns, parent))];
    }
  }

  class Analysis {
    const g: Cfg
    const fi: FuncInfo
    var bbprops: Props
    var todo: seq<Block>

    constructor (g: Cfg)
      requires g.Valid()
      ensures this.g == g && fresh(fi) && fi.txns == [] && fi.freeBegins == g.begins && fi.freeCommits == g.commits
    {
      this.g := g;
      fi := new FuncInfo(g.begins, g.commits);
      bbprops, todo := map[], [];
    }

    // Records a successor that has not been seen before, and puts it on the work list.
    method Record(bb: Block, txn: Ref, succBB: Block)
      requires g.Valid() && RecordsOk(g, fi.txns, bbprops) && bb in bbprops && g.Edge(bb, succBB) && succBB !in bbprops
      requires txn == Leave(fi.txns, bbprops[bb])
      requires fi.freeBegins == g.begins - bbprops.Keys && fi.freeCommits == g.commits - bbprops.Keys
      modifies this`bbprops, this`todo, fi
      ensures bbprops == old(bbprops)[succBB := NewProp(g, old(fi.txns), txn, succBB)]
      ensures fi.txns == NewTxns(g, old(fi.txns), txn, succBB) && todo == old(todo) + [succBB]
      ensures fi.freeBegins == g.begins - bbprops.Keys && fi.freeCommits == g.commits - bbprops.Keys
    {
      if succBB in fi.freeBegins {
        // begin blocks start new txns
        var newTxn := fi.AddTxn(succBB, txn);
        bbprops := bbprops[succBB := BBProp(newTxn, true, false)];
        fi.freeBegins := fi.freeBegins - {succBB};
      } else if succBB in fi.freeCommits {
        // commit blocks close txns; one without a matching begin only draws a warning
        if txn == Null {
          bbprops := bbprops[succBB := BBProp(Null, false, false)];
        } else {
          bbprops := bbprops[succBB := BBProp(txn, false, true)];
        }
        fi.freeCommits := fi.freeCommits - {succBB};
      } else {
        bbprops := bbprops[succBB := BBProp(txn, false, false)];
      }
      todo := todo + [succBB];
    }

    // A successor seen before: the transactions cannot be merged, since their boundaries are marker calls, so
    // they have to be the same. A missing transaction on one side only is not caught by the checks before.
    method CheckSeen(txn: Ref, succBB: Block) returns (error: bool)
      requires RecordsOk(g, fi.txns, bbprops) && succBB in bbprops
      ensures error <==> txn != Expected(fi.txns, bbprops[succBB])
    {
      var succProp := bbprops[succBB];
      assert PropOk(g, fi.txns, succBB, succProp);
      var mergeTxn: Ref;
      if succProp.isBegin {
        mergeTxn := fi.txns[succProp.txn.i].parent;
      } else {
        mergeTxn := succProp.txn;
      }
      error := mergeTxn != txn;
    }

    // Looks at a block taken from the work list.
    method Visit(bb: Block, error0: bool) returns (error: bool)
      requires g.Valid() && bb in bbprops && WorkOk(g, fi.txns, bbprops, todo, {bb}, error0)
      requires fi.freeBegins == g.begins - bbprops.Keys && fi.freeCommits == g.commits - bbprops.Keys
      modifies this`bbprops, this`todo, fi
      ensures WorkOk(g, fi.txns, bbprops, todo, {}, error) && (error0 ==> error)
      ensures fi.freeBegins == g.begins - bbprops.Keys && fi.freeCommits == g.commits - bbprops.Keys
      ensures old(bbprops).Keys <= bbprops.Keys <= UpTo(|g.succ|)
      ensures bbprops.Keys == old(bbprops).Keys ==> todo == old(todo)
    {
      error := error0;
      var prop := bbprops[bb];
      assert PropOk(g, fi.txns, bb, prop);
      var txn := prop.txn;
      if txn.T? && bb in g.exits {
        ReturnIsInside(g, fi.txns, bbprops, bb);
        error := true;
      }
      if prop.isCommit {
        if txn.T? {
          txn := fi.txns[txn.i].parent;
        }
      }
      var i := 0;
      while i < |g.succ[bb]|
        invariant i <= |g.succ[bb]| && bb in bbprops && bbprops[bb] == prop && (error0 ==> error)
        invariant WorkOk(g, fi.txns, bbprops, todo, {bb}, error) && txn == Leave(fi.txns, prop)
        invariant !error ==> EdgesOk(g, fi.txns, bbprops, bb, i) && (bb in g.exits ==> prop.txn == Null)
        invariant fi.freeBegins == g.begins - bbprops.Keys && fi.freeCommits == g.commits - bbprops.Keys
        invariant old(bbprops).Keys <= bbprops.Keys
        invariant bbprops.Keys == old(bbprops).Keys ==> todo == old(todo)
      {
        var succBB := g.succ[bb][i];
        if succBB !in bbprops {
          MetFirst(g, fi.txns, bbprops, todo, bb, succBB, error);
          if !error {
            MetFirstEdges(g, fi.txns, bbprops, bb, i);
          }
          Record(bb, txn, succBB);
        } else {
          MetAgain(g, fi.txns, bbprops, todo, bb, i, error);
          var bad := CheckSeen(txn, succBB);
          if bad {
            error := true;
          }
        }
        i := i + 1;
      }
      BlockDone(g, fi.txns, bbprops, todo, bb, error);
    }

    // Takes the last block off the list and looks at it.
    method VisitLast(error0: bool) returns (error: bool)
      requires g.Valid() && todo != [] && WorkOk(g, fi.txns, bbprops, todo, {}, error0)
      requires fi.freeBegins == g.begins - bbprops.Keys && fi.freeCommits == g.commits - bbprops.Keys
      modifies this`bbprops, this`todo, fi
      ensures WorkOk(g, fi.txns, bbprops, todo, {}, error) && (error0 ==> error)
      ensures fi.freeBegins == g.begins - bbprops.Keys && fi.freeCommits == g.commits - bbprops.Keys
      ensures old(bbprops).Keys <= bbprops.Keys <= UpTo(|g.succ|)
      ensures bbprops.Keys == old(bbprops).Keys ==> |todo| < |old(todo)|
    {
      var bb := todo[|todo| - 1];
      Taken(g, fi.txns, bbprops, todo, error0);
      todo := todo[..|todo| - 1];
      error := Visit(bb, error0);
    }

    // The analysis reports an error exactly when the open transactions of some block depend on the path, or a
    // block returns inside a transaction; otherwise its records describe every path.
    method DetermineLevels() returns (error: bool)
      requires g.Valid() && fi.txns == [] && fi.freeBegins == g.begins && fi.freeCommits == g.commits
      modifies this`bbprops, this`todo, fi
      ensures error <==> Ambiguous(g) || ReturnsInside(g)
      ensures !error ==> forall p :: Path(g, p) ==> MatchesRecord(g, fi.txns, bbprops, p)
      ensures TxnsOk(fi.txns)
    {
      error := false;
      EntryOk(g);
      todo := [0];
      bbprops := map[0 := BBProp(Null, false, false)];
      while todo != []
        invariant WorkOk(g, fi.txns, bbprops, todo, {}, error)
        invariant fi.freeBegins == g.begins - bbprops.Keys && fi.freeCommits == g.commits - bbprops.Keys
        decreases UpTo(|g.succ|) - bbprops.Keys, |todo|
      {
        ghost var seen := bbprops.Keys;
        error := VisitLast(error);
        Shrinks(UpTo(|g.succ|), seen, bbprops.Keys);
      }
      Verdict(g, fi.txns, bbprops, error);
    }
  }
}
