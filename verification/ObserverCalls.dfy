// Which observers a pass calls: the calls of a pass are the observers it finds on its way, in list order, and a pass
// that returns has left none out.
module ObserverCalls {
  import opened ObserverModel
  import opened ObserverLinks
  import opened ObserverList
  import opened ObserverPasses

  // ---------------------------------------------------------------- lists

  function Filter(xs: seq<Proxy>, keep: set<Proxy>): seq<Proxy> {
    if xs == [] then [] else Filter(xs[..|xs| - 1], keep) + if xs[|xs| - 1] in keep then [xs[|xs| - 1]] else []
  }

  lemma FilterSnoc(xs: seq<Proxy>, p: Proxy, keep: set<Proxy>)
    ensures Filter(xs + [p], keep) == Filter(xs, keep) + if p in keep then [p] else []
  {
    assert (xs + [p])[..|xs|] == xs;
  }

  lemma {:induction false} FilterTwice(xs: seq<Proxy>, keep: set<Proxy>, keep': set<Proxy>)
    ensures Filter(Filter(xs, keep), keep') == Filter(xs, keep * keep')
  {
    if xs != [] {
      var n := |xs| - 1;
      FilterTwice(xs[..n], keep, keep');
      var rest := Filter(xs[..n], keep);
      assert Filter(xs, keep) == if xs[n] in keep then rest + [xs[n]] else rest;
      FilterSnoc(rest, xs[n], keep');
    }
  }

  // Two lists that agree on what is kept agree on less.
  lemma FilterLess(xs: seq<Proxy>, ys: seq<Proxy>, keep: set<Proxy>, keep': set<Proxy>, out: set<Proxy>)
    requires Filter(xs, keep) == Filter(ys, keep - out) && keep' <= keep
    ensures Filter(xs, keep') == Filter(ys, keep' - out)
  {
    FilterTwice(xs, keep, keep');
    FilterTwice(ys, keep - out, keep');
    assert keep * keep' == keep' && (keep - out) * keep' == keep' - out;
  }

  lemma {:induction false} FilterNone(xs: seq<Proxy>, keep: set<Proxy>)
    requires forall p :: p in xs ==> p !in keep
    ensures Filter(xs, keep) == []
  {
    if xs != [] {
      assert xs[|xs| - 1] in xs;
      FilterNone(xs[..|xs| - 1], keep);
    }
  }

  lemma {:induction false} FilterAppend(xs: seq<Proxy>, ys: seq<Proxy>, keep: set<Proxy>)
    ensures Filter(xs + ys, keep) == Filter(xs, keep) + Filter(ys, keep)
  {
    if ys == [] {
      assert xs + ys == xs;
    } else {
      var n := |ys| - 1;
      FilterAppend(xs, ys[..n], keep);
      assert xs + ys == (xs + ys[..n]) + [ys[n]] && ys == ys[..n] + [ys[n]];
      FilterSnoc(xs + ys[..n], ys[n], keep);
    }
  }

  lemma {:induction false} FilterHas(xs: seq<Proxy>, keep: set<Proxy>, p: Proxy)
    ensures p in Filter(xs, keep) <==> p in xs && p in keep
  {
    if xs != [] {
      var n := |xs| - 1;
      FilterHas(xs[..n], keep, p);
      assert xs == xs[..n] + [xs[n]];
    }
  }

  // ---------------------------------------------------------------- where a pass stands

  // Nothing seen; everything up to p, with p or without; everything.
  datatype Pos = Start | Incl(p: Proxy) | Excl(p: Proxy) | All

  function Ahead(p: Ptr): Pos { if p.To? then Incl(p.p) else Start }

  predicate Leaving(f: Frame) { !f.Reads() && !f.pc.Calling? }

  function PosOf(f: Frame): Pos {
    match f.pc
    case Quick => Ahead(f.cur)
    case Advance => Ahead(f.cur)
    case Test => if f.cur.To? then Excl(f.cur.p) else Start
    case Calling => Ahead(f.own)
    case _ => if !f.final then (if f.own.To? then Excl(f.own.p) else Start) else if f.kind.Entry? then Ahead(f.own) else All
  }

  // The part of a list in front of a position.
  function Seen(pos: Pos, order: seq<Proxy>): seq<Proxy> {
    match pos
    case Start => []
    case All => order
    case Incl(p) => UpTo(order, p)
    case Excl(p) => Before(order, p)
  }

  function Before(order: seq<Proxy>, p: Proxy): seq<Proxy> {
    if order == [] || order[0] == p then [] else [order[0]] + Before(order[1..], p)
  }

  function UpTo(order: seq<Proxy>, p: Proxy): seq<Proxy> { Before(order, p) + [p] }

  lemma {:induction false} BeforeAt(order: seq<Proxy>, i: nat)
    requires i < |order| && forall j, k :: 0 <= j < k < |order| ==> order[j] != order[k]
    ensures Before(order, order[i]) == order[..i] && UpTo(order, order[i]) == order[..i + 1]
  {
    if i > 0 {
      BeforeAt(order[1..], i - 1);
      assert order[..i] == [order[0]] + order[1..][..i - 1];
    }
  }

  predicate PosLinked(pos: Pos, order: seq<Proxy>) { pos.Incl? || pos.Excl? ==> pos.p in order }

  // A new proxy at the end is behind every position.
  lemma {:induction false} BeforeAppend(order: seq<Proxy>, p: Proxy, q: Proxy)
    requires q in order
    ensures Before(order + [p], q) == Before(order, q)
  {
    if order[0] != q {
      assert (order + [p])[1..] == order[1..] + [p];
      BeforeAppend(order[1..], p, q);
    }
  }

  // One that goes leaves the rest as it is.
  lemma {:induction false} BeforeRemoved(order: seq<Proxy>, p: Proxy, q: Proxy, keep: set<Proxy>)
    requires p != q && p !in keep
    ensures Filter(Before(Removed(order, p), q), keep) == Filter(Before(order, q), keep)
  {
    if order != [] && order[0] != q {
      if order[0] == p {
        FilterAppend([p], Before(order[1..], q), keep);
        assert Filter([p], keep) == [] by { assert [p][..0] == []; }
      } else {
        BeforeRemoved(order[1..], p, q, keep);
        var rest := Removed(order[1..], p);
        assert ([order[0]] + rest)[1..] == rest;
        FilterAppend([order[0]], Before(rest, q), keep);
        FilterAppend([order[0]], Before(order[1..], q), keep);
      }
    }
  }

  lemma {:induction false} FilterRemoved(order: seq<Proxy>, p: Proxy, keep: set<Proxy>)
    requires p !in keep
    ensures Filter(Removed(order, p), keep) == Filter(order, keep)
  {
    if order != [] {
      assert order == [order[0]] + order[1..];
      FilterAppend([order[0]], order[1..], keep);
      if order[0] == p {
        assert Filter([p], keep) == [] by { assert [p][..0] == []; }
      } else {
        FilterRemoved(order[1..], p, keep);
        FilterAppend([order[0]], Removed(order[1..], p), keep);
      }
    }
  }

  // How the list may change in one step.
  ghost predicate ListMove(order: seq<Proxy>, order': seq<Proxy>) {
    || order' == order
    || (exists p :: p !in order && order' == order + [p])
    || (exists p :: p in order && p !in order' && order' == Removed(order, p))
  }

  // What is kept of a part seen does not change with the list.
  lemma SeenKept(pos: Pos, order: seq<Proxy>, order': seq<Proxy>, keep: set<Proxy>)
    requires ListMove(order, order') && PosLinked(pos, order) && PosLinked(pos, order')
    requires forall p :: p in keep ==> p in order && p in order'
    ensures Filter(Seen(pos, order'), keep) == Filter(Seen(pos, order), keep)
    ensures Filter(order', keep) == Filter(order, keep)
  {
    if order' != order {
      if p :| p !in order && order' == order + [p] {
        if pos.Incl? || pos.Excl? { BeforeAppend(order, p, pos.p); }
        FilterSnoc(order, p, keep);
      } else {
        var p :| p in order && p !in order' && order' == Removed(order, p);
        FilterRemoved(order, p, keep);
        if pos.Incl? || pos.Excl? {
          BeforeRemoved(order, p, pos.p, keep);
          FilterSnoc(Before(order, pos.p), pos.p, keep);
          FilterSnoc(Before(order', pos.p), pos.p, keep);
        }
      }
    }
  }

  // ---------------------------------------------------------------- what a step does to a pass

  // The observer the frame at depth d begins to call in a step.
  function CallOf(l: Local, m: Local, d: nat): seq<Proxy> {
    if d < |l.stack| && d < |m.stack| && !l.stack[d].pc.Calling? && m.stack[d].pc.Calling? && m.stack[d].own.To?
    then [m.stack[d].own.p] else []
  }

  // There is nothing behind the position.
  ghost predicate AtEnd(s: State, pos: Pos) { (pos.Incl? && s.Next(pos.p) == Null) || (pos.Start? && s.first == Null) }

  predicate Over(f: Frame) { Leaving(f) && f.final }

  // It has chosen an observer, and has a reference to give up before it calls it.
  predicate Waits(f: Frame) { Leaving(f) && !f.final }

  // How far a step takes a pass: nowhere; to the next proxy; past it, with its observer called or found to be gone;
  // to the end. Only an observer that is there is chosen.
  ghost predicate Goes(s: State, f: Frame, f': Frame, call: seq<Proxy>) {
    var pos, pos' := PosOf(f), PosOf(f');
    || (pos' == pos && call == [] && (Over(f') ==> Over(f) || AtEnd(s, pos))
        && (Waits(f') ==> pos.Excl? && (Waits(f) || pos.p in s.observed)))
    || (pos'.Excl? && call == [] && !Leaving(f')
        && ((pos.Incl? && s.Next(pos.p) == To(pos'.p)) || (pos.Start? && s.first == To(pos'.p))))
    || (pos.Excl? && pos' == Incl(pos.p) && !Leaving(f')
        && ((call == [pos.p] && (Waits(f) || pos.p in s.observed)) || (call == [] && pos.p !in s.observed)))
    || (pos'.All? && call == [] && !Waits(f') && AtEnd(s, pos))
  }

  ghost predicate IsPass(f: Frame) { f.kind.Entry? || f.kind.Exit? }

  // A pass ends, and an entry pass leaves the field at the position it has reached.
  ghost predicate Ends(s: State, f: Frame, m: Local) {
    && (AtEnd(s, PosOf(f)) || Over(f))
    && (f.kind.Entry? ==> Ahead(m.saved) == PosOf(f) && (m.held <==> m.saved.To?))
  }

  // The step l to m of a thread moves the call on top as a pass does, or ends it.
  ghost predicate TopGoes(s: State, l: Local, m: Local) {
    && l.stack != []
    && if |m.stack| == |l.stack|
       then m.Below() == l.Below() && m.Top().kind == l.Top().kind
            && (IsPass(l.Top()) ==> Goes(s, l.Top(), m.Top(), CallOf(l, m, |l.stack| - 1)))
       else m.stack == l.Below() && (IsPass(l.Top()) ==> Ends(s, l.Top(), m))
  }

  lemma WithGoes(s: State, l: Local, f: Frame, call: seq<Proxy>)
    requires l.stack != [] && f.kind == l.Top().kind
    requires call == if !l.Top().pc.Calling? && f.pc.Calling? && f.own.To? then [f.own.p] else []
    requires IsPass(l.Top()) ==> Goes(s, l.Top(), f, call)
    ensures TopGoes(s, l, l.With(f))
  {
  }

  lemma QuickGoes(s: State, t: Tid)
    requires s.At(t).At(Quick)
    ensures TopGoes(s, s.At(t), Walk(s, t).At(t))
  {
    var l, f := s.At(t), s.At(t).Top();
    WithGoes(s, l, f.(pc := Advance, last := Null), []);
    WithGoes(s, l, f.(pc := Advance), []);
  }

  // Leaving the lock at the end of the list.
  lemma LastLeaveGoes(s: State, l: Local, own: Ptr)
    requires l.stack != [] && l.Top().pc.Advance? && own == (if l.Top().kind.Entry? then l.Top().cur else Null)
    requires AtEnd(s, PosOf(l.Top()))
    ensures TopGoes(s, l, Leave(l, own, true))
  {
    var f := l.Top();
    if f.last.To? {
      WithGoes(s, l, f.(pc := Slow, drop := f.last, last := Null, cur := Null, own := own, final := true), []);
    }
  }

  // Leaving it to call an observer.
  lemma CallLeaveGoes(s: State, l: Local)
    requires l.stack != [] && l.Top().pc.Test? && l.Top().cur.To? && l.Top().cur.p in s.observed
    ensures TopGoes(s, l, Leave(l, l.Top().cur, false))
  {
    var f := l.Top();
    if f.last.To? {
      WithGoes(s, l, f.(pc := Slow, drop := f.last, last := Null, cur := Null, own := f.cur, final := false), []);
    } else {
      WithGoes(s, l, f.(pc := Calling, cur := Null, own := f.cur), [f.cur.p]);
    }
  }

  lemma AdvanceGoes(s: State, t: Tid)
    requires s.At(t).At(Advance)
    ensures TopGoes(s, s.At(t), Walk(s, t).At(t))
  {
    var l, f := s.At(t), s.At(t).Top();
    var on := if f.cur.To? then s.Next(f.cur.p) else s.first;
    if on.To? {
      WithGoes(s, l, f.(pc := Test, cur := on), []);
    } else {
      LastLeaveGoes(s, l, if f.kind.Entry? then f.cur else Null);
    }
  }

  lemma TestGoes(s: State, t: Tid)
    requires s.At(t).At(Test) && s.At(t).Top().cur.To?
    ensures TopGoes(s, s.At(t), Walk(s, t).At(t))
  {
    var l, f := s.At(t), s.At(t).Top();
    if f.cur.p in s.observed {
      CallLeaveGoes(s, l);
    } else {
      WithGoes(s, l, f.(pc := Quick), []);
    }
  }

  lemma WalkGoes(s: State, t: Tid)
    requires LocalOk(s, s.At(t)) && s.At(t).Reads()
    ensures TopGoes(s, s.At(t), Walk(s, t).At(t))
  {
    assert FrameOk(s, s.At(t).Top());
    if s.At(t).At(Quick) { QuickGoes(s, t); } else if s.At(t).At(Advance) { AdvanceGoes(s, t); } else { TestGoes(s, t); }
  }

  lemma DroppedGoes(s: State, l: Local)
    requires l.stack != [] && Leaving(l.Top()) && (!l.Top().final ==> l.Top().own.To?)
    ensures TopGoes(s, l, Dropped(l))
  {
    var f := l.Top();
    if !f.final {
      WithGoes(s, l, f.(pc := Calling, drop := Null), [f.own.p]);
    }
  }

  lemma GiveUpGoes(s: State, t: Tid, s': State)
    requires LocalOk(s, s.At(t)) && GiveUp(s, t, s')
    ensures TopGoes(s, s.At(t), s'.At(t))
  {
    var l, f := s.At(t), s.At(t).Top();
    assert FrameOk(s, f);
    if f.pc.Calling? {
      WithGoes(s, l, f.(pc := Quick, last := f.own, cur := f.own, own := Null), []);
    } else if f.pc.Slow? && s.Rc(f.drop.p) <= 1 {
      WithGoes(s, l, f.(pc := Want), []);
    } else if f.pc.Want? && s.Rc(f.drop.p) == 1 {
      WithGoes(s, l, f.(pc := Gone), []);
      UnlinkChanges(s.Add(f.drop.p, -1), f.drop.p);
    } else {
      DroppedGoes(s, l);
    }
  }

  // Only a new proxy and the end of one change the list, and neither moves a pass.
  lemma GiveUpOrder(s: State, t: Tid, s': State)
    requires Inv(s) && GiveUp(s, t, s')
    ensures ListMove(s.order, s'.order)
    ensures s'.order != s.order ==> s.At(t).At(Want) && s'.At(t) == s.At(t).With(s.At(t).Top().(pc := Gone))
  {
    var l, f := s.At(t), s.At(t).Top();
    assert LocalOk(s, l) && FrameOk(s, f);
    if f.pc.Want? && s.Rc(f.drop.p) == 1 {
      LastReference(s, t, f.drop.p);
      Unlinking(s, t, l.With(f.(pc := Gone)), f.drop.p, s');
      UnlinkChanges(s.Add(f.drop.p, -1), f.drop.p);
    }
  }

  lemma OrderStep(s: State, t: Tid, s': State)
    requires Inv(s) && ThreadStep(s, t, s')
    ensures ListMove(s.order, s'.order)
    ensures s'.order != s.order ==>
      (s'.At(t) == s.At(t) || (s.At(t).At(Want) && s'.At(t) == s.At(t).With(s.At(t).Top().(pc := Gone))))
  {
    if Create(s, t, s') {
      CreateMoves(s, t, s');
      var p :| p !in s.alive && s' == Append(s, p);
    } else if GiveUp(s, t, s') {
      GiveUpOrder(s, t, s');
    } else if s.At(t).Reads() && s' == Walk(s, t) {
      WalkLinks(s, t);
    }
  }

  // The same pass, apart from what has begun inside it.
  predicate SameFrame(f: Frame, f': Frame) { f' == f.(inner := f'.inner) }

  lemma SameGoes(s: State, f: Frame, f': Frame)
    requires SameFrame(f, f') && (Waits(f) ==> f.own.To?)
    ensures Goes(s, f, f', []) && PosOf(f') == PosOf(f) && (Over(f') <==> Over(f))
  {
  }

  // A step of the thread itself, seen by the frame at depth d.
  ghost predicate DepthGoes(s: State, l: Local, m: Local, d: nat)
    requires d < |l.stack|
  {
    if d < |m.stack|
    then m.stack[d].kind == l.stack[d].kind && (IsPass(l.stack[d]) ==> Goes(s, l.stack[d], m.stack[d], CallOf(l, m, d)))
    else d == |l.stack| - 1 && (IsPass(l.stack[d]) ==> Ends(s, l.stack[d], m))
  }

  lemma TopIsDepth(s: State, l: Local, m: Local, d: nat)
    requires d < |l.stack| && TopGoes(s, l, m) && (forall i :: 0 <= i < |l.stack| - 1 ==> l.stack[i].pc.Calling?)
    ensures DepthGoes(s, l, m, d)
  {
    if d < |l.stack| - 1 {
      assert l.Below()[d] == l.stack[d];
      assert |m.stack| == |l.stack| ==> m.Below()[d] == m.stack[d];
      SameGoes(s, l.stack[d], m.stack[d]);
    }
  }

  lemma UserIsDepth(s: State, l: Local, m: Local, d: nat)
    requires d < |l.stack| && l.UserCode() && (m == l || Pushes(l, m) || m == l.Begin(Entry))
    requires forall i :: 0 <= i < |l.stack| - 1 ==> l.stack[i].pc.Calling?
    ensures DepthGoes(s, l, m, d)
  {
    assert SameFrame(l.stack[d], m.stack[d]);
    SameGoes(s, l.stack[d], m.stack[d]);
  }

  lemma OwnStep(s: State, t: Tid, s': State, d: nat)
    requires Inv(s) && ThreadStep(s, t, s') && d < |s.At(t).stack|
    ensures DepthGoes(s, s.At(t), s'.At(t), d)
  {
    var l := s.At(t);
    assert LocalOk(s, l);
    if GiveUp(s, t, s') {
      GiveUpGoes(s, t, s');
      TopIsDepth(s, l, s'.At(t), d);
    } else if l.Reads() && s' == Walk(s, t) {
      WalkGoes(s, t);
      TopIsDepth(s, l, s'.At(t), d);
    } else if Create(s, t, s') {
      CreateMoves(s, t, s');
      UserIsDepth(s, l, s'.At(t), d);
    } else if Forget(s, t, s') {
      ForgetMoves(s, t, s');
      UserIsDepth(s, l, s'.At(t), d);
    } else {
      UserIsDepth(s, l, s'.At(t), d);
    }
  }

  // Nothing happens to the pass.
  predicate Rests(l: Local, m: Local, d: nat) {
    && d < |l.stack| && d < |m.stack| && CallOf(l, m, d) == []
    && PosOf(m.stack[d]) == PosOf(l.stack[d]) && (Over(m.stack[d]) <==> Over(l.stack[d]))
  }

  lemma GoneRests(l: Local, d: nat)
    requires d < |l.stack| && l.At(Want)
    ensures Rests(l, l.With(l.Top().(pc := Gone)), d)
  {
  }

  // What a step of any thread is for the pass at depth d of thread t.
  lemma PassStep(s: State, s': State, t: Tid, d: nat)
    requires Inv(s) && Step(s, s') && d < |s.At(t).stack|
    ensures DepthGoes(s, s.At(t), s'.At(t), d) && ListMove(s.order, s'.order)
    ensures s'.order != s.order ==> Rests(s.At(t), s'.At(t), d)
  {
    var u :| ThreadStep(s, u, s');
    OrderStep(s, u, s');
    if u == t {
      OwnStep(s, t, s', d);
      if s.At(t).At(Want) { GoneRests(s.At(t), d); }
    } else {
      StepMoves(s, u, s');
      SameGoes(s, s.At(t).stack[d], s.At(t).stack[d]);
    }
  }
}
