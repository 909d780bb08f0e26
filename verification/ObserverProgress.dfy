// A pass that nobody disturbs comes to its end.
module ObserverProgress {
  import opened ObserverModel
  import opened ObserverLinks
  import opened ObserverList
  import opened ObserverPasses
  import opened ObserverCalls
  import opened ObserverTold

  // What is left of the list behind a position.
  function Rest(pos: Pos, order: seq<Proxy>): int { |order| - |Seen(pos, order)| }

  function Rank(pc: Pc): nat {
    match pc
    case Calling => 11
    case Quick => 10
    case Advance => 9
    case Test => 8
    case Slow => 7
    case Want => 6
    case Gone => 5
  }

  // How much a pass has left to do.
  function ToDo(f: Frame, order: seq<Proxy>): int {
    if Over(f) then Rank(f.pc) else 16 * Rest(PosOf(f), order) + Rank(f.pc) + 5
  }

  lemma {:induction false} BeforeIsShort(order: seq<Proxy>, p: Proxy)
    requires p in order
    ensures |Before(order, p)| < |order|
  {
    if order[0] != p { BeforeIsShort(order[1..], p); }
  }

  lemma RestIsThere(pos: Pos, order: seq<Proxy>)
    requires PosLinked(pos, order)
    ensures Rest(pos, order) >= 0 && (pos.Excl? ==> Rest(pos, order) == Rest(Incl(pos.p), order) + 1)
  {
    if pos.Incl? || pos.Excl? { BeforeIsShort(order, pos.p); }
  }

  lemma {:induction false} RemovedIsShorter(order: seq<Proxy>, p: Proxy, q: Proxy)
    requires p in order && p != q
    ensures |Removed(order, p)| == |order| - 1 && |Before(Removed(order, p), q)| >= |Before(order, q)| - 1
  {
    if order[0] == q {
      if |order| > 1 { RemovedLength(order[1..], p); }
    } else if order[0] == p {
    } else {
      RemovedIsShorter(order[1..], p, q);
      assert ([order[0]] + Removed(order[1..], p))[1..] == Removed(order[1..], p);
    }
  }

  lemma {:induction false} RemovedLength(order: seq<Proxy>, p: Proxy)
    requires p in order
    ensures |Removed(order, p)| == |order| - 1
  {
    if order[0] != p { RemovedLength(order[1..], p); }
  }

  ghost predicate OthersOut(s: State, t: Tid) { forall u {:trigger s.At(u)} :: u != t ==> !s.At(u).Reads() }

  // A step of its own, which is always possible.
  lemma CanStep(s: State, t: Tid) returns (e: State)
    requires Inv(s) && s.At(t).stack != [] && IsPass(s.At(t).Top()) && OthersOut(s, t)
    ensures ThreadStep(s, t, e) && (GiveUp(s, t, e) || (s.At(t).Reads() && e == Walk(s, t)))
  {
    var l, f := s.At(t), s.At(t).Top();
    assert LocalOk(s, l) && FrameOk(s, f);
    match f.pc
    case Quick => e := Walk(s, t);
    case Advance => e := Walk(s, t);
    case Test => e := Walk(s, t);
    case Slow => e := if s.Rc(f.drop.p) > 1 then s.Add(f.drop.p, -1).Move(t, Dropped(l)) else s.Move(t, l.With(f.(pc := Want)));
    case Want =>
      e := if s.Rc(f.drop.p) == 1 then Unlink(s.Add(f.drop.p, -1), f.drop.p).Move(t, l.With(f.(pc := Gone)))
           else s.Add(f.drop.p, -1).Move(t, Dropped(l));
      assert NoReaders(s);
    case Gone => e := s.Move(t, Dropped(l)).(alive := s.alive - {f.drop.p});
    case Calling => e := s.Move(t, l.With(f.(pc := Quick, last := f.own, cur := f.own, own := Null)));
  }

  // The call on top has returned, or has less to do.
  ghost predicate Counts(s: State, t: Tid, e: State) {
    var l, m := s.At(t), e.At(t);
    && l.stack != []
    && if |m.stack| == |l.stack| then m.Below() == l.Below() && IsPass(m.Top()) && 0 <= ToDo(m.Top(), e.order) < ToDo(l.Top(), s.order)
       else m.stack == l.Below()
  }

  // The frame on top is f instead.
  lemma TopCounts(s: State, t: Tid, f: Frame, e: State)
    requires s.At(t).stack != [] && e.At(t) == s.At(t).With(f) && IsPass(f)
    requires 0 <= ToDo(f, e.order) < ToDo(s.At(t).Top(), s.order)
    ensures Counts(s, t, e)
  {
  }

  lemma QuickCounts(s: State, t: Tid)
    requires s.At(t).At(Quick) && IsPass(s.At(t).Top()) && PosLinked(PosOf(s.At(t).Top()), s.order)
    ensures Counts(s, t, Walk(s, t))
  {
    var f, e := s.At(t).Top(), Walk(s, t);
    RestIsThere(PosOf(f), s.order);
    if f.last.To? && f.last.p in s.observed {
      TopCounts(s, t, f.(pc := Advance, last := Null), e);
    } else {
      TopCounts(s, t, f.(pc := Advance), e);
    }
  }

  lemma LeaveCounts(s: State, t: Tid, own: Ptr, final: bool, e: State)
    requires s.At(t).Reads() && IsPass(s.At(t).Top()) && PosLinked(PosOf(s.At(t).Top()), s.order)
    requires e.At(t) == Leave(s.At(t), own, final) && e.order == s.order
    requires !final ==> s.At(t).Top().pc.Test? && own.To? && PosOf(s.At(t).Top()) == Excl(own.p)
    ensures Counts(s, t, e)
  {
    var f := s.At(t).Top();
    RestIsThere(PosOf(f), s.order);
    if f.last.To? {
      TopCounts(s, t, f.(pc := Slow, drop := f.last, last := Null, cur := Null, own := own, final := final), e);
    } else if !final {
      RestIsThere(Incl(own.p), s.order);
      TopCounts(s, t, f.(pc := Calling, cur := Null, own := own), e);
    }
  }

  lemma AdvanceCounts(s: State, t: Tid)
    requires s.At(t).At(Advance) && IsPass(s.At(t).Top()) && PosLinked(PosOf(s.At(t).Top()), s.order) && Links(s)
    ensures Counts(s, t, Walk(s, t))
  {
    var f, e := s.At(t).Top(), Walk(s, t);
    var on := if f.cur.To? then s.Next(f.cur.p) else s.first;
    if on.To? {
      SeenNext(s, PosOf(f), on.p);
      RestIsThere(PosOf(f), s.order);
      TopCounts(s, t, f.(pc := Test, cur := on), e);
    } else {
      LeaveCounts(s, t, if f.kind.Entry? then f.cur else Null, true, e);
    }
  }

  lemma TestCounts(s: State, t: Tid)
    requires s.At(t).At(Test) && IsPass(s.At(t).Top()) && PosLinked(PosOf(s.At(t).Top()), s.order) && s.At(t).Top().cur.To?
    ensures Counts(s, t, Walk(s, t))
  {
    var f, e := s.At(t).Top(), Walk(s, t);
    if f.cur.p in s.observed {
      LeaveCounts(s, t, f.cur, false, e);
    } else {
      RestIsThere(PosOf(f), s.order);
      RestIsThere(Incl(f.cur.p), s.order);
      TopCounts(s, t, f.(pc := Quick), e);
    }
  }

  lemma DroppedCounts(s: State, t: Tid, e: State)
    requires s.At(t).stack != [] && IsPass(s.At(t).Top()) && Leaving(s.At(t).Top()) && e.At(t) == Dropped(s.At(t)) && e.order == s.order
    requires PosLinked(PosOf(s.At(t).Top()), s.order) && (!s.At(t).Top().final ==> s.At(t).Top().own.To?)
    ensures Counts(s, t, e)
  {
    var f := s.At(t).Top();
    if !f.final {
      RestIsThere(PosOf(f), s.order);
      RestIsThere(Incl(f.own.p), s.order);
      TopCounts(s, t, f.(pc := Calling, drop := Null), e);
    }
  }

  lemma GoneIsLess(pos: Pos, order: seq<Proxy>, p: Proxy)
    requires p in order && pos.Excl? && pos.p != p && pos.p in order
    ensures Rest(pos, Removed(order, p)) <= Rest(pos, order)
  {
    RemovedIsShorter(order, p, pos.p);
  }

  lemma {:induction false} StillIn(order: seq<Proxy>, p: Proxy, q: Proxy)
    requires q in order && p != q
    ensures q in Removed(order, p)
  {
    if order[0] != p && order[0] != q { StillIn(order[1..], p, q); }
  }

  lemma GoneIsThere(pos: Pos, order: seq<Proxy>, p: Proxy)
    requires pos.Excl? && pos.p in order && pos.p != p
    ensures Rest(pos, Removed(order, p)) >= 0
  {
    StillIn(order, p, pos.p);
    RestIsThere(pos, Removed(order, p));
  }

  // The last reference on one proxy is not the one on another.
  lemma DropIsOther(s: State, t: Tid)
    requires Inv(s) && s.At(t).At(Want) && s.At(t).Top().drop.To? && s.Rc(s.At(t).Top().drop.p) == 1 && IsPass(s.At(t).Top())
    ensures var f := s.At(t).Top();
      f.drop.p in s.order && (!f.final ==> f.own.To? && f.own.p != f.drop.p && f.own.p in s.order)
  {
    var l, f := s.At(t), s.At(t).Top();
    assert LocalOk(s, l) && FrameOk(s, f);
    LastReference(s, t, f.drop.p);
    FrameCounts(l.stack, |l.stack| - 1, f.drop.p);
  }

  lemma UnlinkedOrder(s: State, t: Tid, p: Proxy, m: Local, e: State)
    requires e == Unlink(s.Add(p, -1), p).Move(t, m)
    ensures e.order == Removed(s.order, p) && e.At(t) == m
  {
    UnlinkChanges(s.Add(p, -1), p);
  }

  lemma GoneCounts(s: State, t: Tid, e: State)
    requires Inv(s) && s.At(t).At(Want) && IsPass(s.At(t).Top()) && s.At(t).Top().drop.To? && s.Rc(s.At(t).Top().drop.p) == 1
    requires e == Unlink(s.Add(s.At(t).Top().drop.p, -1), s.At(t).Top().drop.p).Move(t, s.At(t).With(s.At(t).Top().(pc := Gone)))
    ensures Counts(s, t, e)
  {
    var f := s.At(t).Top();
    DropIsOther(s, t);
    UnlinkedOrder(s, t, f.drop.p, s.At(t).With(f.(pc := Gone)), e);
    GoneHasLess(f, s.order, f.drop.p);
    TopCounts(s, t, f.(pc := Gone), e);
  }

  lemma GoneHasLess(f: Frame, order: seq<Proxy>, p: Proxy)
    requires f.pc.Want? && p in order && (!f.final ==> f.own.To? && f.own.p != p && f.own.p in order)
    ensures 0 <= ToDo(f.(pc := Gone), Removed(order, p)) < ToDo(f, order)
  {
    if !f.final {
      GoneIsLess(PosOf(f), order, p);
      GoneIsThere(PosOf(f), order, p);
    }
  }

  lemma StepCounts(s: State, t: Tid, e: State)
    requires Inv(s) && s.At(t).stack != [] && IsPass(s.At(t).Top())
    requires GiveUp(s, t, e) || (s.At(t).Reads() && e == Walk(s, t))
    ensures Counts(s, t, e)
  {
    var f := s.At(t).Top();
    assert LocalOk(s, s.At(t)) && FrameOk(s, f);
    PosIsLinked(s, t, |s.At(t).stack| - 1);
    match f.pc
    case Quick => QuickCounts(s, t);
    case Advance => AdvanceCounts(s, t);
    case Test => TestCounts(s, t);
    case _ => GiveUpCounts(s, t, e);
  }

  lemma GiveUpCounts(s: State, t: Tid, e: State)
    requires Inv(s) && s.At(t).stack != [] && IsPass(s.At(t).Top()) && GiveUp(s, t, e)
    ensures Counts(s, t, e)
  {
    var f := s.At(t).Top();
    assert LocalOk(s, s.At(t)) && FrameOk(s, f);
    PosIsLinked(s, t, |s.At(t).stack| - 1);
    RestIsThere(PosOf(f), s.order);
    if f.pc.Calling? {
      TopCounts(s, t, f.(pc := Quick, last := f.own, cur := f.own, own := Null), e);
    } else if f.pc.Slow? && s.Rc(f.drop.p) <= 1 {
      TopCounts(s, t, f.(pc := Want), e);
    } else if f.pc.Want? && s.Rc(f.drop.p) == 1 {
      GoneCounts(s, t, e);
    } else {
      DroppedCounts(s, t, e);
    }
  }

  // ---------------------------------------------------------------- alone to the end

  // Thread t alone takes n steps.
  ghost predicate Takes(s: State, t: Tid, n: nat, e: State)
    decreases n
  {
    if n == 0 then e == s else exists u :: ThreadStep(s, t, u) && Takes(u, t, n - 1, e)
  }

  lemma OthersStayOut(s: State, t: Tid, e: State)
    requires OthersOut(s, t) && ThreadStep(s, t, e)
    ensures OthersOut(e, t)
  {
    StepMoves(s, t, e);
    forall u | u != t ensures !e.At(u).Reads() { assert e.At(u) == s.At(u); }
  }

  lemma SameDepthIsProper(s: State, t: Tid, e: State)
    requires Inv(s) && ThreadStep(s, t, e) && s.At(t).stack != [] && |e.At(t).stack| == |s.At(t).stack|
    ensures Inv(e)
  {
    InvStep(s, t, e);
  }

  // While no other thread reads the list, a pass on top of a thread's calls can go on alone until it returns.
  lemma {:induction false} PassReturnsAlone(s: State, t: Tid) returns (n: nat, e: State)
    requires Inv(s) && s.At(t).stack != [] && IsPass(s.At(t).Top()) && OthersOut(s, t)
    ensures Takes(s, t, n, e) && e.At(t).stack == s.At(t).Below()
    decreases ToDo(s.At(t).Top(), s.order)
  {
    var u := CanStep(s, t);
    StepCounts(s, t, u);
    if |u.At(t).stack| == |s.At(t).stack| {
      OthersStayOut(s, t, u);
      SameDepthIsProper(s, t, u);
      n, e := PassReturnsAlone(u, t);
      n := n + 1;
    } else {
      n, e := 1, u;
      assert Takes(u, t, 0, u);
    }
  }

  // So in every reachable state of a proper run.
  lemma PassCanReturn(run: seq<State>, k: nat, t: Tid) returns (n: nat, e: State)
    requires ProperRun(run) && k < |run| && run[k].At(t).stack != [] && IsPass(run[k].At(t).Top()) && OthersOut(run[k], t)
    ensures Takes(run[k], t, n, e) && e.At(t).stack == run[k].At(t).Below()
  {
    RunInv(run, k);
    n, e := PassReturnsAlone(run[k], t);
  }
}
