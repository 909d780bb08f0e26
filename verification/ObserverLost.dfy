// A run that loses a proxy: a callback switches an observer on, the entry pass that follows on the same thread
// gives up a saved position a second time, and another thread that has saved it too is left with a deleted proxy.
module ObserverLost {
  import opened ObserverModel
  import opened ObserverLinks
  import opened ObserverPasses

  ghost predicate Path(path: seq<State>) {
    |path| > 0 && forall k :: 0 < k < |path| ==> Follows(path, k)
  }

  ghost predicate Leads(path: seq<State>, s: State, s': State) {
    Path(path) && path[0] == s && path[|path| - 1] == s'
  }

  ghost predicate Reaches(s: State, s': State) { exists path :: Leads(path, s, s') }

  lemma Takes(s: State, t: Tid, s': State)
    requires ThreadStep(s, t, s')
    ensures Reaches(s, s')
  {
    assert Follows([s, s'], 1);
    assert Leads([s, s'], s, s');
  }

  lemma TakesGiveUp(s: State, t: Tid, s': State)
    requires GiveUp(s, t, s')
    ensures Reaches(s, s')
  {
    Takes(s, t, s');
  }

  lemma TakesForget(s: State, t: Tid, s': State)
    requires Forget(s, t, s')
    ensures Reaches(s, s')
  {
    Takes(s, t, s');
  }

  lemma TakesBegin(s: State, t: Tid)
    requires s.At(t).UserCode()
    ensures Reaches(s, s.Move(t, s.At(t).Begin(Entry)))
  {
    Takes(s, t, s.Move(t, s.At(t).Begin(Entry)));
  }

  lemma TakesWalk(s: State, t: Tid)
    requires s.At(t).Reads()
    ensures Reaches(s, Walk(s, t))
  {
    Takes(s, t, Walk(s, t));
  }

  lemma Chain(s: State, m: State, s': State)
    requires Reaches(s, m) && Reaches(m, s')
    ensures Reaches(s, s')
  {
    var a :| Leads(a, s, m);
    var b :| Leads(b, m, s');
    var path := a + b[1..];
    forall k | 0 < k < |path| ensures Follows(path, k) {
      if k < |a| {
        assert Follows(a, k);
      } else {
        assert Follows(b, k - |a| + 1);
        assert path[k] == b[k - |a| + 1] && path[k - 1] == b[k - |a|];
      }
    }
    assert Leads(path, s, s');
  }

  lemma RunTo(s: State, s': State) returns (run: seq<State>)
    requires Init(s) && Reaches(s, s')
    ensures Run(run) && run[|run| - 1] == s'
  {
    run :| Leads(run, s, s');
  }

  function Frm(pc: Pc, last: Ptr, cur: Ptr, own: Ptr): Frame { Frame(Entry, pc, last, cur, own, Null, false, false) }

  // ---------------------------------------------------------------- single steps of an entry pass

  // Thread t of s in the middle of a call.
  function In(s: State, t: Tid, l: Local, f: Frame): State
    requires l.stack != []
  {
    s.Move(t, l.With(f))
  }

  lemma WithAgain(s: State, t: Tid, l: Local, f: Frame, g: Frame)
    requires l.stack != []
    ensures In(s, t, l, f).At(t) == l.With(f) && l.With(f).With(g) == l.With(g) && l.With(f).Top() == f
    ensures In(s, t, l, f).Move(t, l.With(g)) == In(s, t, l, g)
  {
    assert l.With(f).Below() == l.Below();
    assert s.threads[t := l.With(f)][t := l.With(g)] == s.threads[t := l.With(g)];
  }

  lemma QuickStep(s: State, t: Tid, l: Local, f: Frame, p: Proxy)
    requires l.stack != [] && f.pc.Quick? && f.last == To(p) && p in s.observed
    ensures Reaches(In(s, t, l, f), In(s.Add(p, -1), t, l, f.(pc := Advance, last := Null)))
  {
    WithAgain(s, t, l, f, f.(pc := Advance, last := Null));
    TakesWalk(In(s, t, l, f), t);
  }

  lemma SkipStep(s: State, t: Tid, l: Local, f: Frame)
    requires l.stack != [] && f.pc.Quick? && f.last == Null
    ensures Reaches(In(s, t, l, f), In(s, t, l, f.(pc := Advance)))
  {
    WithAgain(s, t, l, f, f.(pc := Advance));
    TakesWalk(In(s, t, l, f), t);
  }

  lemma AdvanceStep(s: State, t: Tid, l: Local, f: Frame, q: Proxy)
    requires l.stack != [] && f.pc.Advance? && (if f.cur.To? then s.Next(f.cur.p) else s.first) == To(q)
    ensures Reaches(In(s, t, l, f), In(s, t, l, f.(pc := Test, cur := To(q))))
  {
    WithAgain(s, t, l, f, f.(pc := Test, cur := To(q)));
    TakesWalk(In(s, t, l, f), t);
  }

  lemma TestStep(s: State, t: Tid, l: Local, f: Frame, q: Proxy)
    requires l.stack != [] && f.pc.Test? && f.cur == To(q) && f.last == Null && q in s.observed
    ensures Reaches(In(s, t, l, f), In(s.Add(q, 1), t, l, f.(pc := Calling, cur := Null, own := To(q))))
  {
    WithAgain(s, t, l, f, f.(pc := Calling, cur := Null, own := To(q)));
    TakesWalk(In(s, t, l, f), t);
  }

  lemma ResumeStep(s: State, t: Tid, l: Local, f: Frame)
    requires l.stack != [] && f.pc.Calling?
    ensures Reaches(In(s, t, l, f), In(s, t, l, f.(pc := Quick, last := f.own, cur := f.own, own := Null)))
  {
    WithAgain(s, t, l, f, f.(pc := Quick, last := f.own, cur := f.own, own := Null));
    TakesGiveUp(In(s, t, l, f), t, In(s, t, l, f.(pc := Quick, last := f.own, cur := f.own, own := Null)));
  }

  lemma EndStep(s: State, t: Tid, l: Local, f: Frame, p: Proxy)
    requires l.stack != [] && f.pc.Advance? && f.cur == To(p) && s.Next(p) == Null && f.kind.Entry? && f.last == Null
    ensures Reaches(In(s, t, l, f), s.Add(p, 1).Move(t, l.With(f).Return(To(p))))
  {
    WithAgain(s, t, l, f, f);
    var u, m := In(s, t, l, f), l.With(f).Return(To(p));
    assert s.threads[t := l.With(f)][t := m] == s.threads[t := m];
    TakesWalk(u, t);
  }

  // ---------------------------------------------------------------- stretches of the run

  // From a saved position p, whose reference is given up, to the callback of the observer after it.
  function Called(s: State, t: Tid, p: Proxy, q: Proxy): State {
    In(s.Add(p, -1).Add(q, 1), t, s.At(t).Begin(Entry), Frm(Calling, Null, Null, To(q)))
  }

  lemma NextCallback(s: State, t: Tid, p: Proxy, q: Proxy)
    requires s.At(t).UserCode() && s.At(t).saved == To(p)
    requires p in s.observed && q in s.observed && s.Next(p) == To(q)
    ensures Reaches(s, Called(s, t, p, q))
  {
    var l, u := s.At(t).Begin(Entry), s.Add(p, -1);
    var a, b := In(s, t, l, Frm(Quick, To(p), To(p), Null)), In(u, t, l, Frm(Advance, Null, To(p), Null));
    var c, d := In(u, t, l, Frm(Test, Null, To(q), Null)), Called(s, t, p, q);
    assert l.With(Frm(Quick, To(p), To(p), Null)) == l;
    TakesBegin(s, t);
    QuickStep(s, t, l, Frm(Quick, To(p), To(p), Null), p);
    AdvanceStep(u, t, l, Frm(Advance, Null, To(p), Null), q);
    TestStep(u, t, l, Frm(Test, Null, To(q), Null), q);
    Chain(s, a, b);
    Chain(s, b, c);
    Chain(s, c, d);
  }

  const SAVED := Local(Null, true, false, [])

  // The first entry pass of a thread over the only proxy there is.
  lemma FirstPass(s: State, t: Tid, p: Proxy)
    requires s.At(t) == IDLE && s.first == To(p) && s.Next(p) == Null && p in s.observed
    ensures Reaches(s, s.Add(p, 1).Move(t, SAVED.(saved := To(p))))
  {
    var l, u := IDLE.Begin(Entry), s.Add(p, 1);
    var a, b := In(s, t, l, Frm(Quick, Null, Null, Null)), In(s, t, l, Frm(Advance, Null, Null, Null));
    var c, d := In(s, t, l, Frm(Test, Null, To(p), Null)), In(u, t, l, Frm(Calling, Null, Null, To(p)));
    assert l.With(Frm(Quick, Null, Null, Null)) == l;
    TakesBegin(s, t);
    SkipStep(s, t, l, Frm(Quick, Null, Null, Null));
    AdvanceStep(s, t, l, Frm(Advance, Null, Null, Null), p);
    TestStep(s, t, l, Frm(Test, Null, To(p), Null), p);
    Chain(s, a, b);
    Chain(s, b, c);
    Chain(s, c, d);
    LastPart(s, t, l, p);
    Chain(s, d, s.Add(p, 1).Move(t, SAVED.(saved := To(p))));
  }

  lemma LastPart(s: State, t: Tid, l: Local, p: Proxy)
    requires l == IDLE.Begin(Entry) && s.Next(p) == Null && p in s.observed
    ensures Reaches(In(s.Add(p, 1), t, l, Frm(Calling, Null, Null, To(p))), s.Add(p, 1).Move(t, SAVED.(saved := To(p))))
  {
    var u, v := s.Add(p, 1), s.Add(p, 1).Add(p, -1);
    var d, e := In(u, t, l, Frm(Calling, Null, Null, To(p))), In(u, t, l, Frm(Quick, To(p), To(p), Null));
    var f, g := In(v, t, l, Frm(Advance, Null, To(p), Null)), v.Add(p, 1).Move(t, l.With(Frm(Advance, Null, To(p), Null)).Return(To(p)));
    ResumeStep(u, t, l, Frm(Calling, Null, Null, To(p)));
    QuickStep(u, t, l, Frm(Quick, To(p), To(p), Null), p);
    EndStep(v, t, l, Frm(Advance, Null, To(p), Null), p);
    Chain(d, e, f);
    Chain(d, f, g);
    assert v.Add(p, 1).count == u.count;
    assert l.With(Frm(Advance, Null, To(p), Null)).Below() == [];
  }

  lemma NewProxy(s: State, t: Tid, p: Proxy)
    requires s.At(t).UserCode() && NoReaders(s) && p !in s.alive
    ensures Reaches(s, Append(s, p))
  {
    Takes(s, t, Append(s, p));
  }

  // observe(false) for a proxy with one reference left.
  function Deleted(s: State, t: Tid, p: Proxy): State {
    Unlink(s.(observed := s.observed - {p}).Add(p, -1), p).(alive := s.alive - {p}).Move(t, IDLE)
  }

  lemma Forgetting(s: State, t: Tid, p: Proxy)
    requires s.At(t) == IDLE && p in s.observed && s.Rc(p) == 1 && NoReaders(s)
    ensures Reaches(s, Deleted(s, t, p))
  {
    var l, f := IDLE.(stack := [Releasing(p)]), Releasing(p);
    var u := s.(observed := s.observed - {p});
    var v := Unlink(u.Add(p, -1), p);
    UnlinkChanges(u.Add(p, -1), p);
    var a, b, c := In(u, t, l, f), In(u, t, l, f.(pc := Want)), In(v, t, l, f.(pc := Gone));
    assert IDLE.stack + [f] == [f] && l.With(f) == l;
    assert Forget(s, t, a) by { assert a == s.Move(t, IDLE.(stack := IDLE.stack + [Releasing(p)])).(observed := s.observed - {p}); }
    TakesForget(s, t, a);
    WithAgain(u, t, l, f, f.(pc := Want));
    TakesGiveUp(a, t, b);
    Waiting(s, u, t, l, f, p);
    Deleting(v, t, l, f, p);
    Chain(s, a, b);
    Chain(s, b, c);
    Chain(s, c, Deleted(s, t, p));
  }

  lemma ReleaseEnds(p: Proxy)
    ensures var l := IDLE.(stack := [Releasing(p).(pc := Gone)]); l.Top() == Releasing(p).(pc := Gone) && Dropped(l) == IDLE
  {
  }

  lemma UnlinkElsewhere(x: State, t: Tid, l: Local, p: Proxy)
    ensures Unlink(x.Move(t, l), p) == Unlink(x, p).Move(t, l)
  {
    var y := x.Move(t, l);
    assert y.Next(p) == x.Next(p) && y.Prev(p) == x.Prev(p);
    if x.Next(p).To? {
      if x.Prev(p).To? { assert Unlink(y, p).next == Unlink(x, p).next; } else { assert Unlink(y, p).prev == Unlink(x, p).prev; }
    } else {
      if x.Prev(p).To? { assert Unlink(y, p).next == Unlink(x, p).next; } else { assert Unlink(y, p).prev == Unlink(x, p).prev; }
    }
  }

  lemma WantUnlinks(b: State, t: Tid, f: Frame, p: Proxy)
    requires b.At(t) == IDLE.(stack := [f]) && f == Releasing(p).(pc := Want) && b.Rc(p) == 1 && NoReaders(b)
    ensures Reaches(b, Unlink(b.Add(p, -1), p).Move(t, b.At(t).With(f.(pc := Gone))))
  {
    TakesGiveUp(b, t, Unlink(b.Add(p, -1), p).Move(t, b.At(t).With(f.(pc := Gone))));
  }

  lemma Waiting(s: State, u: State, t: Tid, l: Local, f: Frame, p: Proxy)
    requires NoReaders(s) && u == s.(observed := s.observed - {p}) && s.Rc(p) == 1
    requires f == Releasing(p) && l == IDLE.(stack := [f])
    ensures Reaches(In(u, t, l, f.(pc := Want)), In(Unlink(u.Add(p, -1), p), t, l, f.(pc := Gone)))
  {
    var b, v := In(u, t, l, f.(pc := Want)), Unlink(u.Add(p, -1), p);
    WithAgain(u, t, l, f.(pc := Want), f.(pc := Gone));
    WithAgain(v, t, l, f.(pc := Want), f.(pc := Gone));
    UnlinkElsewhere(u.Add(p, -1), t, l.With(f.(pc := Want)), p);
    assert b.Add(p, -1) == u.Add(p, -1).Move(t, l.With(f.(pc := Want)));
    assert l.With(f.(pc := Want)).stack == [f.(pc := Want)];
    forall w ensures !b.At(w).Reads() {
      assert !s.At(w).Reads();
    }
    WantUnlinks(b, t, f.(pc := Want), p);
  }

  lemma GoneDeletes(c: State, t: Tid, p: Proxy)
    requires c.At(t) == IDLE.(stack := [Releasing(p).(pc := Gone)])
    ensures Reaches(c, c.Move(t, IDLE).(alive := c.alive - {p}))
  {
    ReleaseEnds(p);
    TakesGiveUp(c, t, c.Move(t, IDLE).(alive := c.alive - {p}));
  }

  lemma Deleting(v: State, t: Tid, l: Local, f: Frame, p: Proxy)
    requires f == Releasing(p) && l == IDLE.(stack := [f])
    ensures Reaches(In(v, t, l, f.(pc := Gone)), v.Move(t, IDLE).(alive := v.alive - {p}))
  {
    assert l.With(f.(pc := Gone)).stack == [f.(pc := Gone)];
    assert v.threads[t := l.With(f.(pc := Gone))][t := IDLE] == v.threads[t := IDLE];
    GoneDeletes(In(v, t, l, f.(pc := Gone)), t, p);
  }

  // ---------------------------------------------------------------- the run

  const EMPTY := State(Null, Null, map[], map[], map[], {}, {}, map[], [])

  // Two threads have saved proxy 1; proxy 2 comes after it.
  ghost predicate Ready(s: State) {
    && s.first == To(1) && s.last == To(2) && s.Next(1) == To(2) && s.observed == {1, 2} && s.alive == {1, 2} && s.Rc(1) == 3
    && s.At(0) == s.At(1) == SAVED.(saved := To(1))
    && forall t :: t > 1 ==> s.At(t) == IDLE
  }

  lemma Beginning() returns (s: State)
    ensures Init(EMPTY) && Reaches(EMPTY, s) && Ready(s)
  {
    var a := Append(EMPTY, 1);
    NewProxy(EMPTY, 0, 1);
    FirstPass(a, 0, 1);
    var b := a.Add(1, 1).Move(0, SAVED.(saved := To(1)));
    FirstPass(b, 1, 1);
    var c := b.Add(1, 1).Move(1, SAVED.(saved := To(1)));
    NewProxy(c, 0, 2);
    s := Append(c, 2);
    Chain(EMPTY, a, b);
    Chain(EMPTY, b, c);
    Chain(EMPTY, c, s);
  }

  // Thread 0 is in the callback of proxy 2 and has given up its reference on proxy 1.
  ghost predicate Inside(s: State) {
    && s.last == To(2) && s.Next(1) == To(2) && s.observed == {1, 2} && s.alive == {1, 2} && s.Rc(1) == 2
    && s.At(0).UserCode() && s.At(0).saved == To(1) && s.At(1) == SAVED.(saved := To(1)) && s.At(2) == IDLE && NoReaders(s)
  }

  lemma OuterPass(s: State) returns (a: State)
    requires Ready(s)
    ensures Reaches(s, a) && Inside(a)
  {
    NextCallback(s, 0, 1, 2);
    a := Called(s, 0, 1, 2);
    forall t ensures t > 0 ==> a.At(t) == s.At(t) {}
    forall t ensures !a.At(t).Reads() {
      if t > 0 { assert !s.At(t).Reads(); } else { assert a.At(0).Top().pc.Calling?; }
    }
  }

  // There it switches observer 3 on; the entry pass that follows comes to proxy 2 again.
  lemma InnerPass(a: State) returns (u: State)
    requires Inside(a)
    ensures Reaches(a, u) && u.Rc(1) == 1 && 1 in u.observed && NoReaders(u) && u.At(2) == IDLE
    ensures u.At(1) == SAVED.(saved := To(1))
  {
    NewProxy(a, 0, 3);
    var b := Append(a, 3);
    assert b.threads == a.threads && b.Rc(1) == 2;
    forall t ensures b.At(t) == a.At(t) {}
    NextCallback(b, 0, 1, 2);
    u := Called(b, 0, 1, 2);
    forall t ensures t > 0 ==> u.At(t) == a.At(t) {}
    forall t ensures !u.At(t).Reads() {
      if t > 0 { assert !a.At(t).Reads(); } else { assert u.At(0).Top().pc.Calling?; }
    }
    Chain(a, b, u);
  }

  // Observer 1 is switched off: its proxy goes, although thread 1 has it saved, and thread 1 comes back to it.
  lemma NestedPassLosesProxy() returns (run: seq<State>)
    ensures Run(run)
    ensures var s := run[|run| - 1];
      s.At(1).saved == To(1) && Touched(s.At(1)) == {1} && 1 !in s.alive
    ensures !ProperRun(run)
  {
    var s := Beginning();
    var a := OuterPass(s);
    var u := InnerPass(a);
    Forgetting(u, 2, 1);
    var v := Deleted(u, 2, 1);
    UnlinkChanges(u.(observed := u.observed - {1}).Add(1, -1), 1);
    assert v.At(1) == u.At(1);
    var w := v.Move(1, v.At(1).Begin(Entry));
    TakesBegin(v, 1);
    Chain(EMPTY, s, a);
    Chain(EMPTY, a, u);
    Chain(EMPTY, u, v);
    Chain(EMPTY, v, w);
    run := RunTo(EMPTY, w);
    if ProperRun(run) {
      RunInv(run, |run| - 1);
      InvUntouched(run[|run| - 1]);
    }
  }
}
