// What the observer list guarantees over whole runs, and exactly when. The counts are right as long as no pass
// starts twice from one saved position and no saved position is overwritten; passes that nest do both.
module ObserverPasses {
  import opened ObserverModel
  import opened ObserverLinks
  import opened ObserverList

  // Every linked proxy is counted once for its observer and once for each reference, and what is counted is linked.
  ghost predicate Exact(s: State) {
    && (forall p :: p in s.order ==> s.Rc(p) == References(s, p))
    && (forall t, p {:trigger s.At(t).Count(p)} :: s.At(t).Count(p) > 0 ==> p in s.order)
  }

  // No thread is about to dereference a proxy that has been deleted.
  ghost predicate Untouched(s: State) {
    && (forall t {:trigger s.At(t)} :: Touched(s.At(t)) <= s.alive)
    && (forall p :: p in s.order ==>
          && (s.Next(p).To? ==> s.Next(p).p in s.alive)
          && (s.Prev(p).To? ==> s.Prev(p).p in s.alive))
  }

  // ---------------------------------------------------------------- proper runs

  lemma InvExact(s: State)
    requires Inv(s)
    ensures Exact(s)
  {
    forall t, p | s.At(t).Count(p) > 0 ensures p in s.order {
      if p !in s.order { NotCounted(s, t, p); }
    }
  }

  lemma InvUntouched(s: State)
    requires Inv(s)
    ensures Untouched(s)
  {
    forall t ensures Touched(s.At(t)) <= s.alive {
      assert LocalOk(s, s.At(t));
      if s.At(t).stack != [] { assert FrameOk(s, s.At(t).Top()); }
    }
    forall p | p in s.order ensures (s.Next(p).To? ==> s.Next(p).p in s.alive) && (s.Prev(p).To? ==> s.Prev(p).p in s.alive) {
      var i :| 0 <= i < |s.order| && s.order[i] == p;
      assert Read(s.next, s.order[i]) == PtrAt(s.order, i + 1);
      assert Read(s.prev, s.order[i]) == PtrAt(s.order, i - 1);
    }
  }

  lemma InitInv(s: State)
    requires Init(s)
    ensures Inv(s)
  {
    assert forall t :: s.At(t) == IDLE;
  }

  lemma ProperKeeps(s: State, s': State)
    requires Inv(s) && ProperStep(s, s')
    ensures Inv(s')
  {
    var t :| ThreadStep(s, t, s') && !Misuse(s.At(t), s'.At(t));
    InvStep(s, t, s');
  }

  lemma {:induction false} RunInv(run: seq<State>, k: nat)
    requires ProperRun(run) && k < |run|
    ensures Inv(run[k])
  {
    if k == 0 {
      InitInv(run[0]);
    } else {
      RunInv(run, k - 1);
      assert FollowsProperly(run, k);
      ProperKeeps(run[k - 1], run[k]);
    }
  }

  // ---------------------------------------------------------------- what a step does to the threads

  predicate Pushes(l: Local, m: Local) {
    l.UserCode() && m.stack != [] && m == l.(stack := l.stack + [m.Top()]) && m.Top().kind.Release?
  }

  predicate Turns(l: Local, m: Local) {
    && l.stack != [] && m.stack != [] && m == l.With(m.Top())
    && m.Top().kind == l.Top().kind && m.Top().inner == l.Top().inner
  }

  ghost predicate Returns(l: Local, m: Local) { l.stack != [] && exists result :: m == l.Return(result) }

  // A thread goes on in one of these ways.
  ghost predicate Moves(l: Local, m: Local) {
    || m == l || Pushes(l, m) || Turns(l, m) || Returns(l, m)
    || (l.UserCode() && m == l.Begin(Entry)) || (l.stack == [] && (m == l.Begin(Exit) || m == IDLE))
  }

  ghost predicate OnlyThread(s: State, t: Tid, s': State) {
    Moves(s.At(t), s'.At(t)) && forall u :: u != t ==> s'.At(u) == s.At(u)
  }

  lemma CreateMoves(s: State, t: Tid, s': State)
    requires Create(s, t, s')
    ensures OnlyThread(s, t, s') && s'.At(t) == s.At(t)
  {
    var p :| p !in s.alive && s' == Append(s, p);
    assert s'.threads == s.threads;
    assert forall u :: s'.At(u) == s.At(u);
  }

  lemma ForgetMoves(s: State, t: Tid, s': State)
    requires Forget(s, t, s')
    ensures OnlyThread(s, t, s') && Pushes(s.At(t), s'.At(t))
  {
  }

  lemma TopOfWith(l: Local, f: Frame)
    requires l.stack != [] && f.kind == l.Top().kind && f.inner == l.Top().inner
    ensures Turns(l, l.With(f))
  {
  }

  lemma LeaveMoves(l: Local, own: Ptr, final: bool)
    requires l.stack != []
    ensures Moves(l, Leave(l, own, final))
  {
    var f := l.Top();
    TopOfWith(l, f.(pc := Slow, drop := f.last, last := Null, cur := Null, own := own, final := final));
    TopOfWith(l, f.(pc := Calling, cur := Null, own := own));
  }

  lemma DroppedMoves(l: Local)
    requires l.stack != []
    ensures Moves(l, Dropped(l))
  {
    TopOfWith(l, l.Top().(pc := Calling, drop := Null));
  }

  lemma OneMoved(s: State, t: Tid, m: Local, s': State)
    requires s'.threads == s.threads[t := m] && Moves(s.At(t), m)
    ensures OnlyThread(s, t, s') && s'.At(t) == m
  {
  }

  lemma QuickMoves(s: State, t: Tid)
    requires s.At(t).At(Quick)
    ensures OnlyThread(s, t, Walk(s, t))
  {
    var l, f := s.At(t), s.At(t).Top();
    TopOfWith(l, f.(pc := Advance, last := Null));
    TopOfWith(l, f.(pc := Advance));
    OneMoved(s, t, if f.last.To? && f.last.p in s.observed then l.With(f.(pc := Advance, last := Null)) else l.With(f.(pc := Advance)),
             Walk(s, t));
  }

  lemma AdvanceMoves(s: State, t: Tid)
    requires s.At(t).At(Advance)
    ensures OnlyThread(s, t, Walk(s, t))
  {
    var l, f := s.At(t), s.At(t).Top();
    var on := if f.cur.To? then s.Next(f.cur.p) else s.first;
    if on.To? {
      TopOfWith(l, f.(pc := Test, cur := on));
      OneMoved(s, t, l.With(f.(pc := Test, cur := on)), Walk(s, t));
    } else {
      var own := if f.kind.Entry? then f.cur else Null;
      LeaveMoves(l, own, true);
      OneMoved(s, t, Leave(l, own, true), Walk(s, t));
    }
  }

  lemma TestMoves(s: State, t: Tid)
    requires s.At(t).At(Test)
    ensures OnlyThread(s, t, Walk(s, t))
  {
    var l, f := s.At(t), s.At(t).Top();
    if f.cur.To? && f.cur.p in s.observed {
      LeaveMoves(l, f.cur, false);
      OneMoved(s, t, Leave(l, f.cur, false), Walk(s, t));
    } else {
      TopOfWith(l, f.(pc := Quick));
      OneMoved(s, t, l.With(f.(pc := Quick)), Walk(s, t));
    }
  }

  lemma WalkMoves(s: State, t: Tid)
    requires s.At(t).Reads()
    ensures OnlyThread(s, t, Walk(s, t))
  {
    if s.At(t).At(Quick) { QuickMoves(s, t); } else if s.At(t).At(Advance) { AdvanceMoves(s, t); } else { TestMoves(s, t); }
  }

  lemma GiveUpMoves(s: State, t: Tid, s': State)
    requires GiveUp(s, t, s')
    ensures OnlyThread(s, t, s')
  {
    var l, f := s.At(t), s.At(t).Top();
    if f.pc.Calling? {
      var m := l.With(f.(pc := Quick, last := f.own, cur := f.own, own := Null));
      TopOfWith(l, f.(pc := Quick, last := f.own, cur := f.own, own := Null));
      OneMoved(s, t, m, s');
    } else if f.pc.Slow? && s.Rc(f.drop.p) <= 1 {
      TopOfWith(l, f.(pc := Want));
      OneMoved(s, t, l.With(f.(pc := Want)), s');
    } else if f.pc.Want? && s.Rc(f.drop.p) == 1 {
      TopOfWith(l, f.(pc := Gone));
      UnlinkChanges(s.Add(f.drop.p, -1), f.drop.p);
      OneMoved(s, t, l.With(f.(pc := Gone)), s');
    } else {
      DroppedMoves(l);
      OneMoved(s, t, Dropped(l), s');
    }
  }

  lemma StepMoves(s: State, t: Tid, s': State)
    requires ThreadStep(s, t, s')
    ensures OnlyThread(s, t, s')
  {
    if Create(s, t, s') {
      CreateMoves(s, t, s');
    } else if Forget(s, t, s') {
      ForgetMoves(s, t, s');
    } else if GiveUp(s, t, s') {
      GiveUpMoves(s, t, s');
    } else if s.At(t).Reads() && s' == Walk(s, t) {
      WalkMoves(s, t);
    }
  }

  // ---------------------------------------------------------------- what a misuse does to the counts

  // A thread's references on a linked proxy change, and its count does not follow.
  lemma CountOff(s: State, t: Tid, m: Local, p: Proxy, s': State)
    requires Counted(s) && p in s.order && s'.order == s.order
    requires s'.threads == s.threads[t := m] && (p in s'.observed <==> p in s.observed)
    requires s'.Rc(p) - s.Rc(p) != m.Count(p) - s.At(t).Count(p)
    ensures !Exact(s')
  {
    ReferencesAfter(s, t, m, s', p);
  }

  lemma StartsAgainBreaks(s: State, t: Tid, kind: Kind, s': State)
    requires Inv(s) && s' == s.Move(t, s.At(t).Begin(kind)) && s.At(t).saved.To? && !s.At(t).held
    ensures !Exact(s')
  {
    var l, m := s.At(t), s.At(t).Begin(kind);
    var p := l.saved.p;
    CountBegin(l, kind, p);
    assert s'.At(t) == m && m.Count(p) > 0;
    if p in s.order {
      CountOff(s, t, m, p, s');
    }
  }

  lemma ReturnBreaks(s: State, t: Tid, result: Ptr, s': State)
    requires Inv(s) && s.At(t).stack != [] && s.At(t).Top().kind.Entry? && s.At(t).held
    requires s'.threads == s.threads[t := s.At(t).Return(result)] && s'.order == s.order && s'.observed == s.observed
    requires forall q :: s'.Rc(q) == s.Rc(q) + (if result == To(q) then 1 else 0) - s.At(t).Top().Count(q)
    ensures !Exact(s')
  {
    var l := s.At(t);
    assert LocalOk(s, l);
    CountReturn(l, result, l.saved.p);
    CountOff(s, t, l.Return(result), l.saved.p, s');
  }

  lemma WalkBreaks(s: State, t: Tid)
    requires Inv(s) && s.At(t).Reads() && Overwrites(s.At(t), Walk(s, t).At(t))
    ensures !Exact(Walk(s, t))
  {
    var l, f, s' := s.At(t), s.At(t).Top(), Walk(s, t);
    assert LocalOk(s, l) && FrameOk(s, f);
    assert f.pc.Advance? && f.last == Null;
    ReturnBreaks(s, t, f.cur, s');
  }

  lemma GiveUpBreaks(s: State, t: Tid, s': State)
    requires Inv(s) && GiveUp(s, t, s') && Overwrites(s.At(t), s'.At(t))
    ensures !Exact(s')
  {
    var l, f := s.At(t), s.At(t).Top();
    assert LocalOk(s, l) && FrameOk(s, f);
    ReturnBreaks(s, t, f.own, s');
  }

  lemma FreeBreaks(s: State, t: Tid, s': State)
    requires Inv(s) && Free(s, t, s') && s.At(t).held
    ensures !Exact(s')
  {
    assert LocalOk(s, s.At(t));
    CountOff(s, t, IDLE, s.At(t).saved.p, s');
  }

  lemma MisuseMoves(l: Local, m: Local)
    requires Moves(l, m) && Misuse(l, m)
    ensures m != l && !Pushes(l, m) && !Turns(l, m)
    ensures Returns(l, m) ==> Overwrites(l, m)
    ensures (m == l.Begin(Entry) || m == l.Begin(Exit)) ==> l.saved.To? && !l.held
    ensures m == IDLE && l.stack == [] ==> l.held
  {
  }

  lemma MisuseBreaks(s: State, t: Tid, s': State)
    requires Inv(s) && ThreadStep(s, t, s') && Misuse(s.At(t), s'.At(t))
    ensures !Exact(s')
  {
    var l, m := s.At(t), s'.At(t);
    StepMoves(s, t, s');
    MisuseMoves(l, m);
    if Create(s, t, s') {
      CreateMoves(s, t, s');
    } else if Forget(s, t, s') {
      ForgetMoves(s, t, s');
    } else if Begin(s, t, s') {
      StartsAgainBreaks(s, t, if s' == s.Move(t, l.Begin(Entry)) then Entry else Exit, s');
    } else if Free(s, t, s') {
      FreeBreaks(s, t, s');
    } else if GiveUp(s, t, s') {
      GiveUpBreaks(s, t, s');
    } else {
      WalkBreaks(s, t);
    }
  }

  // ---------------------------------------------------------------- exactly when the counts are right

  lemma ExactStep(s: State, s': State)
    requires Inv(s) && Step(s, s') && Exact(s')
    ensures ProperStep(s, s')
  {
    var t :| ThreadStep(s, t, s');
    if Misuse(s.At(t), s'.At(t)) {
      MisuseBreaks(s, t, s');
    }
  }

  lemma {:induction false} ExactRunInv(run: seq<State>, k: nat)
    requires Run(run) && k < |run| && forall i :: 0 <= i <= k ==> Exact(run[i])
    ensures Inv(run[k])
    ensures k > 0 ==> FollowsProperly(run, k)
  {
    if k == 0 {
      InitInv(run[0]);
    } else {
      ExactRunInv(run, k - 1);
      assert Follows(run, k);
      ExactStep(run[k - 1], run[k]);
      ProperKeeps(run[k - 1], run[k]);
    }
  }

  // In every state of a run the counts are right and no thread is about to touch a deleted proxy, exactly when in
  // the whole run no pass starts twice from one saved position, no saved position is overwritten by the end of an
  // entry pass, and none is freed.
  lemma ExactExactlyWhenProper(run: seq<State>)
    requires Run(run)
    ensures ProperRun(run) <==> forall k :: 0 <= k < |run| ==> Exact(run[k]) && Untouched(run[k])
    ensures ProperRun(run) <==> forall k :: 0 <= k < |run| ==> Exact(run[k])
  {
    if ProperRun(run) {
      forall k | 0 <= k < |run| ensures Exact(run[k]) && Untouched(run[k]) {
        RunInv(run, k);
        InvExact(run[k]);
        InvUntouched(run[k]);
      }
    }
    if forall k :: 0 <= k < |run| ==> Exact(run[k]) {
      forall k | 0 < k < |run| ensures FollowsProperly(run, k) {
        ExactRunInv(run, k);
      }
    }
  }

  // A linked proxy is counted once for its observer and once for every reference, and what is counted is linked.
  lemma CountsAreExact(run: seq<State>, k: nat, p: Proxy)
    requires ProperRun(run) && k < |run|
    ensures p in run[k].order ==> run[k].Rc(p) == References(run[k], p) && run[k].Rc(p) >= 1
    ensures p in run[k].observed ==> p in run[k].order
    ensures forall t :: run[k].At(t).Count(p) > 0 ==> p in run[k].order
  {
    RunInv(run, k);
    InvExact(run[k]);
  }

  // A proxy leaves the list in exactly the step in which its count becomes zero.
  lemma UnlinkedAtZero(run: seq<State>, k: nat, p: Proxy)
    requires ProperRun(run) && 0 < k < |run| && p in run[k - 1].order
    ensures p !in run[k].order <==> run[k].Rc(p) == 0
  {
    RunInv(run, k - 1);
    CountsAreExact(run, k, p);
    assert FollowsProperly(run, k);
    ProperUnlinksAtZero(run[k - 1], run[k], p);
  }

  lemma ProperUnlinksAtZero(s: State, s': State, p: Proxy)
    requires Inv(s) && ProperStep(s, s') && p in s.order
    ensures p !in s'.order ==> s'.Rc(p) == 0
  {
    var t :| ThreadStep(s, t, s') && !Misuse(s.At(t), s'.At(t));
    if p !in s'.order { OnlyUnlinkRemoves(s, t, s', p); }
  }

  lemma OnlyUnlinkRemoves(s: State, t: Tid, s': State, p: Proxy)
    requires Inv(s) && ThreadStep(s, t, s') && p in s.order && p !in s'.order
    ensures s'.Rc(p) == 0
  {
    var l := s.At(t);
    assert LocalOk(s, l);
    assert l.stack != [] && GiveUp(s, t, s') && l.At(Want);
    assert FrameOk(s, l.Top());
    var q := l.Top().drop.p;
    Unlinking(s, t, l.With(l.Top().(pc := Gone)), q, s');
  }

  // ---------------------------------------------------------------- nested passes

  // In a run whose counts stay right, a pass inside which an entry pass has begun never returns, ...
  lemma EnteredInsideNeverReturns(run: seq<State>, k: nat, t: Tid)
    requires ProperRun(run) && 0 < k < |run|
    requires var l := run[k - 1].At(t); l.stack != [] && l.Top().kind.Entry? && l.Top().inner
    ensures |run[k].At(t).stack| >= |run[k - 1].At(t).stack|
  {
    RunInv(run, k - 1);
    assert LocalOk(run[k - 1], run[k - 1].At(t));
    assert FollowsProperly(run, k);
    ProperMove(run[k - 1], run[k], t);
  }

  // ... and no entry pass begins inside another one that has started from a saved position.
  lemma NoneBeginsInside(run: seq<State>, k: nat, t: Tid)
    requires ProperRun(run) && 0 < k < |run|
    requires run[k - 1].At(t).stack != [] && run[k - 1].At(t).UserCode() && !run[k - 1].At(t).Top().inner
    requires |run[k].At(t).stack| > |run[k - 1].At(t).stack| && !run[k].At(t).Top().kind.Release?
    ensures run[k - 1].At(t).saved == Null
  {
    RunInv(run, k - 1);
    UnenteredIsUsed(run[k - 1], t);
    assert FollowsProperly(run, k);
    ProperMove(run[k - 1], run[k], t);
  }

  lemma UnenteredIsUsed(s: State, t: Tid)
    requires Locals(s) && s.At(t).stack != [] && !s.At(t).Top().inner && s.At(t).UserCode()
    ensures !s.At(t).held
  {
    assert LocalOk(s, s.At(t)) && FrameOk(s, s.At(t).Top());
  }

  lemma ProperMove(s: State, s': State, t: Tid)
    requires ProperStep(s, s')
    ensures Moves(s.At(t), s'.At(t)) && !Misuse(s.At(t), s'.At(t))
  {
    var u :| ThreadStep(s, u, s') && !Misuse(s.At(u), s'.At(u));
    StepMoves(s, u, s');
    assert u != t ==> s'.At(t) == s.At(t);
  }
}
