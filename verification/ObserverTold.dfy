// What observers are told over whole runs: a pass that has returned has called every observer that was there all
// along, in list order and once, and each scheduler tells each observer once that it is there.
module ObserverTold {
  import opened ObserverModel
  import opened ObserverLinks
  import opened ObserverList
  import opened ObserverPasses
  import opened ObserverCalls
  import opened ObserverNesting

  // The calls made at depth d of thread t after state i and up to state k.
  function Calls(run: seq<State>, t: Tid, d: nat, i: nat, k: nat): seq<Proxy>
    requires k < |run|
  {
    if k <= i then [] else Calls(run, t, d, i, k - 1) + CallOf(run[k - 1].At(t), run[k].At(t), d)
  }

  // Proxies linked and observed from state i to state k.
  function Stable(run: seq<State>, i: nat, k: nat): set<Proxy>
    requires i <= k < |run|
  {
    set p | p in run[i].order && forall m {:trigger run[m]} :: i <= m <= k ==> p in run[m].order && p in run[m].observed
  }

  // A pass begins in step i at depth d of thread t, and is under way up to state k.
  ghost predicate UnderWay(run: seq<State>, t: Tid, d: nat, i: nat, k: nat) {
    && 0 < i <= k < |run|
    && |run[i - 1].At(t).stack| == d && |run[i].At(t).stack| == d + 1 && IsPass(run[i].At(t).stack[d])
    && forall m {:trigger run[m]} :: i <= m <= k ==> |run[m].At(t).stack| > d
  }

  // The proxies an entry pass has behind it as it begins.
  function Passed(run: seq<State>, t: Tid, d: nat, i: nat): set<Proxy>
    requires 0 < i < |run| && |run[i].At(t).stack| > d
  {
    if run[i].At(t).stack[d].kind.Entry? && run[i - 1].At(t).saved.To?
    then Elements(UpTo(run[i].order, run[i - 1].At(t).saved.p)) else {}
  }

  function Elements(xs: seq<Proxy>): set<Proxy> { set p | p in xs }

  // What the calls so far are, and what they are once nothing is left.
  ghost predicate CallsRight(run: seq<State>, t: Tid, d: nat, i: nat, k: nat)
    requires UnderWay(run, t, d, i, k)
  {
    var f, keep, out := run[k].At(t).stack[d], Stable(run, i, k), Passed(run, t, d, i);
    && IsPass(f) && f.kind == run[i].At(t).stack[d].kind
    && Right(run[k].order, f, Calls(run, t, d, i, k), keep, out)
  }

  lemma PosIsLinked(s: State, t: Tid, d: nat)
    requires Inv(s) && d < |s.At(t).stack| && IsPass(s.At(t).stack[d])
    ensures PosLinked(PosOf(s.At(t).stack[d]), s.order)
  {
    assert LocalOk(s, s.At(t));
    assert FrameOk(s, s.At(t).stack[d]);
  }

  // Where the list ends everything has been seen, and the next proxy comes right after a position.
  lemma SeenAtEnd(s: State, pos: Pos)
    requires Links(s) && PosLinked(pos, s.order) && AtEnd(s, pos)
    ensures Seen(pos, s.order) == s.order
  {
    if pos.Incl? {
      var i :| 0 <= i < |s.order| && s.order[i] == pos.p;
      assert Read(s.next, s.order[i]) == PtrAt(s.order, i + 1);
      BeforeAt(s.order, i);
      assert s.order[..i + 1] == s.order;
    }
  }

  lemma SeenNext(s: State, pos: Pos, q: Proxy)
    requires Links(s) && PosLinked(pos, s.order)
    requires (pos.Incl? && s.Next(pos.p) == To(q)) || (pos.Start? && s.first == To(q))
    ensures Seen(Excl(q), s.order) == Seen(pos, s.order)
  {
    if pos.Incl? {
      var i :| 0 <= i < |s.order| && s.order[i] == pos.p;
      assert Read(s.next, s.order[i]) == PtrAt(s.order, i + 1);
      BeforeAt(s.order, i);
      BeforeAt(s.order, i + 1);
    } else {
      assert s.first == PtrAt(s.order, 0);
    }
  }

  lemma {:induction false} NotBeforeItself(order: seq<Proxy>, p: Proxy)
    ensures p !in Before(order, p)
  {
    if order != [] && order[0] != p { NotBeforeItself(order[1..], p); }
  }

  // What is kept of the calls and of the part seen.
  ghost predicate Right(order: seq<Proxy>, f: Frame, calls: seq<Proxy>, keep: set<Proxy>, out: set<Proxy>) {
    && Filter(calls, keep) == Filter(Seen(PosOf(f), order), keep - out)
    && (Over(f) ==> Filter(Seen(PosOf(f), order), keep - out) == Filter(order, keep - out))
    && (forall p :: p in keep && p in out ==> p in Seen(PosOf(f), order))
  }

  // The observer at the position is called, or found to be gone.
  lemma RightPast(order: seq<Proxy>, f: Frame, f': Frame, calls: seq<Proxy>, call: seq<Proxy>, keep: set<Proxy>, out: set<Proxy>)
    requires Right(order, f, calls, keep, out) && PosOf(f).Excl? && PosOf(f') == Incl(PosOf(f).p) && !Over(f')
    requires call == [PosOf(f).p] || (call == [] && PosOf(f).p !in keep)
    ensures Right(order, f', calls + call, keep, out)
  {
    var p := PosOf(f).p;
    NotBeforeItself(order, p);
    assert p in keep ==> p !in out;
    FilterSnoc(Before(order, p), p, keep - out);
    FilterSnoc(calls, p, keep);
    assert calls + [] == calls;
    assert Seen(PosOf(f'), order) == Before(order, p) + [p];
  }

  // The position is another one, but the part seen is the same.
  lemma RightSame(order: seq<Proxy>, f: Frame, f': Frame, calls: seq<Proxy>, keep: set<Proxy>, out: set<Proxy>)
    requires Right(order, f, calls, keep, out) && Seen(PosOf(f'), order) == Seen(PosOf(f), order)
    requires Over(f') ==> Over(f) || Seen(PosOf(f), order) == order
    ensures Right(order, f', calls + [], keep, out)
  {
    assert calls + [] == calls;
  }

  // One move of a pass over a list that stays, with its call.
  lemma GoesRight(s: State, f: Frame, f': Frame, calls: seq<Proxy>, call: seq<Proxy>, keep: set<Proxy>, out: set<Proxy>)
    requires Links(s) && PosLinked(PosOf(f), s.order) && Goes(s, f, f', call)
    requires Right(s.order, f, calls, keep, out) && forall p :: p in keep ==> p in s.observed
    ensures Right(s.order, f', calls + call, keep, out)
  {
    if PosOf(f).Excl? && PosOf(f') == Incl(PosOf(f).p) {
      RightPast(s.order, f, f', calls, call, keep, out);
    } else {
      GoesSeen(s, f, f', call);
      RightSame(s.order, f, f', calls, keep, out);
    }
  }

  lemma GoesSeen(s: State, f: Frame, f': Frame, call: seq<Proxy>)
    requires Links(s) && PosLinked(PosOf(f), s.order) && Goes(s, f, f', call)
    requires !(PosOf(f).Excl? && PosOf(f') == Incl(PosOf(f).p))
    ensures call == [] && Seen(PosOf(f'), s.order) == Seen(PosOf(f), s.order)
    ensures Over(f') ==> Over(f) || Seen(PosOf(f), s.order) == s.order
  {
    var pos, pos' := PosOf(f), PosOf(f');
    if AtEnd(s, pos) {
      SeenAtEnd(s, pos);
    } else if pos' != pos {
      SeenNext(s, pos, pos'.p);
    }
  }

  // The list changes, and the pass rests.
  lemma ListRight(order: seq<Proxy>, order': seq<Proxy>, f: Frame, f': Frame, calls: seq<Proxy>, keep: set<Proxy>, out: set<Proxy>)
    requires Right(order, f, calls, keep, out) && ListMove(order, order') && PosOf(f') == PosOf(f) && (Over(f') <==> Over(f))
    requires PosLinked(PosOf(f), order) && PosLinked(PosOf(f), order')
    requires forall p :: p in keep ==> p in order && p in order'
    ensures Right(order', f', calls + [], keep, out)
  {
    assert calls + [] == calls;
    SeenKept(PosOf(f), order, order', keep);
    SeenKept(PosOf(f), order, order', keep - out);
    forall p | p in keep && p in out ensures p in Seen(PosOf(f), order') {
      FilterHas(Seen(PosOf(f), order), keep, p);
      FilterHas(Seen(PosOf(f), order'), keep, p);
    }
  }

  // Fewer proxies are kept.
  lemma LessRight(order: seq<Proxy>, f: Frame, calls: seq<Proxy>, keep: set<Proxy>, keep': set<Proxy>, out: set<Proxy>)
    requires Right(order, f, calls, keep, out) && keep' <= keep
    ensures Right(order, f, calls, keep', out)
  {
    FilterLess(calls, Seen(PosOf(f), order), keep, keep', out);
    if Over(f) {
      assert keep - out - {} == keep - out;
      FilterLess(Seen(PosOf(f), order), order, keep - out, keep' - out, {});
      assert keep - out - {} == keep - out && keep' - out - {} == keep' - out;
    }
  }

  // ---------------------------------------------------------------- over whole runs

  lemma StableShrinks(run: seq<State>, i: nat, k: nat)
    requires i < k < |run|
    ensures Stable(run, i, k) <= Stable(run, i, k - 1)
    ensures forall p :: p in Stable(run, i, k) ==> p in run[k].order && p in run[k - 1].order && p in run[k - 1].observed
  {
    assert i <= k - 1 <= k;
    forall p | p in Stable(run, i, k) ensures p in run[k - 1].order && p in run[k - 1].observed && p in run[k].order {}
  }

  lemma PassBegins(s: State, s': State, t: Tid, d: nat)
    requires Inv(s) && Step(s, s') && |s.At(t).stack| == d && |s'.At(t).stack| == d + 1 && IsPass(s'.At(t).stack[d])
    ensures var f := s'.At(t).stack[d]; !Over(f) && !Waits(f) && PosOf(f) == if f.kind.Entry? then Ahead(s.At(t).saved) else Start
    ensures s'.order == s.order
  {
    var u :| ThreadStep(s, u, s');
    StepMoves(s, u, s');
    OrderStep(s, u, s');
    assert u == t;
    var l, m := s.At(t), s'.At(t);
    assert m == l.Begin(Entry) || m == l.Begin(Exit);
    assert m.stack[d] == m.Top();
  }

  lemma BeginsRight(run: seq<State>, t: Tid, d: nat, i: nat)
    requires ProperRun(run) && UnderWay(run, t, d, i, i)
    ensures CallsRight(run, t, d, i, i)
  {
    RunInv(run, i - 1);
    ProperFollows(run, i);
    PassBegins(run[i - 1], run[i], t, d);
    var f, keep, out := run[i].At(t).stack[d], Stable(run, i, i), Passed(run, t, d, i);
    FilterNone(Seen(PosOf(f), run[i].order), keep - out);
  }

  lemma ProperFollows(run: seq<State>, k: nat)
    requires ProperRun(run) && 0 < k < |run|
    ensures Step(run[k - 1], run[k])
  {
    assert FollowsProperly(run, k);
  }

  // What the next step is for a pass under way.
  ghost predicate NextOfPass(s: State, s': State, l: Local, m: Local, d: nat)
    requires d < |l.stack|
  {
    if d < |m.stack| then
      var f, f' := l.stack[d], m.stack[d];
      && Links(s) && ListMove(s.order, s'.order) && f'.kind == f.kind && Goes(s, f, f', CallOf(l, m, d))
      && (s'.order != s.order ==> Rests(l, m, d))
      && PosLinked(PosOf(f), s.order) && PosLinked(PosOf(f'), s'.order)
    else
      s'.order == s.order && (Over(l.stack[d]) || Seen(PosOf(l.stack[d]), s.order) == s.order)
  }

  lemma PassGoesOn(s: State, s': State, t: Tid, d: nat)
    requires Inv(s) && Inv(s') && Step(s, s') && d < |s.At(t).stack| && IsPass(s.At(t).stack[d])
    ensures NextOfPass(s, s', s.At(t), s'.At(t), d)
  {
    PassStep(s, s', t, d);
    PosIsLinked(s, t, d);
    if d < |s'.At(t).stack| { PosIsLinked(s', t, d); }
    var pos := PosOf(s.At(t).stack[d]);
    if AtEnd(s, pos) { SeenAtEnd(s, pos); }
  }

  lemma StepOfPass(run: seq<State>, t: Tid, d: nat, k: nat)
    requires ProperRun(run) && 0 < k < |run| && |run[k - 1].At(t).stack| > d && IsPass(run[k - 1].At(t).stack[d])
    ensures NextOfPass(run[k - 1], run[k], run[k - 1].At(t), run[k].At(t), d)
  {
    RunInv(run, k - 1);
    RunInv(run, k);
    ProperFollows(run, k);
    PassGoesOn(run[k - 1], run[k], t, d);
  }

  lemma StaysRight(run: seq<State>, t: Tid, d: nat, i: nat, k: nat)
    requires ProperRun(run) && UnderWay(run, t, d, i, k) && i < k && UnderWay(run, t, d, i, k - 1) && CallsRight(run, t, d, i, k - 1)
    ensures CallsRight(run, t, d, i, k)
  {
    var s, s' := run[k - 1], run[k];
    var f, f' := s.At(t).stack[d], s'.At(t).stack[d];
    var calls, call := Calls(run, t, d, i, k - 1), CallOf(s.At(t), s'.At(t), d);
    var keep, keep', out := Stable(run, i, k - 1), Stable(run, i, k), Passed(run, t, d, i);
    StepOfPass(run, t, d, k);
    StableShrinks(run, i, k);
    LessRight(s.order, f, calls, keep, keep', out);
    MoveRight(s, s', f, f', calls, call, keep', out);
  }

  lemma MoveRight(s: State, s': State, f: Frame, f': Frame, calls: seq<Proxy>, call: seq<Proxy>, keep: set<Proxy>, out: set<Proxy>)
    requires Links(s) && ListMove(s.order, s'.order) && Right(s.order, f, calls, keep, out) && Goes(s, f, f', call)
    requires s'.order != s.order ==> call == [] && PosOf(f') == PosOf(f) && (Over(f') <==> Over(f))
    requires PosLinked(PosOf(f), s.order) && PosLinked(PosOf(f'), s'.order)
    requires forall p :: p in keep ==> p in s.observed && p in s.order && p in s'.order
    ensures Right(s'.order, f', calls + call, keep, out)
  {
    if s'.order == s.order {
      GoesRight(s, f, f', calls, call, keep, out);
    } else {
      ListRight(s.order, s'.order, f, f', calls, keep, out);
    }
  }

  lemma {:induction false} PassIsRight(run: seq<State>, t: Tid, d: nat, i: nat, k: nat)
    requires ProperRun(run) && UnderWay(run, t, d, i, k)
    ensures CallsRight(run, t, d, i, k)
    decreases k
  {
    if k == i {
      BeginsRight(run, t, d, i);
    } else {
      assert UnderWay(run, t, d, i, k - 1);
      PassIsRight(run, t, d, i, k - 1);
      StaysRight(run, t, d, i, k);
    }
  }

  // A pass that returns in step j has called exactly those of the observers linked and observed all along that are
  // not at or before the position it started from, in list order and once each; an exit pass starts from none.
  lemma PassCallsThemAll(run: seq<State>, t: Tid, d: nat, i: nat, j: nat)
    requires ProperRun(run) && i < j < |run| && UnderWay(run, t, d, i, j - 1) && |run[j].At(t).stack| == d
    ensures Filter(Calls(run, t, d, i, j), Stable(run, i, j)) == Filter(run[j].order, Stable(run, i, j) - Passed(run, t, d, i))
    ensures run[i].At(t).stack[d].kind.Exit? ==> Filter(Calls(run, t, d, i, j), Stable(run, i, j)) == Filter(run[j].order, Stable(run, i, j))
  {
    PassIsRight(run, t, d, i, j - 1);
    PassEnds(run, t, d, i, j);
    var keep := Stable(run, i, j);
    assert run[i].At(t).stack[d].kind.Exit? ==> keep - Passed(run, t, d, i) == keep;
  }

  lemma PassEnds(run: seq<State>, t: Tid, d: nat, i: nat, j: nat)
    requires ProperRun(run) && i < j < |run| && UnderWay(run, t, d, i, j - 1) && CallsRight(run, t, d, i, j - 1)
    requires |run[j].At(t).stack| == d
    ensures Filter(Calls(run, t, d, i, j), Stable(run, i, j)) == Filter(run[j].order, Stable(run, i, j) - Passed(run, t, d, i))
  {
    var s := run[j - 1];
    var f, calls, out := s.At(t).stack[d], Calls(run, t, d, i, j - 1), Passed(run, t, d, i);
    StepOfPass(run, t, d, j);
    StableShrinks(run, i, j);
    LessRight(s.order, f, calls, Stable(run, i, j - 1), Stable(run, i, j), out);
    assert Calls(run, t, d, i, j) == calls + [];
    assert calls + [] == calls;
  }

  lemma {:induction false} OnceIfDistinct(xs: seq<Proxy>, ys: seq<Proxy>, keep: set<Proxy>, keep': set<Proxy>, p: Proxy)
    requires Filter(xs, keep) == Filter(ys, keep') && p in keep && p in keep' && p in ys
    requires forall i, j :: 0 <= i < j < |ys| ==> ys[i] != ys[j]
    ensures multiset(xs)[p] == 1
  {
    FilterCount(xs, keep, p);
    FilterCount(ys, keep', p);
    DistinctCount(ys, p);
  }

  lemma {:induction false} FilterCount(xs: seq<Proxy>, keep: set<Proxy>, p: Proxy)
    requires p in keep
    ensures multiset(Filter(xs, keep))[p] == multiset(xs)[p]
  {
    if xs != [] {
      var n := |xs| - 1;
      assert xs == xs[..n] + [xs[n]];
      FilterCount(xs[..n], keep, p);
    }
  }

  lemma {:induction false} DistinctCount(ys: seq<Proxy>, p: Proxy)
    requires p in ys && forall i, j :: 0 <= i < j < |ys| ==> ys[i] != ys[j]
    ensures multiset(ys)[p] == 1
  {
    var n := |ys| - 1;
    assert ys == ys[..n] + [ys[n]];
    if ys[n] == p {
      assert p !in ys[..n];
    } else {
      DistinctCount(ys[..n], p);
    }
  }

  // So each of them is called exactly once.
  lemma PassCallsEachOnce(run: seq<State>, t: Tid, d: nat, i: nat, j: nat, p: Proxy)
    requires ProperRun(run) && i < j < |run| && UnderWay(run, t, d, i, j - 1) && |run[j].At(t).stack| == d
    requires p in Stable(run, i, j) && p !in Passed(run, t, d, i)
    ensures multiset(Calls(run, t, d, i, j))[p] == 1
  {
    PassCallsThemAll(run, t, d, i, j);
    RunInv(run, j);
    OnceIfDistinct(Calls(run, t, d, i, j), run[j].order, Stable(run, i, j), Stable(run, i, j) - Passed(run, t, d, i), p);
  }

  // ---------------------------------------------------------------- nobody else is called

  ghost predicate WasThere(run: seq<State>, i: nat, k: nat, p: Proxy) {
    exists m {:trigger run[m]} :: i <= m <= k < |run| && p in run[m].observed
  }

  // Whoever has been called, or been chosen to be called, was observed during the pass.
  ghost predicate CalledWere(run: seq<State>, t: Tid, d: nat, i: nat, k: nat)
    requires UnderWay(run, t, d, i, k)
  {
    var f := run[k].At(t).stack[d];
    && (forall p :: p in Calls(run, t, d, i, k) ==> WasThere(run, i, k, p))
    && (Waits(f) ==> PosOf(f).Excl? && WasThere(run, i, k, PosOf(f).p))
  }

  lemma WasStays(run: seq<State>, i: nat, k: nat, p: Proxy)
    requires i < k < |run| && (WasThere(run, i, k - 1, p) || p in run[k - 1].observed)
    ensures WasThere(run, i, k, p)
  {
    if WasThere(run, i, k - 1, p) {
      var m :| i <= m <= k - 1 < |run| && p in run[m].observed;
      assert p in run[m].observed;
    }
  }

  lemma {:induction false} CalledWereThere(run: seq<State>, t: Tid, d: nat, i: nat, k: nat)
    requires ProperRun(run) && UnderWay(run, t, d, i, k)
    ensures CalledWere(run, t, d, i, k)
    decreases k
  {
    if k == i {
      NobodyCalledYet(run, t, d, i);
    } else {
      assert UnderWay(run, t, d, i, k - 1);
      CalledWereThere(run, t, d, i, k - 1);
      GoesOn(run, t, d, i, k);
      CalledMore(run, t, d, i, k);
    }
  }

  lemma NobodyCalledYet(run: seq<State>, t: Tid, d: nat, i: nat)
    requires ProperRun(run) && UnderWay(run, t, d, i, i)
    ensures CalledWere(run, t, d, i, i)
  {
    RunInv(run, i - 1);
    ProperFollows(run, i);
    PassBegins(run[i - 1], run[i], t, d);
  }

  lemma GoesOn(run: seq<State>, t: Tid, d: nat, i: nat, k: nat)
    requires ProperRun(run) && i < k && UnderWay(run, t, d, i, k) && UnderWay(run, t, d, i, k - 1)
    ensures Goes(run[k - 1], run[k - 1].At(t).stack[d], run[k].At(t).stack[d], CallOf(run[k - 1].At(t), run[k].At(t), d))
  {
    PassIsRight(run, t, d, i, k - 1);
    StepOfPass(run, t, d, k);
  }

  lemma CalledMore(run: seq<State>, t: Tid, d: nat, i: nat, k: nat)
    requires i < k && UnderWay(run, t, d, i, k) && UnderWay(run, t, d, i, k - 1) && CalledWere(run, t, d, i, k - 1)
    requires Goes(run[k - 1], run[k - 1].At(t).stack[d], run[k].At(t).stack[d], CallOf(run[k - 1].At(t), run[k].At(t), d))
    ensures CalledWere(run, t, d, i, k)
  {
    var f, f' := run[k - 1].At(t).stack[d], run[k].At(t).stack[d];
    var call := CallOf(run[k - 1].At(t), run[k].At(t), d);
    forall p | p in Calls(run, t, d, i, k) ensures WasThere(run, i, k, p) {
      assert p in Calls(run, t, d, i, k - 1) || p in call;
      WasStays(run, i, k, p);
    }
    if Waits(f') { WasStays(run, i, k, PosOf(f).p); }
  }

  // A pass calls nobody who was not observed at some time during it.
  lemma OnlyObserversAreCalled(run: seq<State>, t: Tid, d: nat, i: nat, k: nat, p: Proxy)
    requires ProperRun(run) && UnderWay(run, t, d, i, k) && p in Calls(run, t, d, i, k)
    ensures exists m :: i <= m <= k && p in run[m].observed
  {
    CalledWereThere(run, t, d, i, k);
    assert WasThere(run, i, k, p);
  }
}
