// Each scheduler tells each observer once that it is there, as long as its passes do not nest.
module ObserverOnce {
  import opened ObserverModel
  import opened ObserverLinks
  import opened ObserverList
  import opened ObserverPasses
  import opened ObserverNesting
  import opened ObserverCalls
  import opened ObserverTold

  // The observer an entry pass of a thread begins to call in a step.
  function EntryCall(l: Local, m: Local): seq<Proxy> {
    if l.stack != [] && |m.stack| == |l.stack| && m.Top().kind.Entry? then CallOf(l, m, |l.stack| - 1) else []
  }

  // The observers entry passes of thread t have called after state a.
  function Told(run: seq<State>, t: Tid, a: nat, k: nat): seq<Proxy>
    requires k < |run|
  {
    if k <= a then [] else Told(run, t, a, k - 1) + EntryCall(run[k - 1].At(t), run[k].At(t))
  }

  predicate Enters(l: Local) { l.stack != [] && l.stack[0].kind.Entry? }

  // How far in the list the scheduler of a thread has come.
  function PosBy(l: Local): Pos { if Enters(l) then PosOf(l.stack[0]) else if l.held then Ahead(l.saved) else Start }

  // A step of a thread, seen by its scheduler.
  ghost predicate ByGoes(s: State, l: Local, m: Local, s': State) {
    var pos, pos', call := PosBy(l), PosBy(m), EntryCall(l, m);
    || (pos' == pos && call == [])
    || (s'.order == s.order && call == [] && Seen(pos', s.order) == Seen(pos, s.order))
    || (s'.order == s.order && pos.Excl? && pos' == Incl(pos.p) && (call == [pos.p] || (call == [] && pos.p !in s.observed)))
  }

  // While an entry pass is under way its calls are those of the frame at the bottom.
  lemma CallsAtBottom(s: State, l: Local, m: Local)
    requires LocalOk(s, l) && Tidy(l) && Tidy(m) && Enters(l) && Enters(m) && Moves(l, m)
    ensures EntryCall(l, m) == CallOf(l, m, 0)
  {
    assert |l.stack| > 1 ==> l.stack[0].pc.Calling?;
    assert |m.stack| > 1 ==> m.stack[|m.stack| - 1].kind.Release?;
  }

  // An entry pass that returns leaves the field at the position it has reached.
  lemma EntryReturns(s: State, s': State, t: Tid)
    requires Inv(s) && Step(s, s') && Enters(s.At(t)) && s'.At(t).stack == []
    ensures PosBy(s'.At(t)) == PosBy(s.At(t))
  {
    PassStep(s, s', t, 0);
  }

  lemma EntersStays(l: Local, m: Local)
    requires Moves(l, m) && l.stack != [] && m.stack != []
    ensures Enters(m) <==> Enters(l)
  {
    if Returns(l, m) { assert m.stack[0] == l.stack[0]; }
  }

  lemma NoEntryNoCall(l: Local, m: Local)
    requires Tidy(m) && !Enters(m)
    ensures EntryCall(l, m) == []
  {
  }

  // Outside entry passes a scheduler stays where it is, until its exit pass.
  lemma OutsideGoes(l: Local, m: Local)
    requires Moves(l, m) && Orderly(l, m) && Tidy(l) && Tidy(m) && !Enters(l) && !m.exited && !l.exited
    requires l.held ==> l.saved.To?
    ensures PosBy(m) == PosBy(l)
  {
    if Enters(m) {
      if l.stack != [] { EntersStays(l, m); }
      assert m == l.Begin(Entry);
      assert m.stack[0] == m.Top();
    }
  }

  lemma StepGoes(s: State, s': State, t: Tid)
    requires Inv(s) && Inv(s') && Step(s, s') && Moves(s.At(t), s'.At(t)) && Orderly(s.At(t), s'.At(t))
    requires Tidy(s.At(t)) && Tidy(s'.At(t)) && !s.At(t).exited && !s'.At(t).exited
    ensures ByGoes(s, s.At(t), s'.At(t), s')
  {
    var l, m := s.At(t), s'.At(t);
    assert LocalOk(s, l);
    if !Enters(l) {
      OutsideGoes(l, m);
      if Enters(m) { assert |m.stack| == |l.stack| ==> l.stack != []; if l.stack != [] { EntersStays(l, m); } }
      if !Enters(m) { NoEntryNoCall(l, m); }
    } else if m.stack == [] {
      EntryReturns(s, s', t);
    } else {
      EntersStays(l, m);
      CallsAtBottom(s, l, m);
      PassGoesOn(s, s', t, 0);
      InsideGoes(s, s', l, m);
    }
  }

  lemma InsideGoes(s: State, s': State, l: Local, m: Local)
    requires Enters(l) && Enters(m) && NextOfPass(s, s', l, m, 0) && EntryCall(l, m) == CallOf(l, m, 0)
    ensures ByGoes(s, l, m, s')
  {
    var f, f' := l.stack[0], m.stack[0];
    if s'.order == s.order && !(PosOf(f).Excl? && PosOf(f') == Incl(PosOf(f).p)) {
      GoesSeen(s, f, f', CallOf(l, m, 0));
    }
  }

  // ---------------------------------------------------------------- over whole runs

  // p is there from state a to state b, and the thread keeps its scheduler.
  ghost predicate There(run: seq<State>, t: Tid, a: nat, b: nat, p: Proxy) {
    && 0 < a <= b < |run| && p !in run[a - 1].order
    && (forall m {:trigger run[m]} :: a <= m <= b ==> p in run[m].order && p in run[m].observed)
    && (forall m {:trigger KeepsIn(run, t, m)} :: a < m <= b ==> KeepsIn(run, t, m))
  }

  predicate KeepsIn(run: seq<State>, t: Tid, m: int)
    requires 0 < m < |run|
  {
    Keeps(run[m - 1].At(t), run[m].At(t))
  }

  predicate Keeps(l: Local, m: Local) { l.exited ==> m.exited }

  // What the thread knows of p at state k: it has been told exactly when the scheduler has come past it.
  ghost predicate ToldRight(run: seq<State>, t: Tid, a: nat, k: nat, p: Proxy)
    requires k < |run|
  {
    CountRight(multiset(Told(run, t, a, k))[p], run[k].At(t), run[k].order, p)
  }

  predicate CountRight(c: nat, l: Local, order: seq<Proxy>, p: Proxy) {
    c <= 1 && (!l.exited ==> (c == 1 <==> p in Seen(PosBy(l), order)))
  }

  lemma PosByIsLinked(s: State, t: Tid)
    requires Inv(s)
    ensures PosLinked(PosBy(s.At(t)), s.order)
  {
    assert LocalOk(s, s.At(t));
    if Enters(s.At(t)) { PosIsLinked(s, t, 0); }
  }

  lemma {:induction false} BeforeIsPart(order: seq<Proxy>, q: Proxy)
    ensures forall p :: p in Before(order, q) ==> p in order
  {
    if order != [] && order[0] != q {
      BeforeIsPart(order[1..], q);
    }
  }

  // Whoever is new is behind every position.
  lemma NewIsBehind(s: State, s': State, t: Tid, p: Proxy)
    requires Inv(s) && Step(s, s') && p !in s.order && p in s'.order
    ensures p !in Seen(PosBy(s'.At(t)), s'.order)
  {
    var u :| ThreadStep(s, u, s');
    OrderStep(s, u, s');
    StepMoves(s, u, s');
    NewIsAppended(s, u, s', p);
    assert s'.At(t) == s.At(t);
    PosByIsLinked(s, t);
    var pos := PosBy(s.At(t));
    if pos.Incl? || pos.Excl? {
      BeforeAppend(s.order, p, pos.p);
      BeforeIsPart(s.order, pos.p);
    }
  }

  lemma NewIsAppended(s: State, u: Tid, s': State, p: Proxy)
    requires Inv(s) && ThreadStep(s, u, s') && p !in s.order && p in s'.order
    ensures s'.At(u) == s.At(u) && s'.order == s.order + [p]
  {
    OrderStep(s, u, s');
    if s'.At(u) != s.At(u) { GoneRemoves(s, u, s'); }
    if q :| q !in s.order && s'.order == s.order + [q] {
      assert q == p;
    } else {
      var q :| q in s.order && q !in s'.order && s'.order == Removed(s.order, q);
      RemovedIsPart(s.order, q);
    }
  }

  lemma {:induction false} RemovedIsPart(order: seq<Proxy>, q: Proxy)
    ensures forall p :: p in Removed(order, q) ==> p in order
  {
    if order != [] && order[0] != q { RemovedIsPart(order[1..], q); }
  }

  lemma GoneRemoves(s: State, u: Tid, s': State)
    requires Inv(s) && ThreadStep(s, u, s') && s'.At(u) != s.At(u)
    ensures forall p :: p in s'.order ==> p in s.order
  {
    OrderStep(s, u, s');
    if s'.order != s.order {
      assert s.At(u).At(Want);
      if q :| q !in s.order && s'.order == s.order + [q] {
        WantAppendsNothing(s, u, s', q);
      } else {
        var q :| q in s.order && q !in s'.order && s'.order == Removed(s.order, q);
        RemovedIsPart(s.order, q);
      }
    }
  }

  lemma WantAppendsNothing(s: State, u: Tid, s': State, q: Proxy)
    requires Inv(s) && ThreadStep(s, u, s') && s.At(u).At(Want)
    ensures s'.order != s.order + [q]
  {
    assert LocalOk(s, s.At(u)) && FrameOk(s, s.At(u).Top());
    assert GiveUp(s, u, s');
    GiveUpOrder(s, u, s');
    var f := s.At(u).Top();
    if s.Rc(f.drop.p) == 1 {
      LastReference(s, u, f.drop.p);
      Unlinking(s, u, s.At(u).With(f.(pc := Gone)), f.drop.p, s');
      assert f.drop.p !in s'.order;
      assert f.drop.p in s.order + [q];
    }
  }

  // A step that tells the observer, or does not.
  lemma ToldStep(s: State, l: Local, m: Local, s': State, p: Proxy)
    requires ByGoes(s, l, m, s') && ListMove(s.order, s'.order) && p in s.order && p in s'.order && p in s.observed
    requires PosLinked(PosBy(l), s.order) && PosLinked(PosBy(m), s'.order)
    ensures var call := EntryCall(l, m);
      && (p in Seen(PosBy(m), s'.order) <==> p in Seen(PosBy(l), s.order) || call == [p])
      && (call == [p] ==> p !in Seen(PosBy(l), s.order))
      && (call == [] || |call| == 1)
  {
    var pos := PosBy(l);
    if PosBy(m) == pos && EntryCall(l, m) == [] {
      SeenKept(pos, s.order, s'.order, {p});
      FilterHas(Seen(pos, s.order), {p}, p);
      FilterHas(Seen(pos, s'.order), {p}, p);
    } else if pos.Excl? {
      NotBeforeItself(s.order, pos.p);
    }
  }

  lemma OrderlyMoves(s: State, s': State, t: Tid)
    requires OrderlyStep(s, s')
    ensures Step(s, s') && Moves(s.At(t), s'.At(t)) && Orderly(s.At(t), s'.At(t))
  {
    var u :| ThreadStep(s, u, s') && Orderly(s.At(u), s'.At(u));
    StepMoves(s, u, s');
  }

  // All there is to know about one step of an orderly run.
  ghost predicate OrderlyStepFor(s: State, s': State, t: Tid) {
    && Inv(s) && Inv(s') && Step(s, s') && Tidy(s.At(t)) && Tidy(s'.At(t))
    && Moves(s.At(t), s'.At(t)) && Orderly(s.At(t), s'.At(t))
  }

  lemma IsOrderlyStep(s: State, s': State, t: Tid)
    requires Inv(s) && Inv(s') && AllTidy(s) && AllTidy(s') && OrderlyStep(s, s')
    ensures OrderlyStepFor(s, s', t)
  {
    OrderlyMoves(s, s', t);
  }

  lemma OrderlyInv(run: seq<State>, k: nat)
    requires OrderlyRun(run) && k < |run|
    ensures Inv(run[k]) && AllTidy(run[k])
  {
    OrderlyRunsAreProper(run);
    RunInv(run, k);
    TidyRun(run, k);
  }

  lemma OrderlyStepIs(run: seq<State>, t: Tid, k: nat)
    requires OrderlyRun(run) && 0 < k < |run|
    ensures OrderlyStepFor(run[k - 1], run[k], t)
  {
    OrderlyInv(run, k - 1);
    OrderlyInv(run, k);
    assert FollowsOrderly(run, k);
    IsOrderlyStep(run[k - 1], run[k], t);
  }

  lemma StepTells(s: State, s': State, t: Tid, p: Proxy, told: seq<Proxy>)
    requires OrderlyStepFor(s, s', t) && Keeps(s.At(t), s'.At(t))
    requires p in s.order && p in s'.order && p in s.observed && CountRight(multiset(told)[p], s.At(t), s.order, p)
    ensures CountRight(multiset(told + EntryCall(s.At(t), s'.At(t)))[p], s'.At(t), s'.order, p)
  {
    if s'.At(t).exited {
      NoEntryNoCall(s.At(t), s'.At(t));
      assert told + [] == told;
    } else {
      StepCounts(s, s', t, p, told);
    }
  }

  lemma StepCounts(s: State, s': State, t: Tid, p: Proxy, told: seq<Proxy>)
    requires OrderlyStepFor(s, s', t) && !s.At(t).exited && !s'.At(t).exited
    requires p in s.order && p in s'.order && p in s.observed && CountRight(multiset(told)[p], s.At(t), s.order, p)
    ensures CountRight(multiset(told + EntryCall(s.At(t), s'.At(t)))[p], s'.At(t), s'.order, p)
  {
    StepGoes(s, s', t);
    ListStep(s, s');
    PosByIsLinked(s, t);
    PosByIsLinked(s', t);
    ToldStep(s, s.At(t), s'.At(t), s', p);
    CountOne(told, EntryCall(s.At(t), s'.At(t)), p);
  }

  lemma CountOne(told: seq<Proxy>, call: seq<Proxy>, p: Proxy)
    requires call == [] || |call| == 1
    ensures multiset(told + call)[p] == multiset(told)[p] + if call == [p] then 1 else 0
  {
  }

  lemma ListStep(s: State, s': State)
    requires Inv(s) && Step(s, s')
    ensures ListMove(s.order, s'.order)
  {
    var u :| ThreadStep(s, u, s');
    OrderStep(s, u, s');
  }

  lemma NewIsUntold(s: State, s': State, t: Tid, p: Proxy)
    requires OrderlyStepFor(s, s', t) && p !in s.order && p in s'.order
    ensures p !in Seen(PosBy(s'.At(t)), s'.order)
  {
    NewIsBehind(s, s', t, p);
  }

  lemma ToldBegins(run: seq<State>, t: Tid, a: nat, p: Proxy)
    requires OrderlyRun(run) && 0 < a < |run| && p !in run[a - 1].order && p in run[a].order
    ensures ToldRight(run, t, a, a, p)
  {
    OrderlyStepIs(run, t, a);
    NewIsUntold(run[a - 1], run[a], t, p);
  }

  lemma ToldGoesOn(run: seq<State>, t: Tid, a: nat, k: nat, p: Proxy)
    requires OrderlyRun(run) && a < k < |run| && ToldRight(run, t, a, k - 1, p) && Keeps(run[k - 1].At(t), run[k].At(t))
    requires p in run[k - 1].order && p in run[k].order && p in run[k - 1].observed
    ensures ToldRight(run, t, a, k, p)
  {
    OrderlyStepIs(run, t, k);
    StepTells(run[k - 1], run[k], t, p, Told(run, t, a, k - 1));
  }

  lemma ThereAt(run: seq<State>, t: Tid, a: nat, b: nat, p: Proxy, k: nat)
    requires There(run, t, a, b, p) && a <= k <= b
    ensures p in run[k].order && p in run[k].observed && (k > a ==> Keeps(run[k - 1].At(t), run[k].At(t)))
  {
    assert k > a ==> KeepsIn(run, t, k);
  }

  lemma {:induction false} ToldIsRight(run: seq<State>, t: Tid, a: nat, k: nat, b: nat, p: Proxy)
    requires OrderlyRun(run) && There(run, t, a, b, p) && a <= k <= b
    ensures ToldRight(run, t, a, k, p)
    decreases k
  {
    ThereAt(run, t, a, b, p, k);
    if k == a {
      ToldBegins(run, t, a, p);
    } else {
      ThereAt(run, t, a, b, p, k - 1);
      ToldIsRight(run, t, a, k - 1, b, p);
      ToldGoesOn(run, t, a, k, p);
    }
  }

  lemma {:induction false} ToldGrows(run: seq<State>, t: Tid, a: nat, j: nat, k: nat, p: Proxy)
    requires a <= j <= k < |run|
    ensures multiset(Told(run, t, a, j))[p] <= multiset(Told(run, t, a, k))[p]
    decreases k
  {
    if j < k {
      ToldGrows(run, t, a, j, k - 1, p);
      assert Told(run, t, a, k) == Told(run, t, a, k - 1) + EntryCall(run[k - 1].At(t), run[k].At(t));
    }
  }

  // In an orderly run a scheduler tells an observer at most once that it is there.
  lemma ToldAtMostOnce(run: seq<State>, t: Tid, a: nat, b: nat, p: Proxy)
    requires OrderlyRun(run) && There(run, t, a, b, p)
    ensures multiset(Told(run, t, a, b))[p] <= 1
  {
    ToldIsRight(run, t, a, b, b, p);
  }

  lemma CountedWhenDone(c: nat, l: Local, order: seq<Proxy>, p: Proxy)
    requires CountRight(c, l, order, p) && !l.exited && p in Seen(PosBy(l), order)
    ensures c == 1
  {
  }

  lemma ThereFrom(run: seq<State>, t: Tid, a: nat, b: nat, p: Proxy, i: nat, j: nat)
    requires There(run, t, a, b, p) && a <= i <= j <= b
    ensures forall m {:trigger run[m]} :: i <= m < j ==> p in run[m].order && p in run[m].observed
  {
  }

  lemma CountedByTheEnd(run: seq<State>, t: Tid, i: nat, j: nat, p: Proxy, c: nat)
    requires OrderlyRun(run) && i < j < |run| && UnderWay(run, t, 0, i, j - 1) && run[i].At(t).stack[0].kind.Entry?
    requires run[j].At(t).stack == [] && forall m {:trigger run[m]} :: i <= m < j ==> p in run[m].order && p in run[m].observed
    requires CountRight(c, run[j - 1].At(t), run[j - 1].order, p)
    ensures c == 1
  {
    SeenWhenDone(run, t, i, j, p);
    EntersIsNotExited(run, t, j - 1);
    CountedWhenDone(c, run[j - 1].At(t), run[j - 1].order, p);
  }

  // And once an entry pass of the scheduler has begun, in step i, and returned, in step j, it has told it.
  lemma ToldExactlyOnce(run: seq<State>, t: Tid, a: nat, i: nat, j: nat, b: nat, p: Proxy)
    requires OrderlyRun(run) && There(run, t, a, b, p) && a <= i < j <= b
    requires UnderWay(run, t, 0, i, j - 1) && run[i].At(t).stack[0].kind.Entry? && run[j].At(t).stack == []
    ensures multiset(Told(run, t, a, b))[p] == 1
  {
    ToldAtMostOnce(run, t, a, b, p);
    var c := CountThen(run, t, a, j - 1, b, p);
    ThereFrom(run, t, a, b, p, i, j);
    CountedByTheEnd(run, t, i, j, p, c);
  }

  lemma CountThen(run: seq<State>, t: Tid, a: nat, k: nat, b: nat, p: Proxy) returns (c: nat)
    requires OrderlyRun(run) && There(run, t, a, b, p) && a <= k <= b
    ensures c <= multiset(Told(run, t, a, b))[p] && CountRight(c, run[k].At(t), run[k].order, p)
  {
    c := multiset(Told(run, t, a, k))[p];
    ToldIsRight(run, t, a, k, b, p);
    ToldGrows(run, t, a, k, b, p);
  }

  lemma EntersIsNotExited(run: seq<State>, t: Tid, k: nat)
    requires OrderlyRun(run) && k < |run| && Enters(run[k].At(t))
    ensures !run[k].At(t).exited
  {
    TidyRun(run, k);
    assert Tidy(run[k].At(t));
  }

  // Before an entry pass returns it has come past everything that was there all along.
  lemma SeenWhenDone(run: seq<State>, t: Tid, i: nat, j: nat, p: Proxy)
    requires OrderlyRun(run) && i < j < |run| && UnderWay(run, t, 0, i, j - 1) && run[i].At(t).stack[0].kind.Entry?
    requires run[j].At(t).stack == [] && forall m {:trigger run[m]} :: i <= m < j ==> p in run[m].order && p in run[m].observed
    ensures Enters(run[j - 1].At(t)) && p in Seen(PosBy(run[j - 1].At(t)), run[j - 1].order)
  {
    OrderlyRunsAreProper(run);
    PassIsRight(run, t, 0, i, j - 1);
    StepOfPass(run, t, 0, j);
    var s, f := run[j - 1], run[j - 1].At(t).stack[0];
    var keep, out := Stable(run, i, j - 1), Passed(run, t, 0, i);
    assert p in run[i].order && p in s.order;
    assert p in keep;
    if Seen(PosOf(f), s.order) != s.order && p !in out {
      FilterHas(Seen(PosOf(f), s.order), keep - out, p);
      FilterHas(s.order, keep - out, p);
    }
  }
}
