// Nobody waits for ever: from every reachable state of the concurrent hash map, whatever its threads are in the middle
// of, all operations under way can still come to their answers.
module HashProgress {
  import opened Powers
  import opened HashLayout
  import opened HashTable
  import opened HashState
  import opened HashThreads
  import opened HashAnswers
  import opened HashAlone

  // ---------------------------------------------------------------- lists are changed by one thread alone

  lemma FillChanges(s: State, t: Tid, s': State, ev: Event, i: nat)
    requires HashThreads.Fill(s, t, s', ev) && i < |s.buckets| && s.buckets[i].Chain? && s'.buckets[i] != s.buckets[i]
    requires PhaseOk(s.buckets, s.level, s.base, s.At(t))
    ensures NoOtherHolds(s, t, i)
  {
    var stack := s.At(t).stack;
    var j := stack[|stack| - 1];
    assert s.buckets[j].Claimed?;
    assert i == Parent(j);
    if Picked(Nodes(s.buckets[i]), Log2(j) + 1, j) == [] { NothingPicked(Nodes(s.buckets[i]), Log2(j) + 1, j); }
  }

  lemma {:induction false} NothingPicked(ns: seq<Item>, l: nat, j: nat)
    requires Picked(ns, l, j) == []
    ensures Passed(ns, l, j) == ns
  {
    if ns != [] { NothingPicked(ns[..|ns| - 1], l, j); }
  }

  lemma OthersKeepOff(s: State, t: Tid, i: nat)
    requires Inv(s) && s.At(t).Writes(i)
    ensures NoOtherHolds(s, t, i)
  {
    forall u | u != t ensures !s.At(u).Holds(i) { assert Apart(s.At(t), s.At(u)); }
  }

  // Whoever changes a list has its bucket for itself: no other thread has it locked, even for reading.
  lemma ListsChangeAlone(s: State, t: Tid, s': State, ev: Event, i: nat)
    requires Inv(s) && ThreadStep(s, t, s', ev) && i < |s.buckets| && s.buckets[i].Chain?
    ensures i < |s'.buckets| && (s'.buckets[i] != s.buckets[i] ==> NoOtherHolds(s, t, i))
  {
    if HashThreads.Fill(s, t, s', ev) {
      assert PhaseOk(s.buckets, s.level, s.base, s.At(t));
      if s'.buckets[i] != s.buckets[i] { FillChanges(s, t, s', ev, i); }
    } else if Hit(s, t, s', ev) {
      var k :| 0 <= k < |Nodes(s.buckets[s.At(t).i])| && HitAt(s, t, s.At(t).op, s.At(t).i, k, s', ev);
      if s'.buckets[i] != s.buckets[i] { OthersKeepOff(s, t, i); }
    } else if Miss(s, t, s', ev) {
      if s'.buckets[i] != s.buckets[i] { OthersKeepOff(s, t, i); }
    }
  }

  // A reader that compares masks has looked for its key in vain, and the key is still not there.
  ghost predicate Searched(s: State) {
    forall t {:trigger s.At(t)} :: s.At(t).Comparing? && !s.At(t).writer ==> SearchFailed(s, s.At(t).op, s.At(t).i)
  }

  lemma SearchedStep(s: State, t: Tid, s': State, ev: Event)
    requires Inv(s) && Searched(s) && ThreadStep(s, t, s', ev)
    ensures Searched(s')
  {
    forall u | s'.At(u).Comparing? && !s'.At(u).writer ensures SearchFailed(s', s'.At(u).op, s'.At(u).i) {
      if u == t {
        OwnSearch(s, t, s', ev);
      } else {
        OthersStay(s, t, s', ev, u);
        var i := s.At(u).i;
        assert PhaseOk(s.buckets, s.level, s.base, s.At(u));
        ListsChangeAlone(s, t, s', ev, i);
        assert s.At(u).Holds(i);
      }
    }
  }

  lemma OwnSearch(s: State, t: Tid, s': State, ev: Event)
    requires ThreadStep(s, t, s', ev) && s'.At(t).Comparing? && !s'.At(t).writer
    ensures SearchFailed(s', s'.At(t).op, s'.At(t).i)
  {
    StepProgress(s, t, s', ev);
    assert !Hit(s, t, s', ev);
    assert Check(s, t, s', ev) && s.At(t).Holding?;
  }

  lemma {:induction false} RunSearched(states: seq<State>, events: seq<Event>, k: nat)
    requires Run(states, events) && k < |states|
    ensures Searched(states[k])
  {
    if k > 0 {
      RunSearched(states, events, k - 1);
      RunInv(states, events, k - 1);
      assert Follows(states, events, k);
      if Grow(states[k - 1], states[k], events[k]) {
        forall t ensures states[k].At(t) == states[k - 1].At(t) {}
      } else {
        var t :| ThreadStep(states[k - 1], t, states[k], events[k]);
        SearchedStep(states[k - 1], t, states[k], events[k]);
      }
    }
  }

  // ---------------------------------------------------------------- what is left to do

  // How far a thread is from its answer. Starting again with a longer mask counts as an advance.
  function Rank(p: Phase, level: nat): nat {
    match p
    case Idle => 0
    case Masked(_, m) => Laps(m, level) + 8
    case Rehashing(_, m, _) => Laps(m, level) + 7
    case Holding(_, m, _, w) => Laps(m, level) + if w then 4 else 6
    case Upgrading(_, m, _) => Laps(m, level) + 5
    case Comparing(_, m, _, _, _, _) => Laps(m, level) + 3
    case Confirmed(_, _) => 1
  }

  function Laps(m: nat, level: nat): nat { if m < level then 10 * (level - m) else 0 }

  ghost function Ranks(threads: map<Tid, Phase>, level: nat): nat {
    if threads == map[] then 0 else
      var t :| t in threads;
      Rank(threads[t], level) + Ranks(threads - {t}, level)
  }

  lemma {:induction false} RanksOf(threads: map<Tid, Phase>, level: nat, t: Tid)
    requires t in threads
    ensures Ranks(threads, level) == Rank(threads[t], level) + Ranks(threads - {t}, level)
    decreases |threads|
  {
    var u :| u in threads && Ranks(threads, level) == Rank(threads[u], level) + Ranks(threads - {u}, level);
    if u != t {
      RanksOf(threads - {u}, level, t);
      RanksOf(threads - {t}, level, u);
      assert threads - {u} - {t} == threads - {t} - {u};
    }
  }

  ghost function Work(s: State): nat { Left(s.buckets) + Ranks(s.threads, s.level) }

  lemma LessWork(s: State, t: Tid, p: Phase, u: State)
    requires !s.At(t).Idle? && u == s.Move(t, p).(buckets := u.buckets)
    requires Left(u.buckets) + Rank(p, s.level) < Left(s.buckets) + Rank(s.At(t), s.level)
    ensures Work(u) < Work(s)
  {
    RanksOf(s.threads, s.level, t);
    RanksOf(u.threads, s.level, t);
    assert u.threads - {t} == s.threads - {t};
  }

  // A thread that is busy with an operation takes a step towards the end of all of them.
  ghost predicate Advances(s: State, u: State, ev: Event) {
    u.level == s.level && Work(u) < Work(s) && exists t :: !s.At(t).Idle? && ThreadStep(s, t, u, ev)
  }

  ghost predicate Sane(s: State) { Inv(s) && Owned(s) && Searched(s) }

  lemma Advance(s: State, t: Tid, p: Phase, u: State, ev: Event)
    requires !s.At(t).Idle? && u == s.Move(t, p).(buckets := u.buckets) && ThreadStep(s, t, u, ev)
    requires Left(u.buckets) + Rank(p, s.level) < Left(s.buckets) + Rank(s.At(t), s.level)
    ensures Advances(s, u, ev)
  {
    LessWork(s, t, p, u);
  }

  // ---------------------------------------------------------------- somebody can always go on

  lemma WriterGoesOn(s: State, t: Tid) returns (u: State, ev: Event)
    requires Sane(s) && s.At(t).Holding? && s.At(t).writer
    ensures Advances(s, u, ev)
  {
    var Holding(op, m, i, w) := s.At(t);
    assert PhaseOk(s.buckets, s.level, s.base, s.At(t));
    ev := Silent;
    if Cut(op.key.hash, m) == Cut(op.key.hash, s.level) {
      u := s.Move(t, Confirmed(op, i));
      assert Check(s, t, u, ev);
      Advance(s, t, Confirmed(op, i), u, ev);
    } else {
      CheckCanGoOn(s, t);
      var k: nat :| k < s.level && FirstCutBit(op.key.hash, m, k);
      u := s.Move(t, Comparing(op, m, i, w, s.level, k));
      assert FoundAt(s, t, k, u);
      assert Check(s, t, u, ev);
      Advance(s, t, Comparing(op, m, i, w, s.level, k), u, ev);
    }
  }

  lemma ReaderGoesOn(s: State, t: Tid) returns (u: State, ev: Event)
    requires s.At(t).Holding? && !s.At(t).writer
    ensures Advances(s, u, ev)
  {
    var Holding(op, m, i, w) := s.At(t);
    u, ev := s.Move(t, Upgrading(op, m, i)), Silent;
    assert Upgrade(s, t, u, ev);
    Advance(s, t, Upgrading(op, m, i), u, ev);
  }

  lemma CompareGoesOn(s: State, t: Tid) returns (u: State, ev: Event)
    requires Sane(s) && s.At(t).Comparing?
    ensures Advances(s, u, ev)
  {
    var Comparing(op, m, i, w, now, k) := s.At(t);
    assert PhaseOk(s.buckets, s.level, s.base, s.At(t));
    Pow2Grows(k + 1, s.level);
    var p: Phase;
    if !s.buckets[Cut(op.key.hash, k + 1)].RehashReq? {
      p, ev := Masked(op, now), Silent;
    } else if w {
      p, ev := Confirmed(op, i), Silent;
    } else {
      p, ev := Idle, Absent(op.key);
      assert SearchFailed(s, op, i);
    }
    u := s.Move(t, p);
    assert Compare(s, t, u, ev);
    Advance(s, t, p, u, ev);
  }

  // Whoever has a bucket locked can go on.
  lemma HolderGoesOn(s: State, t: Tid, i: nat) returns (u: State, ev: Event)
    requires Sane(s) && s.At(t).Holds(i)
    ensures Advances(s, u, ev)
  {
    if s.At(t).Confirmed? {
      assert PhaseOk(s.buckets, s.level, s.base, s.At(t));
      u, ev := AnswerStep(s, t);
      Advance(s, t, Idle, u, ev);
    } else if s.At(t).Comparing? {
      u, ev := CompareGoesOn(s, t);
    } else if s.At(t).writer {
      u, ev := WriterGoesOn(s, t);
    } else {
      u, ev := ReaderGoesOn(s, t);
    }
  }

  lemma UpgradeGoesOn(s: State, t: Tid) returns (u: State, ev: Event)
    requires Sane(s) && s.At(t).Upgrading?
    ensures Advances(s, u, ev)
  {
    var Upgrading(op, m, i) := s.At(t);
    if NoOtherHolds(s, t, i) {
      u, ev := s.Move(t, Holding(op, m, i, true)), Silent;
      assert Lock(s, t, u, ev);
      Advance(s, t, Holding(op, m, i, true), u, ev);
    } else {
      var v :| v != t && s.At(v).Holds(i);
      u, ev := HolderGoesOn(s, v, i);
    }
  }

  lemma ClaimGoesOn(s: State, t: Tid) returns (u: State, ev: Event)
    requires s.At(t).Rehashing? && s.At(t).stack != [] && 1 < s.At(t).stack[|s.At(t).stack| - 1] < |s.buckets|
    requires s.buckets[Parent(s.At(t).stack[|s.At(t).stack| - 1])].RehashReq?
    ensures Advances(s, u, ev)
  {
    u := UpStep(s, t, s.At(t).stack[|s.At(t).stack| - 1]);
    ev := Silent;
    Advance(s, t, u.At(t), u, ev);
  }

  lemma FillIsAStep(s: State, t: Tid, i: nat, q: Phase, u: State)
    requires s.At(t).Rehashing? && s.At(t).stack != [] && s.At(t).stack[|s.At(t).stack| - 1] == i && 1 < i < |s.buckets|
    requires s.buckets[Parent(i)].Chain? && NoOtherHolds(s, t, Parent(i))
    requires var p := s.At(t); q == if |p.stack| == 1 then Holding(p.op, p.m, i, true) else p.(stack := p.stack[..|p.stack| - 1])
    requires u == s.Move(t, q).(buckets := Pull(s.buckets, i))
    ensures ThreadStep(s, t, u, Silent)
  {
    forall v | v != t ensures !s.At(v).Writes(Parent(i)) { assert !s.At(v).Holds(Parent(i)); }
    assert HashThreads.Fill(s, t, u, Silent);
  }

  lemma FillGoesOn(s: State, t: Tid, i: nat) returns (u: State, ev: Event)
    requires s.At(t).Rehashing? && s.At(t).stack != [] && s.At(t).stack[|s.At(t).stack| - 1] == i && 1 < i < |s.buckets|
    requires s.buckets[i].Claimed? && s.buckets[Parent(i)].Chain? && NoOtherHolds(s, t, Parent(i))
    ensures Advances(s, u, ev)
  {
    var p := s.At(t);
    var q := if |p.stack| == 1 then Holding(p.op, p.m, i, true) else p.(stack := p.stack[..|p.stack| - 1]);
    u, ev := s.Move(t, q).(buckets := Pull(s.buckets, i)), Silent;
    PulledLeft(s.buckets, i);
    FillIsAStep(s, t, i, q, u);
    Advance(s, t, q, u, ev);
  }

  lemma MarkedBy(s: State, p: nat) returns (v: Tid)
    requires Inv(s) && Owned(s) && p < |s.buckets| && s.buckets[p].Claimed?
    ensures s.At(v).Rehashing? && s.At(v).stack != [] && s.At(v).stack[|s.At(v).stack| - 1] <= p
  {
    assert Marked(s, p);
    v :| s.At(v).Rehashing? && p in s.At(v).stack;
    assert PhaseOk(s.buckets, s.level, s.base, s.At(v));
    var j :| 0 <= j < |s.At(v).stack| && s.At(v).stack[j] == p;
  }

  // The bucket marked last has a parent that waits, or has a list, or is marked by somebody whose last bucket comes
  // before it.
  lemma {:induction false} RehashGoesOn(s: State, t: Tid, top: nat) returns (u: State, ev: Event)
    requires Sane(s) && s.At(t).Rehashing? && s.At(t).stack != [] && top == s.At(t).stack[|s.At(t).stack| - 1]
    ensures Advances(s, u, ev)
    decreases top
  {
    assert PhaseOk(s.buckets, s.level, s.base, s.At(t));
    var p := Parent(top);
    if s.buckets[p].RehashReq? {
      u, ev := ClaimGoesOn(s, t);
    } else if s.buckets[p].Claimed? {
      var v := MarkedBy(s, p);
      u, ev := RehashGoesOn(s, v, s.At(v).stack[|s.At(v).stack| - 1]);
    } else if NoOtherHolds(s, t, p) {
      u, ev := FillGoesOn(s, t, top);
    } else {
      var v :| v != t && s.At(v).Holds(p);
      u, ev := HolderGoesOn(s, v, p);
    }
  }

  lemma MaskedGoesOn(s: State, t: Tid) returns (u: State, ev: Event)
    requires Sane(s) && s.At(t).Masked?
    ensures Advances(s, u, ev)
  {
    var Masked(op, m) := s.At(t);
    var i := Cut(op.key.hash, m);
    assert PhaseOk(s.buckets, s.level, s.base, s.At(t));
    Pow2Grows(m, s.level);
    ev := Silent;
    if s.buckets[i].RehashReq? {
      u := s.Move(t, Rehashing(op, m, [i])).(buckets := s.buckets[i := Claimed]);
      LeftAfter(s.buckets, i, Claimed);
      assert Claim(s, t, u, ev);
      Advance(s, t, Rehashing(op, m, [i]), u, ev);
    } else if s.buckets[i].Claimed? {
      var v := MarkedBy(s, i);
      u, ev := RehashGoesOn(s, v, s.At(v).stack[|s.At(v).stack| - 1]);
    } else if NoOtherWrites(s, t, i) {
      u := s.Move(t, Holding(op, m, i, false));
      assert Lock(s, t, u, ev);
      Advance(s, t, Holding(op, m, i, false), u, ev);
    } else {
      var v :| v != t && s.At(v).Writes(i);
      u, ev := HolderGoesOn(s, v, i);
    }
  }

  // There is no deadlock: while some thread is busy, some busy thread can take a step, and one that brings the end of
  // all operations under way nearer.
  lemma SomebodyGoesOn(s: State, t: Tid) returns (u: State, ev: Event)
    requires Sane(s) && !s.At(t).Idle?
    ensures Advances(s, u, ev)
  {
    match s.At(t)
    case Masked(_, _) => u, ev := MaskedGoesOn(s, t);
    case Rehashing(_, _, stack) =>
      assert PhaseOk(s.buckets, s.level, s.base, s.At(t));
      u, ev := RehashGoesOn(s, t, stack[|stack| - 1]);
    case Upgrading(_, _, _) => u, ev := UpgradeGoesOn(s, t);
    case Holding(_, _, i, _) => u, ev := HolderGoesOn(s, t, i);
    case Comparing(_, _, i, _, _, _) => u, ev := HolderGoesOn(s, t, i);
    case Confirmed(_, i) => u, ev := HolderGoesOn(s, t, i);
  }

  // ---------------------------------------------------------------- over whole runs

  ghost predicate AdvancesAt(states: seq<State>, events: seq<Event>, k: nat)
    requires 0 < k < |states| && k < |events|
  {
    Advances(states[k - 1], states[k], events[k])
  }

  ghost predicate AllIdle(s: State) { forall t {:trigger s.At(t)} :: s.At(t).Idle? }

  ghost predicate Finishes(states: seq<State>, events: seq<Event>, more: seq<State>, said: seq<Event>) {
    && Run(more, said) && states <= more && events <= said && states != [] && AllIdle(more[|more| - 1])
    && forall k :: |states| <= k < |more| ==> AdvancesAt(more, said, k)
  }

  lemma OneAdvance(states: seq<State>, events: seq<Event>, t: Tid) returns (u: State, ev: Event)
    requires Run(states, events) && !states[|states| - 1].At(t).Idle?
    ensures Advances(states[|states| - 1], u, ev) && Run(states + [u], events + [ev])
  {
    var s := states[|states| - 1];
    RunOwned(states, events, |states| - 1);
    RunSearched(states, events, |states| - 1);
    u, ev := SomebodyGoesOn(s, t);
    var v :| !s.At(v).Idle? && ThreadStep(s, v, u, ev);
    Extend(states, events, v, u, ev);
  }

  lemma FinishesFrom(states: seq<State>, events: seq<Event>, u: State, ev: Event, more: seq<State>, said: seq<Event>)
    requires states != [] && |states| == |events| && Advances(states[|states| - 1], u, ev)
    requires Finishes(states + [u], events + [ev], more, said)
    ensures Finishes(states, events, more, said)
  {
    assert (states + [u])[|states|] == u && (events + [ev])[|events|] == ev;
    assert states <= states + [u] && events <= events + [ev];
    assert AdvancesAt(more, said, |states|);
  }

  // From every reachable state all operations under way can come to their answers, without any new one and without
  // the table growing.
  lemma {:induction false} EveryoneCanFinish(states: seq<State>, events: seq<Event>) returns (more: seq<State>, said: seq<Event>)
    requires Run(states, events)
    ensures Finishes(states, events, more, said)
    decreases Work(states[|states| - 1])
  {
    if AllIdle(states[|states| - 1]) {
      more, said := states, events;
    } else {
      var t :| !states[|states| - 1].At(t).Idle?;
      var u, ev := OneAdvance(states, events, t);
      more, said := EveryoneCanFinish(states + [u], events + [ev]);
      FinishesFrom(states, events, u, ev, more, said);
    }
  }

  // So there is an answer for every operation in every reachable state, new ones included.
  lemma EveryOperationCanComplete(states: seq<State>, events: seq<Event>, t: Tid, op: Op) returns (more: seq<State>, said: seq<Event>, i: nat)
    requires Run(states, events)
    ensures Run(more, said) && states <= more && events <= said && |states| <= i < |more| - 1
    ensures Busy(more, t, i, |more| - 1) && more[i].At(t).op == op && more[|more| - 1].At(t).Idle?
    ensures Answers(op, said[|said| - 1])
  {
    var quiet, heard := EveryoneCanFinish(states, events);
    i := |quiet|;
    more, said := CompletesAlone(quiet, heard, t, op);
  }
}
