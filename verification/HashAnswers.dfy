// What the operations of the concurrent hash map answer: the step in which a thread is done with an operation is
// the one that answers it, and answers that operation.
module HashAnswers {
  import opened HashLayout
  import opened HashTable
  import opened HashState
  import opened HashThreads

  // An answer an operation may give.
  predicate Answers(op: Op, ev: Event) {
    match op
    case Find(key) => ev == Absent(key) || (ev.Present? && ev.item.key == key)
    case Insert(key, val) => ev == Inserted(Item(key, val)) || (ev.Present? && ev.item.key == key)
    case Erase(key) => ev == Absent(key) || (ev.Erased? && ev.item.key == key)
  }

  // What a step may do to the thread that takes it.
  predicate Progress(p: Phase, p': Phase, ev: Event) {
    if p.Idle? then !p'.Idle? && ev.Silent?
    else if p'.Idle? then Answers(p.op, ev)
    else p'.op == p.op && ev.Silent?
  }

  lemma GoesOnProgress(s: State, t: Tid, op: Op, i: nat, w: bool, s': State, ev: Event)
    requires GoesOn(s, t, op, i, w, s', ev) && !s.At(t).Idle? && s.At(t).op == op
    ensures Progress(s.At(t), s'.At(t), ev)
  {
  }

  lemma HitProgress(s: State, t: Tid, s': State, ev: Event)
    requires Hit(s, t, s', ev)
    ensures Progress(s.At(t), s'.At(t), ev)
  {
    var op, i := s.At(t).op, s.At(t).i;
    var k :| 0 <= k < |Nodes(s.buckets[i])| && HitAt(s, t, op, i, k, s', ev);
  }

  lemma StepProgress(s: State, t: Tid, s': State, ev: Event)
    requires ThreadStep(s, t, s', ev)
    ensures Progress(s.At(t), s'.At(t), ev)
  {
    if Check(s, t, s', ev) && s.At(t).Holding? && Cut(s.At(t).op.key.hash, s.At(t).m) == Cut(s.At(t).op.key.hash, s.level) {
      GoesOnProgress(s, t, s.At(t).op, s.At(t).i, s.At(t).writer, s', ev);
    } else if Compare(s, t, s', ev) {
      if s.buckets[Cut(s.At(t).op.key.hash, s.At(t).k + 1)].RehashReq? {
        GoesOnProgress(s, t, s.At(t).op, s.At(t).i, s.At(t).writer, s', ev);
      }
    } else if Hit(s, t, s', ev) {
      HitProgress(s, t, s', ev);
    }
  }

  lemma OthersStay(s: State, t: Tid, s': State, ev: Event, u: Tid)
    requires ThreadStep(s, t, s', ev) && u != t
    ensures s'.At(u) == s.At(u)
  {
    if Hit(s, t, s', ev) {
      var op, i := s.At(t).op, s.At(t).i;
      var k :| 0 <= k < |Nodes(s.buckets[i])| && HitAt(s, t, op, i, k, s', ev);
    } else {
      MissStays(s, t, s', ev, u);
    }
  }

  lemma MissStays(s: State, t: Tid, s': State, ev: Event, u: Tid)
    requires ThreadStep(s, t, s', ev) && !Hit(s, t, s', ev) && u != t
    ensures s'.At(u) == s.At(u)
  {
  }

  lemma GrowStays(s: State, s': State, ev: Event, u: Tid)
    requires Grow(s, s', ev)
    ensures s'.At(u) == s.At(u) && ev.Silent?
  {
  }

  // Each step advances one thread, or none.
  lemma StepAdvancesOne(s: State, s': State, ev: Event) returns (t: Tid)
    requires Next(s, s', ev)
    ensures (forall u {:trigger s.At(u)} :: u != t ==> s'.At(u) == s.At(u))
    ensures Progress(s.At(t), s'.At(t), ev) || (s'.At(t) == s.At(t) && ev.Silent?)
  {
    if Grow(s, s', ev) {
      t := 0;
      forall u ensures s'.At(u) == s.At(u) { GrowStays(s, s', ev, u); }
      GrowStays(s, s', ev, t);
    } else {
      t :| ThreadStep(s, t, s', ev);
      StepProgress(s, t, s', ev);
      forall u | u != t ensures s'.At(u) == s.At(u) { OthersStay(s, t, s', ev, u); }
    }
  }

  // ---------------------------------------------------------------- over whole runs

  // Thread t loads an operation in step i and is busy with it in the states i to k - 1.
  ghost predicate Busy(states: seq<State>, t: Tid, i: nat, k: nat)
    requires 0 < i < k <= |states|
  {
    states[i - 1].At(t).Idle? && forall j :: i <= j < k ==> !states[j].At(t).Idle?
  }

  lemma KeepsOperation(s: State, s': State, ev: Event, t: Tid)
    requires Next(s, s', ev) && !s.At(t).Idle? && !s'.At(t).Idle?
    ensures s'.At(t).op == s.At(t).op
  {
    var u := StepAdvancesOne(s, s', ev);
    assert u != t ==> s'.At(t) == s.At(t);
  }

  lemma {:induction false} SameOperation(states: seq<State>, events: seq<Event>, t: Tid, i: nat, k: nat)
    requires Run(states, events) && 0 < i < k <= |states| && Busy(states, t, i, k)
    ensures states[k - 1].At(t).op == states[i].At(t).op
    decreases k
  {
    if i < k - 1 {
      assert !states[k - 2].At(t).Idle? && !states[k - 1].At(t).Idle?;
      SameOperation(states, events, t, i, k - 1);
      assert Follows(states, events, k - 1);
      KeepsOperation(states[k - 2], states[k - 1], events[k - 1], t);
    }
  }

  // The step in which a thread becomes idle answers the operation it loaded when it last left Idle.
  lemma OperationIsAnswered(states: seq<State>, events: seq<Event>, t: Tid, i: nat, k: nat)
    requires Run(states, events) && 0 < i < k < |states| && Busy(states, t, i, k) && states[k].At(t).Idle?
    ensures Answers(states[i].At(t).op, events[k])
    ensures MapStep(Items(states[k - 1].buckets), events[k], Items(states[k].buckets))
  {
    SameOperation(states, events, t, i, k);
    assert !states[k - 1].At(t).Idle?;
    assert Follows(states, events, k);
    var u := StepAdvancesOne(states[k - 1], states[k], events[k]);
    assert u == t;
    RunsAreMapRuns(states, events, k);
  }

  // All other steps are silent, and no step answers two operations.
  lemma OnlyAnswersSpeak(states: seq<State>, events: seq<Event>, k: nat)
    requires Run(states, events) && 0 < k < |states|
    ensures events[k].Silent? <==> forall t :: states[k].At(t).Idle? ==> states[k - 1].At(t).Idle?
    ensures forall t, u :: states[k].At(t).Idle? && states[k].At(u).Idle? && !states[k - 1].At(t).Idle? && !states[k - 1].At(u).Idle? ==> t == u
  {
    assert Follows(states, events, k);
    var w := StepAdvancesOne(states[k - 1], states[k], events[k]);
    if !events[k].Silent? {
      assert states[k].At(w).Idle? && !states[k - 1].At(w).Idle?;
    }
  }
}
