// What is_out_of_work answers: true, with the pool made EMPTY and demand lowered, exactly when the thread that took
// the snapshot came past every slot and the stream without finding a task, and nobody undid its mark meanwhile.
module ArenaScan {
  import opened ArenaPool

  // Thread t has left a phase in step m.
  predicate Left(run: seq<State>, t: Tid, m: nat)
    requires 0 < m < |run|
  {
    run[m].At(t) != run[m - 1].At(t)
  }

  // It came past slot k in step m.
  predicate CameBy(run: seq<State>, t: Tid, m: nat, k: nat)
    requires 0 < m < |run|
  {
    run[m - 1].At(t).Scanning? && run[m - 1].At(t).k == k && Left(run, t, m)
  }

  predicate TestedStream(run: seq<State>, t: Tid, m: nat)
    requires 0 < m < |run|
  {
    run[m - 1].At(t).Tested? && Left(run, t, m)
  }

  // After step i and up to step m slot k has been seen without a task.
  ghost predicate SlotClear(run: seq<State>, t: Tid, i: nat, m: nat, k: nat)
    requires m < |run|
  {
    exists l: nat {:trigger CameBy(run, t, l, k)} :: i < l <= m && CameBy(run, t, l, k) && !Has(run[l - 1], Slot(k))
  }

  // A task has been seen in a slot below the limit.
  ghost predicate SlotHit(run: seq<State>, t: Tid, i: nat, m: nat, limit: nat)
    requires m < |run|
  {
    exists l: nat, k: nat {:trigger CameBy(run, t, l, k)} :: i < l <= m && k < limit && CameBy(run, t, l, k) && Has(run[l - 1], Slot(k))
  }

  ghost predicate StreamClear(run: seq<State>, t: Tid, i: nat, m: nat)
    requires m < |run|
  {
    exists l: nat {:trigger TestedStream(run, t, l)} :: i < l <= m && TestedStream(run, t, l) && !Has(run[l - 1], Stream)
  }

  ghost predicate StreamHit(run: seq<State>, t: Tid, i: nat, m: nat)
    requires m < |run|
  {
    exists l: nat {:trigger TestedStream(run, t, l)} :: i < l <= m && TestedStream(run, t, l) && Has(run[l - 1], Stream)
  }

  ghost predicate SlotsClear(run: seq<State>, t: Tid, i: nat, m: nat, limit: nat)
    requires m < |run|
  {
    (forall k: nat {:trigger SlotClear(run, t, i, m, k)} :: k < limit ==> SlotClear(run, t, i, m, k)) && !SlotHit(run, t, i, m, limit)
  }

  // Everything there was to see has been seen after step i, and no task.
  ghost predicate NothingFound(run: seq<State>, t: Tid, i: nat, m: nat, limit: nat)
    requires m < |run|
  {
    SlotsClear(run, t, i, m, limit) && StreamClear(run, t, i, m) && !StreamHit(run, t, i, m)
  }

  // Thread t is granted the snapshot in step i, reads the limit of the slots in step l, and takes its last step as
  // a snapshot taker in step j.
  ghost predicate Scan(run: seq<State>, t: Tid, i: nat, l: nat, j: nat) {
    && 0 < i < l < j < |run|
    && run[i - 1].At(t).Asking?
    && (forall m :: i <= m < l ==> run[m].At(t).Started?) && !run[l].At(t).Started?
    && (forall m {:trigger run[m]} :: l <= m < j ==> run[m].At(t).Scans()) && !run[j].At(t).Scans()
  }

  // What the thread knows.
  ghost predicate Knows(run: seq<State>, t: Tid, i: nat, m: nat, limit: nat)
    requires m < |run|
  {
    match run[m].At(t)
    case Scanning(n, k) =>
      && n == limit && k <= n && !SlotHit(run, t, i, m, limit)
      && !StreamClear(run, t, i, m) && !StreamHit(run, t, i, m)
      && forall q: nat {:trigger SlotClear(run, t, i, m, q)} :: q < k ==> SlotClear(run, t, i, m, q)
    case Scanned(found) =>
      && !StreamClear(run, t, i, m) && !StreamHit(run, t, i, m)
      && if found then SlotHit(run, t, i, m, limit) else SlotsClear(run, t, i, m, limit)
    case Tested(found) =>
      && !StreamClear(run, t, i, m) && !StreamHit(run, t, i, m)
      && if found then SlotHit(run, t, i, m, limit) else SlotsClear(run, t, i, m, limit)
    case Deciding(absent) => absent <==> NothingFound(run, t, i, m, limit)
    case _ => false
  }

  lemma PublishStays(s: State, u: Tid, s': State, t: Tid)
    requires Publish(s, u, s') && u != t
    ensures s'.At(t) == s.At(t)
  {
  }

  lemma OwnStays(s: State, u: Tid, s': State, t: Tid)
    requires (Advertise(s, u, s') || Snapshot(s, u, s')) && u != t
    ensures s'.At(t) == s.At(t)
  {
  }

  // A step is taken by one thread, or by none.
  lemma StepOfOne(s: State, s': State, t: Tid)
    requires Step(s, s') && (s.At(t).Scans() || s.At(t).Drop?)
    ensures s'.At(t) == s.At(t) || Snapshot(s, t, s')
  {
    if !Environment(s, s') {
      var u :| Publish(s, u, s') || Advertise(s, u, s') || Snapshot(s, u, s');
      if u != t {
        if Publish(s, u, s') { PublishStays(s, u, s', t); } else { OwnStays(s, u, s', t); }
      }
    }
  }

  // What step m adds to what has been seen.
  lemma SlotsSeen(run: seq<State>, t: Tid, i: nat, m: nat, limit: nat)
    requires i < m < |run|
    ensures forall k: nat {:trigger SlotClear(run, t, i, m, k)} ::
      SlotClear(run, t, i, m, k) <==> SlotClear(run, t, i, m - 1, k) || (CameBy(run, t, m, k) && !Has(run[m - 1], Slot(k)))
    ensures SlotHit(run, t, i, m, limit) <==>
      SlotHit(run, t, i, m - 1, limit) || (run[m - 1].At(t).Scanning? && run[m - 1].At(t).k < limit && Left(run, t, m) && Has(run[m - 1], Slot(run[m - 1].At(t).k)))
  {
    if run[m - 1].At(t).Scanning? && Left(run, t, m) {
      assert CameBy(run, t, m, run[m - 1].At(t).k);
    }
  }

  lemma StreamSeen(run: seq<State>, t: Tid, i: nat, m: nat)
    requires i < m < |run|
    ensures StreamClear(run, t, i, m) <==> StreamClear(run, t, i, m - 1) || (TestedStream(run, t, m) && !Has(run[m - 1], Stream))
    ensures StreamHit(run, t, i, m) <==> StreamHit(run, t, i, m - 1) || (TestedStream(run, t, m) && Has(run[m - 1], Stream))
  {
  }

  // No slot comes by while the thread does something else, or nothing.
  lemma SlotsKept(run: seq<State>, t: Tid, i: nat, m: nat, limit: nat)
    requires i < m < |run| && (!run[m - 1].At(t).Scanning? || !Left(run, t, m))
    ensures SlotHit(run, t, i, m, limit) <==> SlotHit(run, t, i, m - 1, limit)
    ensures SlotsClear(run, t, i, m, limit) <==> SlotsClear(run, t, i, m - 1, limit)
    ensures forall k: nat {:trigger SlotClear(run, t, i, m, k)} :: SlotClear(run, t, i, m, k) <==> SlotClear(run, t, i, m - 1, k)
  {
    SlotsSeen(run, t, i, m, limit);
    forall k: nat ensures !CameBy(run, t, m, k) {}
    if SlotsClear(run, t, i, m, limit) {
      var before := m - 1;
      forall k: nat | k < limit ensures SlotClear(run, t, i, before, k) { assert SlotClear(run, t, i, m, k); }
    }
  }

  // Nothing is known when the snapshot begins.
  lemma NothingYet(run: seq<State>, t: Tid, i: nat, l: nat, limit: nat)
    requires 0 < i < l < |run| && forall m {:trigger run[m]} :: i <= m < l ==> run[m].At(t).Started?
    ensures !SlotHit(run, t, i, l, limit) && !StreamClear(run, t, i, l) && !StreamHit(run, t, i, l)
  {
    forall q: nat, k: nat | i < q <= l ensures !CameBy(run, t, q, k) { assert run[q - 1].At(t).Started?; }
    forall q: nat | i < q <= l ensures !TestedStream(run, t, q) { assert run[q - 1].At(t).Started?; }
  }

  lemma KnowsByScanning(run: seq<State>, t: Tid, i: nat, m: nat, limit: nat)
    requires i < m < |run| && Snapshot(run[m - 1], t, run[m]) && run[m - 1].At(t).Scanning?
    requires Knows(run, t, i, m - 1, limit)
    ensures Knows(run, t, i, m, limit)
  {
    SlotsSeen(run, t, i, m, limit);
    StreamSeen(run, t, i, m);
    var k := run[m - 1].At(t).k;
    assert Left(run, t, m);
    assert CameBy(run, t, m, k);
  }

  lemma KnowsOtherwise(run: seq<State>, t: Tid, i: nat, m: nat, limit: nat)
    requires i < m < |run| && !run[m - 1].At(t).Scanning?
    requires run[m].At(t) == run[m - 1].At(t) || (Snapshot(run[m - 1], t, run[m]) && run[m].At(t).Scans())
    requires Knows(run, t, i, m - 1, limit)
    ensures Knows(run, t, i, m, limit)
  {
    SlotsKept(run, t, i, m, limit);
    StreamSeen(run, t, i, m);
    if run[m - 1].At(t).Tested? && Left(run, t, m) { assert TestedStream(run, t, m); }
  }

  lemma KnowsStill(run: seq<State>, t: Tid, i: nat, m: nat, limit: nat)
    requires i < m < |run| && run[m].At(t) == run[m - 1].At(t) && Knows(run, t, i, m - 1, limit)
    ensures Knows(run, t, i, m, limit)
  {
    SlotsKept(run, t, i, m, limit);
    StreamSeen(run, t, i, m);
  }

  lemma KnowsStep(run: seq<State>, t: Tid, i: nat, m: nat, limit: nat)
    requires i < m < |run| && Step(run[m - 1], run[m]) && run[m - 1].At(t).Scans() && run[m].At(t).Scans()
    requires Knows(run, t, i, m - 1, limit)
    ensures Knows(run, t, i, m, limit)
  {
    StepOfOne(run[m - 1], run[m], t);
    if run[m].At(t) == run[m - 1].At(t) {
      KnowsStill(run, t, i, m, limit);
    } else if run[m - 1].At(t).Scanning? {
      KnowsByScanning(run, t, i, m, limit);
    } else {
      KnowsOtherwise(run, t, i, m, limit);
    }
  }

  lemma {:induction false} ScanKnows(run: seq<State>, t: Tid, i: nat, l: nat, m: nat)
    requires Run(run) && 0 < i < l <= m < |run|
    requires (forall q :: i <= q < l ==> run[q].At(t).Started?) && !run[l].At(t).Started?
    requires forall q {:trigger run[q]} :: l <= q <= m ==> run[q].At(t).Scans()
    ensures Knows(run, t, i, m, run[l - 1].limit)
    decreases m
  {
    if m == l {
      assert Follows(run, l) && run[l - 1].At(t).Started?;
      StepOfOne(run[l - 1], run[l], t);
      NothingYet(run, t, i, l, run[l - 1].limit);
    } else {
      ScanKnows(run, t, i, l, m - 1);
      assert Follows(run, m);
      KnowsStep(run, t, i, m, run[l - 1].limit);
    }
  }

  // A snapshot ends with the pool EMPTY and one drop of demand owed if and only if nothing was found and its mark
  // was still there at the last step; otherwise the answer is false, and the step makes no pool EMPTY.
  lemma ScanVerdict(run: seq<State>, t: Tid, i: nat, l: nat, j: nat)
    requires Run(run) && Scan(run, t, i, l, j)
    ensures var s, s' := run[j - 1], run[j];
      if NothingFound(run, t, i, j, run[l - 1].limit) && s.pool == Busy(t)
      then s'.pool.Empty? && s'.At(t).Drop? && s'.drops == s.drops + 1
      else s'.At(t) == Answered(false) && s'.drops == s.drops && (s'.pool == s.pool || (s.pool == Busy(t) && s'.pool.Full?))
  {
    var limit := run[l - 1].limit;
    ScanKnows(run, t, i, l, j - 1);
    assert Follows(run, j) && run[j - 1].At(t).Scans();
    StepOfOne(run[j - 1], run[j], t);
    LastStep(run[j - 1], t, run[j]);
    SlotsKept(run, t, i, j, limit);
    StreamSeen(run, t, i, j);
  }

  // How a snapshot taker takes its last step.
  lemma LastStep(s: State, t: Tid, s': State)
    requires Snapshot(s, t, s') && s.At(t).Scans() && !s'.At(t).Scans()
    ensures s.At(t).Scanned? || s.At(t).Deciding?
    ensures s.At(t).Scanned? ==> s.pool != Busy(t)
    ensures if s.At(t) == Deciding(true) && s.pool == Busy(t)
      then s'.pool.Empty? && s'.At(t).Drop? && s'.drops == s.drops + 1
      else s'.At(t) == Answered(false) && s'.drops == s.drops && (s'.pool == s.pool || (s.pool == Busy(t) && s'.pool.Full?))
  {
  }

  // Whoever owes a drop lowers demand once, and answers true.
  lemma DropAnswers(run: seq<State>, t: Tid, k: nat)
    requires Run(run) && 0 < k < |run| && run[k - 1].At(t).Drop? && Left(run, t, k)
    ensures run[k].At(t) == Answered(true) && run[k].lowered == run[k - 1].lowered + 1
    ensures run[k].demand == run[k - 1].demand - run[k - 1].max && run[k].pool == run[k - 1].pool
  {
    assert Follows(run, k);
    StepOfOne(run[k - 1], run[k], t);
  }

  // Without a snapshot the answer is whether the pool was marked EMPTY, and false when the request for one failed.
  lemma AnswersAtOnce(run: seq<State>, t: Tid, k: nat)
    requires Run(run) && 0 < k < |run| && Left(run, t, k) && run[k].At(t).Answered?
    requires run[k - 1].At(t).Out() || run[k - 1].At(t).Asking?
    ensures run[k].At(t).outOfWork <==> run[k - 1].At(t).Out() && run[k - 1].pool.Empty?
    ensures run[k].pool == run[k - 1].pool && run[k].drops == run[k - 1].drops
  {
    assert Follows(run, k);
    AnswerIsOwn(run[k - 1], run[k], t);
  }

  lemma AnswerIsOwn(s: State, s': State, t: Tid)
    requires Step(s, s') && s'.At(t) != s.At(t) && s'.At(t).Answered?
    ensures Snapshot(s, t, s')
  {
    if !Environment(s, s') {
      var u :| Publish(s, u, s') || Advertise(s, u, s') || Snapshot(s, u, s');
      if u != t {
        if Publish(s, u, s') { PublishStays(s, u, s', t); } else { OwnStays(s, u, s', t); }
      }
    }
  }

  // A publisher that finds the pool EMPTY and is not disturbed leaves it FULL, with demand raised.
  lemma AdvertisesAlone(s: State, t: Tid) returns (a: State, b: State, e: State)
    requires s.At(t).Published? && s.pool.Empty?
    ensures Advertise(s, t, a) && Advertise(a, t, b) && Advertise(b, t, e)
    ensures e == s.Move(t, Outside).(pool := Full, raises := s.raises + 1, demand := s.demand + s.max, raised := s.raised + 1)
  {
    a := s.Move(t, Snapped(s.At(t).tasks, Empty));
    b := a.Move(t, Wake).(pool := Full, raises := s.raises + 1);
    e := b.Move(t, Outside).(demand := s.demand + s.max, raised := s.raised + 1);
  }

  // ---------------------------------------------------------------- a snapshot that nobody disturbs

  // Thread t alone takes n steps of is_out_of_work.
  ghost predicate Takes(s: State, t: Tid, n: nat, e: State)
    decreases n
  {
    if n == 0 then e == s else exists u :: Snapshot(s, t, u) && Takes(u, t, n - 1, e)
  }

  lemma {:induction false} TakesMore(s: State, t: Tid, n: nat, u: State, m: nat, e: State)
    requires Takes(s, t, n, u) && Takes(u, t, m, e)
    ensures Takes(s, t, n + m, e)
    decreases n
  {
    if n > 0 {
      var v :| Snapshot(s, t, v) && Takes(v, t, n - 1, u);
      TakesMore(v, t, n - 1, u, m, e);
    }
  }

  ghost predicate SomeSlot(s: State, from: nat) { exists k: nat :: from <= k < s.limit && Has(s, Slot(k)) }

  // Past the slots from k on.
  lemma {:induction false} ScansAlone(s: State, t: Tid, k: nat) returns (n: nat)
    requires s.At(t) == Scanning(s.limit, k) && k <= s.limit
    ensures Takes(s, t, n, s.Move(t, Scanned(SomeSlot(s, k))))
    decreases s.limit - k
  {
    if k == s.limit || Has(s, Slot(k)) {
      n := 1;
      assert SomeSlot(s, k) <==> k < s.limit;
      OneStep(s, t, s.Move(t, Scanned(SomeSlot(s, k))));
    } else {
      var u := s.Move(t, Scanning(s.limit, k + 1));
      SameWork(s, u);
      var m := ScansAlone(u, t, k + 1);
      n := 1 + m;
      OneStep(s, t, u);
      assert SomeSlot(s, k) <==> SomeSlot(u, k + 1);
      assert u.Move(t, Scanned(SomeSlot(u, k + 1))) == s.Move(t, Scanned(SomeSlot(s, k)));
      TakesMore(s, t, 1, u, m, s.Move(t, Scanned(SomeSlot(s, k))));
    }
  }

  lemma OneStep(s: State, t: Tid, u: State)
    requires Snapshot(s, t, u)
    ensures Takes(s, t, 1, u)
  {
    assert Takes(u, t, 0, u);
  }

  lemma SameWork(s: State, u: State)
    requires u.present == s.present
    ensures forall place :: Has(u, place) <==> Has(s, place)
  {
  }

  lemma SameSlots(s: State, u: State, from: nat)
    requires u.present == s.present && u.limit == s.limit
    ensures SomeSlot(u, from) <==> SomeSlot(s, from)
  {
    SameWork(s, u);
  }

  lemma BeginsAlone(s: State, t: Tid) returns (e: State)
    requires s.At(t).Out() && s.pool.Full?
    ensures Takes(s, t, 3, e) && e == s.Move(t, Scanning(s.limit, 0)).(pool := Busy(t))
  {
    var a := s.Move(t, Asking);
    var b := a.Move(t, Started).(pool := Busy(t));
    e := b.Move(t, Scanning(s.limit, 0));
    OneStep(s, t, a);
    OneStep(a, t, b);
    OneStep(b, t, e);
    TakesMore(s, t, 1, a, 1, b);
    TakesMore(s, t, 2, b, 1, e);
  }

  lemma TestsAlone(s: State, t: Tid, found: bool) returns (e: State)
    requires s.pool == Busy(t) && s.At(t) == Scanned(found)
    ensures Takes(s, t, 2, e) && e == s.Move(t, Deciding(!found && !Has(s, Stream)))
  {
    var a := s.Move(t, Tested(found));
    SameWork(s, a);
    e := a.Move(t, Deciding(!found && !Has(s, Stream)));
    OneStep(s, t, a);
    OneStep(a, t, e);
    TakesMore(s, t, 1, a, 1, e);
  }

  lemma EndsAlone(s: State, t: Tid, absent: bool) returns (n: nat, e: State)
    requires s.pool == Busy(t) && s.At(t) == Deciding(absent)
    ensures Takes(s, t, n, e)
    ensures e == if !absent then s.Move(t, Answered(false)).(pool := Full)
      else s.Move(t, Answered(true)).(pool := Empty, drops := s.drops + 1, demand := s.demand - s.max, lowered := s.lowered + 1)
  {
    if absent {
      var a := s.Move(t, Drop).(pool := Empty, drops := s.drops + 1);
      e := a.Move(t, Answered(true)).(demand := s.demand - s.max, lowered := s.lowered + 1);
      OneStep(s, t, a);
      OneStep(a, t, e);
      TakesMore(s, t, 1, a, 1, e);
      n := 2;
    } else {
      e := s.Move(t, Answered(false)).(pool := Full);
      OneStep(s, t, e);
      n := 1;
    }
  }

  lemma ScansFromTheStart(s: State, t: Tid) returns (n: nat, e: State, found: bool)
    requires s.At(t).Out() && s.pool.Full?
    ensures Takes(s, t, n, e) && e == s.Move(t, Scanned(found)).(pool := Busy(t))
    ensures found <==> SomeSlot(s, 0)
  {
    var a := BeginsAlone(s, t);
    SameSlots(s, a, 0);
    found := SomeSlot(a, 0);
    var m := ScansAlone(a, t, 0);
    e := a.Move(t, Scanned(found));
    TakesMore(s, t, 3, a, m, e);
    n := 3 + m;
  }

  lemma LooksAlone(s: State, t: Tid) returns (n: nat, e: State, absent: bool)
    requires s.At(t).Out() && s.pool.Full?
    ensures Takes(s, t, n, e) && e == s.Move(t, Deciding(absent)).(pool := Busy(t))
    ensures absent <==> !SomeSlot(s, 0) && !Has(s, Stream)
  {
    var m, a, found := ScansFromTheStart(s, t);
    SameWork(s, a);
    absent := !found && !Has(s, Stream);
    e := TestsAlone(a, t, found);
    TakesMore(s, t, m, a, 2, e);
    n := m + 2;
  }

  // An undisturbed call on a FULL pool: with no task in sight it leaves the pool EMPTY, demand lowered, and answers
  // true; otherwise it leaves the pool FULL and demand alone, and answers false.
  lemma DecidesAlone(s: State, t: Tid) returns (n: nat, e: State)
    requires s.At(t).Out() && s.pool.Full?
    ensures Takes(s, t, n, e)
    ensures e == if SomeSlot(s, 0) || Has(s, Stream) then s.Move(t, Answered(false))
      else s.Move(t, Answered(true)).(pool := Empty, drops := s.drops + 1, demand := s.demand - s.max, lowered := s.lowered + 1)
  {
    var m, a, absent := LooksAlone(s, t);
    var k;
    k, e := EndsAlone(a, t, absent);
    n := m + k;
    TakesMore(s, t, m, a, k, e);
  }

  // So an arena without tasks in which no adjustment of demand is outstanding is left without demand.
  lemma QuietArenaGoesToSleep(run: seq<State>, k: nat, t: Tid) returns (n: nat, e: State)
    requires Run(run) && k < |run| && run[k].present == map[] && run[k].At(t).Out() && run[k].pool.Full?
    requires Waking(run[k]) == {} && Dropping(run[k]) == {}
    ensures Takes(run[k], t, n, e) && e.pool.Empty? && e.At(t) == Answered(true) && e.demand == 0
  {
    n, e := DecidesAlone(run[k], t);
    DemandMatchesTransitions(run, k);
  }
}
