// The pool state of an arena: publishers that announce new work without a lock, and threads that take a
// snapshot of all task pools to find out that there is none.
module ArenaPool {

  type Tid = nat
  type Task = nat

  datatype Place = Slot(k: nat) | Stream

  // Busy carries the identity of the thread that takes the snapshot.
  datatype Pool = Empty | Full | Busy(t: Tid)

  datatype Phase =
    | Outside
    // advertise_new_work: tasks just published; the pool state read; the second attempt; the demand still to raise.
    | Published(tasks: set<Task>)
    | Snapped(tasks: set<Task>, snapshot: Pool)
    | Retry(tasks: set<Task>)
    | Wake
    // is_out_of_work: about to ask for the snapshot; permission got; slots below k of n seen; a result that is
    // still to be tested, tested, and turned into a decision; the demand still to lower; the answer given.
    | Asking
    | Started
    | Scanning(n: nat, k: nat)
    | Scanned(found: bool)
    | Tested(found: bool)
    | Deciding(absent: bool)
    | Drop
    | Answered(outOfWork: bool)
  {
    predicate Out() { Outside? || Answered? }
    predicate Scans() { Started? || Scanning? || Scanned? || Tested? || Deciding? }
    // Inside advertise_new_work, before the pool state is known to be full.
    predicate Advertises(x: Task) { (Published? || Snapped? || Retry?) && x in tasks }
  }

  // max: my_max_num_workers. raises, drops: transitions EMPTY-to-FULL and busy-to-EMPTY made so far; raised,
  // lowered: demand adjustments made so far.
  datatype State = State(
    pool: Pool,
    limit: nat,
    present: map<Task, Place>,
    phases: map<Tid, Phase>,
    max: nat,
    demand: int,
    raises: nat,
    drops: nat,
    raised: nat,
    lowered: nat)
  {
    function At(t: Tid): Phase { if t in phases then phases[t] else Outside }
    function Move(t: Tid, p: Phase): State { this.(phases := phases[t := p]) }
  }

  ghost predicate Init(s: State) {
    && s.pool == Empty && s.present == map[] && s.phases == map[] && s.demand == 0
    && s.raises == s.drops == s.raised == s.lowered == 0
  }

  // ---------------------------------------------------------------- steps

  // Tasks appear in a slot some thread occupies, or in the stream.
  ghost predicate Publish(s: State, t: Tid, s': State) {
    && s.At(t).Out()
    && exists xs: map<Task, Place> :: xs.Keys !! s.present.Keys && (forall x :: x in xs && xs[x].Slot? ==> xs[x].k < s.limit)
         && s' == s.Move(t, Published(xs.Keys)).(present := s.present + xs)
  }

  // Some task is taken to be executed, or another slot comes into use.
  ghost predicate Environment(s: State, s': State) {
    || (exists x :: s' == s.(present := s.present - {x}))
    || (exists l :: l > s.limit && s' == s.(limit := l))
  }

  // One step of advertise_new_work.
  ghost predicate Advertise(s: State, t: Tid, s': State) {
    match s.At(t)
    case Published(xs) => s' == s.Move(t, if s.pool.Full? then Outside else Snapped(xs, s.pool))
    case Snapped(xs, snapshot) =>
      if s.pool == snapshot then
        s' == if snapshot.Empty? then s.Move(t, Wake).(pool := Full, raises := s.raises + 1)
              else s.Move(t, Outside).(pool := Full)
      else
        s' == s.Move(t, if s.pool.Empty? then Retry(xs) else Outside)
    case Retry(xs) =>
      s' == if s.pool.Empty? then s.Move(t, Wake).(pool := Full, raises := s.raises + 1) else s.Move(t, Outside)
    case Wake => s' == s.Move(t, Outside).(demand := s.demand + s.max, raised := s.raised + 1)
    case _ => false
  }

  ghost predicate Has(s: State, place: Place) { exists x :: x in s.present && s.present[x] == place }

  // One step of is_out_of_work.
  ghost predicate Snapshot(s: State, t: Tid, s': State) {
    match s.At(t)
    case Asking => s' == if s.pool.Full? then s.Move(t, Started).(pool := Busy(t)) else s.Move(t, Answered(false))
    case Started => s' == s.Move(t, Scanning(s.limit, 0))
    case Scanning(n, k) =>
      s' == s.Move(t, if k >= n then Scanned(false) else if Has(s, Slot(k)) then Scanned(true) else Scanning(n, k + 1))
    case Scanned(found) => s' == s.Move(t, if s.pool == Busy(t) then Tested(found) else Answered(false))
    case Tested(found) => s' == s.Move(t, Deciding(!found && !Has(s, Stream)))
    case Deciding(absent) =>
      s' == if s.pool != Busy(t) then s.Move(t, Answered(false))
            else if absent then s.Move(t, Drop).(pool := Empty, drops := s.drops + 1)
            else s.Move(t, Answered(false)).(pool := Full)
    case Drop => s' == s.Move(t, Answered(true)).(demand := s.demand - s.max, lowered := s.lowered + 1)
    case _ => s.At(t).Out() && s' == s.Move(t, if s.pool.Full? then Asking else Answered(s.pool.Empty?))
  }

  ghost predicate Step(s: State, s': State) {
    Environment(s, s') || exists t :: Publish(s, t, s') || Advertise(s, t, s') || Snapshot(s, t, s')
  }

  ghost predicate Follows(run: seq<State>, k: nat)
    requires 0 < k < |run|
  {
    Step(run[k - 1], run[k])
  }

  ghost predicate Run(run: seq<State>) {
    && |run| > 0 && Init(run[0])
    && forall k :: 0 < k < |run| ==> Follows(run, k)
  }

  // ---------------------------------------------------------------- the invariant about work

  // The thread that takes the snapshot has seen some work, or will come past this task.
  ghost predicate Visible(s: State, v: Tid, x: Task)
    requires x in s.present
  {
    match s.At(v)
    case Started => true
    case Scanning(n, k) => s.present[x].Stream? || k <= s.present[x].k < n
    case Scanned(found) => found || s.present[x].Stream?
    case Tested(found) => found || s.present[x].Stream?
    case Deciding(absent) => !absent
    case _ => false
  }

  // A publisher of x that is bound to undo the snapshot of v.
  ghost predicate Undoes(s: State, v: Tid, x: Task) {
    exists t {:trigger s.At(t)} ::
      (s.At(t).Published? && x in s.At(t).tasks)
      || (s.At(t).Snapped? && x in s.At(t).tasks && s.At(t).snapshot == Busy(v))
  }

  ghost predicate Advertised(s: State, x: Task) { exists t {:trigger s.At(t)} :: s.At(t).Advertises(x) }

  ghost predicate WorkInv(s: State) {
    && (forall x :: x in s.present && s.present[x].Slot? ==> s.present[x].k < s.limit)
    && (s.pool.Busy? ==> forall x :: x in s.present ==> Visible(s, s.pool.t, x) || Undoes(s, s.pool.t, x))
    && (s.pool.Empty? ==> forall x :: x in s.present ==> Advertised(s, x))
    && (forall t {:trigger s.At(t)} :: s.At(t).Snapped? ==> !s.At(t).snapshot.Full?)
  }

  lemma PublishWork(s: State, t: Tid, s': State)
    requires WorkInv(s) && Publish(s, t, s')
    ensures WorkInv(s')
  {
    forall u | u != t ensures s'.At(u) == s.At(u) {}
    assert s'.At(t).Published?;
    forall x | x in s'.present ensures x in s'.At(t).tasks || (x in s.present && s'.present[x] == s.present[x]) {}
    if s.pool.Busy? {
      forall x | x in s'.present ensures Visible(s', s.pool.t, x) || Undoes(s', s.pool.t, x) {
        if x !in s'.At(t).tasks && Undoes(s, s.pool.t, x) {
          var u :| (s.At(u).Published? && x in s.At(u).tasks)
            || (s.At(u).Snapped? && x in s.At(u).tasks && s.At(u).snapshot == Busy(s.pool.t));
          assert s'.At(u) == s.At(u);
        }
      }
    }
    if s.pool.Empty? {
      forall x | x in s'.present ensures Advertised(s', x) {
        if x !in s'.At(t).tasks {
          var u :| s.At(u).Advertises(x);
          assert s'.At(u) == s.At(u);
        }
      }
    }
  }

  lemma EnvironmentWork(s: State, s': State)
    requires WorkInv(s) && Environment(s, s')
    ensures WorkInv(s')
  {
    forall u ensures s'.At(u) == s.At(u) {}
    forall x | x in s'.present ensures x in s.present && s'.present[x] == s.present[x] {}
    forall v, x | x in s'.present && Undoes(s, v, x) ensures Undoes(s', v, x) {
      var u :| (s.At(u).Published? && x in s.At(u).tasks)
        || (s.At(u).Snapped? && x in s.At(u).tasks && s.At(u).snapshot == Busy(v));
      assert s'.At(u) == s.At(u);
    }
    forall x | x in s'.present && Advertised(s, x) ensures Advertised(s', x) {
      var u :| s.At(u).Advertises(x);
      assert s'.At(u) == s.At(u);
    }
  }

  // A publisher leaves only when the state is full, or when the snapshot under way began after it looked.
  lemma AdvertiseWork(s: State, t: Tid, s': State)
    requires WorkInv(s) && Advertise(s, t, s')
    ensures WorkInv(s')
  {
    forall u | u != t ensures s'.At(u) == s.At(u) {}
    assert s'.present == s.present && s'.limit == s.limit;
    if s'.pool.Busy? {
      var v := s'.pool.t;
      forall x | x in s'.present ensures Visible(s', v, x) || Undoes(s', v, x) {
        if Undoes(s, v, x) {
          var u :| (s.At(u).Published? && x in s.At(u).tasks)
            || (s.At(u).Snapped? && x in s.At(u).tasks && s.At(u).snapshot == Busy(v));
          assert s'.At(u).Snapped? || s'.At(u) == s.At(u);
        }
      }
    }
    if s'.pool.Empty? {
      forall x | x in s'.present ensures Advertised(s', x) {
        var u :| s.At(u).Advertises(x);
        assert s'.At(u).Advertises(x);
      }
    }
  }

  lemma SnapshotWork(s: State, t: Tid, s': State)
    requires WorkInv(s) && Snapshot(s, t, s')
    ensures WorkInv(s')
  {
    forall u | u != t ensures s'.At(u) == s.At(u) {}
    assert s'.present == s.present && s'.limit == s.limit;
    if s'.pool.Busy? {
      var v := s'.pool.t;
      forall x | x in s'.present ensures Visible(s', v, x) || Undoes(s', v, x) {
        if s.pool == s'.pool && Undoes(s, v, x) {
          var u :| (s.At(u).Published? && x in s.At(u).tasks)
            || (s.At(u).Snapped? && x in s.At(u).tasks && s.At(u).snapshot == Busy(v));
          assert s'.At(u) == s.At(u);
        }
      }
    }
    if s'.pool.Empty? {
      forall x | x in s'.present ensures Advertised(s', x) {
        if s.pool.Empty? {
          var u :| s.At(u).Advertises(x);
          assert s'.At(u) == s.At(u);
        } else {
          assert s.pool == Busy(t) && Undoes(s, t, x);
          var u :| (s.At(u).Published? && x in s.At(u).tasks)
            || (s.At(u).Snapped? && x in s.At(u).tasks && s.At(u).snapshot == Busy(t));
          assert s'.At(u) == s.At(u) && s'.At(u).Advertises(x);
        }
      }
    }
  }

  // ---------------------------------------------------------------- the invariant about demand

  function Waking(s: State): set<Tid> { set t | t in s.phases && s.phases[t].Wake? }

  function Dropping(s: State): set<Tid> { set t | t in s.phases && s.phases[t].Drop? }

  // Each transition is matched by one adjustment, made or still owed by the thread that made the transition.
  ghost predicate DemandInv(s: State) {
    && s.raises == s.raised + |Waking(s)|
    && s.drops == s.lowered + |Dropping(s)|
    && s.raises == s.drops + (if s.pool.Empty? then 0 else 1)
    && s.demand == (s.raised - s.lowered) * s.max
  }

  lemma OneElement(a: set<Tid>, b: set<Tid>, t: Tid)
    requires a - {t} == b - {t}
    ensures |a| + (if t in b then 1 else 0) == |b| + if t in a then 1 else 0
  {
    assert t in a ==> a == (a - {t}) + {t};
    assert t !in a ==> a == a - {t};
    assert t in b ==> b == (b - {t}) + {t};
    assert t !in b ==> b == b - {t};
  }

  lemma OneMore(a: int, m: int)
    ensures (a + 1) * m == a * m + m && (a - 1) * m == a * m - m
  {
  }

  lemma StepCounts(s: State, t: Tid, s': State)
    requires s'.phases == s.phases[t := s'.At(t)]
    ensures |Waking(s')| == |Waking(s)| + (if s'.At(t).Wake? then 1 else 0) - (if s.At(t).Wake? then 1 else 0)
    ensures |Dropping(s')| == |Dropping(s)| + (if s'.At(t).Drop? then 1 else 0) - (if s.At(t).Drop? then 1 else 0)
  {
    assert Waking(s') - {t} == Waking(s) - {t};
    OneElement(Waking(s'), Waking(s), t);
    assert Dropping(s') - {t} == Dropping(s) - {t};
    OneElement(Dropping(s'), Dropping(s), t);
  }

  lemma AdvertiseDemand(s: State, t: Tid, s': State)
    requires DemandInv(s) && Advertise(s, t, s')
    ensures DemandInv(s')
  {
    StepCounts(s, t, s');
    OneMore(s.raised - s.lowered, s.max);
  }

  // What a step of is_out_of_work does to the pool state and to demand.
  lemma SnapshotEffect(s: State, t: Tid, s': State)
    requires Snapshot(s, t, s')
    ensures s'.phases == s.phases[t := s'.At(t)] && s'.max == s.max && s'.raises == s.raises && s'.raised == s.raised
    ensures !s.At(t).Wake? && !s'.At(t).Wake?
    ensures s'.drops == s.drops + if s'.At(t).Drop? then 1 else 0
    ensures s'.At(t).Drop? ==> !s.pool.Empty? && s'.pool.Empty?
    ensures !s'.At(t).Drop? ==> (s'.pool.Empty? <==> s.pool.Empty?)
    ensures if s.At(t).Drop? then !s'.At(t).Drop? && s'.lowered == s.lowered + 1 && s'.demand == s.demand - s.max
            else s'.lowered == s.lowered && s'.demand == s.demand
  {
  }

  lemma SnapshotDemand(s: State, t: Tid, s': State)
    requires DemandInv(s) && Snapshot(s, t, s')
    ensures DemandInv(s')
  {
    SnapshotEffect(s, t, s');
    StepCounts(s, t, s');
    OneMore(s.raised - s.lowered, s.max);
    if s.At(t).Drop? {
      assert s'.raised - s'.lowered == s.raised - s.lowered - 1;
    }
  }

  lemma EnvironmentDemand(s: State, s': State)
    requires DemandInv(s) && Environment(s, s')
    ensures DemandInv(s')
  {
    assert Waking(s') == Waking(s) && Dropping(s') == Dropping(s);
  }

  lemma PublishDemand(s: State, t: Tid, s': State)
    requires DemandInv(s) && Publish(s, t, s')
    ensures DemandInv(s')
  {
    StepCounts(s, t, s');
  }

  lemma DemandStep(s: State, s': State)
    requires DemandInv(s) && Step(s, s')
    ensures DemandInv(s')
  {
    if Environment(s, s') {
      EnvironmentDemand(s, s');
    } else {
      var t :| Publish(s, t, s') || Advertise(s, t, s') || Snapshot(s, t, s');
      if Publish(s, t, s') {
        PublishDemand(s, t, s');
      } else if Advertise(s, t, s') {
        AdvertiseDemand(s, t, s');
      } else {
        SnapshotDemand(s, t, s');
      }
    }
  }

  lemma WorkStep(s: State, s': State)
    requires WorkInv(s) && Step(s, s')
    ensures WorkInv(s')
  {
    if Environment(s, s') {
      EnvironmentWork(s, s');
    } else {
      var t :| Publish(s, t, s') || Advertise(s, t, s') || Snapshot(s, t, s');
      if Publish(s, t, s') {
        PublishWork(s, t, s');
      } else if Advertise(s, t, s') {
        AdvertiseWork(s, t, s');
      } else {
        SnapshotWork(s, t, s');
      }
    }
  }

  lemma {:induction false} RunInv(run: seq<State>, k: nat)
    requires Run(run) && k < |run|
    ensures WorkInv(run[k]) && DemandInv(run[k])
  {
    if k == 0 {
      assert Waking(run[0]) == {} && Dropping(run[0]) == {};
    } else {
      RunInv(run, k - 1);
      assert Follows(run, k);
      WorkStep(run[k - 1], run[k]);
      DemandStep(run[k - 1], run[k]);
    }
  }

  // ---------------------------------------------------------------- what the arena promises

  // No work is stranded: while the pool is marked empty, every task in a slot or in the stream still has its
  // publisher inside advertise_new_work.
  lemma NoStrandedWork(run: seq<State>, k: nat, x: Task)
    requires Run(run) && k < |run| && run[k].pool.Empty? && x in run[k].present
    ensures exists t :: run[k].At(t).Advertises(x)
  {
    RunInv(run, k);
  }

  // A publisher that gets to act on the empty mark makes the pool full before it leaves.
  lemma PublisherMarksFull(s: State, t: Tid, s': State)
    requires s.pool.Empty? && Advertise(s, t, s') && !s'.At(t).Snapped? && !s'.At(t).Retry? && !s.At(t).Wake?
    requires s.At(t).Snapped? ==> !s.At(t).snapshot.Full?
    ensures s'.pool.Full? && s'.At(t).Wake?
  {
  }

  // Demand is raised once per transition from EMPTY to FULL and lowered once per transition from busy to
  // EMPTY; when no adjustment is outstanding it is all or nothing, by the state of the pool.
  lemma DemandMatchesTransitions(run: seq<State>, k: nat)
    requires Run(run) && k < |run|
    ensures run[k].raises == run[k].raised + |Waking(run[k])|
    ensures run[k].drops == run[k].lowered + |Dropping(run[k])|
    ensures Waking(run[k]) == {} && Dropping(run[k]) == {} ==>
      run[k].demand == if run[k].pool.Empty? then 0 else run[k].max
  {
    RunInv(run, k);
    OneMore(0, run[k].max);
  }
}
