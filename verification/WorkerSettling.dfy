// Workers come to rest: left alone by its client, the server wakes and puts to sleep until as many workers are awake
// as are requested, or all there are.
module WorkerSettling {
  import opened WorkerServer

  // ---------------------------------------------------------------- who goes to sleep

  // The lock is held only by the worker that is busy with it, and only the n workers ever leave the list.
  ghost predicate Holders(s: State) {
    && (forall w: Wid {:trigger s.At(w)} :: s.At(w).Busy? ==>
          (s.section.Inserting? && s.section.w == w) || (s.section.Waking? && s.section.who == Worker(w)))
    && (forall w: Wid {:trigger s.At(w)} :: !s.At(w).Asleep? ==> w < s.n)
  }

  lemma PopHolders(s: State, u: State)
    requires ListOk(s) && Holders(s) && s.asleep != [] && s.section.Waking? && u.section.Waking? && u.section.who == s.section.who
    requires u.phases == PopOne(s).phases && u.n == s.n
    ensures Holders(u)
  {
    assert s.asleep[0] in s.asleep;
    forall w ensures u.At(w) == if w == s.asleep[0] then Popped else s.At(w) {}
  }

  lemma LeaveHolders(s: State, u: State)
    requires ListOk(s) && Holders(s) && s.section.Waking? && u.phases == Leave(s).phases && u.section.Free? && u.n == s.n
    ensures Holders(u)
  {
    forall w ensures u.At(w) == if s.section.who == Worker(w) then Running else s.At(w) {}
  }

  lemma FinishHolders(s: State, u: State)
    requires ListOk(s) && Holders(s) && s.section.Inserting? && u == FinishInsert(s)
    ensures Holders(u)
  {
    var me := s.section.w;
    forall w: Wid ensures u.At(w) == if w == me then (if s.section.k <= 0 then Asleep else Running) else s.At(w) {}
  }

  lemma WorkerHolders(s: State, v: Wid, u: State)
    requires Holders(s) && WorkerStep(s, v, u)
    ensures Holders(u)
  {
    forall w: Wid ensures w != v ==> u.At(w) == s.At(w) {}
  }

  lemma HoldersStep(s: State, s': State)
    requires Inv(s) && Holders(s) && Step(s, s')
    ensures Holders(s')
  {
    if Adjust(s, s') || EnterClient(s, s') {
      assert forall w: Wid :: s'.At(w) == s.At(w);
    } else if s.section.Waking? && s' == WakeRound(s) {
      if s'.section.Waking? { PopHolders(s, s'); } else { LeaveHolders(s, s'); }
    } else if s.section.Inserting? && s' == FinishInsert(s) {
      FinishHolders(s, s');
    } else {
      var v :| WorkerStep(s, v, s');
      WorkerHolders(s, v, s');
    }
  }

  lemma {:induction false} RunHolders(run: seq<State>, k: nat)
    requires Run(run) && k < |run|
    ensures Inv(run[k]) && Holders(run[k])
  {
    RunInv(run, k);
    if k == 0 {
      assert forall w :: run[0].At(w) == Asleep;
    } else {
      RunHolders(run, k - 1);
      assert Follows(run, k);
      HoldersStep(run[k - 1], run[k]);
    }
  }

  // A worker that tries goes on trying until it gets the lock.
  lemma TryingIsOwn(s: State, s': State, w: Wid)
    requires ListOk(s) && Step(s, s') && s.At(w).Trying?
    ensures s'.At(w).Trying? || s'.section == Inserting(w, s.slack + 1)
  {
    if s.section.Waking? && s' == WakeRound(s) {
      WakeLeavesTrying(s, w);
    } else if exists v :: WorkerStep(s, v, s') {
      var v :| WorkerStep(s, v, s');
      WorkerLeavesTrying(s, v, s', w);
    }
  }

  lemma WakeLeavesTrying(s: State, w: Wid)
    requires ListOk(s) && s.section.Waking? && s.At(w).Trying?
    ensures WakeRound(s).At(w).Trying?
  {
    if s.asleep != [] { assert s.asleep[0] in s.asleep; }
  }

  lemma WorkerLeavesTrying(s: State, v: Wid, s': State, w: Wid)
    requires WorkerStep(s, v, s') && s.At(w).Trying?
    ensures s'.At(w).Trying? || s'.section == Inserting(w, s.slack + 1)
  {
    assert v != w ==> s'.At(w) == s.At(w);
  }

  // Until it lets go of the lock nobody changes what it has found.
  lemma AttemptGoesOn(s: State, s': State, w: Wid, k: int)
    requires Inv(s) && Step(s, s') && s.section == Inserting(w, k)
    ensures if s'.At(w).Busy? then s'.section == s.section
            else s'.At(w) == (if k <= 0 then Asleep else Running) && s'.slack == (if k <= 0 then s.slack else s.slack - 1)
  {
    if Adjust(s, s') || EnterClient(s, s') {
      assert s'.At(w) == s.At(w);
    } else if s' == FinishInsert(s) {
    } else {
      var v :| WorkerStep(s, v, s');
      assert v != w;
      assert s'.At(w) == s.At(w);
    }
  }

  lemma {:induction false} AttemptFinds(run: seq<State>, i: nat, m: nat, w: Wid)
    requires Run(run) && 0 < i <= m < |run| && run[i - 1].At(w).Trying? && forall q :: i <= q <= m ==> run[q].At(w).Busy?
    ensures run[m].section == Inserting(w, run[i - 1].slack + 1)
    decreases m
  {
    RunHolders(run, m - 1);
    assert Follows(run, m) && run[m].At(w).Busy?;
    if m == i {
      TryingIsOwn(run[i - 1], run[i], w);
    } else {
      AttemptFinds(run, i, m - 1, w);
      AttemptGoesOn(run[m - 1], run[m], w, run[i - 1].slack + 1);
    }
  }

  // A worker that ends its attempt, begun in step i, is on the list if and only if the slack it found under the
  // lock, its own unit included, was not positive; otherwise it takes its unit back and runs.
  lemma SleepsExactlyWithoutSlack(run: seq<State>, i: nat, j: nat, w: Wid)
    requires Run(run) && 0 < i < j < |run| && run[i - 1].At(w).Trying?
    requires (forall q :: i <= q < j ==> run[q].At(w).Busy?) && !run[j].At(w).Busy?
    ensures w in run[j].asleep <==> run[i - 1].slack + 1 <= 0
    ensures w !in run[j].asleep ==> run[j].At(w).Running?
    ensures run[j].slack == run[j - 1].slack - if w in run[j].asleep then 0 else 1
  {
    AttemptFinds(run, i, j - 1, w);
    AttemptEndsIn(run, j, w, run[i - 1].slack + 1);
  }

  lemma AttemptEndsIn(run: seq<State>, j: nat, w: Wid, k: int)
    requires Run(run) && 0 < j < |run| && run[j - 1].section == Inserting(w, k) && !run[j].At(w).Busy?
    ensures (w in run[j].asleep <==> k <= 0) && (w !in run[j].asleep ==> run[j].At(w).Running?)
    ensures run[j].slack == run[j - 1].slack - if w in run[j].asleep then 0 else 1
  {
    RunInv(run, j - 1);
    RunInv(run, j);
    assert Follows(run, j);
    AttemptEnds(run[j - 1], run[j], w, k);
  }

  lemma AttemptEnds(s: State, s': State, w: Wid, k: int)
    requires Inv(s) && Step(s, s') && s.section == Inserting(w, k) && !s'.At(w).Busy? && ListOk(s')
    ensures (w in s'.asleep <==> k <= 0) && (w !in s'.asleep ==> s'.At(w).Running?)
    ensures s'.slack == s.slack - if w in s'.asleep then 0 else 1
  {
    AttemptGoesOn(s, s', w, k);
    assert s'.n == s.n;
  }

  // ---------------------------------------------------------------- who is woken

  // A step leaves the list, puts one worker in front of it, or takes the first one off.
  predicate Stacked(xs: seq<Wid>, ys: seq<Wid>) {
    ys == xs || (ys != [] && ys[1..] == xs) || (xs != [] && ys == xs[1..])
  }

  lemma ListIsAStack(s: State, s': State)
    requires Step(s, s')
    ensures Stacked(s.asleep, s'.asleep)
  {
    if s.section.Inserting? && s' == FinishInsert(s) {
      assert ([s.section.w] + s.asleep)[1..] == s.asleep;
    }
  }

  // The part of the list from w on is ys.
  predicate From(xs: seq<Wid>, w: Wid, ys: seq<Wid>) { |ys| <= |xs| && xs[|xs| - |ys|..] == ys && ys != [] && ys[0] == w }

  lemma StaysFrom(xs: seq<Wid>, xs': seq<Wid>, w: Wid, ys: seq<Wid>)
    requires Stacked(xs, xs') && From(xs, w, ys) && w in xs'
    requires forall i, j :: 0 <= i < j < |xs| ==> xs[i] != xs[j]
    ensures From(xs', w, ys)
  {
    if xs' != xs && xs != [] && xs' == xs[1..] {
      var k :| 0 <= k < |xs'| && xs'[k] == w;
      assert xs[k + 1] == w && xs[|xs| - |ys|] == ys[0];
    } else if xs' != xs {
      assert xs'[|xs'| - |ys|..] == xs'[1..][|xs| - |ys|..];
    }
  }

  // The last to sleep is the first to be woken: while w stays on the list, so do all who were on it when w came.
  lemma {:induction false} LastIsWokenFirst(run: seq<State>, j: nat, k: nat, w: Wid)
    requires Run(run) && 0 < j <= k < |run|
    requires w !in run[j - 1].asleep && forall m :: j <= m <= k ==> w in run[m].asleep
    ensures From(run[k].asleep, w, [w] + run[j - 1].asleep)
    decreases k
  {
    assert Follows(run, k);
    ListIsAStack(run[k - 1], run[k]);
    if j < k {
      assert w in run[k - 1].asleep;
      LastIsWokenFirst(run, j, k - 1, w);
      RunInv(run, k - 1);
      StaysFrom(run[k - 1].asleep, run[k].asleep, w, [w] + run[j - 1].asleep);
    } else {
      JoinsInFront(run[k - 1].asleep, run[k].asleep, w);
    }
  }

  lemma JoinsInFront(xs: seq<Wid>, xs': seq<Wid>, w: Wid)
    requires Stacked(xs, xs') && w !in xs && w in xs'
    ensures From(xs', w, [w] + xs)
  {
    assert xs' != [] && xs'[1..] == xs;
    assert xs' == [xs'[0]] + xs;
  }

  // ---------------------------------------------------------------- every undisturbed step counts

  // A step that is not the client's.
  ghost predicate Undisturbed(s: State, s': State) { Step(s, s') && s'.requests == s.requests }

  // The slack once an attempt under way is over.
  function Settled(s: State): int { s.slack - if s.section.Inserting? then 1 else 0 }

  function Weight(p: Phase, negative: bool): nat {
    match p
    case Asleep => 0
    case Popped => 7
    case Notified => 6
    case Chaining => 5
    case Running => if negative then 3 else 0
    case Trying => 2
    case Busy => 0
  }

  function PhaseSum(s: State, n: nat, negative: bool): nat {
    if n == 0 then 0 else PhaseSum(s, n - 1, negative) + Weight(s.At(n - 1), negative)
  }

  function SectionWeight(c: Section, negative: bool): nat {
    match c
    case Free => 0
    case Waking(_, _, _) => 4
    case Inserting(_, k) => if k > 0 && negative then 4 else 1
  }

  function Extra(c: Section): nat { if c.Waking? then c.extra else 0 }

  function Positive(x: int): nat { if x > 0 then x else 0 }

  // How much is left to do.
  function Work(s: State): nat {
    8 * (Sum(s.waiting) + Extra(s.section) + Positive(Settled(s))) + 5 * |s.waiting|
    + SectionWeight(s.section, Settled(s) < 0) + PhaseSum(s, s.n, Settled(s) < 0)
  }

  lemma {:induction false} SameSum(s: State, u: State, n: nat, negative: bool)
    requires forall w: Wid :: w < n ==> u.At(w) == s.At(w)
    ensures PhaseSum(u, n, negative) == PhaseSum(s, n, negative)
  {
    if n > 0 { SameSum(s, u, n - 1, negative); }
  }

  lemma {:induction false} OneChanges(s: State, u: State, n: nat, w: Wid, negative: bool)
    requires w < n && forall v: Wid :: v < n && v != w ==> u.At(v) == s.At(v)
    ensures PhaseSum(u, n, negative) == PhaseSum(s, n, negative) - Weight(s.At(w), negative) + Weight(u.At(w), negative)
  {
    if w == n - 1 {
      SameSum(s, u, n - 1, negative);
    } else {
      OneChanges(s, u, n - 1, w, negative);
    }
  }

  lemma {:induction false} LessWithSlack(s: State, n: nat, negative: bool)
    ensures PhaseSum(s, n, false) <= PhaseSum(s, n, negative)
  {
    if n > 0 { LessWithSlack(s, n - 1, negative); }
  }

  lemma ClientCounts(s: State, s': State)
    requires EnterClient(s, s')
    ensures Work(s') < Work(s)
  {
    var i :| 0 <= i < |s.waiting| && s' == s.(waiting := Dropped(s.waiting, i), section := Waking(s.waiting[i], 0, Client));
    SumDropped(s.waiting, i);
    SameSum(s, s', s.n, Settled(s) < 0);
  }

  // Popping a worker spends a unit of extra slack, or of slack.
  lemma PopCounts(s: State, u: State)
    requires ListOk(s) && s.asleep != [] && s.section.Waking? && u.section.Waking? && u.waiting == s.waiting && u.n == s.n
    requires u.phases == PopOne(s).phases
    requires (s.section.extra > 0 && u.section.extra == s.section.extra - 1 && u.slack == s.slack)
          || (s.slack > 0 && u.section.extra == s.section.extra && u.slack == s.slack - 1)
    ensures Work(u) < Work(s)
  {
    var w := s.asleep[0];
    assert w in s.asleep;
    forall v: Wid ensures u.At(v) == if v == w then Popped else s.At(v) {}
    OneChanges(s, u, s.n, w, Settled(s) < 0);
    LessWithSlack(u, s.n, Settled(s) < 0);
  }

  lemma LeaveCounts(s: State, u: State)
    requires ListOk(s) && s.section.Waking? && u.section.Free? && u.waiting == s.waiting && u.n == s.n
    requires u.phases == Leave(s).phases && (u.slack == s.slack + s.section.extra || u.slack == s.slack <= 0)
    ensures Work(u) < Work(s)
  {
    forall v: Wid ensures u.At(v) == if s.section.who == Worker(v) then Running else s.At(v) {}
    if s.section.who.Worker? {
      OneChanges(s, u, s.n, s.section.who.w, Settled(s) < 0);
    } else {
      SameSum(s, u, s.n, Settled(s) < 0);
    }
    LessWithSlack(u, s.n, Settled(s) < 0);
  }

  lemma WakeCounts(s: State)
    requires ListOk(s) && s.section.Waking?
    ensures Work(WakeRound(s)) < Work(s)
  {
    var u := WakeRound(s);
    if u.section.Waking? { PopCounts(s, u); } else { LeaveCounts(s, u); }
  }

  lemma FinishCounts(s: State)
    requires Inv(s) && s.section.Inserting?
    ensures Work(FinishInsert(s)) < Work(s)
  {
    var u, me := FinishInsert(s), s.section.w;
    forall v: Wid ensures u.At(v) == if v == me then (if s.section.k <= 0 then Asleep else Running) else s.At(v) {}
    OneChanges(s, u, s.n, me, Settled(s) < 0);
    LessWithSlack(u, s.n, Settled(s) < 0);
  }

  lemma WorkerCounts(s: State, w: Wid, s': State)
    requires WorkerStep(s, w, s')
    ensures Work(s') < Work(s)
  {
    forall v: Wid ensures v != w ==> s'.At(v) == s.At(v) {}
    OneChanges(s, s', s.n, w, Settled(s) < 0);
  }

  lemma EveryStepCounts(s: State, s': State)
    requires Inv(s) && Undisturbed(s, s')
    ensures Work(s') < Work(s)
  {
    if EnterClient(s, s') {
      ClientCounts(s, s');
    } else if s.section.Waking? && s' == WakeRound(s) {
      WakeCounts(s);
    } else if s.section.Inserting? && s' == FinishInsert(s) {
      FinishCounts(s);
    } else {
      var w :| WorkerStep(s, w, s');
      WorkerCounts(s, w, s');
    }
  }

  // ---------------------------------------------------------------- where it ends

  ghost predicate AtRest(s: State) { forall u :: !Undisturbed(s, u) }

  function Below(n: nat): set<Wid> { if n == 0 then {} else Below(n - 1) + {n - 1} }

  lemma {:induction false} BelowIs(n: nat)
    ensures |Below(n)| == n && forall w: Wid :: w in Below(n) <==> w < n
  {
    if n > 0 { BelowIs(n - 1); }
  }

  function Listed(xs: seq<Wid>): set<Wid> { set v | v in xs }

  lemma {:induction false} ListedCounted(xs: seq<Wid>)
    ensures |Listed(xs)| <= |xs|
  {
    if xs != [] {
      ListedCounted(xs[1..]);
      assert xs == [xs[0]] + xs[1..];
      assert Listed(xs) == {xs[0]} + Listed(xs[1..]);
    }
  }

  // With fewer than n on the list, some worker is awake.
  lemma SomeAwake(asleep: seq<Wid>, n: nat)
    requires |asleep| < n
    ensures exists w: Wid :: w < n && w !in asleep
  {
    BelowIs(n);
    ListedCounted(asleep);
    SubsetSize(Below(n), Listed(asleep));
    var w :| w in Below(n) && w !in Listed(asleep);
  }

  lemma SubsetSize(a: set<Wid>, b: set<Wid>)
    ensures a <= b ==> |a| <= |b|
  {
    assert a <= b ==> b == a + (b - a);
  }

  // What is still possible when something is left to do.
  lemma RestIsFree(s: State)
    requires Inv(s) && Holders(s) && AtRest(s)
    ensures s.section.Free? && s.waiting == []
    ensures forall w: Wid :: w < s.n ==> s.At(w).Asleep? || (s.At(w).Running? && s.slack >= 0)
  {
    if s.section.Waking? { assert Undisturbed(s, WakeRound(s)); }
    if s.section.Inserting? { assert Undisturbed(s, FinishInsert(s)); }
    if s.waiting != [] {
      var u := s.(waiting := Dropped(s.waiting, 0), section := Waking(s.waiting[0], 0, Client));
      assert EnterClient(s, u);
      assert Undisturbed(s, u);
    }
    forall w: Wid | w < s.n ensures s.At(w).Asleep? || (s.At(w).Running? && s.slack >= 0) {
      if !s.At(w).Asleep? && (!s.At(w).Running? || s.slack < 0) {
        var u := CanMove(s, w);
        assert Undisturbed(s, u);
      }
    }
  }

  lemma CanMove(s: State, w: Wid) returns (u: State)
    requires Holders(s) && s.section.Free? && w < s.n && !s.At(w).Asleep? && (s.At(w).Running? ==> s.slack < 0)
    ensures WorkerStep(s, w, u) && u.requests == s.requests
  {
    match s.At(w)
    case Popped => u := s.Move(w, Notified);
    case Notified => u := s.Move(w, if s.asleep == [] then Running else Chaining);
    case Chaining => u := s.Move(w, Busy).(section := Waking(0, 0, Worker(w)));
    case Running => u := s.Move(w, Trying);
    case Trying => u := s.Move(w, Busy).(slack := s.slack + 1, section := Inserting(w, s.slack + 1));
  }

  function Min(a: int, b: int): int { if a < b then a else b }

  // At rest exactly as many workers are awake as are requested, or all there are.
  lemma RestMeetsRequests(s: State)
    requires Inv(s) && Holders(s) && AtRest(s) && s.requests >= 0
    ensures s.Awake() == Min(s.requests, s.n)
  {
    RestIsFree(s);
    forall w: Wid ensures !s.At(w).Pending() {
      assert w < s.n || s.At(w).Asleep?;
    }
    assert s.slack > 0 ==> s.asleep == [];
    if |s.asleep| < s.n {
      SomeAwake(s.asleep, s.n);
      assert s.slack >= 0;
    }
  }

  lemma RequestsSettle(run: seq<State>, k: nat)
    requires Run(run) && k < |run| && AtRest(run[k]) && run[k].requests >= 0
    ensures run[k].Awake() == Min(run[k].requests, run[k].n) && run[k].section.Free? && run[k].waiting == []
  {
    RunHolders(run, k);
    RestMeetsRequests(run[k]);
    RestIsFree(run[k]);
  }

  // No continuation without the client goes on for ever.
  lemma {:induction false} UndisturbedEnds(run: seq<State>, i: nat, j: nat)
    requires Run(run) && i <= j < |run| && forall k {:trigger run[k]} :: i < k <= j ==> run[k].requests == run[i].requests
    ensures Work(run[j]) + (j - i) <= Work(run[i])
    decreases j
  {
    if i < j {
      UndisturbedEnds(run, i, j - 1);
      RunHolders(run, j - 1);
      assert Follows(run, j) && run[j].requests == run[j - 1].requests;
      EveryStepCounts(run[j - 1], run[j]);
    }
  }

  lemma NextUndisturbed(run: seq<State>) returns (u: State)
    requires Run(run) && !AtRest(run[|run| - 1])
    ensures Run(run + [u]) && Work(u) < Work(run[|run| - 1])
    ensures u.requests == run[|run| - 1].requests && u.n == run[|run| - 1].n
  {
    var s := run[|run| - 1];
    RunHolders(run, |run| - 1);
    u :| Undisturbed(s, u);
    EveryStepCounts(s, u);
    SameWorkers(s, u);
    OneMore(run, u);
  }

  lemma SameWorkers(s: State, u: State)
    requires Step(s, u)
    ensures u.n == s.n
  {
  }

  lemma OneMore(run: seq<State>, u: State)
    requires Run(run) && Step(run[|run| - 1], u)
    ensures Run(run + [u])
  {
    var next := run + [u];
    forall k | 0 < k < |next| ensures Follows(next, k) {
      if k < |run| { assert Follows(run, k); }
    }
  }

  // From every reachable state with requests that are not negative, the server left alone comes to rest, with
  // exactly as many workers awake as are requested, or all.
  lemma {:induction false} LeftAloneItSettles(run: seq<State>) returns (more: seq<State>)
    requires Run(run) && run[|run| - 1].requests >= 0
    ensures Run(more) && run <= more && AtRest(more[|more| - 1])
    ensures forall k {:trigger more[k]} :: |run| <= k < |more| ==> more[k].requests == run[|run| - 1].requests
    ensures more[|more| - 1].Awake() == Min(run[|run| - 1].requests, run[|run| - 1].n)
    decreases Work(run[|run| - 1])
  {
    if AtRest(run[|run| - 1]) {
      more := run;
      RequestsSettle(run, |run| - 1);
    } else {
      var u := NextUndisturbed(run);
      more := LeftAloneItSettles(run + [u]);
    }
  }
}
