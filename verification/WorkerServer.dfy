// The server that lends worker threads to a client: a signed count of slack, a list of sleeping workers behind
// a lock, and a chain reaction in which every worker that wakes up wakes two more.
module WorkerServer {

  type Wid = nat

  // Asleep: on the list, with or without a thread. Popped: taken off the list and not told yet. Notified: awake,
  // its chain reaction still to run. Chaining: waiting for the lock to run it. Trying: waiting for the lock to
  // go to sleep. Busy: inside a locked section.
  datatype Phase = Asleep | Popped | Notified | Chaining | Running | Trying | Busy
  {
    predicate Pending() { Popped? || Notified? || Chaining? }
  }

  datatype Caller = Client | Worker(w: Wid)

  // What the holder of the list lock is doing: wake_some with the slack it still has to spend and the number of
  // workers it has popped, or try_insert_in_asleep_list after raising the slack to k.
  datatype Section = Free | Waking(extra: nat, popped: nat, who: Caller) | Inserting(w: Wid, k: int)

  // waiting: calls of wake_some by the client that have not got the lock; requests: the sum of all adjustments.
  datatype State = State(
    n: nat,
    slack: int,
    asleep: seq<Wid>,
    phases: map<Wid, Phase>,
    section: Section,
    waiting: seq<nat>,
    requests: int)
  {
    function At(w: Wid): Phase { if w in phases then phases[w] else Asleep }
    function Move(w: Wid, p: Phase): State { this.(phases := phases[w := p]) }
    // The workers that are not on the list.
    function Awake(): int { n - |asleep| }
  }

  function Sum(xs: seq<nat>): nat { if xs == [] then 0 else xs[0] + Sum(xs[1..]) }

  function Dropped(xs: seq<nat>, i: nat): seq<nat>
    requires i < |xs|
  {
    xs[..i] + xs[i + 1..]
  }

  ghost predicate Init(s: State) {
    && s.slack == 0 && s.requests == 0 && s.phases == map[] && s.section == Free && s.waiting == []
    && |s.asleep| == s.n
    && (forall w: Wid :: w in s.asleep <==> w < s.n)
    && (forall i, j :: 0 <= i < j < |s.asleep| ==> s.asleep[i] != s.asleep[j])
  }

  // ---------------------------------------------------------------- steps

  function Lower(s: State, d: nat): State { s.(slack := s.slack - d, requests := s.requests - d) }

  function Raise(s: State, d: nat): State { s.(waiting := s.waiting + [d], requests := s.requests + d) }

  // adjust_job_count_estimate.
  ghost predicate Adjust(s: State, s': State) {
    exists d: nat :: d > 0 && (s' == Lower(s, d) || s' == Raise(s, d))
  }

  // A waiting call of the client gets the lock.
  ghost predicate EnterClient(s: State, s': State) {
    && s.section.Free?
    && exists i {:trigger s.waiting[i]} :: 0 <= i < |s.waiting|
         && s' == s.(waiting := Dropped(s.waiting, i), section := Waking(s.waiting[i], 0, Client))
  }

  // The holder leaves wake_some.
  function Leave(s: State): State
    requires s.section.Waking?
  {
    match s.section.who
    case Client => s.(section := Free)
    case Worker(w) => s.Move(w, Running).(section := Free)
  }

  function PopOne(s: State): State
    requires s.asleep != []
  {
    s.Move(s.asleep[0], Popped).(asleep := s.asleep[1..])
  }

  // One round of the loop in wake_some, or its end.
  function WakeRound(s: State): State
    requires s.section.Waking?
  {
    var extra, popped, who := s.section.extra, s.section.popped, s.section.who;
    if s.asleep != [] && popped < 2 then
      if extra > 0 then PopOne(s).(section := Waking(extra - 1, popped + 1, who))
      else if s.slack <= 0 then Leave(s)
      else PopOne(s).(slack := s.slack - 1, section := Waking(0, popped + 1, who))
    else
      Leave(s).(slack := s.slack + extra)
  }

  function FinishInsert(s: State): State
    requires s.section.Inserting?
  {
    var Inserting(w, k) := s.section;
    if k <= 0 then s.Move(w, Asleep).(asleep := [w] + s.asleep, section := Free)
    else s.Move(w, Running).(slack := s.slack - 1, section := Free)
  }

  // A step of one worker: being told, starting its chain reaction, and going to sleep when slack is negative.
  ghost predicate WorkerStep(s: State, w: Wid, s': State) {
    && w < s.n
    && match s.At(w)
       case Popped => s' == s.Move(w, Notified)
       case Notified => s' == s.Move(w, if s.asleep == [] then Running else Chaining)
       case Chaining => s.section.Free? && s' == s.Move(w, Busy).(section := Waking(0, 0, Worker(w)))
       case Running => s.slack < 0 && s' == s.Move(w, Trying)
       case Trying =>
         s.section.Free? && s' == s.Move(w, Busy).(slack := s.slack + 1, section := Inserting(w, s.slack + 1))
       case _ => false
  }

  ghost predicate Step(s: State, s': State) {
    || Adjust(s, s') || EnterClient(s, s')
    || (s.section.Waking? && s' == WakeRound(s))
    || (s.section.Inserting? && s' == FinishInsert(s))
    || (exists w :: WorkerStep(s, w, s'))
  }

  ghost predicate Follows(run: seq<State>, k: nat)
    requires 0 < k < |run|
  {
    Step(run[k - 1], run[k])
  }

  ghost predicate Run(run: seq<State>) {
    && |run| > 0 && Init(run[0])
    && forall k :: 0 < k < |run| ==> Follows(run, k)
  }

  // ---------------------------------------------------------------- the invariant

  ghost predicate ListOk(s: State) {
    && (forall i, j :: 0 <= i < j < |s.asleep| ==> s.asleep[i] != s.asleep[j])
    && (forall w: Wid :: w in s.asleep <==> w < s.n && s.At(w).Asleep?)
    && (s.section.Inserting? ==> s.section.w < s.n && s.At(s.section.w).Busy?)
    && (s.section.Waking? && s.section.who.Worker? ==> s.section.who.w < s.n && s.At(s.section.who.w).Busy?)
  }

  // Slack the holder of the lock has not handed in yet.
  function InHand(c: Section): int {
    match c
    case Free => 0
    case Waking(extra, _, _) => extra
    case Inserting(_, _) => -1
  }

  ghost predicate Balanced(s: State) {
    s.slack + s.Awake() + Sum(s.waiting) + InHand(s.section) == s.requests
  }

  ghost predicate SomePending(s: State) { exists w :: s.At(w).Pending() }

  // No wake-up is lost.
  ghost predicate Covered(s: State) {
    match s.section
    case Free => s.slack > 0 && s.asleep != [] ==> SomePending(s)
    case Waking(_, popped, _) => popped >= 2 && s.asleep != [] ==> SomePending(s)
    case Inserting(_, k) => s.slack <= k && (s.slack > 1 && s.asleep != [] ==> SomePending(s))
  }

  ghost predicate Inv(s: State) { ListOk(s) && Balanced(s) && Covered(s) }

  lemma {:induction false} SumDropped(xs: seq<nat>, i: nat)
    requires i < |xs|
    ensures Sum(xs) == Sum(Dropped(xs, i)) + xs[i]
  {
    if i == 0 {
      assert Dropped(xs, 0) == xs[1..];
    } else {
      SumDropped(xs[1..], i - 1);
      assert Dropped(xs, i)[0] == xs[0] && Dropped(xs, i)[1..] == Dropped(xs[1..], i - 1);
    }
  }

  lemma {:induction false} SumAppend(xs: seq<nat>, d: nat)
    ensures Sum(xs + [d]) == Sum(xs) + d
  {
    if xs == [] {
      assert [] + [d] == [d];
    } else {
      SumAppend(xs[1..], d);
      assert (xs + [d])[1..] == xs[1..] + [d];
    }
  }

  lemma StillPending(s: State, s': State)
    requires SomePending(s) && forall w :: s.At(w).Pending() ==> s'.At(w).Pending()
    ensures SomePending(s')
  {
    var w :| s.At(w).Pending();
    assert s'.At(w).Pending();
  }

  lemma AdjustKeeps(s: State, s': State)
    requires Inv(s) && Adjust(s, s')
    ensures Inv(s')
  {
    assert forall w :: s'.At(w) == s.At(w);
    var d: nat :| d > 0 && (s' == Lower(s, d) || s' == Raise(s, d));
    SumAppend(s.waiting, d);
    if SomePending(s) { StillPending(s, s'); }
  }

  lemma EnterClientKeeps(s: State, s': State)
    requires Inv(s) && EnterClient(s, s')
    ensures Inv(s')
  {
    var i :| 0 <= i < |s.waiting| && s' == s.(waiting := Dropped(s.waiting, i), section := Waking(s.waiting[i], 0, Client));
    SumDropped(s.waiting, i);
    assert forall w :: s'.At(w) == s.At(w);
  }

  lemma PopKeepsList(s: State)
    requires ListOk(s) && s.asleep != [] && s.section.Waking?
    ensures ListOk(PopOne(s)) && PopOne(s).Awake() == s.Awake() + 1
    ensures SomePending(PopOne(s))
  {
    var u := PopOne(s);
    assert u.At(s.asleep[0]).Pending();
    assert s.asleep == [s.asleep[0]] + u.asleep;
    assert s.asleep[0] in s.asleep;
    forall w | w in u.asleep ensures w != s.asleep[0] {
      var i :| 0 <= i < |u.asleep| && u.asleep[i] == w;
      assert s.asleep[i + 1] == w;
    }
    forall w | w != s.asleep[0] ensures u.At(w) == s.At(w) && (w in u.asleep <==> w in s.asleep) {}
  }

  lemma LeaveKeepsList(s: State)
    requires ListOk(s) && s.section.Waking?
    ensures ListOk(Leave(s)) && (SomePending(s) ==> SomePending(Leave(s)))
  {
    forall w ensures Leave(s).At(w) == if s.section.who == Worker(w) then Running else s.At(w) {}
    if SomePending(s) { StillPending(s, Leave(s)); }
  }

  lemma WakeRoundKeeps(s: State)
    requires Inv(s) && s.section.Waking?
    ensures Inv(WakeRound(s))
  {
    var u := WakeRound(s);
    if s.asleep != [] && s.section.popped < 2 && (s.section.extra > 0 || s.slack > 0) {
      PopKeepsList(s);
      assert forall w :: u.At(w) == PopOne(s).At(w);
      StillPending(PopOne(s), u);
    } else {
      LeaveKeepsList(s);
      assert forall w :: u.At(w) == Leave(s).At(w);
      if SomePending(s) { StillPending(Leave(s), u); }
    }
  }

  lemma FinishInsertKeeps(s: State)
    requires Inv(s) && s.section.Inserting?
    ensures Inv(FinishInsert(s))
  {
    var u := FinishInsert(s);
    var me := s.section.w;
    forall w ensures u.At(w) == if w == me then (if s.section.k <= 0 then Asleep else Running) else s.At(w) {}
    if SomePending(s) { StillPending(s, u); }
    assert me !in s.asleep;
  }

  lemma WorkerStepKeeps(s: State, w: Wid, s': State)
    requires Inv(s) && WorkerStep(s, w, s')
    ensures Inv(s')
  {
    forall v ensures v != w ==> s'.At(v) == s.At(v) {}
    if s.At(w).Pending() && s'.At(w).Pending() {
      assert SomePending(s');
    } else if SomePending(s) && !s.At(w).Pending() {
      StillPending(s, s');
    }
  }

  lemma InvStep(s: State, s': State)
    requires Inv(s) && Step(s, s')
    ensures Inv(s')
  {
    if Adjust(s, s') {
      AdjustKeeps(s, s');
    } else if EnterClient(s, s') {
      EnterClientKeeps(s, s');
    } else if s.section.Waking? && s' == WakeRound(s) {
      WakeRoundKeeps(s);
    } else if s.section.Inserting? && s' == FinishInsert(s) {
      FinishInsertKeeps(s);
    } else {
      var w :| WorkerStep(s, w, s');
      WorkerStepKeeps(s, w, s');
    }
  }

  lemma InitInv(s: State)
    requires Init(s)
    ensures Inv(s)
  {
    assert forall w :: s.At(w) == Asleep;
  }

  lemma {:induction false} RunInv(run: seq<State>, k: nat)
    requires Run(run) && k < |run|
    ensures Inv(run[k])
  {
    if k == 0 {
      InitInv(run[0]);
    } else {
      RunInv(run, k - 1);
      assert Follows(run, k);
      InvStep(run[k - 1], run[k]);
    }
  }

  // ---------------------------------------------------------------- what the client may rely on

  // Slack and the workers that are not asleep add up to the net requests, up to what is still in flight.
  lemma SlackBalances(run: seq<State>, k: nat)
    requires Run(run) && k < |run|
    ensures run[k].slack + run[k].Awake() + Sum(run[k].waiting) + InHand(run[k].section) == run[k].requests
    ensures run[k].section.Free? && run[k].waiting == [] ==> run[k].slack + run[k].Awake() == run[k].requests
  {
    RunInv(run, k);
  }

  // While there is slack and somebody sleeps, some worker that has been woken still has its chain reaction to run.
  lemma NoLostWakeUp(run: seq<State>, k: nat)
    requires Run(run) && k < |run|
    requires run[k].section.Free? && run[k].slack > 0 && run[k].asleep != []
    ensures exists w :: run[k].At(w).Pending()
  {
    RunInv(run, k);
  }

  // So when everything has come to rest, as many workers are awake as requested, or all there are.
  lemma RequestsAreMet(run: seq<State>, k: nat)
    requires Run(run) && k < |run|
    requires run[k].section.Free? && run[k].waiting == [] && forall w :: !run[k].At(w).Pending()
    ensures run[k].Awake() >= run[k].requests || run[k].Awake() == run[k].n
  {
    RunInv(run, k);
  }
}
