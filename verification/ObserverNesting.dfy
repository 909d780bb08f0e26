// Who keeps the observer list right: programs whose passes never nest. And what happens otherwise: an observer
// switched on inside a callback makes two threads lose a proxy one of them has saved.
module ObserverNesting {
  import opened ObserverModel
  import opened ObserverLinks
  import opened ObserverList
  import opened ObserverPasses

  // ---------------------------------------------------------------- orderly programs

  // Only the outermost call may be a pass; it has taken over the saved position; after the exit pass there is none.
  predicate Tidy(l: Local) {
    && (forall i {:trigger l.stack[i]} :: 0 < i < |l.stack| ==> l.stack[i].kind.Release?)
    && (l.stack != [] && !l.stack[0].kind.Release? ==> !l.held)
    && (l.stack != [] && l.stack[0].kind.Entry? ==> !l.exited)
    && (l.stack != [] && l.stack[0].kind.Exit? ==> l.exited)
    && (l.exited ==> !l.held)
    && ((l.stack == [] || l.stack[0].kind.Release?) && !l.exited && l.saved.To? ==> l.held)
  }

  lemma TidyMove(l: Local, m: Local)
    requires Tidy(l) && Moves(l, m) && Orderly(l, m)
    ensures Tidy(m) && !Misuse(l, m)
  {
  }

  ghost predicate AllTidy(s: State) { forall t {:trigger s.At(t)} :: Tidy(s.At(t)) }

  lemma TidyStep(s: State, s': State)
    requires AllTidy(s) && OrderlyStep(s, s')
    ensures AllTidy(s') && ProperStep(s, s')
  {
    var t :| ThreadStep(s, t, s') && Orderly(s.At(t), s'.At(t));
    StepMoves(s, t, s');
    TidyMove(s.At(t), s'.At(t));
    forall u ensures Tidy(s'.At(u)) {
      assert u != t ==> s'.At(u) == s.At(u);
    }
  }

  lemma {:induction false} TidyRun(run: seq<State>, k: nat)
    requires OrderlyRun(run) && k < |run|
    ensures AllTidy(run[k]) && (k > 0 ==> FollowsProperly(run, k))
  {
    if k == 0 {
      assert forall t :: run[0].At(t) == IDLE;
    } else {
      TidyRun(run, k - 1);
      assert FollowsOrderly(run, k);
      TidyStep(run[k - 1], run[k]);
    }
  }

  // When no pass begins inside another or after the exit pass of its thread, every count is right throughout.
  lemma OrderlyRunsAreProper(run: seq<State>)
    requires OrderlyRun(run)
    ensures ProperRun(run)
  {
    forall k | 0 < k < |run| ensures FollowsProperly(run, k) {
      TidyRun(run, k);
    }
  }

  lemma OrderlyRunsAreSafe(run: seq<State>, k: nat)
    requires OrderlyRun(run) && k < |run|
    ensures Exact(run[k]) && Untouched(run[k])
  {
    OrderlyRunsAreProper(run);
    RunInv(run, k);
    InvExact(run[k]);
    InvUntouched(run[k]);
  }

  // ---------------------------------------------------------------- exactly which programs

  predicate HasEntry(stack: seq<Frame>) { exists i :: 0 <= i < |stack| && stack[i].kind.Entry? }

  // A callback of an entry pass starts a pass on its own thread.
  predicate Nests(l: Local, m: Local) {
    |m.stack| > |l.stack| && !m.stack[|m.stack| - 1].kind.Release? && HasEntry(l.stack)
  }

  predicate Careful(l: Local, m: Local) { !Nests(l, m) && !StartsAgain(l, m) && !Abandons(l, m) }

  ghost predicate CarefulStep(s: State, s': State) {
    exists t :: ThreadStep(s, t, s') && Careful(s.At(t), s'.At(t))
  }

  ghost predicate FollowsCarefully(run: seq<State>, k: nat)
    requires 0 < k < |run|
  {
    CarefulStep(run[k - 1], run[k])
  }

  ghost predicate CarefulRun(run: seq<State>) {
    |run| > 0 && Init(run[0]) && forall k :: 0 < k < |run| ==> FollowsCarefully(run, k)
  }

  // An entry pass under way is the only one on its thread, and has taken over the saved position.
  ghost predicate OneEntry(l: Local) {
    && (HasEntry(l.stack) ==> !l.held)
    && (forall i, j :: 0 <= i < j < |l.stack| ==> !l.stack[i].kind.Entry? || !l.stack[j].kind.Entry?)
  }

  lemma OneEntryMove(l: Local, m: Local)
    requires OneEntry(l) && Moves(l, m) && Careful(l, m)
    ensures OneEntry(m) && !Misuse(l, m)
  {
    var n := |l.stack|;
    forall i | 0 <= i < |m.stack| && i < n ensures m.stack[i].kind == l.stack[i].kind {}
    if HasEntry(m.stack) {
      var i :| 0 <= i < |m.stack| && m.stack[i].kind.Entry?;
      assert i < n ==> l.stack[i].kind.Entry?;
    }
  }

  ghost predicate AllOneEntry(s: State) { forall t {:trigger s.At(t)} :: OneEntry(s.At(t)) }

  lemma OneEntryStep(s: State, s': State)
    requires AllOneEntry(s) && CarefulStep(s, s')
    ensures AllOneEntry(s') && ProperStep(s, s')
  {
    var t :| ThreadStep(s, t, s') && Careful(s.At(t), s'.At(t));
    StepMoves(s, t, s');
    OneEntryMove(s.At(t), s'.At(t));
    forall u ensures OneEntry(s'.At(u)) {
      assert u != t ==> s'.At(u) == s.At(u);
    }
  }

  lemma {:induction false} CarefulRunsAreProper(run: seq<State>, k: nat)
    requires CarefulRun(run) && k < |run|
    ensures AllOneEntry(run[k]) && (k > 0 ==> FollowsProperly(run, k))
  {
    if k == 0 {
      assert forall t :: run[0].At(t) == IDLE;
    } else {
      CarefulRunsAreProper(run, k - 1);
      assert FollowsCarefully(run, k);
      OneEntryStep(run[k - 1], run[k]);
    }
  }

  // An entry pass inside which another one has begun.
  ghost predicate Entered(l: Local, i: nat) { i < |l.stack| && l.stack[i].kind.Entry? && l.stack[i].inner }

  lemma EnteredMove(l: Local, m: Local, i: nat)
    requires Moves(l, m) && !Misuse(l, m) && Entered(l, i) && (i == |l.stack| - 1 ==> l.held)
    ensures Entered(m, i)
  {
    if Returns(l, m) {
      assert i < |l.stack| - 1;
      assert m.stack[i] == l.stack[i];
    }
  }

  lemma EnteredIsHeld(s: State, t: Tid, i: nat)
    requires Locals(s) && Entered(s.At(t), i) && i == |s.At(t).stack| - 1
    ensures s.At(t).held
  {
    assert LocalOk(s, s.At(t));
  }

  lemma EnteredStays(s: State, s': State, t: Tid, i: nat)
    requires Inv(s) && ProperStep(s, s') && Entered(s.At(t), i)
    ensures Entered(s'.At(t), i)
  {
    if i == |s.At(t).stack| - 1 { EnteredIsHeld(s, t, i); }
    ProperMove(s, s', t);
    EnteredMove(s.At(t), s'.At(t), i);
  }

  lemma {:induction false} EnteredForever(run: seq<State>, k: nat, n: nat, t: Tid, i: nat)
    requires ProperRun(run) && k <= n < |run| && Entered(run[k].At(t), i)
    ensures Entered(run[n].At(t), i)
    decreases n - k
  {
    if k < n {
      EnteredForever(run, k, n - 1, t, i);
      RunInv(run, n - 1);
      assert FollowsProperly(run, n);
      EnteredStays(run[n - 1], run[n], t, i);
    }
  }

  // A pass that begins inside an entry pass enters it, or one inside it.
  lemma NestsEnters(s: State, s': State, t: Tid)
    requires Inv(s) && ThreadStep(s, t, s') && Nests(s.At(t), s'.At(t))
    ensures exists i :: Entered(s'.At(t), i)
  {
    var l, m := s.At(t), s'.At(t);
    assert LocalOk(s, l);
    StepMoves(s, t, s');
    var i :| 0 <= i < |l.stack| && l.stack[i].kind.Entry?;
    assert m == l.Begin(Entry);
    if i == |l.stack| - 1 {
      assert Entered(m, i);
    } else {
      FirstInside(s, l, i);
      assert m.stack[i] == l.stack[i];
      assert Entered(m, i);
    }
  }

  lemma FirstInside(s: State, l: Local, i: nat)
    requires LocalOk(s, l) && l.UserCode() && i < |l.stack| - 1 && l.stack[i].kind.Entry?
    ensures l.stack[i].inner
  {
    var f := l.stack[i + 1];
    assert FrameOk(s, f) && f.pc.Calling?;
  }

  ghost predicate Quiet(s: State) { forall t {:trigger s.At(t)} :: s.At(t).stack == [] }

  // In a run at whose end every call has returned, the counts were right and no deleted proxy was touched all
  // along, exactly when no callback of an entry pass has started a pass on its own thread, no pass has started
  // from a position used before, as the exit pass leaves it, and no scheduler was freed with its position.
  lemma ExactExactlyWhenCareful(run: seq<State>)
    requires Run(run) && Quiet(run[|run| - 1])
    ensures CarefulRun(run) <==> forall k :: 0 <= k < |run| ==> Exact(run[k]) && Untouched(run[k])
  {
    if CarefulRun(run) {
      forall k | 0 < k < |run| ensures FollowsProperly(run, k) {
        CarefulRunsAreProper(run, k);
      }
    }
    if ProperRun(run) {
      forall k | 0 < k < |run| ensures FollowsCarefully(run, k) {
        ProperIsCareful(run, k);
      }
    }
    ExactExactlyWhenProper(run);
  }

  lemma StepIsCareful(s: State, s': State)
    requires Inv(s) && ProperStep(s, s') && forall t, i: nat :: !Entered(s'.At(t), i)
    ensures CarefulStep(s, s')
  {
    var t :| ThreadStep(s, t, s') && !Misuse(s.At(t), s'.At(t));
    if Nests(s.At(t), s'.At(t)) {
      NestsEnters(s, s', t);
    }
  }

  lemma ProperIsCareful(run: seq<State>, k: nat)
    requires ProperRun(run) && Quiet(run[|run| - 1]) && 0 < k < |run|
    ensures FollowsCarefully(run, k)
  {
    assert FollowsProperly(run, k);
    RunInv(run, k - 1);
    forall t, i: nat ensures !Entered(run[k].At(t), i) {
      if Entered(run[k].At(t), i) {
        EnteredForever(run, k, |run| - 1, t, i);
      }
    }
    StepIsCareful(run[k - 1], run[k]);
  }
}
