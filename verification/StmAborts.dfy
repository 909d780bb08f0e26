/** What an unsuccessful commit leaves behind: every word it took is as it was, block and all. */
module StmAborts {
  import opened Timestamps
  import opened StmModel
  import opened StmMoves
  import opened StmLocks
  import opened StmTheorems

  /** From a grant on, as long as t holds x. */
  ghost predicate HeldFrom(run: seq<State>, i: nat, j: nat, t: Tx, x: Obj)
    requires j < |run|
  {
    forall k {:trigger run[k]} :: i < k <= j ==> run[k].At(t).Holds(x)
  }

  /** Only the holder writes to a block, once decided. */
  lemma WriterHolds(s: State, t: Tx, u: Tx, U': TxState, eff: Effect, s': State, x: Obj)
    requires Exclusive(s) && LockMove(s, u, s.At(u), U', eff) && StatusMove(s, u, s.At(u), U', eff) && Changed(s, u, U', eff, s')
    requires s.At(t).Holds(x) && eff.SetCell? && eff.x == x
    ensures s'.At(t).Decided()
  {
    assert s.At(u).Holds(x);
  }

  /** A step during which t goes on holding x, and does not write to memory, changes neither the block nor
      the version t read of it. */
  lemma HeldMove(s: State, t: Tx, u: Tx, U': TxState, eff: Effect, s': State, x: Obj)
    requires StatusMove(s, u, s.At(u), U', eff) && Changed(s, u, U', eff, s')
    requires s'.At(t).Holds(x) && (eff.SetCell? ==> eff.x != x)
    ensures s'.At(t).ws == s.At(t).ws && BlockAt(s'.mem, x) == BlockAt(s.mem, x)
    ensures s.At(t).Decided() ==> s'.At(t).Decided()
  {
  }

  lemma HeldStep(s: State, t: Tx, u: Tx, act: Action, s': State, x: Obj)
    requires LocksInv(s) && Next(s, u, act, s') && s.At(t).Holds(x) && s'.At(t).Holds(x) && !s'.At(t).Decided()
    ensures s'.At(t).ws == s.At(t).ws && BlockAt(s'.mem, x) == BlockAt(s.mem, x) && !s.At(t).Decided()
  {
    var To(U', eff) := Step(s, u, act);
    AfterChanged(s, u, U', eff);
    StepMoves(s, u, act);
    if !eff.SetCell? || eff.x != x {
      HeldMove(s, t, u, U', eff, s', x);
    } else {
      WriterHolds(s, t, u, U', eff, s', x);
    }
  }

  lemma {:induction false} HeldRun(run: seq<State>, i: nat, j: nat, t: Tx, x: Obj)
    requires Run(run) && i < j < |run| && HeldFrom(run, i, j, t, x) && !run[j].At(t).Decided()
    ensures x in run[i + 1].At(t).ws && x in run[j].At(t).ws
    ensures run[j].At(t).ws[x].word == run[i + 1].At(t).ws[x].word && BlockAt(run[j].mem, x) == BlockAt(run[i + 1].mem, x)
    decreases j
  {
    RunLocks(run, j);
    assert run[j].At(t).Holds(x);
    if i + 1 < j {
      RunLocks(run, j - 1);
      assert run[j - 1].At(t).Holds(x);
      assert CanStep(run[j - 1], run[j]);
      var u, act :| Next(run[j - 1], u, act, run[j]);
      HeldStep(run[j - 1], t, u, act, run[j], x);
      HeldRun(run, i, j - 1, t, x);
    }
  }

  lemma PublishedStep(s: State, t: Tx, u: Tx, act: Action, s': State)
    requires LocksInv(s) && Next(s, u, act, s') && s.At(t).Published()
    ensures s'.At(t).Published()
  {
    AfterChanged(s, u, Step(s, u, act).T, Step(s, u, act).eff);
    StepMoves(s, u, act);
  }

  lemma {:induction false} StaysPublished(run: seq<State>, k: nat, e: nat, t: Tx)
    requires Run(run) && k <= e < |run| && run[k].At(t).Published()
    ensures run[e].At(t).Published()
    decreases e
  {
    if k < e {
      StaysPublished(run, k, e - 1, t);
      RunLocks(run, e - 1);
      assert CanStep(run[e - 1], run[e]);
      var u, act :| Next(run[e - 1], u, act, run[e]);
      PublishedStep(run[e - 1], t, u, act, run[e]);
    }
  }

  lemma {:induction false} FirstRelease(run: seq<State>, i: nat, k: nat, e: nat, t: Tx, x: Obj) returns (j: nat)
    requires i < k < e < |run| && HeldFrom(run, i, k, t, x) && !run[e].At(t).Holds(x)
    ensures k <= j < e && HeldFrom(run, i, j, t, x) && !run[j + 1].At(t).Holds(x)
    decreases e - k
  {
    if run[k + 1].At(t).Holds(x) {
      j := FirstRelease(run, i, k + 1, e, t, x);
    } else {
      j := k;
    }
  }

  /** A lock is let go by putting back the word, or with the new version. */
  lemma LetGo(s: State, t: Tx, u: Tx, act: Action, s': State, x: Obj)
    requires LocksInv(s) && Next(s, u, act, s') && s.At(t).Holds(x) && !s'.At(t).Holds(x)
    ensures u == t && (s'.At(t).Published() || (act == PutBack(x) && s.At(t).phase.Releasing?))
    ensures s'.mem == s.mem
  {
    var To(U', eff) := Step(s, u, act);
    AfterChanged(s, u, U', eff);
    StepMoves(s, u, act);
    assert eff.SetLock? && eff.x == x && !eff.w.locked;
  }

  lemma PutBackAt(run: seq<State>, j: nat, e: nat, t: Tx, x: Obj)
    requires Run(run) && j < e < |run| && run[j].At(t).Holds(x) && !run[j + 1].At(t).Holds(x) && !run[e].At(t).Published()
    ensures Next(run[j], t, PutBack(x), run[j + 1]) && !run[j].At(t).Decided() && run[j + 1].mem == run[j].mem
  {
    RunLocks(run, j);
    assert CanStep(run[j], run[j + 1]);
    var u, act :| Next(run[j], u, act, run[j + 1]);
    LetGo(run[j], t, u, act, run[j + 1], x);
    if run[j + 1].At(t).Published() {
      StaysPublished(run, j + 1, e, t);
    }
  }

  lemma PutBackMatches(run: seq<State>, i: nat, j: nat, t: Tx, x: Obj)
    requires Run(run) && i < j && j + 1 < |run| && SingleWriterNode(run[i])
    requires Next(run[i], t, ServerCas(x), run[i + 1]) && HeldFrom(run, i, j, t, x)
    requires Next(run[j], t, PutBack(x), run[j + 1]) && !run[j].At(t).Decided()
    ensures run[j + 1].Lock(x) == run[i].Lock(x) && BlockAt(run[j].mem, x) == BlockAt(run[i].mem, x)
  {
    assert run[i + 1].At(t).Holds(x);
    GrantStep(run[i], t, x, run[i + 1]);
    GrantTakesCurrent(run, i, t, x);
    HeldRun(run, i, j, t, x);
    PutBackRestores(run, j, t, x);
  }

  /** Under H, a transaction that was granted a lock and later, not having published a version, no longer
      holds it has put the word back, and that step leaves the word and the block as they were before the grant. */
  lemma FailedCommitRestores(run: seq<State>, i: nat, e: nat, t: Tx, x: Obj) returns (j: nat)
    requires Run(run) && i + 1 < e < |run| && SingleWriterNode(run[i])
    requires Next(run[i], t, ServerCas(x), run[i + 1]) && run[i + 1].At(t).Holds(x)
    requires !run[e].At(t).Holds(x) && !run[e].At(t).Published()
    ensures i < j < e && HeldFrom(run, i, j, t, x) && Next(run[j], t, PutBack(x), run[j + 1])
    ensures run[j + 1].Lock(x) == run[i].Lock(x) && BlockAt(run[j + 1].mem, x) == BlockAt(run[i].mem, x)
  {
    j := FirstRelease(run, i, i + 1, e, t, x);
    assert run[j].At(t).Holds(x);
    PutBackAt(run, j, e, t, x);
    PutBackMatches(run, i, j, t, x);
  }

  /** When a failed commit gives up, nothing it took is left: it holds no lock, and whatever is locked is
      another transaction's. */
  lemma FailedCommitHoldsNothing(run: seq<State>, e: nat, t: Tx, x: Obj)
    requires Run(run) && e + 1 < |run| && Next(run[e], t, EndRelease, run[e + 1])
    ensures !run[e + 1].At(t).Holds(x)
    ensures run[e + 1].Lock(x).locked ==> exists u {:trigger run[e + 1].At(u)} :: u != t && run[e + 1].At(u).Holds(x)
  {
    AfterChanged(run[e], t, Step(run[e], t, EndRelease).T, Step(run[e], t, EndRelease).eff);
    LockSafety(run, e + 1, x);
  }
}
