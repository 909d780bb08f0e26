/** The guarantees of the distributed STM over whole runs. */
module StmTheorems {
  import opened Timestamps
  import opened StmModel
  import opened StmMoves
  import opened StmLocks
  import opened StmVersions
  import opened StmValues
  import opened StmOrder
  import opened StmSerial
  import opened StmCausal

  ghost predicate AllInv(s: State) {
    SerialInv(s) && CausalInv(s)
  }

  lemma LogsInit(s: State)
    requires Init(s)
    ensures Logs(s)
  {
    forall m | Agrees(m, IDLE) ensures ReplaysFrom(m, IDLE) {}
    assert LogExplained(IDLE);
    forall t ensures LogExplained(s.At(t)) {
      assert s.At(t) == IDLE;
    }
  }

  lemma CausalInit(s: State)
    requires Init(s)
    ensures CausalInv(s)
  {
    assert forall t :: s.At(t) == IDLE;
  }

  lemma AllInvInit(s: State)
    requires Init(s)
    ensures AllInv(s)
  {
    LocksInvInit(s);
    LogsInit(s);
    CausalInit(s);
    assert forall t :: s.At(t) == IDLE;
  }

  lemma AllInvStep(s: State, t: Tx, act: Action, s': State)
    requires AllInv(s) && SingleWriterNode(s) && Next(s, t, act, s')
    ensures AllInv(s')
  {
    LocksInvStep(s, t, act, s');
    VersionsInvStep(s, t, act, s');
    ValuesInvStep(s, t, act, s');
    OrderInvStep(s, t, act, s');
    LogsStep(s, t, act, s');
    CausalInvStep(s, t, act, s');
  }

  lemma {:induction false} RunLocks(run: seq<State>, k: nat)
    requires Run(run) && k < |run|
    ensures LocksInv(run[k])
  {
    if k == 0 {
      LocksInvInit(run[0]);
    } else {
      RunLocks(run, k - 1);
      assert CanStep(run[k - 1], run[k]);
      var t, act :| Next(run[k - 1], t, act, run[k]);
      LocksInvStep(run[k - 1], t, act, run[k]);
    }
  }

  lemma {:induction false} RunInv(run: seq<State>, k: nat)
    requires Run(run) && k < |run| && SingleWriterNode(run[k])
    ensures AllInv(run[k])
  {
    if k == 0 {
      AllInvInit(run[0]);
    } else {
      assert CanStep(run[k - 1], run[k]);
      var t, act :| Next(run[k - 1], t, act, run[k]);
      RunLocks(run, k - 1);
      HypothesisEarlier(run[k - 1], t, act, run[k]);
      RunInv(run, k - 1);
      AllInvStep(run[k - 1], t, act, run[k]);
    }
  }

  // ---------- Locks ----------

  /** In every reachable state a word is locked exactly when it has a holder, the holder
      is unique, and transactions that are not committing hold nothing. */
  lemma LockSafety(run: seq<State>, k: nat, x: Obj)
    requires Run(run) && k < |run|
    ensures run[k].Lock(x).locked <==> exists t :: run[k].At(t).Holds(x)
    ensures forall t, u :: run[k].At(t).Holds(x) && run[k].At(u).Holds(x) ==> t == u
    ensures forall t :: run[k].At(t).Holds(x) ==> run[k].At(t).Committing() && x in run[k].At(t).ws
  {
    RunLocks(run, k);
  }

  /** A failed commit gives back only locks it was granted, and the
      word it restores is the one it read, which the locked word still carries. */
  lemma PutBackRestores(run: seq<State>, k: nat, t: Tx, x: Obj)
    requires Run(run) && k + 1 < |run| && Next(run[k], t, PutBack(x), run[k + 1])
    ensures run[k].At(t).Holds(x) && !run[k + 1].At(t).Holds(x)
    ensures run[k].Lock(x) == run[k].At(t).ws[x].word.Locked()
    ensures run[k + 1].Lock(x) == run[k].At(t).ws[x].word == run[k].Lock(x).Unlocked()
  {
    RunLocks(run, k);
    var T := run[k].At(t);
    assert T.phase.Releasing? && T.Holds(x) && Shape(T);
    assert !T.ws[x].word.locked;
  }

  /** What ServerCas does when it grants. */
  lemma GrantStep(s: State, t: Tx, x: Obj, s': State)
    requires Next(s, t, ServerCas(x), s') && s'.At(t).Holds(x)
    ensures x in s.At(t).ws && !s.Lock(x).RawGreater(s.At(t).ws[x].word) && s'.Lock(x) == s.At(t).ws[x].word.Locked()
    ensures s'.At(t).ws == s.At(t).ws && s'.mem == s.mem
  {
    var To(T', eff) := Step(s, t, ServerCas(x));
    AfterChanged(s, t, T', eff);
    assert s.At(t).phase.Locking?;
  }

  /** Under H a lock is granted only while its word is the one the transaction read, so
      putting that word back undoes the grant. */
  lemma GrantTakesCurrent(run: seq<State>, k: nat, t: Tx, x: Obj)
    requires Run(run) && k + 1 < |run| && SingleWriterNode(run[k])
    requires Next(run[k], t, ServerCas(x), run[k + 1]) && run[k + 1].At(t).Holds(x)
    ensures x in run[k].At(t).ws && run[k].Lock(x) == run[k].At(t).ws[x].word
    ensures run[k + 1].Lock(x) == run[k].Lock(x).Locked()
  {
    RunInv(run, k);
    GrantStep(run[k], t, x, run[k + 1]);
    GrantIsCurrent(run[k], t, x);
  }

  // ---------- Versions ----------

  lemma StepGrows(s: State, t: Tx, act: Action, s': State, x: Obj)
    requires AllInv(s) && SingleWriterNode(s) && Next(s, t, act, s')
    ensures s'.Lock(x).Unlocked() == s.Lock(x).Unlocked() || s.Lock(x).ver < s'.Lock(x).ver
  {
    var To(T', eff) := Step(s, t, act);
    AfterChanged(s, t, T', eff);
    StepMoves(s, t, act);
    if eff.SetLock? {
      LockWordGrows(s, t, eff);
    }
  }

  lemma {:induction false} HypothesisOnRun(run: seq<State>, i: nat, j: nat)
    requires Run(run) && i <= j < |run| && SingleWriterNode(run[j])
    ensures SingleWriterNode(run[i])
    decreases j - i
  {
    if i < j {
      assert CanStep(run[j - 1], run[j]);
      var t, act :| Next(run[j - 1], t, act, run[j]);
      RunLocks(run, j - 1);
      HypothesisEarlier(run[j - 1], t, act, run[j]);
      HypothesisOnRun(run, i, j - 1);
    }
  }

  /** Along a run the version of an object strictly increases whenever it changes. */
  lemma {:induction false} VersionsIncrease(run: seq<State>, i: nat, j: nat, x: Obj)
    requires Run(run) && i <= j < |run| && SingleWriterNode(run[j])
    ensures run[j].Lock(x).Unlocked() == run[i].Lock(x).Unlocked() || run[i].Lock(x).ver < run[j].Lock(x).ver
    decreases j - i
  {
    if i < j {
      assert CanStep(run[j - 1], run[j]);
      var t, act :| Next(run[j - 1], t, act, run[j]);
      HypothesisOnRun(run, j - 1, j);
      RunInv(run, j - 1);
      StepGrows(run[j - 1], t, act, run[j], x);
      VersionsIncrease(run, i, j - 1, x);
    }
  }

  /** A committed version exceeds every version its transaction read (H is not needed). */
  lemma CommitAboveReads(run: seq<State>, k: nat, t: Tx, x: Obj)
    requires Run(run) && k < |run| && run[k].At(t).Published() && run[k].At(t).Has(x)
    ensures run[k].At(t).Ent(x).word.ver < run[k].At(t).ver
  {
    RunLocks(run, k);
  }

  // ---------- Values ----------

  /** What readCell hands over, once its two reads of the lock word agree, is the block
      committed with that version. */
  lemma SnapshotReads(run: seq<State>, k: nat, t: Tx)
    requires Run(run) && k < |run| && SingleWriterNode(run[k]) && run[k].At(t).Admitting()
    ensures var s, x, e := run[k], run[k].At(t).phase.acc.x, run[k].At(t).phase.e;
            Version(s, x, e.origin, e.word) && e.base == ValueOf(s, x, e.origin)
  {
    RunInv(run, k);
  }

  /** Serializability of every run under H. */
  lemma EveryRunIsSerializable(run: seq<State>, k: nat)
    requires Run(run) && k < |run| && SingleWriterNode(run[k])
    ensures Serializable(run[k])
  {
    RunInv(run, k);
    SerializableState(run[k]);
  }

  /** The serial order lists the committed transactions, each once. */
  lemma {:induction false} SerialOrderIsComplete(s: State, n: nat)
    requires Stamps(s) && n <= |s.starts|
    ensures forall t :: t in SerialOrder(s, n) <==> s.At(t).Decided() && s.At(t).stamp < n
    ensures forall i, j :: 0 <= i < j < |SerialOrder(s, n)| ==> s.At(SerialOrder(s, n)[i]).stamp < s.At(SerialOrder(s, n)[j]).stamp
  {
    if n > 0 {
      SerialOrderIsComplete(s, n - 1);
      var before, t := SerialOrder(s, n - 1), s.starts[n - 1];
      forall i | 0 <= i < |before| ensures s.At(before[i]).stamp < n - 1 {
        assert before[i] in before;
      }
    }
  }

  lemma EverySerialOrderIsComplete(run: seq<State>, k: nat)
    requires Run(run) && k < |run| && SingleWriterNode(run[k])
    ensures forall t :: t in SerialOrder(run[k], |run[k].starts|) <==> run[k].At(t).Decided()
    ensures var o := SerialOrder(run[k], |run[k].starts|);
            forall i, j :: 0 <= i < j < |o| ==> run[k].At(o[i]).stamp < run[k].At(o[j]).stamp
  {
    RunInv(run, k);
    SerialOrderIsComplete(run[k], |run[k].starts|);
  }

  /** Causal consistency of every transaction of every run under H. */
  lemma EveryRunIsCausallyConsistent(run: seq<State>, k: nat)
    requires Run(run) && k < |run| && SingleWriterNode(run[k])
    ensures CausallyConsistent(run[k])
  {
    RunInv(run, k);
    CausallyConsistentState(run[k]);
  }
}
