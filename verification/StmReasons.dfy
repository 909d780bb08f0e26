/** Why transactions give up: never without a conflict.  A read gives up on a locked block, a look-up on an entry that
    is locked or has a newer version, and a commit when a lock was refused or a block read has changed. */
module StmReasons {
  import opened Timestamps
  import opened StmModel
  import opened StmMoves
  import opened StmLocks
  import opened StmTheorems
  import opened StmPrograms

  /** The block is locked, or has a newer version than the one read. */
  predicate Stale(s: State, x: Obj, w: Word) { s.Lock(x).locked || s.Lock(x).ver > w.ver }

  /** A request was turned down: the word the server read is greater, or has changed since. */
  predicate TurnedDown(s: State, T: TxState, x: Obj) {
    && T.phase.Locking? && x in T.phase.requests && T.phase.requests[x].Seen? && x in T.ws
    && (T.phase.requests[x].w.RawGreater(T.ws[x].word) || s.Lock(x) != T.phase.requests[x].w)
  }

  /** A step of a commit after which it cannot succeed. */
  predicate Fails(s: State, T: TxState, act: Action) {
    match act
    case ServerCas(x) => TurnedDown(s, T, x)
    case Validate(x) => T.phase.Validating? && x in T.rs && Stale(s, x, T.rs[x].word)
    case _ => false
  }

  /** A commit that has failed already. */
  predicate Failed(p: Phase) { p.Releasing? || (p.Locking? && exists x :: x in p.requests && p.requests[x].Refused?) }

  /** A step that is no failure, or the step in which the commit fails. */
  ghost predicate FailsOnly(s: State, T: TxState, act: Action, out: Outcome) {
    out.To? && Failed(out.T.phase) ==> T.Committing() && (Failed(T.phase) || Fails(s, T, act))
  }

  lemma GetLocksFails(s: State, T: TxState, act: Action)
    requires T.phase.Locking?
    ensures FailsOnly(s, T, act, GetLocksStep(s, T, act))
  {
  }

  lemma ServerFails(s: State, T: TxState, act: Action)
    requires T.phase.Locking?
    ensures FailsOnly(s, T, act, ServerStep(s, T, act))
  {
  }

  lemma ValidateAllFails(s: State, T: TxState, act: Action)
    requires T.phase.Validating?
    ensures FailsOnly(s, T, act, ValidateAllStep(s, T, act))
  {
  }

  lemma ReadCellFails(s: State, T: TxState, act: Action)
    requires T.phase.Fetching? || T.phase.Copying?
    ensures FailsOnly(s, T, act, ReadCellStep(s, T, act))
  {
  }

  lemma ValidateFails(s: State, T: TxState, act: Action)
    requires T.phase.Checking?
    ensures FailsOnly(s, T, act, ValidateStep(s, T, act))
  {
  }

  lemma DecidedFails(s: State, t: Tx, act: Action)
    requires Shape(s.At(t)) && s.At(t).Decided()
    ensures FailsOnly(s, s.At(t), act, Step(s, t, act))
  {
    if Step(s, t, act).To? { StepMoves(s, t, act); }
  }

  lemma CommitFails(s: State, t: Tx, act: Action)
    requires Shape(s.At(t)) && s.At(t).Committing()
    ensures FailsOnly(s, s.At(t), act, Step(s, t, act))
  {
    var T := s.At(t);
    match T.phase
    case Locking(_) => GetLocksFails(s, T, act); ServerFails(s, T, act);
    case Releasing(_) =>
    case Validating(_) => ValidateAllFails(s, T, act);
    case _ => DecidedFails(s, t, act);
  }

  lemma AccessFails(s: State, t: Tx, act: Action)
    requires !s.At(t).Committing()
    ensures FailsOnly(s, s.At(t), act, Step(s, t, act))
  {
    var T := s.At(t);
    match T.phase
    case Fetching(_) => ReadCellFails(s, T, act);
    case Copying(_, _, _) => ReadCellFails(s, T, act);
    case Checking(_, _, _) => ValidateFails(s, T, act);
    case _ =>
  }

  /** Either the commit had failed before, or this step is its own and fails it. */
  ghost predicate FailsNow(s: State, u: Tx, act: Action, s': State, t: Tx) {
    && s'.At(t).Committing() && s.At(t).Committing()
    && (Failed(s.At(t).phase) || (u == t && Fails(s, s.At(t), act)))
  }

  /** The step in which a commit fails. */
  lemma FailsByStep(s: State, u: Tx, act: Action, s': State, t: Tx)
    requires LocksInv(s) && Next(s, u, act, s') && Failed(s'.At(t).phase)
    ensures FailsNow(s, u, act, s', t)
  {
    assert Shape(s.At(t));
    if u != t {
      OthersStay(s, u, act, s', t);
    } else {
      AfterIs(s, t, act, s');
      if s.At(t).Committing() { CommitFails(s, t, act); } else { AccessFails(s, t, act); }
    }
  }

  // ---------- Over whole runs ----------

  /** In step j of its commit under way, which goes on up to state k, the commit has failed. */
  ghost predicate HasFailed(run: seq<State>, acts: seq<(Tx, Action)>, t: Tx, j: nat, k: nat) {
    && j < k < |run| && |run| == |acts| + 1 && acts[j].0 == t && Fails(run[j], run[j].At(t), acts[j].1)
    && forall m {:trigger run[m]} :: j <= m <= k ==> run[m].At(t).Committing()
  }

  lemma HasFailedLater(run: seq<State>, acts: seq<(Tx, Action)>, t: Tx, j: nat, k: nat)
    requires HasFailed(run, acts, t, j, k) && k + 1 < |run| && run[k + 1].At(t).Committing()
    ensures HasFailed(run, acts, t, j, k + 1)
  {
  }

  lemma {:induction false} FailedHasReason(run: seq<State>, acts: seq<(Tx, Action)>, t: Tx, k: nat) returns (j: nat)
    requires ActionRun(run, acts) && k <= |acts| && Failed(run[k].At(t).phase)
    ensures HasFailed(run, acts, t, j, k)
  {
    assert k > 0;
    assert Acts(run, acts, k - 1);
    ActionRunIsRun(run, acts);
    RunLocks(run, k - 1);
    FailsByStep(run[k - 1], acts[k - 1].0, acts[k - 1].1, run[k], t);
    if Failed(run[k - 1].At(t).phase) {
      j := FailedHasReason(run, acts, t, k - 1);
      HasFailedLater(run, acts, t, j, k - 1);
    } else {
      j := k - 1;
    }
  }

  lemma AfterIs(s: State, t: Tx, act: Action, s': State)
    requires Next(s, t, act, s')
    ensures Step(s, t, act).To? && s'.At(t) == Step(s, t, act).T
  {
    AfterChanged(s, t, Step(s, t, act).T, Step(s, t, act).eff);
  }

  /** A transaction that gives up, other than at its program's wish, has met a conflict: the block it reads is locked;
      an entry it looks up is locked or has a newer version; or its commit has failed, at a lock or at an entry. */
  ghost predicate Conflict(run: seq<State>, acts: seq<(Tx, Action)>, t: Tx, k: nat)
    requires k < |acts| < |run|
  {
    var s, T := run[k], run[k].At(t);
    match acts[k].1
    case ReadFirst => T.phase.Fetching? && s.Lock(T.phase.acc.x).locked
    case ReadSecond => T.phase.Copying? && s.Lock(T.phase.acc.x).locked
    case Check(x) => T.Has(x) && Stale(s, x, T.Ent(x).word)
    case EndRelease => exists j :: HasFailed(run, acts, t, j, k)
    case _ => false
  }

  lemma GivesUpByStep(s: State, t: Tx, act: Action)
    requires Step(s, t, act).To? && StartsOver(act, Step(s, t, act).T.phase) && !act.Begin? && !act.Rollback?
    ensures var T := s.At(t);
      match act
      case ReadFirst => T.phase.Fetching? && s.Lock(T.phase.acc.x).locked
      case ReadSecond => T.phase.Copying? && s.Lock(T.phase.acc.x).locked
      case Check(x) => T.phase.Checking? && x in T.phase.todo && T.Has(x) && Stale(s, x, T.Ent(x).word)
      case EndRelease => T.phase.Releasing?
      case _ => false
  {
  }

  lemma OnlyConflictsAbort(run: seq<State>, acts: seq<(Tx, Action)>, t: Tx, k: nat)
    requires ActionRun(run, acts) && k < |acts| && acts[k].0 == t
    requires StartsOver(acts[k].1, run[k + 1].At(t).phase) && !acts[k].1.Begin? && !acts[k].1.Rollback?
    ensures Conflict(run, acts, t, k)
  {
    assert Acts(run, acts, k);
    AfterIs(run[k], t, acts[k].1, run[k + 1]);
    GivesUpByStep(run[k], t, acts[k].1);
    if acts[k].1.EndRelease? {
      var j := FailedHasReason(run, acts, t, k);
    }
  }

  // ---------- Which entries are looked up ----------

  /** What remains to be looked up is older than the version just read, and that version is above the vector clock. */
  ghost predicate LooksUp(T: TxState) {
    T.phase.Checking? ==> forall x :: x in T.phase.todo ==>
      T.phase.e.word.ver > T.Vc(T.phase.e.word.node) && T.Has(x) && T.Ent(x).word.ver < T.phase.e.word.ver
  }

  lemma LooksUpStep(s: State, t: Tx, act: Action)
    requires Shape(s.At(t)) && LooksUp(s.At(t)) && Step(s, t, act).To?
    ensures LooksUp(Step(s, t, act).T)
  {
    StepMoves(s, t, act);
  }

  lemma {:induction false} LooksUpOnlyOlder(run: seq<State>, acts: seq<(Tx, Action)>, t: Tx, k: nat)
    requires ActionRun(run, acts) && k <= |acts|
    ensures LooksUp(run[k].At(t))
  {
    if k > 0 {
      LooksUpOnlyOlder(run, acts, t, k - 1);
      assert Acts(run, acts, k - 1);
      ActionRunIsRun(run, acts);
      RunLocks(run, k - 1);
      var (u, act) := acts[k - 1];
      AfterIs(run[k - 1], u, act, run[k]);
      if u == t { LooksUpStep(run[k - 1], t, act); } else { OthersStay(run[k - 1], u, act, run[k], t); }
    }
  }
}
