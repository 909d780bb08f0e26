/** What transactions do for their programs.  The accesses a program asks for are the
    Do actions of a run; the log, the sets and the private copies of a transaction are
    determined by those that have been completed since it last began or gave up. */
module StmPrograms {
  import opened Timestamps
  import opened StmModel
  import opened StmMoves
  import opened StmLocks
  import opened StmSerial
  import opened StmTheorems

  // ---------- Runs with their actions ----------

  ghost predicate Acts(run: seq<State>, acts: seq<(Tx, Action)>, k: nat)
    requires k < |acts| < |run|
  {
    Next(run[k], acts[k].0, acts[k].1, run[k + 1])
  }

  ghost predicate ActionRun(run: seq<State>, acts: seq<(Tx, Action)>) {
    |run| == |acts| + 1 && Init(run[0]) && forall k :: 0 <= k < |acts| ==> Acts(run, acts, k)
  }

  lemma ActionRunIsRun(run: seq<State>, acts: seq<(Tx, Action)>)
    requires ActionRun(run, acts)
    ensures Run(run)
  {
    forall k | 0 < k < |run| ensures CanStep(run[k - 1], run[k]) {
      assert Acts(run, acts, k - 1);
    }
  }

  /** Every run has its actions. */
  lemma {:induction false} RunHasActions(run: seq<State>) returns (acts: seq<(Tx, Action)>)
    requires Run(run)
    ensures ActionRun(run, acts)
  {
    if |run| == 1 {
      acts := [];
    } else {
      var n := |run| - 1;
      forall k | 0 < k < n ensures CanStep(run[..n][k - 1], run[..n][k]) {
        assert CanStep(run[k - 1], run[k]);
      }
      var before := RunHasActions(run[..n]);
      assert CanStep(run[n - 1], run[n]);
      var t, act :| Next(run[n - 1], t, act, run[n]);
      acts := before + [(t, act)];
      forall k | 0 <= k < |acts| ensures Acts(run, acts, k) {
        if k < |before| { assert Acts(run[..n], before, k); }
      }
    }
  }

  /** What the program of t asked for last in the first k actions. */
  function LastAsked(acts: seq<(Tx, Action)>, t: Tx, k: nat): Access
    requires k <= |acts|
  {
    if k == 0 then Load(0, 0)
    else if acts[k - 1].0 == t && acts[k - 1].1.Do? then acts[k - 1].1.acc
    else LastAsked(acts, t, k - 1)
  }

  /** An access is completed at once, when its block is in one of the sets, or when its block is admitted. */
  predicate Completes(act: Action, p: Phase) { act.Admit? || (act.Do? && p.Active?) }

  /** The transaction begins, or has given up and starts over. */
  predicate StartsOver(act: Action, p: Phase) {
    act.Begin? || (p.Active? && (act.Rollback? || act.ReadFirst? || act.ReadSecond? || act.Check? || act.EndRelease?))
  }

  /** The accesses of t completed since it last began or gave up. */
  function Program(run: seq<State>, acts: seq<(Tx, Action)>, t: Tx, k: nat): seq<Access>
    requires k <= |acts| < |run|
  {
    if k == 0 then []
    else if acts[k - 1].0 != t then Program(run, acts, t, k - 1)
    else if StartsOver(acts[k - 1].1, run[k].At(t).phase) then []
    else if Completes(acts[k - 1].1, run[k].At(t).phase) then Program(run, acts, t, k - 1) + [LastAsked(acts, t, k)]
    else Program(run, acts, t, k - 1)
  }

  // ---------- What a step does to the log and the copies ----------

  /** The copy of x a transaction has, or is about to admit. */
  function Copy(T: TxState, x: Obj): Block {
    if T.Has(x) then T.Ent(x).cur else if T.Admitting() then T.phase.e.cur else ZERO_BLOCK
  }

  predicate SameSets(T: TxState, T': TxState) {
    T'.rs == T.rs && T'.ws == T.ws && T'.log == T.log
  }

  ghost predicate SameElsewhere(T: TxState, x: Obj, T': TxState) {
    forall y {:trigger T'.Has(y)} {:trigger T.Has(y)} :: y != x ==>
      && (T'.Has(y) <==> T.Has(y)) && (y in T'.ws <==> y in T.ws) && (T.Has(y) ==> T'.Ent(y) == T.Ent(y))
  }

  /** The access is done: a store changes one word of the copy and is recorded, a load
      is recorded with the word of the copy. */
  ghost predicate Does(acc: Access, T: TxState, T': TxState) {
    && T'.Has(acc.x) && SameElsewhere(T, acc.x, T')
    && (T.Has(acc.x) ==> T'.Ent(acc.x).base == T.Ent(acc.x).base)
    && (!T.Has(acc.x) ==> T'.Ent(acc.x).base == Copy(T, acc.x))
    && match acc
       case Store(x, i, v) =>
         T'.log == T.log + [Stored(x, i, v)] && x in T'.ws && T'.Ent(x).cur == Copy(T, x)[i := v]
       case Load(x, i) =>
         T'.log == T.log + [Loaded(x, i, Copy(T, x)[i])] && (x in T'.ws <==> x in T.ws) && T'.Ent(x).cur == Copy(T, x)
  }

  predicate Pending(p: Phase) { p.Fetching? || p.Copying? || p.Raising? || p.RaisingCas? || p.Checking? }

  lemma AccessDoes(T: TxState, acc: Access)
    requires SetsShape(T.rs, T.ws) && T.phase.Active? && T.Has(acc.x)
    ensures var T' := AccessStep(T, acc).T; T'.phase.Active? && Does(acc, T, T')
  {
  }

  lemma AdmitDoes(T: TxState)
    requires Shape(T) && T.phase.Checking?
    ensures Admitted(T).phase.Active? && Does(T.phase.acc, T, Admitted(T))
  {
  }

  /** A step that does no access. */
  predicate Quiet(act: Action, T: TxState, T': TxState) {
    && (if StartsOver(act, T'.phase) then T'.rs == map[] && T'.ws == map[] && T'.log == [] else SameSets(T, T'))
    && (Pending(T'.phase) ==> Pending(T.phase) && T'.phase.acc == T.phase.acc)
  }

  ghost predicate QuietStep(act: Action, T: TxState, out: Outcome) {
    out.To? ==> Quiet(act, T, out.T) && !act.Do? && !act.Admit?
  }

  lemma ReadCellQuiet(s: State, T: TxState, act: Action)
    requires T.phase.Fetching? || T.phase.Copying?
    ensures QuietStep(act, T, ReadCellStep(s, T, act))
  {
  }

  lemma RaisingQuiet(s: State, T: TxState, act: Action)
    requires T.phase.Raising? || T.phase.RaisingCas?
    ensures QuietStep(act, T, IncreaseClockStep(s, T, act))
  {
  }

  lemma CheckingQuiet(s: State, T: TxState, act: Action)
    requires T.phase.Checking? && !act.Admit?
    ensures QuietStep(act, T, ValidateStep(s, T, act))
  {
  }

  lemma LockingQuiet(s: State, T: TxState, act: Action)
    requires T.phase.Locking?
    ensures QuietStep(act, T, if act.ServerLoad? || act.ServerCas? then ServerStep(s, T, act) else GetLocksStep(s, T, act))
  {
  }

  lemma ReleasingQuiet(T: TxState, act: Action)
    requires T.phase.Releasing?
    ensures QuietStep(act, T, ReleaseLocksStep(T, act))
  {
  }

  lemma ValidatingQuiet(s: State, T: TxState, act: Action)
    requires T.phase.Validating?
    ensures QuietStep(act, T, ValidateAllStep(s, T, act))
  {
  }

  lemma WritingQuiet(T: TxState, act: Action)
    requires T.phase.Writing?
    ensures QuietStep(act, T, WriteBackStep(T, act))
  {
  }

  lemma TickingQuiet(s: State, t: Tx, T: TxState, act: Action)
    requires T.phase.Ticking? || T.phase.TickingCas?
    ensures QuietStep(act, T, NextClockStep(s, t, T, act))
  {
  }

  lemma UnlockingQuiet(t: Tx, T: TxState, act: Action)
    requires T.phase.Unlocking?
    ensures QuietStep(act, T, UnlockStep(t, T, act))
  {
  }

  lemma StepQuiet(s: State, t: Tx, T: TxState, act: Action)
    requires (Pending(T.phase) || T.Committing()) && T == s.At(t) && !(T.phase.Checking? && act.Admit?)
    ensures QuietStep(act, T, Step(s, t, act))
  {
    match T.phase
    case Fetching(_) => ReadCellQuiet(s, T, act);
    case Copying(_, _, _) => ReadCellQuiet(s, T, act);
    case Raising(_, _) => RaisingQuiet(s, T, act);
    case RaisingCas(_, _, _) => RaisingQuiet(s, T, act);
    case Checking(_, _, _) => CheckingQuiet(s, T, act);
    case Locking(_) => LockingQuiet(s, T, act);
    case Releasing(_) => ReleasingQuiet(T, act);
    case Validating(_) => ValidatingQuiet(s, T, act);
    case Writing(_) => WritingQuiet(T, act);
    case Ticking => TickingQuiet(s, t, T, act);
    case TickingCas(_) => TickingQuiet(s, t, T, act);
    case Unlocking(_) => UnlockingQuiet(t, T, act);
    case Done =>
  }

  lemma ActiveQuiet(s: State, t: Tx, T: TxState, act: Action)
    requires Shape(T) && (T.phase.Idle? || T.phase.Active?) && T == s.At(t) && !act.Do?
    ensures var out := Step(s, t, act); out.To? ==> Quiet(act, T, out.T) && !act.Admit?
  {
  }

  /** Every step does an access, drops everything, or leaves sets and log alone; an access that waits for
      its block is the one asked for. */
  lemma AccessDone(s: State, t: Tx, act: Action, s': State)
    requires Shapes(s) && Next(s, t, act, s')
    ensures var T, T' := s.At(t), s'.At(t);
      if act.Admit? then Pending(T.phase) && T'.phase.Active? && Does(T.phase.acc, T, T')
      else if Completes(act, T'.phase) then Does(act.acc, T, T')
      else if act.Do? then SameSets(T, T') && Pending(T'.phase) && T'.phase.acc == act.acc
      else Quiet(act, T, T')
  {
    var To(T', eff) := Step(s, t, act);
    AfterChanged(s, t, T', eff);
    var T := s.At(t);
    assert Shape(T);
    if act.Admit? && T.phase.Checking? {
      AdmitDoes(T);
    } else if Pending(T.phase) || T.Committing() {
      StepQuiet(s, t, T, act);
    } else if !act.Do? {
      ActiveQuiet(s, t, T, act);
    } else if T.Has(act.acc.x) {
      AccessDoes(T, act.acc);
    }
  }

  // ---------- Over whole runs ----------

  predicate Matches(acc: Access, op: Op) {
    match acc
    case Load(x, i) => op.Loaded? && op.x == x && op.i == i
    case Store(x, i, v) => op == Stored(x, i, v)
  }

  ghost predicate AllMatch(prog: seq<Access>, log: seq<Op>) {
    |prog| == |log| && forall j :: 0 <= j < |log| ==> Matches(prog[j], log[j])
  }

  lemma OthersStay(s: State, t: Tx, act: Action, s': State, u: Tx)
    requires Next(s, t, act, s') && u != t
    ensures s'.At(u) == s.At(u)
  {
    var To(T', eff) := Step(s, t, act);
    AfterChanged(s, t, T', eff);
  }

  lemma {:induction false} PendingIsAsked(run: seq<State>, acts: seq<(Tx, Action)>, t: Tx, k: nat)
    requires ActionRun(run, acts) && k <= |acts| && Pending(run[k].At(t).phase)
    ensures run[k].At(t).phase.acc == LastAsked(acts, t, k)
  {
    if k > 0 {
      assert Acts(run, acts, k - 1);
      ActionRunIsRun(run, acts);
      RunLocks(run, k - 1);
      if acts[k - 1].0 != t {
        OthersStay(run[k - 1], acts[k - 1].0, acts[k - 1].1, run[k], t);
        PendingIsAsked(run, acts, t, k - 1);
      } else {
        AccessDone(run[k - 1], t, acts[k - 1].1, run[k]);
        if !acts[k - 1].1.Do? { PendingIsAsked(run, acts, t, k - 1); }
      }
    }
  }

  /** Step k completes the access asked for last, and records it with what it did to the copy; or it drops
      everything; or it leaves sets, copies and log alone.  Other transactions keep theirs. */
  lemma EveryStepOfAProgram(run: seq<State>, acts: seq<(Tx, Action)>, t: Tx, k: nat)
    requires ActionRun(run, acts) && k < |acts|
    ensures var T, T' := run[k].At(t), run[k + 1].At(t);
      var act := acts[k].1;
      if acts[k].0 != t then T' == T
      else if StartsOver(act, T'.phase) then T'.rs == map[] && T'.ws == map[] && T'.log == []
      else if Completes(act, T'.phase) then Does(LastAsked(acts, t, k + 1), T, T')
      else SameSets(T, T')
  {
    assert Acts(run, acts, k);
    ActionRunIsRun(run, acts);
    RunLocks(run, k);
    if acts[k].0 != t {
      OthersStay(run[k], acts[k].0, acts[k].1, run[k + 1], t);
    } else {
      AccessDone(run[k], t, acts[k].1, run[k + 1]);
      if acts[k].1.Admit? { PendingIsAsked(run, acts, t, k); }
    }
  }

  /** The log of a transaction lists the accesses its program has completed since it last began or gave up. */
  lemma {:induction false} LogIsProgram(run: seq<State>, acts: seq<(Tx, Action)>, t: Tx, k: nat)
    requires ActionRun(run, acts) && k <= |acts|
    ensures AllMatch(Program(run, acts, t, k), run[k].At(t).log)
  {
    if k > 0 {
      LogIsProgram(run, acts, t, k - 1);
      EveryStepOfAProgram(run, acts, t, k - 1);
    }
  }
}
