/** Under hypothesis H a transaction, running or finished, never holds a version of x
    together with a value that causally depends on a later write of x, although
    `validate` skips what its vector clock and its version filter say it may. */
module StmCausal {
  import opened Timestamps
  import opened StmModel
  import opened StmMoves
  import opened StmLocks
  import opened StmVersions
  import opened StmValues

  /** The past of a committed transaction: committed, no newer, and closed under reads-from. */
  ghost predicate Pasts(s: State) {
    && (forall w :: s.At(w).Published() ==> w in s.At(w).past)
    && (forall w, v {:trigger v in s.At(w).past} :: s.At(w).Published() && v in s.At(w).past ==>
          s.At(v).Published() && s.At(v).ver <= s.At(w).ver)
    && (forall w, v, x {:trigger v in s.At(w).past, s.At(v).Has(x)} ::
          s.At(w).Published() && v in s.At(w).past && s.At(v).Has(x) && s.At(v).Ent(x).origin.By?
          ==> s.At(v).Ent(x).origin.tx in s.At(w).past)
  }

  /** Vector clocks name versions that exist, and cover every version held. */
  ghost predicate VectorClock(s: State, T: TxState) {
    && (forall n {:trigger T.Vc(n)} :: T.Vc(n) <= s.Clock(n))
    && (forall x {:trigger T.Has(x)} :: T.Has(x) ==> T.Ent(x).word.ver <= T.Vc(T.Ent(x).word.node))
  }

  ghost predicate VectorClocks(s: State) {
    forall t :: VectorClock(s, s.At(t))
  }

  /** No transaction in the past of w has replaced version `ver` of x. */
  ghost predicate NotOverwritten(s: State, w: Tx, x: Obj, ver: nat) {
    forall v :: v in s.At(w).past && x in s.At(v).ws ==> s.At(v).ver <= ver
  }

  /** The commits of node n up to version `ver`. */
  predicate UpTo(W: TxState, n: Node, ver: nat) {
    W.Published() && W.node == n && W.ver <= ver
  }

  /** The past of the commits a vector clock covers has replaced nothing that is held. */
  ghost predicate CoveredPast(s: State) {
    && (forall t, x, w {:trigger s.At(t).Has(x), s.At(w).Published()} ::
          s.At(t).Has(x) && UpTo(s.At(w), s.At(w).node, s.At(t).Vc(s.At(w).node)) ==> NotOverwritten(s, w, x, s.At(t).Ent(x).word.ver))
    && (forall t, w {:trigger s.At(t).Admitting(), s.At(w).Published()} ::
          s.At(t).Admitting() && UpTo(s.At(w), s.At(w).node, s.At(t).Vc(s.At(w).node))
          ==> NotOverwritten(s, w, s.At(t).phase.acc.x, s.At(t).phase.e.word.ver))
  }

  /** While `validate` runs: the past of the version just read has replaced no entry
      that is no longer to be checked. */
  ghost predicate CheckedPast(s: State) {
    forall t, x, w {:trigger s.At(t).Has(x), s.At(w).Published()} ::
      s.At(t).phase.Checking? && s.At(t).Has(x) && x !in s.At(t).phase.todo
      && UpTo(s.At(w), s.At(t).phase.e.word.node, s.At(t).phase.e.word.ver)
      ==> NotOverwritten(s, w, x, s.At(t).Ent(x).word.ver)
  }

  ghost predicate CausalInv(s: State) {
    Pasts(s) && VectorClocks(s) && CoveredPast(s) && CheckedPast(s)
  }

  // ---------- Preservation ----------

  /** The past taken with a new version. */
  lemma NewPast(s: State, t: Tx, T: TxState, v: Tx)
    requires T == s.At(t) && Covered(s) && Origins(s) && Pasts(s) && v in PastOf(s, t, T) && v != t
    ensures s.At(v).Published() && s.At(v).ver <= s.Clock(T.node)
    ensures forall x {:trigger s.At(v).Has(x)} :: s.At(v).Has(x) && s.At(v).Ent(x).origin.By? ==> s.At(v).Ent(x).origin.tx in PastOf(s, t, T)
  {
    var y :| T.Has(y) && T.Ent(y).origin.By? && v in s.At(T.Ent(y).origin.tx).past;
    assert Version(s, y, T.Ent(y).origin, T.Ent(y).word);
  }

  lemma PastsMove(s: State, t: Tx, T': TxState, eff: Effect, s': State)
    requires Covered(s) && Origins(s) && Pasts(s)
    requires StatusMove(s, t, s.At(t), T', eff) && Changed(s, t, T', eff, s')
    ensures Pasts(s')
  {
    var T := s.At(t);
    forall w, v | s'.At(w).Published() && v in s'.At(w).past
      ensures s'.At(v).Published() && s'.At(v).ver <= s'.At(w).ver
      ensures forall x {:trigger s'.At(v).Has(x)} :: s'.At(v).Has(x) && s'.At(v).Ent(x).origin.By? ==> s'.At(v).Ent(x).origin.tx in s'.At(w).past
    {
      if w == t && !T.Published() {
        if v != t {
          NewPast(s, t, T, v);
        } else {
          forall x | T.Has(x) && T.Ent(x).origin.By? ensures T.Ent(x).origin.tx in T'.past {
            assert Version(s, x, T.Ent(x).origin, T.Ent(x).word);
            assert T.Ent(x).origin.tx in s.At(T.Ent(x).origin.tx).past;
          }
          assert forall x :: T'.Has(x) ==> T.Has(x) && T'.Ent(x) == T.Ent(x);
        }
      } else {
        assert s.At(w).Published() && v in s.At(w).past;
        assert s.At(v).Published() && s'.At(v).Published() && s'.At(v).ver == s.At(v).ver && s'.At(w).ver == s.At(w).ver;
        assert forall x :: s'.At(v).Has(x) ==> s.At(v).Has(x) && s'.At(v).Ent(x) == s.At(v).Ent(x);
      }
    }
  }

  /** An unlocked version is not replaced by anything published so far. */
  lemma IntactNotOverwritten(s: State, w: Tx, x: Obj, e: Entry)
    requires Exclusive(s) && Released(s) && Pasts(s) && s.At(w).Published() && Intact(s, x, e)
    ensures NotOverwritten(s, w, x, e.word.ver)
  {
    forall v | v in s.At(w).past && x in s.At(v).ws ensures s.At(v).ver <= e.word.ver {
      assert !s.At(v).Holds(x);
    }
  }

  lemma AdmittedVc(T: TxState, n: Node)
    requires T.phase.Checking?
    ensures var w := T.phase.e.word;
            Admitted(T).Vc(n) == if n == w.node && w.ver > T.Vc(n) then w.ver else T.Vc(n)
  {
  }

  lemma AdmittedHas(T: TxState, x: Obj)
    requires Shape(T) && T.phase.Checking? && Admitted(T).Has(x)
    ensures if x == T.phase.acc.x then SameRead(T.phase.e, Admitted(T).Ent(x)) else T.Has(x) && Admitted(T).Ent(x) == T.Ent(x)
  {
  }

  /** What is held after a step was held before, except for an admitted entry; the
      vector clock changes only then, or is reset with empty sets. */
  lemma HeldMove(s: State, t: Tx, T: TxState, T': TxState, eff: Effect)
    requires Shape(T) && StatusMove(s, t, T, T', eff) && PhaseMove(s, T, T', eff) && !(T.phase.Checking? && T' == Admitted(T))
    ensures forall x {:trigger T'.Has(x)} :: T'.Has(x) ==> T.Has(x) && SameRead(T.Ent(x), T'.Ent(x)) && T'.vc == T.vc
    ensures T'.vc == T.vc || T'.vc == map[]
  {
  }

  /** A committed version is covered by the clock of the node that committed it. */
  lemma VersionCovered(s: State, x: Obj, o: Origin, w: Word)
    requires Clocks(s) && Version(s, x, o, w)
    ensures w.ver <= s.Clock(w.node)
  {
  }

  lemma AdmittedVectorClock(s: State, T: TxState)
    requires Shape(T) && T.phase.Checking? && VectorClock(s, T) && T.phase.e.word.ver <= s.Clock(T.phase.e.word.node)
    ensures VectorClock(s, Admitted(T))
  {
    var T' := Admitted(T);
    forall n ensures T'.Vc(n) <= s.Clock(n) {
      AdmittedVc(T, n);
      assert T.Vc(n) <= s.Clock(n);
    }
    forall x | T'.Has(x) ensures T'.Ent(x).word.ver <= T'.Vc(T'.Ent(x).word.node) {
      AdmittedHas(T, x);
      AdmittedVc(T, T'.Ent(x).word.node);
    }
  }

  lemma VectorClockNow(s: State, t: Tx, T': TxState, eff: Effect)
    requires Shape(s.At(t)) && Clocks(s) && Origins(s) && VectorClocks(s)
    requires StatusMove(s, t, s.At(t), T', eff) && PhaseMove(s, s.At(t), T', eff)
    ensures VectorClock(s, T')
  {
    var T := s.At(t);
    assert VectorClock(s, T);
    if T.phase.Checking? && T' == Admitted(T) {
      VersionCovered(s, T.phase.acc.x, T.phase.e.origin, T.phase.e.word);
      AdmittedVectorClock(s, T);
    } else {
      HeldMove(s, t, T, T', eff);
      assert forall n :: T'.Vc(n) <= T.Vc(n);
    }
  }

  lemma VectorClocksMove(s: State, t: Tx, T': TxState, eff: Effect, s': State)
    requires VectorClocks(s) && VectorClock(s, T') && StatusMove(s, t, s.At(t), T', eff) && Changed(s, t, T', eff, s')
    ensures VectorClocks(s')
  {
    forall u ensures VectorClock(s', s'.At(u)) {
      assert VectorClock(s, s'.At(u));
      assert forall n :: s.Clock(n) <= s'.Clock(n);
    }
  }

  lemma NotOverwrittenMove(s: State, t: Tx, T': TxState, eff: Effect, s': State, w: Tx, x: Obj, ver: nat)
    requires Pasts(s) && StatusMove(s, t, s.At(t), T', eff) && Changed(s, t, T', eff, s')
    requires s.At(w).Published() && NotOverwritten(s, w, x, ver)
    ensures NotOverwritten(s', w, x, ver)
  {
    forall v | v in s'.At(w).past && x in s'.At(v).ws ensures s'.At(v).ver <= ver {
      assert v in s.At(w).past;
    }
  }

  lemma AdmittedNotOverwritten(s: State, t: Tx, x: Obj, w: Tx)
    requires Shape(s.At(t)) && Pasts(s) && CoveredPast(s) && CheckedPast(s) && s.At(t).phase.Checking? && s.At(t).phase.todo == {}
    requires Admitted(s.At(t)).Has(x) && UpTo(s.At(w), s.At(w).node, Admitted(s.At(t)).Vc(s.At(w).node))
    ensures NotOverwritten(s, w, x, Admitted(s.At(t)).Ent(x).word.ver)
  {
    var T, n := s.At(t), s.At(w).node;
    AdmittedVc(T, n);
    AdmittedHas(T, x);
    if s.At(w).ver <= T.Vc(n) {
      assert UpTo(s.At(w), n, T.Vc(n));
      assert T.Admitting();
    } else if x != T.phase.acc.x {
      assert UpTo(s.At(w), T.phase.e.word.node, T.phase.e.word.ver);
    }
  }

  /** What t holds after the step has not been replaced in the past its vector clock covers. */
  lemma HeldNotOverwritten(s: State, t: Tx, T': TxState, eff: Effect, x: Obj, w: Tx)
    requires Shape(s.At(t)) && Pasts(s) && CoveredPast(s) && CheckedPast(s) && StatusMove(s, t, s.At(t), T', eff) && PhaseMove(s, s.At(t), T', eff)
    requires T'.Has(x) && UpTo(s.At(w), s.At(w).node, T'.Vc(s.At(w).node))
    ensures NotOverwritten(s, w, x, T'.Ent(x).word.ver)
  {
    var T := s.At(t);
    if T.phase.Checking? && T' == Admitted(T) {
      AdmittedNotOverwritten(s, t, x, w);
    } else {
      HeldMove(s, t, T, T', eff);
      assert UpTo(s.At(w), s.At(w).node, T.Vc(s.At(w).node));
    }
  }

  /** The entry being admitted was unlocked when it was read. */
  lemma AdmittingNotOverwritten(s: State, t: Tx, T': TxState, eff: Effect, w: Tx)
    requires Shape(s.At(t)) && Exclusive(s) && Released(s) && Pasts(s) && CoveredPast(s)
    requires EntriesMove(s, s.At(t), T') && StatusMove(s, t, s.At(t), T', eff)
    requires T'.Admitting() && UpTo(s.At(w), s.At(w).node, T'.Vc(s.At(w).node))
    ensures NotOverwritten(s, w, T'.phase.acc.x, T'.phase.e.word.ver)
  {
    var T, x, e := s.At(t), T'.phase.acc.x, T'.phase.e;
    assert T'.vc == T.vc && UpTo(s.At(w), s.At(w).node, T.Vc(s.At(w).node));
    if Fresh(s, T, x, e) {
      IntactNotOverwritten(s, w, x, e);
    } else if T.Has(x) && SameRead(T.Ent(x), e) {
    } else {
      assert T.Admitting();
    }
  }

  /** No transaction published before the step needs to look at a version taken in it. */
  lemma CoveredBefore(s: State, t: Tx, T': TxState, eff: Effect, s': State, u: Tx, w: Tx)
    requires VectorClocks(s) && VectorClock(s, s'.At(u)) && StatusMove(s, t, s.At(t), T', eff) && Changed(s, t, T', eff, s')
    requires UpTo(s'.At(w), s'.At(w).node, s'.At(u).Vc(s'.At(w).node))
    ensures s.At(w).Published() && UpTo(s.At(w), s.At(w).node, s'.At(u).Vc(s.At(w).node))
  {
    assert s'.At(u).Vc(s'.At(w).node) <= s.Clock(s'.At(w).node);
  }

  lemma CoveredPastMove(s: State, t: Tx, T': TxState, eff: Effect, s': State)
    requires Shape(s.At(t)) && Exclusive(s) && Released(s) && CausalInv(s) && VectorClock(s, T')
    requires EntriesMove(s, s.At(t), T') && StatusMove(s, t, s.At(t), T', eff) && PhaseMove(s, s.At(t), T', eff) && Changed(s, t, T', eff, s')
    ensures CoveredPast(s')
  {
    forall u, x, w | s'.At(u).Has(x) && UpTo(s'.At(w), s'.At(w).node, s'.At(u).Vc(s'.At(w).node))
      ensures NotOverwritten(s', w, x, s'.At(u).Ent(x).word.ver)
    {
      CoveredBefore(s, t, T', eff, s', u, w);
      if u == t {
        HeldNotOverwritten(s, t, T', eff, x, w);
      } else {
        assert s.At(u).Has(x) && s.At(w).Published();
      }
      NotOverwrittenMove(s, t, T', eff, s', w, x, s'.At(u).Ent(x).word.ver);
    }
    forall u, w | s'.At(u).Admitting() && UpTo(s'.At(w), s'.At(w).node, s'.At(u).Vc(s'.At(w).node))
      ensures NotOverwritten(s', w, s'.At(u).phase.acc.x, s'.At(u).phase.e.word.ver)
    {
      CoveredBefore(s, t, T', eff, s', u, w);
      if u == t {
        AdmittingNotOverwritten(s, t, T', eff, w);
      } else {
        assert s.At(u).Admitting() && s.At(w).Published();
      }
      NotOverwrittenMove(s, t, T', eff, s', w, s'.At(u).phase.acc.x, s'.At(u).phase.e.word.ver);
    }
  }

  /** Entries `validate` skips: their versions are too new to have been replaced, or
      the vector clock covers the version read. */
  lemma SkippedNotOverwritten(s: State, t: Tx, x: Obj, w: Tx)
    requires Pasts(s) && CoveredPast(s) && s.At(t).Admitting() && s.At(t).Has(x)
    requires var e := s.At(t).phase.e; x !in ToCheck(s.At(t), e.word) && UpTo(s.At(w), e.word.node, e.word.ver)
    ensures NotOverwritten(s, w, x, s.At(t).Ent(x).word.ver)
  {
    var T, e := s.At(t), s.At(t).phase.e;
    if e.word.ver <= T.Vc(e.word.node) {
      assert UpTo(s.At(w), s.At(w).node, T.Vc(s.At(w).node));
    }
  }

  lemma CheckedNotOverwritten(s: State, t: Tx, T': TxState, eff: Effect, x: Obj, w: Tx)
    requires Exclusive(s) && Released(s) && CausalInv(s)
    requires StatusMove(s, t, s.At(t), T', eff) && PhaseMove(s, s.At(t), T', eff)
    requires T'.phase.Checking? && T'.Has(x) && x !in T'.phase.todo && UpTo(s.At(w), T'.phase.e.word.node, T'.phase.e.word.ver)
    ensures NotOverwritten(s, w, x, T'.Ent(x).word.ver)
  {
    var T := s.At(t);
    assert T.Has(x) && T.Ent(x) == T'.Ent(x) && s.At(w).Published();
    if T.phase.Checking? {
      if x in T.phase.todo {
        IntactNotOverwritten(s, w, x, T.Ent(x));
      }
    } else {
      SkippedNotOverwritten(s, t, x, w);
    }
  }

  lemma CheckedPastMove(s: State, t: Tx, T': TxState, eff: Effect, s': State)
    requires Exclusive(s) && Clocks(s) && Origins(s) && Released(s) && CausalInv(s)
    requires StatusMove(s, t, s.At(t), T', eff) && PhaseMove(s, s.At(t), T', eff) && Changed(s, t, T', eff, s')
    ensures CheckedPast(s')
  {
    forall u, x, w |
      s'.At(u).phase.Checking? && s'.At(u).Has(x) && x !in s'.At(u).phase.todo
      && UpTo(s'.At(w), s'.At(u).phase.e.word.node, s'.At(u).phase.e.word.ver)
      ensures NotOverwritten(s', w, x, s'.At(u).Ent(x).word.ver)
    {
      var p := s'.At(u).phase;
      assert s.At(u).Admitting() && s.At(u).phase.acc == p.acc && s.At(u).phase.e == p.e;
      VersionCovered(s, p.acc.x, p.e.origin, p.e.word);
      assert s.At(w).Published() && UpTo(s.At(w), p.e.word.node, p.e.word.ver);
      if u == t {
        CheckedNotOverwritten(s, t, T', eff, x, w);
      } else {
        assert s.At(u).Has(x);
      }
      NotOverwrittenMove(s, t, T', eff, s', w, x, s'.At(u).Ent(x).word.ver);
    }
  }

  lemma CausalInvStep(s: State, t: Tx, act: Action, s': State)
    requires LocksInv(s) && VersionsInv(s) && CausalInv(s) && Next(s, t, act, s')
    ensures CausalInv(s')
  {
    var To(T', eff) := Step(s, t, act);
    AfterChanged(s, t, T', eff);
    StepMoves(s, t, act);
    PastsMove(s, t, T', eff, s');
    VectorClockNow(s, t, T', eff);
    VectorClocksMove(s, t, T', eff, s');
    CoveredPastMove(s, t, T', eff, s');
    CheckedPastMove(s, t, T', eff, s');
  }

  // ---------- Causal consistency ----------

  /** t holds some value that u committed. */
  ghost predicate ReadFrom(s: State, t: Tx, u: Tx) {
    exists x :: s.At(t).Has(x) && s.At(t).Ent(x).origin == By(u)
  }

  /** A chain of transactions each of which read from the next. */
  ghost predicate Chain(s: State, path: seq<Tx>) {
    && |path| > 0
    && forall k {:trigger path[k]} :: 0 <= k < |path| - 1 ==> ReadFrom(s, path[k], path[k + 1])
  }

  lemma {:induction false} ChainInPast(s: State, path: seq<Tx>)
    requires Pasts(s) && Chain(s, path) && s.At(path[0]).Published()
    ensures path[|path| - 1] in s.At(path[0]).past
  {
    if |path| > 1 {
      var front := path[..|path| - 1];
      assert Chain(s, front) by { assert forall k :: 0 <= k < |front| ==> front[k] == path[k]; }
      ChainInPast(s, front);
      assert ReadFrom(s, path[|path| - 2], path[|path| - 1]);
      var x :| s.At(path[|path| - 2]).Has(x) && s.At(path[|path| - 2]).Ent(x).origin == By(path[|path| - 1]);
    }
  }

  /** A transaction that holds x and a value written by the first of a chain holds no
      version of x that the last of the chain has replaced. */
  ghost predicate CausallyConsistent(s: State) {
    forall t, x, path {:trigger s.At(t).Has(x), Chain(s, path)} ::
      s.At(t).Has(x) && Chain(s, path) && ReadFrom(s, t, path[0])
      ==> && s.At(path[|path| - 1]).Published()
          && (x in s.At(path[|path| - 1]).ws ==> s.At(path[|path| - 1]).ver <= s.At(t).Ent(x).word.ver)
  }

  lemma CausallyConsistentState(s: State)
    requires LocksInv(s) && CausalInv(s)
    ensures CausallyConsistent(s)
  {
    forall t, x, path | s.At(t).Has(x) && Chain(s, path) && ReadFrom(s, t, path[0])
      ensures s.At(path[|path| - 1]).Published()
      ensures x in s.At(path[|path| - 1]).ws ==> s.At(path[|path| - 1]).ver <= s.At(t).Ent(x).word.ver
    {
      var w, v := path[0], path[|path| - 1];
      var y :| s.At(t).Has(y) && s.At(t).Ent(y).origin == By(w);
      assert Version(s, y, By(w), s.At(t).Ent(y).word);
      ChainInPast(s, path);
      assert VectorClock(s, s.At(t));
      assert UpTo(s.At(w), s.At(w).node, s.At(t).Vc(s.At(w).node));
      assert NotOverwritten(s, w, x, s.At(t).Ent(x).word.ver);
    }
  }
}
