/** Under hypothesis H the version in a lock word never goes back, no transaction
    holds a version newer than it, and a lock is granted only for the current one. */
module StmVersions {
  import opened Timestamps
  import opened StmModel
  import opened StmMoves
  import opened StmLocks

  /** Versions read are not newer than the one at home. */
  ghost predicate NotAhead(s: State) {
    && (forall t, x {:trigger s.At(t).Has(x)} :: s.At(t).Has(x) ==> s.At(t).Ent(x).word.ver <= s.Lock(x).ver)
    && (forall t :: s.At(t).Admitting() ==> s.At(t).phase.e.word.ver <= s.Lock(s.At(t).phase.acc.x).ver)
    && (forall t :: s.At(t).phase.Copying? ==> s.At(t).phase.first.ver <= s.Lock(s.At(t).phase.acc.x).ver)
  }

  /** A version released at home is not newer than the one there now. */
  ghost predicate Released(s: State) {
    forall t, x {:trigger x in s.At(t).ws} :: s.At(t).Published() && x in s.At(t).ws && !s.At(t).Holds(x)
      ==> s.At(t).ver <= s.Lock(x).ver
  }

  ghost predicate VersionsInv(s: State) {
    NotAhead(s) && Released(s)
  }

  /** Two versions of one object with the same number are the same commit. */
  lemma SameNumber(s: State, x: Obj, o1: Origin, w1: Word, o2: Origin, w2: Word)
    requires Clocks(s) && SingleWriterNode(s)
    requires Version(s, x, o1, w1) && Version(s, x, o2, w2) && w1.ver == w2.ver
    ensures o1 == o2 && w1 == w2
  {
    if o1.By? && o2.By? {
      assert SameVersion(s.At(o1.tx), s.At(o2.tx));
    }
  }

  /** The raw comparison of glue.cpp only lets the current version through. */
  lemma GrantIsCurrent(s: State, t: Tx, x: Obj)
    requires LocksInv(s) && NotAhead(s) && SingleWriterNode(s)
    requires x in s.At(t).ws && !s.Lock(x).RawGreater(s.At(t).ws[x].word)
    ensures s.Lock(x) == s.At(t).ws[x].word && s.Last(x) == s.At(t).ws[x].origin
  {
    var e := s.At(t).ws[x];
    assert s.At(t).Has(x);
    assert !s.Lock(x).locked;
    assert s.Lock(x) == s.Lock(x).Unlocked();
    assert Version(s, x, s.Last(x), s.Lock(x));
    assert s.Lock(x).ver <= e.word.ver;
    SameNumber(s, x, s.Last(x), s.Lock(x), e.origin, e.word);
  }

  /** The version in a lock word only grows, and grows strictly when it changes. */
  lemma LockWordGrows(s: State, t: Tx, eff: Effect)
    requires LocksInv(s) && NotAhead(s) && SingleWriterNode(s)
    requires eff.SetLock? && SetLockOk(s, t, s.At(t), eff.x, eff.w, eff.o)
    ensures if s.At(t).phase.Unlocking?
            then eff.w.ver > s.Lock(eff.x).ver
            else eff.w.Unlocked() == s.Lock(eff.x).Unlocked() && eff.o == s.Last(eff.x)
  {
    var T := s.At(t);
    assert T.Has(eff.x);
    if T.phase.Locking? {
      GrantIsCurrent(s, t, eff.x);
    } else if T.phase.Releasing? {
      assert Version(s, eff.x, s.Last(eff.x), s.Lock(eff.x).Unlocked());
      SameNumber(s, eff.x, s.Last(eff.x), s.Lock(eff.x).Unlocked(), T.ws[eff.x].origin, T.ws[eff.x].word);
    }
  }

  /** No version at home goes back. */
  ghost predicate Grown(s: State, s': State) {
    forall x {:trigger s'.Lock(x)} :: s.Lock(x).ver <= s'.Lock(x).ver
  }

  lemma GrownMove(s: State, t: Tx, T': TxState, eff: Effect, s': State)
    requires LocksInv(s) && NotAhead(s) && SingleWriterNode(s)
    requires LockMove(s, t, s.At(t), T', eff) && Changed(s, t, T', eff, s')
    ensures Grown(s, s')
  {
    if eff.SetLock? {
      LockWordGrows(s, t, eff);
    }
  }

  lemma NotAheadMove(s: State, t: Tx, T': TxState, eff: Effect, s': State)
    requires Shape(s.At(t)) && NotAhead(s) && Grown(s, s')
    requires EntriesMove(s, s.At(t), T') && PhaseMove(s, s.At(t), T', eff)
    requires forall u :: s'.At(u) == if u == t then T' else s.At(u)
    ensures NotAhead(s')
  {
    var T := s.At(t);
    forall u, x | s'.At(u).Has(x) ensures s'.At(u).Ent(x).word.ver <= s'.Lock(x).ver {
      if u == t {
        assert Inherited(T, x, T'.Ent(x));
      } else {
        assert s.At(u).Has(x);
      }
    }
  }

  lemma ReleasedMove(s: State, t: Tx, T': TxState, eff: Effect, s': State)
    requires LocksInv(s) && VersionsInv(s) && SingleWriterNode(s)
    requires LockMove(s, t, s.At(t), T', eff) && StatusMove(s, t, s.At(t), T', eff)
    requires Changed(s, t, T', eff, s')
    ensures Released(s')
  {
    var T := s.At(t);
    if eff.SetLock? {
      LockWordGrows(s, t, eff);
    }
    forall u, x | s'.At(u).Published() && x in s'.At(u).ws && !s'.At(u).Holds(x)
      ensures s'.At(u).ver <= s'.Lock(x).ver
    {
    }
  }

  lemma HypothesisEarlier(s: State, t: Tx, act: Action, s': State)
    requires Shapes(s) && Next(s, t, act, s') && SingleWriterNode(s')
    ensures SingleWriterNode(s)
  {
    var To(T', eff) := Step(s, t, act);
    AfterChanged(s, t, T', eff);
    StepMoves(s, t, act);
    forall u, v, x | s.At(u).Published() && s.At(v).Published() && x in s.At(u).ws && x in s.At(v).ws
      ensures s.At(u).node == s.At(v).node
    {
      assert x in s'.At(u).ws && x in s'.At(v).ws;
    }
  }

  lemma VersionsInvStep(s: State, t: Tx, act: Action, s': State)
    requires LocksInv(s) && VersionsInv(s) && SingleWriterNode(s) && Next(s, t, act, s')
    ensures VersionsInv(s') && Grown(s, s')
  {
    var To(T', eff) := Step(s, t, act);
    AfterChanged(s, t, T', eff);
    StepMoves(s, t, act);
    GrownMove(s, t, T', eff, s');
    NotAheadMove(s, t, T', eff, s');
    ReleasedMove(s, t, T', eff, s');
  }
}
