/** What every step keeps without any hypothesis: mutual exclusion of the locks,
    the clocks of committed versions, and where each version came from. */
module StmLocks {
  import opened Timestamps
  import opened StmModel
  import opened StmMoves

  ghost predicate Shapes(s: State) {
    forall t :: Shape(s.At(t))
  }

  /** A lock word is locked exactly while one transaction holds it, and then it
      carries the version that transaction read. */
  ghost predicate Exclusive(s: State) {
    && (forall t, x {:trigger s.At(t).Holds(x)} :: s.At(t).Holds(x) ==> x in s.At(t).ws && s.Lock(x) == s.At(t).ws[x].word.Locked())
    && (forall t1, t2, x :: s.At(t1).Holds(x) && s.At(t2).Holds(x) ==> t1 == t2)
    && (forall x :: s.Lock(x).locked ==> exists t :: s.At(t).Holds(x))
  }

  predicate SameVersion(T: TxState, U: TxState) {
    T.Published() && U.Published() && T.node == U.node && T.ver == U.ver
  }

  /** Commit versions are at least 1, are covered by the clock of their node, and
      are not shared on a node. */
  ghost predicate Clocks(s: State) {
    && (forall t :: s.At(t).Published() ==> 1 <= s.At(t).ver <= s.Clock(s.At(t).node))
    && (forall t, u {:trigger SameVersion(s.At(t), s.At(u))} :: SameVersion(s.At(t), s.At(u)) ==> t == u)
  }

  /** Every version in a set is covered by the clock of the reader's node, and is
      below the version the reader commits. */
  ghost predicate Covered(s: State) {
    && (forall t, x {:trigger s.At(t).Has(x)} :: s.At(t).Has(x) ==>
          && s.At(t).Ent(x).word.ver <= s.Clock(s.At(t).node)
          && (s.At(t).Published() ==> s.At(t).Ent(x).word.ver < s.At(t).ver))
    && (forall t :: s.At(t).phase.Checking? ==> s.At(t).phase.e.word.ver <= s.Clock(s.At(t).node))
  }

  /** w is the version of x that o committed. */
  predicate Version(s: State, x: Obj, o: Origin, w: Word) {
    match o
    case Initial => w == ZERO_WORD
    case By(u) => s.At(u).Published() && x in s.At(u).ws && w == s.At(u).CommitWord()
  }

  /** Every version in a lock word or in an entry was committed by its origin. */
  ghost predicate Origins(s: State) {
    && (forall x :: Version(s, x, s.Last(x), s.Lock(x).Unlocked()))
    && (forall t, x {:trigger s.At(t).Has(x)} :: s.At(t).Has(x) ==> Version(s, x, s.At(t).Ent(x).origin, s.At(t).Ent(x).word))
    && (forall t :: s.At(t).Admitting() ==> Version(s, s.At(t).phase.acc.x, s.At(t).phase.e.origin, s.At(t).phase.e.word))
  }

  /** The lock word written by t is held by no other transaction. */
  lemma SetLockAlone(s: State, t: Tx, eff: Effect, u: Tx)
    requires Shape(s.At(t)) && Exclusive(s) && eff.SetLock? && SetLockOk(s, t, s.At(t), eff.x, eff.w, eff.o)
    requires s.At(u).Holds(eff.x)
    ensures u == t
  {
  }

  lemma ExclusiveMove(s: State, t: Tx, T': TxState, eff: Effect, s': State)
    requires Shape(s.At(t)) && Exclusive(s) && (forall x :: T'.Holds(x) ==> x in T'.ws)
    requires LockMove(s, t, s.At(t), T', eff) && (T'.phase.Active? || T'.ws == s.At(t).ws)
    requires Changed(s, t, T', eff, s')
    ensures Exclusive(s')
  {
    var T := s.At(t);
    forall u, x | s'.At(u).Holds(x)
      ensures x in s'.At(u).ws && s'.Lock(x) == s'.At(u).ws[x].word.Locked()
    {
      if u == t {
        assert T'.Holds(x);
      } else {
        assert s.At(u).Holds(x);
        if eff.SetLock? && x == eff.x {
          SetLockAlone(s, t, eff, u);
        }
      }
    }
    forall u1, u2, x | s'.At(u1).Holds(x) && s'.At(u2).Holds(x) ensures u1 == u2 {
      if eff.SetLock? && x == eff.x {
        if u1 != t { SetLockAlone(s, t, eff, u1); }
        if u2 != t { SetLockAlone(s, t, eff, u2); }
      }
    }
    forall x | s'.Lock(x).locked ensures exists u :: s'.At(u).Holds(x) {
      if eff.SetLock? && x == eff.x {
        assert s'.At(t).Holds(x);
      } else {
        var u :| s.At(u).Holds(x);
        assert s'.At(u).Holds(x);
      }
    }
  }

  lemma ClocksMove(s: State, t: Tx, T': TxState, eff: Effect, s': State)
    requires Clocks(s)
    requires StatusMove(s, t, s.At(t), T', eff) && Changed(s, t, T', eff, s')
    ensures Clocks(s')
  {
    var T := s.At(t);
    forall u, v | SameVersion(s'.At(u), s'.At(v)) ensures u == v {
      if u != v && (u != t || T.Published()) && (v != t || T.Published()) {
        assert SameVersion(s.At(u), s.At(v));
      }
    }
  }

  lemma CoveredMove(s: State, t: Tx, T': TxState, eff: Effect, s': State)
    requires Shape(s.At(t)) && Covered(s)
    requires EntriesMove(s, s.At(t), T') && StatusMove(s, t, s.At(t), T', eff) && PhaseMove(s, s.At(t), T', eff)
    requires Changed(s, t, T', eff, s')
    ensures Covered(s')
  {
    var T := s.At(t);
    forall u, x | s'.At(u).Has(x)
      ensures s'.At(u).Ent(x).word.ver <= s'.Clock(s'.At(u).node)
      ensures s'.At(u).Published() ==> s'.At(u).Ent(x).word.ver < s'.At(u).ver
    {
      if u == t {
        assert Inherited(T, x, T'.Ent(x));
      } else {
        assert s.At(u).Has(x);
      }
    }
  }

  lemma VersionStable(s: State, t: Tx, T': TxState, eff: Effect, s': State, x: Obj, o: Origin, w: Word)
    requires StatusMove(s, t, s.At(t), T', eff) && (forall u :: s'.At(u) == if u == t then T' else s.At(u))
    requires Version(s, x, o, w)
    ensures Version(s', x, o, w)
  {
  }

  lemma OriginsMove(s: State, t: Tx, T': TxState, eff: Effect, s': State)
    requires Shape(s.At(t)) && Origins(s)
    requires EntriesMove(s, s.At(t), T') && LockMove(s, t, s.At(t), T', eff) && StatusMove(s, t, s.At(t), T', eff)
    requires Changed(s, t, T', eff, s')
    ensures Origins(s')
  {
    var T := s.At(t);
    forall x ensures Version(s', x, s'.Last(x), s'.Lock(x).Unlocked()) {
      if eff.SetLock? && x == eff.x {
        assert T.Has(x);
        if !T.phase.Unlocking? {
          VersionStable(s, t, T', eff, s', x, T.Ent(x).origin, T.Ent(x).word);
        }
      } else {
        VersionStable(s, t, T', eff, s', x, s.Last(x), s.Lock(x).Unlocked());
      }
    }
    forall u, x | s'.At(u).Has(x) ensures Version(s', x, s'.At(u).Ent(x).origin, s'.At(u).Ent(x).word) {
      var e := s'.At(u).Ent(x);
      assert u == t ==> Inherited(T, x, e);
      assert u != t ==> s.At(u).Has(x);
      VersionStable(s, t, T', eff, s', x, e.origin, e.word);
    }
    forall u | s'.At(u).Admitting()
      ensures Version(s', s'.At(u).phase.acc.x, s'.At(u).phase.e.origin, s'.At(u).phase.e.word)
    {
      var p := s'.At(u).phase;
      VersionStable(s, t, T', eff, s', p.acc.x, p.e.origin, p.e.word);
    }
  }

  ghost predicate LocksInv(s: State) {
    Shapes(s) && Exclusive(s) && Clocks(s) && Covered(s) && Origins(s)
  }

  lemma LocksInvInit(s: State)
    requires Init(s)
    ensures LocksInv(s)
  {
  }

  lemma LocksInvStep(s: State, t: Tx, act: Action, s': State)
    requires LocksInv(s) && Next(s, t, act, s')
    ensures LocksInv(s')
  {
    var To(T', eff) := Step(s, t, act);
    AfterChanged(s, t, T', eff);
    StepMoves(s, t, act);
    ExclusiveMove(s, t, T', eff, s');
    ClocksMove(s, t, T', eff, s');
    CoveredMove(s, t, T', eff, s');
    OriginsMove(s, t, T', eff, s');
  }
}
