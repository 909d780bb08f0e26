/** Under hypothesis H the order in which transactions begin validateAll agrees with
    the order of versions, on every object a transaction has read. */
module StmOrder {
  import opened Timestamps
  import opened StmModel
  import opened StmMoves
  import opened StmLocks
  import opened StmVersions

  /** The entry is locked by the transaction or was looked up by its validateAll. */
  predicate Confirmed(T: TxState, x: Obj) {
    x in T.ws || (x in T.rs && !(T.phase.Validating? && x in T.phase.todo))
  }

  ghost predicate Stamps(s: State) {
    forall t :: s.At(t).Started() ==> s.At(t).stamp < |s.starts| && s.starts[s.At(t).stamp] == t
  }

  /** Versions that were read were written by transactions that validate earlier. */
  ghost predicate ReadsAreEarlier(s: State) {
    forall t, w, x {:trigger s.At(t).Has(x), x in s.At(w).ws} ::
      s.At(t).Started() && s.At(t).Has(x) && s.At(w).Published() && w != t && x in s.At(w).ws && s.At(w).ver <= s.At(t).Ent(x).word.ver
      ==> s.At(w).stamp < s.At(t).stamp
  }

  /** A writer that validates earlier had published a version that was read or is older. */
  ghost predicate EarlierIsRead(s: State) {
    forall t, w, x {:trigger Confirmed(s.At(t), x), x in s.At(w).ws} ::
      s.At(t).Started() && Confirmed(s.At(t), x) && s.At(w).Started() && w != t && x in s.At(w).ws && s.At(w).stamp < s.At(t).stamp
      ==> s.At(w).Published() && s.At(w).ver <= s.At(t).Ent(x).word.ver
  }

  ghost predicate OrderInv(s: State) {
    Stamps(s) && ReadsAreEarlier(s) && EarlierIsRead(s)
  }

  lemma StampsMove(s: State, t: Tx, T': TxState, eff: Effect, s': State)
    requires Stamps(s) && StatusMove(s, t, s.At(t), T', eff) && Changed(s, t, T', eff, s')
    ensures Stamps(s')
  {
  }

  /** A freshly taken version is above everything anyone has read of the objects written. */
  lemma NewVersionIsNew(s: State, t: Tx, T': TxState, eff: Effect, u: Tx, x: Obj)
    requires LocksInv(s) && NotAhead(s) && StatusMove(s, t, s.At(t), T', eff)
    requires T'.Published() && !s.At(t).Published() && x in s.At(t).ws && s.At(u).Has(x)
    ensures s.At(u).Ent(x).word.ver < T'.ver
  {
    assert s.At(t).Holds(x) && s.At(t).Has(x);
  }

  lemma ReadsAreEarlierMove(s: State, t: Tx, T': TxState, eff: Effect, s': State)
    requires LocksInv(s) && NotAhead(s) && Stamps(s) && ReadsAreEarlier(s)
    requires StatusMove(s, t, s.At(t), T', eff) && Changed(s, t, T', eff, s')
    ensures ReadsAreEarlier(s')
  {
    var T := s.At(t);
    forall u, w, x |
      s'.At(u).Started() && s'.At(u).Has(x) && s'.At(w).Published() && w != u && x in s'.At(w).ws && s'.At(w).ver <= s'.At(u).Ent(x).word.ver
      ensures s'.At(w).stamp < s'.At(u).stamp
    {
      if w == t && !T.Published() {
        assert s.At(u).Has(x);
        NewVersionIsNew(s, t, T', eff, u, x);
      } else {
        assert x in s.At(w).ws && s.At(w).Published();
        if u == t && !T.Started() {
          assert s.At(w).Started();
        } else {
          assert s.At(u).Has(x);
        }
      }
    }
  }

  /** A started writer that no longer holds x has published it. */
  lemma ReleasedIsPublished(s: State, w: Tx, x: Obj)
    requires Released(s) && s.At(w).Started() && x in s.At(w).ws && !s.At(w).Holds(x)
    ensures s.At(w).Published() && s.At(w).ver <= s.Lock(x).ver
  {
  }

  /** An entry is confirmed when t holds its lock as validateAll starts, or when
      validateAll finds its word unlocked and no newer. */
  lemma ConfirmingMove(s: State, t: Tx, T': TxState, eff: Effect, x: Obj)
    requires LockMove(s, t, s.At(t), T', eff) && StatusMove(s, t, s.At(t), T', eff) && PhaseMove(s, s.At(t), T', eff)
    requires Shape(s.At(t)) && T'.Started() && Confirmed(T', x) && !(s.At(t).Started() && Confirmed(s.At(t), x))
    ensures s.At(t).Has(x) && T'.Has(x) && T'.Ent(x) == s.At(t).Ent(x)
    ensures (x in s.At(t).ws && s.At(t).Holds(x)) || Intact(s, x, s.At(t).Ent(x))
  {
    var T := s.At(t);
    if !T.Started() {
      assert T'.Holds(x) <==> T.Holds(x);
    }
  }

  /** A transaction that starts now is stamped after every other. */
  lemma StartedBefore(s: State, t: Tx, T': TxState, eff: Effect, s': State, u: Tx, w: Tx)
    requires Stamps(s) && StatusMove(s, t, s.At(t), T', eff) && Changed(s, t, T', eff, s')
    requires s'.At(u).Started() && s'.At(w).Started() && u != w && s'.At(w).stamp < s'.At(u).stamp && (u == t ==> s.At(t).Started())
    ensures s.At(u).Started() && s.At(w).Started() && s.At(w).stamp < s.At(u).stamp
    ensures s'.At(w).ws == s.At(w).ws && (s.At(w).Published() ==> s'.At(w).Published() && s'.At(w).ver == s.At(w).ver)
    ensures forall x :: s'.At(u).Has(x) ==> s.At(u).Has(x) && s'.At(u).Ent(x) == s.At(u).Ent(x)
  {
  }

  lemma EarlierIsReadMove(s: State, t: Tx, T': TxState, eff: Effect, s': State)
    requires Shapes(s) && Exclusive(s) && Released(s) && Stamps(s) && EarlierIsRead(s)
    requires LockMove(s, t, s.At(t), T', eff) && StatusMove(s, t, s.At(t), T', eff) && PhaseMove(s, s.At(t), T', eff)
    requires Changed(s, t, T', eff, s')
    ensures EarlierIsRead(s')
  {
    var T := s.At(t);
    forall u, w, x |
      s'.At(u).Started() && Confirmed(s'.At(u), x) && s'.At(w).Started() && w != u && x in s'.At(w).ws && s'.At(w).stamp < s'.At(u).stamp
      ensures s'.At(w).Published() && s'.At(w).ver <= s'.At(u).Ent(x).word.ver
    {
      if u == t && !(T.Started() && Confirmed(T, x)) {
        ConfirmingMove(s, t, T', eff, x);
        assert !s.At(w).Holds(x);
        ReleasedIsPublished(s, w, x);
      } else {
        StartedBefore(s, t, T', eff, s', u, w);
        assert Confirmed(s.At(u), x);
      }
    }
  }

  lemma OrderInvStep(s: State, t: Tx, act: Action, s': State)
    requires LocksInv(s) && VersionsInv(s) && OrderInv(s) && Next(s, t, act, s')
    ensures OrderInv(s')
  {
    var To(T', eff) := Step(s, t, act);
    AfterChanged(s, t, T', eff);
    StepMoves(s, t, act);
    StampsMove(s, t, T', eff, s');
    ReadsAreEarlierMove(s, t, T', eff, s');
    EarlierIsReadMove(s, t, T', eff, s');
  }
}
