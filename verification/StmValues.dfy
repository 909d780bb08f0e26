/** Under hypothesis H a snapshot taken by readCell is the committed block of its
    version, for every interleaving with lock, write-back, release and abort steps. */
module StmValues {
  import opened Timestamps
  import opened StmModel
  import opened StmMoves
  import opened StmLocks
  import opened StmVersions

  /** The block of x that o committed. */
  function ValueOf(s: State, x: Obj, o: Origin): Block {
    match o
    case Initial => BlockAt(s.init, x)
    case By(u) => if x in s.At(u).ws then s.At(u).ws[x].cur else ZERO_BLOCK
  }

  /** A transaction that will publish x holds it. */
  ghost predicate Overwriting(s: State, x: Obj) {
    exists t :: s.At(t).Decided() && s.At(t).Holds(x)
  }

  /** Memory holds the version named by the lock word, unless it is being replaced. */
  ghost predicate MemoryIsCommitted(s: State) {
    forall x :: Overwriting(s, x) || BlockAt(s.mem, x) == ValueOf(s, x, s.Last(x))
  }

  /** What of the write set of T is in memory, in a block b that T holds. */
  ghost predicate PutSoFar(T: TxState, x: Obj, b: Block)
    requires x in T.ws
  {
    if T.phase.Writing?
    then forall i: CellIndex {:trigger b[i]} :: (x, i as nat) in T.phase.cells || b[i] == T.ws[x].cur[i]
    else b == T.ws[x].cur
  }

  ghost predicate WriteBackProgress(s: State) {
    forall t, x {:trigger s.At(t).Holds(x)} :: s.At(t).Decided() && s.At(t).Holds(x) && x in s.At(t).ws
      ==> PutSoFar(s.At(t), x, BlockAt(s.mem, x))
  }

  /** Every snapshot in a set is the committed block of its version. */
  ghost predicate SnapshotsAreCommitted(s: State) {
    && (forall t, x {:trigger s.At(t).Has(x)} :: s.At(t).Has(x) ==> s.At(t).Ent(x).base == ValueOf(s, x, s.At(t).Ent(x).origin))
    && (forall t :: s.At(t).Admitting() ==> s.At(t).phase.e.base == ValueOf(s, s.At(t).phase.acc.x, s.At(t).phase.e.origin))
  }

  /** The words copied so far are those of the version at home, if it is still the one
      seen first and is not being replaced. */
  ghost predicate CopySoFar(s: State, T: TxState)
    requires T.phase.Copying?
  {
    var x := T.phase.acc.x;
    Overwriting(s, x) || s.Lock(x).Unlocked() != T.phase.first
    || forall i :: i in T.phase.buf && i < BLOCK_WORDS ==> T.phase.buf[i] == ValueOf(s, x, s.Last(x))[i]
  }

  ghost predicate CopyProgress(s: State) {
    forall t :: s.At(t).phase.Copying? ==> CopySoFar(s, s.At(t))
  }

  ghost predicate ValuesInv(s: State) {
    MemoryIsCommitted(s) && WriteBackProgress(s) && SnapshotsAreCommitted(s) && CopyProgress(s)
  }

  // ---------- Preservation ----------

  lemma ValueStable(s: State, t: Tx, T': TxState, eff: Effect, s': State, x: Obj, o: Origin, w: Word)
    requires StatusMove(s, t, s.At(t), T', eff) && Changed(s, t, T', eff, s')
    requires Version(s, x, o, w)
    ensures ValueOf(s', x, o) == ValueOf(s, x, o)
  {
  }

  /** A block stops being replaced only when its new version is published. */
  lemma OverwritingMove(s: State, t: Tx, T': TxState, eff: Effect, s': State, x: Obj)
    requires LockMove(s, t, s.At(t), T', eff) && StatusMove(s, t, s.At(t), T', eff) && Changed(s, t, T', eff, s')
    requires Overwriting(s, x) && !Overwriting(s', x)
    ensures eff.SetLock? && eff.x == x && s.At(t).phase.Unlocking?
  {
    var u :| s.At(u).Decided() && s.At(u).Holds(x);
    assert !(s'.At(u).Decided() && s'.At(u).Holds(x));
    assert u == t;
  }

  lemma MemoryMove(s: State, t: Tx, T': TxState, eff: Effect, s': State)
    requires LocksInv(s) && VersionsInv(s) && SingleWriterNode(s) && MemoryIsCommitted(s) && WriteBackProgress(s)
    requires LockMove(s, t, s.At(t), T', eff) && StatusMove(s, t, s.At(t), T', eff) && Changed(s, t, T', eff, s')
    ensures MemoryIsCommitted(s')
  {
    var T := s.At(t);
    if eff.SetLock? {
      LockWordGrows(s, t, eff);
    }
    assert eff.SetCell? || (eff.SetLock? && T.phase.Unlocking?) ==> T.Decided() && T.Holds(eff.x);
    forall x | !Overwriting(s', x) ensures BlockAt(s'.mem, x) == ValueOf(s', x, s'.Last(x)) {
      if Overwriting(s, x) {
        OverwritingMove(s, t, T', eff, s', x);
        assert T.Holds(x);
        assert PutSoFar(T, x, BlockAt(s.mem, x));
      } else {
        ValueStable(s, t, T', eff, s', x, s.Last(x), s.Lock(x).Unlocked());
      }
    }
  }

  lemma WriteBackMove(s: State, t: Tx, T': TxState, eff: Effect, s': State)
    requires Shape(s.At(t)) && Exclusive(s) && WriteBackProgress(s)
    requires LockMove(s, t, s.At(t), T', eff) && StatusMove(s, t, s.At(t), T', eff) && PhaseMove(s, s.At(t), T', eff) && Changed(s, t, T', eff, s')
    ensures WriteBackProgress(s')
  {
    var T := s.At(t);
    forall u, x | s'.At(u).Decided() && s'.At(u).Holds(x) && x in s'.At(u).ws ensures PutSoFar(s'.At(u), x, BlockAt(s'.mem, x)) {
      if u != t {
        assert s.At(u).Holds(x);
        assert eff.SetCell? ==> T.Holds(eff.x);
        assert BlockAt(s'.mem, x) == BlockAt(s.mem, x);
      } else {
        assert T'.Holds(x) && T.Holds(x);
      }
    }
  }

  lemma SnapshotsMove(s: State, t: Tx, T': TxState, eff: Effect, s': State)
    requires LocksInv(s) && SnapshotsAreCommitted(s) && CopyProgress(s)
    requires EntriesMove(s, s.At(t), T') && StatusMove(s, t, s.At(t), T', eff) && Changed(s, t, T', eff, s')
    ensures SnapshotsAreCommitted(s')
  {
    var T := s.At(t);
    forall u, x | s'.At(u).Has(x) ensures s'.At(u).Ent(x).base == ValueOf(s', x, s'.At(u).Ent(x).origin) {
      var e := s'.At(u).Ent(x);
      if u == t {
        InheritedValue(s, t, x, e);
      } else {
        assert s.At(u).Has(x);
      }
      ValueStable(s, t, T', eff, s', x, e.origin, e.word);
    }
    forall u | s'.At(u).Admitting() ensures s'.At(u).phase.e.base == ValueOf(s', s'.At(u).phase.acc.x, s'.At(u).phase.e.origin) {
      var x, e := s'.At(u).phase.acc.x, s'.At(u).phase.e;
      if u == t {
        InheritedValue(s, t, x, e);
      }
      ValueStable(s, t, T', eff, s', x, e.origin, e.word);
    }
  }

  /** The heart of the snapshot argument: when the two reads of the lock word agree
      and are unlocked, the copy between them is the committed block. */
  lemma FreshSnapshot(s: State, t: Tx, x: Obj, e: Entry)
    requires LocksInv(s) && CopyProgress(s) && Fresh(s, s.At(t), x, e)
    ensures e.base == ValueOf(s, x, e.origin) && Version(s, x, e.origin, e.word)
  {
    var T := s.At(t);
    assert CopySoFar(s, T);
    assert s.Lock(x).Unlocked() == T.phase.first;
    assert forall u :: s.At(u).Holds(x) ==> s.Lock(x).locked;
    assert !Overwriting(s, x);
    assert forall i: CellIndex :: e.base[i] == T.phase.buf[i];
    assert e.base == ValueOf(s, x, s.Last(x));
  }

  lemma InheritedValue(s: State, t: Tx, x: Obj, e: Entry)
    requires LocksInv(s) && SnapshotsAreCommitted(s) && CopyProgress(s)
    requires Inherited(s.At(t), x, e) || Fresh(s, s.At(t), x, e)
    ensures e.base == ValueOf(s, x, e.origin) && Version(s, x, e.origin, e.word)
  {
    if Fresh(s, s.At(t), x, e) {
      FreshSnapshot(s, t, x, e);
    }
  }

  lemma CopyMove(s: State, t: Tx, T': TxState, eff: Effect, s': State)
    requires LocksInv(s) && VersionsInv(s) && SingleWriterNode(s) && MemoryIsCommitted(s) && CopyProgress(s)
    requires LockMove(s, t, s.At(t), T', eff) && StatusMove(s, t, s.At(t), T', eff) && PhaseMove(s, s.At(t), T', eff) && Changed(s, t, T', eff, s')
    ensures CopyProgress(s')
  {
    var T := s.At(t);
    if eff.SetLock? {
      LockWordGrows(s, t, eff);
    }
    forall u | s'.At(u).phase.Copying? ensures CopySoFar(s', s'.At(u)) {
      var U, x := s'.At(u), s'.At(u).phase.acc.x;
      if !Overwriting(s', x) && s'.Lock(x).Unlocked() == U.phase.first {
        if Overwriting(s, x) {
          OverwritingMove(s, t, T', eff, s', x);
        }
        ValueStable(s, t, T', eff, s', x, s.Last(x), s.Lock(x).Unlocked());
      }
    }
  }

  lemma ValuesInvStep(s: State, t: Tx, act: Action, s': State)
    requires LocksInv(s) && VersionsInv(s) && SingleWriterNode(s) && ValuesInv(s) && Next(s, t, act, s')
    ensures ValuesInv(s')
  {
    var To(T', eff) := Step(s, t, act);
    AfterChanged(s, t, T', eff);
    StepMoves(s, t, act);
    MemoryMove(s, t, T', eff, s');
    WriteBackMove(s, t, T', eff, s');
    SnapshotsMove(s, t, T', eff, s');
    CopyMove(s, t, T', eff, s');
  }
}
