/** What a step of one transaction can change, phase by phase.  The invariants are
    proved from these summaries rather than from the step function itself. */
module StmMoves {
  import opened Timestamps
  import opened StmModel

  /** The two sets are disjoint and hold unlocked words; read entries are never changed. */
  ghost predicate SetsShape(rs: map<Obj, Entry>, ws: map<Obj, Entry>) {
    && (forall x :: x in rs ==> x !in ws && !rs[x].word.locked && rs[x].cur == rs[x].base)
    && (forall x :: x in ws ==> !ws[x].word.locked)
  }

  /** The sets of one transaction and the bookkeeping of its phase. */
  ghost predicate Shape(T: TxState) {
    && SetsShape(T.rs, T.ws)
    && match T.phase
       case Idle => T.rs == map[] && T.ws == map[] && T.log == []
       case Fetching(acc) => !T.Has(acc.x)
       case Copying(acc, w, buf) => !T.Has(acc.x) && !w.locked && (forall i :: i in buf ==> i < BLOCK_WORDS)
       case Raising(acc, e) => !T.Has(acc.x) && !e.word.locked && e.cur == e.base
       case RaisingCas(acc, e, seen) => e.word.ver > seen && !T.Has(acc.x) && !e.word.locked && e.cur == e.base
       case Checking(acc, e, todo) => !T.Has(acc.x) && !e.word.locked && e.cur == e.base && (forall x :: x in todo ==> T.Has(x))
       case Locking(requests) => forall x :: x in requests <==> x in T.ws
       case Releasing(todo) => forall x :: x in todo ==> x in T.ws
       case Validating(todo) => forall x :: x in todo ==> x in T.rs
       case Writing(cells) => forall c :: c in cells ==> c.0 in T.ws && c.1 < BLOCK_WORDS
       case Unlocking(todo) => forall x :: x in todo ==> x in T.ws
       case _ => true
  }

  /** e' is e after further writes to the private copy. */
  predicate SameRead(e: Entry, e': Entry) {
    e.word == e'.word && e.base == e'.base && e.origin == e'.origin
  }

  predicate Inherited(T: TxState, x: Obj, e': Entry) {
    || (T.Has(x) && SameRead(T.Ent(x), e'))
    || (T.Admitting() && T.phase.acc.x == x && SameRead(T.phase.e, e'))
  }

  /** The entry readCell returns. */
  predicate Fresh(s: State, T: TxState, x: Obj, e: Entry) {
    && T.phase.Copying? && T.phase.acc.x == x && Full(T.phase.buf)
    && !s.Lock(x).locked && T.phase.first.Equivalent(s.Lock(x))
    && e == Entry(T.phase.first, BufBlock(T.phase.buf), BufBlock(T.phase.buf), s.Last(x))
  }

  ghost predicate EntriesMove(s: State, T: TxState, T': TxState) {
    && (forall x {:trigger T'.Has(x)} :: T'.Has(x) ==> Inherited(T, x, T'.Ent(x)))
    && (T'.Admitting() ==> Inherited(T, T'.phase.acc.x, T'.phase.e) || Fresh(s, T, T'.phase.acc.x, T'.phase.e))
  }

  /** A lock word is taken, restored or published, and Holds follows. */
  ghost predicate LockMove(s: State, t: Tx, T: TxState, T': TxState, eff: Effect) {
    && (forall y {:trigger T'.Holds(y)} :: T'.Holds(y) <==> if eff.SetLock? && y == eff.x then eff.w.locked else T.Holds(y))
    && (eff.SetLock? ==> SetLockOk(s, t, T, eff.x, eff.w, eff.o))
    && (eff.SetCell? ==> T.phase.Writing? && eff.x in T.ws && eff.v == T.ws[eff.x].cur[eff.i])
  }

  predicate SetLockOk(s: State, t: Tx, T: TxState, x: Obj, w: Word, o: Origin) {
    && x in T.ws
    && match T.phase
       case Locking(_) => !T.Holds(x) && !s.Lock(x).RawGreater(T.ws[x].word) && w == T.ws[x].word.Locked() && o == T.ws[x].origin
       case Releasing(_) => T.Holds(x) && w == T.ws[x].word && o == T.ws[x].origin
       case Unlocking(_) => T.Holds(x) && w == T.CommitWord() && o == By(t)
       case _ => false
  }

  /** The milestones: validation starts, is passed, and a version is taken. */
  ghost predicate StatusMove(s: State, t: Tx, T: TxState, T': TxState, eff: Effect) {
    && (T.phase.Idle? || T'.node == T.node)
    && (T.phase.Idle? ==> T'.phase == Active && eff == Nothing)
    && (!T'.phase.Active? ==> T'.rs == T.rs && T'.ws == T.ws && T'.log == T.log && T'.vc == T.vc)
    && (T.Started() && T'.Started() ==> T'.stamp == T.stamp)
    && (T.Decided() ==> T'.Decided())
    && (T.Published() ==> T'.Published() && T'.ver == T.ver && T'.past == T.past)
    && (T'.Started() && !T.Started() ==>
          eff.Start? && T'.phase == Validating(T.rs.Keys) && T'.stamp == |s.starts|)
    && (T'.Decided() && !T.Decided() ==> T.phase == Validating({}))
    && (T'.Published() && !T.Published() ==>
          T.phase.TickingCas? && eff == SetClock(T'.ver) && T'.ver == s.Clock(T.node) + 1 && T'.past == PastOf(s, t, T))
    && (eff.SetClock? ==> eff.c > s.Clock(T.node))
    && (eff.Start? ==> T'.Started() && !T.Started())
  }

  /** How each phase with a running loop is entered and continued. */
  ghost predicate PhaseMove(s: State, T: TxState, T': TxState, eff: Effect) {
    match T'.phase
    case Copying(acc, first, buf) =>
      || (T.phase == Fetching(acc) && first == s.Lock(acc.x) && !first.locked && buf == map[])
      || (T.phase.Copying? && T.phase.acc == acc && T.phase.first == first
          && exists i: CellIndex :: buf == T.phase.buf[i := BlockAt(s.mem, acc.x)[i]])
    case Checking(acc, e, todo) =>
      || (T.phase.Raising? && T.phase.acc == acc && T.phase.e == e && todo == ToCheck(T, e.word) && e.word.ver <= s.Clock(T.node) && eff == Nothing)
      || (T.phase.RaisingCas? && T.phase.acc == acc && T.phase.e == e && todo == ToCheck(T, e.word) && eff == SetClock(e.word.ver))
      || (T.phase.Checking? && T.phase.acc == acc && T.phase.e == e && eff == Nothing
          && exists x :: x in T.phase.todo && T.Has(x) && Intact(s, x, T.Ent(x)) && todo == T.phase.todo - {x})
    case Validating(todo) =>
      T.phase.Validating? ==> exists x :: x in T.phase.todo && x in T.rs && Intact(s, x, T.rs[x]) && todo == T.phase.todo - {x}
    case Writing(cells) =>
      || (T.phase.Validating? && eff == Nothing && forall x: Obj, i: CellIndex :: x in T.ws ==> (x, i) in cells)
      || (T.phase.Writing? && eff.SetCell? && cells == T.phase.cells - {(eff.x, eff.i as nat)})
    case Ticking => eff == Nothing && (T.phase == Writing({}) || T.phase.TickingCas?)
    case TickingCas(_) => eff == Nothing && T.phase == Ticking
    case Active =>
      || (T.phase.Idle? && T' == T.(phase := Active, node := T'.node))
      || (T'.rs == map[] && T'.ws == map[] && T'.log == [] && T'.vc == T.vc)
      || (T'.rs == map[] && T'.ws == map[] && T'.log == T.log && T'.vc == map[] && T.rs == map[] && T.ws == map[])
      || (T.phase.Active? && T'.vc == T.vc && exists acc: Access :: T.Has(acc.x) && AccessStep(T, acc).To? && T' == AccessStep(T, acc).T)
      || (T.phase.Checking? && T.phase.todo == {} && T' == Admitted(T))
    case _ => true
  }

  ghost predicate SetsMove(s: State, t: Tx, T: TxState, out: Outcome)
    requires out.To?
  {
    EntriesMove(s, T, out.T) && LockMove(s, t, T, out.T, out.eff)
  }

  ghost predicate ControlMove(s: State, t: Tx, T: TxState, out: Outcome)
    requires out.To?
  {
    StatusMove(s, t, T, out.T, out.eff) && PhaseMove(s, T, out.T, out.eff)
  }

  /** A blocked step, or one that keeps the shape and moves as summarized. */
  ghost predicate Moves(s: State, t: Tx, T: TxState, out: Outcome) {
    out.To? ==> Shape(out.T) && SetsMove(s, t, T, out) && ControlMove(s, t, T, out)
  }

  /** A transaction that is reading, or decides to, and holds no lock. */
  predicate Reading(p: Phase) { p.Active? || p.Fetching? || p.Copying? || p.Raising? || p.RaisingCas? || p.Checking? }

  lemma AbortMoves(s: State, t: Tx, T: TxState)
    requires Shape(T) && Reading(T.phase)
    ensures Moves(s, t, T, To(T.Aborted(), Nothing))
  {
  }

  /** While it reads, only its phase and the clock of its node change. */
  lemma ReadingMoves(s: State, t: Tx, T: TxState, p: Phase, eff: Effect)
    requires Shape(T) && Reading(T.phase) && Reading(p) && !p.Active? && Shape(T.(phase := p))
    requires eff.Nothing? || (eff.SetClock? && eff.c > s.Clock(T.node))
    requires T.(phase := p).Admitting() ==> (T.Admitting() && p.acc == T.phase.acc && p.e == T.phase.e) || Fresh(s, T, p.acc.x, p.e)
    requires PhaseMove(s, T, T.(phase := p), eff)
    ensures Moves(s, t, T, To(T.(phase := p), eff))
  {
  }

  lemma StoreMoves(s: State, t: Tx, T: TxState, acc: Access)
    requires Shape(T) && T.phase.Active? && acc.Store?
    ensures Moves(s, t, T, AccessStep(T, acc))
  {
    if !T.Has(acc.x) {
      ReadingMoves(s, t, T, Fetching(acc), Nothing);
    }
  }

  lemma LoadMoves(s: State, t: Tx, T: TxState, acc: Access)
    requires Shape(T) && T.phase.Active? && acc.Load?
    ensures Moves(s, t, T, AccessStep(T, acc))
  {
    if !T.Has(acc.x) {
      ReadingMoves(s, t, T, Fetching(acc), Nothing);
    }
  }

  lemma StartMoves(s: State, t: Tx, T: TxState)
    requires Shape(T) && (T.phase.Active? || T.phase.Locking?) && forall x :: x in T.ws ==> T.Holds(x)
    ensures Moves(s, t, T, StartValidation(s, T))
  {
  }

  lemma LockingMoves(s: State, t: Tx, T: TxState)
    requires Shape(T) && T.phase.Active? && T.ws != map[]
    ensures Moves(s, t, T, ActiveStep(s, T, Commit))
  {
  }

  lemma ActiveMoves(s: State, t: Tx, T: TxState, act: Action)
    requires Shape(T) && T.phase.Active?
    ensures Moves(s, t, T, ActiveStep(s, T, act))
  {
    match act
    case Do(Load(x, i)) => LoadMoves(s, t, T, Load(x, i));
    case Do(Store(x, i, v)) => StoreMoves(s, t, T, Store(x, i, v));
    case Rollback => AbortMoves(s, t, T);
    case Commit => if T.ws == map[] { StartMoves(s, t, T); } else { LockingMoves(s, t, T); }
    case _ =>
  }

  lemma CopyMoves(s: State, t: Tx, T: TxState, act: Action)
    requires Shape(T) && T.phase.Copying? && act.CopyWord?
    ensures Moves(s, t, T, ReadCellStep(s, T, act))
  {
    var out := ReadCellStep(s, T, act);
    if out.To? {
      ReadingMoves(s, t, T, out.T.phase, Nothing);
    }
  }

  lemma ReadCellMoves(s: State, t: Tx, T: TxState, act: Action)
    requires Shape(T) && (T.phase.Fetching? || T.phase.Copying?)
    ensures Moves(s, t, T, ReadCellStep(s, T, act))
  {
    var out := ReadCellStep(s, T, act);
    if T.phase.Copying? && act.CopyWord? {
      CopyMoves(s, t, T, act);
    } else if out.To? {
      if out.T.phase.Active? { AbortMoves(s, t, T); } else { ReadingMoves(s, t, T, out.T.phase, Nothing); }
    }
  }

  lemma IncreaseClockMoves(s: State, t: Tx, T: TxState, act: Action)
    requires Shape(T) && (T.phase.Raising? || T.phase.RaisingCas?)
    ensures Moves(s, t, T, IncreaseClockStep(s, T, act))
  {
    var out := IncreaseClockStep(s, T, act);
    if out.To? {
      ReadingMoves(s, t, T, out.T.phase, out.eff);
    }
  }

  lemma AdmittedMoves(s: State, t: Tx, T: TxState)
    requires Shape(T) && T.phase.Checking? && T.phase.todo == {}
    ensures Moves(s, t, T, To(Admitted(T), Nothing))
  {
  }

  lemma ValidateMoves(s: State, t: Tx, T: TxState, act: Action)
    requires Shape(T) && T.phase.Checking?
    ensures Moves(s, t, T, ValidateStep(s, T, act))
  {
    var out := ValidateStep(s, T, act);
    if act.Admit? {
      if out.To? { AdmittedMoves(s, t, T); }
    } else if out.To? {
      if out.T.phase.Active? { AbortMoves(s, t, T); } else { ReadingMoves(s, t, T, out.T.phase, out.eff); }
    }
  }

  /** While it commits, the sets stay as they are. */
  lemma CommittingMoves(s: State, t: Tx, T: TxState, p: Phase, eff: Effect)
    requires Shape(T) && T.Committing() && !T.Started() && Shape(T.(phase := p)) && (p.Locking? || p.Releasing?)
    requires LockMove(s, t, T, T.(phase := p), eff) && (eff.Nothing? || eff.SetLock?)
    ensures Moves(s, t, T, To(T.(phase := p), eff))
  {
  }

  lemma GetLocksMoves(s: State, t: Tx, T: TxState, act: Action)
    requires Shape(T) && T.phase.Locking?
    ensures Moves(s, t, T, GetLocksStep(s, T, act))
  {
    var out := GetLocksStep(s, T, act);
    if out.To? {
      if out.T.phase.Validating? { StartMoves(s, t, T); } else { CommittingMoves(s, t, T, out.T.phase, out.eff); }
    }
  }

  lemma ServerMoves(s: State, t: Tx, T: TxState, act: Action)
    requires Shape(T) && T.phase.Locking?
    ensures Moves(s, t, T, ServerStep(s, T, act))
  {
    var out := ServerStep(s, T, act);
    if out.To? {
      CommittingMoves(s, t, T, out.T.phase, out.eff);
    }
  }

  lemma ReleaseLocksMoves(s: State, t: Tx, T: TxState, act: Action)
    requires Shape(T) && T.phase.Releasing?
    ensures Moves(s, t, T, ReleaseLocksStep(T, act))
  {
  }

  lemma ValidateAllMoves(s: State, t: Tx, T: TxState, act: Action)
    requires Shape(T) && T.phase.Validating?
    ensures Moves(s, t, T, ValidateAllStep(s, T, act))
  {
  }

  lemma WriteBackMoves(s: State, t: Tx, T: TxState, act: Action)
    requires Shape(T) && T.phase.Writing?
    ensures Moves(s, t, T, WriteBackStep(T, act))
  {
  }

  lemma TickMoves(s: State, t: Tx, T: TxState)
    requires Shape(T) && T.phase == TickingCas(s.Clock(T.node))
    ensures Moves(s, t, T, NextClockStep(s, t, T, CasTick))
  {
  }

  lemma NextClockMoves(s: State, t: Tx, T: TxState, act: Action)
    requires Shape(T) && (T.phase.Ticking? || T.phase.TickingCas?)
    ensures Moves(s, t, T, NextClockStep(s, t, T, act))
  {
    if T.phase == TickingCas(s.Clock(T.node)) {
      if act.CasTick? { TickMoves(s, t, T); }
    }
  }

  lemma UnlockMoves(s: State, t: Tx, T: TxState, act: Action)
    requires Shape(T) && T.phase.Unlocking?
    ensures Moves(s, t, T, UnlockStep(t, T, act))
  {
  }

  lemma StepMoves(s: State, t: Tx, act: Action)
    requires Shape(s.At(t)) && Step(s, t, act).To?
    ensures Shape(Step(s, t, act).T) && SetsMove(s, t, s.At(t), Step(s, t, act)) && ControlMove(s, t, s.At(t), Step(s, t, act))
  {
    var T := s.At(t);
    match T.phase
    case Idle =>
    case Active => ActiveMoves(s, t, T, act);
    case Fetching(_) => ReadCellMoves(s, t, T, act);
    case Copying(_, _, _) => ReadCellMoves(s, t, T, act);
    case Raising(_, _) => IncreaseClockMoves(s, t, T, act);
    case RaisingCas(_, _, _) => IncreaseClockMoves(s, t, T, act);
    case Checking(_, _, _) => ValidateMoves(s, t, T, act);
    case Locking(_) => GetLocksMoves(s, t, T, act); ServerMoves(s, t, T, act);
    case Releasing(_) => ReleaseLocksMoves(s, t, T, act);
    case Validating(_) => ValidateAllMoves(s, t, T, act);
    case Writing(_) => WriteBackMoves(s, t, T, act);
    case Ticking => NextClockMoves(s, t, T, act);
    case TickingCas(_) => NextClockMoves(s, t, T, act);
    case Unlocking(_) => UnlockMoves(s, t, T, act);
    case Done =>
  }

  /** Shared state after a step, read through its accessors. */
  ghost predicate Changed(s: State, t: Tx, T': TxState, eff: Effect, s': State) {
    && (forall y :: s'.Lock(y) == if eff.SetLock? && y == eff.x then eff.w else s.Lock(y))
    && (forall y :: s'.Last(y) == if eff.SetLock? && y == eff.x then eff.o else s.Last(y))
    && (forall y :: BlockAt(s'.mem, y) == if eff.SetCell? && y == eff.x then BlockAt(s.mem, y)[eff.i := eff.v] else BlockAt(s.mem, y))
    && (forall n :: s'.Clock(n) == if eff.SetClock? && n == T'.node then eff.c else s.Clock(n))
    && (forall u :: s'.At(u) == if u == t then T' else s.At(u))
    && s'.init == s.init
    && s'.starts == if eff.Start? then s.starts + [t] else s.starts
  }

  lemma AfterChanged(s: State, t: Tx, T': TxState, eff: Effect)
    ensures Changed(s, t, T', eff, s.After(t, T', eff))
  {
  }
}
