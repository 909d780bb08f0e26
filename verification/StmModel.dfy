/** The distributed STM as a step system: many nodes, many transactions, one lock
    word per 64-byte block.  Every read or write of shared memory, and every
    attempt of a compare-and-swap loop, is a step of its own. */
module StmModel {
  import opened Timestamps

  type Tx = nat
  type Obj = nat
  type Node = nat
  type Val = nat

  const BLOCK_WORDS: nat := 8
  const ZERO_BLOCK: seq<Val> := [0, 0, 0, 0, 0, 0, 0, 0]

  type CellIndex = i: nat | i < BLOCK_WORDS

  type Block = b: seq<Val> | |b| == BLOCK_WORDS witness ZERO_BLOCK

  type Memory = map<Obj, Block>

  function BlockAt(m: Memory, x: Obj): Block {
    if x in m then m[x] else ZERO_BLOCK
  }

  // ---------- Transactions ----------

  /** History: which transaction committed a version; Initial for the first one. */
  datatype Origin = Initial | By(tx: Tx)

  /** A private copy of a block.  The word is the version read with the copy and
      `cur` its current content; `base` (the content as read) and `origin` are history. */
  datatype Entry = Entry(word: Word, base: Block, cur: Block, origin: Origin)

  /** An operation of the user's program, on one word of a block. */
  datatype Access = Load(x: Obj, i: CellIndex) | Store(x: Obj, i: CellIndex, v: Val)

  /** History: what the program did and which value each load returned. */
  datatype Op = Loaded(x: Obj, i: CellIndex, v: Val) | Stored(x: Obj, i: CellIndex, v: Val)

  /** Not yet sent; in a message; its lock word read by the server; answered. */
  datatype Request = Left | Sent | Seen(w: Word) | Granted | Refused

  datatype Phase =
    | Idle
    | Active
    // readCell
    | Fetching(acc: Access)
    | Copying(acc: Access, first: Word, buf: map<nat, Val>)
    // increaseClock
    | Raising(acc: Access, e: Entry)
    | RaisingCas(acc: Access, e: Entry, seen: nat)
    // validate
    | Checking(acc: Access, e: Entry, todo: set<Obj>)
    // getLocks: how far the request for each entry of the write set has got
    | Locking(requests: map<Obj, Request>)
    // releaseLocks
    | Releasing(todo: set<Obj>)
    // validateAll
    | Validating(todo: set<Obj>)
    // commitWriteSetValues
    | Writing(cells: set<(Obj, nat)>)
    // getNextClock
    | Ticking
    | TickingCas(seen: nat)
    // releaseLocksWithNewClock
    | Unlocking(todo: set<Obj>)
    | Done

  /** The sets of a finished transaction are kept as history.  So are `log`,
      `stamp` (position of its validateAll in State.starts), `ver` (its committed
      version) and `past` (everything it transitively read from, and itself). */
  datatype TxState = TxState(
    node: Node,
    phase: Phase,
    rs: map<Obj, Entry>,
    ws: map<Obj, Entry>,
    vc: map<Node, nat>,
    log: seq<Op>,
    stamp: nat,
    ver: nat,
    past: set<Tx>)
  {
    predicate Has(x: Obj) { x in rs || x in ws }

    function Ent(x: Obj): Entry
      requires Has(x)
    {
      if x in ws then ws[x] else rs[x]
    }

    /** An entry has been read and is not yet in a set. */
    predicate Admitting() { phase.Raising? || phase.RaisingCas? || phase.Checking? }

    function Vc(n: Node): nat { if n in vc then vc[n] else 0 }

    /** The locks a transaction holds. */
    predicate Holds(x: Obj) {
      match phase
      case Locking(requests) => x in requests && requests[x].Granted?
      case Releasing(todo) => x in todo
      case Validating(_) => x in ws
      case Writing(_) => x in ws
      case Ticking => x in ws
      case TickingCas(_) => x in ws
      case Unlocking(todo) => x in todo
      case _ => false
    }

    /** Its program has finished: commit is under way or over. */
    predicate Committing() { phase.Locking? || phase.Releasing? || Started() }

    /** It has begun validateAll and not failed it. */
    predicate Started() { phase.Validating? || Decided() }

    /** It has passed validateAll. */
    predicate Decided() { phase.Writing? || phase.Ticking? || phase.TickingCas? || Published() }

    /** It owns its commit version. */
    predicate Published() { phase.Unlocking? || phase.Done? }

    /** abort: both sets are dropped and the transaction starts over. */
    function Aborted(): TxState {
      this.(phase := Active, rs := map[], ws := map[], log := [])
    }

    function CommitWord(): Word { Word(false, node, ver) }
  }

  const IDLE: TxState := TxState(0, Idle, map[], map[], map[], [], 0, 0, {})

  // ---------- Shared state ----------

  /** `init`, `last` (who committed the version in a lock word) and `starts` (the
      order in which validateAll was begun) are history. */
  datatype State = State(
    lock: map<Obj, Word>,
    mem: Memory,
    clock: map<Node, nat>,
    txs: map<Tx, TxState>,
    init: Memory,
    last: map<Obj, Origin>,
    starts: seq<Tx>)
  {
    function Lock(x: Obj): Word { if x in lock then lock[x] else ZERO_WORD }

    function Clock(n: Node): nat { if n in clock then clock[n] else 0 }

    function At(t: Tx): TxState { if t in txs then txs[t] else IDLE }

    function Last(x: Obj): Origin { if x in last then last[x] else Initial }

    /** Transaction t becomes T and shared memory changes by one effect. */
    function After(t: Tx, T: TxState, eff: Effect): State {
      State(
        if eff.SetLock? then lock[eff.x := eff.w] else lock,
        if eff.SetCell? then mem[eff.x := BlockAt(mem, eff.x)[eff.i := eff.v]] else mem,
        if eff.SetClock? then clock[T.node := eff.c] else clock,
        txs[t := T],
        init,
        if eff.SetLock? then last[eff.x := eff.o] else last,
        if eff.Start? then starts + [t] else starts)
    }
  }

  /** What one step does to shared state: nothing, one lock word (with the origin
      of the version in it), one data word, the clock of the transaction's node,
      or the history of validation starts. */
  datatype Effect =
    | Nothing
    | SetLock(x: Obj, w: Word, o: Origin)
    | SetCell(x: Obj, i: CellIndex, v: Val)
    | SetClock(c: nat)
    | Start

  predicate Init(s: State) {
    s.lock == map[] && s.clock == map[] && s.txs == map[] && s.last == map[] && s.starts == [] && s.mem == s.init
  }

  // ---------- Steps ----------

  /** Who moves is given apart; an action names what the transaction (or, for the
      two Server actions, the home node on its behalf) does next. */
  datatype Action =
    | Begin(n: Node) | Restart | Rollback | Commit
    | Do(acc: Access)
    | ReadFirst | CopyWord(i: nat) | ReadSecond
    | ReadClock | CasClock
    | Check(x: Obj) | Admit
    | SendBatch(batch: set<Obj>) | ServerLoad(x: Obj) | ServerCas(x: Obj) | EndBatch
    | PutBack(x: Obj) | EndRelease
    | Validate(x: Obj) | Decide
    | WriteWord(x: Obj, i: nat) | EndWrite
    | ReadTick | CasTick
    | Unlock(x: Obj) | Finish

  /** The new state of the moving transaction and the effect, or Blocked. */
  datatype Outcome = Blocked | To(T: TxState, eff: Effect)

  /** An access to a private copy. */
  function Apply(acc: Access, e: Entry): Entry {
    match acc
    case Load(_, _) => e
    case Store(_, i, v) => e.(cur := e.cur[i := v])
  }

  function Record(acc: Access, e: Entry): Op {
    match acc
    case Load(x, i) => Loaded(x, i, e.cur[i])
    case Store(x, i, v) => Stored(x, i, v)
  }

  /** read and write, when the block is in one of the sets; otherwise readCell starts. */
  function AccessStep(T: TxState, acc: Access): Outcome {
    if acc.x in T.ws then
      var e := T.ws[acc.x];
      To(T.(ws := T.ws[acc.x := Apply(acc, e)], log := T.log + [Record(acc, e)]), Nothing)
    else if acc.x in T.rs then
      var e := T.rs[acc.x];
      var T1 := T.(log := T.log + [Record(acc, e)]);
      To(if acc.Load? then T1 else T1.(rs := T.rs - {acc.x}, ws := T.ws[acc.x := Apply(acc, e)]), Nothing)
    else
      To(T.(phase := Fetching(acc)), Nothing)
  }

  /** validateAll begins. */
  function StartValidation(s: State, T: TxState): Outcome {
    To(T.(phase := Validating(T.rs.Keys), stamp := |s.starts|), Start)
  }

  function ActiveStep(s: State, T: TxState, act: Action): Outcome {
    match act
    case Do(acc) => AccessStep(T, acc)
    case Restart => if T.rs == map[] && T.ws == map[] then To(T.(vc := map[]), Nothing) else Blocked
    case Rollback => To(T.Aborted(), Nothing)
    case Commit =>
      if T.ws == map[] then StartValidation(s, T) else To(T.(phase := Locking(map x | x in T.ws :: Left)), Nothing)
    case _ => Blocked
  }

  predicate Full(buf: map<nat, Val>) { forall i :: 0 <= i < BLOCK_WORDS ==> i in buf }

  function BufBlock(buf: map<nat, Val>): Block
    requires Full(buf)
  {
    [buf[0], buf[1], buf[2], buf[3], buf[4], buf[5], buf[6], buf[7]]
  }

  /** readCell: lock word, the eight data words in any order, lock word again. */
  function ReadCellStep(s: State, T: TxState, act: Action): Outcome
    requires T.phase.Fetching? || T.phase.Copying?
  {
    var acc := T.phase.acc;
    var w := s.Lock(acc.x);
    if T.phase.Fetching? && act.ReadFirst? then
      To(if w.locked then T.Aborted() else T.(phase := Copying(acc, w, map[])), Nothing)
    else if T.phase.Copying? && act.CopyWord? && act.i < BLOCK_WORDS && act.i !in T.phase.buf then
      To(T.(phase := Copying(acc, T.phase.first, T.phase.buf[act.i := BlockAt(s.mem, acc.x)[act.i]])), Nothing)
    else if T.phase.Copying? && act.ReadSecond? && Full(T.phase.buf) then
      To(if w.locked then T.Aborted()
         else if !T.phase.first.Equivalent(w) then T.(phase := Fetching(acc))
         else T.(phase := Raising(acc, Entry(T.phase.first, BufBlock(T.phase.buf), BufBlock(T.phase.buf), s.Last(acc.x)))),
         Nothing)
    else Blocked
  }

  /** The entries `validate` must look up when a version newer than VC was read:
      those whose version is older than the one just read. */
  function ToCheck(T: TxState, w: Word): set<Obj> {
    if w.ver > T.Vc(w.node)
    then set x | x in T.rs.Keys + T.ws.Keys && w.Newer(T.Ent(x).word)
    else {}
  }

  /** increaseClock: one turn of its compare-and-swap loop is two steps. */
  function IncreaseClockStep(s: State, T: TxState, act: Action): Outcome
    requires T.phase.Raising? || T.phase.RaisingCas?
  {
    var acc, e := T.phase.acc, T.phase.e;
    var raised := T.(phase := Checking(acc, e, ToCheck(T, e.word)));
    if T.phase.Raising? && act.ReadClock? then
      To(if e.word.ver > s.Clock(T.node) then T.(phase := RaisingCas(acc, e, s.Clock(T.node))) else raised, Nothing)
    else if T.phase.RaisingCas? && act.CasClock? then
      if s.Clock(T.node) == T.phase.seen then To(raised, SetClock(e.word.ver)) else To(T.(phase := Raising(acc, e)), Nothing)
    else Blocked
  }

  /** The word found at home: is it still the version of the entry? */
  predicate Intact(s: State, x: Obj, e: Entry) {
    !s.Lock(x).locked && !s.Lock(x).Newer(e.word)
  }

  function Admitted(T: TxState): TxState
    requires T.phase.Checking?
  {
    var acc, e := T.phase.acc, T.phase.e;
    var T1 := T.(phase := Active, log := T.log + [Record(acc, e)],
                 vc := if e.word.ver > T.Vc(e.word.node) then T.vc[e.word.node := e.word.ver] else T.vc);
    if acc.Load? then T1.(rs := T.rs[acc.x := e]) else T1.(ws := T.ws[acc.x := Apply(acc, e)])
  }

  /** validate, one entry at a time, then the access itself. */
  function ValidateStep(s: State, T: TxState, act: Action): Outcome
    requires T.phase.Checking?
  {
    if act.Check? && act.x in T.phase.todo && T.Has(act.x) then
      To(if Intact(s, act.x, T.Ent(act.x)) then T.(phase := Checking(T.phase.acc, T.phase.e, T.phase.todo - {act.x}))
         else T.Aborted(),
         Nothing)
    else if act.Admit? && T.phase.todo == {} then To(Admitted(T), Nothing)
    else Blocked
  }

  /** No message is under way and no entry was refused. */
  predicate AllAnsweredOrLeft(r: map<Obj, Request>) {
    forall x :: x in r ==> r[x].Left? || r[x].Granted?
  }

  /** getLocks on the transaction's node: a batch is sent, and when all have answered
      the transaction goes on, validates, or gives up. */
  function GetLocksStep(s: State, T: TxState, act: Action): Outcome
    requires T.phase.Locking?
  {
    var r := T.phase.requests;
    match act
    case SendBatch(batch) =>
      if batch != {} && AllAnsweredOrLeft(r) && (forall x :: x in batch ==> x in r && r[x].Left?)
      then To(T.(phase := Locking(map x | x in r :: if x in batch then Sent else r[x])), Nothing) else Blocked
    case EndBatch =>
      if exists x :: x in r && (r[x].Sent? || r[x].Seen?) then Blocked
      else if exists x :: x in r && r[x].Refused? then To(T.(phase := Releasing(set x | x in r && r[x].Granted?)), Nothing)
      else if forall x :: x in r ==> !r[x].Left? then StartValidation(s, T)
      else Blocked
    case _ => Blocked
  }

  /** processLocksRequest on the home node: the lock word is read, compared, and swapped. */
  function ServerStep(s: State, T: TxState, act: Action): Outcome
    requires T.phase.Locking?
  {
    var r := T.phase.requests;
    match act
    case ServerLoad(x) =>
      if x in r && r[x].Sent? then To(T.(phase := Locking(r[x := Seen(s.Lock(x))])), Nothing) else Blocked
    case ServerCas(x) =>
      if x in r && r[x].Seen? && x in T.ws then
        var e := T.ws[x];
        if r[x].w.RawGreater(e.word) || s.Lock(x) != r[x].w
        then To(T.(phase := Locking(r[x := Refused])), Nothing)
        else To(T.(phase := Locking(r[x := Granted])), SetLock(x, e.word.Locked(), e.origin))
      else Blocked
    case _ => Blocked
  }

  /** releaseLocks, then abort. */
  function ReleaseLocksStep(T: TxState, act: Action): Outcome
    requires T.phase.Releasing?
  {
    if act.PutBack? && act.x in T.phase.todo && act.x in T.ws then
      To(T.(phase := Releasing(T.phase.todo - {act.x})), SetLock(act.x, T.ws[act.x].word, T.ws[act.x].origin))
    else if act.EndRelease? && T.phase.todo == {} then To(T.Aborted(), Nothing)
    else Blocked
  }

  function ValidateAllStep(s: State, T: TxState, act: Action): Outcome
    requires T.phase.Validating?
  {
    if act.Validate? && act.x in T.phase.todo && act.x in T.rs then
      To(T.(phase := if Intact(s, act.x, T.rs[act.x]) then Validating(T.phase.todo - {act.x}) else Releasing(T.ws.Keys)), Nothing)
    else if act.Decide? && T.phase.todo == {} then
      To(T.(phase := Writing(set x, i | x in T.ws.Keys && 0 <= i < BLOCK_WORDS :: (x, i))), Nothing)
    else Blocked
  }

  /** commitWriteSetValues, word by word in any order. */
  function WriteBackStep(T: TxState, act: Action): Outcome
    requires T.phase.Writing?
  {
    if act.WriteWord? && (act.x, act.i) in T.phase.cells && act.x in T.ws && act.i < BLOCK_WORDS then
      To(T.(phase := Writing(T.phase.cells - {(act.x, act.i)})), SetCell(act.x, act.i, T.ws[act.x].cur[act.i]))
    else if act.EndWrite? && T.phase.cells == {} then To(T.(phase := Ticking), Nothing)
    else Blocked
  }

  /** Everything the entries of a transaction were, transitively, read from. */
  function PastOf(s: State, t: Tx, T: TxState): set<Tx> {
    {t} + set x, u | x in T.rs.Keys + T.ws.Keys && T.Ent(x).origin.By? && u in s.At(T.Ent(x).origin.tx).past :: u
  }

  /** getNextClock: one turn of its compare-and-swap loop is two steps. */
  function NextClockStep(s: State, t: Tx, T: TxState, act: Action): Outcome
    requires T.phase.Ticking? || T.phase.TickingCas?
  {
    if T.phase.Ticking? && act.ReadTick? then To(T.(phase := TickingCas(s.Clock(T.node))), Nothing)
    else if T.phase.TickingCas? && act.CasTick? then
      if s.Clock(T.node) == T.phase.seen
      then To(T.(phase := Unlocking(T.ws.Keys), ver := T.phase.seen + 1, past := PastOf(s, t, T)), SetClock(T.phase.seen + 1))
      else To(T.(phase := Ticking), Nothing)
    else Blocked
  }

  /** The rest of releaseLocksWithNewClock: one put per lock word. */
  function UnlockStep(t: Tx, T: TxState, act: Action): Outcome
    requires T.phase.Unlocking?
  {
    if act.Unlock? && act.x in T.phase.todo then
      To(T.(phase := Unlocking(T.phase.todo - {act.x})), SetLock(act.x, T.CommitWord(), By(t)))
    else if act.Finish? && T.phase.todo == {} then To(T.(phase := Done), Nothing)
    else Blocked
  }

  function Step(s: State, t: Tx, act: Action): Outcome {
    var T := s.At(t);
    match T.phase
    case Idle => if act.Begin? then To(T.(phase := Active, node := act.n), Nothing) else Blocked
    case Active => ActiveStep(s, T, act)
    case Fetching(_) => ReadCellStep(s, T, act)
    case Copying(_, _, _) => ReadCellStep(s, T, act)
    case Raising(_, _) => IncreaseClockStep(s, T, act)
    case RaisingCas(_, _, _) => IncreaseClockStep(s, T, act)
    case Checking(_, _, _) => ValidateStep(s, T, act)
    case Locking(_) => if act.ServerLoad? || act.ServerCas? then ServerStep(s, T, act) else GetLocksStep(s, T, act)
    case Releasing(_) => ReleaseLocksStep(T, act)
    case Validating(_) => ValidateAllStep(s, T, act)
    case Writing(_) => WriteBackStep(T, act)
    case Ticking => NextClockStep(s, t, T, act)
    case TickingCas(_) => NextClockStep(s, t, T, act)
    case Unlocking(_) => UnlockStep(t, T, act)
    case Done => Blocked
  }

  predicate Next(s: State, t: Tx, act: Action, s': State) {
    var out := Step(s, t, act);
    out.To? && s' == s.After(t, out.T, out.eff)
  }

  ghost predicate CanStep(s: State, s': State) {
    exists t, act :: Next(s, t, act, s')
  }

  /** A run, from an initial state. */
  ghost predicate Run(run: seq<State>) {
    && |run| > 0
    && Init(run[0])
    && forall k :: 0 < k < |run| ==> CanStep(run[k - 1], run[k])
  }

  /** Hypothesis H: for each object, all committed version words carry the same node field. */
  ghost predicate SingleWriterNode(s: State) {
    forall t1, t2, x {:trigger x in s.At(t1).ws, x in s.At(t2).ws} ::
      s.At(t1).Published() && s.At(t2).Published() && x in s.At(t1).ws && x in s.At(t2).ws ==> s.At(t1).node == s.At(t2).node
  }
}
