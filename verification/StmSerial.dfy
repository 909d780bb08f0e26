/** Under hypothesis H every run is serializable: the transactions that passed
    validateAll, in the order in which they began it, replay one after the other to
    exactly the values each of them loaded and to the final memory. */
module StmSerial {
  import opened Timestamps
  import opened StmModel
  import opened StmMoves
  import opened StmLocks
  import opened StmVersions
  import opened StmValues
  import opened StmOrder

  // ---------- Serial execution ----------

  /** Memory after operations that all returned what the log says, or Wrong. */
  datatype Replayed = Wrong | Ok(m: Memory)

  function ReplayOp(m: Memory, op: Op): Replayed {
    match op
    case Loaded(x, i, v) => if BlockAt(m, x)[i] == v then Ok(m) else Wrong
    case Stored(x, i, v) => Ok(m[x := BlockAt(m, x)[i := v]])
  }

  /** One transaction alone, from memory m. */
  function Replay(m: Memory, log: seq<Op>): Replayed {
    if log == [] then Ok(m)
    else match Replay(m, log[..|log| - 1])
         case Wrong => Wrong
         case Ok(m1) => ReplayOp(m1, log[|log| - 1])
  }

  /** Transactions one after the other. */
  function ReplayAll(s: State, m: Memory, order: seq<Tx>): Replayed {
    if order == [] then Ok(m)
    else match ReplayAll(s, m, order[..|order| - 1])
         case Wrong => Wrong
         case Ok(m1) => Replay(m1, s.At(order[|order| - 1]).log)
  }

  /** The validation start at position i is the one with which its transaction committed. */
  predicate Commits(s: State, i: nat)
    requires i < |s.starts|
  {
    s.At(s.starts[i]).Decided() && s.At(s.starts[i]).stamp == i
  }

  /** The committed transactions among the first n validation starts. */
  function SerialOrder(s: State, n: nat): seq<Tx>
    requires n <= |s.starts|
  {
    if n == 0 then [] else SerialOrder(s, n - 1) + if Commits(s, n - 1) then [s.starts[n - 1]] else []
  }

  // ---------- Logs ----------

  ghost predicate Agrees(m: Memory, T: TxState) {
    forall x {:trigger T.Has(x)} :: T.Has(x) ==> BlockAt(m, x) == T.Ent(x).base
  }

  /** m with the write set of T applied. */
  ghost predicate Applied(m: Memory, T: TxState, m': Memory) {
    forall x :: BlockAt(m', x) == if x in T.ws then T.ws[x].cur else BlockAt(m, x)
  }

  ghost predicate ReplaysFrom(m: Memory, T: TxState) {
    var r := Replay(m, T.log);
    r.Ok? && Applied(m, T, r.m)
  }

  /** From any memory that agrees with its snapshots, the transaction run alone loads
      what it loaded and leaves its write set. */
  ghost predicate LogExplained(T: TxState) {
    forall m :: Agrees(m, T) ==> ReplaysFrom(m, T)
  }

  ghost predicate Logs(s: State) {
    forall t :: LogExplained(s.At(t))
  }

  lemma ReplayAppend(m: Memory, log: seq<Op>, op: Op)
    ensures Replay(m, log + [op]) == match Replay(m, log) case Wrong => Wrong case Ok(m1) => ReplayOp(m1, op)
  {
    assert (log + [op])[..|log|] == log;
  }

  /** Replaying an access on a memory that has its block does what the access did. */
  lemma RecordReplays(m: Memory, acc: Access, e: Entry)
    requires BlockAt(m, acc.x) == e.cur
    ensures var r := ReplayOp(m, Record(acc, e));
            r.Ok? && forall x {:trigger BlockAt(r.m, x)} :: BlockAt(r.m, x) == if x == acc.x then Apply(acc, e).cur else BlockAt(m, x)
  {
  }

  ghost predicate KeepsSnapshots(T: TxState, T': TxState) {
    forall x {:trigger T.Has(x)} :: T.Has(x) ==> T'.Has(x) && T'.Ent(x).base == T.Ent(x).base
  }

  lemma AccessExplained(T: TxState, acc: Access)
    requires SetsShape(T.rs, T.ws) && T.Has(acc.x) && LogExplained(T)
    ensures LogExplained(AccessStep(T, acc).T)
  {
    var T', e := AccessStep(T, acc).T, T.Ent(acc.x);
    assert T'.log == T.log + [Record(acc, e)];
    assert T'.ws == if acc.x in T.ws || acc.Store? then T.ws[acc.x := Apply(acc, e)] else T.ws;
    assert KeepsSnapshots(T, T');
    forall m | Agrees(m, T') ensures ReplaysFrom(m, T') {
      assert Agrees(m, T);
      assert ReplaysFrom(m, T);
      assert BlockAt(Replay(m, T.log).m, acc.x) == e.cur by { assert T.Has(acc.x); }
      RecordReplays(Replay(m, T.log).m, acc, e);
      ReplayAppend(m, T.log, Record(acc, e));
    }
  }

  lemma AdmitExplained(T: TxState)
    requires Shape(T) && T.phase.Checking? && LogExplained(T)
    ensures LogExplained(Admitted(T))
  {
    var T', acc, e := Admitted(T), T.phase.acc, T.phase.e;
    forall m | Agrees(m, T') ensures ReplaysFrom(m, T') {
      assert forall x :: T.Has(x) ==> T'.Has(x) && T'.Ent(x).base == T.Ent(x).base;
      assert Agrees(m, T);
      assert ReplaysFrom(m, T);
      assert T'.Has(acc.x) && T'.Ent(acc.x).base == e.base;
      ReplayAppend(m, T.log, Record(acc, e));
    }
  }

  lemma SameExplained(T: TxState, T': TxState)
    requires LogExplained(T) && T'.rs == T.rs && T'.ws == T.ws && T'.log == T.log
    ensures LogExplained(T')
  {
    forall m | Agrees(m, T') ensures ReplaysFrom(m, T') {
      assert forall x :: T.Has(x) ==> T'.Has(x) && T'.Ent(x) == T.Ent(x);
      assert Agrees(m, T);
      assert ReplaysFrom(m, T);
    }
  }

  lemma LogsStep(s: State, t: Tx, act: Action, s': State)
    requires Shapes(s) && Logs(s) && Next(s, t, act, s')
    ensures Logs(s')
  {
    var To(T', eff) := Step(s, t, act);
    var T := s.At(t);
    AfterChanged(s, t, T', eff);
    StepMoves(s, t, act);
    assert Shape(T) && LogExplained(T);
    if T'.rs == T.rs && T'.ws == T.ws && T'.log == T.log {
      SameExplained(T, T');
    } else if T'.rs == map[] && T'.ws == map[] && T'.log == [] {
    } else if T.phase.Active? {
      var acc: Access :| T.Has(acc.x) && AccessStep(T, acc).To? && T' == AccessStep(T, acc).T;
      AccessExplained(T, acc);
    } else {
      AdmitExplained(T);
    }
  }

  // ---------- The serial order ----------

  /** Who wrote x last among the committed transactions of the first n validation starts. */
  function LastWriter(s: State, x: Obj, n: nat): Origin
    requires n <= |s.starts|
  {
    if n == 0 then Initial
    else if Commits(s, n - 1) && x in s.At(s.starts[n - 1]).ws then By(s.starts[n - 1])
    else LastWriter(s, x, n - 1)
  }

  lemma {:induction false} LastWriterIsLast(s: State, x: Obj, n: nat)
    requires n <= |s.starts| && Stamps(s)
    ensures match LastWriter(s, x, n)
            case Initial => forall w {:trigger x in s.At(w).ws} :: s.At(w).Decided() && x in s.At(w).ws ==> s.At(w).stamp >= n
            case By(u) =>
              && s.At(u).Decided() && x in s.At(u).ws && s.At(u).stamp < n
              && forall w {:trigger x in s.At(w).ws} :: s.At(w).Decided() && x in s.At(w).ws && s.At(w).stamp < n ==> s.At(w).stamp <= s.At(u).stamp
  {
    if n > 0 {
      LastWriterIsLast(s, x, n - 1);
    }
  }

  ghost predicate SerialInv(s: State) {
    LocksInv(s) && VersionsInv(s) && ValuesInv(s) && OrderInv(s) && Logs(s)
  }

  /** Of two committed writers of x the one that validates first has the older version. */
  lemma WritersInOrder(s: State, u: Tx, w: Tx, x: Obj)
    requires Covered(s) && EarlierIsRead(s)
    requires s.At(u).Decided() && s.At(w).Decided() && x in s.At(u).ws && x in s.At(w).ws && s.At(u).stamp < s.At(w).stamp
    ensures s.At(u).Published() && s.At(u).ver <= s.At(w).ws[x].word.ver
    ensures s.At(w).Published() ==> s.At(u).ver < s.At(w).ver
  {
    assert Confirmed(s.At(w), x) && s.At(w).Has(x);
  }

  /** What a committed transaction read of x is what the transactions before it in
      the serial order left there. */
  lemma ReadsLastWriter(s: State, t: Tx, x: Obj)
    requires LocksInv(s) && OrderInv(s) && s.At(t).Decided() && s.At(t).Has(x)
    ensures s.At(t).stamp <= |s.starts| && LastWriter(s, x, s.At(t).stamp) == s.At(t).Ent(x).origin
  {
    var e := s.At(t).Ent(x);
    var o := LastWriter(s, x, s.At(t).stamp);
    LastWriterIsLast(s, x, s.At(t).stamp);
    assert Confirmed(s.At(t), x) && Version(s, x, e.origin, e.word);
    if e.origin.By? {
      var u := e.origin.tx;
      assert u != t && s.At(u).stamp < s.At(t).stamp;
      if o != e.origin {
        WritersInOrder(s, u, o.tx, x);
      }
    }
  }

  lemma LastWriterIs(s: State, x: Obj, o: Origin)
    requires Stamps(s)
    requires match o
             case Initial => forall w {:trigger x in s.At(w).ws} :: s.At(w).Decided() ==> x !in s.At(w).ws
             case By(u) =>
               && s.At(u).Decided() && x in s.At(u).ws
               && forall w {:trigger x in s.At(w).ws} :: s.At(w).Decided() && x in s.At(w).ws ==> s.At(w).stamp <= s.At(u).stamp
    ensures LastWriter(s, x, |s.starts|) == o
  {
    LastWriterIsLast(s, x, |s.starts|);
  }

  /** The holder that will publish x comes last among its writers. */
  lemma HolderIsLast(s: State, t: Tx, x: Obj, w: Tx)
    requires Exclusive(s) && Covered(s) && Released(s) && EarlierIsRead(s)
    requires s.At(t).Decided() && s.At(t).Holds(x) && s.At(w).Decided() && x in s.At(w).ws
    ensures s.At(w).stamp <= s.At(t).stamp
  {
    assert x in s.At(t).ws && s.At(t).Has(x);
    if s.At(t).stamp < s.At(w).stamp {
      WritersInOrder(s, t, w, x);
      ReleasedIsPublished(s, w, x);
    }
  }

  /** The transaction that committed the version at home comes last among the writers
      of x when none of them still holds it. */
  lemma PublisherIsLast(s: State, x: Obj, w: Tx)
    requires Clocks(s) && Covered(s) && Origins(s) && Released(s) && EarlierIsRead(s)
    requires !Overwriting(s, x) && s.At(w).Decided() && x in s.At(w).ws
    ensures s.Last(x).By? && s.At(w).stamp <= s.At(s.Last(x).tx).stamp
  {
    assert Version(s, x, s.Last(x), s.Lock(x).Unlocked());
    ReleasedIsPublished(s, w, x);
    if s.At(s.Last(x).tx).stamp < s.At(w).stamp {
      WritersInOrder(s, s.Last(x).tx, w, x);
    }
  }

  lemma LastWriterHolds(s: State, t: Tx, x: Obj)
    requires LocksInv(s) && VersionsInv(s) && OrderInv(s) && s.At(t).Decided() && s.At(t).Holds(x)
    ensures x in s.At(t).ws && LastWriter(s, x, |s.starts|) == By(t)
  {
    forall w | s.At(w).Decided() && x in s.At(w).ws { HolderIsLast(s, t, x, w); }
    LastWriterIs(s, x, By(t));
  }

  lemma LastWriterAtHome(s: State, x: Obj)
    requires LocksInv(s) && VersionsInv(s) && OrderInv(s) && !Overwriting(s, x)
    ensures LastWriter(s, x, |s.starts|) == s.Last(x)
  {
    assert Version(s, x, s.Last(x), s.Lock(x).Unlocked());
    forall w | s.At(w).Decided() && x in s.At(w).ws
      ensures s.Last(x).By? && s.At(w).stamp <= s.At(s.Last(x).tx).stamp
    {
      PublisherIsLast(s, x, w);
    }
    LastWriterIs(s, x, s.Last(x));
  }

  // ---------- Serializability ----------

  /** m holds, of every block, what its last writer among the first n left there. */
  ghost predicate LeftByLast(s: State, m: Memory, n: nat)
    requires n <= |s.starts|
  {
    forall x {:trigger BlockAt(m, x)} :: BlockAt(m, x) == ValueOf(s, x, LastWriter(s, x, n))
  }

  /** A transaction that committed may run alone after those before it. */
  lemma NextInOrder(s: State, m: Memory, n: nat)
    requires SerialInv(s) && n < |s.starts| && Commits(s, n) && LeftByLast(s, m, n)
    ensures ReplaysFrom(m, s.At(s.starts[n])) && LeftByLast(s, Replay(m, s.At(s.starts[n]).log).m, n + 1)
  {
    var T := s.At(s.starts[n]);
    forall x | T.Has(x) ensures BlockAt(m, x) == T.Ent(x).base {
      ReadsLastWriter(s, s.starts[n], x);
    }
    assert Agrees(m, T) && LogExplained(T);
    assert ReplaysFrom(m, T);
    var m' := Replay(m, T.log).m;
    forall x ensures BlockAt(m', x) == ValueOf(s, x, LastWriter(s, x, n + 1)) {
      assert BlockAt(m, x) == ValueOf(s, x, LastWriter(s, x, n));
    }
  }

  lemma ReplayAllAppend(s: State, m: Memory, order: seq<Tx>, t: Tx)
    ensures ReplayAll(s, m, order + [t])
         == match ReplayAll(s, m, order) case Wrong => Wrong case Ok(m1) => Replay(m1, s.At(t).log)
  {
    assert (order + [t])[..|order|] == order;
  }

  /** The first n validation starts replay, and leave what their last writers wrote. */
  ghost predicate Replays(s: State, n: nat)
    requires n <= |s.starts|
  {
    var r := ReplayAll(s, s.init, SerialOrder(s, n));
    r.Ok? && LeftByLast(s, r.m, n)
  }

  lemma NextReplays(s: State, n: nat)
    requires SerialInv(s) && n < |s.starts| && Commits(s, n) && Replays(s, n)
    ensures Replays(s, n + 1)
  {
    var m := ReplayAll(s, s.init, SerialOrder(s, n)).m;
    NextInOrder(s, m, n);
    ReplayAllAppend(s, s.init, SerialOrder(s, n), s.starts[n]);
  }

  lemma NoneReplays(s: State, n: nat)
    requires n < |s.starts| && !Commits(s, n) && Replays(s, n)
    ensures Replays(s, n + 1)
  {
    assert SerialOrder(s, n + 1) == SerialOrder(s, n);
    var m := ReplayAll(s, s.init, SerialOrder(s, n)).m;
    forall x ensures BlockAt(m, x) == ValueOf(s, x, LastWriter(s, x, n + 1)) {
      assert LastWriter(s, x, n + 1) == LastWriter(s, x, n);
    }
  }

  /** Every further validation start keeps the replay going. */
  ghost predicate ReplaysOn(s: State) {
    forall i {:trigger Commits(s, i)} :: 0 <= i < |s.starts| && Replays(s, i) ==> Replays(s, i + 1)
  }

  lemma {:induction false} ReplayPrefix(s: State, n: nat)
    requires ReplaysOn(s) && n <= |s.starts|
    ensures Replays(s, n)
  {
    if n > 0 {
      ReplayPrefix(s, n - 1);
      var committed := Commits(s, n - 1);
    }
  }

  lemma ReplaysEverything(s: State)
    requires SerialInv(s)
    ensures Replays(s, |s.starts|)
  {
    forall i | 0 <= i < |s.starts| && Replays(s, i) ensures Replays(s, i + 1) {
      if Commits(s, i) { NextReplays(s, i); } else { NoneReplays(s, i); }
    }
    assert ReplaysOn(s);
    ReplayPrefix(s, |s.starts|);
  }

  /** Where no committed transaction still holds the block, m and the shared memory
      agree; elsewhere m has the block its holder is writing back. */
  ghost predicate Settles(s: State, m: Memory) {
    && (forall x {:trigger BlockAt(m, x)} :: Overwriting(s, x) || BlockAt(m, x) == BlockAt(s.mem, x))
    && (forall t, x {:trigger s.At(t).Holds(x)} :: s.At(t).Decided() && s.At(t).Holds(x) ==> x in s.At(t).ws && BlockAt(m, x) == s.At(t).ws[x].cur)
  }

  /** The serial replay of all committed transactions loads what they loaded, and
      ends with the shared memory once the write-backs under way are done. */
  ghost predicate Serializable(s: State) {
    var r := ReplayAll(s, s.init, SerialOrder(s, |s.starts|));
    r.Ok? && Settles(s, r.m)
  }

  lemma LastValuesSettle(s: State, m: Memory)
    requires SerialInv(s) && LeftByLast(s, m, |s.starts|)
    ensures Settles(s, m)
  {
    forall x | !Overwriting(s, x) ensures BlockAt(m, x) == BlockAt(s.mem, x) {
      LastWriterAtHome(s, x);
      assert BlockAt(m, x) == ValueOf(s, x, s.Last(x));
    }
    forall t, x | s.At(t).Decided() && s.At(t).Holds(x)
      ensures x in s.At(t).ws && BlockAt(m, x) == s.At(t).ws[x].cur
    {
      LastWriterHolds(s, t, x);
      assert BlockAt(m, x) == ValueOf(s, x, By(t));
    }
  }

  lemma SerializableState(s: State)
    requires SerialInv(s)
    ensures Serializable(s)
  {
    ReplaysEverything(s);
    LastValuesSettle(s, ReplayAll(s, s.init, SerialOrder(s, |s.starts|)).m);
  }
}
