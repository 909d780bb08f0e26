/** A transaction reads its own stores: its sets, its private copies and the values of its loads follow from its
    log and from the blocks it has read. */
module StmCopies {
  import opened StmModel
  import opened StmLocks
  import opened StmTheorems
  import opened StmSerial
  import opened StmPrograms

  // ---------- The log determines the sets and the copies ----------

  predicate Mentions(log: seq<Op>, x: Obj) { exists j :: 0 <= j < |log| && log[j].x == x }

  predicate Writes(log: seq<Op>, x: Obj) { exists j :: 0 <= j < |log| && log[j].Stored? && log[j].x == x }

  /** Word i of block x after the stores of a log: the last value stored there, or what was read. */
  function WordAfter(log: seq<Op>, x: Obj, i: CellIndex, read: Val): Val {
    if log == [] then read
    else var last := log[|log| - 1];
         if last.Stored? && last.x == x && last.i == i then last.v else WordAfter(log[..|log| - 1], x, i, read)
  }

  /** The sets hold the blocks of the log, the write set those stored to; the copies hold the last values
      stored; and every load returned the last value stored before it, or the word read at home. */
  ghost predicate Determined(T: TxState) {
    && (forall x {:trigger T.Has(x)} :: T.Has(x) <==> Mentions(T.log, x))
    && (forall x {:trigger x in T.ws} :: x in T.ws <==> Writes(T.log, x))
    && (forall x, i: CellIndex {:trigger T.Ent(x).cur[i]} :: T.Has(x) ==> T.Ent(x).cur[i] == WordAfter(T.log, x, i, T.Ent(x).base[i]))
    && (forall j: nat {:trigger LoadedRight(T, j)} :: j < |T.log| ==> LoadedRight(T, j))
  }

  ghost predicate LoadedRight(T: TxState, j: nat)
    requires j < |T.log|
  {
    var op := T.log[j];
    op.Loaded? ==> T.Has(op.x) && op.v == WordAfter(T.log[..j], op.x, op.i, T.Ent(op.x).base[op.i])
  }

  lemma WordAppend(log: seq<Op>, op: Op, x: Obj, i: CellIndex, read: Val)
    ensures WordAfter(log + [op], x, i, read) == if op.Stored? && op.x == x && op.i == i then op.v else WordAfter(log, x, i, read)
  {
    assert (log + [op])[..|log|] == log;
  }

  lemma MentionedBefore(log: seq<Op>, x: Obj)
    requires log != []
    ensures Mentions(log[..|log| - 1], x) ==> Mentions(log, x)
  {
    if Mentions(log[..|log| - 1], x) {
      var j :| 0 <= j < |log| - 1 && log[..|log| - 1][j].x == x;
      assert log[j].x == x;
    }
  }

  lemma {:induction false} Unstored(log: seq<Op>, x: Obj, i: CellIndex, read: Val)
    requires !Mentions(log, x)
    ensures WordAfter(log, x, i, read) == read
  {
    if log != [] {
      assert log[|log| - 1].x != x;
      MentionedBefore(log, x);
      Unstored(log[..|log| - 1], x, i, read);
    }
  }

  lemma MentionsAppend(log: seq<Op>, op: Op, x: Obj)
    ensures Mentions(log + [op], x) <==> Mentions(log, x) || op.x == x
    ensures Writes(log + [op], x) <==> Writes(log, x) || (op.Stored? && op.x == x)
  {
    var more := log + [op];
    assert more[|log|] == op;
    if Mentions(log, x) {
      var j :| 0 <= j < |log| && log[j].x == x;
      assert more[j].x == x;
    }
    if Writes(log, x) {
      var j :| 0 <= j < |log| && log[j].Stored? && log[j].x == x;
      assert more[j].x == x;
    }
  }

  lemma DoneCopies(acc: Access, T: TxState, T': TxState, op: Op)
    requires Determined(T) && Does(acc, T, T') && T'.log == T.log + [op]
    ensures forall x {:trigger T'.Has(x)} :: T'.Has(x) <==> Mentions(T'.log, x)
    ensures forall x {:trigger x in T'.ws} :: x in T'.ws <==> Writes(T'.log, x)
    ensures forall x, i: CellIndex {:trigger T'.Ent(x).cur[i]} :: T'.Has(x) ==>
      T'.Ent(x).cur[i] == WordAfter(T'.log, x, i, T'.Ent(x).base[i])
  {
    assert T'.log[|T.log|] == op;
    forall x ensures (T'.Has(x) <==> Mentions(T'.log, x)) && (x in T'.ws <==> Writes(T'.log, x)) {
      MentionsAppend(T.log, op, x);
      assert T.Has(x) <==> Mentions(T.log, x);
      assert x in T.ws <==> Writes(T.log, x);
      if x in T.ws || x in T'.ws { assert T.Has(x) || T'.Has(x); }
    }
    forall x, i: CellIndex | T'.Has(x) ensures T'.Ent(x).cur[i] == WordAfter(T'.log, x, i, T'.Ent(x).base[i]) {
      WordAppend(T.log, op, x, i, T'.Ent(x).base[i]);
      if T.Has(x) {
        assert T.Ent(x).cur[i] == WordAfter(T.log, x, i, T.Ent(x).base[i]);
      } else {
        Unstored(T.log, x, i, T'.Ent(x).base[i]);
      }
    }
  }

  lemma DoneLoads(acc: Access, T: TxState, T': TxState, op: Op)
    requires Determined(T) && Does(acc, T, T') && T'.log == T.log + [op]
    ensures forall j: nat {:trigger LoadedRight(T', j)} :: j < |T'.log| ==> LoadedRight(T', j)
  {
    forall j: nat | j < |T'.log| ensures LoadedRight(T', j) {
      if j < |T.log| {
        assert LoadedRight(T, j) && T'.log[j] == T.log[j] && T'.log[..j] == T.log[..j];
      } else {
        assert T'.log[|T.log|] == op && T'.log[..j] == T.log;
        if op.Loaded? { LastLoad(acc, T, T', op); }
      }
    }
  }

  /** A load returns the word of the copy, which is the last value stored, or the word read at home. */
  lemma LastLoad(acc: Access, T: TxState, T': TxState, op: Op)
    requires Determined(T) && Does(acc, T, T') && T'.log == T.log + [op] && op.Loaded?
    ensures T'.Has(op.x) && op.v == WordAfter(T.log, op.x, op.i, T'.Ent(op.x).base[op.i])
  {
    assert T'.log[|T.log|] == op;
    if T.Has(op.x) {
      assert T.Ent(op.x).cur[op.i] == WordAfter(T.log, op.x, op.i, T.Ent(op.x).base[op.i]);
    } else {
      Unstored(T.log, op.x, op.i, T'.Ent(op.x).base[op.i]);
    }
  }

  lemma DoneDetermined(acc: Access, T: TxState, T': TxState)
    requires Determined(T) && Does(acc, T, T')
    ensures Determined(T')
  {
    var op := T'.log[|T.log|];
    DoneCopies(acc, T, T', op);
    DoneLoads(acc, T, T', op);
  }

  lemma SameDetermined(T: TxState, T': TxState)
    requires Determined(T) && SameSets(T, T')
    ensures Determined(T')
  {
    forall x ensures T'.Has(x) <==> T.Has(x) {}
    forall x, i: CellIndex | T'.Has(x) ensures T'.Ent(x).cur[i] == WordAfter(T'.log, x, i, T'.Ent(x).base[i]) {
      assert T.Ent(x).cur[i] == WordAfter(T.log, x, i, T.Ent(x).base[i]);
    }
    forall j: nat | j < |T'.log| ensures LoadedRight(T', j) { assert LoadedRight(T, j); }
  }

  lemma EmptyDetermined(T: TxState)
    requires T.rs == map[] && T.ws == map[] && T.log == []
    ensures Determined(T)
  {
  }

  /** So it is for every transaction in every reachable state, committed ones included. */
  lemma {:induction false} SetsFollowTheLog(run: seq<State>, acts: seq<(Tx, Action)>, t: Tx, k: nat)
    requires ActionRun(run, acts) && k <= |acts|
    ensures Determined(run[k].At(t))
  {
    if k == 0 {
      EmptyDetermined(run[0].At(t));
    } else {
      SetsFollowTheLog(run, acts, t, k - 1);
      EveryStepOfAProgram(run, acts, t, k - 1);
      var T, T' := run[k - 1].At(t), run[k].At(t);
      if acts[k - 1].0 != t || SameSets(T, T') {
        SameDetermined(T, T');
      } else if StartsOver(acts[k - 1].1, T'.phase) {
        EmptyDetermined(T');
      } else {
        DoneDetermined(LastAsked(acts, t, k), T, T');
      }
    }
  }

  // ---------- Serial execution of programs ----------

  /** Memory after a program has run alone, and what its loads returned. */
  datatype Executed = Executed(m: Memory, vals: seq<Val>)

  function Execute(m: Memory, prog: seq<Access>): Executed {
    if prog == [] then Executed(m, [])
    else
      var r, last := Execute(m, prog[..|prog| - 1]), prog[|prog| - 1];
      match last
      case Load(x, i) => Executed(r.m, r.vals + [BlockAt(r.m, x)[i]])
      case Store(x, i, v) => Executed(r.m[x := BlockAt(r.m, x)[i := v]], r.vals)
  }

  /** The values the loads of a log returned. */
  function Loads(log: seq<Op>): seq<Val> {
    if log == [] then []
    else Loads(log[..|log| - 1]) + if log[|log| - 1].Loaded? then [log[|log| - 1].v] else []
  }

  lemma {:induction false} ReplayIsExecution(m: Memory, log: seq<Op>, prog: seq<Access>)
    requires AllMatch(prog, log) && Replay(m, log).Ok?
    ensures Execute(m, prog) == Executed(Replay(m, log).m, Loads(log))
  {
    if log != [] {
      var n := |log| - 1;
      assert Matches(prog[n], log[n]);
      forall j | 0 <= j < n ensures Matches(prog[..n][j], log[..n][j]) { assert Matches(prog[j], log[j]); }
      ReplayIsExecution(m, log[..n], prog[..n]);
    }
  }

  /** The programs of transactions one after the other. */
  function ExecuteAll(run: seq<State>, acts: seq<(Tx, Action)>, k: nat, m: Memory, order: seq<Tx>): Memory
    requires k <= |acts| < |run|
  {
    if order == [] then m
    else Execute(ExecuteAll(run, acts, k, m, order[..|order| - 1]), Program(run, acts, order[|order| - 1], k)).m
  }

  /** Each transaction of a serial order loads what its program loads when it is run after those before it. */
  ghost predicate LoadsAsAlone(run: seq<State>, acts: seq<(Tx, Action)>, k: nat, order: seq<Tx>, n: nat)
    requires k <= |acts| < |run| && n < |order|
  {
    Execute(ExecuteAll(run, acts, k, run[k].init, order[..n]), Program(run, acts, order[n], k)).vals == Loads(run[k].At(order[n]).log)
  }

  lemma {:induction false} ReplayAllIsExecution(run: seq<State>, acts: seq<(Tx, Action)>, k: nat, order: seq<Tx>)
    requires ActionRun(run, acts) && k <= |acts| && ReplayAll(run[k], run[k].init, order).Ok?
    ensures ExecuteAll(run, acts, k, run[k].init, order) == ReplayAll(run[k], run[k].init, order).m
    ensures forall n: nat {:trigger LoadsAsAlone(run, acts, k, order, n)} :: n < |order| ==> LoadsAsAlone(run, acts, k, order, n)
  {
    if order != [] {
      var last := |order| - 1;
      ReplayAllIsExecution(run, acts, k, order[..last]);
      LogIsProgram(run, acts, order[last], k);
      ReplayIsExecution(ReplayAll(run[k], run[k].init, order[..last]).m, run[k].At(order[last]).log, Program(run, acts, order[last], k));
      forall n: nat | n < |order| ensures LoadsAsAlone(run, acts, k, order, n) {
        if n < last {
          assert LoadsAsAlone(run, acts, k, order[..last], n);
          assert order[..last][..n] == order[..n];
        }
      }
    }
  }

  /** Serializability of what programs ask for, under H: the programs of the transactions that passed validateAll,
      executed one after the other in the order in which they began it, load what the transactions loaded and leave
      the memory there is. */
  lemma ProgramsAreSerializable(run: seq<State>, acts: seq<(Tx, Action)>, k: nat)
    requires ActionRun(run, acts) && k <= |acts| && SingleWriterNode(run[k])
    ensures var order := SerialOrder(run[k], |run[k].starts|);
      && Settles(run[k], ExecuteAll(run, acts, k, run[k].init, order))
      && forall n: nat {:trigger LoadsAsAlone(run, acts, k, order, n)} :: n < |order| ==> LoadsAsAlone(run, acts, k, order, n)
  {
    ActionRunIsRun(run, acts);
    EveryRunIsSerializable(run, k);
    ReplayAllIsExecution(run, acts, k, SerialOrder(run[k], |run[k].starts|));
  }
}
