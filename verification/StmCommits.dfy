/** The commit of a transaction nobody disturbs, block by block and word by word. */
module StmCommits {
  import opened Timestamps
  import opened StmModel
  import opened StmMoves
  import opened StmPaths

  // ---------- getLocks ----------

  /** All requests are under way but those granted. */
  function Requests(ws: map<Obj, Entry>, todo: set<Obj>): map<Obj, Request> {
    map x: Obj | x in ws :: if x in todo then Sent else Granted
  }

  function LockingAt(A: TxState, todo: set<Obj>): TxState { A.(phase := Locking(Requests(A.ws, todo))) }

  lemma Asks(s: State, t: Tx, A: TxState)
    requires A.phase.Active? && A.ws != map[]
    ensures Reaches(With(s, t, A), With(s, t, LockingAt(A, A.ws.Keys)))
  {
    var B := A.(phase := Locking(map x | x in A.ws :: Left));
    var x :| x in A.ws;
    WithTwice(s, t, A, B);
    WithTwice(s, t, B, A);
    Turns(s, t, A, Commit, B);
    assert x in A.ws.Keys;
    assert Step(With(s, t, B), t, SendBatch(A.ws.Keys)).T.phase.requests == Requests(A.ws, A.ws.Keys);
    Turns(s, t, B, SendBatch(A.ws.Keys), LockingAt(A, A.ws.Keys));
    Chain(With(s, t, A), With(s, t, B), With(s, t, LockingAt(A, A.ws.Keys)));
  }

  function Locks(s: State, x: Obj, w: Word, o: Origin): State { s.(lock := s.lock[x := w], last := s.last[x := o]) }

  /** One request is served: the word is read, compared and swapped. */
  lemma Serves(s: State, t: Tx, A: TxState, todo: set<Obj>, x: Obj)
    requires x in todo && x in A.ws && !s.Lock(x).RawGreater(A.ws[x].word)
    ensures Reaches(With(s, t, LockingAt(A, todo)),
                    With(Locks(s, x, A.ws[x].word.Locked(), A.ws[x].origin), t, LockingAt(A, todo - {x})))
  {
    var r: map<Obj, Request> := Requests(A.ws, todo);
    var B := A.(phase := Locking(r[x := Seen(s.Lock(x))]));
    WithTwice(s, t, LockingAt(A, todo), B);
    WithTwice(s, t, B, A);
    Turns(s, t, LockingAt(A, todo), ServerLoad(x), B);
    assert r[x := Seen(s.Lock(x))][x := Granted] == Requests(A.ws, todo - {x});
    Effects(s, t, B, ServerCas(x), LockingAt(A, todo - {x}), SetLock(x, A.ws[x].word.Locked(), A.ws[x].origin));
    Chain(With(s, t, LockingAt(A, todo)), With(s, t, B),
          With(Locks(s, x, A.ws[x].word.Locked(), A.ws[x].origin), t, LockingAt(A, todo - {x})));
  }

  lemma {:induction false} ServesAll(s: State, t: Tx, A: TxState, todo: set<Obj>) returns (s': State)
    requires todo <= A.ws.Keys && forall x :: x in todo ==> !s.Lock(x).RawGreater(A.ws[x].word)
    ensures Reaches(With(s, t, LockingAt(A, todo)), With(s', t, LockingAt(A, {})))
    ensures s' == s.(lock := s'.lock, last := s'.last)
    ensures forall y :: s'.Lock(y) == if y in todo then A.ws[y].word.Locked() else s.Lock(y)
    decreases |todo|
  {
    if todo == {} {
      s' := s;
      Stays(With(s, t, LockingAt(A, todo)));
    } else {
      var x :| x in todo;
      var m := Locks(s, x, A.ws[x].word.Locked(), A.ws[x].origin);
      Serves(s, t, A, todo, x);
      forall y | y in todo - {x} ensures !m.Lock(y).RawGreater(A.ws[y].word) { assert m.Lock(y) == s.Lock(y); }
      s' := ServesAll(m, t, A, todo - {x});
      Chain(With(s, t, LockingAt(A, todo)), With(m, t, LockingAt(A, todo - {x})), With(s', t, LockingAt(A, {})));
    }
  }

  // ---------- validateAll ----------

  function ValidatingAt(s: State, A: TxState, todo: set<Obj>): TxState { A.(phase := Validating(todo), stamp := |s.starts|) }

  function Starts(s: State, t: Tx): State { s.(starts := s.starts + [t]) }

  lemma StartsLocked(s: State, t: Tx, A: TxState)
    requires A.ws != map[]
    ensures Reaches(With(s, t, LockingAt(A, {})), With(Starts(s, t), t, ValidatingAt(s, A, A.rs.Keys)))
  {
    WithTwice(s, t, LockingAt(A, {}), A);
    Effects(s, t, LockingAt(A, {}), EndBatch, ValidatingAt(s, A, A.rs.Keys), Start);
  }

  lemma StartsReading(s: State, t: Tx, A: TxState)
    requires A.phase.Active? && A.ws == map[]
    ensures Reaches(With(s, t, A), With(Starts(s, t), t, ValidatingAt(s, A, A.rs.Keys)))
  {
    WithTwice(s, t, A, A);
    Effects(s, t, A, Commit, ValidatingAt(s, A, A.rs.Keys), Start);
  }

  lemma {:induction false} Validates(s: State, t: Tx, A: TxState, todo: set<Obj>)
    requires forall x :: x in todo ==> x in A.rs && Intact(s, x, A.rs[x])
    ensures Reaches(With(s, t, A.(phase := Validating(todo))), With(s, t, A.(phase := Validating({}))))
    decreases |todo|
  {
    if todo == {} {
      Stays(With(s, t, A.(phase := Validating(todo))));
    } else {
      var x :| x in todo;
      var B, C := A.(phase := Validating(todo)), A.(phase := Validating(todo - {x}));
      WithTwice(s, t, B, C);
      Turns(s, t, B, Validate(x), C);
      Validates(s, t, A, todo - {x});
      Chain(With(s, t, B), With(s, t, C), With(s, t, A.(phase := Validating({}))));
    }
  }

  // ---------- Writing back ----------

  function AllCells(ws: map<Obj, Entry>): set<(Obj, nat)> { set x, i | x in ws.Keys && 0 <= i < BLOCK_WORDS :: (x, i) }

  lemma Decides(s: State, t: Tx, A: TxState)
    ensures Reaches(With(s, t, A.(phase := Validating({}))), With(s, t, A.(phase := Writing(AllCells(A.ws)))))
  {
    var B := A.(phase := Validating({}));
    WithTwice(s, t, B, A);
    assert Step(With(s, t, B), t, Decide).T.phase.cells == AllCells(A.ws);
    Turns(s, t, B, Decide, A.(phase := Writing(AllCells(A.ws))));
  }

  function Writes(s: State, x: Obj, i: CellIndex, v: Val): State { s.(mem := s.mem[x := BlockAt(s.mem, x)[i := v]]) }

  lemma WritesOne(s: State, t: Tx, A: TxState, cells: set<(Obj, nat)>, x: Obj, i: CellIndex)
    requires (x, i as nat) in cells && x in A.ws
    ensures Reaches(With(s, t, A.(phase := Writing(cells))),
                    With(Writes(s, x, i, A.ws[x].cur[i]), t, A.(phase := Writing(cells - {(x, i as nat)}))))
  {
    WithTwice(s, t, A.(phase := Writing(cells)), A);
    Effects(s, t, A.(phase := Writing(cells)), WriteWord(x, i), A.(phase := Writing(cells - {(x, i as nat)})), SetCell(x, i, A.ws[x].cur[i]));
  }

  lemma {:induction false} WritesBack(s: State, t: Tx, A: TxState, cells: set<(Obj, nat)>) returns (s': State)
    requires forall c :: c in cells ==> c.0 in A.ws && c.1 < BLOCK_WORDS
    ensures Reaches(With(s, t, A.(phase := Writing(cells))), With(s', t, A.(phase := Writing({}))))
    ensures s' == s.(mem := s'.mem)
    ensures forall x, i: CellIndex :: BlockAt(s'.mem, x)[i] == if (x, i as nat) in cells then A.ws[x].cur[i] else BlockAt(s.mem, x)[i]
    decreases |cells|
  {
    if cells == {} {
      s' := s;
      Stays(With(s, t, A.(phase := Writing(cells))));
    } else {
      var c :| c in cells;
      var m := Writes(s, c.0, c.1, A.ws[c.0].cur[c.1]);
      WritesOne(s, t, A, cells, c.0, c.1);
      s' := WritesBack(m, t, A, cells - {c});
      Chain(With(s, t, A.(phase := Writing(cells))), With(m, t, A.(phase := Writing(cells - {c}))), With(s', t, A.(phase := Writing({}))));
    }
  }

  // ---------- The new version ----------

  function Ticked(s: State, n: Node): State { s.(clock := s.clock[n := s.Clock(n) + 1]) }

  lemma Ticks(s: State, t: Tx, A: TxState) returns (past: set<Tx>)
    ensures Reaches(With(s, t, A.(phase := Writing({}))),
                    With(Ticked(s, A.node), t, A.(phase := Unlocking(A.ws.Keys), ver := s.Clock(A.node) + 1, past := past)))
  {
    var W, B, C := A.(phase := Writing({})), A.(phase := Ticking), A.(phase := TickingCas(s.Clock(A.node)));
    WithTwice(s, t, W, B);
    WithTwice(s, t, B, C);
    WithTwice(s, t, C, C);
    past := PastOf(With(s, t, C), t, C);
    Turns(s, t, W, EndWrite, B);
    Turns(s, t, B, ReadTick, C);
    Effects(s, t, C, CasTick, A.(phase := Unlocking(A.ws.Keys), ver := s.Clock(A.node) + 1, past := past), SetClock(s.Clock(A.node) + 1));
    Chain(With(s, t, W), With(s, t, B), With(s, t, C));
    Chain(With(s, t, W), With(s, t, C),
          With(Ticked(s, A.node), t, A.(phase := Unlocking(A.ws.Keys), ver := s.Clock(A.node) + 1, past := past)));
  }

  lemma UnlocksOne(s: State, t: Tx, A: TxState, todo: set<Obj>, x: Obj)
    requires x in todo
    ensures Reaches(With(s, t, A.(phase := Unlocking(todo))),
                    With(Locks(s, x, A.CommitWord(), By(t)), t, A.(phase := Unlocking(todo - {x}))))
  {
    WithTwice(s, t, A.(phase := Unlocking(todo)), A);
    Effects(s, t, A.(phase := Unlocking(todo)), Unlock(x), A.(phase := Unlocking(todo - {x})), SetLock(x, A.CommitWord(), By(t)));
  }

  lemma {:induction false} Unlocks(s: State, t: Tx, A: TxState, todo: set<Obj>) returns (s': State)
    ensures Reaches(With(s, t, A.(phase := Unlocking(todo))), With(s', t, A.(phase := Unlocking({}))))
    ensures s' == s.(lock := s'.lock, last := s'.last)
    ensures forall y :: s'.Lock(y) == if y in todo then A.CommitWord() else s.Lock(y)
    decreases |todo|
  {
    if todo == {} {
      s' := s;
      Stays(With(s, t, A.(phase := Unlocking(todo))));
    } else {
      var x :| x in todo;
      var m := Locks(s, x, A.CommitWord(), By(t));
      UnlocksOne(s, t, A, todo, x);
      s' := Unlocks(m, t, A, todo - {x});
      Chain(With(s, t, A.(phase := Unlocking(todo))), With(m, t, A.(phase := Unlocking(todo - {x}))), With(s', t, A.(phase := Unlocking({}))));
    }
  }

  lemma Finishes(s: State, t: Tx, A: TxState)
    ensures Reaches(With(s, t, A.(phase := Unlocking({}))), With(s, t, A.(phase := Done)))
  {
    WithTwice(s, t, A.(phase := Unlocking({})), A);
    Turns(s, t, A.(phase := Unlocking({})), Finish, A.(phase := Done));
  }

  // ---------- The whole commit ----------

  /** What a commit of A leaves: its blocks and a new version of each, and nothing else. */
  ghost predicate Committed(s: State, t: Tx, A: TxState, s': State, D: TxState) {
    && D.phase.Done? && D.rs == A.rs && D.ws == A.ws && D.log == A.log && D.node == A.node && D.stamp == |s.starts|
    && s'.starts == s.starts + [t] && s'.init == s.init && s'.txs == s.txs
    && (forall x {:trigger BlockAt(s'.mem, x)} :: BlockAt(s'.mem, x) == if x in A.ws then A.ws[x].cur else BlockAt(s.mem, x))
    && (forall n {:trigger s'.Clock(n)} :: s'.Clock(n) == if n == A.node then s.Clock(n) + 1 else s.Clock(n))
  }

  ghost predicate NewVersions(s: State, A: TxState, s': State) {
    forall x {:trigger s'.Lock(x)} :: s'.Lock(x) == if x in A.ws then Word(false, A.node, s.Clock(A.node) + 1) else s.Lock(x)
  }

  lemma WritesAll(s: State, t: Tx, A: TxState) returns (s': State)
    ensures Reaches(With(s, t, A.(phase := Validating({}))), With(s', t, A.(phase := Writing({}))))
    ensures s' == s.(mem := s'.mem)
    ensures forall x {:trigger BlockAt(s'.mem, x)} :: BlockAt(s'.mem, x) == if x in A.ws then A.ws[x].cur else BlockAt(s.mem, x)
  {
    Decides(s, t, A);
    s' := WritesBack(s, t, A, AllCells(A.ws));
    Chain(With(s, t, A.(phase := Validating({}))), With(s, t, A.(phase := Writing(AllCells(A.ws)))), With(s', t, A.(phase := Writing({}))));
    forall x ensures BlockAt(s'.mem, x) == if x in A.ws then A.ws[x].cur else BlockAt(s.mem, x) {
      var b := if x in A.ws then A.ws[x].cur else BlockAt(s.mem, x);
      forall i: CellIndex ensures BlockAt(s'.mem, x)[i] == b[i] {
        assert (x, i as nat) in AllCells(A.ws) <==> x in A.ws;
      }
      assert forall i :: 0 <= i < BLOCK_WORDS ==> BlockAt(s'.mem, x)[i as CellIndex] == b[i];
    }
  }

  /** From the last write to the end; `locked` are the words as they are while the locks are held. */
  lemma PublishesAll(s: State, t: Tx, A: TxState) returns (s': State, D: TxState)
    ensures Reaches(With(s, t, A.(phase := Writing({}))), With(s', t, D))
    ensures D.phase.Done? && D.rs == A.rs && D.ws == A.ws && D.log == A.log && D.node == A.node && D.stamp == A.stamp
    ensures s'.starts == s.starts && s'.init == s.init && s'.txs == s.txs && s'.mem == s.mem
    ensures forall n {:trigger s'.Clock(n)} :: s'.Clock(n) == if n == A.node then s.Clock(n) + 1 else s.Clock(n)
    ensures NewVersions(s, A, s')
  {
    var past := Ticks(s, t, A);
    var m := Ticked(s, A.node);
    var B := A.(ver := s.Clock(A.node) + 1, past := past);
    s' := Unlocks(m, t, B, A.ws.Keys);
    D := B.(phase := Done);
    Finishes(s', t, B);
    Chain(With(s, t, A.(phase := Writing({}))), With(m, t, B.(phase := Unlocking(A.ws.Keys))), With(s', t, B.(phase := Unlocking({}))));
    Chain(With(s, t, A.(phase := Writing({}))), With(s', t, B.(phase := Unlocking({}))), With(s', t, D));
    forall x ensures s'.Lock(x) == if x in A.ws then Word(false, A.node, s.Clock(A.node) + 1) else s.Lock(x) {
      assert m.Lock(x) == s.Lock(x);
    }
  }

  /** From the start of validateAll. */
  lemma CommitsFromStart(s: State, t: Tx, A: TxState) returns (s': State, D: TxState)
    requires forall x :: x in A.rs ==> Intact(s, x, A.rs[x])
    ensures Reaches(With(Starts(s, t), t, ValidatingAt(s, A, A.rs.Keys)), With(s', t, D))
    ensures Committed(s, t, A, s', D) && NewVersions(s, A, s')
  {
    var u, V := Starts(s, t), A.(stamp := |s.starts|);
    forall x | x in A.rs.Keys ensures Intact(u, x, A.rs[x]) { assert u.Lock(x) == s.Lock(x); }
    Validates(u, t, V, A.rs.Keys);
    var m := WritesAll(u, t, V);
    s', D := PublishesAll(m, t, V);
    Chain(With(u, t, ValidatingAt(s, A, A.rs.Keys)), With(u, t, V.(phase := Validating({}))), With(m, t, V.(phase := Writing({}))));
    Chain(With(u, t, ValidatingAt(s, A, A.rs.Keys)), With(m, t, V.(phase := Writing({}))), With(s', t, D));
    forall n ensures m.Clock(n) == s.Clock(n) {}
    forall x ensures m.Lock(x) == s.Lock(x) {}
  }

  /** With its locks granted, a transaction whose read set is intact commits. */
  lemma CommitsLocked(s: State, t: Tx, A: TxState) returns (s': State, D: TxState)
    requires A.ws != map[] && forall x :: x in A.rs ==> Intact(s, x, A.rs[x])
    ensures Reaches(With(s, t, LockingAt(A, {})), With(s', t, D))
    ensures Committed(s, t, A, s', D) && NewVersions(s, A, s')
  {
    StartsLocked(s, t, A);
    s', D := CommitsFromStart(s, t, A);
    Chain(With(s, t, LockingAt(A, {})), With(Starts(s, t), t, ValidatingAt(s, A, A.rs.Keys)), With(s', t, D));
  }

  /** Undisturbed, a transaction commits whenever no word at home is greater than the one it read of a block it
      writes, and the blocks it only read are intact. */
  lemma CommitsAlone(s: State, t: Tx, A: TxState) returns (s': State, D: TxState)
    requires Shape(A) && A.phase.Active? && (forall x :: x in A.ws ==> !s.Lock(x).RawGreater(A.ws[x].word))
    requires forall x :: x in A.rs ==> Intact(s, x, A.rs[x])
    ensures Reaches(With(s, t, A), With(s', t, D)) && Committed(s, t, A, s', D) && NewVersions(s, A, s')
  {
    if A.ws == map[] {
      StartsReading(s, t, A);
      s', D := CommitsFromStart(s, t, A);
      Chain(With(s, t, A), With(Starts(s, t), t, ValidatingAt(s, A, A.rs.Keys)), With(s', t, D));
    } else {
      Asks(s, t, A);
      var m := ServesAll(s, t, A, A.ws.Keys);
      forall x | x in A.rs ensures Intact(m, x, A.rs[x]) { assert x !in A.ws && m.Lock(x) == s.Lock(x); }
      s', D := CommitsLocked(m, t, A);
      Chain(With(s, t, A), With(s, t, LockingAt(A, A.ws.Keys)), With(m, t, LockingAt(A, {})));
      Chain(With(s, t, A), With(m, t, LockingAt(A, {})), With(s', t, D));
      forall n ensures m.Clock(n) == s.Clock(n) {}
      forall x ensures s'.Lock(x) == if x in A.ws then Word(false, A.node, s.Clock(A.node) + 1) else s.Lock(x) {}
    }
  }
}
