/** Why hypothesis H is needed: a run in which the home node grants a lock to a transaction whose copy of the block
    is out of date, because line 60 of the server compares whole words, and an increment is lost. */
module StmStale {
  import opened Timestamps
  import opened StmModel
  import opened StmMoves
  import opened StmLocks
  import opened StmSerial
  import opened StmTheorems
  import opened StmPrograms
  import opened StmCopies
  import opened StmPaths
  import opened StmCommits
  import opened StmAlone

  const X: Obj := 0

  const EMPTY: State := State(map[], map[], map[], map[], map[], map[], [])

  function IncrementOf(v: Val): seq<Access> { [Load(X, 0), Store(X, 0, v + 1)] }

  function Increment(v: Val): seq<Op> { [Loaded(X, 0, v), Stored(X, 0, v + 1)] }

  // ---------- One increment ----------

  /** The object has been incremented v times, last by a transaction of node n with version ver. */
  ghost predicate Counted(s: State, v: Val, n: Node, ver: nat) {
    Unlocked(s) && s.Lock(X) == Word(false, n, ver) && BlockAt(s.mem, X)[0] == v
  }

  /** T has read v and stored v + 1 in its copy, made from version (n, ver). */
  ghost predicate Ready(T: TxState, on: Node, v: Val, n: Node, ver: nat) {
    && Shape(T) && T.phase.Active? && T.rs == map[] && T.ws.Keys == {X} && T.node == on && T.log == Increment(v)
    && T.ws[X].word == Word(false, n, ver) && T.ws[X].cur[0] == v + 1
  }

  lemma ExecuteIncrement(m: Memory, v: Val)
    requires BlockAt(m, X)[0] == v
    ensures BlockAt(Execute(m, IncrementOf(v)).m, X)[0] == v + 1 && Execute(m, IncrementOf(v)).vals == [v]
  {
    var p := IncrementOf(v);
    assert p[..1] == [Load(X, 0)] && p[..1][..0] == [];
    assert Execute(m, p[..1]) == Executed(m, [v]);
  }

  lemma LogOfIncrement(log: seq<Op>, v: Val)
    requires AllMatch(IncrementOf(v), log) && Loads(log) == [v]
    ensures log == Increment(v)
  {
    assert Matches(IncrementOf(v)[0], log[0]) && Matches(IncrementOf(v)[1], log[1]);
    assert log[..1] == [log[0]] && log[..1][..0] == [];
    assert Loads(log[..1]) == Loads([]) + [log[0].v] == [log[0].v];
    assert !log[|log| - 1].Loaded? && log[..|log| - 1] == log[..1];
    assert Loads(log) == Loads(log[..1]) + [];
    assert Loads(log)[0] == log[0].v;
    assert log[0] == Loaded(X, 0, v);
    assert log == [log[0], log[1]];
  }

  lemma CarriedIsReady(s: State, A: TxState, m: Memory, on: Node, v: Val, n: Node, ver: nat)
    requires Current(s, A) && Carried(s, m, IncrementOf(v), A) && BlockAt(m, X)[0] == v
    requires A.node == on && s.Lock(X) == Word(false, n, ver)
    ensures Ready(A, on, v, n, ver)
  {
    ExecuteIncrement(m, v);
    LogOfIncrement(A.log, v);
    assert IncrementOf(v)[1].Store? && Stores(IncrementOf(v), X);
    assert X in A.ws && A.Has(X);
    forall x | x in A.rs || x in A.ws ensures x == X {
      assert A.Has(x) && Touches(IncrementOf(v), x);
    }
    assert View(s, A, X) == BlockAt(Execute(m, IncrementOf(v)).m, X);
    assert A.rs == map[] && A.ws.Keys == {X};
  }

  lemma Readies(s: State, t: Tx, on: Node, v: Val, n: Node, ver: nat) returns (s': State, A: TxState)
    requires s.At(t) == IDLE && Counted(s, v, n, ver)
    ensures Reaches(s, With(s', t, A)) && SameBut(s, s') && Ready(A, on, v, n, ver)
  {
    var T := IDLE.(phase := Active, node := on);
    OneStep(s, t, Begin(on));
    assert s.After(t, T, Nothing) == With(s, t, T);
    s', A := ProgramAlone(s, t, T, IncrementOf(v));
    Chain(s, With(s, t, T), With(s', t, A));
    CarriedIsReady(s', A, s.mem, on, v, n, ver);
  }

  // ---------- Its commit ----------

  /** Transaction t has committed on its node, in the given place of the serial order. */
  predicate Incremented(s: State, t: Tx, on: Node, v: Val, place: nat) {
    var T := s.At(t);
    T.phase.Done? && T.log == Increment(v) && X in T.ws && T.node == on && T.stamp == place
  }

  /** The commit succeeds although another version is there, as long as line 60 lets it. */
  lemma Counts(s: State, t: Tx, A: TxState, on: Node, v: Val, n: Node, ver: nat) returns (s': State)
    requires Ready(A, on, v, n, ver) && Unlocked(s) && !s.Lock(X).RawGreater(Word(false, n, ver))
    ensures Reaches(With(s, t, A), s') && Counted(s', v + 1, on, s.Clock(on) + 1)
    ensures s'.starts == s.starts + [t] && s'.init == s.init && (forall u :: u != t ==> s'.At(u) == s.At(u))
    ensures Incremented(s', t, on, v, |s.starts|)
  {
    assert X in A.ws.Keys;
    var u, D := CommitsAlone(s, t, A);
    s' := With(u, t, D);
    IsCounted(s, t, A, u, D, on, v, n, ver);
  }

  lemma IsCounted(s: State, t: Tx, A: TxState, u: State, D: TxState, on: Node, v: Val, n: Node, ver: nat)
    requires Ready(A, on, v, n, ver) && Committed(s, t, A, u, D) && NewVersions(s, A, u)
    requires forall x: Obj :: x != X ==> !s.Lock(x).locked
    ensures Counted(With(u, t, D), v + 1, on, s.Clock(on) + 1) && Incremented(With(u, t, D), t, on, v, |s.starts|)
    ensures With(u, t, D).starts == s.starts + [t] && With(u, t, D).init == s.init
    ensures forall w :: w != t ==> With(u, t, D).At(w) == s.At(w)
  {
    var e := With(u, t, D);
    assert X in A.ws.Keys;
    assert BlockAt(u.mem, X) == A.ws[X].cur && BlockAt(e.mem, X) == BlockAt(u.mem, X);
    assert u.Lock(X) == Word(false, on, s.Clock(on) + 1) && e.Lock(X) == u.Lock(X);
    forall x ensures !e.Lock(x).locked { assert e.Lock(x) == u.Lock(x); }
  }

  // ---------- Three increments ----------

  /** No order of the three transactions explains what they loaded. */
  ghost predicate Unexplained(s: State) {
    forall a, b, c :: {a, b, c} == {1, 2, 3} ==> ReplayAll(s, s.init, [a, b, c]).Wrong?
  }

  lemma ReplayIncrement(m: Memory, v: Val)
    ensures BlockAt(m, X)[0] != v ==> Replay(m, Increment(v)).Wrong?
    ensures BlockAt(m, X)[0] == v ==> Replay(m, Increment(v)) == Ok(m[X := BlockAt(m, X)[0 := v + 1]])
  {
    var log := Increment(v);
    assert log[..1] == [Loaded(X, 0, v)] && log[..1][..0] == [];
    assert Replay(m, log[..1]) == ReplayOp(m, Loaded(X, 0, v));
  }

  lemma NoOrderExplains(s: State, a: Tx, b: Tx, c: Tx)
    requires s.init == map[] && {a, b, c} == {1, 2, 3}
    requires s.At(1).log == Increment(0) && s.At(2).log == Increment(1) && s.At(3).log == Increment(1)
    ensures ReplayAll(s, s.init, [a, b, c]).Wrong?
  {
    var m: Memory := s.init;
    assert [a, b, c][..2] == [a, b] && [a, b][..1] == [a] && [a][..0] == [];
    assert 1 in {a, b, c} && 2 in {a, b, c} && 3 in {a, b, c};
    assert a in {1, 2, 3} && b in {1, 2, 3} && c in {1, 2, 3};
    assert ReplayAll(s, m, [a]) == Replay(m, s.At(a).log);
    if a != 1 {
      ReplayIncrement(m, 1);
      assert ReplayAll(s, m, [a, b]).Wrong?;
    } else {
      ReplayIncrement(m, 0);
      var m1 := Replay(m, Increment(0)).m;
      ReplayIncrement(m1, 1);
      var m2 := Replay(m1, Increment(1)).m;
      assert ReplayAll(s, m, [a, b]) == Ok(m2);
      ReplayIncrement(m2, 1);
    }
  }


  /** Three transactions that each incremented a word have committed, and a word that was 0 is 2. */
  ghost predicate LostUpdate(s: State) {
    && BlockAt(s.init, X)[0] == 0 && BlockAt(s.mem, X)[0] == 2
    && (forall t {:trigger s.At(t)} :: 1 <= t <= 3 ==> s.At(t).phase.Done? && exists v :: s.At(t).log == Increment(v))
    && Unexplained(s) && !Serializable(s) && !SingleWriterNode(s)
  }


  lemma Loses(s: State, ver: nat)
    requires s.init == map[] && Counted(s, 2, 1, ver) && s.starts == [1, 3, 2]
    requires Incremented(s, 1, 1, 0, 0) && Incremented(s, 3, 0, 1, 1) && Incremented(s, 2, 1, 1, 2)
    ensures LostUpdate(s)
  {
    assert SerialOrder(s, 1) == [1] && SerialOrder(s, 2) == [1, 3] && SerialOrder(s, 3) == [1, 3, 2];
    forall a, b, c | {a, b, c} == {1, 2, 3} ensures ReplayAll(s, s.init, [a, b, c]).Wrong? {
      NoOrderExplains(s, a, b, c);
    }
    assert {1, 3, 2} == {1, 2, 3};
    assert X in s.At(2).ws && X in s.At(3).ws;
  }

  // ---------- The run ----------

  lemma WithItself(s: State, t: Tx, A: TxState)
    requires s.At(t) == A && !A.phase.Idle?
    ensures With(s, t, A) == s
  {
    assert t in s.txs;
    assert s.txs[t := A] == s.txs;
  }

  /** In a reachable state the clock of a node covers what its transactions have read. */
  lemma ClockCovers(s: State, t: Tx, A: TxState)
    requires Init(EMPTY) && Reaches(EMPTY, With(s, t, A)) && A.Has(X)
    ensures A.Ent(X).word.ver <= s.Clock(A.node)
  {
    var path :| Leads(path, EMPTY, With(s, t, A));
    RunLocks(path, |path| - 1);
    WithTwice(s, t, A, A);
    assert With(s, t, A).At(t).Has(X);
  }

  /** Transaction 2, on node 1, has read the first increment; transaction 3 has added its own, on node 0. */
  ghost predicate StaleState(s: State, A: TxState, c: nat, ver: nat) {
    && s.init == map[] && s.starts == [1, 3] && Incremented(s, 1, 1, 0, 0) && Incremented(s, 3, 0, 1, 1)
    && s.At(2) == A && Ready(A, 1, 1, 1, c) && Counted(s, 2, 0, ver) && c < ver
  }

  lemma FirstIncrement() returns (s: State, c: nat)
    ensures Reaches(EMPTY, s) && Counted(s, 1, 1, c) && s.init == map[] && s.starts == [1] && Incremented(s, 1, 1, 0, 0)
    ensures s.At(2) == IDLE && s.At(3) == IDLE
  {
    var m, A := Readies(EMPTY, 1, 1, 0, 0, 0);
    s := Counts(m, 1, A, 1, 0, 0, 0);
    c := m.Clock(1) + 1;
    Chain(EMPTY, With(m, 1, A), s);
    assert forall u :: m.At(u) == EMPTY.At(u);
  }

  lemma Stale() returns (s: State, A: TxState, c: nat, ver: nat)
    ensures Reaches(EMPTY, s) && StaleState(s, A, c, ver)
  {
    var a;
    a, c := FirstIncrement();
    var b;
    b, A := Readies(a, 2, 1, 1, 1, c);
    Chain(EMPTY, a, With(b, 2, A));
    WithTwice(b, 2, A, A);
    var p := With(b, 2, A);
    HomeKept(a, b, 2, A, 1, 1, c);
    var d, B := Readies(p, 3, 0, 1, 1, c);
    Chain(EMPTY, p, With(d, 3, B));
    ClockCovers(d, 3, B);
    HomeKept(p, d, 3, B, 1, 1, c);
    s := Counts(d, 3, B, 0, 1, 1, c);
    Chain(EMPTY, With(d, 3, B), s);
    ver := d.Clock(0) + 1;
  }

  lemma HomeKept(s: State, m: State, t: Tx, A: TxState, v: Val, n: Node, ver: nat)
    requires Counted(s, v, n, ver) && SameBut(s, m)
    ensures Counted(m, v, n, ver) && Counted(With(m, t, A), v, n, ver)
    ensures forall u :: u != t ==> With(m, t, A).At(u) == s.At(u)
  {
    forall x ensures m.Lock(x) == s.Lock(x) && With(m, t, A).Lock(x) == s.Lock(x) {}
  }

  /** The request of transaction 2 goes through, and from there its commit. */
  lemma Overwrites(s: State, A: TxState, c: nat, ver: nat) returns (m: State, g: State, s': State)
    requires StaleState(s, A, c, ver)
    ensures Reaches(s, m) && Next(m, 2, ServerCas(X), g) && Reaches(g, s')
    ensures m.At(2).ws == A.ws && m.Lock(X) == s.Lock(X) && g.At(2).Holds(X) && LostUpdate(s')
  {
    WithItself(s, 2, A);
    assert X in A.ws.Keys && A.ws != map[];
    Asks(s, 2, A);
    var r: map<Obj, Request> := Requests(A.ws, {X});
    var B := A.(phase := Locking(r[X := Seen(s.Lock(X))]));
    WithTwice(s, 2, LockingAt(A, {X}), B);
    WithTwice(s, 2, B, B);
    assert A.ws.Keys == {X};
    Turns(s, 2, LockingAt(A, {X}), ServerLoad(X), B);
    m := With(s, 2, B);
    Chain(s, With(s, 2, LockingAt(A, {X})), m);
    var u := Locks(s, X, A.ws[X].word.Locked(), A.ws[X].origin);
    assert r[X := Seen(s.Lock(X))][X := Granted] == Requests(A.ws, {});
    g := With(u, 2, LockingAt(A, {}));
    assert s.txs[2 := B][2 := LockingAt(A, {})] == s.txs[2 := LockingAt(A, {})];
    assert Next(m, 2, ServerCas(X), g);
    s' := Ends(s, u, A, c, ver);
  }

  lemma Ends(s: State, u: State, A: TxState, c: nat, ver: nat) returns (s': State)
    requires StaleState(s, A, c, ver) && X in A.ws && u == Locks(s, X, A.ws[X].word.Locked(), A.ws[X].origin)
    ensures Reaches(With(u, 2, LockingAt(A, {})), s') && LostUpdate(s')
  {
    var e, D := CommitsLocked(u, 2, A);
    s' := With(e, 2, D);
    forall x: Obj | x != X ensures !u.Lock(x).locked { assert u.Lock(x) == s.Lock(x); }
    IsCounted(u, 2, A, e, D, 1, 1, 1, c);
    assert forall w :: u.At(w) == s.At(w);
    Loses(s', u.Clock(1) + 1);
  }

  lemma Through(s: State, m: State, t: Tx, act: Action, g: State, s': State) returns (run: seq<State>, i: nat)
    requires Init(s) && Reaches(s, m) && Next(m, t, act, g) && Reaches(g, s')
    ensures Run(run) && i + 1 < |run| && run[i] == m && run[i + 1] == g && run[|run| - 1] == s'
  {
    var a :| Leads(a, s, m);
    var b :| Leads(b, g, s');
    assert CanStep(m, g);
    var c := [m] + b;
    assert Leads(c, m, s') by {
      forall k | 0 < k < |c| ensures CanStep(c[k - 1], c[k]) {
        if k > 1 { assert c[k - 1] == b[k - 2] && c[k] == b[k - 1]; }
      }
    }
    Joined(a, c, s, m, s');
    run, i := a + c[1..], |a| - 1;
    assert run[i + 1] == c[1];
  }

  /** Without H the protocol loses an update: at step i the home node grants the lock of a block to a transaction
      that has read an older version of it, and with its commit one of three increments is lost. */
  lemma StaleGrantLosesUpdate() returns (run: seq<State>, i: nat)
    ensures Run(run) && i + 1 < |run| && Next(run[i], 2, ServerCas(X), run[i + 1]) && run[i + 1].At(2).Holds(X)
    ensures X in run[i].At(2).ws && run[i].Lock(X).Newer(run[i].At(2).ws[X].word)
    ensures LostUpdate(run[|run| - 1])
  {
    var s, A, c, ver := Stale();
    var m, g, s' := Overwrites(s, A, c, ver);
    Chain(EMPTY, s, m);
    assert X in A.ws.Keys;
    run, i := Through(EMPTY, m, 2, ServerCas(X), g, s');
  }
}
