/** Left alone, a transaction does what its program says and commits: every run in which no lock is held can go on
    with a transaction that carries out a given program from beginning to end. */
module StmAlone {
  import opened Timestamps
  import opened StmModel
  import opened StmMoves
  import opened StmLocks
  import opened StmSerial
  import opened StmTheorems
  import opened StmPrograms
  import opened StmCopies
  import opened StmPaths
  import opened StmCommits

  // ---------- Carrying out a program ----------

  /** The block a transaction sees. */
  function View(s: State, T: TxState, x: Obj): Block { if T.Has(x) then T.Ent(x).cur else BlockAt(s.mem, x) }

  /** Its entries are what is at home now. */
  ghost predicate Current(s: State, T: TxState) {
    && Shape(T) && T.phase.Active?
    && (forall x {:trigger T.Has(x)} :: T.Has(x) ==> T.Ent(x).word == s.Lock(x))
  }

  ghost predicate Unlocked(s: State) { forall x {:trigger s.Lock(x)} :: !s.Lock(x).locked }

  /** An access is done: one more operation in the log, and the stored word in what is seen. */
  ghost predicate DoneTo(s: State, A: TxState, acc: Access, B: TxState) {
    && Current(s, B) && B.node == A.node
    && (forall y {:trigger View(s, B, y)} :: y != acc.x ==> View(s, B, y) == View(s, A, y))
    && (forall y {:trigger y in B.ws} :: y in B.ws <==> y in A.ws || (acc.Store? && y == acc.x))
    && (forall y {:trigger B.Has(y)} :: B.Has(y) <==> A.Has(y) || y == acc.x)
    && match acc
       case Load(x, i) => View(s, B, x) == View(s, A, x) && B.log == A.log + [Loaded(x, i, View(s, A, x)[i])]
       case Store(x, i, v) => View(s, B, x) == View(s, A, x)[i := v] && B.log == A.log + [Stored(x, i, v)]
  }

  /** An access to a block the transaction has. */
  lemma InSet(s: State, t: Tx, A: TxState, acc: Access) returns (B: TxState)
    requires Current(s, A) && A.Has(acc.x)
    ensures Reaches(With(s, t, A), With(s, t, B)) && DoneTo(s, A, acc, B)
  {
    B := AccessStep(A, acc).T;
    WithTwice(s, t, A, B);
    Turns(s, t, A, Do(acc), B);
    InSetDone(s, A, acc);
  }

  lemma InSetDone(s: State, A: TxState, acc: Access)
    requires Current(s, A) && A.Has(acc.x)
    ensures DoneTo(s, A, acc, AccessStep(A, acc).T)
  {
    AccessDoes(A, acc);
    var B := AccessStep(A, acc).T;
    forall y ensures B.Has(y) <==> A.Has(y) {}
  }

  /** The block is admitted. */
  lemma AdmittedDone(s: State, A: TxState, acc: Access)
    requires Current(s, A) && !A.Has(acc.x) && !s.Lock(acc.x).locked
    ensures DoneTo(s, A, acc, Admitted(A.(phase := Checking(acc, EntryAt(s, acc.x), {}))))
  {
    var C := A.(phase := Checking(acc, EntryAt(s, acc.x), {}));
    var B := Admitted(C);
    AdmitDoes(C);
    forall y ensures B.Has(y) <==> A.Has(y) || y == acc.x {}
  }

  /** Only clocks are different. */
  predicate SameBut(s: State, s': State) { s' == s.(clock := s'.clock) }

  /** An access to a block it has yet to read. */
  lemma Admits(s: State, t: Tx, A: TxState, acc: Access) returns (s': State, B: TxState)
    requires Current(s, A) && !A.Has(acc.x) && Unlocked(s)
    ensures Reaches(With(s, t, A), With(s', t, B)) && SameBut(s, s') && DoneTo(s, A, acc, B)
  {
    var e := EntryAt(s, acc.x);
    assert !s.Lock(acc.x).locked;
    s' := Raised(s, A.node, e.word.ver);
    var C, D := A.(phase := Raising(acc, e)), A.(phase := Checking(acc, e, {}));
    Fetches(s, t, A, acc);
    Raises(s, t, C, acc, e);
    EntriesIntact(s, s', A, ToCheck(C, e.word));
    Checks(s', t, C, acc, e, ToCheck(C, e.word));
    AdmitsLast(s', t, D);
    B := Admitted(D);
    AdmittedDone(s, A, acc);
    Chain(With(s, t, A), With(s, t, C), With(s', t, C.(phase := Checking(acc, e, ToCheck(C, e.word)))));
    Chain(With(s, t, A), With(s', t, C.(phase := Checking(acc, e, ToCheck(C, e.word)))), With(s', t, D));
    Chain(With(s, t, A), With(s', t, D), With(s', t, B));
  }

  lemma EntriesIntact(s: State, s': State, A: TxState, todo: set<Obj>)
    requires Current(s, A) && Unlocked(s) && SameBut(s, s') && forall x :: x in todo ==> x in A.rs.Keys + A.ws.Keys
    ensures forall x :: x in todo ==> A.Has(x) && Intact(s', x, A.Ent(x))
  {
    forall x | x in todo ensures A.Has(x) && Intact(s', x, A.Ent(x)) {
      assert A.Has(x) && s'.Lock(x) == s.Lock(x);
    }
  }

  lemma AdmitsLast(s: State, t: Tx, D: TxState)
    requires D.phase.Checking? && D.phase.todo == {}
    ensures Reaches(With(s, t, D), With(s, t, Admitted(D)))
  {
    WithTwice(s, t, D, Admitted(D));
    Turns(s, t, D, Admit, Admitted(D));
  }

  lemma AccessAlone(s: State, t: Tx, A: TxState, acc: Access) returns (s': State, B: TxState)
    requires Current(s, A) && Unlocked(s)
    ensures Reaches(With(s, t, A), With(s', t, B)) && SameBut(s, s') && DoneTo(s, A, acc, B)
  {
    if A.Has(acc.x) {
      B := InSet(s, t, A, acc);
      s' := s;
    } else {
      s', B := Admits(s, t, A, acc);
    }
  }

  /** A part of a program has been carried out from memory m. */
  ghost predicate Carried(s: State, m: Memory, prog: seq<Access>, A: TxState) {
    && (forall x {:trigger View(s, A, x)} :: View(s, A, x) == BlockAt(Execute(m, prog).m, x))
    && AllMatch(prog, A.log) && Loads(A.log) == Execute(m, prog).vals
    && (forall x {:trigger x in A.ws} :: x in A.ws <==> Stores(prog, x))
    && (forall x {:trigger A.Has(x)} :: A.Has(x) ==> Touches(prog, x))
  }

  ghost predicate Touches(prog: seq<Access>, x: Obj) { exists j :: 0 <= j < |prog| && prog[j].x == x }

  ghost predicate Stores(prog: seq<Access>, x: Obj) { exists j :: 0 <= j < |prog| && prog[j].Store? && prog[j].x == x }

  lemma StoresSnoc(prog: seq<Access>, acc: Access, x: Obj)
    ensures Stores(prog + [acc], x) <==> Stores(prog, x) || (acc.Store? && acc.x == x)
    ensures Touches(prog, x) || acc.x == x ==> Touches(prog + [acc], x)
  {
    var more := prog + [acc];
    assert more[|prog|] == acc;
    if Stores(prog, x) {
      var j :| 0 <= j < |prog| && prog[j].Store? && prog[j].x == x;
      assert more[j].Store? && more[j].x == x;
    }
    if Touches(prog, x) {
      var j :| 0 <= j < |prog| && prog[j].x == x;
      assert more[j].x == x;
    }
  }

  lemma CarriedMore(s: State, s': State, m: Memory, prog: seq<Access>, A: TxState, acc: Access, B: TxState)
    requires Carried(s, m, prog, A) && DoneTo(s, A, acc, B) && SameBut(s, s')
    ensures Carried(s', m, prog + [acc], B)
  {
    var more := prog + [acc];
    assert more[..|prog|] == prog && more[|prog|] == acc;
    var op := B.log[|A.log|];
    assert B.log[..|A.log|] == A.log;
    assert Loads(B.log) == Loads(A.log) + if op.Loaded? then [op.v] else [];
    forall x ensures View(s', B, x) == BlockAt(Execute(m, more).m, x) {
      assert View(s', B, x) == View(s, B, x);
      assert View(s, A, x) == BlockAt(Execute(m, prog).m, x);
    }
    forall x ensures x in B.ws <==> Stores(more, x) {
      StoresSnoc(prog, acc, x);
      assert x in A.ws <==> Stores(prog, x);
    }
    forall x | B.Has(x) ensures Touches(more, x) {
      StoresSnoc(prog, acc, x);
      assert A.Has(x) || x == acc.x;
    }
    assert forall j :: 0 <= j < |more| ==> Matches(more[j], B.log[j]);
  }

  /** From its beginning to the end of its program. */
  lemma {:induction false} ProgramAlone(s: State, t: Tx, A: TxState, prog: seq<Access>) returns (s': State, B: TxState)
    requires Current(s, A) && Unlocked(s) && A.rs == map[] && A.ws == map[] && A.log == []
    ensures Reaches(With(s, t, A), With(s', t, B)) && SameBut(s, s') && Current(s', B) && B.node == A.node
    ensures Carried(s', s.mem, prog, B)
  {
    if prog == [] {
      s', B := s, A;
      Stays(With(s, t, A));
    } else {
      var n := |prog| - 1;
      var m, C := ProgramAlone(s, t, A, prog[..n]);
      assert Unlocked(m) by { forall x ensures !m.Lock(x).locked { assert m.Lock(x) == s.Lock(x); } }
      s', B := AccessAlone(m, t, C, prog[n]);
      assert prog == prog[..n] + [prog[n]];
      CarriedMore(m, s', s.mem, prog[..n], C, prog[n], B);
      Chain(With(s, t, A), With(m, t, C), With(s', t, B));
    }
  }

  // ---------- From beginning to end ----------

  lemma {:induction false} NotStored(m: Memory, prog: seq<Access>, x: Obj)
    requires !Stores(prog, x)
    ensures BlockAt(Execute(m, prog).m, x) == BlockAt(m, x)
  {
    if prog != [] {
      var n := |prog| - 1;
      assert prog == prog[..n] + [prog[n]];
      StoresSnoc(prog[..n], prog[n], x);
      NotStored(m, prog[..n], x);
    }
  }

  /** The program has been carried out and committed. */
  ghost predicate Executed(s: State, t: Tx, prog: seq<Access>, s': State) {
    var T := s'.At(t);
    && T.phase.Done? && AllMatch(prog, T.log) && Loads(T.log) == Execute(s.mem, prog).vals
    && (forall x {:trigger BlockAt(s'.mem, x)} :: BlockAt(s'.mem, x) == BlockAt(Execute(s.mem, prog).m, x))
    && (forall u :: u != t ==> s'.At(u) == s.At(u)) && s'.init == s.init && s'.starts == s.starts + [t]
  }

  lemma MemoryIsRight(s: State, m: State, t: Tx, prog: seq<Access>, A: TxState, s': State, D: TxState)
    requires SameBut(s, m) && Carried(m, s.mem, prog, A) && Committed(m, t, A, s', D)
    ensures Executed(s, t, prog, With(s', t, D))
  {
    var e := With(s', t, D);
    forall x ensures BlockAt(e.mem, x) == BlockAt(Execute(s.mem, prog).m, x) {
      assert BlockAt(s'.mem, x) == if x in A.ws then A.ws[x].cur else BlockAt(m.mem, x);
      assert View(m, A, x) == BlockAt(Execute(s.mem, prog).m, x);
      assert x in A.ws <==> Stores(prog, x);
      if x !in A.ws { NotStored(s.mem, prog, x); }
    }
    forall u | u != t ensures e.At(u) == s.At(u) {}
  }

  lemma OwnWordsAllow(s: State, A: TxState)
    requires Current(s, A) && Unlocked(s)
    ensures forall x :: x in A.ws ==> !s.Lock(x).RawGreater(A.ws[x].word)
    ensures forall x :: x in A.rs ==> Intact(s, x, A.rs[x])
  {
    forall x | x in A.ws ensures !s.Lock(x).RawGreater(A.ws[x].word) { assert A.Has(x); }
    forall x | x in A.rs ensures Intact(s, x, A.rs[x]) { assert A.Has(x) && !s.Lock(x).locked; }
  }

  lemma CarriesOutAlone(s: State, t: Tx, n: Node, prog: seq<Access>) returns (s': State)
    requires s.At(t) == IDLE && Unlocked(s)
    ensures Reaches(s, s') && Executed(s, t, prog, s')
  {
    var A := IDLE.(phase := Active, node := n);
    OneStep(s, t, Begin(n));
    assert s.After(t, A, Nothing) == With(s, t, A);
    var m, B := ProgramAlone(s, t, A, prog);
    forall x ensures !m.Lock(x).locked { assert m.Lock(x) == s.Lock(x); }
    OwnWordsAllow(m, B);
    var u, D := CommitsAlone(m, t, B);
    s' := With(u, t, D);
    Chain(s, With(s, t, A), With(m, t, B));
    Chain(s, With(m, t, B), s');
    MemoryIsRight(s, m, t, prog, B, u, D);
  }

  lemma Onward(run: seq<State>, s': State) returns (more: seq<State>)
    requires Run(run) && Reaches(run[|run| - 1], s')
    ensures Run(more) && run <= more && more[|more| - 1] == s'
  {
    var path :| Leads(path, run[|run| - 1], s');
    more := run + path[1..];
    forall k | 0 < k < |more| ensures CanStep(more[k - 1], more[k]) {
      if k < |run| {
        assert CanStep(run[k - 1], run[k]);
      } else {
        var j := k - |run| + 1;
        assert CanStep(path[j - 1], path[j]);
        assert more[k] == path[j] && more[k - 1] == path[j - 1];
      }
    }
  }

  ghost predicate NoLocks(s: State) { forall u, x {:trigger s.At(u).Holds(x)} :: !s.At(u).Holds(x) }

  /** From every reachable state in which no lock is held, a new transaction can carry out any program and commit: its
      loads return what the program alone would load from the memory there is, and memory is what it would leave. */
  lemma AnyProgramCommitsAlone(run: seq<State>, t: Tx, n: Node, prog: seq<Access>) returns (more: seq<State>)
    requires Run(run) && run[|run| - 1].At(t) == IDLE && NoLocks(run[|run| - 1])
    ensures Run(more) && run <= more && Executed(run[|run| - 1], t, prog, more[|more| - 1])
  {
    var s := run[|run| - 1];
    forall x ensures !s.Lock(x).locked { LockSafety(run, |run| - 1, x); }
    var s' := CarriesOutAlone(s, t, n, prog);
    more := Onward(run, s');
  }
}
