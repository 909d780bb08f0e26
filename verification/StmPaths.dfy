/** Paths of protocol steps, and what a transaction does on one when nobody else moves. */
module StmPaths {
  import opened Timestamps
  import opened StmModel
  import opened StmMoves

  ghost predicate Path(path: seq<State>) {
    |path| > 0 && forall k :: 0 < k < |path| ==> CanStep(path[k - 1], path[k])
  }

  ghost predicate Leads(path: seq<State>, s: State, s': State) {
    Path(path) && path[0] == s && path[|path| - 1] == s'
  }

  ghost predicate Reaches(s: State, s': State) { exists path :: Leads(path, s, s') }

  lemma Stays(s: State)
    ensures Reaches(s, s)
  {
    assert Leads([s], s, s);
  }

  lemma Joined(a: seq<State>, b: seq<State>, s: State, m: State, s': State)
    requires Leads(a, s, m) && Leads(b, m, s')
    ensures Leads(a + b[1..], s, s')
  {
    var path := a + b[1..];
    forall k | 0 < k < |path| ensures CanStep(path[k - 1], path[k]) {
      if k < |a| {
        assert CanStep(a[k - 1], a[k]);
      } else {
        assert CanStep(b[k - |a|], b[k - |a| + 1]);
        assert path[k] == b[k - |a| + 1] && path[k - 1] == b[k - |a|];
      }
    }
  }

  lemma Chain(s: State, m: State, s': State)
    requires Reaches(s, m) && Reaches(m, s')
    ensures Reaches(s, s')
  {
    var a :| Leads(a, s, m);
    var b :| Leads(b, m, s');
    Joined(a, b, s, m, s');
  }

  /** s with transaction t in another state. */
  function With(s: State, t: Tx, T: TxState): State { s.(txs := s.txs[t := T]) }

  lemma WithTwice(s: State, t: Tx, A: TxState, B: TxState)
    ensures With(With(s, t, A), t, B) == With(s, t, B) && With(s, t, A).At(t) == A
  {
    assert s.txs[t := A][t := B] == s.txs[t := B];
  }

  lemma OneStep(s: State, t: Tx, act: Action)
    requires Step(s, t, act).To?
    ensures Reaches(s, s.After(t, Step(s, t, act).T, Step(s, t, act).eff))
  {
    var s' := s.After(t, Step(s, t, act).T, Step(s, t, act).eff);
    assert Next(s, t, act, s');
    assert CanStep(s, s');
    assert Leads([s, s'], s, s');
  }

  /** A step of t that changes nothing else. */
  lemma Turns(s: State, t: Tx, A: TxState, act: Action, B: TxState)
    requires Step(With(s, t, A), t, act) == To(B, Nothing)
    ensures Reaches(With(s, t, A), With(s, t, B))
  {
    OneStep(With(s, t, A), t, act);
    WithTwice(s, t, A, B);
  }

  /** A step of t with an effect on what is shared. */
  lemma Effects(s: State, t: Tx, A: TxState, act: Action, B: TxState, eff: Effect)
    requires Step(With(s, t, A), t, act) == To(B, eff)
    ensures Reaches(With(s, t, A), s.After(t, B, eff))
  {
    OneStep(With(s, t, A), t, act);
    WithTwice(s, t, A, B);
    assert With(s, t, A).After(t, B, eff) == s.After(t, B, eff);
  }

  // ---------- An access ----------

  function FirstWords(b: Block, i: nat): map<nat, Val>
    requires i <= BLOCK_WORDS
  {
    map k | 0 <= k < i :: b[k]
  }

  function CopyingTo(s: State, A: TxState, acc: Access, i: nat): TxState
    requires i <= BLOCK_WORDS
  {
    A.(phase := Copying(acc, s.Lock(acc.x), FirstWords(BlockAt(s.mem, acc.x), i)))
  }

  lemma CopiesOne(s: State, t: Tx, A: TxState, acc: Access, i: nat)
    requires i < BLOCK_WORDS
    ensures Reaches(With(s, t, CopyingTo(s, A, acc, i)), With(s, t, CopyingTo(s, A, acc, i + 1)))
  {
    var b := BlockAt(s.mem, acc.x);
    assert FirstWords(b, i)[i := b[i]] == FirstWords(b, i + 1);
    WithTwice(s, t, CopyingTo(s, A, acc, i), A);
    Turns(s, t, CopyingTo(s, A, acc, i), CopyWord(i), CopyingTo(s, A, acc, i + 1));
  }

  lemma {:induction false} Copies(s: State, t: Tx, A: TxState, acc: Access, i: nat)
    requires i <= BLOCK_WORDS
    ensures Reaches(With(s, t, CopyingTo(s, A, acc, i)), With(s, t, CopyingTo(s, A, acc, BLOCK_WORDS)))
    decreases BLOCK_WORDS - i
  {
    if i == BLOCK_WORDS {
      Stays(With(s, t, CopyingTo(s, A, acc, i)));
    } else {
      CopiesOne(s, t, A, acc, i);
      Copies(s, t, A, acc, i + 1);
      Chain(With(s, t, CopyingTo(s, A, acc, i)), With(s, t, CopyingTo(s, A, acc, i + 1)), With(s, t, CopyingTo(s, A, acc, BLOCK_WORDS)));
    }
  }

  /** The entry readCell returns on a block nobody changes meanwhile. */
  function EntryAt(s: State, x: Obj): Entry { Entry(s.Lock(x), BlockAt(s.mem, x), BlockAt(s.mem, x), s.Last(x)) }

  lemma Enters(s: State, t: Tx, A: TxState, acc: Access)
    requires A.phase.Active? && !A.Has(acc.x) && !s.Lock(acc.x).locked
    ensures Reaches(With(s, t, A), With(s, t, CopyingTo(s, A, acc, 0)))
  {
    var B := A.(phase := Fetching(acc));
    WithTwice(s, t, A, B);
    WithTwice(s, t, B, B);
    assert FirstWords(BlockAt(s.mem, acc.x), 0) == map[];
    Turns(s, t, A, Do(acc), B);
    Turns(s, t, B, ReadFirst, CopyingTo(s, A, acc, 0));
    Chain(With(s, t, A), With(s, t, B), With(s, t, CopyingTo(s, A, acc, 0)));
  }

  lemma Fetches(s: State, t: Tx, A: TxState, acc: Access)
    requires A.phase.Active? && !A.Has(acc.x) && !s.Lock(acc.x).locked
    ensures Reaches(With(s, t, A), With(s, t, A.(phase := Raising(acc, EntryAt(s, acc.x)))))
  {
    var B, C := CopyingTo(s, A, acc, BLOCK_WORDS), A.(phase := Raising(acc, EntryAt(s, acc.x)));
    Enters(s, t, A, acc);
    Copies(s, t, A, acc, 0);
    WithTwice(s, t, B, C);
    assert BufBlock(B.phase.buf) == BlockAt(s.mem, acc.x);
    Turns(s, t, B, ReadSecond, C);
    Chain(With(s, t, A), With(s, t, CopyingTo(s, A, acc, 0)), With(s, t, B));
    Chain(With(s, t, A), With(s, t, B), With(s, t, C));
  }

  /** s with the clock of a node raised to c. */
  function Raised(s: State, n: Node, c: nat): State { if c > s.Clock(n) then s.(clock := s.clock[n := c]) else s }

  /** increaseClock, without competitors. */
  lemma Raises(s: State, t: Tx, A: TxState, acc: Access, e: Entry)
    requires A.phase == Raising(acc, e)
    ensures Reaches(With(s, t, A), With(Raised(s, A.node, e.word.ver), t, A.(phase := Checking(acc, e, ToCheck(A, e.word)))))
  {
    var c := s.Clock(A.node);
    var C := A.(phase := Checking(acc, e, ToCheck(A, e.word)));
    WithTwice(s, t, A, C);
    if e.word.ver > c {
      var B := A.(phase := RaisingCas(acc, e, c));
      WithTwice(s, t, B, C);
      assert ToCheck(B, e.word) == ToCheck(A, e.word);
      Turns(s, t, A, ReadClock, B);
      OneStep(With(s, t, B), t, CasClock);
      Chain(With(s, t, A), With(s, t, B), With(Raised(s, A.node, e.word.ver), t, C));
    } else {
      Turns(s, t, A, ReadClock, C);
    }
  }

  /** validate, when every entry it looks up is intact. */
  lemma {:induction false} Checks(s: State, t: Tx, A: TxState, acc: Access, e: Entry, todo: set<Obj>)
    requires forall x :: x in todo ==> A.Has(x) && Intact(s, x, A.Ent(x))
    ensures Reaches(With(s, t, A.(phase := Checking(acc, e, todo))), With(s, t, A.(phase := Checking(acc, e, {}))))
    decreases |todo|
  {
    if todo == {} {
      Stays(With(s, t, A.(phase := Checking(acc, e, todo))));
    } else {
      var x :| x in todo;
      var B, C := A.(phase := Checking(acc, e, todo)), A.(phase := Checking(acc, e, todo - {x}));
      WithTwice(s, t, B, C);
      assert A.Has(x) && Intact(s, x, A.Ent(x)) && B.Ent(x) == A.Ent(x);
      Turns(s, t, B, Check(x), C);
      Checks(s, t, A, acc, e, todo - {x});
      Chain(With(s, t, B), With(s, t, C), With(s, t, A.(phase := Checking(acc, e, {}))));
    }
  }
}
