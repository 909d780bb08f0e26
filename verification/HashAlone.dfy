// An operation of the concurrent hash map that nobody disturbs comes to its answer, from every reachable state in
// which the other threads are idle, however many buckets still wait for rehashing.
module HashAlone {
  import opened Powers
  import opened HashLayout
  import opened HashTable
  import opened HashState
  import opened HashThreads
  import opened HashAnswers

  // ---------------------------------------------------------------- whose the marked buckets are

  ghost predicate Marked(s: State, j: nat) { exists u {:trigger s.At(u)} :: s.At(u).Rehashing? && j in s.At(u).stack }

  // Every bucket marked as rehashed and without a list is some thread's to fill.
  ghost predicate Owned(s: State) {
    forall j: nat {:trigger s.buckets[j]} :: j < |s.buckets| && s.buckets[j].Claimed? ==> Marked(s, j)
  }

  // Steps that neither mark nor fill a bucket.
  lemma ListsStep(s: State, t: Tid, s': State, ev: Event)
    requires ThreadStep(s, t, s', ev) && !Claim(s, t, s', ev) && !HashThreads.Fill(s, t, s', ev)
    ensures |s'.buckets| == |s.buckets| && (forall j :: 0 <= j < |s.buckets| && s'.buckets[j].Claimed? ==> s.buckets[j].Claimed?)
    ensures !s.At(t).Rehashing?
  {
    if Hit(s, t, s', ev) {
      var op, i := s.At(t).op, s.At(t).i;
      var k :| 0 <= k < |Nodes(s.buckets[i])| && HitAt(s, t, op, i, k, s', ev);
    }
  }

  lemma OwnedKept(s: State, t: Tid, s': State)
    requires Owned(s) && (forall u :: u != t ==> s'.At(u) == s.At(u)) && |s'.buckets| == |s.buckets|
    requires forall j: nat :: j < |s.buckets| && s'.buckets[j].Claimed? ==>
      (s.buckets[j].Claimed? && (s.At(t).Rehashing? && j in s.At(t).stack ==> s'.At(t).Rehashing? && j in s'.At(t).stack))
      || (s'.At(t).Rehashing? && j in s'.At(t).stack)
    ensures Owned(s')
  {
    forall j: nat | j < |s'.buckets| && s'.buckets[j].Claimed? ensures Marked(s', j) {
      if s'.At(t).Rehashing? && j in s'.At(t).stack {
      } else {
        var u :| s.At(u).Rehashing? && j in s.At(u).stack;
        assert s'.At(u) == s.At(u);
      }
    }
  }

  lemma ClaimOwned(s: State, t: Tid, s': State, ev: Event)
    requires Owned(s) && Claim(s, t, s', ev)
    ensures Owned(s')
  {
    forall u | u != t ensures s'.At(u) == s.At(u) {}
    OwnedKept(s, t, s');
  }

  // The innermost bucket gets its list, and the others stay on the stack.
  lemma FillPops(s: State, t: Tid, s': State, ev: Event)
    requires PhaseOk(s.buckets, s.level, s.base, s.At(t)) && HashThreads.Fill(s, t, s', ev)
    ensures |s'.buckets| == |s.buckets| && s'.threads == s.threads[t := s'.At(t)]
    ensures forall j: nat :: j < |s.buckets| && s'.buckets[j].Claimed? ==>
      s.buckets[j].Claimed? && (j in s.At(t).stack ==> s'.At(t).Rehashing? && j in s'.At(t).stack)
  {
    var stack := s.At(t).stack;
    var i := stack[|stack| - 1];
    assert s'.buckets[i].Chain?;
    assert forall j :: j in stack && j != i ==> j in stack[..|stack| - 1];
  }

  lemma FillOwned(s: State, t: Tid, s': State, ev: Event)
    requires Inv(s) && Owned(s) && HashThreads.Fill(s, t, s', ev)
    ensures Owned(s')
  {
    assert PhaseOk(s.buckets, s.level, s.base, s.At(t));
    FillPops(s, t, s', ev);
    forall u | u != t ensures s'.At(u) == s.At(u) {}
    OwnedKept(s, t, s');
  }

  lemma ListsOwned(s: State, t: Tid, s': State, ev: Event)
    requires Owned(s) && ThreadStep(s, t, s', ev) && !Claim(s, t, s', ev) && !HashThreads.Fill(s, t, s', ev)
    ensures Owned(s')
  {
    ListsStep(s, t, s', ev);
    forall u | u != t ensures s'.At(u) == s.At(u) { OthersStay(s, t, s', ev, u); }
    OwnedKept(s, t, s');
  }

  lemma GrowOwned(s: State, s': State, ev: Event)
    requires Owned(s) && Grow(s, s', ev)
    ensures Owned(s')
  {
    forall j: nat | j < |s'.buckets| && s'.buckets[j].Claimed? ensures Marked(s', j) {
      assert j < |s.buckets| && s'.buckets[j] == s.buckets[j];
      var u :| s.At(u).Rehashing? && j in s.At(u).stack;
      assert s'.At(u) == s.At(u);
    }
  }

  lemma OwnedStep(s: State, s': State, ev: Event)
    requires Inv(s) && Owned(s) && Next(s, s', ev)
    ensures Owned(s')
  {
    if Grow(s, s', ev) {
      GrowOwned(s, s', ev);
    } else {
      var t :| ThreadStep(s, t, s', ev);
      if Claim(s, t, s', ev) {
        ClaimOwned(s, t, s', ev);
      } else if HashThreads.Fill(s, t, s', ev) {
        FillOwned(s, t, s', ev);
      } else {
        ListsOwned(s, t, s', ev);
      }
    }
  }

  lemma {:induction false} RunOwned(states: seq<State>, events: seq<Event>, k: nat)
    requires Run(states, events) && k < |states|
    ensures Inv(states[k]) && Owned(states[k])
  {
    RunInv(states, events, k);
    if k > 0 {
      RunOwned(states, events, k - 1);
      assert Follows(states, events, k);
      OwnedStep(states[k - 1], states[k], events[k]);
    }
  }

  // ---------------------------------------------------------------- one thread alone

  // Everybody else is idle.
  ghost predicate Alone(s: State, t: Tid) { forall u {:trigger s.At(u)} :: u != t ==> s.At(u).Idle? }

  lemma StaysAlone(s: State, t: Tid, u: State, ev: Event)
    requires Alone(s, t) && ThreadStep(s, t, u, ev)
    ensures Alone(u, t)
  {
    forall v | v != t ensures u.At(v).Idle? { OthersStay(s, t, u, ev, v); }
  }

  lemma Extend(states: seq<State>, events: seq<Event>, t: Tid, u: State, ev: Event)
    requires Run(states, events) && ThreadStep(states[|states| - 1], t, u, ev)
    ensures Run(states + [u], events + [ev])
  {
    var more, said := states + [u], events + [ev];
    forall k | 0 < k < |more| ensures Follows(more, said, k) {
      if k < |states| { assert Follows(states, events, k); }
    }
  }

  // Buckets that wait, and buckets without a list.
  function Left(b: Table): nat {
    if b == [] then 0
    else Left(b[..|b| - 1]) + (if b[|b| - 1].RehashReq? then 2 else if b[|b| - 1].Claimed? then 1 else 0)
  }

  function Cost(b: Bucket): nat { if b.RehashReq? then 2 else if b.Claimed? then 1 else 0 }

  lemma {:induction false} LeftAfter(b: Table, i: nat, x: Bucket)
    requires i < |b|
    ensures Left(b[i := x]) == Left(b) - Cost(b[i]) + Cost(x)
  {
    var n := |b| - 1;
    if i == n {
      assert b[i := x][..n] == b[..n];
    } else {
      assert b[i := x][..n] == b[..n][i := x];
      LeftAfter(b[..n], i, x);
    }
  }

  lemma TwoLists(b: Table, p: nat, i: nat, x: Bucket, y: Bucket)
    requires p < |b| && i < |b| && p != i && b[p].Chain? && b[i].Claimed? && x.Chain? && y.Chain?
    ensures Left(b[p := x][i := y]) < Left(b)
  {
    LeftAfter(b, p, x);
    LeftAfter(b[p := x], i, y);
  }

  lemma PulledLeft(b: Table, i: nat)
    requires 1 < i < |b| && b[i].Claimed? && b[Parent(i)].Chain?
    ensures Left(Pull(b, i)) < Left(b)
  {
    TwoLists(b, Parent(i), i, Chain(Passed(Nodes(b[Parent(i)]), Log2(i) + 1, i)), Chain(Picked(Nodes(b[Parent(i)]), Log2(i) + 1, i)));
  }

  lemma LessIsNotIn(stack: seq<nat>, p: nat)
    requires stack != [] && p < stack[|stack| - 1] && forall j, k :: 0 <= j < k < |stack| ==> stack[k] < stack[j]
    ensures p !in stack
  {
  }

  // The parent of the bucket marked last is nobody's.
  lemma ParentNotMarked(s: State, t: Tid)
    requires Inv(s) && Owned(s) && Alone(s, t) && s.At(t).Rehashing?
    ensures var stack := s.At(t).stack;
      && stack != [] && 1 < stack[|stack| - 1] < |s.buckets| && s.buckets[stack[|stack| - 1]].Claimed?
      && !s.buckets[Parent(stack[|stack| - 1])].Claimed?
  {
    var stack := s.At(t).stack;
    assert PhaseOk(s.buckets, s.level, s.base, s.At(t));
    var p := Parent(stack[|stack| - 1]);
    LessIsNotIn(stack, p);
    assert !Marked(s, p);
  }

  // A step of the recursion that rehashes a bucket and its waiting parents: up, ...
  lemma UpStep(s: State, t: Tid, i: nat) returns (u: State)
    requires s.At(t).Rehashing? && s.At(t).stack != [] && s.At(t).stack[|s.At(t).stack| - 1] == i && 1 < i < |s.buckets|
    requires s.buckets[Parent(i)].RehashReq?
    ensures Claim(s, t, u, Silent) && u.level == s.level && Left(u.buckets) < Left(s.buckets)
    ensures u.At(t) == s.At(t).(stack := s.At(t).stack + [Parent(i)])
  {
    u := s.Move(t, s.At(t).(stack := s.At(t).stack + [Parent(i)])).(buckets := s.buckets[Parent(i) := Claimed]);
    LeftAfter(s.buckets, Parent(i), Claimed);
  }

  // ... or down again.
  lemma DownStep(s: State, t: Tid, i: nat) returns (u: State)
    requires s.At(t).Rehashing? && s.At(t).stack != [] && s.At(t).stack[|s.At(t).stack| - 1] == i && 1 < i < |s.buckets|
    requires s.buckets[i].Claimed? && s.buckets[Parent(i)].Chain? && Alone(s, t)
    ensures HashThreads.Fill(s, t, u, Silent) && u.level == s.level && Left(u.buckets) < Left(s.buckets)
    ensures u.At(t) == var p := s.At(t); if |p.stack| == 1 then Holding(p.op, p.m, i, true) else p.(stack := p.stack[..|p.stack| - 1])
  {
    var p := s.At(t);
    u := s.Move(t, if |p.stack| == 1 then Holding(p.op, p.m, i, true) else p.(stack := p.stack[..|p.stack| - 1])).(buckets := Pull(s.buckets, i));
    PulledLeft(s.buckets, i);
  }

  lemma RehashStep(s: State, t: Tid) returns (u: State)
    requires Inv(s) && Owned(s) && Alone(s, t) && s.At(t).Rehashing?
    ensures ThreadStep(s, t, u, Silent) && u.level == s.level && Left(u.buckets) < Left(s.buckets)
    ensures u.At(t).Rehashing? || (u.At(t).Holding? && u.At(t).writer)
    ensures u.At(t).op == s.At(t).op && u.At(t).m == s.At(t).m
  {
    ParentNotMarked(s, t);
    var i := s.At(t).stack[|s.At(t).stack| - 1];
    if s.buckets[Parent(i)].RehashReq? { u := UpStep(s, t, i); } else { u := DownStep(s, t, i); }
  }

  // ---------------------------------------------------------------- to the answer

  // A run goes on with silent steps of t, which stays busy with its operation.
  ghost predicate GoesOnAs(states: seq<State>, events: seq<Event>, more: seq<State>, said: seq<Event>, t: Tid) {
    && Run(more, said) && states <= more && events <= said && states != [] && Alone(more[|more| - 1], t)
    && more[|more| - 1].level == states[|states| - 1].level
    && forall k {:trigger more[k]} :: |states| <= k < |more| ==> !more[k].At(t).Idle?
  }

  lemma OneMore(states: seq<State>, events: seq<Event>, t: Tid, u: State)
    requires Run(states, events) && Alone(states[|states| - 1], t) && ThreadStep(states[|states| - 1], t, u, Silent)
    requires !u.At(t).Idle? && u.level == states[|states| - 1].level
    ensures GoesOnAs(states, events, states + [u], events + [Silent], t)
  {
    Extend(states, events, t, u, Silent);
    StaysAlone(states[|states| - 1], t, u, Silent);
  }

  lemma Further(states: seq<State>, events: seq<Event>, mid: seq<State>, ev: seq<Event>, more: seq<State>, said: seq<Event>, t: Tid)
    requires GoesOnAs(states, events, mid, ev, t) && GoesOnAs(mid, ev, more, said, t)
    ensures GoesOnAs(states, events, more, said, t)
  {
    forall k {:trigger more[k]} | |states| <= k < |more| ensures !more[k].At(t).Idle? {
      if k < |mid| { assert more[k] == mid[k]; }
    }
  }

  // The bucket of the same operation and mask is locked for writing.
  predicate Acquired(p: Phase, q: Phase) {
    q.Holding? && q.writer && !p.Idle? && q.op == p.op && (p.Masked? || p.Rehashing?) && q.m == p.m
  }

  lemma RehashesOnce(states: seq<State>, events: seq<Event>, t: Tid) returns (u: State)
    requires Run(states, events) && Alone(states[|states| - 1], t) && states[|states| - 1].At(t).Rehashing?
    ensures GoesOnAs(states, events, states + [u], events + [Silent], t)
    ensures Run(states + [u], events + [Silent]) && Alone(u, t) && Left(u.buckets) < Left(states[|states| - 1].buckets)
    ensures var p, q := states[|states| - 1].At(t), u.At(t);
      Acquired(p, q) || (q.Rehashing? && q.op == p.op && q.m == p.m)
  {
    var s := states[|states| - 1];
    RunOwned(states, events, |states| - 1);
    u := RehashStep(s, t);
    OneMore(states, events, t, u);
  }

  // The recursion ends with the bucket locked for writing.
  lemma {:induction false} Rehashes(states: seq<State>, events: seq<Event>, t: Tid) returns (more: seq<State>, said: seq<Event>)
    requires Run(states, events) && Alone(states[|states| - 1], t) && states[|states| - 1].At(t).Rehashing?
    ensures GoesOnAs(states, events, more, said, t) && Acquired(states[|states| - 1].At(t), more[|more| - 1].At(t))
    decreases Left(states[|states| - 1].buckets)
  {
    var u := RehashesOnce(states, events, t);
    var mid, ev := states + [u], events + [Silent];
    assert mid[|mid| - 1] == u;
    if u.At(t).Rehashing? {
      more, said := Rehashes(mid, ev, t);
      Further(states, events, mid, ev, more, said, t);
    } else {
      more, said := mid, ev;
    }
  }

  // The bucket the mask selects has a list, or waits for rehashing.
  lemma NotMarked(s: State, t: Tid, i: nat)
    requires Owned(s) && Alone(s, t) && !s.At(t).Rehashing? && i < |s.buckets|
    ensures !s.buckets[i].Claimed?
  {
    assert !Marked(s, i);
  }

  // From the mask to the lock of the bucket it selects.
  lemma Acquires(states: seq<State>, events: seq<Event>, t: Tid, op: Op, m: nat) returns (more: seq<State>, said: seq<Event>)
    requires Run(states, events) && Alone(states[|states| - 1], t) && states[|states| - 1].At(t) == Masked(op, m)
    requires m == states[|states| - 1].level
    ensures GoesOnAs(states, events, more, said, t)
    ensures var q := more[|more| - 1].At(t); q.Holding? && q.writer && q.op == op && q.m == m
  {
    var s := states[|states| - 1];
    var i := Cut(op.key.hash, m);
    RunOwned(states, events, |states| - 1);
    NotMarked(s, t, i);
    if s.buckets[i].Chain? {
      var u := s.Move(t, Holding(op, m, i, true));
      assert Lock(s, t, u, Silent);
      OneMore(states, events, t, u);
      more, said := states + [u], events + [Silent];
    } else {
      var u := s.Move(t, Rehashing(op, m, [i])).(buckets := s.buckets[i := Claimed]);
      assert Claim(s, t, u, Silent);
      OneMore(states, events, t, u);
      var mid, ev := states + [u], events + [Silent];
      more, said := Rehashes(mid, ev, t);
      Further(states, events, mid, ev, more, said, t);
    }
  }

  // The mask is still the one of now, so the search may be believed.
  lemma Confirms(states: seq<State>, events: seq<Event>, t: Tid) returns (more: seq<State>, said: seq<Event>)
    requires Run(states, events) && Alone(states[|states| - 1], t)
    requires var p := states[|states| - 1].At(t); p.Holding? && p.writer && p.m == states[|states| - 1].level
    ensures GoesOnAs(states, events, more, said, t)
    ensures var q := more[|more| - 1].At(t); q == Confirmed(states[|states| - 1].At(t).op, states[|states| - 1].At(t).i)
  {
    var s := states[|states| - 1];
    RunInv(states, events, |states| - 1);
    assert PhaseOk(s.buckets, s.level, s.base, s.At(t));
    var u := s.Move(t, Confirmed(s.At(t).op, s.At(t).i));
    assert Check(s, t, u, Silent);
    OneMore(states, events, t, u);
    more, said := states + [u], events + [Silent];
  }

  // The last step: the key is in the list, or it is not.
  lemma AnswerStep(s: State, t: Tid) returns (u: State, ev: Event)
    requires s.At(t).Confirmed? && s.At(t).i < |s.buckets| && s.buckets[s.At(t).i].Chain?
    ensures ThreadStep(s, t, u, ev) && u.At(t).Idle?
    ensures u == s.Move(t, Idle).(buckets := u.buckets) && Left(u.buckets) == Left(s.buckets)
  {
    var op, i := s.At(t).op, s.At(t).i;
    var ns := Nodes(s.buckets[i]);
    if it :| it in ns && it.key == op.key {
      var k :| 0 <= k < |ns| && ns[k] == it;
      if op.Erase? {
        LeftAfter(s.buckets, i, Chain(ns[..k] + ns[k + 1..]));
        u, ev := s.Move(t, Idle).(buckets := s.buckets[i := Chain(ns[..k] + ns[k + 1..])]), Erased(ns[k]);
      } else {
        u, ev := s.Move(t, Idle), Present(ns[k]);
      }
      assert HitAt(s, t, op, i, k, u, ev);
      assert Hit(s, t, u, ev);
    } else if op.Insert? {
      LeftAfter(s.buckets, i, Chain([Item(op.key, op.val)] + ns));
      u, ev := s.Move(t, Idle).(buckets := s.buckets[i := Chain([Item(op.key, op.val)] + ns)]), Inserted(Item(op.key, op.val));
      assert Miss(s, t, u, ev);
    } else {
      u, ev := s.Move(t, Idle), Absent(op.key);
      assert Miss(s, t, u, ev);
    }
  }

  lemma Loads(states: seq<State>, events: seq<Event>, t: Tid, op: Op) returns (more: seq<State>, said: seq<Event>)
    requires Run(states, events) && forall u {:trigger states[|states| - 1].At(u)} :: states[|states| - 1].At(u).Idle?
    ensures GoesOnAs(states, events, more, said, t) && |more| == |states| + 1
    ensures more[|states|].At(t) == Masked(op, states[|states| - 1].level)
  {
    var s := states[|states| - 1];
    var u := s.Move(t, Masked(op, s.level));
    assert s.At(t).Idle?;
    assert Load(s, t, u, Silent);
    OneMore(states, events, t, u);
    more, said := states + [u], events + [Silent];
  }

  lemma ReadyToAnswer(states: seq<State>, events: seq<Event>, t: Tid, op: Op) returns (more: seq<State>, said: seq<Event>)
    requires Run(states, events) && forall u {:trigger states[|states| - 1].At(u)} :: states[|states| - 1].At(u).Idle?
    ensures GoesOnAs(states, events, more, said, t) && |more| > |states| && more[|states|].At(t).op == op
    ensures more[|more| - 1].At(t).Confirmed?
  {
    var a, ea := Loads(states, events, t, op);
    var b, eb := Acquires(a, ea, t, op, states[|states| - 1].level);
    Further(states, events, a, ea, b, eb, t);
    more, said := Confirms(b, eb, t);
    Further(states, events, b, eb, more, said, t);
    assert more[|states|] == a[|states|];
  }

  // From every reachable state in which all threads are idle, any operation can be carried through alone, and is
  // answered as a map would answer it.
  lemma CompletesAlone(states: seq<State>, events: seq<Event>, t: Tid, op: Op) returns (more: seq<State>, said: seq<Event>)
    requires Run(states, events) && forall u {:trigger states[|states| - 1].At(u)} :: states[|states| - 1].At(u).Idle?
    ensures Run(more, said) && states <= more && events <= said && |more| > |states| + 1
    ensures Busy(more, t, |states|, |more| - 1) && more[|states|].At(t).op == op && more[|more| - 1].At(t).Idle?
    ensures Answers(op, said[|said| - 1])
  {
    var n := |states|;
    assert states[n - 1].At(t).Idle?;
    var a, ea := ReadyToAnswer(states, events, t, op);
    RunInv(a, ea, |a| - 1);
    var s := a[|a| - 1];
    assert PhaseOk(s.buckets, s.level, s.base, s.At(t));
    var u, ev := AnswerStep(s, t);
    Extend(a, ea, t, u, ev);
    more, said := a + [u], ea + [ev];
    forall k | n <= k < |more| - 1 ensures !more[k].At(t).Idle? { assert more[k] == a[k]; }
    assert more[n - 1] == states[n - 1];
    OperationIsAnswered(more, said, t, n, |more| - 1);
  }
}
