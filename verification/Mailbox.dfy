// The mailbox of a worker: any number of threads push, one pops. A pusher first exchanges the last link and
// only later fills the link it got, so the popper may meet a gap.
module Mailbox {

  type Proxy = nat
  type Tid = nat

  datatype Ptr = Null | To(p: Proxy)

  // A place that holds a pointer: my_first of the box, or next_in_mailbox of a proxy.
  datatype Link = First | NextOf(p: Proxy)

  datatype Pusher = NotPushing | Cleared(p: Proxy) | Exchanged(p: Proxy, link: Link)

  // Took: my_first was loaded. Second, Single: its successor was loaded, or there was none. Detached: my_first
  // was set to NULL. Waiting: the last link has moved on. Arrived: the successor has been filled in.
  datatype Popper =
    | NotPopping
    | Took(p: Proxy)
    | Second(p: Proxy, q: Proxy)
    | Single(p: Proxy)
    | Detached(p: Proxy)
    | Waiting(p: Proxy)
    | Arrived(p: Proxy, q: Proxy)
  {
    // The popper still owes the box a new value of my_first.
    predicate Open() { Detached? || Waiting? || Arrived? }
  }

  // order: the proxies in the order of the exchanges of my_last; popped: those handed out so far; answers: what the
  // calls of pop have returned.
  datatype State = State(
    first: Ptr,
    last: Link,
    next: map<Proxy, Ptr>,
    pushers: map<Tid, Pusher>,
    popper: Popper,
    order: seq<Proxy>,
    popped: seq<Proxy>,
    answers: seq<Ptr>)
  {
    function At(t: Tid): Pusher { if t in pushers then pushers[t] else NotPushing }
    function Next(p: Proxy): Ptr { if p in next then next[p] else Null }
    function Store(link: Link, p: Ptr): State {
      match link
      case First => this.(first := p)
      case NextOf(q) => this.(next := next[q := p])
    }
    function Push(t: Tid, p: Pusher): State { this.(pushers := pushers[t := p]) }
    function Pop(p: Popper): State { this.(popper := p) }
    // The popper returns p.
    function Return(p: Proxy): State { this.(popper := NotPopping, popped := popped + [p], answers := answers + [To(p)]) }
  }

  ghost predicate Init(s: State) {
    && s.first == Null && s.last == First && s.pushers == map[] && s.popper == NotPopping
    && s.order == [] && s.popped == [] && s.answers == []
  }

  // ---------------------------------------------------------------- steps

  // A proxy is pushed once; t.next_in_mailbox = NULL.
  ghost predicate Clear(s: State, t: Tid, s': State) {
    && s.At(t).NotPushing?
    && exists p {:trigger Cleared(p)} :: p !in s.order && (forall u :: s.At(u) != Cleared(p))
         && s' == s.Push(t, Cleared(p)).Store(NextOf(p), Null)
  }

  // The exchange of my_last.
  ghost predicate Exchange(s: State, t: Tid, s': State) {
    && s.At(t).Cleared?
    && s' == s.Push(t, Exchanged(s.At(t).p, s.last)).(last := NextOf(s.At(t).p), order := s.order + [s.At(t).p])
  }

  // *link = &t
  ghost predicate Fill(s: State, t: Tid, s': State) {
    && s.At(t).Exchanged?
    && s' == s.Push(t, NotPushing).Store(s.At(t).link, To(s.At(t).p))
  }

  ghost predicate PopStep(s: State, s': State) {
    match s.popper
    case NotPopping => s' == if s.first.To? then s.Pop(Took(s.first.p)) else s.(answers := s.answers + [Null])
    case Took(p) => s' == s.Pop(if s.Next(p).To? then Second(p, s.Next(p).p) else Single(p))
    case Second(p, q) => s' == s.Store(First, To(q)).Return(p)
    case Single(p) => s' == s.Store(First, Null).Pop(Detached(p))
    case Detached(p) =>
      s' == if s.last == NextOf(p) then s.(last := First).Return(p) else s.Pop(Waiting(p))
    case Waiting(p) => s' == if s.Next(p).To? then s.Pop(Arrived(p, s.Next(p).p)) else s
    case Arrived(p, q) => s' == s.Store(First, To(q)).Return(p)
  }

  ghost predicate Step(s: State, s': State) {
    PopStep(s, s') || exists t :: Clear(s, t, s') || Exchange(s, t, s') || Fill(s, t, s')
  }

  ghost predicate Follows(run: seq<State>, k: nat)
    requires 0 < k < |run|
  {
    Step(run[k - 1], run[k])
  }

  ghost predicate Run(run: seq<State>) {
    && |run| > 0 && Init(run[0])
    && forall k :: 0 < k < |run| ==> Follows(run, k)
  }

  // ---------------------------------------------------------------- the invariant

  // The link item i waits behind: its predecessor's, or the box's when it is the next to be popped.
  function LinkOf(s: State, i: nat): Link
    requires i < |s.order|
  {
    if i <= |s.popped| then First else NextOf(s.order[i - 1])
  }

  function Read(s: State, link: Link): Ptr { if link.First? then s.first else s.Next(link.p) }

  // Some pusher has yet to fill in the link of item i.
  ghost predicate Owed(s: State, i: nat)
    requires i < |s.order|
  {
    exists t :: s.At(t) == Exchanged(s.order[i], LinkOf(s, i))
  }

  ghost predicate Distinct(s: State) {
    && (forall i, j :: 0 <= i < j < |s.order| ==> s.order[i] != s.order[j])
    && (forall t, u :: t != u && !s.At(t).NotPushing? && !s.At(u).NotPushing? ==> s.At(t).p != s.At(u).p)
    && (forall t :: s.At(t).Cleared? ==> s.At(t).p !in s.order && s.Next(s.At(t).p) == Null)
  }

  // A pusher between its two steps owes exactly the link of its item, and nothing stands there.
  ghost predicate Owes(s: State) {
    forall t :: s.At(t).Exchanged? ==>
      exists i :: |s.popped| <= i < |s.order| && OwesAt(s, t, i)
  }

  ghost predicate OwesAt(s: State, t: Tid, i: nat)
    requires i < |s.order|
  {
    s.At(t) == Exchanged(s.order[i], LinkOf(s, i)) && Read(s, LinkOf(s, i)) == Null
    && (i == |s.popped| ==> !s.popper.Open())
  }

  // Every item not popped is linked, or its link is owed; the item after it is linked to it.
  ghost predicate Linked(s: State) {
    && |s.popped| <= |s.order|
    && s.last == (if |s.popped| == |s.order| then First else NextOf(s.order[|s.order| - 1]))
    && (|s.order| > |s.popped| ==> s.Next(s.order[|s.order| - 1]) == Null)
    && (forall i {:trigger LinkOf(s, i)} :: |s.popped| < i < |s.order| ==>
          Read(s, LinkOf(s, i)) == To(s.order[i]) || (Read(s, LinkOf(s, i)) == Null && Owed(s, i)))
    && (if s.popper.Open() || |s.popped| == |s.order| then s.first == Null
        else s.first == To(s.order[|s.popped|]) || (s.first == Null && Owed(s, |s.popped|)))
  }

  ghost predicate PopperOk(s: State) {
    !s.popper.NotPopping? ==>
      && |s.popped| < |s.order|
      && s.popper.p == s.order[|s.popped|]
      && (s.popper.Took? || s.popper.Second? || s.popper.Single? ==> s.first == To(s.popper.p))
      && (s.popper.Waiting? || s.popper.Second? || s.popper.Arrived? ==> |s.popped| + 1 < |s.order|)
      && (s.popper.Second? || s.popper.Arrived? ==>
            s.popper.q == s.order[|s.popped| + 1] && s.Next(s.popper.p) == To(s.popper.q))
  }

  ghost predicate Inv(s: State) {
    && s.popped <= s.order
    && Distinct(s) && Owes(s) && Linked(s) && PopperOk(s)
  }

  // ---------------------------------------------------------------- every step keeps it

  lemma ClearChanges(s: State, t: Tid, s': State) returns (p: Proxy)
    requires Clear(s, t, s')
    ensures p !in s.order && (forall u :: s.At(u) != Cleared(p)) && s' == s.Push(t, Cleared(p)).Store(NextOf(p), Null)
    ensures forall u {:trigger s'.At(u)} :: s'.At(u) == if u == t then Cleared(p) else s.At(u)
    ensures forall q {:trigger s'.Next(q)} :: s'.Next(q) == if q == p then Null else s.Next(q)
  {
    p :| p !in s.order && (forall u :: s.At(u) != Cleared(p)) && s' == s.Push(t, Cleared(p)).Store(NextOf(p), Null);
  }

  lemma ClearDistinct(s: State, t: Tid, s': State)
    requires Distinct(s) && Owes(s) && Clear(s, t, s')
    ensures Distinct(s')
  {
    var p := ClearChanges(s, t, s');
    forall u | u != t && !s.At(u).NotPushing? ensures s.At(u).p != p {
      if s.At(u).Exchanged? {
        var i :| |s.popped| <= i < |s.order| && OwesAt(s, u, i);
      }
    }
  }

  lemma ClearReads(s: State, t: Tid, s': State)
    requires Clear(s, t, s')
    ensures forall i {:trigger LinkOf(s', i)} :: 0 <= i < |s.order| ==>
      LinkOf(s', i) == LinkOf(s, i) && Read(s', LinkOf(s, i)) == Read(s, LinkOf(s, i)) && (Owed(s, i) ==> Owed(s', i))
  {
    var p := ClearChanges(s, t, s');
    forall i | 0 <= i < |s.order|
      ensures LinkOf(s', i) == LinkOf(s, i) && Read(s', LinkOf(s, i)) == Read(s, LinkOf(s, i)) && (Owed(s, i) ==> Owed(s', i))
    {
      if Owed(s, i) {
        var u :| s.At(u) == Exchanged(s.order[i], LinkOf(s, i));
        assert s'.At(u) == Exchanged(s'.order[i], LinkOf(s', i));
      }
    }
  }

  lemma ClearKeeps(s: State, t: Tid, s': State)
    requires Inv(s) && Clear(s, t, s')
    ensures Inv(s')
  {
    var p := ClearChanges(s, t, s');
    ClearDistinct(s, t, s');
    ClearReads(s, t, s');
    if |s.popped| < |s.order| { assert LinkOf(s', |s.popped|) == LinkOf(s, |s.popped|); }
    forall u | s'.At(u).Exchanged? ensures exists i :: |s'.popped| <= i < |s'.order| && OwesAt(s', u, i) {
      var i :| |s.popped| <= i < |s.order| && OwesAt(s, u, i);
      assert LinkOf(s', i) == LinkOf(s, i) && OwesAt(s', u, i);
    }
  }

  lemma StillOwed(s: State, s': State, i: nat, t: Tid)
    requires i < |s.order| && i < |s'.order| && Owed(s, i)
    requires s'.order[i] == s.order[i] && LinkOf(s', i) == LinkOf(s, i)
    requires forall u :: u != t ==> s'.At(u) == s.At(u)
    requires s.At(t) != Exchanged(s.order[i], LinkOf(s, i))
    ensures Owed(s', i)
  {
    var u :| s.At(u) == Exchanged(s.order[i], LinkOf(s, i));
    assert s'.At(u) == Exchanged(s'.order[i], LinkOf(s', i));
  }

  lemma ExchangeLinked(s: State, t: Tid, s': State)
    requires Linked(s) && PopperOk(s) && Distinct(s) && Exchange(s, t, s')
    ensures Linked(s')
  {
    var m := |s.order|;
    assert s'.order[m] == s.At(t).p && LinkOf(s', m) == s.last && Read(s', s.last) == Null;
    assert Owed(s', m) by { assert s'.At(t) == Exchanged(s'.order[m], LinkOf(s', m)); }
    forall i | |s.popped| <= i < m ensures LinkOf(s', i) == LinkOf(s, i) && (Owed(s, i) ==> Owed(s', i)) {
      if Owed(s, i) { StillOwed(s, s', i, t); }
    }
  }

  lemma ExchangePopper(s: State, t: Tid, s': State)
    requires Inv(s) && Exchange(s, t, s')
    ensures PopperOk(s')
  {
  }

  lemma LastIsFree(s: State)
    requires Linked(s) && PopperOk(s)
    ensures |s.popped| <= |s.order| && Read(s, s.last) == Null
    ensures s.last == if |s.popped| == |s.order| then First else NextOf(s.order[|s.order| - 1])
    ensures |s.popped| == |s.order| ==> !s.popper.Open()
  {
  }

  lemma ExchangeOwes(s: State, t: Tid, s': State)
    requires Owes(s) && Exchange(s, t, s') && |s.popped| <= |s.order| && Read(s, s.last) == Null
    requires s.last == if |s.popped| == |s.order| then First else NextOf(s.order[|s.order| - 1])
    requires |s.popped| == |s.order| ==> !s.popper.Open()
    ensures Owes(s')
  {
    var m := |s.order|;
    assert OwesAt(s', t, m);
    forall u | s'.At(u).Exchanged? ensures exists i :: |s'.popped| <= i < |s'.order| && OwesAt(s', u, i) {
      if u != t {
        assert s'.At(u) == s.At(u);
        var i :| |s.popped| <= i < |s.order| && OwesAt(s, u, i);
        assert LinkOf(s', i) == LinkOf(s, i) && OwesAt(s', u, i);
      }
    }
  }

  lemma ExchangeDistinct(s: State, t: Tid, s': State)
    requires Distinct(s) && Exchange(s, t, s')
    ensures Distinct(s')
  {
    forall u ensures s'.At(u) == if u == t then Exchanged(s.At(t).p, s.last) else s.At(u) {}
  }

  lemma ExchangeKeeps(s: State, t: Tid, s': State)
    requires Inv(s) && Exchange(s, t, s')
    ensures Inv(s')
  {
    LastIsFree(s);
    ExchangeLinked(s, t, s');
    ExchangePopper(s, t, s');
    ExchangeOwes(s, t, s');
    ExchangeDistinct(s, t, s');
  }

  lemma LinksDiffer(s: State, i: nat, j: nat)
    requires Distinct(s) && |s.popped| <= i < |s.order| && |s.popped| <= j < |s.order| && i != j
    ensures LinkOf(s, i) != LinkOf(s, j)
  {
  }

  // Filling the link of item i changes nothing else that is read.
  lemma FillReads(s: State, t: Tid, s': State, i: nat, j: nat)
    requires Inv(s) && Fill(s, t, s') && |s.popped| <= i < |s.order| && OwesAt(s, t, i)
    requires |s.popped| <= j < |s.order|
    ensures LinkOf(s', j) == LinkOf(s, j)
    ensures Read(s', LinkOf(s, j)) == if j == i then To(s.order[i]) else Read(s, LinkOf(s, j))
  {
    if j != i { LinksDiffer(s, i, j); }
  }

  lemma FillOwed(s: State, t: Tid, s': State, i: nat, j: nat)
    requires Inv(s) && Fill(s, t, s') && |s.popped| <= i < |s.order| && OwesAt(s, t, i)
    requires |s.popped| <= j < |s.order| && j != i && Owed(s, j)
    ensures Owed(s', j)
  {
    forall u | u != t ensures s'.At(u) == s.At(u) {}
    StillOwed(s, s', j, t);
  }

  lemma FillFirst(s: State, t: Tid, s': State, i: nat)
    requires Inv(s) && Fill(s, t, s') && |s.popped| <= i < |s.order| && OwesAt(s, t, i)
    ensures if s.popper.Open() then s'.first == Null
      else s'.first == To(s'.order[|s.popped|]) || (s'.first == Null && Owed(s', |s.popped|))
  {
    var n := |s.popped|;
    assert LinkOf(s, n) == First;
    FillReads(s, t, s', i, n);
    if i != n && Owed(s, n) {
      FillOwed(s, t, s', i, n);
    }
  }

  lemma FillItem(s: State, t: Tid, s': State, i: nat, j: nat)
    requires Inv(s) && Fill(s, t, s') && |s.popped| <= i < |s.order| && OwesAt(s, t, i)
    requires |s.popped| < j < |s.order|
    ensures Read(s', LinkOf(s', j)) == To(s'.order[j]) || (Read(s', LinkOf(s', j)) == Null && Owed(s', j))
  {
    FillReads(s, t, s', i, j);
    if j != i && Owed(s, j) {
      FillOwed(s, t, s', i, j);
    }
  }

  lemma FillTail(s: State, t: Tid, s': State, i: nat)
    requires Distinct(s) && Linked(s) && Fill(s, t, s') && |s.popped| <= i < |s.order| && OwesAt(s, t, i)
    ensures s'.Next(s'.order[|s'.order| - 1]) == Null
  {
  }

  lemma FillLinked(s: State, t: Tid, s': State, i: nat)
    requires Inv(s) && Fill(s, t, s') && |s.popped| <= i < |s.order| && OwesAt(s, t, i)
    ensures Linked(s')
  {
    FillFirst(s, t, s', i);
    forall j {:trigger LinkOf(s', j)} | |s.popped| < j < |s.order|
      ensures Read(s', LinkOf(s', j)) == To(s'.order[j]) || (Read(s', LinkOf(s', j)) == Null && Owed(s', j))
    {
      FillItem(s, t, s', i, j);
    }
    FillTail(s, t, s', i);
  }

  lemma FillOwes(s: State, t: Tid, s': State, i: nat)
    requires Inv(s) && Fill(s, t, s') && |s.popped| <= i < |s.order| && OwesAt(s, t, i)
    ensures Owes(s')
  {
    forall u | s'.At(u).Exchanged? ensures exists j :: |s'.popped| <= j < |s'.order| && OwesAt(s', u, j) {
      assert u != t && s'.At(u) == s.At(u);
      var j :| |s.popped| <= j < |s.order| && OwesAt(s, u, j);
      FillReads(s, t, s', i, j);
      assert OwesAt(s', u, j);
    }
  }

  lemma FillKeeps(s: State, t: Tid, s': State)
    requires Inv(s) && Fill(s, t, s')
    ensures Inv(s')
  {
    var i :| |s.popped| <= i < |s.order| && OwesAt(s, t, i);
    FillLinked(s, t, s', i);
    FillOwes(s, t, s', i);
    assert Distinct(s') by {
      forall u ensures s'.At(u) == if u == t then NotPushing else s.At(u) {}
      forall u | s'.At(u).Cleared? ensures s'.Next(s'.At(u).p) == Null {
        assert s'.At(u) == s.At(u);
      }
    }
  }

  // What the popper touches before it returns.
  lemma ProceedFrame(s: State, s': State)
    requires PopStep(s, s') && s'.popped == s.popped
    ensures s' == s.(first := s'.first, popper := s'.popper, answers := s'.answers)
    ensures s'.first == s.first || (s.popper.Single? && s'.first == Null)
    ensures s'.popper.Open() <==> s.popper.Open() || s.popper.Single?
  {
    forall p ensures s.popped + [p] != s.popped {
      assert |s.popped + [p]| == |s.popped| + 1;
    }
  }

  lemma ProceedDistinct(s: State, s': State)
    requires Distinct(s) && s' == s.(first := s'.first, popper := s'.popper, answers := s'.answers)
    ensures Distinct(s')
  {
    forall u ensures s'.At(u) == s.At(u) {}
    forall p ensures s'.Next(p) == s.Next(p) {}
  }

  // The popper's steps before it returns.
  lemma ProceedPopper(s: State, s': State)
    requires Inv(s) && PopStep(s, s') && s'.popped == s.popped
    ensures PopperOk(s')
  {
    var n := |s.popped|;
    ProceedFrame(s, s');
    assert n + 1 < |s.order| ==> LinkOf(s, n + 1) == NextOf(s.order[n]);
  }

  lemma ProceedOwes(s: State, s': State)
    requires Inv(s) && PopStep(s, s') && s'.popped == s.popped
    ensures Owes(s')
  {
    ProceedFrame(s, s');
    forall u | s'.At(u).Exchanged? ensures exists j :: |s'.popped| <= j < |s'.order| && OwesAt(s', u, j) {
      assert s'.At(u) == s.At(u);
      var j :| |s.popped| <= j < |s.order| && OwesAt(s, u, j);
      assert LinkOf(s', j) == LinkOf(s, j) && OwesAt(s', u, j);
    }
  }

  lemma ProceedLinked(s: State, s': State)
    requires Inv(s) && PopStep(s, s') && s'.popped == s.popped
    ensures Linked(s')
  {
    ProceedFrame(s, s');
    forall i | |s.popped| <= i < |s.order| ensures LinkOf(s', i) == LinkOf(s, i) && (Owed(s, i) ==> Owed(s', i)) {
      if Owed(s, i) {
        var u :| s.At(u) == Exchanged(s.order[i], LinkOf(s, i));
        assert s'.At(u) == Exchanged(s'.order[i], LinkOf(s', i));
      }
    }
  }

  lemma PopProceeds(s: State, s': State)
    requires Inv(s) && PopStep(s, s') && s'.popped == s.popped
    ensures Inv(s')
  {
    ProceedFrame(s, s');
    ProceedDistinct(s, s');
    ProceedPopper(s, s');
    ProceedOwes(s, s');
    ProceedLinked(s, s');
  }

  // Once the popper returns, nobody owes the link of the item it takes or of the one after.
  lemma ReturnOwes(s: State, s': State)
    requires Inv(s) && PopStep(s, s') && s'.popped != s.popped
    ensures Owes(s')
  {
    var n := |s.popped|;
    assert n + 1 < |s.order| ==> LinkOf(s, n + 1) == NextOf(s.order[n]);
    forall u | s'.At(u).Exchanged? ensures exists j :: |s'.popped| <= j < |s'.order| && OwesAt(s', u, j) {
      assert s'.At(u) == s.At(u);
      var j :| n <= j < |s.order| && OwesAt(s, u, j);
      assert j > n + 1;
      assert LinkOf(s', j) == LinkOf(s, j) && OwesAt(s', u, j);
    }
  }

  lemma ReturnLinked(s: State, s': State)
    requires Inv(s) && PopStep(s, s') && s'.popped != s.popped
    ensures Linked(s')
  {
    var n := |s.popped|;
    if n + 1 < |s.order| {
      assert LinkOf(s, n + 1) == NextOf(s.order[n]);
    }
    forall i | n + 1 < i < |s.order| ensures LinkOf(s', i) == LinkOf(s, i) && (Owed(s, i) ==> Owed(s', i)) {
      if Owed(s, i) {
        var u :| s.At(u) == Exchanged(s.order[i], LinkOf(s, i));
        assert s'.At(u) == Exchanged(s'.order[i], LinkOf(s', i));
      }
    }
  }

  // The popper returns the next item in the order of the exchanges.
  lemma PopReturns(s: State, s': State)
    requires Inv(s) && PopStep(s, s') && s'.popped != s.popped
    ensures Inv(s')
    ensures |s.popped| < |s.order| && s'.popped == s.popped + [s.order[|s.popped|]]
  {
    ReturnOwes(s, s');
    ReturnLinked(s, s');
    forall u ensures s'.At(u) == s.At(u) {}
  }

  lemma InvStep(s: State, s': State)
    requires Inv(s) && Step(s, s')
    ensures Inv(s')
    ensures s'.popped == s.popped || s'.popped == s.popped + [s'.order[|s.popped|]]
  {
    if PopStep(s, s') {
      if s'.popped == s.popped {
        PopProceeds(s, s');
      } else {
        PopReturns(s, s');
      }
    } else {
      var t :| Clear(s, t, s') || Exchange(s, t, s') || Fill(s, t, s');
      if Clear(s, t, s') {
        ClearKeeps(s, t, s');
      } else if Exchange(s, t, s') {
        ExchangeKeeps(s, t, s');
      } else {
        FillKeeps(s, t, s');
      }
    }
  }

  // ---------------------------------------------------------------- what users of the box rely on

  lemma {:induction false} RunInv(run: seq<State>, k: nat)
    requires Run(run) && k < |run|
    ensures Inv(run[k])
  {
    if k > 0 {
      RunInv(run, k - 1);
      assert Follows(run, k);
      InvStep(run[k - 1], run[k]);
    }
  }

  // Nothing is lost, duplicated or reordered: what has been popped is a prefix of the pushes in the order in
  // which they exchanged my_last.
  lemma PoppedInOrder(run: seq<State>, k: nat)
    requires Run(run) && k < |run|
    ensures run[k].popped <= run[k].order
    ensures forall i, j :: 0 <= i < j < |run[k].popped| ==> run[k].popped[i] != run[k].popped[j]
  {
    RunInv(run, k);
  }

  // The items reachable from a pointer.
  ghost predicate Spells(s: State, from: Ptr, items: seq<Proxy>)
    decreases |items|
  {
    if items == [] then from == Null else from == To(items[0]) && Spells(s, s.Next(items[0]), items[1..])
  }

  lemma {:induction false} SpellsRest(s: State, i: nat)
    requires Inv(s) && |s.popped| < i <= |s.order| && forall t :: !s.At(t).Exchanged?
    ensures Spells(s, s.Next(s.order[i - 1]), s.order[i..])
    decreases |s.order| - i
  {
    if i < |s.order| {
      SpellsRest(s, i + 1);
      assert LinkOf(s, i) == NextOf(s.order[i - 1]) && !Owed(s, i);
      assert s.order[i..][0] == s.order[i] && s.order[i..][1..] == s.order[i + 1..];
    }
  }

  // When no thread is inside push or pop, the box holds exactly the items not popped, in order.
  lemma QuietBoxHoldsTheRest(run: seq<State>, k: nat)
    requires Run(run) && k < |run|
    requires run[k].popper.NotPopping? && forall t :: !run[k].At(t).Exchanged?
    ensures run[k].popped <= run[k].order
    ensures Spells(run[k], run[k].first, run[k].order[|run[k].popped|..])
  {
    RunInv(run, k);
    var s := run[k];
    var n := |s.popped|;
    if n < |s.order| {
      SpellsRest(s, n + 1);
      assert !Owed(s, n);
      assert s.order[n..][0] == s.order[n] && s.order[n..][1..] == s.order[n + 1..];
    }
  }

  // A popper that found the box in transition waits for a link some pusher is about to fill, or has filled.
  lemma WaitingIsOwed(run: seq<State>, k: nat)
    requires Run(run) && k < |run| && run[k].popper.Waiting?
    ensures run[k].Next(run[k].popper.p).To? || exists t :: run[k].At(t).Exchanged? && run[k].At(t).link == NextOf(run[k].popper.p)
  {
    RunInv(run, k);
    var s := run[k];
    var n := |s.popped|;
    assert LinkOf(s, n + 1) == NextOf(s.popper.p);
    if s.Next(s.popper.p) == Null {
      assert Owed(s, n + 1);
    }
  }

  // ---------------------------------------------------------------- what pop answers

  // A call of pop returns NULL only when my_first is NULL as the call begins, and otherwise the next item in the
  // order of the exchanges; no other step answers anything.
  lemma PopAnswers(run: seq<State>, k: nat)
    requires Run(run) && 0 < k < |run| && run[k].answers != run[k - 1].answers
    ensures var s, s' := run[k - 1], run[k];
      || (s'.answers == s.answers + [Null] && s'.popped == s.popped && s.popper.NotPopping? && s.first == Null)
      || (|s.popped| < |s.order| && s'.popped == s.popped + [s.order[|s.popped|]]
          && s'.answers == s.answers + [To(s.order[|s.popped|])])
  {
    RunInv(run, k - 1);
    assert Follows(run, k);
    AnswerStep(run[k - 1], run[k]);
  }

  lemma AnswerStep(s: State, s': State)
    requires Inv(s) && Step(s, s') && s'.answers != s.answers
    ensures PopStep(s, s')
    ensures s'.popped == s.popped ==> s'.answers == s.answers + [Null] && s.popper.NotPopping? && s.first == Null
    ensures s'.popped != s.popped ==>
      && |s.popped| < |s.order| && s'.popped == s.popped + [s.order[|s.popped|]]
      && s'.answers == s.answers + [To(s.order[|s.popped|])]
  {
    assert PopStep(s, s');
    if s'.popped != s.popped {
      PopReturns(s, s');
    } else {
      ProceedFrame(s, s');
    }
  }

  // x is the next item, and the call of pop under way, or the next one, will find it.
  ghost predicate Promised(s: State, n: nat, x: Proxy) {
    |s.popped| == n < |s.order| && s.order[n] == x && (s.popper.NotPopping? ==> s.first == To(x))
  }

  lemma PromiseByPopper(s: State, s': State, n: nat, x: Proxy)
    requires Inv(s) && Promised(s, n, x) && PopStep(s, s')
    ensures if s'.answers == s.answers then Promised(s', n, x) else s'.answers == s.answers + [To(x)]
  {
    if s'.answers != s.answers {
      AnswerStep(s, s');
    } else {
      assert s'.popped == s.popped;
    }
  }

  lemma PromiseByPusher(s: State, t: Tid, s': State, n: nat, x: Proxy)
    requires Inv(s) && Promised(s, n, x) && (Clear(s, t, s') || Exchange(s, t, s') || Fill(s, t, s'))
    ensures Promised(s', n, x) && s'.answers == s.answers
  {
    if Fill(s, t, s') {
      var i :| |s.popped| <= i < |s.order| && OwesAt(s, t, i);
      assert Read(s, s.At(t).link) == Null;
    }
  }

  lemma PromiseStep(s: State, s': State, n: nat, x: Proxy)
    requires Inv(s) && Promised(s, n, x) && Step(s, s')
    ensures if s'.answers == s.answers then Promised(s', n, x) else s'.answers == s.answers + [To(x)]
  {
    if PopStep(s, s') {
      PromiseByPopper(s, s', n, x);
    } else {
      var t :| Clear(s, t, s') || Exchange(s, t, s') || Fill(s, t, s');
      PromiseByPusher(s, t, s', n, x);
    }
  }

  // What the calls of pop return after state k.
  lemma {:induction false} PromiseKept(run: seq<State>, k: nat, j: nat, n: nat, x: Proxy)
    requires Run(run) && k <= j < |run| && Promised(run[k], n, x)
    ensures run[k].answers <= run[j].answers
    ensures run[j].answers == run[k].answers ==> Promised(run[j], n, x)
    ensures |run[j].answers| > |run[k].answers| ==> run[j].answers[|run[k].answers|] == To(x)
    decreases j
  {
    if k < j {
      PromiseKept(run, k, j - 1, n, x);
      RunInv(run, j - 1);
      assert Follows(run, j);
      if run[j].answers != run[j - 1].answers {
        AnswerStep(run[j - 1], run[j]);
      }
      if run[j - 1].answers == run[k].answers {
        PromiseStep(run[j - 1], run[j], n, x);
      }
    }
  }

  // A call of pop that begins while no push is between its two steps, on a box with items left, hands out the
  // next one, whatever pushes do meanwhile.
  lemma QuietPopHandsOutTheNext(run: seq<State>, k: nat, j: nat)
    requires Run(run) && k <= j < |run| && run[k].popper.NotPopping? && forall t :: !run[k].At(t).Exchanged?
    requires |run[k].popped| < |run[k].order| && |run[j].answers| > |run[k].answers|
    ensures run[j].answers[|run[k].answers|] == To(run[k].order[|run[k].popped|])
  {
    RunInv(run, k);
    var n := |run[k].popped|;
    assert !Owed(run[k], n);
    PromiseKept(run, k, j, n, run[k].order[n]);
  }

  // No push is between its two steps.
  ghost predicate NoPush(s: State) { forall t {:trigger s.At(t)} :: !s.At(t).Exchanged? }

  lemma QuietNext(s: State)
    requires Inv(s) && NoPush(s)
    ensures |s.popped| + 1 < |s.order| ==> s.Next(s.order[|s.popped|]) == To(s.order[|s.popped| + 1])
  {
    var n := |s.popped|;
    if n + 1 < |s.order| {
      assert LinkOf(s, n + 1) == NextOf(s.order[n]) && !Owed(s, n + 1);
    }
  }

  // The popper has taken n steps and given its answer.
  ghost predicate Answers(s: State, n: nat, e: State)
    decreases n
  {
    if n == 0 then e == s && s.popper.NotPopping? else exists u :: PopStep(s, u) && Answers(u, n - 1, e)
  }

  lemma OneMore(s: State, u: State, n: nat, e: State)
    requires PopStep(s, u) && Answers(u, n, e)
    ensures Answers(s, n + 1, e)
  {
  }

  lemma Last(s: State, e: State)
    requires PopStep(s, e) && e.popper.NotPopping?
    ensures Answers(s, 1, e)
  {
    assert Answers(e, 0, e);
  }

  lemma NoPushStays(s: State, u: State)
    requires NoPush(s) && u.pushers == s.pushers
    ensures NoPush(u)
  {
    forall t ensures !u.At(t).Exchanged? { assert u.At(t) == s.At(t); }
  }

  lemma EndsWaiting(s: State) returns (n: nat, e: State)
    requires Inv(s) && s.popper.Waiting? && NoPush(s)
    ensures n <= 2 && Answers(s, n, e) && e.answers == s.answers + [To(s.popper.p)]
  {
    QuietNext(s);
    var p, q := s.popper.p, s.order[|s.popped| + 1];
    var a := s.Pop(Arrived(p, q));
    e := a.Store(First, To(q)).Return(p);
    Last(a, e);
    OneMore(s, a, 1, e);
    n := 2;
  }

  // Popping the next item, from the moment my_first has been cleared.
  lemma EndsOpen(s: State) returns (n: nat, e: State)
    requires Inv(s) && s.popper.Open() && NoPush(s)
    ensures n <= 3 && Answers(s, n, e) && e.answers == s.answers + [To(s.popper.p)]
  {
    var p := s.popper.p;
    if s.popper.Arrived? {
      n, e := 1, s.Store(First, To(s.popper.q)).Return(p);
      Last(s, e);
    } else if s.popper.Waiting? {
      n, e := EndsWaiting(s);
    } else if s.last == NextOf(p) {
      n, e := 1, s.(last := First).Return(p);
      Last(s, e);
    } else {
      var a := s.Pop(Waiting(p));
      PopProceeds(s, a);
      NoPushStays(s, a);
      n, e := EndsWaiting(a);
      OneMore(s, a, n, e);
      n := n + 1;
    }
  }

  lemma EndsTaken(s: State) returns (n: nat, e: State)
    requires Inv(s) && (s.popper.Took? || s.popper.Second? || s.popper.Single?) && NoPush(s)
    ensures n <= 5 && Answers(s, n, e) && e.answers == s.answers + [To(s.popper.p)]
    decreases if s.popper.Took? then 1 else 0
  {
    var p := s.popper.p;
    if s.popper.Took? {
      var a := s.Pop(if s.Next(p).To? then Second(p, s.Next(p).p) else Single(p));
      PopProceeds(s, a);
      if a.popper.Second? {
        e := a.Store(First, To(a.popper.q)).Return(p);
        Last(a, e);
        n := 1;
      } else {
        NoPushStays(s, a);
        n, e := EndsSingle(a);
      }
      OneMore(s, a, n, e);
      n := n + 1;
    } else if s.popper.Second? {
      n, e := 1, s.Store(First, To(s.popper.q)).Return(p);
      Last(s, e);
    } else {
      n, e := EndsSingle(s);
    }
  }

  lemma EndsSingle(s: State) returns (n: nat, e: State)
    requires Inv(s) && s.popper.Single? && NoPush(s)
    ensures n <= 4 && Answers(s, n, e) && e.answers == s.answers + [To(s.popper.p)]
  {
    var a := s.Store(First, Null).Pop(Detached(s.popper.p));
    PopProceeds(s, a);
    NoPushStays(s, a);
    n, e := EndsOpen(a);
    OneMore(s, a, n, e);
    n := n + 1;
  }

  // The popper alone, wherever it stands, when no push is between its two steps: it comes to its answer, which is the
  // next item, or NULL for a call that begins on an empty box.
  lemma PopEnds(s: State) returns (n: nat, e: State)
    requires Inv(s) && NoPush(s)
    ensures 0 < n <= 6 && Answers(s, n, e)
    ensures e.answers == s.answers + [if |s.popped| < |s.order| then To(s.order[|s.popped|]) else Null]
  {
    if s.popper.NotPopping? {
      if |s.popped| == |s.order| {
        n, e := 1, s.(answers := s.answers + [Null]);
        Last(s, e);
      } else {
        assert !Owed(s, |s.popped|);
        var a := s.Pop(Took(s.order[|s.popped|]));
        PopProceeds(s, a);
        NoPushStays(s, a);
        n, e := EndsTaken(a);
        OneMore(s, a, n, e);
        n := n + 1;
      }
    } else if s.popper.Open() {
      n, e := EndsOpen(s);
    } else {
      n, e := EndsTaken(s);
    }
  }

  // A pusher alone: three steps, and its proxy is the last in the order.
  lemma PushEnds(s: State, t: Tid, p: Proxy) returns (path: seq<State>)
    requires Inv(s) && s.At(t).NotPushing? && p !in s.order && forall u :: s.At(u) != Cleared(p)
    ensures |path| == 4 && path[0] == s
    ensures Clear(path[0], t, path[1]) && Exchange(path[1], t, path[2]) && Fill(path[2], t, path[3])
    ensures path[3].order == s.order + [p] && path[3].popped == s.popped && path[3].At(t).NotPushing?
  {
    var a := s.Push(t, Cleared(p)).Store(NextOf(p), Null);
    var b := a.Push(t, Exchanged(p, a.last)).(last := NextOf(p), order := a.order + [p]);
    path := [s, a, b, b.Push(t, NotPushing).Store(a.last, To(p))];
  }
}
