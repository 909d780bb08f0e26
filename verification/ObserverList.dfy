// The reference counts of the observer list: what every proper step keeps.
module ObserverList {
  import opened ObserverModel
  import opened ObserverLinks

  // ---------------------------------------------------------------- references

  // One token for each reference a thread holds on p.
  function Tokens(threads: map<Tid, Local>, p: Proxy): set<(Tid, nat)> {
    set t, k: nat | t in threads && k < threads[t].Count(p) :: (t, k)
  }

  function References(s: State, p: Proxy): nat {
    |Tokens(s.threads, p)| + if p in s.observed then 1 else 0
  }

  function TokensOf(t: Tid, n: nat): set<(Tid, nat)> { set k: nat | k < n :: (t, k) }

  lemma {:induction false} TokensOfOne(t: Tid, n: nat)
    ensures |TokensOf(t, n)| == n
  {
    if n > 0 {
      TokensOfOne(t, n - 1);
      assert TokensOf(t, n) == TokensOf(t, n - 1) + {(t, n - 1)};
    }
  }

  lemma TokensSplit(threads: map<Tid, Local>, t: Tid, p: Proxy)
    requires t in threads
    ensures |Tokens(threads, p)| == |Tokens(threads - {t}, p)| + threads[t].Count(p)
  {
    var others, mine := Tokens(threads - {t}, p), TokensOf(t, threads[t].Count(p));
    assert Tokens(threads, p) == others + mine;
    assert others !! mine;
    TokensOfOne(t, threads[t].Count(p));
  }

  // Changing one thread changes the number of references by what that thread holds.
  lemma ReferencesAfter(s: State, t: Tid, l: Local, s': State, p: Proxy)
    requires s'.threads == s.threads[t := l] && (p in s'.observed <==> p in s.observed)
    ensures References(s', p) == References(s, p) + l.Count(p) - s.At(t).Count(p)
  {
    assert s'.threads - {t} == s.threads - {t};
    TokensSplit(s'.threads, t, p);
    if t in s.threads {
      TokensSplit(s.threads, t, p);
    } else {
      assert s.threads - {t} == s.threads;
    }
  }

  lemma HasToken(threads: map<Tid, Local>, t: Tid, p: Proxy)
    requires t in threads && threads[t].Count(p) > 0
    ensures |Tokens(threads, p)| > 0
  {
    assert (t, 0) in Tokens(threads, p);
  }

  lemma CountWith(l: Local, f: Frame, p: Proxy)
    requires l.stack != []
    ensures l.With(f).Count(p) == l.Count(p) - l.Top().Count(p) + f.Count(p)
  {
    assert l.With(f).stack[..|l.stack| - 1] == l.Below();
  }

  lemma CountPush(l: Local, f: Frame, p: Proxy)
    ensures l.(stack := l.stack + [f]).Count(p) == l.Count(p) + f.Count(p)
  {
    assert (l.stack + [f])[..|l.stack|] == l.stack;
  }

  lemma CountBegin(l: Local, kind: Kind, p: Proxy)
    ensures l.Begin(kind).Count(p) == l.Count(p) + if l.saved == To(p) && !l.held then 1 else 0
  {
    var outer := if l.stack == [] then [] else l.Below() + [l.Top().(inner := true)];
    var m := l.Begin(kind);
    assert m.stack[..|m.stack| - 1] == outer;
    if l.stack != [] {
      assert outer[..|outer| - 1] == l.Below();
    }
    assert StackCount(outer, p) == StackCount(l.stack, p);
  }

  lemma CountReturn(l: Local, result: Ptr, p: Proxy)
    requires l.stack != []
    ensures l.Return(result).Count(p) + l.Top().Count(p)
         == l.Count(p) + if l.Top().kind.Entry? then (if result == To(p) then 1 else 0) - (if l.held && l.saved == To(p) then 1 else 0) else 0
  {
  }

  // ---------------------------------------------------------------- the invariant

  // Counts are right, and a linked proxy has a reference.
  ghost predicate Counted(s: State) {
    && (forall p :: p in s.order ==> s.Rc(p) == References(s, p) && s.Rc(p) >= 1)
    && (forall p :: p in s.observed ==> p in s.order)
    && (forall p :: p in s.order ==> p in s.alive)
  }

  predicate Linked(s: State, p: Ptr) { p.To? ==> p.p in s.order }

  ghost predicate FrameOk(s: State, f: Frame) {
    && Linked(s, f.last) && Linked(s, f.own) && (f.pc.Gone? || Linked(s, f.drop)) && Linked(s, f.cur)
    && (f.cur.To? ==> f.Reads())
    && (f.pc.Test? ==> f.cur.To?)
    && (f.pc.Calling? || f.Reads() ==> f.drop == Null && !f.kind.Release?)
    && (f.Reads() ==> f.own == Null)
    && (f.pc.Calling? ==> f.last == Null && f.own.To?)
    && (!f.Reads() && !f.pc.Calling? ==> f.drop.To? && f.last == Null && (f.own.To? <==> !f.final || f.kind.Entry?))
    && (f.kind.Release? ==> f.final && f.own == Null)
    && (f.pc.Gone? ==> f.drop.p in s.alive && f.drop.p !in s.order)
  }

  // While a pass is under way the field holds a position of its own exactly when an entry pass has begun, and
  // ended, inside it.
  predicate InnerHeld(l: Local) {
    var n := |l.stack|;
    n > 0 ==>
      && (!l.Top().kind.Release? ==> (l.Top().inner <==> l.held))
      && (l.Top().kind.Release? && n > 1 ==> (l.stack[n - 2].inner <==> l.held))
  }

  ghost predicate LocalOk(s: State, l: Local) {
    && (l.held ==> l.saved.To? && Linked(s, l.saved))
    && (forall i :: 0 <= i < |l.stack| ==> FrameOk(s, l.stack[i]))
    && (forall i :: 0 <= i < |l.stack| - 1 ==> l.stack[i].pc.Calling?)
    && (forall i :: 0 < i < |l.stack| ==> !l.stack[i].kind.Exit?)
    && (forall i {:trigger l.stack[i].inner} :: 0 <= i < |l.stack| - 1 && l.stack[i + 1].kind.Entry? ==> l.stack[i].inner)
    && InnerHeld(l)
  }

  ghost predicate Locals(s: State) {
    && (forall t {:trigger s.At(t)} :: LocalOk(s, s.At(t)))
    && (forall t, u {:trigger s.At(t), s.At(u)} ::
          t != u && s.At(t).At(Gone) && s.At(u).At(Gone) ==> s.At(t).Top().drop != s.At(u).Top().drop)
  }

  ghost predicate Inv(s: State) { Links(s) && Counted(s) && Locals(s) }

  // What is counted for a thread is linked.
  lemma {:induction false} CountedIsLinked(s: State, stack: seq<Frame>, p: Proxy)
    requires (forall i :: 0 <= i < |stack| ==> FrameOk(s, stack[i])) && StackCount(stack, p) > 0
    ensures p in s.order
  {
    var n := |stack| - 1;
    if stack[n].Count(p) > 0 {
      assert FrameOk(s, stack[n]);
    } else {
      CountedIsLinked(s, stack[..n], p);
    }
  }

  lemma {:induction false} FrameCounts(stack: seq<Frame>, i: nat, p: Proxy)
    requires i < |stack|
    ensures stack[i].Count(p) <= StackCount(stack, p)
    ensures i < |stack| - 1 ==> stack[i].Count(p) + stack[|stack| - 1].Count(p) <= StackCount(stack, p)
  {
    var n := |stack| - 1;
    if i < n {
      FrameCounts(stack[..n], i, p);
    }
  }

  // ---------------------------------------------------------------- changes of one thread

  // A step that moves references of one thread and the count of one proxy together keeps the counts right.
  lemma Recount(s: State, t: Tid, l: Local, p: Proxy, d: int, s': State)
    requires Counted(s) && s'.order == s.order && s'.observed == s.observed && s'.alive == s.alive
    requires s'.threads == s.threads[t := l]
    requires forall q :: q in s.order ==> s'.Rc(q) == s.Rc(q) + if q == p then d else 0
    requires forall q :: q in s.order ==> l.Count(q) == s.At(t).Count(q) + if q == p then d else 0
    requires p in s.order && d < 0 ==> s.Rc(p) + d >= 1 || p in s.observed
    ensures Counted(s')
  {
    forall q | q in s.order ensures s'.Rc(q) == References(s', q) && s'.Rc(q) >= 1 {
      ReferencesAfter(s, t, l, s', q);
    }
  }

  // The other threads when only one changes and the list does not.
  lemma OnlyOne(s: State, t: Tid, l: Local, s': State)
    requires Locals(s) && s'.order == s.order && s'.alive == s.alive
    requires s'.threads == s.threads[t := l] && LocalOk(s, l) && !l.At(Gone)
    ensures Locals(s')
  {
    forall u ensures s'.At(u) == if u == t then l else s.At(u) {}
    forall u ensures LocalOk(s', s'.At(u)) {
      assert LocalOk(s, s.At(u));
      SameFrames(s, s', s'.At(u));
    }
  }

  lemma SameFrames(s: State, s': State, l: Local)
    requires LocalOk(s, l) && s'.order == s.order && s'.alive == s.alive
    ensures LocalOk(s', l)
  {
    forall i | 0 <= i < |l.stack| ensures FrameOk(s', l.stack[i]) {
      assert FrameOk(s, l.stack[i]);
    }
  }

  lemma WithOk(s: State, l: Local, f: Frame)
    requires LocalOk(s, l) && l.stack != [] && FrameOk(s, f)
    requires f.kind == l.Top().kind && f.inner == l.Top().inner
    ensures LocalOk(s, l.With(f))
  {
    var m := l.With(f);
    forall i | 0 <= i < |m.stack| ensures FrameOk(s, m.stack[i]) {
      assert i < |m.stack| - 1 ==> m.stack[i] == l.stack[i];
    }
  }

  lemma ReturnOk(s: State, l: Local, result: Ptr)
    requires LocalOk(s, l) && l.stack != [] && Linked(s, result)
    requires l.Top().kind.Entry? ==> result.To? || |l.stack| == 1
    ensures LocalOk(s, l.Return(result)) && !l.Return(result).At(Gone)
  {
    var m := l.Return(result);
    forall i | 0 <= i < |m.stack| ensures FrameOk(s, m.stack[i]) {
      assert m.stack[i] == l.stack[i];
    }
  }

  // ---------------------------------------------------------------- every proper step keeps the invariant

  lemma CreateKeeps(s: State, t: Tid, s': State)
    requires Inv(s) && Create(s, t, s')
    ensures Inv(s')
  {
    var p :| p !in s.alive && s' == Append(s, p);
    AppendLinks(s, p);
    assert s'.order == s.order + [p] && s'.threads == s.threads;
    assert Tokens(s.threads, p) == {} by {
      forall u | u in s.threads ensures s.threads[u].Count(p) == 0 {
        NotCounted(s, u, p);
      }
    }
    forall u ensures s'.At(u) == s.At(u) && LocalOk(s', s.At(u)) {
      assert LocalOk(s, s.At(u));
      forall i | 0 <= i < |s.At(u).stack| ensures FrameOk(s', s.At(u).stack[i]) {
        assert FrameOk(s, s.At(u).stack[i]);
      }
    }
  }

  lemma NotCounted(s: State, u: Tid, p: Proxy)
    requires Inv(s) && p !in s.order
    ensures s.At(u).Count(p) == 0
  {
    assert LocalOk(s, s.At(u));
    if StackCount(s.At(u).stack, p) > 0 {
      CountedIsLinked(s, s.At(u).stack, p);
    }
  }

  lemma ForgetCounts(s: State, t: Tid, p: Proxy, m: Local, s': State)
    requires Counted(s) && p in s.observed && m == s.At(t).(stack := s.At(t).stack + [Releasing(p)])
    requires s'.threads == s.threads[t := m] && s'.observed == s.observed - {p}
    requires s'.count == s.count && s'.order == s.order && s'.alive == s.alive
    ensures Counted(s')
  {
    forall q | q in s'.order ensures s'.Rc(q) == References(s', q) {
      ReferencesAfter(s, t, m, s.Move(t, m), q);
      CountPush(s.At(t), Releasing(p), q);
      assert s.Move(t, m).threads == s'.threads;
    }
  }

  lemma ForgetLocals(s: State, t: Tid, p: Proxy, s': State)
    requires Locals(s) && p in s.order && s.At(t).UserCode()
    requires s'.threads == s.threads[t := s.At(t).(stack := s.At(t).stack + [Releasing(p)])]
    requires s'.order == s.order && s'.alive == s.alive
    ensures Locals(s')
  {
    var l, m := s.At(t), s.At(t).(stack := s.At(t).stack + [Releasing(p)]);
    assert LocalOk(s, l);
    forall i | 0 <= i < |m.stack| ensures FrameOk(s, m.stack[i]) {
      assert i < |l.stack| ==> m.stack[i] == l.stack[i];
    }
    OnlyOne(s, t, m, s');
  }

  lemma ForgetKeeps(s: State, t: Tid, s': State)
    requires Inv(s) && Forget(s, t, s')
    ensures Inv(s')
  {
    var p :| p in s.observed
      && s' == s.Move(t, s.At(t).(stack := s.At(t).stack + [Releasing(p)])).(observed := s.observed - {p});
    ForgetCounts(s, t, p, s'.At(t), s');
    ForgetLocals(s, t, p, s');
  }

  lemma BeginKeeps(s: State, t: Tid, kind: Kind)
    requires Inv(s) && s.At(t).UserCode() && (s.At(t).saved.To? ==> s.At(t).held)
    requires kind.Entry? || (kind.Exit? && s.At(t).stack == [])
    ensures Inv(s.Move(t, s.At(t).Begin(kind)))
  {
    var l, m, s' := s.At(t), s.At(t).Begin(kind), s.Move(t, s.At(t).Begin(kind));
    assert LocalOk(s, l);
    forall i | 0 <= i < |m.stack| ensures FrameOk(s, m.stack[i]) {
      assert i < |l.stack| ==> m.stack[i] == l.stack[i] || (i == |l.stack| - 1 && m.stack[i] == l.Top().(inner := true));
    }
    OnlyOne(s, t, m, s');
    forall q ensures m.Count(q) == l.Count(q) { CountBegin(l, kind, q); }
    Recount(s, t, m, 0, 0, s');
  }

  lemma FreeKeeps(s: State, t: Tid)
    requires Inv(s) && s.At(t).stack == [] && !s.At(t).held
    ensures Inv(s.Move(t, IDLE))
  {
    OnlyOne(s, t, IDLE, s.Move(t, IDLE));
    Recount(s, t, IDLE, 0, 0, s.Move(t, IDLE));
  }

  // The frame on top changes, with the references it counts.
  lemma FrameKeeps(s: State, t: Tid, f: Frame, p: Proxy, d: int, s': State)
    requires Counted(s) && Locals(s) && s.At(t).stack != [] && FrameOk(s, f) && !f.pc.Gone?
    requires f.kind == s.At(t).Top().kind && f.inner == s.At(t).Top().inner
    requires s' == (if d == 0 then s else s.Add(p, d)).Move(t, s.At(t).With(f))
    requires forall q :: q in s.order ==> f.Count(q) == s.At(t).Top().Count(q) + if q == p then d else 0
    requires p in s.order && d < 0 ==> s.Rc(p) + d >= 1 || p in s.observed
    ensures Counted(s') && Locals(s')
  {
    var l := s.At(t);
    assert LocalOk(s, l);
    WithOk(s, l, f);
    OnlyOne(s, t, l.With(f), s');
    forall q ensures l.With(f).Count(q) == l.Count(q) - l.Top().Count(q) + f.Count(q) { CountWith(l, f, q); }
    Recount(s, t, l.With(f), p, d, s');
  }

  // The call on top returns.
  lemma ReturnKeeps(s: State, t: Tid, result: Ptr, p: Proxy, d: int, s': State)
    requires Counted(s) && Locals(s) && s.At(t).stack != [] && Linked(s, result)
    requires s.At(t).Top().kind.Entry? ==> !s.At(t).held && (result.To? || |s.At(t).stack| == 1)
    requires s' == (if d == 0 then s else s.Add(p, d)).Move(t, s.At(t).Return(result))
    requires forall q :: q in s.order ==>
      (if s.At(t).Top().kind.Entry? && result == To(q) then 1 else 0) == s.At(t).Top().Count(q) + if q == p then d else 0
    requires p in s.order && d < 0 ==> s.Rc(p) + d >= 1 || p in s.observed
    ensures Counted(s') && Locals(s')
  {
    var l, m := s.At(t), s.At(t).Return(result);
    assert LocalOk(s, l);
    ReturnOk(s, l, result);
    OnlyOne(s, t, m, s');
    forall q ensures m.Count(q) + l.Top().Count(q) == l.Count(q) + if l.Top().kind.Entry? && result == To(q) then 1 else 0 {
      CountReturn(l, result, q);
    }
    Recount(s, t, m, p, d, s');
  }

  lemma QuickKeeps(s: State, t: Tid)
    requires Counted(s) && Locals(s) && s.At(t).At(Quick)
    ensures Counted(Walk(s, t)) && Locals(Walk(s, t))
  {
    var f := s.At(t).Top();
    assert LocalOk(s, s.At(t)) && FrameOk(s, f);
    if f.last.To? && f.last.p in s.observed {
      FrameKeeps(s, t, f.(pc := Advance, last := Null), f.last.p, -1, Walk(s, t));
    } else {
      FrameKeeps(s, t, f.(pc := Advance), 0, 0, Walk(s, t));
    }
  }

  // Leaving the section, at the end of the list or to call an observer, perhaps with a new reference.
  lemma LeaveKeeps(s: State, t: Tid, own: Ptr, final: bool, s': State)
    requires Counted(s) && Locals(s) && s.At(t).Reads()
    requires Linked(s, own) && (own == Null ==> final && (s.At(t).Top().kind.Entry? ==> s.order == []))
    requires s' == (if own.To? then s.Add(own.p, 1) else s).Move(t, Leave(s.At(t), own, final))
    requires final && s.At(t).Top().last == Null && s.At(t).Top().kind.Entry? ==>
      !s.At(t).held && (own.To? || |s.At(t).stack| == 1)
    requires final && own.To? ==> s.At(t).Top().kind.Entry?
    ensures Counted(s') && Locals(s')
  {
    var l, f := s.At(t), s.At(t).Top();
    assert LocalOk(s, l) && FrameOk(s, f);
    var p, d := if own.To? then own.p else 0, if own.To? then 1 else 0;
    if f.last.To? {
      FrameKeeps(s, t, f.(pc := Slow, drop := f.last, last := Null, cur := Null, own := own, final := final), p, d, s');
    } else if final {
      ReturnKeeps(s, t, own, p, d, s');
    } else {
      FrameKeeps(s, t, f.(pc := Calling, cur := Null, own := own), p, d, s');
    }
  }

  // Something is linked while a call waits for another one.
  lemma NotEmpty(s: State, t: Tid)
    requires Locals(s) && |s.At(t).stack| > 1
    ensures s.order != []
  {
    var l := s.At(t);
    assert LocalOk(s, l);
    assert FrameOk(s, l.stack[|l.stack| - 2]);
  }

  lemma AdvanceKeeps(s: State, t: Tid)
    requires Links(s) && Counted(s) && Locals(s) && s.At(t).At(Advance) && !Overwrites(s.At(t), Walk(s, t).At(t))
    ensures Counted(Walk(s, t)) && Locals(Walk(s, t))
  {
    var l, f, s' := s.At(t), s.At(t).Top(), Walk(s, t);
    assert LocalOk(s, l) && FrameOk(s, f);
    NextIsLinked(s, f.cur);
    if f.cur.To? && s.Next(f.cur.p).To? {
      FrameKeeps(s, t, f.(pc := Test, cur := s.Next(f.cur.p)), 0, 0, s');
    } else if f.cur == Null && s.first.To? {
      FrameKeeps(s, t, f.(pc := Test, cur := s.first), 0, 0, s');
    } else {
      if |l.stack| > 1 { NotEmpty(s, t); }
      LeaveKeeps(s, t, if f.kind.Entry? then f.cur else Null, true, s');
    }
  }

  lemma TestKeeps(s: State, t: Tid)
    requires Counted(s) && Locals(s) && s.At(t).At(Test)
    ensures Counted(Walk(s, t)) && Locals(Walk(s, t))
  {
    var f := s.At(t).Top();
    assert LocalOk(s, s.At(t)) && FrameOk(s, f);
    if f.cur.p in s.observed {
      LeaveKeeps(s, t, f.cur, false, Walk(s, t));
    } else {
      FrameKeeps(s, t, f.(pc := Quick), 0, 0, Walk(s, t));
    }
  }

  lemma WalkLinks(s: State, t: Tid)
    requires Links(s) && s.At(t).Reads()
    ensures Links(Walk(s, t)) && Walk(s, t).order == s.order
  {
  }

  lemma WalkKeeps(s: State, t: Tid)
    requires Inv(s) && s.At(t).Reads() && !Overwrites(s.At(t), Walk(s, t).At(t))
    ensures Inv(Walk(s, t))
  {
    WalkLinks(s, t);
    if s.At(t).At(Quick) {
      QuickKeeps(s, t);
    } else if s.At(t).At(Advance) {
      AdvanceKeeps(s, t);
    } else {
      TestKeeps(s, t);
    }
  }

  // A reference that is not the last one is given up by lowering the count.
  lemma DropOne(s: State, t: Tid, s': State)
    requires Inv(s) && (s.At(t).At(Slow) || s.At(t).At(Want)) && s.At(t).Top().drop.To? && s.Rc(s.At(t).Top().drop.p) > 1
    requires s' == s.Add(s.At(t).Top().drop.p, -1).Move(t, Dropped(s.At(t))) && !Overwrites(s.At(t), s'.At(t))
    ensures Inv(s')
  {
    var f := s.At(t).Top();
    assert LocalOk(s, s.At(t)) && FrameOk(s, f);
    if f.final {
      ReturnKeeps(s, t, f.own, f.drop.p, -1, s');
    } else {
      FrameKeeps(s, t, f.(pc := Calling, drop := Null), f.drop.p, -1, s');
    }
  }

  // When the count is one, the thread that gives its reference up holds the only one.
  lemma LastReference(s: State, t: Tid, p: Proxy)
    requires Inv(s) && s.At(t).At(Want) && s.At(t).Top().drop == To(p) && s.Rc(p) == 1
    ensures p in s.order && p !in s.observed && s.At(t).Count(p) == 1
    ensures forall u :: u != t ==> s.At(u).Count(p) == 0
  {
    var l := s.At(t);
    assert LocalOk(s, l) && FrameOk(s, l.Top());
    FrameCounts(l.stack, |l.stack| - 1, p);
    TokensSplit(s.threads, t, p);
    forall u | u != t ensures s.At(u).Count(p) == 0 {
      if s.At(u).Count(p) > 0 {
        HasToken(s.threads - {t}, u, p);
      }
    }
  }

  lemma Unmentioned(s: State, u: Tid, p: Proxy, i: nat)
    requires LocalOk(s, s.At(u)) && i < |s.At(u).stack| && !s.At(u).Reads()
    requires s.At(u).stack[i].Count(p) == 0
    ensures var f := s.At(u).stack[i]; f.last != To(p) && f.own != To(p) && f.cur != To(p) && (f.pc.Gone? || f.drop != To(p))
  {
    assert FrameOk(s, s.At(u).stack[i]);
    assert i < |s.At(u).stack| - 1 ==> s.At(u).stack[i].pc.Calling?;
  }

  lemma UnlinkCounts(s: State, t: Tid, p: Proxy, m: Local, s': State)
    requires Counted(s) && p !in s.observed && s'.threads == s.threads[t := m] && s'.alive == s.alive
    requires s'.observed == s.observed && forall q :: q != p ==> m.Count(q) == s.At(t).Count(q)
    requires forall q :: q in s'.order <==> q in s.order && q != p
    requires forall q :: q != p ==> s'.Rc(q) == s.Rc(q)
    ensures Counted(s')
  {
    forall q | q in s'.order ensures s'.Rc(q) == References(s', q) && s'.Rc(q) >= 1 {
      ReferencesAfter(s, t, m, s', q);
    }
  }

  // The calls of a thread that does not mention p are in order without it.
  lemma WithoutMention(s: State, u: Tid, p: Proxy, s': State)
    requires LocalOk(s, s.At(u)) && !s.At(u).Reads() && s.At(u).Count(p) == 0
    requires s'.alive == s.alive && forall q :: q in s'.order <==> q in s.order && q != p
    ensures LocalOk(s', s.At(u))
  {
    forall i | 0 <= i < |s.At(u).stack| ensures FrameOk(s', s.At(u).stack[i]) {
      FrameCounts(s.At(u).stack, i, p);
      Unmentioned(s, u, p, i);
      assert FrameOk(s, s.At(u).stack[i]);
    }
  }

  // Neither do the calls below the one that unlinks it.
  lemma UnlinkerBelow(s: State, t: Tid, p: Proxy, i: nat, s': State)
    requires LocalOk(s, s.At(t)) && s.At(t).At(Want) && s.At(t).Top().drop == To(p) && s.At(t).Count(p) == 1
    requires i < |s.At(t).stack| - 1 && s'.alive == s.alive && forall q :: q in s'.order <==> q in s.order && q != p
    ensures FrameOk(s', s.At(t).stack[i])
  {
    FrameCounts(s.At(t).stack, i, p);
    Unmentioned(s, t, p, i);
    assert FrameOk(s, s.At(t).stack[i]);
  }

  lemma UnlinkerOk(s: State, t: Tid, p: Proxy, s': State)
    requires LocalOk(s, s.At(t)) && s.At(t).At(Want) && s.At(t).Top().drop == To(p) && s.At(t).Count(p) == 1
    requires p in s.alive && s'.alive == s.alive && forall q :: q in s'.order <==> q in s.order && q != p
    ensures LocalOk(s', s.At(t).With(s.At(t).Top().(pc := Gone)))
  {
    var l := s.At(t);
    var f, m, n := l.Top().(pc := Gone), l.With(l.Top().(pc := Gone)), |l.stack| - 1;
    FrameCounts(l.stack, n, p);
    assert FrameOk(s, l.stack[n]);
    assert FrameOk(s', f);
    forall i | 0 <= i < |m.stack| ensures FrameOk(s', m.stack[i]) {
      if i < n {
        UnlinkerBelow(s, t, p, i, s');
        assert m.stack[i] == l.stack[i];
      }
    }
  }

  lemma UnlinkLocals(s: State, t: Tid, p: Proxy, s': State)
    requires Locals(s) && s.At(t).At(Want) && s.At(t).Top().drop == To(p) && p in s.order && p in s.alive && NoReaders(s)
    requires s.At(t).Count(p) == 1 && forall u :: u != t ==> s.At(u).Count(p) == 0
    requires s'.alive == s.alive && s'.threads == s.threads[t := s.At(t).With(s.At(t).Top().(pc := Gone))]
    requires forall q :: q in s'.order <==> q in s.order && q != p
    ensures Locals(s')
  {
    var m := s.At(t).With(s.At(t).Top().(pc := Gone));
    forall u ensures s'.At(u) == if u == t then m else s.At(u) {}
    forall u ensures LocalOk(s', s'.At(u)) {
      assert LocalOk(s, s.At(u));
      if u == t { UnlinkerOk(s, t, p, s'); } else { WithoutMention(s, u, p, s'); }
    }
    forall u | u != t && s.At(u).At(Gone) ensures s.At(u).Top().drop != To(p) {
      assert LocalOk(s, s.At(u)) && FrameOk(s, s.At(u).Top());
    }
  }

  // What unlinking changes, apart from the thread.
  lemma Unlinking(s: State, t: Tid, m: Local, p: Proxy, s': State)
    requires Links(s) && p in s.order && s' == Unlink(s.Add(p, -1), p).Move(t, m)
    ensures Links(s') && forall q :: q in s'.order <==> q in s.order && q != p
    ensures s'.threads == s.threads[t := m] && s'.alive == s.alive && s'.observed == s.observed
    ensures s'.Rc(p) == s.Rc(p) - 1 && forall q :: q != p ==> s'.Rc(q) == s.Rc(q)
  {
    var a := s.Add(p, -1);
    var i :| 0 <= i < |s.order| && s.order[i] == p;
    UnlinkLinks(a, i);
    UnlinkChanges(a, p);
  }

  lemma UnlinkKeeps(s: State, t: Tid, p: Proxy, s': State)
    requires Inv(s) && s.At(t).At(Want) && s.At(t).Top().drop == To(p) && s.Rc(p) == 1 && NoReaders(s)
    requires s' == Unlink(s.Add(p, -1), p).Move(t, s.At(t).With(s.At(t).Top().(pc := Gone)))
    ensures Inv(s') && p !in s'.order && s'.Rc(p) == 0
  {
    LastReference(s, t, p);
    var m := s.At(t).With(s.At(t).Top().(pc := Gone));
    Unlinking(s, t, m, p, s');
    forall q | q != p ensures m.Count(q) == s.At(t).Count(q) {
      CountWith(s.At(t), s.At(t).Top().(pc := Gone), q);
    }
    UnlinkCounts(s, t, p, m, s');
    UnlinkLocals(s, t, p, s');
  }

  lemma DeleteLocals(s: State, t: Tid, m: Local, p: Proxy, s': State)
    requires Locals(s) && s.At(t).At(Gone) && s.At(t).Top().drop == To(p) && LocalOk(s, m) && !m.At(Gone)
    requires s'.order == s.order && s'.threads == s.threads[t := m] && s'.alive == s.alive - {p}
    ensures Locals(s')
  {
    forall u ensures s'.At(u) == if u == t then m else s.At(u) {}
    forall u ensures LocalOk(s', s'.At(u)) {
      assert LocalOk(s, s.At(u));
      forall i | 0 <= i < |s'.At(u).stack| ensures FrameOk(s', s'.At(u).stack[i]) {
        assert FrameOk(s, s'.At(u).stack[i]);
        assert i < |s'.At(u).stack| - 1 ==> s'.At(u).stack[i].pc.Calling?;
        assert s'.At(u).stack[i].pc.Gone? ==> u != t && s.At(u).At(Gone);
      }
    }
  }

  lemma DeleteKeeps(s: State, t: Tid, s': State)
    requires Inv(s) && s.At(t).At(Gone) && s.At(t).Top().drop.To?
    requires s' == s.Move(t, Dropped(s.At(t))).(alive := s.alive - {s.At(t).Top().drop.p}) && !Overwrites(s.At(t), s'.At(t))
    ensures Inv(s')
  {
    var l, f, m := s.At(t), s.At(t).Top(), Dropped(s.At(t));
    assert LocalOk(s, l) && FrameOk(s, f);
    if f.final { ReturnOk(s, l, f.own); } else { WithOk(s, l, f.(pc := Calling, drop := Null)); }
    DeleteLocals(s, t, m, f.drop.p, s');
    forall q | q in s'.order ensures s'.Rc(q) == References(s', q) {
      ReferencesAfter(s, t, m, s', q);
      if f.final { CountReturn(l, f.own, q); } else { CountWith(l, f.(pc := Calling, drop := Null), q); }
    }
  }

  lemma ResumeKeeps(s: State, t: Tid, s': State)
    requires Inv(s) && s.At(t).At(Calling)
    requires var f := s.At(t).Top(); s' == s.Move(t, s.At(t).With(f.(pc := Quick, last := f.own, cur := f.own, own := Null)))
    ensures Inv(s')
  {
    var f := s.At(t).Top();
    assert LocalOk(s, s.At(t)) && FrameOk(s, f);
    FrameKeeps(s, t, f.(pc := Quick, last := f.own, cur := f.own, own := Null), 0, 0, s');
  }

  lemma GiveUpKeeps(s: State, t: Tid, s': State)
    requires Inv(s) && GiveUp(s, t, s') && !Overwrites(s.At(t), s'.At(t))
    ensures Inv(s')
  {
    var l, f := s.At(t), s.At(t).Top();
    assert LocalOk(s, l) && FrameOk(s, f);
    if f.pc.Calling? {
      ResumeKeeps(s, t, s');
    } else if f.pc.Gone? {
      DeleteKeeps(s, t, s');
    } else if s.Rc(f.drop.p) > 1 {
      DropOne(s, t, s');
    } else if f.pc.Want? {
      UnlinkKeeps(s, t, f.drop.p, s');
    } else {
      FrameKeeps(s, t, f.(pc := Want), 0, 0, s');
    }
  }

  lemma InvStep(s: State, t: Tid, s': State)
    requires Inv(s) && ThreadStep(s, t, s') && !Misuse(s.At(t), s'.At(t))
    ensures Inv(s')
  {
    if Create(s, t, s') {
      CreateKeeps(s, t, s');
    } else if Forget(s, t, s') {
      ForgetKeeps(s, t, s');
    } else if Begin(s, t, s') {
      BeginKeeps(s, t, if s' == s.Move(t, s.At(t).Begin(Entry)) then Entry else Exit);
    } else if Free(s, t, s') {
      FreeKeeps(s, t);
    } else if GiveUp(s, t, s') {
      GiveUpKeeps(s, t, s');
    } else {
      WalkKeeps(s, t);
    }
  }
}
