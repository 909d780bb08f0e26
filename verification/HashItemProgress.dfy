// No node is left behind: from every reachable state of the concurrent hash map all accessors can be released and all
// operations under way can end, and then every node that has been removed is deleted.
module HashItemProgress {
  import opened HashItems

  // ---------------------------------------------------------------- what is left to do

  // How far a thread is from the end of its operation. One that looks for its node in the wrong bucket has to try
  // another.
  function Rank(p: Pc, place: map<Node, Bucket>): nat {
    match p
    case Idle => 0
    case Searching(_, _) => 1
    case Found(_, _, _, _, _) => 1
    case Deleting(_) => 1
    case Entered(_) => 2
    case Excluded(_) => 2
    case Waiting(_) => 3
    case Reacquiring(_) => 3
    case Upgrading(_) => 3
    case Looking(n, _, b) => if n in place && place[n] != b then 6 else 4
    case Bringing(_, _) => 5
  }

  ghost function Ranks(threads: map<Tid, Pc>, place: map<Node, Bucket>): nat {
    if threads == map[] then 0 else
      var t :| t in threads;
      Rank(threads[t], place) + Ranks(threads - {t}, place)
  }

  lemma {:induction false} RanksOf(threads: map<Tid, Pc>, place: map<Node, Bucket>, t: Tid)
    requires t in threads
    ensures Ranks(threads, place) == Rank(threads[t], place) + Ranks(threads - {t}, place)
    decreases |threads|
  {
    var u :| u in threads && Ranks(threads, place) == Rank(threads[u], place) + Ranks(threads - {u}, place);
    if u != t {
      RanksOf(threads - {u}, place, t);
      RanksOf(threads - {t}, place, u);
      assert threads - {u} - {t} == threads - {t} - {u};
    }
  }

  // Removing a node from its bucket is nothing to wait for.
  lemma {:induction false} RanksWithout(threads: map<Tid, Pc>, place: map<Node, Bucket>, n: Node)
    ensures Ranks(threads, place - {n}) <= Ranks(threads, place)
  {
    if threads != map[] {
      var t :| t in threads;
      RanksOf(threads, place, t);
      RanksOf(threads, place - {n}, t);
      RanksWithout(threads - {t}, place, n);
    }
  }

  ghost function Work(s: State): nat { |s.accs| + Ranks(s.threads, s.place) }

  // A step towards the end, of a thread or the release of an accessor.
  ghost predicate Advances(s: State, u: State) { Next(s, u) && u.used == s.used && Work(u) < Work(s) }

  lemma Advance(s: State, t: Tid, p: Pc, u: State)
    requires ThreadStep(s, t, u) && !s.At(t).Idle? && u == s.Move(t, p).(alive := u.alive)
    requires Rank(p, s.place) < Rank(s.At(t), s.place)
    ensures Advances(s, u)
  {
    RanksOf(s.threads, s.place, t);
    RanksOf(u.threads, s.place, t);
    assert u.threads - {t} == s.threads - {t};
  }

  lemma AdvanceWithout(s: State, t: Tid, p: Pc, u: State, n: Node)
    requires ThreadStep(s, t, u) && !s.At(t).Idle? && u == s.Move(t, p).(place := s.place - {n})
    requires Rank(p, s.place - {n}) < Rank(s.At(t), s.place)
    ensures Advances(s, u)
  {
    RanksOf(s.threads, s.place, t);
    RanksOf(u.threads, s.place - {n}, t);
    assert u.threads - {t} == s.threads - {t};
    RanksWithout(s.threads - {t}, s.place, n);
  }

  // ---------------------------------------------------------------- somebody can always go on

  lemma ReleaseGoesOn(s: State, h: Handle) returns (u: State)
    requires h in s.accs
    ensures Advances(s, u)
  {
    u := s.(accs := s.accs - {h});
    assert s.accs.Keys == u.accs.Keys + {h};
    assert Release(s, u);
  }

  // Whoever has a bucket locked can go on.
  lemma InBucketGoesOn(s: State, t: Tid, b: Bucket) returns (u: State)
    requires s.At(t).HoldsBucket(b)
    ensures Advances(s, u)
  {
    if s.At(t).Looking? {
      var Looking(n, write, c) := s.At(t);
      if s.In(n, c) {
        var p := if write then Excluded(n) else Upgrading(n);
        u := s.Move(t, p).(place := s.place - {n});
        assert ExcludeUnlink(s, t, u);
        AdvanceWithout(s, t, p, u, n);
      } else {
        var p := if n in s.place then Bringing(n, write) else Idle;
        u := s.Move(t, p);
        assert NotThere(s, t, u);
        Advance(s, t, p, u);
      }
    } else {
      u := s.Move(t, Idle);
      assert Leave(s, t, u);
      Advance(s, t, Idle, u);
    }
  }

  // exclude can look into the bucket of its node, or into any when the node is in none.
  lemma BringGoesOn(s: State, t: Tid) returns (u: State)
    requires s.At(t).Bringing?
    ensures Advances(s, u)
  {
    var Bringing(n, write) := s.At(t);
    var b: Bucket := if n in s.place then s.place[n] else 0;
    if BucketFree(s, t, b, true) {
      u := s.Move(t, Looking(n, write, b));
      assert Look(s, t, u);
      Advance(s, t, Looking(n, write, b), u);
    } else {
      var v :| v != t && s.At(v).HoldsBucket(b);
      u := InBucketGoesOn(s, v, b);
    }
  }

  lemma EndGoesOn(s: State, t: Tid) returns (u: State)
    requires s.At(t).Entered? || s.At(t).Excluded? || s.At(t).Deleting?
    ensures Advances(s, u)
  {
    var n := s.At(t).n;
    if s.At(t).Deleting? {
      u := s.Move(t, Idle).(alive := s.alive - {n});
      assert Delete(s, t, u);
      Advance(s, t, Idle, u);
    } else {
      u := s.Move(t, Deleting(n));
      assert Unlock(s, t, u);
      Advance(s, t, Deleting(n), u);
    }
  }

  // Who stands in the way of the owner of an unlinked node: with all accessors released, only an exclude that comes
  // too late.
  lemma InTheWay(s: State, t: Tid, v: Tid, n: Node)
    requires Inv(s) && s.At(t).Owns(n) && v != t && s.At(v).Locks(n)
    ensures s.At(v).Bringing? || s.At(v).Looking?
  {
    assert Apart(s.At(t), s.At(v));
    assert !s.At(v).Owns(n);
  }

  lemma OwnerGoesOn(s: State, t: Tid) returns (u: State)
    requires Inv(s) && s.accs == map[] && (s.At(t).Waiting? || s.At(t).Upgrading? || s.At(t).Reacquiring?)
    ensures Advances(s, u)
  {
    var n := s.At(t).n;
    if ItemFree(s, t, n, true) {
      var p := if s.At(t).Waiting? then Entered(n) else Excluded(n);
      u := s.Move(t, p);
      assert LockUnlinked(s, t, u);
      Advance(s, t, p, u);
    } else {
      var v :| v != t && s.At(v).Locks(n);
      InTheWay(s, t, v, n);
      if s.At(v).Bringing? { u := BringGoesOn(s, v); } else { u := InBucketGoesOn(s, v, s.At(v).b); }
    }
  }

  // There is no deadlock among operations: only held accessors can be in the way.
  lemma SomebodyGoesOn(s: State, t: Tid) returns (u: State)
    requires Inv(s) && s.accs == map[] && !s.At(t).Idle?
    ensures Advances(s, u)
  {
    if s.At(t).Searching? || s.At(t).Found? || s.At(t).Looking? {
      u := InBucketGoesOn(s, t, s.At(t).b);
    } else if s.At(t).Bringing? {
      u := BringGoesOn(s, t);
    } else if s.At(t).Entered? || s.At(t).Excluded? || s.At(t).Deleting? {
      u := EndGoesOn(s, t);
    } else {
      u := OwnerGoesOn(s, t);
    }
  }

  // ---------------------------------------------------------------- over whole runs

  ghost predicate Quiet(s: State) { s.accs == map[] && forall t {:trigger s.At(t)} :: s.At(t).Idle? }

  lemma OneAdvance(run: seq<State>) returns (u: State)
    requires Run(run) && !Quiet(run[|run| - 1])
    ensures Advances(run[|run| - 1], u) && Run(run + [u])
  {
    var s := run[|run| - 1];
    RunInv(run, |run| - 1);
    if s.accs != map[] {
      var h :| h in s.accs;
      u := ReleaseGoesOn(s, h);
    } else {
      var t :| !s.At(t).Idle?;
      u := SomebodyGoesOn(s, t);
    }
    forall k | 0 < k < |run + [u]| ensures Follows(run + [u], k) {
      if k < |run| { assert Follows(run, k); }
    }
  }

  // From every reachable state, without linking anything new, the map can come to a state in which nobody holds or does
  // anything; there the nodes not deleted are exactly the linked ones.
  lemma {:induction false} EveryNodeIsDeletedAtLast(run: seq<State>) returns (more: seq<State>)
    requires Run(run)
    ensures Run(more) && run <= more && Quiet(more[|more| - 1]) && more[|more| - 1].used == run[|run| - 1].used
    ensures more[|more| - 1].alive == more[|more| - 1].place.Keys
    decreases Work(run[|run| - 1])
  {
    if Quiet(run[|run| - 1]) {
      more := run;
      QuietMapHoldsItsNodes(run, |run| - 1);
    } else {
      var u := OneAdvance(run);
      more := EveryNodeIsDeletedAtLast(run + [u]);
    }
  }
}
