// What lookups, erase and exclude do to items: accessors hold what was asked for, whoever unlinks a node deletes it,
// exclude fails only when the node is gone, and calls that nobody is in the way of come to their end.
module HashItemCalls {
  import opened HashItems

  // ---------------------------------------------------------------- accessors

  // The accessor h was made by thread t from the node it has found in a locked bucket.
  ghost predicate MadeBy(s: State, t: Tid, s': State, h: Handle) {
    && s.At(t).Found? && s'.At(t).Idle? && s.In(s.At(t).n, s.At(t).b)
    && h in s'.accs && s'.accs[h] == Acc(s.At(t).n, s.At(t).write)
  }

  // It has gone over to thread t, for exclude.
  ghost predicate GivenTo(s: State, t: Tid, s': State, h: Handle) {
    h in s.accs && s.At(t).Idle? && s'.At(t) == Bringing(s.accs[h].n, s.accs[h].write)
  }

  lemma OthersKeepAccessors(s: State, t: Tid, s': State)
    requires ThreadStep(s, t, s') && !Take(s, t, s') && !Bring(s, t, s')
    ensures s'.accs == s.accs
  {
  }

  lemma TakeMakes(s: State, t: Tid, s': State, h: Handle)
    requires PcOk(s.place, s.alive, s.At(t)) && Take(s, t, s')
    ensures h in s.accs ==> h in s'.accs && s'.accs[h] == s.accs[h]
    ensures h in s'.accs && h !in s.accs ==> MadeBy(s, t, s', h)
  {
  }

  lemma BringTakes(s: State, t: Tid, s': State, h: Handle)
    requires Bring(s, t, s')
    ensures h in s'.accs ==> h in s.accs && s'.accs[h] == s.accs[h]
    ensures h in s.accs && h !in s'.accs ==> GivenTo(s, t, s', h)
  {
  }

  lemma AccessorStep(s: State, s': State, h: Handle)
    requires Inv(s) && Next(s, s')
    ensures h in s.accs && h in s'.accs ==> s'.accs[h] == s.accs[h]
    ensures h !in s.accs && h in s'.accs ==> exists t :: MadeBy(s, t, s', h)
    ensures h in s.accs && h !in s'.accs ==> Release(s, s') || exists t :: GivenTo(s, t, s', h)
  {
    if !Release(s, s') && !Rehash(s, s') {
      var t :| ThreadStep(s, t, s');
      if Take(s, t, s') {
        assert PcOk(s.place, s.alive, s.At(t));
        TakeMakes(s, t, s', h);
      } else if Bring(s, t, s') {
        BringTakes(s, t, s', h);
      } else {
        OthersKeepAccessors(s, t, s');
      }
    }
  }

  // A new accessor holds the node its thread has found in a locked bucket, in the way it was asked for; it goes on
  // holding that until it is released or given to exclude.
  lemma AccessorsHoldWhatWasAsked(run: seq<State>, k: nat, h: Handle)
    requires Run(run) && 0 < k < |run|
    ensures h in run[k - 1].accs && h in run[k].accs ==> run[k].accs[h] == run[k - 1].accs[h]
    ensures h !in run[k - 1].accs && h in run[k].accs ==> exists t {:trigger run[k].At(t)} :: MadeBy(run[k - 1], t, run[k], h)
    ensures h in run[k - 1].accs && h !in run[k].accs ==>
      run[k] == run[k - 1].(accs := run[k - 1].accs - {h}) || exists t {:trigger run[k].At(t)} :: GivenTo(run[k - 1], t, run[k], h)
  {
    RunInv(run, k - 1);
    assert Follows(run, k);
    AccessorStep(run[k - 1], run[k], h);
  }

  // ---------------------------------------------------------------- erase and exclude

  // Busy removing n.
  predicate Removes(p: Pc, n: Node) { (p.Bringing? && p.n == n) || (p.Looking? && p.n == n) || p.Owns(n) }

  lemma RemovingStep(s: State, t: Tid, s': State, n: Node)
    requires ThreadStep(s, t, s') && Removes(s.At(t), n) && (s.At(t).Owns(n) ==> n !in s.place)
    ensures if s'.At(t).Idle? then n !in s'.place && (s.At(t).Owns(n) ==> n !in s'.alive)
            else Removes(s'.At(t), n) && (s.At(t).Owns(n) ==> s'.At(t).Owns(n))
  {
  }

  lemma OthersStayRemoving(s: State, u: Tid, s': State, t: Tid)
    requires ThreadStep(s, u, s') && u != t
    ensures s'.At(t) == s.At(t)
  {
  }

  lemma RemovingNext(s: State, s': State, t: Tid, n: Node)
    requires Inv(s) && Next(s, s') && Removes(s.At(t), n)
    ensures if s'.At(t).Idle? then n !in s'.place && (s.At(t).Owns(n) ==> n !in s'.alive)
            else Removes(s'.At(t), n) && (s.At(t).Owns(n) ==> s'.At(t).Owns(n))
  {
    if Release(s, s') || Rehash(s, s') {
      assert s'.At(t) == s.At(t);
    } else {
      var u :| ThreadStep(s, u, s');
      assert PcOk(s.place, s.alive, s.At(t));
      if u == t { RemovingStep(s, t, s', n); } else { OthersStayRemoving(s, u, s', t); }
    }
  }

  // A thread that removes n in state i is done in state k, and busy all the time between.
  ghost predicate Removal(run: seq<State>, t: Tid, i: nat, k: nat, n: Node) {
    && i < k < |run| && Removes(run[i].At(t), n) && run[k].At(t).Idle?
    && forall m :: i <= m < k ==> !run[m].At(t).Idle?
  }

  lemma {:induction false} StillRemoving(run: seq<State>, t: Tid, i: nat, k: nat, m: nat, n: Node)
    requires Run(run) && Removal(run, t, i, k, n) && i <= m < k
    ensures Removes(run[m].At(t), n) && (run[i].At(t).Owns(n) ==> run[m].At(t).Owns(n))
    decreases m
  {
    if i < m {
      StillRemoving(run, t, i, k, m - 1, n);
      RunInv(run, m - 1);
      assert Follows(run, m) && !run[m].At(t).Idle?;
      RemovingNext(run[m - 1], run[m], t, n);
    }
  }

  // Once it is done the node is in no bucket: exclude fails only when somebody else has removed it. And whoever has
  // unlinked a node has deleted it.
  lemma RemovalEnds(run: seq<State>, t: Tid, i: nat, k: nat, n: Node)
    requires Run(run) && Removal(run, t, i, k, n)
    ensures n !in run[k].place && (run[i].At(t).Owns(n) ==> n !in run[k].alive)
  {
    StillRemoving(run, t, i, k, k - 1, n);
    RunInv(run, k - 1);
    assert Follows(run, k);
    RemovingNext(run[k - 1], run[k], t, n);
  }

  // ---------------------------------------------------------------- nobody in the way

  // A lookup that finds its node and whose locks are free ends with an accessor of the kind asked for.
  lemma LookupAlone(s: State, t: Tid, b: Bucket, n: Node, w: bool, write: bool, h: Handle) returns (a: State, c: State, e: State)
    requires s.At(t).Idle? && s.In(n, b) && BucketFree(s, t, b, w) && ItemFree(s, t, n, write) && h !in s.accs
    ensures Enter(s, t, a) && Find(a, t, c) && Take(c, t, e)
    ensures e == s.Move(t, Idle).Give(h, Acc(n, write))
  {
    a := s.Move(t, Searching(b, w));
    c := a.Move(t, Found(b, w, n, write, false));
    e := c.Move(t, Idle).Give(h, Acc(n, write));
    forall u | u != t ensures c.At(u) == s.At(u) {}
  }

  // So does an insertion, in every reachable state: nobody can be in the way of the item's lock.
  lemma InsertAlone(s: State, t: Tid, b: Bucket, n: Node, write: bool, h: Handle) returns (a: State, c: State, e: State)
    requires Inv(s) && s.At(t).Idle? && BucketFree(s, t, b, true) && n !in s.used && h !in s.accs
    ensures Enter(s, t, a) && Link(a, t, c) && Take(c, t, e)
    ensures e == s.Move(t, Idle).Put(n, b).(alive := s.alive + {n}, used := s.used + {n}).Give(h, Acc(n, write))
  {
    a := s.Move(t, Searching(b, true));
    c := Linked(a, t, b, n, write);
    e := c.Move(t, Idle).Give(h, Acc(n, write));
    forall u | u != t ensures c.At(u) == s.At(u) && !c.At(u).Locks(n) && !c.At(u).WriteLocks(n) {
      assert PcOk(s.place, s.alive, s.At(u));
      assert s.At(u).Locks(n) ==> s.At(u).Refers(n);
    }
  }

  // An erase whose node nobody holds deletes it.
  lemma EraseAlone(s: State, t: Tid, b: Bucket, n: Node) returns (a: State, c: State, d: State, e: State)
    requires s.At(t) == Searching(b, true) && s.In(n, b) && ItemFree(s, t, n, true)
    ensures EraseUnlink(s, t, a) && LockUnlinked(a, t, c) && Unlock(c, t, d) && Delete(d, t, e)
    ensures e == s.Move(t, Idle).(place := s.place - {n}, alive := s.alive - {n})
  {
    a := s.Move(t, Waiting(n)).(place := s.place - {n});
    c := a.Move(t, Entered(n));
    d := c.Move(t, Deleting(n));
    e := d.Move(t, Idle).(alive := s.alive - {n});
    forall u | u != t ensures a.At(u) == s.At(u) {}
  }

  // exclude finds its node in the bucket: it unlinks it, and goes on with what its accessor holds.
  lemma ExcludeFinds(s: State, t: Tid, b: Bucket, h: Handle) returns (a: State, c: State, e: State)
    requires s.At(t).Idle? && h in s.accs && s.In(s.accs[h].n, b) && BucketFree(s, t, b, true)
    ensures Bring(s, t, a) && Look(a, t, c) && ExcludeUnlink(c, t, e)
    ensures var n := s.accs[h].n;
      e == s.Move(t, if s.accs[h].write then Excluded(n) else Upgrading(n)).(accs := s.accs - {h}, place := s.place - {n})
  {
    var n, write := s.accs[h].n, s.accs[h].write;
    a := s.Move(t, Bringing(n, write)).(accs := s.accs - {h});
    c := a.Move(t, Looking(n, write, b));
    e := c.Move(t, if write then Excluded(n) else Upgrading(n)).(place := s.place - {n});
    forall u | u != t ensures a.At(u) == s.At(u) {}
  }

  // When nobody else holds the item it deletes it.
  lemma ExcludeAlone(s: State, t: Tid, n: Node) returns (a: State, c: State, e: State)
    requires s.At(t) == Upgrading(n) || s.At(t) == Reacquiring(n) || s.At(t) == Excluded(n)
    requires !s.At(t).Excluded? ==> ItemFree(s, t, n, true)
    ensures if s.At(t).Excluded? then a == s else LockUnlinked(s, t, a)
    ensures Unlock(a, t, c) && Delete(c, t, e) && e == s.Move(t, Idle).(alive := s.alive - {n})
  {
    a := s.Move(t, Excluded(n));
    if s.At(t).Excluded? { a := s; }
    c := a.Move(t, Deleting(n));
    e := c.Move(t, Idle).(alive := s.alive - {n});
  }

  // A reader in its way makes an upgrade let go: then the reader can upgrade or let go in turn, and neither waits for
  // the lock the other holds.
  lemma UpgradeYields(s: State, t: Tid, n: Node, h: Handle) returns (a: State, c: State, d: State)
    requires s.At(t) == Upgrading(n) && h in s.accs && s.accs[h].n == n
    requires ItemFree(s.(accs := s.accs - {h}), t, n, true)
    ensures LockUnlinked(s, t, a) && !a.At(t).Locks(n) && Release(a, c) && LockUnlinked(c, t, d)
    ensures d == s.Move(t, Excluded(n)).(accs := s.accs - {h})
  {
    a := s.Move(t, Reacquiring(n));
    c := a.(accs := a.accs - {h});
    d := c.Move(t, Excluded(n));
    var u := s.(accs := s.accs - {h});
    forall k | k in c.accs ensures c.accs[k] == u.accs[k] {}
    forall k | k != t ensures c.At(k) == u.At(k) {}
  }

  // One whose node is in no bucket any more gives its accessor up and fails.
  lemma ExcludeTooLate(s: State, t: Tid, b: Bucket, h: Handle) returns (a: State, c: State, e: State)
    requires s.At(t).Idle? && h in s.accs && s.accs[h].n !in s.place && BucketFree(s, t, b, true)
    ensures Bring(s, t, a) && Look(a, t, c) && NotThere(c, t, e) && e == s.Move(t, Idle).(accs := s.accs - {h})
  {
    var n, write := s.accs[h].n, s.accs[h].write;
    a := s.Move(t, Bringing(n, write)).(accs := s.accs - {h});
    c := a.Move(t, Looking(n, write, b));
    e := c.Move(t, Idle);
    forall u | u != t ensures a.At(u) == s.At(u) {}
  }
}
