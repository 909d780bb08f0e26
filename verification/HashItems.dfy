// Items of the hash map used by many threads: a node is linked in a bucket, locked through accessors that outlive
// the bucket's lock, unlinked by whoever erases it, and deleted when nobody holds it any more.
module HashItems {

  type Node = nat
  type Bucket = nat
  type Tid = nat
  type Handle = nat

  // An accessor that holds the lock of an item.
  datatype Acc = Acc(n: Node, write: bool)

  // Searching: bucket b is locked. Found: its node n is wanted, or (isNew) has just been linked there by this thread.
  // Bringing: exclude has taken over an accessor. Looking: it has locked a bucket as well.
  // After n has been unlinked: Waiting, Reacquiring: for the write lock of the item, holding none. Upgrading: for the
  // same, holding it for reading. Entered, Excluded: holding it for writing. Deleting: it has been released again.
  datatype Pc =
    | Idle
    | Searching(b: Bucket, w: bool)
    | Found(b: Bucket, w: bool, n: Node, write: bool, isNew: bool)
    | Bringing(n: Node, write: bool)
    | Looking(n: Node, write: bool, b: Bucket)
    | Waiting(n: Node)
    | Entered(n: Node)
    | Upgrading(n: Node)
    | Reacquiring(n: Node)
    | Excluded(n: Node)
    | Deleting(n: Node)
  {
    predicate HoldsBucket(k: Bucket) { (Searching? || Found? || Looking?) && b == k }
    predicate WritesBucket(k: Bucket) { HoldsBucket(k) && (Looking? || w) }

    predicate Refers(k: Node) { !Idle? && !Searching? && n == k }

    // It has unlinked k.
    predicate Owns(k: Node) { (Waiting? || Entered? || Upgrading? || Reacquiring? || Excluded? || Deleting?) && n == k }

    predicate Locks(k: Node) { (Bringing? || Looking? || Entered? || Upgrading? || Excluded?) && n == k }
    predicate WriteLocks(k: Node) { (((Bringing? || Looking?) && write) || Entered? || Excluded?) && n == k }

    // It holds the lock of k, or has just linked k, or is about to delete it; in the last two cases, and with the
    // write lock, alone.
    predicate Has(k: Node) { Locks(k) || (((Found? && isNew) || Deleting?) && n == k) }
    predicate Alone(k: Node) { WriteLocks(k) || (((Found? && isNew) || Deleting?) && n == k) }
  }

  // place: the bucket of each linked node. used (history): every node ever linked.
  datatype State = State(place: map<Node, Bucket>, alive: set<Node>, used: set<Node>, accs: map<Handle, Acc>, threads: map<Tid, Pc>) {
    function At(t: Tid): Pc { if t in threads then threads[t] else Idle }
    function Move(t: Tid, p: Pc): State { this.(threads := threads[t := p]) }
    function Give(h: Handle, a: Acc): State { this.(accs := accs[h := a]) }
    function Put(n: Node, b: Bucket): State { this.(place := place[n := b]) }
    predicate In(n: Node, b: Bucket) { n in place && place[n] == b }
  }

  // ---------------------------------------------------------------- steps

  ghost predicate BucketFree(s: State, t: Tid, b: Bucket, w: bool) {
    forall u {:trigger s.At(u)} :: u != t ==> !s.At(u).WritesBucket(b) && (w ==> !s.At(u).HoldsBucket(b))
  }

  // The lock of n can be taken.
  ghost predicate ItemFree(s: State, t: Tid, n: Node, write: bool) {
    && (forall h {:trigger s.accs[h]} :: h in s.accs && s.accs[h].n == n ==> !write && !s.accs[h].write)
    && (forall u {:trigger s.At(u)} :: u != t ==> !s.At(u).WriteLocks(n) && (write ==> !s.At(u).Locks(n)))
  }

  // lookup and erase lock a bucket, and leave it again without a result or to start anew. An upgrade is the two
  // in succession.
  ghost predicate Enter(s: State, t: Tid, s': State) {
    s.At(t).Idle? && exists b, w :: BucketFree(s, t, b, w) && s' == s.Move(t, Searching(b, w))
  }

  ghost predicate Leave(s: State, t: Tid, s': State) {
    (s.At(t).Searching? || s.At(t).Found?) && s' == s.Move(t, Idle)
  }

  ghost predicate Downgrade(s: State, t: Tid, s': State) {
    s.At(t).Searching? && s' == s.Move(t, Searching(s.At(t).b, false))
  }

  // lookup finds a node, or links a new one.
  ghost predicate Find(s: State, t: Tid, s': State) {
    match s.At(t)
    case Searching(b, w) => exists n, write :: s.In(n, b) && s' == s.Move(t, Found(b, w, n, write, false))
    case _ => false
  }

  ghost predicate Link(s: State, t: Tid, s': State) {
    match s.At(t)
    case Searching(b, w) =>
      w && exists n: Node, write: bool :: n !in s.used && s' == Linked(s, t, b, n, write)
    case _ => false
  }

  function Linked(s: State, t: Tid, b: Bucket, n: Node, write: bool): State {
    s.Move(t, Found(b, true, n, write, true)).Put(n, b).(alive := s.alive + {n}, used := s.used + {n})
  }

  // The item is locked while its bucket still is; the accessor survives the bucket's lock.
  ghost predicate Take(s: State, t: Tid, s': State) {
    match s.At(t)
    case Found(b, w, n, write, isNew) =>
      ItemFree(s, t, n, write) && exists h: Handle :: h !in s.accs && s' == s.Move(t, Idle).Give(h, Acc(n, write))
    case _ => false
  }

  ghost predicate Release(s: State, s': State) {
    exists h :: h in s.accs && s' == s.(accs := s.accs - {h})
  }

  // erase: unlink, wait until the item can be locked, release it, delete it.
  ghost predicate EraseUnlink(s: State, t: Tid, s': State) {
    match s.At(t)
    case Searching(b, w) => w && exists n :: s.In(n, b) && s' == s.Move(t, Waiting(n)).(place := s.place - {n})
    case _ => false
  }

  // exclude: the accessor is given, and its bucket is looked for.
  ghost predicate Bring(s: State, t: Tid, s': State) {
    && s.At(t).Idle?
    && exists h :: h in s.accs && s' == s.Move(t, Bringing(s.accs[h].n, s.accs[h].write)).(accs := s.accs - {h})
  }

  ghost predicate Look(s: State, t: Tid, s': State) {
    match s.At(t)
    case Bringing(n, write) => exists b :: BucketFree(s, t, b, true) && s' == s.Move(t, Looking(n, write, b))
    case _ => false
  }

  // Not there, or not there any more: the next bucket, or somebody else was first.
  ghost predicate NotThere(s: State, t: Tid, s': State) {
    match s.At(t)
    case Looking(n, write, b) =>
      !s.In(n, b) && (s' == s.Move(t, Bringing(n, write)) || (n !in s.place && s' == s.Move(t, Idle)))
    case _ => false
  }

  ghost predicate ExcludeUnlink(s: State, t: Tid, s': State) {
    match s.At(t)
    case Looking(n, write, b) =>
      s.In(n, b) && s' == s.Move(t, if write then Excluded(n) else Upgrading(n)).(place := s.place - {n})
    case _ => false
  }

  // The write lock of an unlinked item; a contended upgrade lets go first.
  ghost predicate LockUnlinked(s: State, t: Tid, s': State) {
    match s.At(t)
    case Waiting(n) => ItemFree(s, t, n, true) && s' == s.Move(t, Entered(n))
    case Upgrading(n) => s' == s.Move(t, Reacquiring(n)) || (ItemFree(s, t, n, true) && s' == s.Move(t, Excluded(n)))
    case Reacquiring(n) => ItemFree(s, t, n, true) && s' == s.Move(t, Excluded(n))
    case _ => false
  }

  ghost predicate Unlock(s: State, t: Tid, s': State) {
    (s.At(t).Entered? || s.At(t).Excluded?) && s' == s.Move(t, Deleting(s.At(t).n))
  }

  ghost predicate Delete(s: State, t: Tid, s': State) {
    s.At(t).Deleting? && s' == s.Move(t, Idle).(alive := s.alive - {s.At(t).n})
  }

  // Rehashing moves a node while both buckets are locked.
  ghost predicate Rehash(s: State, s': State) {
    exists n: Node, b: Bucket :: n in s.place && Unlocked(s, s.place[n]) && s' == s.Put(n, b)
  }

  ghost predicate Unlocked(s: State, b: Bucket) { forall u {:trigger s.At(u)} :: !s.At(u).HoldsBucket(b) }

  ghost predicate ThreadStep(s: State, t: Tid, s': State) {
    || Enter(s, t, s') || Leave(s, t, s') || Downgrade(s, t, s') || Find(s, t, s') || Link(s, t, s') || Take(s, t, s')
    || EraseUnlink(s, t, s') || Bring(s, t, s') || Look(s, t, s') || NotThere(s, t, s') || ExcludeUnlink(s, t, s')
    || LockUnlinked(s, t, s') || Unlock(s, t, s') || Delete(s, t, s')
  }

  ghost predicate Next(s: State, s': State) { Release(s, s') || Rehash(s, s') || exists t :: ThreadStep(s, t, s') }

  // ---------------------------------------------------------------- the invariant

  ghost predicate PcOk(place: map<Node, Bucket>, alive: set<Node>, p: Pc) {
    && (forall n :: p.Refers(n) ==> n in alive)
    && (p.Found? ==> p.n in place && place[p.n] == p.b && (p.isNew ==> p.w))
    && (forall n :: p.Owns(n) ==> n !in place)
  }

  ghost predicate Apart(p: Pc, q: Pc) {
    && (forall b :: (p.WritesBucket(b) ==> !q.HoldsBucket(b)) && (q.WritesBucket(b) ==> !p.HoldsBucket(b)))
    && (forall n :: (p.Alone(n) ==> !q.Has(n)) && (q.Alone(n) ==> !p.Has(n)))
    && (forall n :: p.Owns(n) ==> !q.Owns(n))
  }

  predicate AccApart(a: Acc, p: Pc) { !p.Alone(a.n) && (a.write ==> !p.Has(a.n)) }

  ghost predicate AccsOk(s: State) {
    && (forall h {:trigger s.accs[h]} :: h in s.accs ==> s.accs[h].n in s.alive)
    && (forall h, k {:trigger s.accs[h], s.accs[k]} :: h in s.accs && k in s.accs && h != k && s.accs[h].n == s.accs[k].n ==> !s.accs[h].write)
    && (forall h, t {:trigger s.accs[h], s.At(t)} :: h in s.accs ==> AccApart(s.accs[h], s.At(t)))
  }

  ghost predicate Inv(s: State) {
    && (forall n :: n in s.place ==> n in s.alive)
    && s.alive <= s.used
    && (forall t {:trigger s.At(t)} :: PcOk(s.place, s.alive, s.At(t)))
    && (forall t, u {:trigger s.At(t), s.At(u)} :: t != u ==> Apart(s.At(t), s.At(u)))
    && AccsOk(s)
  }

  // ---------------------------------------------------------------- every step keeps it

  // Thread t goes to p; place, alive and the accessors change as well.
  lemma Moved(s: State, t: Tid, p: Pc, s': State)
    requires Inv(s) && s'.threads == s.threads[t := p]
    requires (forall n :: n in s'.place ==> n in s'.alive) && s'.alive <= s'.used
    requires PcOk(s'.place, s'.alive, p) && forall u {:trigger s.At(u)} :: u != t ==> PcOk(s'.place, s'.alive, s.At(u)) && Apart(p, s.At(u))
    requires AccsOk(s')
    ensures Inv(s')
  {
    assert forall u :: s'.At(u) == if u == t then p else s.At(u);
    forall u, v | u != v ensures Apart(s'.At(u), s'.At(v)) {
      assert Apart(s.At(u), s.At(v));
      assert u != t ==> Apart(p, s.At(u));
      assert v != t ==> Apart(p, s.At(v));
    }
  }

  // Only the phase changes, and no new claim is made on an item against the accessors.
  lemma OnlyPc(s: State, t: Tid, p: Pc, s': State)
    requires Inv(s) && s' == s.Move(t, p) && PcOk(s.place, s.alive, p)
    requires forall u {:trigger s.At(u)} :: u != t ==> Apart(p, s.At(u))
    requires forall h {:trigger s.accs[h]} :: h in s.accs ==> AccApart(s.accs[h], p)
    ensures Inv(s')
  {
    assert forall u :: s'.At(u) == if u == t then p else s.At(u);
    Moved(s, t, p, s');
  }

  // p claims no more than q did.
  predicate Less(p: Pc, q: Pc) {
    || p.Idle?
    || (p.Searching? && !p.w && q.Searching? && q.b == p.b)
    || (p.Found? && !p.isNew && q == Searching(p.b, p.w))
    || (p.Bringing? && q.Looking? && p.n == q.n && p.write == q.write)
    || (p.Reacquiring? && q == Upgrading(p.n))
    || (p.Deleting? && (q == Entered(p.n) || q == Excluded(p.n)))
  }

  lemma LessKeeps(s: State, t: Tid, p: Pc, s': State)
    requires Inv(s) && s' == s.Move(t, p) && Less(p, s.At(t)) && PcOk(s.place, s.alive, p)
    ensures Inv(s')
  {
    forall u | u != t ensures Apart(p, s.At(u)) {
      assert Apart(s.At(t), s.At(u));
    }
    forall h | h in s.accs ensures AccApart(s.accs[h], p) {
      assert AccApart(s.accs[h], s.At(t));
    }
    OnlyPc(s, t, p, s');
  }

  lemma LeaveKeeps(s: State, t: Tid, s': State)
    requires Inv(s) && (Leave(s, t, s') || Downgrade(s, t, s') || Find(s, t, s') || Unlock(s, t, s'))
    ensures Inv(s')
  {
    assert PcOk(s.place, s.alive, s.At(t));
    LessKeeps(s, t, s'.At(t), s');
  }

  lemma EnterKeeps(s: State, t: Tid, s': State)
    requires Inv(s) && Enter(s, t, s')
    ensures Inv(s')
  {
    OnlyPc(s, t, s'.At(t), s');
  }

  lemma LookKeeps(s: State, t: Tid, s': State)
    requires Inv(s) && Look(s, t, s')
    ensures Inv(s')
  {
    forall u | u != t ensures Apart(s'.At(t), s.At(u)) {
      assert Apart(s.At(t), s.At(u));
    }
    assert PcOk(s.place, s.alive, s.At(t));
    OnlyPc(s, t, s'.At(t), s');
  }

  lemma NotThereKeeps(s: State, t: Tid, s': State)
    requires Inv(s) && NotThere(s, t, s')
    ensures Inv(s')
  {
    assert PcOk(s.place, s.alive, s.At(t));
    LessKeeps(s, t, s'.At(t), s');
  }

  lemma LockUnlinkedKeeps(s: State, t: Tid, s': State)
    requires Inv(s) && LockUnlinked(s, t, s')
    ensures Inv(s')
  {
    assert PcOk(s.place, s.alive, s.At(t));
    if s'.At(t).Reacquiring? {
      LessKeeps(s, t, s'.At(t), s');
    } else {
      forall u | u != t ensures Apart(s'.At(t), s.At(u)) {
        assert Apart(s.At(t), s.At(u)) && PcOk(s.place, s.alive, s.At(u));
        OwnedIsOthers(s.place, s.alive, s.At(t), s.At(u), s.At(t).n);
      }
      OnlyPc(s, t, s'.At(t), s');
    }
  }

  // A node found in a locked bucket has not just been linked by another thread, and is not about to be deleted.
  lemma FoundIsOthers(place: map<Node, Bucket>, alive: set<Node>, p: Pc, q: Pc)
    requires PcOk(place, alive, p) && PcOk(place, alive, q) && Apart(p, q) && p.Found?
    ensures q.Has(p.n) ==> q.Locks(p.n)
    ensures q.Alone(p.n) ==> q.WriteLocks(p.n)
  {
    if q.Found? && q.isNew && q.n == p.n {
      assert q.WritesBucket(q.b) && p.HoldsBucket(q.b);
    }
    assert q.Deleting? ==> q.Owns(q.n);
  }

  lemma OwnedIsOthers(place: map<Node, Bucket>, alive: set<Node>, p: Pc, q: Pc, n: Node)
    requires PcOk(place, alive, p) && PcOk(place, alive, q) && Apart(p, q) && p.Owns(n)
    ensures q.Has(n) ==> q.Locks(n)
  {
    assert q.Deleting? ==> q.Owns(q.n);
  }

  lemma TakeKeeps(s: State, t: Tid, s': State)
    requires Inv(s) && Take(s, t, s')
    ensures Inv(s')
  {
    var n := s.At(t).n;
    assert PcOk(s.place, s.alive, s.At(t));
    forall u | u != t ensures AccApart(Acc(n, s.At(t).write), s.At(u)) {
      assert Apart(s.At(t), s.At(u)) && PcOk(s.place, s.alive, s.At(u));
      FoundIsOthers(s.place, s.alive, s.At(t), s.At(u));
    }
    var h: Handle :| h !in s.accs && s' == s.Move(t, Idle).Give(h, Acc(n, s.At(t).write));
    forall k, u | k in s'.accs ensures AccApart(s'.accs[k], s'.At(u)) {
      if k == h {
        assert u != t ==> AccApart(s'.accs[k], s.At(u));
      } else {
        assert AccApart(s.accs[k], s.At(u));
      }
    }
    forall i, j | i in s'.accs && j in s'.accs && i != j && s'.accs[i].n == s'.accs[j].n ensures !s'.accs[i].write {
      assert i != h ==> s'.accs[i] == s.accs[i];
      assert j != h ==> s'.accs[j] == s.accs[j];
    }
    Moved(s, t, Idle, s');
  }

  lemma ReleaseKeeps(s: State, s': State)
    requires Inv(s) && Release(s, s')
    ensures Inv(s')
  {
    assert forall t :: s'.At(t) == s.At(t);
  }

  lemma BringKeeps(s: State, t: Tid, s': State)
    requires Inv(s) && Bring(s, t, s')
    ensures Inv(s')
  {
    var h :| h in s.accs && s' == s.Move(t, Bringing(s.accs[h].n, s.accs[h].write)).(accs := s.accs - {h});
    var p := Bringing(s.accs[h].n, s.accs[h].write);
    forall u | u != t ensures Apart(p, s.At(u)) {
      assert AccApart(s.accs[h], s.At(u));
    }
    forall k, u | k in s'.accs ensures AccApart(s'.accs[k], s'.At(u)) {
      assert AccApart(s.accs[k], s.At(u)) && k != h && s'.accs[k] == s.accs[k];
      if u == t && s.accs[k].n == s.accs[h].n {
        assert !s.accs[k].write && !s.accs[h].write;
      }
    }
    Moved(s, t, p, s');
  }

  // A node nobody refers to, linked by p.
  lemma NewApart(place: map<Node, Bucket>, alive: set<Node>, o: Pc, p: Pc, q: Pc)
    requires o.Searching? && o.w && p.Found? && p.isNew && p.w && p.b == o.b && Apart(o, q)
    requires PcOk(place, alive, q) && !q.Refers(p.n)
    ensures Apart(p, q) && PcOk(place[p.n := p.b], alive + {p.n}, q)
  {
  }

  // A new node is held by nobody.
  lemma LinkKeeps(s: State, t: Tid, s': State)
    requires Inv(s) && Link(s, t, s')
    ensures Inv(s')
  {
    var b := s.At(t).b;
    var n: Node, write: bool :| n !in s.used && s' == Linked(s, t, b, n, write);
    var p := Found(b, true, n, write, true);
    forall u | u != t ensures PcOk(s'.place, s'.alive, s.At(u)) && Apart(p, s.At(u)) {
      assert Apart(s.At(t), s.At(u)) && PcOk(s.place, s.alive, s.At(u));
      assert !s.At(u).Refers(n);
      NewApart(s.place, s.alive, s.At(t), p, s.At(u));
    }
    forall k, u | k in s'.accs ensures AccApart(s'.accs[k], s'.At(u)) {
      assert AccApart(s.accs[k], s.At(u)) && s.accs[k].n != n;
    }
    Moved(s, t, p, s');
  }

  // Whoever unlinks a node has its bucket to himself.
  lemma UnlinkKeeps(s: State, t: Tid, s': State, n: Node, p: Pc)
    requires Inv(s) && n in s.place && s.At(t).WritesBucket(s.place[n]) && s' == s.Move(t, p).(place := s.place - {n})
    requires p == Waiting(n) || (s.At(t).Looking? && s.At(t).n == n && p == if s.At(t).write then Excluded(n) else Upgrading(n))
    ensures Inv(s')
  {
    assert PcOk(s.place, s.alive, s.At(t));
    forall u | u != t ensures PcOk(s'.place, s'.alive, s.At(u)) && Apart(p, s.At(u)) {
      assert Apart(s.At(t), s.At(u)) && PcOk(s.place, s.alive, s.At(u));
      assert !s.At(u).HoldsBucket(s.place[n]) && !s.At(u).Owns(n);
    }
    forall k, u | k in s'.accs ensures AccApart(s'.accs[k], s'.At(u)) {
      assert AccApart(s.accs[k], s.At(u)) && AccApart(s.accs[k], s.At(t));
    }
    Moved(s, t, p, s');
  }

  lemma UnlinksKeep(s: State, t: Tid, s': State)
    requires Inv(s) && (EraseUnlink(s, t, s') || ExcludeUnlink(s, t, s'))
    ensures Inv(s')
  {
    if EraseUnlink(s, t, s') {
      var b := s.At(t).b;
      var n :| s.In(n, b) && s' == s.Move(t, Waiting(n)).(place := s.place - {n});
      UnlinkKeeps(s, t, s', n, Waiting(n));
    } else {
      UnlinkKeeps(s, t, s', s.At(t).n, s'.At(t));
    }
  }

  // When a node is deleted nobody else refers to it.
  lemma DeletedAlone(s: State, t: Tid)
    requires Inv(s) && s.At(t).Deleting?
    ensures forall u :: u != t ==> !s.At(u).Refers(s.At(t).n)
    ensures forall h :: h in s.accs ==> s.accs[h].n != s.At(t).n
    ensures s.At(t).n in s.alive && s.At(t).n !in s.place
  {
    var n := s.At(t).n;
    assert PcOk(s.place, s.alive, s.At(t)) && s.At(t).Owns(n) && s.At(t).Refers(n);
    forall u | u != t ensures !s.At(u).Refers(n) {
      assert Apart(s.At(t), s.At(u)) && PcOk(s.place, s.alive, s.At(u));
      assert s.At(t).Alone(n);
    }
    forall h | h in s.accs ensures s.accs[h].n != n {
      assert AccApart(s.accs[h], s.At(t));
    }
  }

  lemma DeleteKeeps(s: State, t: Tid, s': State)
    requires Inv(s) && Delete(s, t, s')
    ensures Inv(s')
  {
    DeletedAlone(s, t);
    forall u | u != t ensures PcOk(s'.place, s'.alive, s.At(u)) && Apart(Idle, s.At(u)) {
      assert PcOk(s.place, s.alive, s.At(u));
    }
    forall k, u | k in s'.accs ensures AccApart(s'.accs[k], s'.At(u)) {
      assert AccApart(s.accs[k], s.At(u));
    }
    Moved(s, t, Idle, s');
  }

  lemma RehashKeeps(s: State, s': State)
    requires Inv(s) && Rehash(s, s')
    ensures Inv(s')
  {
    assert forall u :: s'.At(u) == s.At(u);
    var n: Node, b: Bucket :| n in s.place && Unlocked(s, s.place[n]) && s' == s.Put(n, b);
    forall u ensures PcOk(s'.place, s'.alive, s.At(u)) {
      PutKeeps(s.place, s.alive, s.At(u), n, b);
    }
    assert AccsOk(s');
  }

  lemma PutKeeps(place: map<Node, Bucket>, alive: set<Node>, p: Pc, n: Node, b: Bucket)
    requires PcOk(place, alive, p) && n in place && !p.HoldsBucket(place[n])
    ensures PcOk(place[n := b], alive, p)
  {
  }

  lemma InvStep(s: State, s': State)
    requires Inv(s) && Next(s, s')
    ensures Inv(s')
  {
    if Release(s, s') {
      ReleaseKeeps(s, s');
    } else if Rehash(s, s') {
      RehashKeeps(s, s');
    } else {
      var t :| ThreadStep(s, t, s');
      if Enter(s, t, s') {
        EnterKeeps(s, t, s');
      } else if Leave(s, t, s') || Downgrade(s, t, s') || Find(s, t, s') || Unlock(s, t, s') {
        LeaveKeeps(s, t, s');
      } else if Link(s, t, s') {
        LinkKeeps(s, t, s');
      } else if Take(s, t, s') {
        TakeKeeps(s, t, s');
      } else if EraseUnlink(s, t, s') || ExcludeUnlink(s, t, s') {
        UnlinksKeep(s, t, s');
      } else if Bring(s, t, s') {
        BringKeeps(s, t, s');
      } else if Look(s, t, s') {
        LookKeeps(s, t, s');
      } else if NotThere(s, t, s') {
        NotThereKeeps(s, t, s');
      } else if LockUnlinked(s, t, s') {
        LockUnlinkedKeeps(s, t, s');
      } else {
        DeleteKeeps(s, t, s');
      }
    }
  }

  // ---------------------------------------------------------------- nothing is leaked

  // A node that is neither linked nor deleted is on its way: some thread has unlinked it.
  ghost predicate NoLeak(s: State) {
    forall n :: n in s.alive && n !in s.place ==> exists t :: s.At(t).Owns(n)
  }

  // What a thread owns it goes on owning until it deletes it.
  lemma OwnerGoesOn(s: State, t: Tid, s': State, n: Node)
    requires ThreadStep(s, t, s') && s.At(t).Owns(n) && n in s'.alive
    ensures s'.At(t).Owns(n)
  {
    assert LockUnlinked(s, t, s') || Unlock(s, t, s') || Delete(s, t, s');
  }

  lemma OthersStay(s: State, t: Tid, u: Tid, s': State)
    requires ThreadStep(s, u, s') && t != u
    ensures s'.At(t) == s.At(t)
  {
  }

  // Only whoever unlinks a node takes it out of its bucket, and owns it then.
  lemma UnlinkedIsOwned(s: State, t: Tid, s': State, n: Node)
    requires ThreadStep(s, t, s') && n in s.place && n !in s'.place
    ensures s'.At(t).Owns(n)
  {
  }

  lemma NothingElseComes(s: State, t: Tid, s': State, n: Node)
    requires ThreadStep(s, t, s') && n in s'.alive && n !in s.alive
    ensures n in s'.place
  {
  }

  lemma NoLeakStep(s: State, s': State)
    requires Inv(s) && NoLeak(s) && Next(s, s')
    ensures NoLeak(s')
  {
    if Release(s, s') || Rehash(s, s') {
      assert forall t :: s'.At(t) == s.At(t);
      assert s'.alive == s.alive && s'.place.Keys == s.place.Keys;
    } else {
      var t :| ThreadStep(s, t, s');
      forall n | n in s'.alive && n !in s'.place ensures exists u :: s'.At(u).Owns(n) {
        if n in s.place {
          UnlinkedIsOwned(s, t, s', n);
        } else if n in s.alive {
          var u :| s.At(u).Owns(n);
          if u == t { OwnerGoesOn(s, t, s', n); } else { OthersStay(s, u, t, s'); }
        } else {
          NothingElseComes(s, t, s', n);
        }
      }
    }
  }

  // ---------------------------------------------------------------- whole runs

  predicate Init(s: State) { s == State(map[], {}, {}, map[], map[]) }

  ghost predicate Follows(run: seq<State>, k: nat)
    requires 0 < k < |run|
  {
    Next(run[k - 1], run[k])
  }

  ghost predicate Run(run: seq<State>) {
    |run| > 0 && Init(run[0]) && forall k :: 0 < k < |run| ==> Follows(run, k)
  }

  lemma {:induction false} RunInv(run: seq<State>, k: nat)
    requires Run(run) && k < |run|
    ensures Inv(run[k]) && NoLeak(run[k])
  {
    if k == 0 {
      assert forall t :: run[0].At(t) == Idle;
    } else {
      RunInv(run, k - 1);
      assert Follows(run, k);
      InvStep(run[k - 1], run[k]);
      NoLeakStep(run[k - 1], run[k]);
    }
  }

  // No accessor and no thread ever refers to a deleted node, and linked nodes are there.
  lemma NothingDangles(run: seq<State>, k: nat)
    requires Run(run) && k < |run|
    ensures forall h :: h in run[k].accs ==> run[k].accs[h].n in run[k].alive
    ensures forall t, n :: run[k].At(t).Refers(n) ==> n in run[k].alive
    ensures run[k].place.Keys <= run[k].alive
  {
    RunInv(run, k);
    forall t, n | run[k].At(t).Refers(n) ensures n in run[k].alive {
      assert PcOk(run[k].place, run[k].alive, run[k].At(t));
    }
  }

  // While an item is held for writing nobody else holds it.
  lemma WritersAreAlone(run: seq<State>, k: nat, h: Handle)
    requires Run(run) && k < |run| && h in run[k].accs && run[k].accs[h].write
    ensures forall i :: i in run[k].accs && i != h ==> run[k].accs[i].n != run[k].accs[h].n
    ensures forall t :: !run[k].At(t).Has(run[k].accs[h].n)
  {
    RunInv(run, k);
    forall t ensures !run[k].At(t).Has(run[k].accs[h].n) {
      assert AccApart(run[k].accs[h], run[k].At(t));
    }
  }

  // The thread that has just linked a node can lock the item at once.
  lemma NewItemIsFree(run: seq<State>, k: nat, t: Tid)
    requires Run(run) && k < |run| && run[k].At(t).Found? && run[k].At(t).isNew
    ensures ItemFree(run[k], t, run[k].At(t).n, run[k].At(t).write)
  {
    RunInv(run, k);
    var n := run[k].At(t).n;
    forall u | u != t ensures !run[k].At(u).Alone(n) && !run[k].At(u).Has(n) {
      assert Apart(run[k].At(t), run[k].At(u));
    }
    forall h | h in run[k].accs ensures run[k].accs[h].n != n {
      assert AccApart(run[k].accs[h], run[k].At(t));
    }
  }

  ghost predicate Unlinks(s: State, s': State, n: Node) { n in s.place && n !in s'.place }

  lemma UsedStaysBy(s: State, t: Tid, s': State, n: Node)
    requires ThreadStep(s, t, s') && n in s.used
    ensures n in s'.used && (n !in s.place ==> n !in s'.place) && (n !in s.alive ==> n !in s'.alive)
  {
  }

  lemma UsedStays(s: State, s': State, n: Node)
    requires Next(s, s') && n in s.used
    ensures n in s'.used && (n !in s.place ==> n !in s'.place) && (n !in s.alive ==> n !in s'.alive)
  {
    if !Release(s, s') && !Rehash(s, s') {
      var t :| ThreadStep(s, t, s');
      UsedStaysBy(s, t, s', n);
    }
  }

  lemma {:induction false} GoneStaysGone(run: seq<State>, i: nat, j: nat, n: Node)
    requires Run(run) && i <= j < |run| && n in run[i].used
    ensures n in run[j].used
    ensures n !in run[i].place ==> n !in run[j].place
    ensures n !in run[i].alive ==> n !in run[j].alive
    decreases j
  {
    if i < j {
      GoneStaysGone(run, i, j - 1, n);
      assert Follows(run, j);
      UsedStays(run[j - 1], run[j], n);
    }
  }

  // Of all erase and exclude calls at most one removes a node.
  lemma RemovedOnce(run: seq<State>, i: nat, j: nat, n: Node)
    requires Run(run) && 0 < i < |run| && 0 < j < |run|
    requires Unlinks(run[i - 1], run[i], n) && Unlinks(run[j - 1], run[j], n)
    ensures i == j
  {
    RunInv(run, i - 1);
    RunInv(run, j - 1);
    if i < j {
      StillUsed(run, i, n);
      GoneStaysGone(run, i, j - 1, n);
    } else if j < i {
      StillUsed(run, j, n);
      GoneStaysGone(run, j, i - 1, n);
    }
  }

  lemma StillUsed(run: seq<State>, i: nat, n: Node)
    requires Run(run) && 0 < i < |run| && n in run[i - 1].place
    ensures n in run[i].used
  {
    RunInv(run, i - 1);
    assert Follows(run, i);
    UsedStays(run[i - 1], run[i], n);
  }

  // A node is deleted by the thread that has unlinked it, when nobody else refers to it any more.
  lemma DeletedLast(run: seq<State>, k: nat, n: Node)
    requires Run(run) && 0 < k < |run| && n in run[k - 1].alive && n !in run[k].alive
    ensures var s := run[k - 1];
      && n !in s.place && (forall h :: h in s.accs ==> s.accs[h].n != n)
      && exists t :: s.At(t) == Deleting(n) && forall u :: u != t ==> !s.At(u).Refers(n)
  {
    RunInv(run, k - 1);
    assert Follows(run, k);
    var t :| ThreadStep(run[k - 1], t, run[k]);
    assert run[k - 1].At(t) == Deleting(n);
    DeletedAlone(run[k - 1], t);
  }

  // With no operation under way the nodes that exist are exactly the linked ones.
  lemma QuietMapHoldsItsNodes(run: seq<State>, k: nat)
    requires Run(run) && k < |run| && forall t :: run[k].At(t).Idle?
    ensures run[k].alive == run[k].place.Keys
  {
    RunInv(run, k);
  }
}
