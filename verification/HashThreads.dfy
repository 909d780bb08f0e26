// The hash map used by many threads: bucket locks as sections during which others keep off, masks loaded long
// before they are used, buckets claimed for rehashing one by one, and growth at any moment.
module HashThreads {
  import opened Powers
  import opened HashLayout
  import opened HashTable
  import opened HashState

  type Tid = nat

  datatype Op = Find(key: Key) | Insert(key: Key, val: Val) | Erase(key: Key)

  // Masked: a mask of length m was loaded. Rehashing: the buckets marked so far, each the parent of the one
  // before it. Holding: bucket i is locked, for writing or for reading. Comparing: the mask was loaded again, with
  // length now, and selects another bucket, first because of bit k. Confirmed: bucket i is locked for writing and
  // the mask has been checked since. Upgrading: waiting for the write lock with no lock held.
  datatype Phase =
    | Idle
    | Masked(op: Op, m: nat)
    | Rehashing(op: Op, m: nat, stack: seq<nat>)
    | Holding(op: Op, m: nat, i: nat, writer: bool)
    | Comparing(op: Op, m: nat, i: nat, writer: bool, now: nat, k: nat)
    | Upgrading(op: Op, m: nat, i: nat)
    | Confirmed(op: Op, i: nat)
  {
    predicate Holds(j: nat) { (Holding? || Comparing? || Confirmed?) && i == j }
    predicate Writes(j: nat) { Holds(j) && (Holding? || Comparing? ==> writer) }
  }

  datatype State = State(level: nat, base: nat, buckets: Table, threads: map<Tid, Phase>) {
    function At(t: Tid): Phase { if t in threads then threads[t] else Idle }
    function Move(t: Tid, p: Phase): State { this.(threads := threads[t := p]) }
  }

  // What a step means for the map it implements.
  datatype Event =
    | Silent
    | Present(item: Item)
    | Absent(key: Key)
    | Inserted(item: Item)
    | Erased(item: Item)

  ghost predicate MapStep(m: set<Item>, ev: Event, m': set<Item>) {
    match ev
    case Silent => m' == m
    case Present(it) => it in m && m' == m
    case Absent(key) => (forall it :: it in m ==> it.key != key) && m' == m
    case Inserted(it) => (forall x :: x in m ==> x.key != it.key) && m' == m + {it}
    case Erased(it) => it in m && m' == m - {it}
  }

  // ---------------------------------------------------------------- steps

  ghost predicate NoOtherWrites(s: State, t: Tid, i: nat) {
    forall u :: u != t ==> !s.At(u).Writes(i)
  }

  ghost predicate NoOtherHolds(s: State, t: Tid, i: nat) {
    forall u :: u != t ==> !s.At(u).Holds(i)
  }

  // k is the position of the first bit of c that an old mask of length m cuts off.
  predicate FirstCutBit(c: nat, m: nat, k: nat) { m <= k && Bit(c, k) && Cut(c, k) == Cut(c, m) }

  ghost predicate Load(s: State, t: Tid, s': State, ev: Event) {
    && ev == Silent
    && match s.At(t)
       case Idle => exists op :: s' == s.Move(t, Masked(op, s.level))
       case _ => false
  }

  // A bucket that waits for rehashing is locked and marked.
  ghost predicate Claim(s: State, t: Tid, s': State, ev: Event) {
    && ev == Silent
    && match s.At(t)
       case Masked(op, m) =>
         var i := Cut(op.key.hash, m);
         && i < |s.buckets| && s.buckets[i].RehashReq?
         && s' == s.Move(t, Rehashing(op, m, [i])).(buckets := s.buckets[i := Claimed])
       case Rehashing(op, m, stack) =>
         && stack != [] && 1 < stack[|stack| - 1] < |s.buckets|
         && var i := Parent(stack[|stack| - 1]);
         && s.buckets[i].RehashReq?
         && s' == s.Move(t, Rehashing(op, m, stack + [i])).(buckets := s.buckets[i := Claimed])
       case _ => false
  }

  // The innermost marked bucket takes its items from its parent, which is locked meanwhile: for writing only
  // when there is something to move.
  ghost predicate Fill(s: State, t: Tid, s': State, ev: Event) {
    && ev == Silent
    && s.At(t).Rehashing?
    && var stack := s.At(t).stack;
    && stack != [] && 1 < stack[|stack| - 1] < |s.buckets|
    && var i := stack[|stack| - 1];
    && var p := Parent(i);
    && s.buckets[p].Chain?
    && NoOtherWrites(s, t, p)
    && (NoOtherHolds(s, t, p) || Picked(Nodes(s.buckets[p]), Log2(i) + 1, i) == [])
    && s' == s.Move(t, if |stack| == 1 then Holding(s.At(t).op, s.At(t).m, i, true)
                       else Rehashing(s.At(t).op, s.At(t).m, stack[..|stack| - 1])).(buckets := Pull(s.buckets, i))
  }

  // A bucket with a list is locked.
  ghost predicate Lock(s: State, t: Tid, s': State, ev: Event) {
    && ev == Silent
    && match s.At(t)
       case Masked(op, m) =>
         var i := Cut(op.key.hash, m);
         && i < |s.buckets| && s.buckets[i].Chain? && NoOtherWrites(s, t, i)
         && exists w: bool :: (w ==> NoOtherHolds(s, t, i)) && s' == s.Move(t, Holding(op, m, i, w))
       case Upgrading(op, m, i) =>
         NoOtherHolds(s, t, i) && s' == s.Move(t, Holding(op, m, i, true))
       case _ => false
  }

  // A reader turns into a writer, at once or by letting go first.
  ghost predicate Upgrade(s: State, t: Tid, s': State, ev: Event) {
    && ev == Silent
    && match s.At(t)
       case Holding(op, m, i, false) =>
         || (NoOtherHolds(s, t, i) && s' == s.Move(t, Holding(op, m, i, true)))
         || s' == s.Move(t, Upgrading(op, m, i))
       case _ => false
  }

  // A contended upgrade, or a long wait for an item: start again with the mask of now.
  ghost predicate Restart(s: State, t: Tid, s': State, ev: Event) {
    && ev == Silent
    && match s.At(t)
       case Confirmed(op, i) => s' == s.Move(t, Masked(op, s.level))
       case Holding(op, m, i, _) => s' == s.Move(t, Masked(op, s.level))
       case _ => false
  }

  // No mask race: an unsuccessful search ends, or a writer may go on.
  ghost predicate GoesOn(s: State, t: Tid, op: Op, i: nat, w: bool, s': State, ev: Event) {
    && i < |s.buckets|
    && (|| (w && ev == Silent && s' == s.Move(t, Confirmed(op, i)))
        || (!op.Insert? && (forall it :: it in Nodes(s.buckets[i]) ==> it.key != op.key)
            && ev == Absent(op.key) && s' == s.Move(t, Idle)))
  }

  ghost predicate FoundAt(s: State, t: Tid, k: nat, s': State)
    requires s.At(t).Holding?
  {
    var Holding(op, m, i, w) := s.At(t);
    k < s.level && FirstCutBit(op.key.hash, m, k) && s' == s.Move(t, Comparing(op, m, i, w, s.level, k))
  }

  // A reader has looked for the key in vain; an insertion would want the write lock next.
  ghost predicate SearchFailed(s: State, op: Op, i: nat) {
    !op.Insert? && i < |s.buckets| && forall it :: it in Nodes(s.buckets[i]) ==> it.key != op.key
  }

  // The mask is loaded again. When it selects another bucket, the first bit that the old mask cuts off is found.
  ghost predicate Check(s: State, t: Tid, s': State, ev: Event) {
    match s.At(t)
    case Holding(op, m, i, w) =>
      if Cut(op.key.hash, m) == Cut(op.key.hash, s.level) then GoesOn(s, t, op, i, w, s', ev)
      else
        && ev == Silent && (w || SearchFailed(s, op, i))
        && exists k: nat :: FoundAt(s, t, k, s')
    case _ => false
  }

  // Later, whatever has happened meanwhile, the bucket that bit leads to is looked at: a race if it has been rehashed.
  ghost predicate Compare(s: State, t: Tid, s': State, ev: Event) {
    match s.At(t)
    case Comparing(op, m, i, w, now, k) =>
      && Cut(op.key.hash, k + 1) < |s.buckets|
      && if s.buckets[Cut(op.key.hash, k + 1)].RehashReq? then GoesOn(s, t, op, i, w, s', ev)
         else ev == Silent && s' == s.Move(t, Masked(op, now))
    case _ => false
  }

  // A search that finds the key.
  ghost predicate Hit(s: State, t: Tid, s': State, ev: Event) {
    && (s.At(t).Holding? || s.At(t).Confirmed?)
    && var op, i := s.At(t).op, s.At(t).i;
    && i < |s.buckets|
    && exists k :: 0 <= k < |Nodes(s.buckets[i])| && HitAt(s, t, op, i, k, s', ev)
  }

  ghost predicate HitAt(s: State, t: Tid, op: Op, i: nat, k: nat, s': State, ev: Event)
    requires i < |s.buckets| && k < |Nodes(s.buckets[i])|
  {
    var ns := Nodes(s.buckets[i]);
    && ns[k].key == op.key
    && if op.Erase? then
         && s.At(t).Writes(i) && ev == Erased(ns[k])
         && s' == s.Move(t, Idle).(buckets := s.buckets[i := Chain(ns[..k] + ns[k + 1..])])
       else ev == Present(ns[k]) && s' == s.Move(t, Idle)
  }

  // A confirmed writer that does not find the key.
  ghost predicate Miss(s: State, t: Tid, s': State, ev: Event) {
    match s.At(t)
    case Confirmed(op, i) =>
      && i < |s.buckets| && (forall it :: it in Nodes(s.buckets[i]) ==> it.key != op.key)
      && if op.Insert? then
           && ev == Inserted(Item(op.key, op.val))
           && s' == s.Move(t, Idle).(buckets := s.buckets[i := Chain([Item(op.key, op.val)] + Nodes(s.buckets[i]))])
         else ev == Absent(op.key) && s' == s.Move(t, Idle)
    case _ => false
  }

  // Some thread publishes the next segment.
  ghost predicate Grow(s: State, s': State, ev: Event) {
    && ev == Silent && s.level >= 1 && |s.buckets| == Pow2(s.level)
    && var next := if s.level == EMBEDDED_BLOCK then FIRST_BLOCK else s.level + 1;
    && Pow2(next) > Pow2(s.level)
    && s' == s.(level := next, buckets := Grown(s.buckets, Pow2(next) - Pow2(s.level), RehashReq))
  }

  ghost predicate ThreadStep(s: State, t: Tid, s': State, ev: Event) {
    || Load(s, t, s', ev) || Claim(s, t, s', ev) || Fill(s, t, s', ev) || Lock(s, t, s', ev)
    || Upgrade(s, t, s', ev) || Restart(s, t, s', ev) || Check(s, t, s', ev) || Compare(s, t, s', ev)
    || Hit(s, t, s', ev) || Miss(s, t, s', ev)
  }

  ghost predicate Next(s: State, s': State, ev: Event) {
    Grow(s, s', ev) || exists t :: ThreadStep(s, t, s', ev)
  }

  // ---------------------------------------------------------------- the invariant

  predicate StackOk(b: Table, stack: seq<nat>) {
    && stack != []
    && forall k :: 0 <= k < |stack| ==> 1 < stack[k] < |b| && b[stack[k]].Claimed?
  }

  ghost predicate PhaseOk(b: Table, level: nat, base: nat, p: Phase) {
    match p
    case Idle => true
    case Masked(op, m) => base <= m <= level
    case Rehashing(op, m, stack) =>
      base <= m <= level && StackOk(b, stack) && stack[0] == Cut(op.key.hash, m)
      && (forall j, k :: 0 <= j < k < |stack| ==> stack[k] < stack[j])
    case Holding(op, m, i, _) => base <= m <= level && i == Cut(op.key.hash, m) && i < |b| && b[i].Chain?
    case Comparing(op, m, i, _, now, k) =>
      && base <= m <= now <= level && i == Cut(op.key.hash, m) && i < |b| && b[i].Chain?
      && FirstCutBit(op.key.hash, m, k) && k < now
    case Upgrading(op, m, i) => base <= m <= level && i == Cut(op.key.hash, m) && i < |b| && b[i].Chain?
    case Confirmed(op, i) => |b| == Pow2(level) && i == Home(b, level, op.key.hash) && b[i].Chain?
  }

  // Two threads never hold a bucket together when one of them writes, and never mark the same bucket.
  ghost predicate Apart(p: Phase, q: Phase) {
    && (forall i :: p.Writes(i) ==> !q.Holds(i))
    && (forall i :: q.Writes(i) ==> !p.Holds(i))
    && (p.Rehashing? && q.Rehashing? ==> forall i :: i in p.stack ==> i !in q.stack)
  }

  ghost predicate TableOk(b: Table, level: nat, base: nat) {
    Sound(b, level) && 1 <= base <= level && ClosedFrom(b, Pow2(base))
  }

  ghost predicate Inv(s: State) {
    && TableOk(s.buckets, s.level, s.base)
    && (forall t :: PhaseOk(s.buckets, s.level, s.base, s.At(t)))
    && (forall t, u :: t != u ==> Apart(s.At(t), s.At(u)))
  }

  // ---------------------------------------------------------------- every step keeps it

  // A change of the buckets that no other thread can notice in its phase.
  ghost predicate Spares(s: State, t: Tid, b: Table) {
    && |b| == |s.buckets|
    && (forall i :: 0 <= i < |b| && s.buckets[i].Chain? ==> b[i].Chain?)
    && (forall u, i :: u != t && s.At(u).Rehashing? && i in s.At(u).stack && i < |b| ==> b[i] == s.buckets[i])
    && (forall u :: u != t && s.At(u).Confirmed? && |b| == Pow2(s.level) ==>
          Home(b, s.level, s.At(u).op.key.hash) == Home(s.buckets, s.level, s.At(u).op.key.hash))
  }

  lemma Moved(s: State, t: Tid, p: Phase, b: Table, s': State)
    requires Inv(s) && s' == s.Move(t, p).(buckets := b)
    requires Spares(s, t, b) && TableOk(b, s.level, s.base) && PhaseOk(b, s.level, s.base, p)
    requires forall u :: u != t ==> Apart(p, s.At(u))
    ensures Inv(s')
  {
    forall u ensures PhaseOk(b, s.level, s.base, s'.At(u)) {
      assert PhaseOk(s.buckets, s.level, s.base, s.At(u));
      if u == t {
        assert s'.At(u) == p;
      } else {
        assert s'.At(u) == s.At(u);
      }
    }
    forall u, v | u != v ensures Apart(s'.At(u), s'.At(v)) {
      assert Apart(s.At(u), s.At(v));
      assert u != t ==> Apart(p, s.At(u));
      assert v != t ==> Apart(p, s.At(v));
    }
  }

  // Steps that change only the phase of a thread.
  lemma OnlyPhase(s: State, t: Tid, p: Phase, s': State)
    requires Inv(s) && s' == s.Move(t, p) && PhaseOk(s.buckets, s.level, s.base, p)
    requires forall u :: u != t ==> Apart(p, s.At(u))
    ensures Inv(s')
  {
    assert s' == s.Move(t, p).(buckets := s.buckets);
    Moved(s, t, p, s.buckets, s');
  }

  // A smaller claim on buckets keeps threads apart.
  lemma Less(s: State, t: Tid, p: Phase)
    requires Inv(s) && !p.Rehashing? && !p.Holding? && !p.Comparing? && !p.Confirmed?
    ensures forall u :: u != t ==> Apart(p, s.At(u))
  {
  }

  lemma LoadKeeps(s: State, t: Tid, s': State, ev: Event)
    requires Inv(s) && Load(s, t, s', ev)
    ensures Inv(s') && MapStep(Items(s.buckets), ev, Items(s'.buckets))
  {
    var op :| s' == s.Move(t, Masked(op, s.level));
    Less(s, t, Masked(op, s.level));
    OnlyPhase(s, t, Masked(op, s.level), s');
  }

  lemma ClaimTable(s: State, i: nat)
    requires TableOk(s.buckets, s.level, s.base) && i < |s.buckets| && s.buckets[i].RehashReq?
    ensures TableOk(s.buckets[i := Claimed], s.level, s.base) && Items(s.buckets[i := Claimed]) == Items(s.buckets)
  {
    ClaimIsSound(s.buckets, s.level, i);
    SameItems(s.buckets, s.buckets[i := Claimed]);
  }

  lemma ClaimSpares(s: State, t: Tid, i: nat)
    requires Inv(s) && i < |s.buckets| && s.buckets[i].RehashReq?
    ensures Spares(s, t, s.buckets[i := Claimed])
    ensures forall u :: s.At(u).Rehashing? ==> i !in s.At(u).stack
  {
    var b, c := s.buckets, s.buckets[i := Claimed];
    forall h: nat ensures Home(c, s.level, h) == Home(b, s.level, h) {
      SameRoots(b, c, Cut(h, s.level));
    }
    forall u | s.At(u).Rehashing? ensures i !in s.At(u).stack {
      assert PhaseOk(b, s.level, s.base, s.At(u));
    }
  }

  // One more marked bucket keeps threads apart.
  lemma MarkedApart(p: Phase, i: nat, q: Phase)
    requires Apart(p, q) && (p.Rehashing? || p.Masked?) && (q.Rehashing? ==> i !in q.stack)
    ensures p.Rehashing? ==> Apart(p.(stack := p.stack + [i]), q)
    ensures p.Masked? ==> Apart(Rehashing(p.op, p.m, [i]), q)
  {
    assert forall j :: !p.Writes(j) && !p.Holds(j);
  }

  lemma MarkedPhase(b: Table, level: nat, base: nat, p: Phase, i: nat)
    requires PhaseOk(b, level, base, p) && p.Rehashing? && Parent(p.stack[|p.stack| - 1]) == i
    requires 1 < i < |b| && b[i].RehashReq?
    ensures PhaseOk(b[i := Claimed], level, base, p.(stack := p.stack + [i]))
  {
  }

  lemma Claims(s: State, t: Tid, i: nat, p: Phase)
    requires Inv(s) && i < |s.buckets| && s.buckets[i].RehashReq? && (s.At(t).Masked? || s.At(t).Rehashing?)
    requires p == if s.At(t).Masked? then Rehashing(s.At(t).op, s.At(t).m, [i]) else s.At(t).(stack := s.At(t).stack + [i])
    requires PhaseOk(s.buckets[i := Claimed], s.level, s.base, p)
    ensures Inv(s.Move(t, p).(buckets := s.buckets[i := Claimed]))
    ensures Items(s.buckets[i := Claimed]) == Items(s.buckets)
  {
    ClaimTable(s, i);
    ClaimSpares(s, t, i);
    forall u | u != t ensures Apart(p, s.At(u)) {
      MarkedApart(s.At(t), i, s.At(u));
    }
    Moved(s, t, p, s.buckets[i := Claimed], s.Move(t, p).(buckets := s.buckets[i := Claimed]));
  }

  lemma ClaimKeeps(s: State, t: Tid, s': State, ev: Event)
    requires Inv(s) && Claim(s, t, s', ev)
    ensures Inv(s') && MapStep(Items(s.buckets), ev, Items(s'.buckets))
  {
    assert PhaseOk(s.buckets, s.level, s.base, s.At(t));
    match s.At(t)
    case Masked(op, m) =>
      Claims(s, t, Cut(op.key.hash, m), s'.At(t));
    case Rehashing(op, m, stack) =>
      MarkedPhase(s.buckets, s.level, s.base, s.At(t), Parent(stack[|stack| - 1]));
      Claims(s, t, Parent(stack[|stack| - 1]), s'.At(t));
  }

  lemma FillLeavesHome(s: State, t: Tid, i: nat, u: Tid)
    requires Inv(s) && 1 < i < |s.buckets| && !s.buckets[i].Chain? && s.buckets[Parent(i)].Chain?
    requires NoOtherWrites(s, t, Parent(i)) && u != t && s.At(u).Confirmed?
    ensures Home(Pull(s.buckets, i), s.level, s.At(u).op.key.hash) == Home(s.buckets, s.level, s.At(u).op.key.hash)
  {
    assert PhaseOk(s.buckets, s.level, s.base, s.At(u));
    assert s.At(u).Writes(s.At(u).i);
    RootAfterPull(s.buckets, i, Cut(s.At(u).op.key.hash, s.level));
  }

  // The items stay, and the table stays in order.
  lemma FillIsSound(s: State, t: Tid, i: nat)
    requires Inv(s) && s.At(t).Rehashing? && i in s.At(t).stack && 1 < i < |s.buckets|
    requires s.buckets[Parent(i)].Chain?
    ensures TableOk(Pull(s.buckets, i), s.level, s.base) && |Pull(s.buckets, i)| == |s.buckets|
    ensures Items(Pull(s.buckets, i)) == Items(s.buckets)
    ensures s.buckets[i].Claimed?
  {
    assert PhaseOk(s.buckets, s.level, s.base, s.At(t));
    assert !s.buckets[i].Chain?;
    PullIsSound(s.buckets, s.level, i);
    PullIsClosed(s.buckets, i, Pow2(s.base));
    SameItems(s.buckets, Pull(s.buckets, i));
  }

  lemma FillSpares(s: State, t: Tid, i: nat)
    requires Inv(s) && s.At(t).Rehashing? && i in s.At(t).stack && 1 < i < |s.buckets|
    requires s.buckets[i].Claimed? && s.buckets[Parent(i)].Chain? && NoOtherWrites(s, t, Parent(i))
    ensures Spares(s, t, Pull(s.buckets, i))
  {
    var b, c := s.buckets, Pull(s.buckets, i);
    forall u, j | u != t && s.At(u).Rehashing? && j in s.At(u).stack && j < |b| ensures c[j] == b[j] {
      assert PhaseOk(b, s.level, s.base, s.At(u));
      assert Apart(s.At(t), s.At(u));
    }
    forall u | u != t && s.At(u).Confirmed?
      ensures Home(c, s.level, s.At(u).op.key.hash) == Home(b, s.level, s.At(u).op.key.hash)
    {
      FillLeavesHome(s, t, i, u);
    }
  }

  lemma FillKeeps(s: State, t: Tid, s': State, ev: Event)
    requires Inv(s) && Fill(s, t, s', ev)
    ensures Inv(s') && MapStep(Items(s.buckets), ev, Items(s'.buckets))
  {
    var op, m, stack := s.At(t).op, s.At(t).m, s.At(t).stack;
    var i := stack[|stack| - 1];
    var p := if |stack| == 1 then Holding(op, m, i, true) else Rehashing(op, m, stack[..|stack| - 1]);
    assert PhaseOk(s.buckets, s.level, s.base, s.At(t));
    FillIsSound(s, t, i);
    FillSpares(s, t, i);
    forall u | u != t ensures Apart(p, s.At(u)) {
      assert Apart(s.At(t), s.At(u));
      assert PhaseOk(s.buckets, s.level, s.base, s.At(u));
    }
    var c := Pull(s.buckets, i);
    forall k | 0 <= k < |stack| - 1 ensures c[stack[k]] == s.buckets[stack[k]] {
      assert s.buckets[stack[k]].Claimed? && stack[k] > i;
    }
    Moved(s, t, p, c, s');
  }

  lemma LockKeeps(s: State, t: Tid, s': State, ev: Event)
    requires Inv(s) && Lock(s, t, s', ev)
    ensures Inv(s') && MapStep(Items(s.buckets), ev, Items(s'.buckets))
  {
    assert PhaseOk(s.buckets, s.level, s.base, s.At(t));
    OnlyPhase(s, t, s'.At(t), s');
  }

  lemma UpgradeKeeps(s: State, t: Tid, s': State, ev: Event)
    requires Inv(s) && Upgrade(s, t, s', ev)
    ensures Inv(s') && MapStep(Items(s.buckets), ev, Items(s'.buckets))
  {
    assert PhaseOk(s.buckets, s.level, s.base, s.At(t));
    OnlyPhase(s, t, s'.At(t), s');
  }

  lemma RestartKeeps(s: State, t: Tid, s': State, ev: Event)
    requires Inv(s) && Restart(s, t, s', ev)
    ensures Inv(s') && MapStep(Items(s.buckets), ev, Items(s'.buckets))
  {
    Less(s, t, s'.At(t));
    OnlyPhase(s, t, s'.At(t), s');
  }

  // Without a race the bucket an old mask selects is still the home of the key: either the mask of now selects it
  // too, or the next bucket to leave it still waits, even if the table has grown since the bit was found.
  lemma NoRaceIsHome(s: State, c: nat, m: nat, k: nat)
    requires TableOk(s.buckets, s.level, s.base) && s.base <= m <= s.level
    requires Cut(c, m) < |s.buckets| && s.buckets[Cut(c, m)].Chain?
    requires
      || Cut(c, m) == Cut(c, s.level)
      || (FirstCutBit(c, m, k) && k < s.level && Cut(c, k + 1) < |s.buckets| && s.buckets[Cut(c, k + 1)].RehashReq?)
    ensures Home(s.buckets, s.level, c) == Cut(c, m)
  {
    if Cut(c, m) != Cut(c, s.level) {
      Pow2Grows(s.base, m);
      assert ClosedFrom(s.buckets, Pow2(m));
      NextLevelDecides(s.buckets, c, s.level, k + 1, m);
    }
  }

  // The bucket is the home of the key, and so the answer is right.
  lemma GoesOnKeeps(s: State, t: Tid, op: Op, i: nat, w: bool, s': State, ev: Event)
    requires Inv(s) && GoesOn(s, t, op, i, w, s', ev) && (s.At(t).Holding? || s.At(t).Comparing?)
    requires s.At(t).op == op && s.At(t).i == i && s.At(t).writer == w
    requires i == Home(s.buckets, s.level, op.key.hash) && s.buckets[i].Chain?
    ensures Inv(s') && MapStep(Items(s.buckets), ev, Items(s'.buckets))
  {
    if ev == Absent(op.key) {
      MissingItems(s.buckets, s.level, op.key);
      Less(s, t, Idle);
    } else {
      assert forall u :: u != t ==> Apart(s.At(t), s.At(u));
    }
    OnlyPhase(s, t, s'.At(t), s');
  }

  lemma CheckKeeps(s: State, t: Tid, s': State, ev: Event)
    requires Inv(s) && Check(s, t, s', ev)
    ensures Inv(s') && MapStep(Items(s.buckets), ev, Items(s'.buckets))
  {
    var op, m, i, w := s.At(t).op, s.At(t).m, s.At(t).i, s.At(t).writer;
    assert PhaseOk(s.buckets, s.level, s.base, s.At(t));
    if Cut(op.key.hash, m) == Cut(op.key.hash, s.level) {
      NoRaceIsHome(s, op.key.hash, m, 0);
      GoesOnKeeps(s, t, op, i, w, s', ev);
    } else {
      var k :| FoundAt(s, t, k, s');
      assert forall u :: u != t ==> Apart(s.At(t), s.At(u));
      OnlyPhase(s, t, s'.At(t), s');
    }
  }

  lemma ComparedIsHome(s: State, t: Tid)
    requires Inv(s) && s.At(t).Comparing? && Cut(s.At(t).op.key.hash, s.At(t).k + 1) < |s.buckets|
    requires s.buckets[Cut(s.At(t).op.key.hash, s.At(t).k + 1)].RehashReq?
    ensures s.At(t).i < |s.buckets| && s.buckets[s.At(t).i].Chain?
    ensures s.At(t).i == Home(s.buckets, s.level, s.At(t).op.key.hash)
  {
    assert PhaseOk(s.buckets, s.level, s.base, s.At(t));
    NoRaceIsHome(s, s.At(t).op.key.hash, s.At(t).m, s.At(t).k);
  }

  lemma CompareKeeps(s: State, t: Tid, s': State, ev: Event)
    requires Inv(s) && Compare(s, t, s', ev)
    ensures Inv(s') && MapStep(Items(s.buckets), ev, Items(s'.buckets))
  {
    var op, i, w, k := s.At(t).op, s.At(t).i, s.At(t).writer, s.At(t).k;
    if s.buckets[Cut(op.key.hash, k + 1)].RehashReq? {
      ComparedIsHome(s, t);
      GoesOnKeeps(s, t, op, i, w, s', ev);
    } else {
      assert PhaseOk(s.buckets, s.level, s.base, s.At(t));
      Less(s, t, s'.At(t));
      OnlyPhase(s, t, s'.At(t), s');
    }
  }

  // The check always finds its bit, and the bucket to look at is there.
  lemma CheckCanGoOn(s: State, t: Tid)
    requires Inv(s) && s.At(t).Holding? && Cut(s.At(t).op.key.hash, s.At(t).m) != Cut(s.At(t).op.key.hash, s.level)
    ensures exists k: nat :: k < s.level && FirstCutBit(s.At(t).op.key.hash, s.At(t).m, k) && Cut(s.At(t).op.key.hash, k + 1) < |s.buckets|
  {
    assert PhaseOk(s.buckets, s.level, s.base, s.At(t));
    var k := FirstDifference(s.At(t).op.key.hash, s.At(t).m, s.level);
    Pow2Grows(k + 1, s.level);
    assert FirstCutBit(s.At(t).op.key.hash, s.At(t).m, k);
  }

  // A new list in a bucket the thread writes to.
  lemma NewListSpares(s: State, t: Tid, i: nat, ns: seq<Item>)
    requires Inv(s) && i < |s.buckets| && s.buckets[i].Chain?
    ensures Spares(s, t, s.buckets[i := Chain(ns)])
    ensures ClosedFrom(s.buckets[i := Chain(ns)], Pow2(s.base))
  {
    var b, c := s.buckets, s.buckets[i := Chain(ns)];
    forall h: nat ensures Home(c, s.level, h) == Home(b, s.level, h) {
      SameRoots(b, c, Cut(h, s.level));
    }
    forall u, j | u != t && s.At(u).Rehashing? && j in s.At(u).stack && j < |b| ensures c[j] == b[j] {
      assert PhaseOk(b, s.level, s.base, s.At(u));
    }
  }

  lemma HitKeeps(s: State, t: Tid, s': State, ev: Event)
    requires Inv(s) && Hit(s, t, s', ev)
    ensures Inv(s') && MapStep(Items(s.buckets), ev, Items(s'.buckets))
  {
    var op, i := s.At(t).op, s.At(t).i;
    var k :| 0 <= k < |Nodes(s.buckets[i])| && HitAt(s, t, op, i, k, s', ev);
    var ns := Nodes(s.buckets[i]);
    Less(s, t, Idle);
    RemovedItems(s.buckets, s.level, i, k);
    if op.Erase? {
      NewListSpares(s, t, i, ns[..k] + ns[k + 1..]);
      Moved(s, t, Idle, s.buckets[i := Chain(ns[..k] + ns[k + 1..])], s');
    } else {
      OnlyPhase(s, t, Idle, s');
    }
  }

  lemma MissKeeps(s: State, t: Tid, s': State, ev: Event)
    requires Inv(s) && Miss(s, t, s', ev)
    ensures Inv(s') && MapStep(Items(s.buckets), ev, Items(s'.buckets))
  {
    var op, i := s.At(t).op, s.At(t).i;
    assert PhaseOk(s.buckets, s.level, s.base, s.At(t));
    Less(s, t, Idle);
    if op.Insert? {
      var x := Item(op.key, op.val);
      InsertedItems(s.buckets, s.level, i, x);
      NewListSpares(s, t, i, [x] + Nodes(s.buckets[i]));
      Moved(s, t, Idle, s.buckets[i := Chain([x] + Nodes(s.buckets[i]))], s');
    } else {
      MissingItems(s.buckets, s.level, op.key);
      OnlyPhase(s, t, Idle, s');
    }
  }

  lemma GrowKeeps(s: State, s': State, ev: Event)
    requires Inv(s) && Grow(s, s', ev)
    ensures Inv(s') && MapStep(Items(s.buckets), ev, Items(s'.buckets))
  {
    var more := Pow2(s'.level) - Pow2(s.level);
    PowersCompare(s'.level, s.level);
    GrowIsSound(s.buckets, s.level, s'.level, more);
    SameItems(s.buckets, s'.buckets);
    forall t ensures PhaseOk(s'.buckets, s'.level, s'.base, s'.At(t)) {
      assert s'.At(t) == s.At(t);
      assert PhaseOk(s.buckets, s.level, s.base, s.At(t));
      if s.At(t).Confirmed? {
        HomeOfOld(s.buckets, s.level, more, s.At(t).op.key.hash, s'.level);
      }
    }
    forall t, u | t != u ensures Apart(s'.At(t), s'.At(u)) {
      assert Apart(s.At(t), s.At(u));
    }
  }

  // ---------------------------------------------------------------- whole runs

  // Every step of every thread is one step of the map it implements, or invisible there.
  lemma EveryStepIsAMapStep(s: State, s': State, ev: Event)
    requires Inv(s) && Next(s, s', ev)
    ensures Inv(s') && MapStep(Items(s.buckets), ev, Items(s'.buckets))
  {
    if Grow(s, s', ev) {
      GrowKeeps(s, s', ev);
    } else {
      var t :| ThreadStep(s, t, s', ev);
      if Load(s, t, s', ev) {
        LoadKeeps(s, t, s', ev);
      } else if Claim(s, t, s', ev) {
        ClaimKeeps(s, t, s', ev);
      } else if Fill(s, t, s', ev) {
        FillKeeps(s, t, s', ev);
      } else if Lock(s, t, s', ev) {
        LockKeeps(s, t, s', ev);
      } else if Upgrade(s, t, s', ev) {
        UpgradeKeeps(s, t, s', ev);
      } else if Restart(s, t, s', ev) {
        RestartKeeps(s, t, s', ev);
      } else if Check(s, t, s', ev) {
        CheckKeeps(s, t, s', ev);
      } else if Compare(s, t, s', ev) {
        CompareKeeps(s, t, s', ev);
      } else if Hit(s, t, s', ev) {
        HitKeeps(s, t, s', ev);
      } else {
        MissKeeps(s, t, s', ev);
      }
    }
  }

  predicate Initial(s: State) {
    s.level == 1 && s.base == 1 && s.buckets == [Chain([]), Chain([])] && s.threads == map[]
  }

  lemma InitialInv(s: State)
    requires Initial(s)
    ensures Inv(s) && Items(s.buckets) == {}
  {
    assert forall t :: s.At(t) == Idle;
    NoItems(s.buckets);
    assert Pow2(1) == 2;
  }

  // Event k leads to state k.
  ghost predicate Follows(states: seq<State>, events: seq<Event>, k: nat)
    requires 0 < k < |states| == |events|
  {
    Next(states[k - 1], states[k], events[k])
  }

  ghost predicate Run(states: seq<State>, events: seq<Event>) {
    && |states| == |events| > 0
    && Initial(states[0])
    && forall k :: 0 < k < |states| ==> Follows(states, events, k)
  }

  lemma {:induction false} RunInv(states: seq<State>, events: seq<Event>, k: nat)
    requires Run(states, events) && k < |states|
    ensures Inv(states[k])
  {
    if k == 0 {
      InitialInv(states[0]);
    } else {
      RunInv(states, events, k - 1);
      assert Follows(states, events, k);
      EveryStepIsAMapStep(states[k - 1], states[k], events[k]);
    }
  }

  // Over a whole run the results threads get are those of a map used by one thread at a time, in the order of
  // the steps that produce them; and every item sits in its home bucket all along.
  lemma RunsAreMapRuns(states: seq<State>, events: seq<Event>, k: nat)
    requires Run(states, events) && k < |states|
    ensures k > 0 ==> MapStep(Items(states[k - 1].buckets), events[k], Items(states[k].buckets))
    ensures k == 0 ==> Items(states[k].buckets) == {}
    ensures Placed(states[k].buckets, states[k].level)
  {
    RunInv(states, events, k);
    if k == 0 {
      InitialInv(states[0]);
    } else {
      RunInv(states, events, k - 1);
      assert Follows(states, events, k);
      EveryStepIsAMapStep(states[k - 1], states[k], events[k]);
    }
  }
}
