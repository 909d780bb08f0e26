// The global list of observer proxies as a step system: a doubly linked list behind a reader-writer lock, walked
// by threads that keep a counted reference to their last position, with proxies removed when their count reaches
// zero. Observers' callbacks may switch observers on and off themselves, so calls nest.
module ObserverModel {

  type Proxy = nat
  type Tid = nat

  datatype Ptr = Null | To(p: Proxy)

  // Release: the remove_ref_slow of observe(false), outside any pass.
  datatype Kind = Entry | Exit | Release

  // Quick, Advance, Test: the steps of the loop under the reader lock. Slow: in remove_ref_slow. Want: waiting for
  // the writer lock there. Gone: the proxy is unlinked and about to be deleted. Calling: in user code, with no lock.
  datatype Pc = Quick | Advance | Test | Slow | Want | Gone | Calling

  // One call of process_list or remove_ref_slow. last (the parameter local_last), own (the position reached) and
  // drop (the reference being given up) are counted references; cur is where the pass stands, without one.
  // inner (history): an entry pass has begun inside this one.
  datatype Frame = Frame(kind: Kind, pc: Pc, last: Ptr, cur: Ptr, own: Ptr, drop: Ptr, final: bool, inner: bool) {
    predicate Reads() { pc.Quick? || pc.Advance? || pc.Test? }
    function Count(p: Proxy): nat {
      (if last == To(p) then 1 else 0) + (if own == To(p) then 1 else 0) + (if drop == To(p) && !pc.Gone? then 1 else 0)
    }
  }

  function StackCount(stack: seq<Frame>, p: Proxy): nat {
    if stack == [] then 0 else StackCount(stack[..|stack| - 1], p) + stack[|stack| - 1].Count(p)
  }

  // saved: the scheduler's field for the last position. held (history): no pass has started from it since it was
  // stored, so the reference is still its own. exited (history): the exit pass has begun. stack: calls under way.
  datatype Local = Local(saved: Ptr, held: bool, exited: bool, stack: seq<Frame>) {
    predicate UserCode() { stack == [] || stack[|stack| - 1].pc.Calling? }
    predicate Reads() { stack != [] && stack[|stack| - 1].Reads() }
    predicate At(pc: Pc) { stack != [] && stack[|stack| - 1].pc == pc }

    function Top(): Frame
      requires stack != []
    {
      stack[|stack| - 1]
    }

    function Below(): seq<Frame>
      requires stack != []
    {
      stack[..|stack| - 1]
    }

    function With(f: Frame): Local
      requires stack != []
    {
      this.(stack := Below() + [f])
    }

    // The references of a thread on p.
    function Count(p: Proxy): nat {
      (if held && saved == To(p) then 1 else 0) + StackCount(stack, p)
    }

    // A pass starts from the field, which keeps its value.
    function Begin(kind: Kind): Local {
      var frame := Frame(kind, Quick, saved, if kind.Entry? then saved else Null, Null, Null, false, false);
      var outer := if stack == [] then [] else Below() + [Top().(inner := true)];
      Local(saved, false, exited || kind.Exit?, outer + [frame])
    }

    // The innermost call returns. Only the result of an entry pass is stored in the field.
    function Return(result: Ptr): Local
      requires stack != []
    {
      var m := this.(stack := Below());
      if Top().kind.Entry? then m.(saved := result, held := result.To?) else m
    }
  }

  const IDLE := Local(Null, false, false, [])

  function Read(m: map<Proxy, Ptr>, p: Proxy): Ptr { if p in m then m[p] else Null }

  // order lists the linked proxies, for reference.
  datatype State = State(
    first: Ptr,
    last: Ptr,
    next: map<Proxy, Ptr>,
    prev: map<Proxy, Ptr>,
    count: map<Proxy, int>,
    observed: set<Proxy>,
    alive: set<Proxy>,
    threads: map<Tid, Local>,
    order: seq<Proxy>)
  {
    function At(t: Tid): Local { if t in threads then threads[t] else IDLE }
    function Next(p: Proxy): Ptr { Read(next, p) }
    function Prev(p: Proxy): Ptr { Read(prev, p) }
    function Rc(p: Proxy): int { if p in count then count[p] else 0 }
    function Move(t: Tid, l: Local): State { this.(threads := threads[t := l]) }
    function Add(p: Proxy, d: int): State { this.(count := count[p := Rc(p) + d]) }
  }

  ghost predicate Init(s: State) {
    && s.first == Null && s.last == Null && s.observed == {} && s.alive == {} && s.threads == map[] && s.order == []
  }

  // ---------------------------------------------------------------- changes of the list

  // The constructor's part under the writer lock.
  function Append(s: State, p: Proxy): State {
    var u := s.(next := s.next[p := Null], prev := s.prev[p := s.last], last := To(p), order := s.order + [p],
                alive := s.alive + {p}, observed := s.observed + {p}, count := s.count[p := 1]);
    match s.last
    case Null => u.(first := To(p))
    case To(q) => u.(next := u.next[q := To(p)])
  }

  function Removed(order: seq<Proxy>, p: Proxy): seq<Proxy> {
    if order == [] then [] else if order[0] == p then order[1..] else [order[0]] + Removed(order[1..], p)
  }

  // remove_from_list.
  function Unlink(s: State, p: Proxy): State {
    var a := match s.Next(p)
             case To(q) => s.(prev := s.prev[q := s.Prev(p)])
             case Null => s.(last := s.Prev(p));
    var b := match s.Prev(p)
             case To(q) => a.(next := a.next[q := s.Next(p)])
             case Null => a.(first := s.Next(p));
    b.(order := Removed(s.order, p))
  }

  // ---------------------------------------------------------------- steps

  ghost predicate NoReaders(s: State) { forall t {:trigger s.At(t)} :: !s.At(t).Reads() }

  // The proxy of observe(true), from a thread's own code or from a callback. The entry pass that follows on a
  // thread with a scheduler is a step of its own.
  ghost predicate Create(s: State, t: Tid, s': State) {
    && s.At(t).UserCode() && NoReaders(s)
    && exists p {:trigger Append(s, p)} :: p !in s.alive && s' == Append(s, p)
  }

  function Releasing(p: Proxy): Frame { Frame(Release, Slow, Null, Null, Null, To(p), true, false) }

  // observe(false): the observer goes, and its reference is given up.
  ghost predicate Forget(s: State, t: Tid, s': State) {
    && s.At(t).UserCode() && NoReaders(s)
    && exists p {:trigger Releasing(p)} :: p in s.observed
         && s' == s.Move(t, s.At(t).(stack := s.At(t).stack + [Releasing(p)])).(observed := s.observed - {p})
  }

  // process_list begins: an entry pass at any time, an exit pass when nothing is under way on the thread.
  ghost predicate Begin(s: State, t: Tid, s': State) {
    && s.At(t).UserCode()
    && (s' == s.Move(t, s.At(t).Begin(Entry)) || (s.At(t).stack == [] && s' == s.Move(t, s.At(t).Begin(Exit))))
  }

  // The scheduler is freed; another one may come to life on the same thread.
  ghost predicate Free(s: State, t: Tid, s': State) { s.At(t).stack == [] && s' == s.Move(t, IDLE) }

  // Leaves the locked section; the old position, if still held, is given up slowly.
  function Leave(l: Local, own: Ptr, final: bool): Local
    requires l.stack != []
  {
    var f := l.Top();
    if f.last.To? then l.With(f.(pc := Slow, drop := f.last, last := Null, cur := Null, own := own, final := final))
    else if final then l.Return(own)
    else l.With(f.(pc := Calling, cur := Null, own := own))
  }

  // One step of the loop under the reader lock.
  function Walk(s: State, t: Tid): State
    requires s.At(t).stack != []
  {
    var l, f := s.At(t), s.At(t).Top();
    match f.pc
    case Quick =>
      if f.last.To? && f.last.p in s.observed
      then s.Add(f.last.p, -1).Move(t, l.With(f.(pc := Advance, last := Null)))
      else s.Move(t, l.With(f.(pc := Advance)))
    case Advance =>
      if f.cur.To? then
        if s.Next(f.cur.p).To? then s.Move(t, l.With(f.(pc := Test, cur := s.Next(f.cur.p))))
        else if f.kind.Entry? then s.Add(f.cur.p, 1).Move(t, Leave(l, f.cur, true))
        else s.Move(t, Leave(l, Null, true))
      else if s.first == Null then s.Move(t, Leave(l, Null, true))
      else s.Move(t, l.With(f.(pc := Test, cur := s.first)))
    case Test =>
      if f.cur.To? && f.cur.p in s.observed
      then s.Add(f.cur.p, 1).Move(t, Leave(l, f.cur, false))
      else s.Move(t, l.With(f.(pc := Quick)))
    case _ => s
  }

  // What follows once a reference has been given up.
  function Dropped(l: Local): Local
    requires l.stack != []
  {
    if l.Top().final then l.Return(l.Top().own) else l.With(l.Top().(pc := Calling, drop := Null))
  }

  // One step of remove_ref_slow, or the way back from user code to the list.
  ghost predicate GiveUp(s: State, t: Tid, s': State) {
    var l := s.At(t);
    && l.stack != []
    && var f := l.Top();
    match f.pc
    case Slow =>
      && f.drop.To?
      && s' == if s.Rc(f.drop.p) > 1 then s.Add(f.drop.p, -1).Move(t, Dropped(l)) else s.Move(t, l.With(f.(pc := Want)))
    case Want =>
      && f.drop.To? && NoReaders(s)
      && s' == if s.Rc(f.drop.p) == 1 then Unlink(s.Add(f.drop.p, -1), f.drop.p).Move(t, l.With(f.(pc := Gone)))
               else s.Add(f.drop.p, -1).Move(t, Dropped(l))
    case Gone => f.drop.To? && s' == s.Move(t, Dropped(l)).(alive := s.alive - {f.drop.p})
    case Calling => s' == s.Move(t, l.With(f.(pc := Quick, last := f.own, cur := f.own, own := Null)))
    case _ => false
  }

  ghost predicate ThreadStep(s: State, t: Tid, s': State) {
    || Create(s, t, s') || Forget(s, t, s') || Begin(s, t, s') || Free(s, t, s') || GiveUp(s, t, s')
    || (s.At(t).Reads() && s' == Walk(s, t))
  }

  ghost predicate Step(s: State, s': State) { exists t :: ThreadStep(s, t, s') }

  ghost predicate Follows(run: seq<State>, k: nat)
    requires 0 < k < |run|
  {
    Step(run[k - 1], run[k])
  }

  ghost predicate Run(run: seq<State>) {
    |run| > 0 && Init(run[0]) && forall k :: 0 < k < |run| ==> Follows(run, k)
  }

  // ---------------------------------------------------------------- how schedulers use the field

  // The step starts a pass from a position an earlier pass has started from already.
  predicate StartsAgain(l: Local, m: Local) {
    |m.stack| > |l.stack| && !m.stack[|m.stack| - 1].kind.Release? && l.saved.To? && !l.held
  }

  // The step ends an entry pass, and what it stores overwrites a position of its own.
  predicate Overwrites(l: Local, m: Local) {
    |m.stack| < |l.stack| && l.Top().kind.Entry? && l.held
  }

  // The step frees a scheduler together with the position it has saved.
  predicate Abandons(l: Local, m: Local) { l.stack == m.stack == [] && l.held && !m.held }

  predicate Misuse(l: Local, m: Local) { StartsAgain(l, m) || Overwrites(l, m) || Abandons(l, m) }

  ghost predicate ProperStep(s: State, s': State) {
    exists t :: ThreadStep(s, t, s') && !Misuse(s.At(t), s'.At(t))
  }

  ghost predicate FollowsProperly(run: seq<State>, k: nat)
    requires 0 < k < |run|
  {
    ProperStep(run[k - 1], run[k])
  }

  ghost predicate ProperRun(run: seq<State>) {
    |run| > 0 && Init(run[0]) && forall k :: 0 < k < |run| ==> FollowsProperly(run, k)
  }

  // A rule the users of the library can follow: no pass begins while another is under way on the same thread, none
  // after the exit pass, and a scheduler is freed only after its exit pass.
  predicate Orderly(l: Local, m: Local) {
    && (|m.stack| > |l.stack| && !m.stack[|m.stack| - 1].kind.Release? ==> l.stack == [] && !l.exited)
    && (l.stack == m.stack == [] && m == IDLE && m != l ==> l.exited)
  }

  ghost predicate OrderlyStep(s: State, s': State) {
    exists t :: ThreadStep(s, t, s') && Orderly(s.At(t), s'.At(t))
  }

  ghost predicate FollowsOrderly(run: seq<State>, k: nat)
    requires 0 < k < |run|
  {
    OrderlyStep(run[k - 1], run[k])
  }

  ghost predicate OrderlyRun(run: seq<State>) {
    |run| > 0 && Init(run[0]) && forall k :: 0 < k < |run| ==> FollowsOrderly(run, k)
  }

  // The proxies the next step of a thread dereferences.
  function Touched(l: Local): set<Proxy> {
    if l.stack == [] then {} else
    var f := l.Top();
    match f.pc
    case Quick => if f.last.To? then {f.last.p} else {}
    case Advance => if f.cur.To? then {f.cur.p} else {}
    case Test => if f.cur.To? then {f.cur.p} else {}
    case Slow => if f.drop.To? then {f.drop.p} else {}
    case Want => if f.drop.To? then {f.drop.p} else {}
    case Gone => if f.drop.To? then {f.drop.p} else {}
    case Calling => {}
  }
}
