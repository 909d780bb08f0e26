// A task proxy lies in two places at once, a task pool and a mailbox. Whoever comes first takes the task and
// leaves the proxy to the other to free.
module TaskProxy {

  type Task = nat

  datatype Place = Pool | Mail { function Other(): Place { if Pool? then Mail else Pool } }

  // task_and_tag: the task with both location bits, or only the bit of the place that has to free the proxy.
  datatype TaskAndTag = Shared(task: Task) | Only(place: Place)

  datatype Phase = Outside | Loaded(tat: TaskAndTag) | Took(task: Task) | Freed

  datatype State = State(tat: TaskAndTag, pool: Phase, mail: Phase) {
    function At(p: Place): Phase { if p.Pool? then pool else mail }
    function Move(p: Place, f: Phase): State { if p.Pool? then this.(pool := f) else this.(mail := f) }
  }

  // extract_task called from place p.
  function Extract(s: State, p: Place): State {
    match s.At(p)
    case Outside => s.Move(p, Loaded(s.tat))
    case Loaded(tat) =>
      if tat == Only(p) then s.Move(p, Freed)
      else if s.tat == tat && tat.Shared? then s.Move(p, Took(tat.task)).(tat := Only(p.Other()))
      else s.Move(p, Freed)
    case _ => s
  }

  ghost predicate Run(task: Task, run: seq<State>) {
    && |run| > 0 && run[0] == State(Shared(task), Outside, Outside)
    && forall k :: 0 < k < |run| ==> run[k] == Extract(run[k - 1], Pool) || run[k] == Extract(run[k - 1], Mail)
  }

  ghost predicate Inv(task: Task, s: State) {
    && (s.tat.Shared? ==> s.tat.task == task)
    && (forall p :: s.At(p).Loaded? ==> s.At(p).tat == Shared(task) || s.At(p).tat == Only(p))
    && (forall p :: s.At(p).Took? ==> s.At(p).task == task)
    && (s.tat.Shared? <==> !s.pool.Took? && !s.mail.Took?)
    && (forall p :: s.tat == Only(p) ==> s.At(p.Other()).Took? && !s.At(p).Took?)
    && (forall p :: s.At(p).Freed? ==> s.tat == Only(p))
    && (forall p :: s.At(p).Loaded? && s.At(p).tat == Only(p) ==> s.tat == Only(p))
  }

  lemma ExtractKeeps(task: Task, s: State, p: Place)
    requires Inv(task, s)
    ensures Inv(task, Extract(s, p))
  {
    assert p.Other() != p && forall q :: q != p ==> Extract(s, p).At(q) == s.At(q);
  }

  // At no time do both places have the task or both free the proxy, and the proxy is freed by one place only
  // after the other has taken the task. So when both are through, each of the two has happened exactly once.
  lemma {:induction false} TakenOnceFreedOnce(task: Task, run: seq<State>, k: nat)
    requires Run(task, run) && k < |run|
    ensures Inv(task, run[k])
    ensures !(run[k].pool.Took? && run[k].mail.Took?) && !(run[k].pool.Freed? && run[k].mail.Freed?)
    ensures run[k].pool.Freed? ==> run[k].mail == Took(task)
    ensures run[k].mail.Freed? ==> run[k].pool == Took(task)
    // A place never finds the proxy reserved for the other one.
    ensures forall p :: run[k].At(p).Loaded? ==> run[k].At(p).tat == Only(p) || run[k].At(p).tat.Shared?
  {
    if k == 0 {
      assert forall p :: run[0].At(p) == Outside;
    } else {
      TakenOnceFreedOnce(task, run, k - 1);
      ExtractKeeps(task, run[k - 1], Pool);
      ExtractKeeps(task, run[k - 1], Mail);
    }
    var s := run[k];
    assert s.At(Pool) == s.pool && s.At(Mail) == s.mail;
    assert Pool.Other() == Mail && Mail.Other() == Pool;
  }

  // Each of the two calls ends with its second step, whatever the other does in between: in a reachable state the
  // first one loads what is there, and the second one takes the task exactly when nobody has taken it.
  lemma EveryCallAnswers(task: Task, run: seq<State>, k: nat, p: Place)
    requires Run(task, run) && k < |run|
    ensures var s, e := run[k], Extract(run[k], p);
      && (s.At(p).Outside? ==> e.At(p) == Loaded(s.tat))
      && (s.At(p).Loaded? ==> e.At(p) == if s.At(p.Other()).Took? then Freed else Took(task))
      && (s.At(p).Took? || s.At(p).Freed? ==> e == s)
      && e.At(p.Other()) == s.At(p.Other())
  {
    TakenOnceFreedOnce(task, run, k);
    assert p == Pool || p == Mail;
    assert p.Other() != p;
  }
}
