// Who sleeps where, told from statuses and places in the code alone: which steps put the current
// thread to sleep, which wake one thread, all threads or none, and that nobody else is woken.
module Sleeping {
  import opened Basics
  import opened List
  import opened Kernel
  import opened Synch
  import opened Threads

  predicate AsleepAt(k: Kernel, t: Tid, q: QueueId) {
    t in k.threads && k.threads[t].status == Blocked && k.threads[t].pc.Home() == Some(q)
  }

  // The queue on which the current thread goes to sleep in a step, if it does
  function AcquireSleeps(k: Kernel, l: nat): Option<QueueId> {
    if l in k.locks && k.locks[l].value == 1 then Some(LockQueue(l)) else None
  }

  function PSleeps(k: Kernel, s: nat): Option<QueueId> {
    if s in k.sems && k.sems[s].value == 0 then Some(SemQueue(s)) else None
  }

  function ResumeSleeps(k: Kernel, pc: Pc): Option<QueueId> {
    match pc
    case InP(s) => PSleeps(k, s)
    case InAcquire(l) => AcquireSleeps(k, l)
    case InWait(_, l) => AcquireSleeps(k, l)
    case _ => None
  }

  function SleepsAt(k: Kernel, step: Step): Option<QueueId> {
    match step
    case P(s) => PSleeps(k, s)
    case Acquire(l) => AcquireSleeps(k, l)
    case Wait(c, l) => if k.Holds(l) then Some(CondQueue(c)) else None
    case Resume => if k.current in k.threads then ResumeSleeps(k, k.threads[k.current].pc) else None
    case _ => None
  }

  // The queue from which a step wakes one thread, or all
  function WakesAt(k: Kernel, step: Step): Option<QueueId> {
    match step
    case V(s) => Some(SemQueue(s))
    case Interrupt(s) => Some(SemQueue(s))
    case Release(l) => Some(LockQueue(l))
    case Wait(_, l) => if k.Holds(l) then Some(LockQueue(l)) else None
    case Signal(c, l) => if k.Holds(l) then Some(CondQueue(c)) else None
    case _ => None
  }

  function WakesAllAt(k: Kernel, step: Step): Option<QueueId> {
    match step
    case Broadcast(c, l) => if k.Holds(l) then Some(CondQueue(c)) else None
    case _ => None
  }

  // What becomes of a queue
  function Tail(list: seq<Entry<Tid>>): seq<Entry<Tid>> {
    if list == [] then [] else list[1..]
  }

  ghost predicate QueueStep(k: Kernel, step: Step, k': Kernel, q: QueueId) {
    k'.Queue(q) ==
    if WakesAt(k, step) == Some(q) then Tail(k.Queue(q))
    else if WakesAllAt(k, step) == Some(q) then []
    else if SleepsAt(k, step) == Some(q) && k.current in k.threads then InsertSorted(k.Queue(q), Ticket(k, k.current))
    else k.Queue(q)
  }

  lemma PQueues(k: Kernel, s: nat, q: QueueId)
    requires HeadsExist(k) && s in k.sems
    ensures SemaphoreP(k, s).Queue(q) ==
            if PSleeps(k, s) == Some(q) then InsertSorted(k.Queue(q), Ticket(k, k.current)) else k.Queue(q)
  {
  }

  lemma AcquireQueues(k: Kernel, l: nat, q: QueueId)
    requires HeadsExist(k) && l in k.locks
    ensures LockAcquire(k, l).Queue(q) ==
            if AcquireSleeps(k, l) == Some(q) then InsertSorted(k.Queue(q), Ticket(k, k.current)) else k.Queue(q)
  {
  }

  lemma WakeQueue(k: Kernel, w: QueueId, q: QueueId)
    requires HeadsExist(k)
    ensures Wake(k, w).Queue(q) == if w == q then Tail(k.Queue(q)) else k.Queue(q)
  {
  }

  lemma ReleaseQueues(k: Kernel, l: nat, q: QueueId)
    requires k.current in k.threads && l in k.locks
    requires k.Queue(LockQueue(l)) != [] ==> k.Queue(LockQueue(l))[0].item in k.threads
    ensures LockRelease(k, l).Queue(q) == if q == LockQueue(l) then Tail(k.Queue(q)) else k.Queue(q)
  {
  }

  lemma WaitQueues(k: Kernel, c: nat, l: nat, q: QueueId)
    requires HeadsExist(k) && k.Holds(l)
    ensures ConditionWait(k, c, l).Queue(q) ==
            if q == LockQueue(l) then Tail(k.Queue(q))
            else if q == CondQueue(c) then InsertSorted(k.Queue(q), Ticket(k, k.current))
            else k.Queue(q)
  {
    var b := Block(k, CondQueue(c), InWait(c, l));
    assert b.Queue(LockQueue(l)) == k.Queue(LockQueue(l));
    ReleaseQueues(b, l, q);
  }

  lemma {:induction false} WakeAllQueues(k: Kernel, w: QueueId, q: QueueId)
    requires forall i | 0 <= i < |k.Queue(w)| :: k.Queue(w)[i].item in k.threads
    ensures WakeAll(k, w).Queue(q) == if w == q then [] else k.Queue(q)
    decreases |k.Queue(w)|
  {
    if k.Queue(w) != [] {
      assert Wake(k, w).Queue(w) == k.Queue(w)[1..];
      assert w != q ==> Wake(k, w).Queue(q) == k.Queue(q);
      WakeAllQueues(Wake(k, w), w, q);
    }
  }

  lemma QueueAfter(k: Kernel, step: Step, k': Kernel, q: QueueId)
    requires StepsTo(k, step, k')
    ensures QueueStep(k, step, k', q)
  {
    if step.V? || step.Interrupt? || step.Release? || step.Wait? {
      QueueAfterWake(k, step, k', q);
    } else if step.Signal? || step.Broadcast? {
      QueueAfterSignal(k, step, k', q);
    } else {
      QueueAfterOther(k, step, k', q);
    }
  }

  lemma QueueAfterWake(k: Kernel, step: Step, k': Kernel, q: QueueId)
    requires StepsTo(k, step, k') && (step.V? || step.Interrupt? || step.Release? || step.Wait?)
    ensures QueueStep(k, step, k', q)
  {
    match step {
      case V(s) => WakeQueue(k, SemQueue(s), q);
      case Interrupt(s) => WakeQueue(k, SemQueue(s), q);
      case Release(l) => ReleaseQueues(k, l, q);
      case Wait(c, l) =>
        if k.Holds(l) {
          WaitQueues(k, c, l, q);
        }
    }
  }

  lemma QueueAfterSignal(k: Kernel, step: Step, k': Kernel, q: QueueId)
    requires StepsTo(k, step, k') && (step.Signal? || step.Broadcast?)
    ensures QueueStep(k, step, k', q)
  {
    match step {
      case Signal(c, _) => WakeQueue(k, CondQueue(c), q);
      case Broadcast(c, _) => WakeAllQueues(k, CondQueue(c), q);
    }
  }

  lemma QueueAfterOther(k: Kernel, step: Step, k': Kernel, q: QueueId)
    requires StepsTo(k, step, k') && !step.V? && !step.Interrupt? && !step.Release? && !step.Wait?
    requires !step.Signal? && !step.Broadcast?
    ensures QueueStep(k, step, k', q)
  {
    match step {
      case P(s) => PQueues(k, s, q);
      case Acquire(l) => AcquireQueues(k, l, q);
      case Resume => ResumeQueues(k, k', q);
      case _ =>
    }
  }

  lemma ResumeQueues(k: Kernel, k': Kernel, q: QueueId)
    requires StepsTo(k, Resume, k')
    ensures QueueStep(k, Resume, k', q)
  {
    assert Known(k, k.current);
    match k.threads[k.current].pc {
      case InP(s) => PQueues(k, s, q);
      case InAcquire(l) => AcquireQueues(k, l, q);
      case InWait(_, l) => AcquireQueues(k, l, q);
    }
  }

  // The threads on a queue are those asleep there.
  lemma MembersSleep(k: Kernel, q: QueueId, t: Tid)
    requires Inv(k)
    ensures t in Members(k.Queue(q)) <==> AsleepAt(k, t, q)
    ensures InOrder(k.Queue(q))
  {
    assert AtHome(k, q, t);
  }

  lemma HeadWakes(k: Kernel, k': Kernel, q: QueueId, v: Tid)
    requires Inv(k) && Inv(k') && k'.Queue(q) == Tail(k.Queue(q))
    ensures AsleepAt(k, v, q) ==> k.Queue(q) != []
    ensures AsleepAt(k', v, q) <==> AsleepAt(k, v, q) && v != k.Queue(q)[0].item
  {
    MembersSleep(k, q, v);
    MembersSleep(k', q, v);
    if k.Queue(q) != [] {
      TailInOrder(k.Queue(q));
    }
  }

  // A V, Signal or Release, and Wait for its lock, wakes exactly one of the sleepers, if there are any.
  lemma WakesOne(k: Kernel, step: Step, k': Kernel, q: QueueId) returns (t: Tid)
    requires Inv(k) && StepsTo(k, step, k') && WakesAt(k, step) == Some(q) && exists u :: AsleepAt(k, u, q)
    ensures AsleepAt(k, t, q) && t in k'.threads && k'.threads[t].status != Blocked
    ensures forall u | u != t :: AsleepAt(k', u, q) <==> AsleepAt(k, u, q)
  {
    StepKeeps(k, step);
    QueueAfter(k, step, k', q);
    var u :| AsleepAt(k, u, q);
    HeadWakes(k, k', q, u);
    t := k.Queue(q)[0].item;
    FirstIsMember(k.Queue(q));
    MembersSleep(k, q, t);
    forall v
      ensures AsleepAt(k', v, q) <==> AsleepAt(k, v, q) && v != t
    {
      HeadWakes(k, k', q, v);
    }
    WokenGoesOn(k, step, k', q, t);
  }

  lemma WokenGoesOn(k: Kernel, step: Step, k': Kernel, q: QueueId, t: Tid)
    requires Inv(k) && StepsTo(k, step, k') && AsleepAt(k, t, q) && !AsleepAt(k', t, q)
    ensures t in k'.threads && k'.threads[t].status != Blocked && k'.threads[t].pc == k.threads[t].pc
  {
    OthersKeepPc(k, step, t);
  }

  // Broadcast wakes all of them.
  lemma WakesAll(k: Kernel, step: Step, k': Kernel, q: QueueId, t: Tid)
    requires Inv(k) && StepsTo(k, step, k') && WakesAllAt(k, step) == Some(q)
    ensures !AsleepAt(k', t, q)
    ensures AsleepAt(k, t, q) ==> t in k'.threads && k'.threads[t].status != Blocked
  {
    StepKeeps(k, step);
    QueueAfter(k, step, k', q);
    MembersSleep(k', q, t);
    if AsleepAt(k, t, q) {
      WokenGoesOn(k, step, k', q, t);
    }
  }

  // Nobody else wakes up, and nobody falls asleep but the current thread, where its step says so.
  lemma OthersSleepOn(k: Kernel, step: Step, k': Kernel, q: QueueId, t: Tid)
    requires Inv(k) && StepsTo(k, step, k') && WakesAt(k, step) != Some(q) && WakesAllAt(k, step) != Some(q)
    ensures AsleepAt(k', t, q) <==> AsleepAt(k, t, q) || (t == k.current && SleepsAt(k, step) == Some(q))
  {
    StepKeeps(k, step);
    QueueAfter(k, step, k', q);
    MembersSleep(k, q, t);
    MembersSleep(k', q, t);
    if SleepsAt(k, step) == Some(q) {
      InsertMembers(k.Queue(q), Ticket(k, k.current));
    }
  }

  // A thread that neither sleeps, yields nor finishes keeps the CPU.
  lemma KeepsCpu(k: Kernel, step: Step, k': Kernel)
    requires StepsTo(k, step, k') && k.Busy() && SleepsAt(k, step) == None && !step.Yield? && !step.Finish?
    ensures k'.current == k.current
  {
    match step {
      case Broadcast(c, _) => WakeAllCurrent(k, CondQueue(c));
      case Resume => assert Known(k, k.current);
      case _ =>
    }
  }

  lemma {:induction false} WakeAllCurrent(k: Kernel, q: QueueId)
    requires forall i | 0 <= i < |k.Queue(q)| :: k.Queue(q)[i].item in k.threads
    ensures WakeAll(k, q).current == k.current
    decreases |k.Queue(q)|
  {
    if k.Queue(q) != [] {
      assert Wake(k, q).Queue(q) == k.Queue(q)[1..];
      WakeAllCurrent(Wake(k, q), q);
    }
  }

  // The operations on threads themselves
  lemma ThreadSteps(k: Kernel, step: Step, k': Kernel)
    requires Inv(k) && StepsTo(k, step, k')
    ensures step.Create? ==>
              step.t in k'.threads && k'.threads[step.t] == Thread(JustCreated, step.priority, Outside, {})
    ensures step.Fork? ==> step.t in k'.threads && k'.threads[step.t].status == Ready
    ensures step.SetPriority? ==> step.t in k'.threads && k'.threads[step.t].priority == step.priority
    ensures step.Yield? && (exists t :: t in k.threads && k.threads[t].status == Ready) ==>
              k.current in k'.threads && k'.threads[k.current].status == Ready
    ensures step.Finish? ==> k.current in k'.threads && k'.threads[k.current].status == Blocked &&
                             k'.threads[k.current].pc == Finished
  {
    if step.Yield? || step.Finish? {
      ReadyHeadExists(k);
      if t :| t in k.threads && k.threads[t].status == Ready {
        assert OnReadyList(k, t);
      }
      if k.ready != [] {
        HeadOfReady(k);
      }
    }
  }
}
