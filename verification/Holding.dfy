// What each step makes of the current thread, of the locks that threads hold, and of the CPU, told
// without the lists and the fields of the locks.
module Holding {
  import opened Basics
  import opened Kernel
  import opened Synch
  import opened Threads
  import opened Sleeping

  // Where a thread is in its code, and which locks it has
  datatype Mind = Mind(pc: Pc, held: set<nat>)

  function MindOf(k: Kernel, t: Tid): Mind {
    if t in k.threads then Mind(k.threads[t].pc, k.threads[t].held) else Mind(Outside, {})
  }

  // Where the current thread is after a step in which it goes to sleep, or does not
  function GoesOn(step: Step, pc: Pc, sleeps: bool): Pc {
    match step
    case P(s) => if sleeps then InP(s) else Outside
    case Acquire(l) => if sleeps then InAcquire(l) else Outside
    case Wait(c, l) => if sleeps then InWait(c, l) else pc
    case Resume =>
      if !sleeps then Outside
      else if pc.InWait? then InAcquire(pc.relock) else pc
    case Finish => Finished
    case _ => pc
  }

  // The lock that it gets, if it need not sleep, and the one that it gives up
  function AsksFor(step: Step, pc: Pc): Option<nat> {
    match step
    case Acquire(l) => Some(l)
    case Resume => if pc.InAcquire? then Some(pc.l) else if pc.InWait? then Some(pc.relock) else None
    case _ => None
  }

  function GivesUp(step: Step): Option<nat> {
    match step
    case Release(l) => Some(l)
    case Wait(_, l) => Some(l)
    case _ => None
  }

  function HoldsAfter(step: Step, before: Mind, sleeps: bool): set<nat> {
    if !sleeps && AsksFor(step, before.pc).Some? then before.held + {AsksFor(step, before.pc).value}
    else if GivesUp(step).Some? then before.held - {GivesUp(step).value}
    else before.held
  }

  ghost predicate Taken(k: Kernel, l: nat) {
    exists t :: t in k.threads && l in k.threads[t].held
  }

  // A thread that asks for a lock sleeps exactly if some thread has it.
  lemma SleepsIffTaken(k: Kernel, l: nat)
    requires Inv(k) && l in k.locks
    ensures AcquireSleeps(k, l) == (if Taken(k, l) then Some(LockQueue(l)) else None)
  {
    assert LockOk(k, l);
    assert forall t | t in k.threads :: HeldOk(k, l, t);
    if k.locks[l].value == 1 {
      assert l in k.threads[k.locks[l].myThread.value].held;
    }
  }

  // Nothing but the current thread's own steps changes a thread's mind.
  ghost predicate Minded(k: Kernel, step: Step, k': Kernel, t: Tid) {
    var before, sleeps := MindOf(k, t), SleepsAt(k, step).Some?;
    MindOf(k', t) ==
    if t == k.current then Mind(GoesOn(step, before.pc, sleeps), HoldsAfter(step, before, sleeps)) else before
  }

  lemma WakeMinds(k: Kernel, q: QueueId, t: Tid)
    requires HeadsExist(k)
    ensures MindOf(Wake(k, q), t) == MindOf(k, t)
  {
  }

  lemma {:induction false} WakeAllMinds(k: Kernel, q: QueueId, t: Tid)
    requires forall i | 0 <= i < |k.Queue(q)| :: k.Queue(q)[i].item in k.threads
    ensures MindOf(WakeAll(k, q), t) == MindOf(k, t)
    decreases |k.Queue(q)|
  {
    if k.Queue(q) != [] {
      assert Wake(k, q).Queue(q) == k.Queue(q)[1..];
      WakeAllMinds(Wake(k, q), q, t);
    }
  }

  lemma RescheduleMinds(k: Kernel, t: Tid)
    requires k.ready != [] ==> k.ready[0].item in k.threads
    ensures MindOf(Reschedule(k), t) == MindOf(k, t)
  {
  }

  lemma BlockMinds(k: Kernel, q: QueueId, pc: Pc, t: Tid)
    requires k.current in k.threads
    ensures MindOf(Block(k, q, pc), t) == if t == k.current then Mind(pc, MindOf(k, t).held) else MindOf(k, t)
    ensures Block(k, q, pc).ready == k.ready && k.threads.Keys <= Block(k, q, pc).threads.Keys
  {
  }

  lemma PMinds(k: Kernel, s: nat, t: Tid)
    requires HeadsExist(k) && s in k.sems
    ensures MindOf(SemaphoreP(k, s), t) ==
            if t == k.current then Mind(if PSleeps(k, s).Some? then InP(s) else Outside, MindOf(k, t).held)
            else MindOf(k, t)
  {
    if k.sems[s].value == 0 {
      BlockMinds(k, SemQueue(s), InP(s), t);
      RescheduleMinds(Block(k, SemQueue(s), InP(s)), t);
    }
  }

  lemma AcquireMinds(k: Kernel, l: nat, t: Tid)
    requires HeadsExist(k) && l in k.locks
    ensures MindOf(LockAcquire(k, l), t) ==
            if t != k.current then MindOf(k, t)
            else if AcquireSleeps(k, l).Some? then Mind(InAcquire(l), MindOf(k, t).held)
            else Mind(Outside, MindOf(k, t).held + {l})
  {
    if k.locks[l].value == 1 {
      BlockMinds(k, LockQueue(l), InAcquire(l), t);
      RescheduleMinds(Block(k, LockQueue(l), InAcquire(l)), t);
    }
  }

  lemma ReleaseMinds(k: Kernel, l: nat, t: Tid)
    requires k.current in k.threads && l in k.locks
    requires k.Queue(LockQueue(l)) != [] ==> k.Queue(LockQueue(l))[0].item in k.threads
    ensures MindOf(LockRelease(k, l), t) ==
            if t == k.current then MindOf(k, t).(held := MindOf(k, t).held - {l}) else MindOf(k, t)
  {
  }

  lemma WaitMinds(k: Kernel, c: nat, l: nat, t: Tid)
    requires HeadsExist(k) && k.Holds(l)
    ensures MindOf(ConditionWait(k, c, l), t) ==
            if t == k.current then Mind(InWait(c, l), MindOf(k, t).held - {l}) else MindOf(k, t)
  {
    var b := Block(k, CondQueue(c), InWait(c, l));
    BlockMinds(k, CondQueue(c), InWait(c, l), t);
    assert b.Queue(LockQueue(l)) == k.Queue(LockQueue(l));
    ReleaseMinds(b, l, t);
    RescheduleMinds(LockRelease(b, l), t);
  }

  lemma ResumeMinds(k: Kernel, k': Kernel, t: Tid)
    requires StepsTo(k, Resume, k')
    ensures Minded(k, Resume, k', t)
  {
    assert Known(k, k.current);
    match k.threads[k.current].pc {
      case InP(s) => PMinds(k, s, t);
      case InAcquire(l) => AcquireMinds(k, l, t);
      case InWait(_, l) => AcquireMinds(k, l, t);
    }
  }

  lemma WaitStepMinds(k: Kernel, step: Step, k': Kernel, t: Tid)
    requires Inv(k) && StepsTo(k, step, k') && step.Wait?
    ensures Minded(k, step, k', t)
  {
    if k.Holds(step.l) {
      WaitMinds(k, step.c, step.l, t);
    } else {
      assert HeldOk(k, step.l, k.current);
    }
  }

  lemma SynchMinds(k: Kernel, step: Step, k': Kernel, t: Tid)
    requires Inv(k) && StepsTo(k, step, k') && (step.P? || step.Acquire? || step.Release? || step.Wait? || step.Resume?)
    ensures Minded(k, step, k', t)
  {
    match step {
      case P(s) => PMinds(k, s, t);
      case Acquire(l) => AcquireMinds(k, l, t);
      case Release(l) => ReleaseMinds(k, l, t);
      case Wait(c, l) => WaitStepMinds(k, step, k', t);
      case Resume => ResumeMinds(k, k', t);
    }
  }

  lemma WakingMinds(k: Kernel, step: Step, k': Kernel, t: Tid)
    requires StepsTo(k, step, k') && (step.V? || step.Signal? || step.Broadcast? || step.Interrupt?)
    ensures Minded(k, step, k', t)
  {
    match step {
      case V(s) => WakeMinds(k, SemQueue(s), t);
      case Interrupt(s) => WakeMinds(k, SemQueue(s), t);
      case Signal(c, _) => WakeMinds(k, CondQueue(c), t);
      case Broadcast(c, _) => WakeAllMinds(k, CondQueue(c), t);
    }
  }

  lemma ThreadMinds(k: Kernel, step: Step, k': Kernel, t: Tid)
    requires StepsTo(k, step, k')
    requires step.Create? || step.Fork? || step.SetPriority? || step.Yield? || step.Finish? || step.EndIdle?
    ensures Minded(k, step, k', t)
  {
    if step.Finish? {
      RescheduleMinds(SetThread(k, k.current, k.threads[k.current].(status := Blocked, pc := Finished)), t);
    }
  }

  // Where each thread is and what it holds after any step: the current thread goes on, or sleeps in
  // what it called; it has the lock that it asked for without sleeping, and no longer the one that it
  // gave up; nothing changes for any other thread.
  lemma MindsAfter(k: Kernel, step: Step, k': Kernel, t: Tid)
    requires Inv(k) && StepsTo(k, step, k')
    ensures Minded(k, step, k', t)
  {
    if step.P? || step.Acquire? || step.Release? || step.Wait? || step.Resume? {
      SynchMinds(k, step, k', t);
    } else if step.V? || step.Signal? || step.Broadcast? || step.Interrupt? {
      WakingMinds(k, step, k', t);
    } else {
      ThreadMinds(k, step, k', t);
    }
  }

  // A thread is ready only while the CPU is busy.
  ghost predicate CpuUsed(k: Kernel) {
    k.ready != [] ==> k.Busy()
  }

  lemma RescheduleUses(k: Kernel)
    requires k.ready != [] ==> k.ready[0].item in k.threads
    ensures CpuUsed(Reschedule(k))
  {
  }

  lemma WakeUses(k: Kernel, q: QueueId)
    requires Places(k) && k.Busy()
    ensures k.Queue(q) != [] ==> k.Queue(q)[0].item in k.threads
    ensures Wake(k, q).Busy() && Wake(k, q).current == k.current
  {
    if k.Queue(q) != [] {
      HeadOfQueue(k, q);
    }
  }

  lemma {:induction false} WakeAllUses(k: Kernel, q: QueueId)
    requires Places(k) && k.Busy() && forall i | 0 <= i < |k.Queue(q)| :: k.Queue(q)[i].item in k.threads
    ensures WakeAll(k, q).Busy()
    decreases |k.Queue(q)|
  {
    if k.Queue(q) != [] {
      WakeUses(k, q);
      WakePlaces(k, q);
      assert Wake(k, q).Queue(q) == k.Queue(q)[1..];
      WakeAllUses(Wake(k, q), q);
    }
  }

  lemma SleepingUses(k: Kernel, step: Step, k': Kernel)
    requires Inv(k) && StepsTo(k, step, k') && (step.P? || step.Acquire? || step.Wait? || step.Resume? || step.Finish?)
    ensures CpuUsed(k')
  {
    match step {
      case P(s) => PUses(k, s);
      case Acquire(l) => AcquireUses(k, l);
      case Wait(c, l) =>
        if k.Holds(l) {
          WaitUses(k, c, l);
        }
      case Resume => ResumeUses(k, k');
      case Finish =>
        RescheduleUses(SetThread(k, k.current, k.threads[k.current].(status := Blocked, pc := Finished)));
    }
  }

  lemma PUses(k: Kernel, s: nat)
    requires HeadsExist(k) && s in k.sems && k.Busy()
    ensures CpuUsed(SemaphoreP(k, s))
  {
    if k.sems[s].value == 0 {
      BlockMinds(k, SemQueue(s), InP(s), k.current);
      RescheduleUses(Block(k, SemQueue(s), InP(s)));
    }
  }

  lemma AcquireUses(k: Kernel, l: nat)
    requires HeadsExist(k) && l in k.locks && k.Busy()
    ensures CpuUsed(LockAcquire(k, l))
  {
    if k.locks[l].value == 1 {
      BlockMinds(k, LockQueue(l), InAcquire(l), k.current);
      RescheduleUses(Block(k, LockQueue(l), InAcquire(l)));
    }
  }

  lemma WaitUses(k: Kernel, c: nat, l: nat)
    requires Inv(k) && HeadsExist(k) && k.Holds(l) && k.Busy()
    ensures CpuUsed(ConditionWait(k, c, l))
  {
    var b := Block(k, CondQueue(c), InWait(c, l));
    BlockPlaces(k, CondQueue(c), InWait(c, l));
    assert b.Queue(LockQueue(l)) == k.Queue(LockQueue(l));
    RescheduleUses(LockRelease(b, l));
  }

  lemma ResumeUses(k: Kernel, k': Kernel)
    requires StepsTo(k, Resume, k')
    ensures CpuUsed(k')
  {
    assert Known(k, k.current);
    match k.threads[k.current].pc {
      case InP(s) => PUses(k, s);
      case InAcquire(l) => AcquireUses(k, l);
      case InWait(_, l) => AcquireUses(k, l);
    }
  }

  lemma WakingUses(k: Kernel, step: Step, k': Kernel)
    requires Inv(k) && StepsTo(k, step, k') && k.Busy()
    requires step.V? || step.Signal? || step.Broadcast? || step.Release? || step.Interrupt?
    ensures CpuUsed(k')
  {
    match step {
      case V(s) => WakeUses(k, SemQueue(s));
      case Interrupt(s) => WakeUses(k, SemQueue(s));
      case Signal(c, _) => WakeUses(k, CondQueue(c));
      case Broadcast(c, _) => WakeAllUses(k, CondQueue(c));
      case Release(l) => ReleaseUses(k, l);
    }
  }

  lemma ReleaseUses(k: Kernel, l: nat)
    requires Inv(k) && l in k.locks && k.Busy()
    ensures k.Queue(LockQueue(l)) != [] ==> k.Queue(LockQueue(l))[0].item in k.threads
    ensures LockRelease(k, l).Busy()
  {
    WakeUses(k, LockQueue(l));
  }

  // The CPU never idles while a thread is ready, but for an idle CPU that an interrupt has just given
  // one to.
  lemma NeverIdles(k: Kernel, step: Step, k': Kernel, t: Tid)
    requires Inv(k) && StepsTo(k, step, k') && (!step.Interrupt? || k.Busy())
    requires t in k'.threads && k'.threads[t].status == Ready
    ensures k'.Busy()
  {
    StepKeeps(k, step);
    assert OnReadyList(k', t);
    if step.P? || step.Acquire? || step.Wait? || step.Resume? || step.Finish? {
      SleepingUses(k, step, k');
    } else if step.V? || step.Signal? || step.Broadcast? || step.Release? || step.Interrupt? {
      WakingUses(k, step, k');
    }
  }
}
