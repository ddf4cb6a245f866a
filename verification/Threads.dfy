// Runs of the kernel: any interleaving of threads that use the primitives, of interrupt handlers
// that call V, and of the idle loop.
module Threads {
  import opened Basics
  import opened List
  import opened Kernel
  import opened Synch

  datatype Step =
    | Create(t: Tid, priority: int)
    | Fork(t: Tid)
    | SetPriority(t: Tid, priority: int)
    | Yield
    | Finish
    | P(s: nat)
    | V(s: nat)
    | Acquire(l: nat)
    | Release(l: nat)
    | Wait(c: nat, l: nat)
    | Signal(c: nat, l: nat)
    | Broadcast(c: nat, l: nat)
    | Resume
    | Interrupt(s: nat)
    | EndIdle

  // What the code itself asks of its callers, and when a primitive goes on.
  ghost predicate Enabled(k: Kernel, step: Step) {
    match step
    case Interrupt(s) => s in k.sems
    case EndIdle => !k.Busy() && k.ready != []
    case Resume => k.Busy() && k.threads[k.current].pc.Home() != None
    case _ => k.Busy() && k.threads[k.current].pc == Outside && Called(k, step)
  }

  ghost predicate Called(k: Kernel, step: Step) {
    match step
    case Create(t, _) => t !in k.threads
    case Fork(t) => t in k.threads && k.threads[t].status == JustCreated
    case SetPriority(t, _) => t in k.threads
    case P(s) => s in k.sems
    case V(s) => s in k.sems
    case Acquire(l) => l in k.locks && !k.Holds(l)
    case Release(l) => k.Holds(l)
    case _ => true
  }

  // Heads of lists are threads, so that the steps are defined.
  ghost predicate HeadsExist(k: Kernel) {
    && k.current in k.threads
    && (k.ready != [] ==> k.ready[0].item in k.threads)
    && forall q, i | 0 <= i < |k.Queue(q)| :: k.Queue(q)[i].item in k.threads
  }

  ghost function Apply(k: Kernel, step: Step): Kernel
    requires HeadsExist(k) && Enabled(k, step)
    requires forall t | t in k.threads :: Known(k, t)
  {
    match step
    case Create(t, priority) => SetThread(k, t, Thread(JustCreated, priority, Outside, {}))
    case Fork(t) => ReadyToRun(k, t)
    case SetPriority(t, priority) => SetThread(k, t, k.threads[t].(priority := priority))
    case Yield => ThreadYield(k)
    case Finish => ThreadFinish(k)
    case P(s) => SemaphoreP(k, s)
    case V(s) => SemaphoreV(k, s)
    case Acquire(l) => LockAcquire(k, l)
    case Release(l) => LockRelease(k, l)
    case Wait(c, l) => ConditionWait(k, c, l)
    case Signal(c, l) => ConditionSignal(k, c, l)
    case Broadcast(c, l) => ConditionBroadcast(k, c, l)
    case Resume =>
      assert Known(k, k.current);
      (match k.threads[k.current].pc
       case InP(s) => SemaphoreP(k, s)
       case InAcquire(l) => LockAcquire(k, l)
       case InWait(_, l) => LockAcquire(k, l)
       case _ => k)
    case Interrupt(s) => SemaphoreV(k, s)
    case EndIdle => Dispatch(k)
  }

  lemma InvHeadsExist(k: Kernel)
    requires Inv(k)
    ensures HeadsExist(k)
  {
    ReadyHeadExists(k);
    forall q, i | 0 <= i < |k.Queue(q)|
      ensures k.Queue(q)[i].item in k.threads
    {
      QueueNamed(k, q);
    }
  }

  lemma CreatedPlaces(k: Kernel, k': Kernel, t: Tid, priority: int)
    requires Places(k) && t !in k.threads && k' == SetThread(k, t, Thread(JustCreated, priority, Outside, {}))
    ensures Places(k')
  {
    forall u
      ensures OnReadyList(k', u)
    {
      assert OnReadyList(k, u);
    }
    forall q, u
      ensures AtHome(k', q, u)
    {
      assert AtHome(k, q, u);
    }
    forall u | u in k'.threads
      ensures Sane(k', u)
    {
      if u != t {
        assert Sane(k, u);
      }
    }
    forall q
      ensures k'.Queue(q) == k.Queue(q)
    {
      assert InOrder(k.Queue(q));
    }
  }

  lemma CreateKeeps(k: Kernel, t: Tid, priority: int)
    requires Inv(k) && t !in k.threads
    ensures Inv(SetThread(k, t, Thread(JustCreated, priority, Outside, {})))
  {
    var k' := SetThread(k, t, Thread(JustCreated, priority, Outside, {}));
    CreatedPlaces(k, k', t, priority);
    forall s | s in k'.sems
      ensures SemOk(k', s)
    {
      assert SemOk(k, s);
      QuietSem(k, k', s);
    }
    forall l | l in k'.locks
      ensures LockOk(k', l)
    {
      assert LockOk(k, l);
      QuietLock(k, k', l);
    }
    forall l, u | u in k'.threads
      ensures HeldOk(k', l, u)
    {
      if u == t {
        assert l in k.locks ==> LockOk(k, l);
      } else {
        assert HeldOk(k, l, u);
      }
    }
    forall u | u in k'.threads
      ensures Known(k', u)
    {
      if u != t {
        assert Known(k, u);
      }
    }
  }

  lemma ForkKeeps(k: Kernel, t: Tid)
    requires Inv(k) && t in k.threads && k.threads[t].status == JustCreated
    ensures Inv(ReadyToRun(k, t))
  {
    assert Sane(k, t);
    ReadyPlaces(k, t);
    forall q: QueueId | !q.CondQueue?
      ensures Quiet(k, ReadyToRun(k, t), q)
    {
    }
    QuietStep(k, ReadyToRun(k, t));
  }

  lemma SetPriorityKeeps(k: Kernel, t: Tid, priority: int)
    requires Inv(k) && t in k.threads
    ensures Inv(SetThread(k, t, k.threads[t].(priority := priority)))
  {
    var k' := SetThread(k, t, k.threads[t].(priority := priority));
    assert forall u | u in k.threads :: Sane(k, u);
    SamePlaces(k, k');
    forall q: QueueId | !q.CondQueue?
      ensures Quiet(k, k', q)
    {
    }
    QuietStep(k, k');
  }

  // Every step of every thread, and every interrupt, keeps the invariant.
  lemma StepKeeps(k: Kernel, step: Step)
    requires Inv(k) && Enabled(k, step)
    ensures HeadsExist(k) && Inv(Apply(k, step))
  {
    InvHeadsExist(k);
    if step.P? || step.V? || step.Acquire? || step.Release? || step.Wait? || step.Signal? || step.Broadcast? {
      SynchKeeps(k, step);
    } else {
      match step {
        case Create(t, priority) => CreateKeeps(k, t, priority);
        case Fork(t) => ForkKeeps(k, t);
        case SetPriority(t, priority) => SetPriorityKeeps(k, t, priority);
        case Yield => ThreadYieldKeeps(k);
        case Finish => ThreadFinishKeeps(k);
        case Resume => ResumeKeeps(k);
        case Interrupt(s) => SemaphoreVKeeps(k, s);
        case EndIdle => RescheduleKeeps(k);
      }
    }
  }

  lemma SynchKeeps(k: Kernel, step: Step)
    requires Inv(k) && Enabled(k, step) && HeadsExist(k)
    requires step.P? || step.V? || step.Acquire? || step.Release? || step.Wait? || step.Signal? || step.Broadcast?
    ensures Inv(Apply(k, step))
  {
    match step {
      case P(s) => SemaphorePKeeps(k, s);
      case V(s) => SemaphoreVKeeps(k, s);
      case Acquire(l) => AcquireKeeps(k, l);
      case Release(l) => ReleaseKeeps(k, l);
      case Wait(c, l) => ConditionWaitKeeps(k, c, l);
      case Signal(c, l) => WakeKeeps(k, c);
      case Broadcast(c, l) => WakeAllKeeps(k, c);
    }
  }

  lemma AcquireKeeps(k: Kernel, l: nat)
    requires Inv(k) && Enabled(k, Acquire(l))
    ensures k.ready != [] ==> k.ready[0].item in k.threads
    ensures Inv(LockAcquire(k, l))
  {
    assert HeldOk(k, l, k.current);
    LockAcquireKeeps(k, l);
  }

  lemma ResumeKeeps(k: Kernel)
    requires Inv(k) && Enabled(k, Resume) && HeadsExist(k)
    ensures Inv(Apply(k, Resume))
  {
    assert Known(k, k.current);
    match k.threads[k.current].pc {
      case InP(s) => SemaphorePKeeps(k, s);
      case InAcquire(l) =>
        assert HeldOk(k, l, k.current);
        LockAcquireKeeps(k, l);
      case InWait(_, l) =>
        assert HeldOk(k, l, k.current);
        LockAcquireKeeps(k, l);
    }
  }

  // The main thread runs, all locks are free and nobody sleeps.
  ghost predicate Start(k: Kernel) {
    && (exists priority :: k.threads == map[k.current := Thread(Running, priority, Outside, {})])
    && k.ready == [] && (forall q :: k.Queue(q) == [])
    && (forall s | s in k.sems :: k.sems[s].value == k.sems[s].initial && k.sems[s].ps == 0 && k.sems[s].vs == 0)
    && (forall l | l in k.locks :: k.locks[l] == Lock(0, None))
  }

  lemma StartKeeps(k: Kernel)
    requires Start(k)
    ensures Inv(k)
  {
    forall l, t | t in k.threads
      ensures HeldOk(k, l, t)
    {
    }
  }

  ghost predicate Run(states: seq<Kernel>, steps: seq<Step>) {
    && |states| == |steps| + 1 && Start(states[0])
    && forall i | 0 <= i < |steps| :: StepsTo(states[i], steps[i], states[i + 1])
  }

  ghost predicate StepsTo(k: Kernel, step: Step, k': Kernel) {
    && HeadsExist(k) && (forall t | t in k.threads :: Known(k, t))
    && Enabled(k, step) && k' == Apply(k, step)
  }

  lemma {:induction false} RunKeeps(states: seq<Kernel>, steps: seq<Step>, n: nat)
    requires Run(states, steps) && n <= |steps|
    ensures Inv(states[n])
  {
    if n == 0 {
      StartKeeps(states[0]);
    } else {
      RunKeeps(states, steps, n - 1);
      assert StepsTo(states[n - 1], steps[n - 1], states[n]);
      StepKeeps(states[n - 1], steps[n - 1]);
    }
  }

  // What the invariant says of a thread: it is in one place, and its status says which.
  lemma OnePlace(k: Kernel, t: Tid)
    requires Inv(k) && t in k.threads
    ensures match k.threads[t].status
            case JustCreated => t !in Members(k.ready) && forall q :: t !in Members(k.Queue(q))
            case Running => t == k.current && t !in Members(k.ready) && forall q :: t !in Members(k.Queue(q))
            case Ready => t in Members(k.ready) && NoneTwice(k.ready) && forall q :: t !in Members(k.Queue(q))
            case Blocked =>
              && t !in Members(k.ready)
              && (k.threads[t].pc == Finished ==> forall q :: t !in Members(k.Queue(q)))
              && (k.threads[t].pc != Finished ==>
                    exists q :: t in Members(k.Queue(q)) && NoneTwice(k.Queue(q)) &&
                                forall q0 :: t in Members(k.Queue(q0)) ==> q0 == q)
  {
    assert OnReadyList(k, t) && Sane(k, t);
    forall q
      ensures t in Members(k.Queue(q)) <==> k.threads[t].status == Blocked && k.threads[t].pc.Home() == Some(q)
    {
      assert AtHome(k, q, t);
    }
    if k.threads[t].status == Blocked && k.threads[t].pc != Finished {
      var q := k.threads[t].pc.Home().value;
      assert AtHome(k, q, t) && InOrder(k.Queue(q));
    }
  }

  // Two threads never believe to hold the same lock.
  lemma MutualExclusion(k: Kernel, l: nat, t: Tid, u: Tid)
    requires Inv(k) && t in k.threads && u in k.threads
    requires l in k.threads[t].held && l in k.threads[u].held
    ensures t == u
  {
    assert HeldOk(k, l, t) && HeldOk(k, l, u);
  }

  // No step changes where another thread than the current one is in its code.
  lemma OthersKeepPc(k: Kernel, step: Step, t: Tid)
    requires HeadsExist(k) && Enabled(k, step) && t in k.threads && forall u | u in k.threads :: Known(k, u)
    requires t != k.current || step.Interrupt? || step.EndIdle?
    ensures t in Apply(k, step).threads && Apply(k, step).threads[t].pc == k.threads[t].pc
  {
    match step {
      case Broadcast(c, l) => WakeAllKeepsPc(k, CondQueue(c), t);
      case Wait(c, l) => WaitKeepsPc(k, c, l, t);
      case Release(l) => ReleaseKeepsPc(k, l, t);
      case Acquire(l) => AcquireKeepsPc(k, l, t);
      case Resume =>
        assert Known(k, k.current);
        if k.threads[k.current].pc.InP? {
          PKeepsPc(k, k.threads[k.current].pc.s, t);
        } else {
          AcquireKeepsPc(k, LockAwaited(k.threads[k.current].pc), t);
        }
      case P(s) => PKeepsPc(k, s, t);
      case V(s) => WakeKeepsPc(k, SemQueue(s), t);
      case Interrupt(s) => WakeKeepsPc(k, SemQueue(s), t);
      case Signal(c, _) => WakeKeepsPc(k, CondQueue(c), t);
      case _ =>
    }
  }

  lemma PKeepsPc(k: Kernel, s: nat, t: Tid)
    requires HeadsExist(k) && t in k.threads && t != k.current && s in k.sems
    ensures t in SemaphoreP(k, s).threads && SemaphoreP(k, s).threads[t].pc == k.threads[t].pc
  {
  }

  lemma WakeKeepsPc(k: Kernel, q: QueueId, t: Tid)
    requires HeadsExist(k) && t in k.threads
    ensures t in Wake(k, q).threads && Wake(k, q).threads[t].pc == k.threads[t].pc
  {
  }

  ghost function LockAwaited(pc: Pc): nat
    requires pc.InAcquire? || pc.InWait?
  {
    if pc.InAcquire? then pc.l else pc.relock
  }

  lemma AcquireKeepsPc(k: Kernel, l: nat, t: Tid)
    requires HeadsExist(k) && t in k.threads && t != k.current && l in k.locks
    ensures t in LockAcquire(k, l).threads && LockAcquire(k, l).threads[t].pc == k.threads[t].pc
  {
    if k.locks[l].value == 1 {
      var b := Block(k, LockQueue(l), InAcquire(l));
      assert b.ready == k.ready && t in b.threads && b.threads[t].pc == k.threads[t].pc;
    }
  }

  lemma ReleaseKeepsPc(k: Kernel, l: nat, t: Tid)
    requires HeadsExist(k) && t in k.threads && t != k.current && l in k.locks
    ensures t in LockRelease(k, l).threads && LockRelease(k, l).threads[t].pc == k.threads[t].pc
  {
  }

  lemma WaitKeepsPc(k: Kernel, c: nat, l: nat, t: Tid)
    requires HeadsExist(k) && t in k.threads && t != k.current
    ensures t in ConditionWait(k, c, l).threads && ConditionWait(k, c, l).threads[t].pc == k.threads[t].pc
  {
    if k.Holds(l) {
      var b := Block(k, CondQueue(c), InWait(c, l));
      assert b.Queue(LockQueue(l)) == k.Queue(LockQueue(l));
      var r := LockRelease(b, l);
      assert t in r.threads && r.threads[t].pc == k.threads[t].pc;
    }
  }

  lemma {:induction false} WakeAllKeepsPc(k: Kernel, q: QueueId, t: Tid)
    requires t in k.threads && forall i | 0 <= i < |k.Queue(q)| :: k.Queue(q)[i].item in k.threads
    ensures t in WakeAll(k, q).threads && WakeAll(k, q).threads[t].pc == k.threads[t].pc
    decreases |k.Queue(q)|
  {
    if k.Queue(q) != [] {
      assert Wake(k, q).Queue(q) == k.Queue(q)[1..];
      WakeAllKeepsPc(Wake(k, q), q, t);
    }
  }

  // Acquire, whether it sleeps or not, and Wait return to their caller only when it owns the lock.
  ghost predicate Acquiring(k: Kernel, step: Step, t: Tid, l: nat)
    requires t in k.threads
  {
    || (step == Acquire(l) && t == k.current)
    || k.threads[t].pc == InAcquire(l)
    || (k.threads[t].pc.InWait? && k.threads[t].pc.relock == l)
  }

  lemma AcquireReturnsHolding(k: Kernel, l: nat)
    requires k.current in k.threads && l in k.locks && (k.ready != [] ==> k.ready[0].item in k.threads)
    ensures k.current in LockAcquire(k, l).threads
    ensures LockAcquire(k, l).threads[k.current].pc == Outside ==> OwnedBy(LockAcquire(k, l), l, k.current)
  {
    if k.locks[l].value == 1 {
      var b := Block(k, LockQueue(l), InAcquire(l));
      assert Reschedule(b).threads[k.current].pc == b.threads[k.current].pc == InAcquire(l);
    }
  }

  lemma ReturnsHolding(k: Kernel, step: Step, t: Tid, l: nat)
    requires Inv(k) && Enabled(k, step) && t in k.threads && Acquiring(k, step, t, l)
    ensures HeadsExist(k) && t in Apply(k, step).threads
    ensures Apply(k, step).threads[t].pc == Outside ==> OwnedBy(Apply(k, step), l, t)
  {
    InvHeadsExist(k);
    if step == Acquire(l) && t == k.current {
      AcquireReturnsHolding(k, l);
    } else if t == k.current && step == Resume {
      assert Known(k, t);
      AcquireReturnsHolding(k, l);
    } else {
      OthersKeepPc(k, step, t);
    }
  }

  ghost predicate OwnedBy(k: Kernel, l: nat, t: Tid) {
    l in k.locks && k.locks[l] == Lock(1, Some(t)) && t in k.threads && l in k.threads[t].held
  }

  // When nothing can run, a semaphore with sleepers is at zero and a lock with sleepers is taken:
  // no wakeup has been lost.
  lemma NobodyStranded(k: Kernel, s: nat, l: nat)
    requires Inv(k) && !k.Busy() && k.ready == []
    ensures s in k.sems && k.Queue(SemQueue(s)) != [] ==> k.sems[s].value == 0
    ensures l in k.locks && k.Queue(LockQueue(l)) != [] ==> k.locks[l].value == 1
  {
    forall q, t
      ensures t !in Woken(k, q)
    {
      if t in k.threads {
        assert OnReadyList(k, t) && Sane(k, t);
      }
    }
    assert s in k.sems ==> SemOk(k, s) && Woken(k, SemQueue(s)) == {};
    assert l in k.locks ==> LockOk(k, l);
  }

  // The thread that runs next has the highest priority that any ready thread had when it became
  // ready; Yield takes it from among the others.
  lemma HighestPriorityNext(k: Kernel)
    requires Inv(k) && k.ready != []
    ensures HeadsExist(k)
    ensures forall i | 0 <= i < |k.ready| :: k.ready[0].key <= k.ready[i].key
    ensures Dispatch(k).current == k.ready[0].item
    ensures k.Busy() ==> ThreadYield(k).current == k.ready[0].item && k.ready[0].item != k.current
  {
    InvHeadsExist(k);
    HeadOfReady(k);
  }
}
