// The kernel's objects and the statements that the primitives run with interrupts off, on linked
// lists of threads. Each method is one stretch between two context switches. On what the lists
// contain it does what its function in Kernel or Synch says, so that what is proved there of all
// runs holds of the lists as they are linked.
module Primitives {
  import opened Basics
  import opened List
  import opened Kernel
  import K = Kernel
  import opened Synch
  import opened ThreadLists
  import opened Threads

  // The current thread on a queue, before it goes to sleep there
  function Joined(k: Kernel, q: QueueId, pc: Pc): Kernel
    requires k.current in k.threads
  {
    K.SetPc(k, pc).(queues := k.queues[q := InsertSorted(k.Queue(q), Ticket(k, k.current))])
  }

  lemma JoinedThenBlocked(k: Kernel, q: QueueId, pc: Pc)
    requires k.current in k.threads
    ensures K.SetStatus(Joined(k, q, pc), k.current, Blocked) == Block(k, q, pc)
  {
  }

  // Wait marks its thread as blocked only after it has released the lock; to the function it makes
  // no difference.
  lemma SleepLast(k: Kernel, c: nat, l: nat)
    requires k.current in k.threads && l in k.locks
    requires var s := k.Queue(LockQueue(l)); s != [] ==> s[0].item in k.threads && s[0].item != k.current
    ensures var q := CondQueue(c);
            var k0 := Joined(k, q, InWait(c, l));
            var k1 := Block(k, q, InWait(c, l));
            && k0.Queue(LockQueue(l)) == k.Queue(LockQueue(l)) == k1.Queue(LockQueue(l))
            && K.SetStatus(LockRelease(k0, l), k.current, Blocked) == LockRelease(k1, l)
  {
    var q := CondQueue(c);
    var k0 := Joined(k, q, InWait(c, l));
    var k1 := Block(k, q, InWait(c, l));
    assert k0.Queue(LockQueue(l)) == k.Queue(LockQueue(l)) == k1.Queue(LockQueue(l));
    assert K.SetStatus(LockRelease(k0, l), k.current, Blocked).threads == LockRelease(k1, l).threads;
  }

  lemma WaitersSleep(k: Kernel, l: nat)
    requires Places(k) && k.Busy()
    ensures var s := k.Queue(LockQueue(l)); s != [] ==> s[0].item in k.threads && s[0].item != k.current
  {
    if k.Queue(LockQueue(l)) != [] {
      HeadOfQueue(k, LockQueue(l));
    }
  }

  lemma WaitInTwo(k: Kernel, c: nat, l: nat)
    requires k.current in k.threads && k.Holds(l) && (k.ready != [] ==> k.ready[0].item in k.threads)
    requires var s := k.Queue(LockQueue(l)); s != [] ==> s[0].item in k.threads && s[0].item != k.current
    ensures Joined(k, CondQueue(c), InWait(c, l)).Queue(LockQueue(l)) == k.Queue(LockQueue(l))
    ensures var r := LockRelease(Joined(k, CondQueue(c), InWait(c, l)), l);
            && r.current == k.current && r.current in r.threads && (r.ready != [] ==> r.ready[0].item in r.threads)
            && Reschedule(K.SetStatus(r, k.current, Blocked)) == ConditionWait(k, c, l)
  {
    SleepLast(k, c, l);
  }

  // The queues among the lists
  ghost function QueuesOf(contents: map<Name, seq<Entry<Tid>>>): map<QueueId, seq<Entry<Tid>>> {
    map q | q in (set name | name in contents && name.Some? :: name.value) :: contents[Some(q)]
  }

  lemma QueuesAfter(contents: map<Name, seq<Entry<Tid>>>, name: Name, list: seq<Entry<Tid>>)
    requires name in contents
    ensures QueuesOf(contents[name := list]) ==
              if name == None then QueuesOf(contents) else QueuesOf(contents)[name.value := list]
  {
  }

  lemma WakeAllUnfolds(k: Kernel, q: QueueId)
    requires forall i | 0 <= i < |k.Queue(q)| :: k.Queue(q)[i].item in k.threads
    ensures k.Queue(q) == [] ==> Wake(k, q) == WakeAll(k, q) == k
    ensures k.Queue(q) != [] ==> Wake(k, q).Queue(q) == k.Queue(q)[1..] && WakeAll(k, q) == WakeAll(Wake(k, q), q)
    ensures forall i | 0 <= i < |k.Queue(q)| :: k.Queue(q)[i].item in Wake(k, q).threads
  {
  }

  // No step makes or destroys semaphores or locks.
  ghost predicate SameNames(k: Kernel, k': Kernel) {
    k'.sems.Keys == k.sems.Keys && k'.locks.Keys == k.locks.Keys
  }

  lemma {:induction false} WakeAllNames(k: Kernel, q: QueueId)
    requires forall i | 0 <= i < |k.Queue(q)| :: k.Queue(q)[i].item in k.threads
    ensures SameNames(k, WakeAll(k, q))
    decreases |k.Queue(q)|
  {
    if k.Queue(q) != [] {
      WakeAllUnfolds(k, q);
      WakeAllNames(Wake(k, q), q);
    }
  }

  lemma SynchNames(k: Kernel, s: nat, l: nat, c: nat)
    requires HeadsExist(k)
    ensures s in k.sems ==> SameNames(k, SemaphoreP(k, s)) && SameNames(k, SemaphoreV(k, s))
    ensures l in k.locks ==> SameNames(k, LockAcquire(k, l)) && SameNames(k, LockRelease(k, l))
    ensures SameNames(k, ConditionSignal(k, c, l))
  {
  }

  lemma WaitNames(k: Kernel, c: nat, l: nat)
    requires HeadsExist(k)
    ensures SameNames(k, ConditionWait(k, c, l))
  {
  }

  lemma SameObjects(k: Kernel, step: Step)
    requires HeadsExist(k) && Enabled(k, step) && forall t | t in k.threads :: Known(k, t)
    ensures SameNames(k, Apply(k, step))
  {
    match step {
      case P(s) => SynchNames(k, s, 0, 0);
      case V(s) => SynchNames(k, s, 0, 0);
      case Interrupt(s) => SynchNames(k, s, 0, 0);
      case Acquire(l) => SynchNames(k, 0, l, 0);
      case Release(l) => SynchNames(k, 0, l, 0);
      case Signal(c, l) => SynchNames(k, 0, l, c);
      case Wait(c, l) => WaitNames(k, c, l);
      case Broadcast(c, _) => WakeAllNames(k, CondQueue(c));
      case Resume =>
        assert Known(k, k.current);
        match k.threads[k.current].pc {
          case InP(s) => SynchNames(k, s, 0, 0);
          case InAcquire(l) => SynchNames(k, 0, l, 0);
          case InWait(_, l) => SynchNames(k, 0, l, 0);
        }
      case _ =>
    }
  }

  class System {
    var currentThread: Tid
    var threads: map<Tid, Thread>
    const lists: ThreadLists
    var sems: map<nat, Semaphore>
    var locks: map<nat, Lock>

    ghost predicate Valid()
      reads lists, lists.Repr, lists.lists.Values
    {
      lists.Valid() && None in lists.contents && this !in lists.Repr
    }

    // What the steps of Kernel and Synch are about.
    ghost function State(): Kernel
      requires None in lists.contents
      reads this, lists
    {
      Kernel(currentThread, threads, lists.contents[None], QueuesOf(lists.contents), sems, locks)
    }

    // The main thread, with semaphores of the given values, locks and conditions.
    constructor (main: Tid, priority: int, values: map<nat, nat>, lockIds: set<nat>, conditions: set<nat>)
      ensures Valid() && fresh(lists) && fresh(lists.Repr) && Start(State()) && QueuesExist()
      ensures sems.Keys == values.Keys && forall s | s in values :: sems[s].value == values[s] && Exists(SemQueue(s))
      ensures locks.Keys == lockIds && forall l | l in lockIds :: Exists(LockQueue(l))
      ensures forall c | c in conditions :: Exists(CondQueue(c))
    {
      var queues := (set s | s in values :: Some(SemQueue(s))) + (set l | l in lockIds :: Some(LockQueue(l))) +
                    (set c | c in conditions :: Some(CondQueue(c)));
      lists := new ThreadLists(queues + {None});
      currentThread := main;
      threads := map[main := Thread(Running, priority, Outside, {})];
      sems := map s | s in values :: Semaphore(values[s], values[s], 0, 0);
      locks := map l | l in lockIds :: Lock(0, None);
    }

    predicate Exists(q: QueueId) {
      Some(q) in lists.lists
    }

    ghost predicate Schedulable()
      reads this, lists
    {
      && currentThread in threads && None in lists.contents
      && (lists.contents[None] != [] ==> lists.contents[None][0].item in threads)
    }

    ghost predicate HeadExists(q: QueueId)
      reads this, lists
    {
      && Exists(q) && None in lists.contents
      && (State().Queue(q) != [] ==> State().Queue(q)[0].item in threads)
    }

    ghost predicate AllExist(q: QueueId)
      reads this, lists
    {
      && Exists(q) && None in lists.contents
      && forall i | 0 <= i < |State().Queue(q)| :: State().Queue(q)[i].item in threads
    }

    method SetStatus(t: Tid, status: Status)
      requires Valid() && t in threads
      modifies this`threads
      ensures Valid() && State() == K.SetStatus(old(State()), t, status)
    {
      threads := threads[t := threads[t].(status := status)];
    }

    method GetPriority(t: Tid) returns (priority: int)
      requires t in threads
      ensures priority == threads[t].priority
    {
      priority := threads[t].priority;
    }

    // Put the current thread on a queue, by its priority.
    method EnqueueCurrent(q: QueueId, pc: Pc)
      requires Valid() && currentThread in threads && Exists(q)
      modifies this`threads, lists, lists.Repr
      ensures Valid() && fresh(lists.Repr - old(lists.Repr))
      ensures State() == Joined(old(State()), q, pc)
    {
      SetPc(pc);
      var priority := GetPriority(currentThread);
      QueuesAfter(lists.contents, Some(q), InsertSorted(lists.contents[Some(q)], Entry(-1 * priority, currentThread)));
      lists.Insert(Some(q), currentThread, -1 * priority);
    }

    // queue->Remove()
    method Dequeue(q: QueueId) returns (t: Option<Tid>)
      requires Valid() && Exists(q)
      modifies lists, lists.Repr
      ensures Valid() && lists.Repr == old(lists.Repr)
      ensures var k := old(State());
              && t == (if k.Queue(q) == [] then None else Some(k.Queue(q)[0].item))
              && State() == if k.Queue(q) == [] then k else k.(queues := k.queues[q := k.queues[q][1..]])
    {
      ghost var list := lists.contents[Some(q)];
      QueuesAfter(lists.contents, Some(q), if list == [] then [] else list[1..]);
      t := lists.Remove(Some(q));
    }

    method ReadyToRun(t: Tid)
      requires Valid() && t in threads
      modifies this`threads, lists, lists.Repr
      ensures Valid() && fresh(lists.Repr - old(lists.Repr))
      ensures State() == K.ReadyToRun(old(State()), t)
    {
      SetStatus(t, Ready);
      var priority := GetPriority(t);
      QueuesAfter(lists.contents, None, InsertSorted(lists.contents[None], Entry(priority * -1, t)));
      lists.Insert(None, t, priority * -1);
    }

    method FindNextToRun() returns (t: Option<Tid>)
      requires Valid()
      modifies lists, lists.Repr
      ensures Valid() && lists.Repr == old(lists.Repr)
      ensures var k := old(State());
              && t == (if k.ready == [] then None else Some(k.ready[0].item))
              && State() == if k.ready == [] then k else k.(ready := k.ready[1..])
    {
      ghost var list := lists.contents[None];
      QueuesAfter(lists.contents, None, if list == [] then [] else list[1..]);
      t := lists.Remove(None);
    }

    method Run(nextThread: Tid)
      requires Valid() && nextThread in threads
      modifies this`currentThread, this`threads
      ensures Valid()
      ensures State() == RunThread(old(State()), nextThread)
    {
      currentThread := nextThread;
      SetStatus(currentThread, Running);
    }

    method Yield()
      requires Valid() && Schedulable()
      modifies this, lists, lists.Repr
      ensures Valid() && fresh(lists.Repr - old(lists.Repr))
      ensures State() == ThreadYield(old(State()))
    {
      var nextThread := FindNextToRun();
      if nextThread != None {
        ReadyToRun(currentThread);
        Run(nextThread.value);
      }
    }

    // Up to the context switch, or to idling if no thread is ready.
    method Sleep()
      requires Valid() && Schedulable()
      modifies this, lists, lists.Repr
      ensures Valid() && lists.Repr == old(lists.Repr)
      ensures State() == Reschedule(K.SetStatus(old(State()), old(currentThread), Blocked))
    {
      SetStatus(currentThread, Blocked);
      var nextThread := FindNextToRun();
      if nextThread != None {
        Run(nextThread.value);
      }
    }

    method SetPc(pc: Pc)
      requires Valid() && currentThread in threads
      modifies this`threads
      ensures Valid()
      ensures State() == K.SetPc(old(State()), pc)
    {
      threads := threads[currentThread := threads[currentThread].(pc := pc)];
    }

    // Finish of a thread that nobody joins: its last Sleep.
    method Finish()
      requires Valid() && Schedulable()
      modifies this, lists, lists.Repr
      ensures Valid() && fresh(lists.Repr - old(lists.Repr))
      ensures State() == ThreadFinish(old(State()))
    {
      SetPc(Finished);
      Sleep();
    }

    // The first thread on a queue becomes ready, if there is one.
    method WakeFirst(q: QueueId) returns (woken: bool)
      requires Valid() && HeadExists(q)
      modifies this`threads, lists, lists.Repr
      ensures Valid() && fresh(lists.Repr - old(lists.Repr))
      ensures woken == (old(State()).Queue(q) != []) && State() == Wake(old(State()), q)
    {
      var thread := Dequeue(q);
      woken := thread != None;
      if woken {
        ReadyToRun(thread.value);
      }
    }

    // Go to sleep on a queue.
    method SleepOn(q: QueueId, pc: Pc)
      requires Valid() && Schedulable() && Exists(q)
      modifies this, lists, lists.Repr
      ensures Valid() && fresh(lists.Repr - old(lists.Repr))
      ensures State() == Reschedule(Block(old(State()), q, pc))
    {
      JoinedThenBlocked(State(), q, pc);
      EnqueueCurrent(q, pc);
      Sleep();
    }

    // One pass through the loop of P: it goes to sleep, or takes the value and leaves.
    method P(s: nat)
      requires Valid() && Schedulable() && s in sems && Exists(SemQueue(s))
      modifies this, lists, lists.Repr
      ensures Valid() && fresh(lists.Repr - old(lists.Repr))
      ensures State() == SemaphoreP(old(State()), s)
    {
      if sems[s].value == 0 {
        SleepOn(SemQueue(s), InP(s));
      } else {
        SetPc(Outside);
        sems := sems[s := sems[s].(value := sems[s].value - 1, ps := sems[s].ps + 1)];
      }
    }

    method V(s: nat)
      requires Valid() && HeadExists(SemQueue(s)) && s in sems
      modifies this, lists, lists.Repr
      ensures Valid() && fresh(lists.Repr - old(lists.Repr))
      ensures State() == SemaphoreV(old(State()), s)
    {
      var woken := WakeFirst(SemQueue(s));
      sems := sems[s := sems[s].(value := sems[s].value + 1, vs := sems[s].vs + 1)];
    }

    // One pass through the loop of Acquire.
    method Acquire(l: nat)
      requires Valid() && Schedulable() && l in locks && Exists(LockQueue(l))
      modifies this, lists, lists.Repr
      ensures Valid() && fresh(lists.Repr - old(lists.Repr))
      ensures State() == LockAcquire(old(State()), l)
    {
      if locks[l].value == 1 {
        SleepOn(LockQueue(l), InAcquire(l));
      } else {
        SetPc(Outside);
        threads := threads[currentThread := threads[currentThread].(held := threads[currentThread].held + {l})];
        locks := locks[l := Lock(1, Some(currentThread))];
      }
    }

    method Release(l: nat)
      requires Valid() && currentThread in threads && HeadExists(LockQueue(l)) && State().Holds(l)
      modifies this, lists, lists.Repr
      ensures Valid() && fresh(lists.Repr - old(lists.Repr))
      ensures State() == LockRelease(old(State()), l)
    {
      threads := threads[currentThread := threads[currentThread].(held := threads[currentThread].held - {l})];
      var woken := WakeFirst(LockQueue(l));
      locks := locks[l := Lock(0, None)];
    }

    method IsHeldByCurrentThread(l: nat) returns (held: bool)
      requires Valid() && l in locks
      ensures held == State().Holds(l)
    {
      held := Some(currentThread) == locks[l].myThread;
    }

    // What Wait does before it sleeps
    method JoinAndRelease(c: nat, conditionLock: nat)
      requires Valid() && Schedulable() && HeadExists(LockQueue(conditionLock)) && Exists(CondQueue(c))
      requires State().Holds(conditionLock)
      requires var waiting := State().Queue(LockQueue(conditionLock)); waiting != [] ==>
               waiting[0].item != currentThread
      modifies this, lists, lists.Repr
      ensures Valid() && fresh(lists.Repr - old(lists.Repr)) && Schedulable()
      ensures Reschedule(K.SetStatus(State(), currentThread, Blocked)) == ConditionWait(old(State()), c, conditionLock)
    {
      WaitInTwo(State(), c, conditionLock);
      EnqueueCurrent(CondQueue(c), InWait(c, conditionLock));
      Release(conditionLock);
    }

    // Wait up to its Sleep; when the thread runs again it goes on with Acquire.
    method Wait(c: nat, conditionLock: nat)
      requires Valid() && Schedulable() && HeadExists(LockQueue(conditionLock))
      requires conditionLock in locks && Exists(CondQueue(c))
      requires var waiting := State().Queue(LockQueue(conditionLock)); waiting != [] ==>
               waiting[0].item != currentThread
      modifies this, lists, lists.Repr
      ensures Valid() && fresh(lists.Repr - old(lists.Repr))
      ensures State() == ConditionWait(old(State()), c, conditionLock)
    {
      var held := IsHeldByCurrentThread(conditionLock);
      if held {
        JoinAndRelease(c, conditionLock);
        Sleep();
      }
    }

    method Signal(c: nat, conditionLock: nat)
      requires Valid() && HeadExists(CondQueue(c)) && conditionLock in locks
      modifies this, lists, lists.Repr
      ensures Valid() && fresh(lists.Repr - old(lists.Repr))
      ensures State() == ConditionSignal(old(State()), c, conditionLock)
    {
      var held := IsHeldByCurrentThread(conditionLock);
      if held {
        var woken := WakeFirst(CondQueue(c));
      }
    }

    method Broadcast(c: nat, conditionLock: nat)
      requires Valid() && AllExist(CondQueue(c)) && conditionLock in locks
      modifies this, lists, lists.Repr
      ensures Valid() && fresh(lists.Repr - old(lists.Repr))
      ensures State() == ConditionBroadcast(old(State()), c, conditionLock)
    {
      var held := IsHeldByCurrentThread(conditionLock);
      if held {
        ghost var all := WakeAll(State(), CondQueue(c));
        var woken := true;
        while woken
          invariant Valid() && fresh(lists.Repr - old(lists.Repr)) && AllExist(CondQueue(c))
          invariant WakeAll(State(), CondQueue(c)) == all && (!woken ==> State() == all)
          decreases woken, |State().Queue(CondQueue(c))|
        {
          woken := WakeNext(CondQueue(c));
        }
      }
    }

    method WakeNext(q: QueueId) returns (woken: bool)
      requires Valid() && AllExist(q)
      modifies this`threads, lists, lists.Repr
      ensures Valid() && fresh(lists.Repr - old(lists.Repr)) && AllExist(q)
      ensures WakeAll(State(), q) == old(WakeAll(State(), q))
      ensures !woken ==> State() == WakeAll(State(), q)
      ensures woken ==> |State().Queue(q)| < old(|State().Queue(q)|)
    {
      WakeAllUnfolds(State(), q);
      woken := WakeFirst(q);
    }

    // Every semaphore and lock has its queue.
    predicate QueuesExist()
      reads this
    {
      (forall s | s in sems :: Exists(SemQueue(s))) && forall l | l in locks :: Exists(LockQueue(l))
    }

    // What a thread may do, or an interrupt.
    ghost predicate MayDo(step: Step)
      requires None in lists.contents
      reads this, lists
    {
      && Inv(State()) && HeadsExist(State()) && Enabled(State(), step) && QueuesExist()
      && match step
         case Wait(c, l) => l in locks && Exists(CondQueue(c))
         case Signal(c, l) => l in locks && Exists(CondQueue(c))
         case Broadcast(c, l) => l in locks && Exists(CondQueue(c))
         case _ => true
    }

    // Whatever a thread or an interrupt does, the linked lists make the step of the machine in Threads,
    // and are ready for the next one.
    method Do(step: Step)
      requires Valid() && MayDo(step)
      modifies this, lists, lists.Repr
      ensures Valid() && fresh(lists.Repr - old(lists.Repr))
      ensures StepsTo(old(State()), step, State())
      ensures Inv(State()) && HeadsExist(State()) && QueuesExist()
    {
      StepKeeps(State(), step);
      SameObjects(State(), step);
      if step.P? || step.V? || step.Acquire? || step.Release? || step.Wait? || step.Signal? || step.Broadcast? {
        DoSynch(step);
      } else {
        DoThread(step);
      }
      InvHeadsExist(State());
    }

    method DoThread(step: Step)
      requires Valid() && MayDo(step)
      requires !step.P? && !step.V? && !step.Acquire? && !step.Release?
      requires !step.Wait? && !step.Signal? && !step.Broadcast?
      modifies this, lists, lists.Repr
      ensures Valid() && fresh(lists.Repr - old(lists.Repr))
      ensures State() == Apply(old(State()), step)
    {
      match step {
        case Interrupt(s) => V(s);
        case Resume => Resume();
        case Yield => Yield();
        case Finish => Finish();
        case EndIdle => EndIdle();
        case Fork(t) => ReadyToRun(t);
        case Create(t, priority) => threads := threads[t := Thread(JustCreated, priority, Outside, {})];
        case SetPriority(t, priority) => threads := threads[t := threads[t].(priority := priority)];
      }
    }

    method DoSynch(step: Step)
      requires Valid() && MayDo(step)
      requires step.P? || step.V? || step.Acquire? || step.Release? || step.Wait? || step.Signal? || step.Broadcast?
      modifies this, lists, lists.Repr
      ensures Valid() && fresh(lists.Repr - old(lists.Repr))
      ensures State() == Apply(old(State()), step)
    {
      match step {
        case P(s) => P(s);
        case V(s) => V(s);
        case Acquire(l) => Acquire(l);
        case Release(l) =>
          assert l in locks;
          Release(l);
        case Wait(c, l) =>
          WaitersSleep(State(), l);
          Wait(c, l);
        case Signal(c, l) => Signal(c, l);
        case Broadcast(c, l) => Broadcast(c, l);
      }
    }

    // A thread that was asleep in a primitive goes on with it.
    method Resume()
      requires Valid() && MayDo(Step.Resume)
      modifies this, lists, lists.Repr
      ensures Valid() && fresh(lists.Repr - old(lists.Repr))
      ensures State() == Apply(old(State()), Step.Resume)
    {
      assert Known(State(), currentThread);
      match threads[currentThread].pc {
        case InP(s) => P(s);
        case InAcquire(l) => Acquire(l);
        case InWait(_, l) => Acquire(l);
      }
    }

    method EndIdle()
      requires Valid() && Schedulable() && State().ready != []
      modifies this, lists, lists.Repr
      ensures Valid() && fresh(lists.Repr - old(lists.Repr))
      ensures State() == Dispatch(old(State()))
    {
      var nextThread := FindNextToRun();
      Run(nextThread.value);
    }
  }
}
