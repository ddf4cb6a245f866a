// threads/synch.cc and threads/thread.cc: semaphores, locks, conditions and the operations on
// threads, each as what it does without a break, and what every run of them keeps.
module Synch {
  import opened Basics
  import opened List
  import opened Kernel

  // Semaphore::P, from its start or from waking up in its loop
  function SemaphoreP(k: Kernel, s: nat): Kernel
    requires k.current in k.threads && s in k.sems
    requires k.ready != [] ==> k.ready[0].item in k.threads
  {
    var sem := k.sems[s];
    if sem.value == 0 then Reschedule(Block(k, SemQueue(s), InP(s)))
    else SetPc(k, Outside).(sems := k.sems[s := sem.(value := sem.value - 1, ps := sem.ps + 1)])
  }

  // Semaphore::V, also when an interrupt handler calls it
  function SemaphoreV(k: Kernel, s: nat): Kernel
    requires s in k.sems && (k.Queue(SemQueue(s)) != [] ==> k.Queue(SemQueue(s))[0].item in k.threads)
  {
    var sem := k.sems[s];
    Wake(k, SemQueue(s)).(sems := k.sems[s := sem.(value := sem.value + 1, vs := sem.vs + 1)])
  }

  function SetHeld(k: Kernel, held: set<nat>): Kernel
    requires k.current in k.threads
  {
    SetThread(k, k.current, k.threads[k.current].(held := held))
  }

  // Lock::Acquire, from its start or from waking up in its loop
  function LockAcquire(k: Kernel, l: nat): Kernel
    requires k.current in k.threads && l in k.locks
    requires k.ready != [] ==> k.ready[0].item in k.threads
  {
    if k.locks[l].value == 1 then Reschedule(Block(k, LockQueue(l), InAcquire(l)))
    else
      SetHeld(SetPc(k, Outside), k.threads[k.current].held + {l}).
        (locks := k.locks[l := Lock(1, Some(k.current))])
  }

  function LockRelease(k: Kernel, l: nat): Kernel
    requires k.current in k.threads && l in k.locks
    requires k.Queue(LockQueue(l)) != [] ==> k.Queue(LockQueue(l))[0].item in k.threads
  {
    Wake(SetHeld(k, k.threads[k.current].held - {l}), LockQueue(l)).(locks := k.locks[l := Lock(0, None)])
  }

  // Condition::Wait up to its Sleep; it goes on with LockAcquire. It does nothing for a thread
  // that does not hold the lock.
  function ConditionWait(k: Kernel, c: nat, l: nat): Kernel
    requires k.current in k.threads
    requires k.Queue(LockQueue(l)) != [] ==> k.Queue(LockQueue(l))[0].item in k.threads
    requires k.ready != [] ==> k.ready[0].item in k.threads
  {
    if k.Holds(l) then Reschedule(LockRelease(Block(k, CondQueue(c), InWait(c, l)), l)) else k
  }

  function ConditionSignal(k: Kernel, c: nat, l: nat): Kernel
    requires k.Queue(CondQueue(c)) != [] ==> k.Queue(CondQueue(c))[0].item in k.threads
  {
    if k.Holds(l) then Wake(k, CondQueue(c)) else k
  }

  function WakeAll(k: Kernel, q: QueueId): Kernel
    requires forall i | 0 <= i < |k.Queue(q)| :: k.Queue(q)[i].item in k.threads
    decreases |k.Queue(q)|
  {
    if k.Queue(q) == [] then k else WakeAll(Wake(k, q), q)
  }

  function ConditionBroadcast(k: Kernel, c: nat, l: nat): Kernel
    requires forall i | 0 <= i < |k.Queue(CondQueue(c))| :: k.Queue(CondQueue(c))[i].item in k.threads
  {
    if k.Holds(l) then WakeAll(k, CondQueue(c)) else k
  }

  // Thread::Yield: the next thread is taken off the ready list before the current one goes on it.
  function ThreadYield(k: Kernel): Kernel
    requires k.current in k.threads && (k.ready != [] ==> k.ready[0].item in k.threads)
  {
    if k.ready == [] then k
    else RunThread(ReadyToRun(k.(ready := k.ready[1..]), k.current), k.ready[0].item)
  }

  // Thread::Finish of a thread that nobody joins
  function ThreadFinish(k: Kernel): Kernel
    requires k.current in k.threads && (k.ready != [] ==> k.ready[0].item in k.threads)
  {
    Reschedule(SetThread(k, k.current, k.threads[k.current].(status := Blocked, pc := Finished)))
  }

  // The threads that have been woken from a queue and have not yet looked again.
  ghost function Woken(k: Kernel, q: QueueId): set<Tid> {
    set t | t in k.threads && k.threads[t].status != Blocked && k.threads[t].pc.Home() == Some(q)
  }

  // Every V is accounted for, and a semaphore with sleepers has at most as much value as threads
  // that are on their way to take it.
  ghost predicate SemOk(k: Kernel, s: nat)
    requires s in k.sems
  {
    && k.sems[s].initial + k.sems[s].vs == k.sems[s].ps + k.sems[s].value
    && (k.Queue(SemQueue(s)) != [] ==> k.sems[s].value <= |Woken(k, SemQueue(s))|)
  }

  // A lock that is free but has sleepers has a woken thread on its way.
  ghost predicate LockOk(k: Kernel, l: nat)
    requires l in k.locks
  {
    && (k.locks[l] == Lock(0, None) ||
        (k.locks[l].value == 1 && k.locks[l].myThread != None && k.locks[l].myThread.value in k.threads))
    && (k.Queue(LockQueue(l)) != [] && k.locks[l].value == 0 ==> Woken(k, LockQueue(l)) != {})
  }

  // A thread believes that it holds a lock exactly when the lock says so, and does not wait for it then.
  ghost predicate HeldOk(k: Kernel, l: nat, t: Tid)
    requires t in k.threads
  {
    && (l in k.threads[t].held <==> l in k.locks && k.locks[l].myThread == Some(t))
    && (l in k.threads[t].held ==> k.threads[t].pc != InAcquire(l) &&
                                   !(k.threads[t].pc.InWait? && k.threads[t].pc.relock == l))
  }

  // What a thread waits for exists.
  ghost predicate Known(k: Kernel, t: Tid)
    requires t in k.threads
  {
    match k.threads[t].pc
    case InP(s) => s in k.sems
    case InAcquire(l) => l in k.locks
    case InWait(_, l) => l in k.locks
    case _ => true
  }

  ghost predicate Inv(k: Kernel) {
    && Places(k)
    && (forall s | s in k.sems :: SemOk(k, s))
    && (forall l | l in k.locks :: LockOk(k, l))
    && (forall l, t | t in k.threads :: HeldOk(k, l, t))
    && (forall t | t in k.threads :: Known(k, t))
  }

  // How the moves of threads between lists change who is on the way to a queue.
  lemma WakeWoken(k: Kernel, q: QueueId, q0: QueueId)
    requires Places(k)
    ensures k.Queue(q) != [] ==> k.Queue(q)[0].item in k.threads
    ensures k.Queue(q) != [] && q0 == q ==>
              && k.Queue(q)[0].item !in Woken(k, q)
              && Woken(Wake(k, q), q0) == Woken(k, q0) + {k.Queue(q)[0].item}
    ensures k.Queue(q) == [] || q0 != q ==> Woken(Wake(k, q), q0) == Woken(k, q0)
  {
    if k.Queue(q) != [] {
      HeadOfQueue(k, q);
    }
  }

  lemma BlockWoken(k: Kernel, q: QueueId, pc: Pc, q0: QueueId)
    requires Places(k) && pc.Home() == Some(q)
    ensures Woken(Block(k, q, pc), q0) == Woken(k, q0) - {k.current}
  {
  }

  lemma RescheduleWoken(k: Kernel, q0: QueueId)
    requires Places(k)
    ensures k.ready != [] ==> k.ready[0].item in k.threads
    ensures Woken(Reschedule(k), q0) == Woken(k, q0)
  {
    if k.ready != [] {
      HeadOfReady(k);
    }
  }

  // Moving threads between lists changes no pc and no holder.
  ghost predicate SameMinds(k: Kernel, k': Kernel) {
    && k'.sems.Keys == k.sems.Keys && k'.locks == k.locks
    && (forall t :: t in k'.threads <==> t in k.threads)
    && forall t | t in k.threads :: k'.threads[t].pc == k.threads[t].pc && k'.threads[t].held == k.threads[t].held
  }

  lemma MindsKept(k: Kernel, k': Kernel)
    requires SameMinds(k, k')
    requires forall l, t | t in k.threads :: HeldOk(k, l, t)
    requires forall t | t in k.threads :: Known(k, t)
    ensures forall l, t | t in k'.threads :: HeldOk(k', l, t)
    ensures forall t | t in k'.threads :: Known(k', t)
  {
    forall l, t | t in k'.threads
      ensures HeldOk(k', l, t)
    {
      assert HeldOk(k, l, t);
    }
    forall t | t in k'.threads
      ensures Known(k', t)
    {
      assert Known(k, t);
    }
  }

  // A step that does not touch a queue and stops nobody on the way to it keeps its promise.
  ghost predicate Quiet(k: Kernel, k': Kernel, q: QueueId) {
    k'.Queue(q) == k.Queue(q) && Woken(k, q) <= Woken(k', q)
  }

  lemma LargerSet(a: set<Tid>, b: set<Tid>)
    requires a <= b
    ensures |a| <= |b|
  {
    assert b == a + (b - a);
  }

  lemma OneLess(a: set<Tid>, t: Tid)
    ensures |a| - 1 <= |a - {t}| <= |a|
  {
    if t in a {
      assert a == a - {t} + {t};
    } else {
      assert a == a - {t};
    }
  }

  lemma QuietSem(k: Kernel, k': Kernel, s: nat)
    requires s in k.sems && s in k'.sems && k'.sems[s] == k.sems[s] && SemOk(k, s) && Quiet(k, k', SemQueue(s))
    ensures SemOk(k', s)
  {
    LargerSet(Woken(k, SemQueue(s)), Woken(k', SemQueue(s)));
  }

  lemma QuietLock(k: Kernel, k': Kernel, l: nat)
    requires l in k.locks && l in k'.locks && k'.locks[l] == k.locks[l] && LockOk(k, l) && Quiet(k, k', LockQueue(l))
    requires forall t | t in k.threads :: t in k'.threads
    ensures LockOk(k', l)
  {
    if Woken(k, LockQueue(l)) != {} {
      var t :| t in Woken(k, LockQueue(l));
      assert t in Woken(k', LockQueue(l));
    }
  }

  lemma SemAfterV(k: Kernel, s: nat, s0: nat)
    requires Places(k) && s in k.sems && s0 in k.sems && SemOk(k, s0)
    ensures k.Queue(SemQueue(s)) != [] ==> k.Queue(SemQueue(s))[0].item in k.threads
    ensures SemOk(SemaphoreV(k, s), s0)
  {
    WakeWoken(k, SemQueue(s), SemQueue(s0));
    var k' := SemaphoreV(k, s);
    assert Woken(k', SemQueue(s0)) == Woken(Wake(k, SemQueue(s)), SemQueue(s0));
    if s0 != s {
      QuietSem(k, k', s0);
    }
  }

  lemma LockAfterV(k: Kernel, s: nat, l: nat)
    requires Places(k) && s in k.sems && l in k.locks && LockOk(k, l)
    ensures k.Queue(SemQueue(s)) != [] ==> k.Queue(SemQueue(s))[0].item in k.threads
    ensures LockOk(SemaphoreV(k, s), l)
  {
    WakeWoken(k, SemQueue(s), LockQueue(l));
    var k' := SemaphoreV(k, s);
    assert Woken(k', LockQueue(l)) == Woken(Wake(k, SemQueue(s)), LockQueue(l));
    QuietLock(k, k', l);
  }

  lemma PlacesAfterV(k: Kernel, s: nat)
    requires Places(k) && s in k.sems
    ensures k.Queue(SemQueue(s)) != [] ==> k.Queue(SemQueue(s))[0].item in k.threads
    ensures Places(SemaphoreV(k, s)) && SameMinds(k, SemaphoreV(k, s))
  {
    WakePlaces(k, SemQueue(s));
    SamePlaces(Wake(k, SemQueue(s)), SemaphoreV(k, s));
  }

  lemma SemaphoreVKeeps(k: Kernel, s: nat)
    requires Inv(k) && s in k.sems
    ensures k.Queue(SemQueue(s)) != [] ==> k.Queue(SemQueue(s))[0].item in k.threads
    ensures Inv(SemaphoreV(k, s))
  {
    PlacesAfterV(k, s);
    var k' := SemaphoreV(k, s);
    MindsKept(k, k');
    forall s0 | s0 in k'.sems
      ensures SemOk(k', s0)
    {
      assert SemOk(k, s0);
      SemAfterV(k, s, s0);
    }
    forall l | l in k'.locks
      ensures LockOk(k', l)
    {
      assert LockOk(k, l);
      LockAfterV(k, s, l);
    }
  }

  lemma QuietStep(k: Kernel, k': Kernel)
    requires Inv(k) && Places(k') && SameMinds(k, k') && k'.sems == k.sems
    requires forall q: QueueId | !q.CondQueue? :: Quiet(k, k', q)
    ensures Inv(k')
  {
    MindsKept(k, k');
    forall s | s in k'.sems
      ensures SemOk(k', s)
    {
      assert SemOk(k, s) && Quiet(k, k', SemQueue(s));
      QuietSem(k, k', s);
    }
    forall l | l in k'.locks
      ensures LockOk(k', l)
    {
      assert LockOk(k, l) && Quiet(k, k', LockQueue(l));
      QuietLock(k, k', l);
    }
  }

  lemma RescheduleKeeps(k: Kernel)
    requires Inv(k) && !k.Busy()
    ensures k.ready != [] ==> k.ready[0].item in k.threads
    ensures Inv(Reschedule(k))
  {
    ReschedulePlaces(k);
    forall q: QueueId | !q.CondQueue?
      ensures Quiet(k, Reschedule(k), q)
    {
      RescheduleWoken(k, q);
    }
    QuietStep(k, Reschedule(k));
  }

  lemma WakeKeeps(k: Kernel, c: nat)
    requires Inv(k)
    ensures k.Queue(CondQueue(c)) != [] ==> k.Queue(CondQueue(c))[0].item in k.threads
    ensures Inv(Wake(k, CondQueue(c)))
  {
    WakePlaces(k, CondQueue(c));
    forall q: QueueId | !q.CondQueue?
      ensures Quiet(k, Wake(k, CondQueue(c)), q)
    {
      WakeWoken(k, CondQueue(c), q);
    }
    QuietStep(k, Wake(k, CondQueue(c)));
  }

  // The current thread goes to sleep on a queue it may have been woken from, or on a condition.
  ghost predicate MayBlock(k: Kernel, q: QueueId, pc: Pc) {
    && k.Busy() && pc.Home() == Some(q)
    && (k.threads[k.current].pc == Outside || k.threads[k.current].pc.Home() == Some(q) ||
        k.threads[k.current].pc.InWait?)
    && match pc
       case InP(s) => s in k.sems && k.sems[s].value == 0
       case InAcquire(l) => l in k.locks && k.locks[l].value == 1
       case InWait(_, l) => l in k.locks
       case _ => false
  }

  lemma SemAfterBlock(k: Kernel, q: QueueId, pc: Pc, s: nat)
    requires Inv(k) && MayBlock(k, q, pc) && s in k.sems
    ensures SemOk(Block(k, q, pc), s)
  {
    assert SemOk(k, s);
    BlockWoken(k, q, pc, SemQueue(s));
    if q != SemQueue(s) {
      QuietSem(k, Block(k, q, pc), s);
    }
  }

  lemma LockAfterBlock(k: Kernel, q: QueueId, pc: Pc, l: nat)
    requires Inv(k) && MayBlock(k, q, pc) && l in k.locks
    ensures LockOk(Block(k, q, pc), l)
  {
    assert LockOk(k, l);
    BlockWoken(k, q, pc, LockQueue(l));
    if q != LockQueue(l) {
      QuietLock(k, Block(k, q, pc), l);
    }
  }

  lemma BlockKeeps(k: Kernel, q: QueueId, pc: Pc)
    requires Inv(k) && MayBlock(k, q, pc)
    ensures var k' := Block(k, q, pc);
            && Places(k') && !k'.Busy()
            && (forall s | s in k'.sems :: SemOk(k', s))
            && (forall l | l in k'.locks :: LockOk(k', l))
  {
    BlockPlaces(k, q, pc);
    forall s | s in k.sems {
      SemAfterBlock(k, q, pc, s);
    }
    forall l | l in k.locks {
      LockAfterBlock(k, q, pc, l);
    }
  }

  lemma SemaphorePKeeps(k: Kernel, s: nat)
    requires Inv(k) && k.Busy() && s in k.sems && k.threads[k.current].pc in {Outside, InP(s)}
    ensures k.ready != [] ==> k.ready[0].item in k.threads
    ensures Inv(SemaphoreP(k, s))
  {
    ReadyHeadExists(k);
    if k.sems[s].value == 0 {
      BlockKeeps(k, SemQueue(s), InP(s));
      var b := Block(k, SemQueue(s), InP(s));
      BlockMinds(k, SemQueue(s), InP(s));
      RescheduleKeeps(b);
    } else {
      SemaphoreTaken(k, s);
    }
  }

  lemma ReadyHeadExists(k: Kernel)
    requires Places(k)
    ensures k.ready != [] ==> k.ready[0].item in k.threads
  {
    if k.ready != [] {
      HeadOfReady(k);
    }
  }

  lemma BlockMinds(k: Kernel, q: QueueId, pc: Pc)
    requires Inv(k) && MayBlock(k, q, pc)
    ensures forall l, t | t in Block(k, q, pc).threads ::
              HeldOk(Block(k, q, pc), l, t) ||
              (t == k.current && l in k.threads[t].held && (pc == InAcquire(l) || (pc.InWait? && pc.relock == l)))
    ensures forall t | t in Block(k, q, pc).threads :: Known(Block(k, q, pc), t)
  {
    var k' := Block(k, q, pc);
    forall l, t | t in k'.threads
      ensures HeldOk(k', l, t) ||
              (t == k.current && l in k.threads[t].held && (pc == InAcquire(l) || (pc.InWait? && pc.relock == l)))
    {
      assert HeldOk(k, l, t);
    }
    forall t | t in k'.threads
      ensures Known(k', t)
    {
      assert Known(k, t);
    }
  }

  lemma SemAfterTaking(k: Kernel, s: nat, s0: nat)
    requires k.current in k.threads && k.threads[k.current].pc in {Outside, InP(s)}
    requires s in k.sems && s0 in k.sems && SemOk(k, s0) && k.sems[s].value > 0
    requires k.ready != [] ==> k.ready[0].item in k.threads
    ensures SemOk(SemaphoreP(k, s), s0)
  {
    var k' := SemaphoreP(k, s);
    assert Woken(k', SemQueue(s0)) == Woken(k, SemQueue(s0)) - {k.current};
    OneLess(Woken(k, SemQueue(s0)), k.current);
    if s0 != s {
      QuietSem(k, k', s0);
    }
  }

  lemma LockAfterTaking(k: Kernel, s: nat, l: nat)
    requires k.current in k.threads && k.threads[k.current].pc in {Outside, InP(s)}
    requires s in k.sems && l in k.locks && LockOk(k, l) && k.sems[s].value > 0
    requires k.ready != [] ==> k.ready[0].item in k.threads
    ensures LockOk(SemaphoreP(k, s), l)
  {
    assert Woken(SemaphoreP(k, s), LockQueue(l)) == Woken(k, LockQueue(l)) - {k.current};
    QuietLock(k, SemaphoreP(k, s), l);
  }

  lemma SemaphoreTaken(k: Kernel, s: nat)
    requires Inv(k) && k.Busy() && s in k.sems && k.threads[k.current].pc in {Outside, InP(s)} && k.sems[s].value > 0
    requires k.ready != [] ==> k.ready[0].item in k.threads
    ensures Inv(SemaphoreP(k, s))
  {
    var k' := SemaphoreP(k, s);
    SamePlaces(k, k');
    forall s0 | s0 in k'.sems
      ensures SemOk(k', s0)
    {
      assert SemOk(k, s0);
      SemAfterTaking(k, s, s0);
    }
    forall l | l in k'.locks
      ensures LockOk(k', l)
    {
      assert LockOk(k, l);
      LockAfterTaking(k, s, l);
    }
    OutsideMinds(k, k');
  }

  // A thread that leaves a primitive waits for nothing.
  lemma OutsideMinds(k: Kernel, k': Kernel)
    requires forall l, t | t in k.threads :: HeldOk(k, l, t)
    requires forall t | t in k.threads :: Known(k, t)
    requires k.current in k.threads && k'.threads == SetPc(k, Outside).threads && k'.locks == k.locks
    requires forall s | s in k.sems :: s in k'.sems
    ensures forall l, t | t in k'.threads :: HeldOk(k', l, t)
    ensures forall t | t in k'.threads :: Known(k', t)
  {
    forall l, t | t in k'.threads
      ensures HeldOk(k', l, t)
    {
      assert HeldOk(k, l, t);
    }
    forall t | t in k'.threads
      ensures Known(k', t)
    {
      assert Known(k, t);
    }
  }

  lemma LockAcquireKeeps(k: Kernel, l: nat)
    requires Inv(k) && k.Busy() && l in k.locks && l !in k.threads[k.current].held
    requires k.threads[k.current].pc in {Outside, InAcquire(l)} ||
             (k.threads[k.current].pc.InWait? && k.threads[k.current].pc.relock == l)
    ensures k.ready != [] ==> k.ready[0].item in k.threads
    ensures Inv(LockAcquire(k, l))
  {
    ReadyHeadExists(k);
    if k.locks[l].value == 1 {
      BlockKeeps(k, LockQueue(l), InAcquire(l));
      BlockMinds(k, LockQueue(l), InAcquire(l));
      RescheduleKeeps(Block(k, LockQueue(l), InAcquire(l)));
    } else {
      LockTaken(k, l);
    }
  }

  // The current thread comes out of Acquire, or of Wait, with the lock.
  ghost predicate MayTake(k: Kernel, l: nat) {
    && k.current in k.threads && l in k.locks && k.locks[l].value != 1
    && (k.threads[k.current].pc in {Outside, InAcquire(l)} ||
        (k.threads[k.current].pc.InWait? && k.threads[k.current].pc.relock == l))
    && (k.ready != [] ==> k.ready[0].item in k.threads)
  }

  lemma TakenSem(k: Kernel, l: nat, s: nat)
    requires MayTake(k, l) && s in k.sems && SemOk(k, s)
    ensures SemOk(LockAcquire(k, l), s)
  {
    assert Woken(LockAcquire(k, l), SemQueue(s)) == Woken(k, SemQueue(s)) - {k.current};
    QuietSem(k, LockAcquire(k, l), s);
  }

  lemma TakenLock(k: Kernel, l: nat, l0: nat)
    requires MayTake(k, l) && l0 in k.locks && LockOk(k, l0)
    ensures LockOk(LockAcquire(k, l), l0)
  {
    if l0 != l {
      assert Woken(LockAcquire(k, l), LockQueue(l0)) == Woken(k, LockQueue(l0)) - {k.current};
      QuietLock(k, LockAcquire(k, l), l0);
    }
  }

  lemma LockTaken(k: Kernel, l: nat)
    requires Inv(k) && k.Busy() && MayTake(k, l)
    ensures Inv(LockAcquire(k, l))
  {
    var k' := LockAcquire(k, l);
    assert LockOk(k, l);
    TakenPlaces(k, l);
    forall s | s in k'.sems
      ensures SemOk(k', s)
    {
      assert SemOk(k, s);
      TakenSem(k, l, s);
    }
    forall l0 | l0 in k'.locks
      ensures LockOk(k', l0)
    {
      assert LockOk(k, l0);
      TakenLock(k, l, l0);
    }
    TakenMinds(k, k', l);
  }

  lemma TakenPlaces(k: Kernel, l: nat)
    requires Places(k) && k.Busy() && MayTake(k, l)
    ensures Places(LockAcquire(k, l))
  {
    assert forall t | t in k.threads :: Sane(k, t);
    SamePlaces(k, LockAcquire(k, l));
  }

  lemma TakenMinds(k: Kernel, k': Kernel, l: nat)
    requires forall l0, t | t in k.threads :: HeldOk(k, l0, t)
    requires forall t | t in k.threads :: Known(k, t)
    requires k.current in k.threads && l in k.locks && k.locks[l].myThread == None
    requires k'.threads == SetHeld(SetPc(k, Outside), k.threads[k.current].held + {l}).threads
    requires k'.locks == k.locks[l := Lock(1, Some(k.current))] && k'.sems == k.sems
    ensures forall l0, t | t in k'.threads :: HeldOk(k', l0, t)
    ensures forall t | t in k'.threads :: Known(k', t)
  {
    forall l0, t | t in k'.threads
      ensures HeldOk(k', l0, t)
    {
      assert HeldOk(k, l0, t);
    }
    forall t | t in k'.threads
      ensures Known(k', t)
    {
      assert Known(k, t);
    }
  }

  // Everything but that the current thread may already wait for the lock it is about to release.
  ghost predicate AboutToRelease(k: Kernel, l: nat) {
    && Places(k)
    && (forall s | s in k.sems :: SemOk(k, s))
    && (forall l0 | l0 in k.locks :: LockOk(k, l0))
    && k.Holds(l) && l in k.threads[k.current].held
    && (forall l0, t | t in k.threads :: HeldOk(k, l0, t) || (l0 == l && t == k.current))
    && (forall t | t in k.threads :: Known(k, t))
  }

  lemma LockReleaseKeeps(k: Kernel, l: nat)
    requires AboutToRelease(k, l)
    ensures k.Queue(LockQueue(l)) != [] ==> k.Queue(LockQueue(l))[0].item in k.threads
    ensures Inv(LockRelease(k, l))
  {
    ReleasedPlaces(k, l);
    ReleasedHeld(k, l);
    var k' := LockRelease(k, l);
    forall s | s in k'.sems {
      ReleasedSem(k, l, s);
    }
    forall l0 | l0 in k'.locks {
      ReleasedLock(k, l, l0);
    }
    ReleasedMinds(k, k', l);
  }

  lemma ReleasedPlaces(k: Kernel, l: nat)
    requires AboutToRelease(k, l)
    ensures k.Queue(LockQueue(l)) != [] ==> k.Queue(LockQueue(l))[0].item in k.threads
    ensures Places(LockRelease(k, l))
  {
    var h := SetHeld(k, k.threads[k.current].held - {l});
    HeldPlaces(k, k.threads[k.current].held - {l});
    WakePlaces(h, LockQueue(l));
    SamePlaces(Wake(h, LockQueue(l)), LockRelease(k, l));
  }

  lemma ReleasedHeld(k: Kernel, l: nat)
    requires k.current in k.threads && l in k.locks
    requires k.Queue(LockQueue(l)) != [] ==> k.Queue(LockQueue(l))[0].item in k.threads
    ensures var k' := LockRelease(k, l);
            && (forall t :: t in k'.threads <==> t in k.threads)
            && forall t | t in k.threads ::
                 && k'.threads[t].pc == k.threads[t].pc
                 && k'.threads[t].held == if t == k.current then k.threads[t].held - {l} else k.threads[t].held
  {
  }

  lemma HeldPlaces(k: Kernel, held: set<nat>)
    requires Places(k)
    ensures Places(SetHeld(k, held))
  {
    assert forall t | t in k.threads :: Sane(k, t);
    SamePlaces(k, SetHeld(k, held));
  }

  lemma ReleasedThreads(k: Kernel, l: nat)
    requires AboutToRelease(k, l)
    requires k.Queue(LockQueue(l)) != [] ==> k.Queue(LockQueue(l))[0].item in k.threads
    ensures var k', w := LockRelease(k, l), Wake(k, LockQueue(l));
            && (forall t :: t in k'.threads <==> t in w.threads)
            && (forall t | t in w.threads :: k'.threads[t].status == w.threads[t].status &&
                                             k'.threads[t].pc == w.threads[t].pc)
  {
  }

  lemma ReleasedWoken(k: Kernel, l: nat, q: QueueId)
    requires AboutToRelease(k, l)
    ensures k.Queue(LockQueue(l)) != [] ==> k.Queue(LockQueue(l))[0].item in k.threads
    ensures LockRelease(k, l).Queue(q) == Wake(k, LockQueue(l)).Queue(q)
    ensures Woken(LockRelease(k, l), q) == Woken(Wake(k, LockQueue(l)), q)
  {
    WakePlaces(k, LockQueue(l));
    ReleasedThreads(k, l);
    SameWoken(LockRelease(k, l), Wake(k, LockQueue(l)), q);
  }

  lemma SameWoken(k: Kernel, k': Kernel, q: QueueId)
    requires forall t :: t in k'.threads <==> t in k.threads
    requires forall t | t in k.threads ::
               k'.threads[t].status == k.threads[t].status && k'.threads[t].pc == k.threads[t].pc
    ensures Woken(k, q) == Woken(k', q)
  {
  }

  lemma ReleasedSem(k: Kernel, l: nat, s: nat)
    requires AboutToRelease(k, l) && s in k.sems
    ensures k.Queue(LockQueue(l)) != [] ==> k.Queue(LockQueue(l))[0].item in k.threads
    ensures SemOk(LockRelease(k, l), s)
  {
    assert SemOk(k, s);
    WakeWoken(k, LockQueue(l), SemQueue(s));
    ReleasedWoken(k, l, SemQueue(s));
    QuietSem(k, LockRelease(k, l), s);
  }

  lemma ReleasedLock(k: Kernel, l: nat, l0: nat)
    requires AboutToRelease(k, l) && l0 in k.locks
    ensures k.Queue(LockQueue(l)) != [] ==> k.Queue(LockQueue(l))[0].item in k.threads
    ensures LockOk(LockRelease(k, l), l0)
  {
    assert LockOk(k, l0);
    WakeWoken(k, LockQueue(l), LockQueue(l0));
    ReleasedWoken(k, l, LockQueue(l0));
    if l0 != l {
      QuietLock(k, LockRelease(k, l), l0);
    }
  }

  lemma ReleasedMinds(k: Kernel, k': Kernel, l: nat)
    requires AboutToRelease(k, l) && k'.sems == k.sems && k'.locks == k.locks[l := Lock(0, None)]
    requires forall t :: t in k'.threads <==> t in k.threads
    requires forall t | t in k.threads ::
               && k'.threads[t].pc == k.threads[t].pc
               && k'.threads[t].held == if t == k.current then k.threads[t].held - {l} else k.threads[t].held
    ensures forall l0, t | t in k'.threads :: HeldOk(k', l0, t)
    ensures forall t | t in k'.threads :: Known(k', t)
  {
    forall l0, t | t in k'.threads
      ensures HeldOk(k', l0, t)
    {
      if l0 != l || t != k.current {
        assert HeldOk(k, l0, t);
      }
    }
    forall t | t in k'.threads
      ensures Known(k', t)
    {
      assert Known(k, t);
    }
  }

  lemma ReleaseKeeps(k: Kernel, l: nat)
    requires Inv(k) && k.Holds(l)
    ensures k.Queue(LockQueue(l)) != [] ==> k.Queue(LockQueue(l))[0].item in k.threads
    ensures Inv(LockRelease(k, l))
  {
    assert HeldOk(k, l, k.current);
    LockReleaseKeeps(k, l);
  }

  lemma ConditionWaitKeeps(k: Kernel, c: nat, l: nat)
    requires Inv(k) && k.Busy() && k.threads[k.current].pc == Outside
    ensures k.ready != [] ==> k.ready[0].item in k.threads
    ensures k.Queue(LockQueue(l)) != [] ==> k.Queue(LockQueue(l))[0].item in k.threads
    ensures Inv(ConditionWait(k, c, l))
  {
    ReadyHeadExists(k);
    if k.Queue(LockQueue(l)) != [] {
      HeadOfQueue(k, LockQueue(l));
    }
    if k.Holds(l) {
      assert HeldOk(k, l, k.current);
      BlockKeeps(k, CondQueue(c), InWait(c, l));
      BlockMinds(k, CondQueue(c), InWait(c, l));
      var b := Block(k, CondQueue(c), InWait(c, l));
      LockReleaseKeeps(b, l);
      StillAsleep(b, l);
      RescheduleKeeps(LockRelease(b, l));
    }
  }

  lemma StillAsleep(k: Kernel, l: nat)
    requires Places(k) && !k.Busy() && l in k.locks && k.threads[k.current].pc.Home() != Some(LockQueue(l))
    ensures k.Queue(LockQueue(l)) != [] ==> k.Queue(LockQueue(l))[0].item in k.threads
    ensures !LockRelease(k, l).Busy()
  {
    if k.Queue(LockQueue(l)) != [] {
      HeadOfQueue(k, LockQueue(l));
    }
  }

  lemma {:induction false} MemberAt(s: seq<Entry<Tid>>, i: nat)
    requires i < |s|
    ensures s[i].item in Members(s)
  {
    if i > 0 {
      MemberAt(s[1..], i - 1);
    }
  }

  lemma QueueNamed(k: Kernel, q: QueueId)
    requires Places(k)
    ensures forall i | 0 <= i < |k.Queue(q)| :: k.Queue(q)[i].item in k.threads
  {
    var s := k.Queue(q);
    forall i | 0 <= i < |s|
      ensures s[i].item in k.threads
    {
      MemberAt(s, i);
      assert AtHome(k, q, s[i].item);
    }
  }

  lemma {:induction false} WakeAllKeeps(k: Kernel, c: nat)
    requires Inv(k)
    ensures forall i | 0 <= i < |k.Queue(CondQueue(c))| :: k.Queue(CondQueue(c))[i].item in k.threads
    ensures Inv(WakeAll(k, CondQueue(c))) && WakeAll(k, CondQueue(c)).Queue(CondQueue(c)) == []
    decreases |k.Queue(CondQueue(c))|
  {
    QueueNamed(k, CondQueue(c));
    if k.Queue(CondQueue(c)) != [] {
      WakeKeeps(k, c);
      WakeAllKeeps(Wake(k, CondQueue(c)), c);
    }
  }

  // Yielding is as if the current thread were new, the next one dispatched, and the first readied.
  lemma YieldPlaces(k: Kernel)
    requires Places(k) && k.Busy() && k.threads[k.current].pc == Outside && k.ready != []
    requires k.ready[0].item in k.threads && k.threads[k.ready[0].item].status == Ready
    ensures Places(ThreadYield(k))
  {
    var k0 := SetStatus(k, k.current, JustCreated);
    assert forall t | t in k.threads :: Sane(k, t);
    SamePlaces(k, k0);
    DispatchPlaces(k0);
    ReadyPlaces(Dispatch(k0), k.current);
    YieldInTwoMoves(k);
  }

  lemma YieldInTwoMoves(k: Kernel)
    requires k.current in k.threads && k.ready != [] && k.ready[0].item in k.threads && k.ready[0].item != k.current
    ensures ReadyToRun(Dispatch(SetStatus(k, k.current, JustCreated)), k.current) == ThreadYield(k)
  {
    assert ReadyToRun(Dispatch(SetStatus(k, k.current, JustCreated)), k.current).threads == ThreadYield(k).threads;
  }

  lemma YieldQuiet(k: Kernel, q: QueueId)
    requires k.current in k.threads && k.ready != [] && k.ready[0].item in k.threads && k.Busy()
    requires k.threads[k.ready[0].item].status == Ready
    ensures Quiet(k, ThreadYield(k), q)
  {
  }

  lemma YieldMinds(k: Kernel)
    requires k.current in k.threads && k.ready != [] && k.ready[0].item in k.threads
    ensures SameMinds(k, ThreadYield(k))
  {
  }

  lemma ThreadYieldKeeps(k: Kernel)
    requires Inv(k) && k.Busy() && k.threads[k.current].pc == Outside
    ensures k.ready != [] ==> k.ready[0].item in k.threads
    ensures Inv(ThreadYield(k))
  {
    ReadyHeadExists(k);
    if k.ready != [] {
      HeadOfReady(k);
      YieldPlaces(k);
      forall q {
        YieldQuiet(k, q);
      }
      YieldMinds(k);
      QuietStep(k, ThreadYield(k));
    }
  }

  lemma ThreadFinishKeeps(k: Kernel)
    requires Inv(k) && k.Busy() && k.threads[k.current].pc == Outside
    ensures k.ready != [] ==> k.ready[0].item in k.threads
    ensures Inv(ThreadFinish(k))
  {
    ReadyHeadExists(k);
    var f := SetThread(k, k.current, k.threads[k.current].(status := Blocked, pc := Finished));
    FinishedPlaces(k, f);
    forall q: QueueId | !q.CondQueue?
      ensures Quiet(k, f, q)
    {
    }
    forall s | s in f.sems
      ensures SemOk(f, s)
    {
      assert SemOk(k, s);
      QuietSem(k, f, s);
    }
    forall l | l in f.locks
      ensures LockOk(f, l)
    {
      assert LockOk(k, l);
      QuietLock(k, f, l);
    }
    forall l, t | t in f.threads
      ensures HeldOk(f, l, t)
    {
      assert HeldOk(k, l, t);
    }
    forall t | t in f.threads
      ensures Known(f, t)
    {
      assert Known(k, t);
    }
    RescheduleKeeps(f);
  }

  lemma FinishedPlaces(k: Kernel, f: Kernel)
    requires Places(k) && k.Busy() && k.threads[k.current].pc == Outside
    requires f == SetThread(k, k.current, k.threads[k.current].(status := Blocked, pc := Finished))
    ensures Places(f) && !f.Busy()
  {
    forall u
      ensures OnReadyList(f, u)
    {
      assert OnReadyList(k, u);
    }
    forall q, u
      ensures AtHome(f, q, u)
    {
      assert AtHome(k, q, u);
    }
    forall u | u in f.threads
      ensures Sane(f, u)
    {
      assert Sane(k, u);
    }
    forall q
      ensures f.Queue(q) == k.Queue(q)
    {
      assert InOrder(k.Queue(q));
    }
  }
}
