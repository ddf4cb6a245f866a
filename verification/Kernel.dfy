// Threads, the scheduler and the synchronization primitives (threads/thread.cc,
// threads/scheduler.cc, threads/synch.cc) as a step machine. With interrupts off a primitive runs
// without a break up to the point where its thread gives up the CPU, so each such stretch is one
// step.
module Kernel {
  import opened Basics
  import opened List

  datatype Status = JustCreated | Running | Ready | Blocked

  datatype QueueId = SemQueue(s: nat) | LockQueue(l: nat) | CondQueue(c: nat)

  // Where a thread is: in its own code, or in a primitive that it goes on with when it next runs.
  datatype Pc =
    | Outside
    | InP(s: nat)
    | InAcquire(l: nat)
    | InWait(c: nat, relock: nat)
    | Finished
  {
    // The queue on which a thread at this point sleeps.
    function Home(): Option<QueueId> {
      match this
      case InP(s) => Some(SemQueue(s))
      case InAcquire(l) => Some(LockQueue(l))
      case InWait(c, _) => Some(CondQueue(c))
      case _ => None
    }
  }

  // held: the locks that the thread has acquired and not released, by its own account.
  datatype Thread = Thread(status: Status, priority: int, pc: Pc, held: set<nat>)

  // A semaphore with the number of completed Ps and Vs.
  datatype Semaphore = Semaphore(value: nat, initial: nat, ps: nat, vs: nat)

  datatype Lock = Lock(value: nat, myThread: Option<Tid>)

  datatype Kernel = Kernel(
    current: Tid,
    threads: map<Tid, Thread>,
    ready: seq<Entry<Tid>>,
    queues: map<QueueId, seq<Entry<Tid>>>,
    sems: map<nat, Semaphore>,
    locks: map<nat, Lock>)
  {
    function Queue(q: QueueId): seq<Entry<Tid>> {
      if q in queues then queues[q] else []
    }

    // The current thread is always known; it runs unless the CPU idles.
    predicate Busy() {
      current in threads && threads[current].status == Running
    }

    predicate Holds(l: nat) {
      l in locks && locks[l].myThread == Some(current)
    }
  }

  function SetThread(k: Kernel, t: Tid, th: Thread): Kernel {
    k.(threads := k.threads[t := th])
  }

  function SetPc(k: Kernel, pc: Pc): Kernel
    requires k.current in k.threads
  {
    SetThread(k, k.current, k.threads[k.current].(pc := pc))
  }

  function SetStatus(k: Kernel, t: Tid, status: Status): Kernel
    requires t in k.threads
  {
    SetThread(k, t, k.threads[t].(status := status))
  }

  // Lists of threads are sorted with the highest priority first.
  function Ticket(k: Kernel, t: Tid): Entry<Tid>
    requires t in k.threads
  {
    Entry(-k.threads[t].priority, t)
  }

  // Scheduler::ReadyToRun
  function ReadyToRun(k: Kernel, t: Tid): Kernel
    requires t in k.threads
  {
    SetStatus(k, t, Ready).(ready := InsertSorted(k.ready, Ticket(k, t)))
  }

  // Scheduler::Run
  function RunThread(k: Kernel, t: Tid): Kernel
    requires t in k.threads
  {
    SetStatus(k, t, Running).(current := t)
  }

  // Scheduler::FindNextToRun followed by Scheduler::Run
  function Dispatch(k: Kernel): Kernel
    requires k.ready != [] && k.ready[0].item in k.threads
  {
    RunThread(k.(ready := k.ready[1..]), k.ready[0].item)
  }

  // What the CPU does when its thread has gone to sleep: the next thread, or none for now.
  function Reschedule(k: Kernel): Kernel
    requires k.ready != [] ==> k.ready[0].item in k.threads
  {
    if k.ready == [] then k else Dispatch(k)
  }

  // The current thread puts itself on a queue and gives up the CPU.
  function Block(k: Kernel, q: QueueId, pc: Pc): Kernel
    requires k.current in k.threads
  {
    SetThread(k, k.current, k.threads[k.current].(status := Blocked, pc := pc)).
      (queues := k.queues[q := InsertSorted(k.Queue(q), Ticket(k, k.current))])
  }

  // The first thread on a queue, if any, becomes ready.
  function Wake(k: Kernel, q: QueueId): Kernel
    requires k.Queue(q) != [] ==> k.Queue(q)[0].item in k.threads
  {
    if k.Queue(q) == [] then k
    else ReadyToRun(k.(queues := k.queues[q := k.queues[q][1..]]), k.queues[q][0].item)
  }

  // The threads on a list, none of them twice.
  ghost function Members(s: seq<Entry<Tid>>): set<Tid> {
    if s == [] then {} else Members(s[1..]) + {s[0].item}
  }

  ghost predicate NoneTwice(s: seq<Entry<Tid>>) {
    s != [] ==> s[0].item !in Members(s[1..]) && NoneTwice(s[1..])
  }

  lemma {:induction false} InsertMembers(s: seq<Entry<Tid>>, e: Entry<Tid>)
    ensures Members(InsertSorted(s, e)) == Members(s) + {e.item}
    ensures NoneTwice(s) && e.item !in Members(s) ==> NoneTwice(InsertSorted(s, e))
  {
    if s != [] && s[0].key <= e.key {
      InsertMembers(s[1..], e);
      assert InsertSorted(s, e)[1..] == InsertSorted(s[1..], e);
    } else {
      assert InsertSorted(s, e)[1..] == s;
    }
  }

  // A list of threads is in order.
  ghost predicate InOrder(s: seq<Entry<Tid>>) {
    Sorted(s) && NoneTwice(s)
  }

  // Every thread is in exactly one place, the one its status and its pc say.
  ghost predicate AtHome(k: Kernel, q: QueueId, t: Tid) {
    t in Members(k.Queue(q)) <==>
      t in k.threads && k.threads[t].status == Blocked && k.threads[t].pc.Home() == Some(q)
  }

  ghost predicate OnReadyList(k: Kernel, t: Tid) {
    t in Members(k.ready) <==> t in k.threads && k.threads[t].status == Ready
  }

  ghost predicate Sane(k: Kernel, t: Tid)
    requires t in k.threads
  {
    match k.threads[t].status
    case JustCreated => k.threads[t].pc == Outside
    case Running => t == k.current && k.threads[t].pc != Finished
    case Ready => k.threads[t].pc != Finished
    case Blocked => k.threads[t].pc != Outside
  }

  ghost predicate Places(k: Kernel) {
    && k.current in k.threads
    && InOrder(k.ready) && (forall q :: InOrder(k.Queue(q)))
    && (forall t :: OnReadyList(k, t))
    && (forall q, t :: AtHome(k, q, t))
    && (forall t | t in k.threads :: Sane(k, t))
  }

  lemma FirstIsMember(s: seq<Entry<Tid>>)
    requires s != []
    ensures s[0].item in Members(s)
  {
  }

  // The head of a queue or of the ready list is a thread that sleeps there.
  lemma HeadOfQueue(k: Kernel, q: QueueId)
    requires Places(k) && k.Queue(q) != []
    ensures var t := k.Queue(q)[0].item;
            t in k.threads && k.threads[t].status == Blocked && k.threads[t].pc.Home() == Some(q)
  {
    FirstIsMember(k.Queue(q));
    assert AtHome(k, q, k.Queue(q)[0].item);
  }

  lemma HeadOfReady(k: Kernel)
    requires Places(k) && k.ready != []
    ensures k.ready[0].item in k.threads && k.threads[k.ready[0].item].status == Ready
  {
    FirstIsMember(k.ready);
    assert OnReadyList(k, k.ready[0].item);
  }

  lemma TailInOrder(s: seq<Entry<Tid>>)
    requires InOrder(s) && s != []
    ensures InOrder(s[1..]) && Members(s[1..]) == Members(s) - {s[0].item}
  {
  }

  lemma InsertInOrder(s: seq<Entry<Tid>>, e: Entry<Tid>)
    requires InOrder(s) && e.item !in Members(s)
    ensures InOrder(InsertSorted(s, e)) && Members(InsertSorted(s, e)) == Members(s) + {e.item}
  {
    InsertMembers(s, e);
    var _ := InsertKeepsSorted(s, e);
  }

  lemma WakeQueues(k: Kernel, q: QueueId, q0: QueueId, u: Tid)
    requires Places(k) && k.Queue(q) != [] && k.Queue(q)[0].item in k.threads
    ensures InOrder(Wake(k, q).Queue(q0)) && AtHome(Wake(k, q), q0, u)
  {
    HeadOfQueue(k, q);
    TailInOrder(k.Queue(q));
    assert InOrder(k.Queue(q0)) && AtHome(k, q0, u);
    assert Wake(k, q).Queue(q0) == if q0 == q then k.Queue(q)[1..] else k.Queue(q0);
  }

  lemma WakePlaces(k: Kernel, q: QueueId)
    requires Places(k)
    ensures k.Queue(q) != [] ==> k.Queue(q)[0].item in k.threads
    ensures Places(Wake(k, q))
  {
    if k.Queue(q) != [] {
      HeadOfQueue(k, q);
      var t, k' := k.Queue(q)[0].item, Wake(k, q);
      assert OnReadyList(k, t);
      InsertInOrder(k.ready, Ticket(k, t));
      forall u
        ensures OnReadyList(k', u)
      {
        assert OnReadyList(k, u);
      }
      forall q0
        ensures InOrder(k'.Queue(q0))
      {
        WakeQueues(k, q, q0, t);
      }
      forall q0, u
        ensures AtHome(k', q0, u)
      {
        WakeQueues(k, q, q0, u);
      }
      forall u | u in k'.threads
        ensures Sane(k', u)
      {
        assert Sane(k, u);
      }
    }
  }

  // The current thread has gone to sleep on q, or has finished.
  lemma BlockPlaces(k: Kernel, q: QueueId, pc: Pc)
    requires Places(k) && k.Busy() && pc.Home() == Some(q)
    ensures Places(Block(k, q, pc)) && !Block(k, q, pc).Busy()
  {
    var k' := Block(k, q, pc);
    assert AtHome(k, q, k.current) && OnReadyList(k, k.current);
    InsertInOrder(k.Queue(q), Ticket(k, k.current));
    forall q0
      ensures q0 != q ==> k'.Queue(q0) == k.Queue(q0)
      ensures InOrder(k'.Queue(q0))
    {
      assert InOrder(k.Queue(q0));
    }
    forall u
      ensures OnReadyList(k', u)
    {
      assert OnReadyList(k, u);
    }
    forall q0, u
      ensures AtHome(k', q0, u)
    {
      assert AtHome(k, q0, u);
    }
    forall u | u in k'.threads
      ensures Sane(k', u)
    {
      assert Sane(k, u);
    }
  }

  // A change that moves no thread between lists.
  lemma SamePlaces(k: Kernel, k': Kernel)
    requires Places(k) && k'.current == k.current && k'.ready == k.ready && k'.queues == k.queues
    requires forall t :: t in k.threads <==> t in k'.threads
    requires forall t | t in k.threads ::
               && Sane(k', t)
               && (k'.threads[t].status == Ready <==> k.threads[t].status == Ready)
               && (k'.threads[t].status == Blocked <==> k.threads[t].status == Blocked)
               && (k.threads[t].status == Blocked ==> k'.threads[t].pc == k.threads[t].pc)
    ensures Places(k')
  {
    forall q
      ensures k'.Queue(q) == k.Queue(q)
    {
      assert InOrder(k.Queue(q));
    }
    forall u
      ensures OnReadyList(k', u)
    {
      assert OnReadyList(k, u);
    }
    forall q, u
      ensures AtHome(k', q, u)
    {
      assert AtHome(k, q, u);
    }
  }

  lemma DispatchPlaces(k: Kernel)
    requires Places(k) && !k.Busy() && k.ready != []
    ensures k.ready[0].item in k.threads && Places(Dispatch(k)) && Dispatch(k).Busy()
  {
    HeadOfReady(k);
    var t, k' := k.ready[0].item, Dispatch(k);
    TailInOrder(k.ready);
    forall q
      ensures k'.Queue(q) == k.Queue(q)
    {
      assert InOrder(k.Queue(q));
    }
    forall u
      ensures OnReadyList(k', u)
    {
      assert OnReadyList(k, u);
    }
    forall q, u
      ensures AtHome(k', q, u)
    {
      assert AtHome(k, q, u);
    }
    forall u | u in k'.threads
      ensures Sane(k', u)
    {
      assert Sane(k, u);
    }
  }

  lemma ReschedulePlaces(k: Kernel)
    requires Places(k) && !k.Busy()
    ensures k.ready != [] ==> k.ready[0].item in k.threads
    ensures Places(Reschedule(k))
  {
    if k.ready != [] {
      DispatchPlaces(k);
    }
  }

  // A thread that is in no list becomes ready.
  lemma ReadyPlaces(k: Kernel, t: Tid)
    requires Places(k) && t in k.threads && k.threads[t].status in {JustCreated, Running}
    ensures Places(ReadyToRun(k, t))
  {
    var k' := ReadyToRun(k, t);
    assert OnReadyList(k, t) && Sane(k, t);
    InsertInOrder(k.ready, Ticket(k, t));
    forall q
      ensures k'.Queue(q) == k.Queue(q)
    {
      assert InOrder(k.Queue(q));
    }
    forall u
      ensures OnReadyList(k', u)
    {
      assert OnReadyList(k, u);
    }
    forall q, u
      ensures AtHome(k', q, u)
    {
      assert AtHome(k, q, u);
    }
    forall u | u in k'.threads
      ensures Sane(k', u)
    {
      assert Sane(k, u);
    }
  }
}
