// What the runs of the kernel make of the ready list: the highest priority first, and the first to
// become ready first among equals.
module ReadyQueue {
  import opened Basics
  import opened List
  import opened Kernel
  import opened Synch
  import opened Threads

  // What a step does with the ready list: threads become ready, with the priority they have then,
  // and the first one is taken to run.
  function Readied(k: Kernel, t: Tid): Use<Tid> {
    Put(if t in k.threads then Ticket(k, t) else Entry(0, t))
  }

  function WakeUse(k: Kernel, q: QueueId): seq<Use<Tid>> {
    if k.Queue(q) == [] then [] else [Readied(k, k.Queue(q)[0].item)]
  }

  function WakeAllUses(k: Kernel, waiting: seq<Entry<Tid>>): seq<Use<Tid>> {
    if waiting == [] then [] else [Readied(k, waiting[0].item)] + WakeAllUses(k, waiting[1..])
  }

  function AcquireUses(k: Kernel, l: nat): seq<Use<Tid>> {
    if l in k.locks && k.locks[l].value == 1 then [Take] else []
  }

  function PUses(k: Kernel, s: nat): seq<Use<Tid>> {
    if s in k.sems && k.sems[s].value == 0 then [Take] else []
  }

  function ResumeUses(k: Kernel, pc: Pc): seq<Use<Tid>> {
    match pc
    case InP(s) => PUses(k, s)
    case InAcquire(l) => AcquireUses(k, l)
    case InWait(_, l) => AcquireUses(k, l)
    case _ => []
  }

  function ReadyUses(k: Kernel, step: Step): seq<Use<Tid>> {
    match step
    case Create(_, _) => []
    case Fork(t) => [Readied(k, t)]
    case SetPriority(_, _) => []
    case Yield => if k.ready == [] then [] else [Take, Readied(k, k.current)]
    case Finish => [Take]
    case P(s) => PUses(k, s)
    case V(s) => WakeUse(k, SemQueue(s))
    case Acquire(l) => AcquireUses(k, l)
    case Release(l) => WakeUse(k, LockQueue(l))
    case Wait(_, l) => if k.Holds(l) then WakeUse(k, LockQueue(l)) + [Take] else []
    case Signal(c, l) => if k.Holds(l) then WakeUse(k, CondQueue(c)) else []
    case Broadcast(c, l) => if k.Holds(l) then WakeAllUses(k, k.Queue(CondQueue(c))) else []
    case Resume => if k.current in k.threads then ResumeUses(k, k.threads[k.current].pc) else []
    case Interrupt(s) => WakeUse(k, SemQueue(s))
    case EndIdle => [Take]
  }

  function Used(ready: seq<Entry<Tid>>, use: Use<Tid>): seq<Entry<Tid>> {
    match use
    case Put(e) => InsertSorted(ready, e)
    case Take => if ready == [] then [] else ready[1..]
  }

  function UsedBy(ready: seq<Entry<Tid>>, uses: seq<Use<Tid>>): seq<Entry<Tid>>
    decreases |uses|
  {
    if uses == [] then ready else UsedBy(Used(ready, uses[0]), uses[1..])
  }

  lemma {:induction false} UsesAdded(before: seq<Use<Tid>>, uses: seq<Use<Tid>>)
    ensures ListAfter(before + uses) == UsedBy(ListAfter(before), uses)
    decreases |uses|
  {
    if uses == [] {
      assert before + uses == before;
    } else {
      assert before + uses == (before + [uses[0]]) + uses[1..];
      assert (before + [uses[0]])[..|before|] == before;
      UsesAdded(before + [uses[0]], uses[1..]);
    }
  }

  lemma {:induction false} WakeAllUsed(k: Kernel, k': Kernel, q: QueueId)
    requires forall i | 0 <= i < |k'.Queue(q)| :: k'.Queue(q)[i].item in k.threads && k'.Queue(q)[i].item in k'.threads
    requires forall t | t in k.threads && t in k'.threads :: Ticket(k, t) == Ticket(k', t)
    ensures WakeAll(k', q).ready == UsedBy(k'.ready, WakeAllUses(k, k'.Queue(q)))
    decreases |k'.Queue(q)|
  {
    if k'.Queue(q) != [] {
      assert Wake(k', q).Queue(q) == k'.Queue(q)[1..];
      WakeAllUsed(k, Wake(k', q), q);
    }
  }

  lemma FewUsed(ready: seq<Entry<Tid>>, a: Use<Tid>, b: Use<Tid>)
    ensures UsedBy(ready, [a]) == Used(ready, a) && UsedBy(ready, [a, b]) == Used(Used(ready, a), b)
  {
    assert [a][1..] == [] && [b][1..] == [] && [a, b][1..] == [b];
    assert UsedBy(Used(ready, a), [b]) == Used(Used(ready, a), b);
  }

  lemma YieldUses(k: Kernel)
    requires k.current in k.threads && k.ready != [] && k.ready[0].item in k.threads
    ensures ThreadYield(k).ready == UsedBy(k.ready, [Take, Readied(k, k.current)])
  {
    FewUsed(k.ready, Take, Readied(k, k.current));
  }

  lemma WakeUses(k: Kernel, q: QueueId)
    requires HeadsExist(k)
    ensures Wake(k, q).ready == UsedBy(k.ready, WakeUse(k, q))
  {
    if k.Queue(q) != [] {
      FewUsed(k.ready, Readied(k, k.Queue(q)[0].item), Take);
    }
  }

  lemma WaitUses(k: Kernel, c: nat, l: nat)
    requires HeadsExist(k) && k.Holds(l)
    ensures ConditionWait(k, c, l).ready == UsedBy(k.ready, WakeUse(k, LockQueue(l)) + [Take])
  {
    var b := Block(k, CondQueue(c), InWait(c, l));
    assert b.Queue(LockQueue(l)) == k.Queue(LockQueue(l));
    if k.Queue(LockQueue(l)) == [] {
      FewUsed(k.ready, Take, Take);
    } else {
      FewUsed(k.ready, Readied(k, k.Queue(LockQueue(l))[0].item), Take);
    }
  }

  lemma PUsed(k: Kernel, s: nat)
    requires HeadsExist(k) && s in k.sems
    ensures SemaphoreP(k, s).ready == UsedBy(k.ready, PUses(k, s))
  {
    FewUsed(k.ready, Take, Take);
  }

  lemma AcquireUsed(k: Kernel, l: nat)
    requires HeadsExist(k) && l in k.locks
    ensures LockAcquire(k, l).ready == UsedBy(k.ready, AcquireUses(k, l))
  {
    FewUsed(k.ready, Take, Take);
  }

  lemma StepUses(k: Kernel, step: Step, k': Kernel)
    requires StepsTo(k, step, k')
    ensures k'.ready == UsedBy(k.ready, ReadyUses(k, step))
  {
    FewUsed(k.ready, Take, Take);
    match step {
      case Fork(t) => FewUsed(k.ready, Readied(k, t), Take);
      case Yield =>
        if k.ready != [] {
          YieldUses(k);
        }
      case V(s) => WakeUses(k, SemQueue(s));
      case Interrupt(s) => WakeUses(k, SemQueue(s));
      case Release(l) => ReleaseUses(k, l);
      case Signal(c, l) => WakeUses(k, CondQueue(c));
      case Wait(c, l) =>
        if k.Holds(l) {
          WaitUses(k, c, l);
        }
      case Broadcast(c, l) =>
        if k.Holds(l) {
          WakeAllUsed(k, k, CondQueue(c));
        }
      case P(s) => PUsed(k, s);
      case Acquire(l) => AcquireUsed(k, l);
      case Resume =>
        assert Known(k, k.current);
        match k.threads[k.current].pc {
          case InP(s) => PUsed(k, s);
          case InAcquire(l) => AcquireUsed(k, l);
          case InWait(_, l) => AcquireUsed(k, l);
        }
      case Finish =>
      case EndIdle =>
      case _ =>
    }
  }

  lemma ReleaseUses(k: Kernel, l: nat)
    requires HeadsExist(k) && l in k.locks
    ensures LockRelease(k, l).ready == UsedBy(k.ready, WakeUse(k, LockQueue(l)))
  {
    if k.Queue(LockQueue(l)) != [] {
      FewUsed(k.ready, Readied(k, k.Queue(LockQueue(l))[0].item), Take);
    }
  }

  // What the steps of a run have done with the ready list
  function UsesOf(states: seq<Kernel>, steps: seq<Step>): seq<seq<Use<Tid>>>
    requires |steps| <= |states|
  {
    seq(|steps|, i requires 0 <= i < |steps| => ReadyUses(states[i], steps[i]))
  }

  function Joined(uses: seq<seq<Use<Tid>>>, n: nat): seq<Use<Tid>>
    requires n <= |uses|
  {
    if n == 0 then [] else Joined(uses, n - 1) + uses[n - 1]
  }

  function ReadyLists(states: seq<Kernel>): seq<seq<Entry<Tid>>> {
    seq(|states|, i requires 0 <= i < |states| => states[i].ready)
  }

  lemma {:induction false} JoinedUses(ready: seq<seq<Entry<Tid>>>, uses: seq<seq<Use<Tid>>>, n: nat)
    requires n <= |uses| < |ready| && ready[0] == []
    requires forall i | 0 <= i < |uses| :: ready[i + 1] == UsedBy(ready[i], uses[i])
    ensures ready[n] == ListAfter(Joined(uses, n))
  {
    if n > 0 {
      JoinedUses(ready, uses, n - 1);
      UsesAdded(Joined(uses, n - 1), uses[n - 1]);
      assert ready[n - 1 + 1] == UsedBy(ready[n - 1], uses[n - 1]);
    }
  }

  lemma ReadyAfterRun(states: seq<Kernel>, steps: seq<Step>, n: nat)
    requires Run(states, steps) && n <= |steps|
    ensures states[n].ready == ListAfter(Joined(UsesOf(states, steps), n))
  {
    forall i | 0 <= i < |steps|
      ensures states[i + 1].ready == UsedBy(states[i].ready, ReadyUses(states[i], steps[i]))
    {
      StepUses(states[i], steps[i], states[i + 1]);
    }
    JoinedUses(ReadyLists(states), UsesOf(states, steps), n);
  }

  // In every state of every run the thread that runs next is, of those that have become ready and
  // have not been taken, the one of the highest priority, and the earliest among equals.
  lemma EarliestOfHighestNext(states: seq<Kernel>, steps: seq<Step>, n: nat)
    requires Run(states, steps) && n <= |steps| && states[n].ready != []
    ensures var arrivals := Waiting(Joined(UsesOf(states, steps), n));
            && states[n].ready == Queued(arrivals) && arrivals != []
            && var i := Next(arrivals);
               && states[n].ready[0] == arrivals[i]
               && (forall j | 0 <= j < |arrivals| :: arrivals[i].key <= arrivals[j].key)
               && forall j | 0 <= j < i :: arrivals[i].key < arrivals[j].key
  {
    ReadyAfterRun(states, steps, n);
    NextOfUses(Joined(UsesOf(states, steps), n));
  }

  lemma NextOfUses(uses: seq<Use<Tid>>)
    requires ListAfter(uses) != []
    ensures var arrivals := Waiting(uses);
            && ListAfter(uses) == Queued(arrivals) && arrivals != []
            && var i := Next(arrivals);
               && ListAfter(uses)[0] == arrivals[i]
               && (forall j | 0 <= j < |arrivals| :: arrivals[i].key <= arrivals[j].key)
               && forall j | 0 <= j < i :: arrivals[i].key < arrivals[j].key
  {
    ListIsStableQueue(uses);
    NextIsEarliestSmallest(Waiting(uses));
  }
}
