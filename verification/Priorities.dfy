// Who is given the CPU, and who is woken, in any run, told from priorities and times alone. A thread
// that has become ready, or has gone to sleep on a queue, has the rank of the priority it had then
// and of the time since when it has been there.
module Priorities {
  import opened Basics
  import opened List
  import opened Kernel
  import opened Synch
  import opened Threads
  import opened ReadyQueue
  import opened Sleeping

  datatype Rank = Rank(priority: int, since: nat)

  // Higher priorities come first, and earlier times among equals.
  predicate Before(a: Rank, b: Rank) {
    a.priority > b.priority || (a.priority == b.priority && a.since <= b.since)
  }

  function PriorityOf(k: Kernel, t: Tid): int {
    if t in k.threads then k.threads[t].priority else 0
  }

  predicate IsReady(k: Kernel, t: Tid) {
    t in k.threads && k.threads[t].status == Ready
  }

  // The first state from which on the thread has been ready, or asleep on the queue, up to state n
  function ReadySince(states: seq<Kernel>, n: nat, t: Tid): nat
    requires n < |states|
  {
    if n > 0 && IsReady(states[n - 1], t) then ReadySince(states, n - 1, t) else n
  }

  function AsleepSince(states: seq<Kernel>, n: nat, q: QueueId, t: Tid): nat
    requires n < |states|
  {
    if n > 0 && AsleepAt(states[n - 1], t, q) then AsleepSince(states, n - 1, q, t) else n
  }

  lemma {:induction false} ReadySinceBound(states: seq<Kernel>, n: nat, t: Tid)
    requires n < |states|
    ensures ReadySince(states, n, t) <= n
  {
    if n > 0 && IsReady(states[n - 1], t) {
      ReadySinceBound(states, n - 1, t);
    }
  }

  lemma {:induction false} AsleepSinceBound(states: seq<Kernel>, n: nat, q: QueueId, t: Tid)
    requires n < |states|
    ensures AsleepSince(states, n, q, t) <= n
  {
    if n > 0 && AsleepAt(states[n - 1], t, q) {
      AsleepSinceBound(states, n - 1, q, t);
    }
  }

  function ReadyRank(states: seq<Kernel>, n: nat, t: Tid): Rank
    requires n < |states|
  {
    ReadySinceBound(states, n, t);
    Rank(PriorityOf(states[ReadySince(states, n, t)], t), ReadySince(states, n, t))
  }

  function SleepRank(states: seq<Kernel>, n: nat, q: QueueId, t: Tid): Rank
    requires n < |states|
  {
    AsleepSinceBound(states, n, q, t);
    Rank(PriorityOf(states[AsleepSince(states, n, q, t)], t), AsleepSince(states, n, q, t))
  }

  // A list whose elements are in the order of their ranks, under the keys that belong to them.
  ghost predicate Filed(e: Entry<Tid>, ranks: Tid -> Rank, now: nat) {
    e.key == -ranks(e.item).priority && ranks(e.item).since <= now
  }

  ghost predicate Ranked(list: seq<Entry<Tid>>, ranks: Tid -> Rank, now: nat) {
    && (forall i | 0 <= i < |list| :: Filed(list[i], ranks, now))
    && forall i, j | 0 <= i < j < |list| :: Before(ranks(list[i].item), ranks(list[j].item))
  }

  lemma RankedInsert(list: seq<Entry<Tid>>, e: Entry<Tid>, ranks: Tid -> Rank, now: nat)
    requires Ranked(list, ranks, now) && Filed(e, ranks, now) && ranks(e.item).since == now
    ensures Ranked(InsertSorted(list, e), ranks, now)
  {
    var p := InsertPlace(list, e);
    var r := InsertSorted(list, e);
    forall i, j | 0 <= i < j < |r|
      ensures Before(ranks(r[i].item), ranks(r[j].item))
    {
      if i == p {
        assert r[j] == list[j - 1] && Filed(list[p], ranks, now) && Filed(list[j - 1], ranks, now);
        assert j - 1 > p ==> Before(ranks(list[p].item), ranks(list[j - 1].item));
      } else if j == p {
        assert r[i] == list[i] && Filed(list[i], ranks, now);
      } else {
        assert r[i] == (if i < p then list[i] else list[i - 1]) && r[j] == if j < p then list[j] else list[j - 1];
      }
    }
    forall i | 0 <= i < |r|
      ensures Filed(r[i], ranks, now)
    {
      assert r[i] == if i < p then list[i] else if i == p then e else list[i - 1];
    }
  }

  lemma RankedTail(list: seq<Entry<Tid>>, ranks: Tid -> Rank, now: nat)
    requires Ranked(list, ranks, now)
    ensures Ranked(Tail(list), ranks, now)
  {
  }

  // The same list under ranks that agree on its elements, later
  lemma RankedAlike(list: seq<Entry<Tid>>, ranks: Tid -> Rank, ranks': Tid -> Rank, now: nat, later: nat)
    requires Ranked(list, ranks, now) && now <= later
    requires forall i | 0 <= i < |list| :: ranks'(list[i].item) == ranks(list[i].item)
    ensures Ranked(list, ranks', later)
  {
    assert forall i | 0 <= i < |list| :: Filed(list[i], ranks, now);
  }

  ghost predicate PutFiled(use: Use<Tid>, ranks: Tid -> Rank, now: nat) {
    use.Put? ==> Filed(use.e, ranks, now) && ranks(use.e.item).since == now
  }

  lemma {:induction false} RankedUses(list: seq<Entry<Tid>>, uses: seq<Use<Tid>>, ranks: Tid -> Rank, now: nat)
    requires Ranked(list, ranks, now) && forall i | 0 <= i < |uses| :: PutFiled(uses[i], ranks, now)
    ensures Ranked(UsedBy(list, uses), ranks, now)
    decreases |uses|
  {
    if uses != [] {
      assert PutFiled(uses[0], ranks, now);
      match uses[0] {
        case Put(e) => RankedInsert(list, e, ranks, now);
        case Take => RankedTail(list, ranks, now);
      }
      RankedUses(Used(list, uses[0]), uses[1..], ranks, now);
    }
  }

  // Only SetPriority changes the priority of a thread that there is.
  lemma {:induction false} WakeAllPriority(k: Kernel, q: QueueId, t: Tid)
    requires t in k.threads && forall i | 0 <= i < |k.Queue(q)| :: k.Queue(q)[i].item in k.threads
    ensures t in WakeAll(k, q).threads && WakeAll(k, q).threads[t].priority == k.threads[t].priority
    decreases |k.Queue(q)|
  {
    if k.Queue(q) != [] {
      assert Wake(k, q).Queue(q) == k.Queue(q)[1..];
      WakeAllPriority(Wake(k, q), q, t);
    }
  }

  lemma PPriority(k: Kernel, s: nat, t: Tid)
    requires HeadsExist(k) && s in k.sems && t in k.threads
    ensures t in SemaphoreP(k, s).threads && SemaphoreP(k, s).threads[t].priority == k.threads[t].priority
  {
    if k.sems[s].value == 0 {
      var b := Block(k, SemQueue(s), InP(s));
      assert b.ready == k.ready && t in b.threads && b.threads[t].priority == k.threads[t].priority;
    }
  }

  lemma AcquirePriority(k: Kernel, l: nat, t: Tid)
    requires HeadsExist(k) && l in k.locks && t in k.threads
    ensures t in LockAcquire(k, l).threads && LockAcquire(k, l).threads[t].priority == k.threads[t].priority
  {
    if k.locks[l].value == 1 {
      var b := Block(k, LockQueue(l), InAcquire(l));
      assert b.ready == k.ready && t in b.threads && b.threads[t].priority == k.threads[t].priority;
    }
  }

  lemma ReleasePriority(k: Kernel, l: nat, t: Tid)
    requires k.current in k.threads && l in k.locks && t in k.threads
    requires k.Queue(LockQueue(l)) != [] ==> k.Queue(LockQueue(l))[0].item in k.threads
    ensures t in LockRelease(k, l).threads && LockRelease(k, l).threads[t].priority == k.threads[t].priority
  {
  }

  lemma WaitPriority(k: Kernel, c: nat, l: nat, t: Tid)
    requires HeadsExist(k) && k.Holds(l) && t in k.threads
    ensures t in ConditionWait(k, c, l).threads && ConditionWait(k, c, l).threads[t].priority == k.threads[t].priority
  {
    var b := Block(k, CondQueue(c), InWait(c, l));
    assert b.Queue(LockQueue(l)) == k.Queue(LockQueue(l));
    ReleasePriority(b, l, t);
  }

  lemma SynchPriority(k: Kernel, step: Step, k': Kernel, t: Tid)
    requires StepsTo(k, step, k') && t in k.threads
    requires step.P? || step.Acquire? || step.Release? || step.Wait? || step.Broadcast? || step.Resume?
    ensures t in k'.threads && k'.threads[t].priority == k.threads[t].priority
  {
    match step {
      case P(s) => PPriority(k, s, t);
      case Acquire(l) => AcquirePriority(k, l, t);
      case Release(l) => ReleasePriority(k, l, t);
      case Wait(c, l) =>
        if k.Holds(l) {
          WaitPriority(k, c, l, t);
        }
      case Broadcast(c, _) => WakeAllPriority(k, CondQueue(c), t);
      case Resume =>
        assert Known(k, k.current);
        match k.threads[k.current].pc {
          case InP(s) => PPriority(k, s, t);
          case InAcquire(l) => AcquirePriority(k, l, t);
          case InWait(_, l) => AcquirePriority(k, l, t);
        }
    }
  }

  lemma PriorityKept(k: Kernel, step: Step, k': Kernel, t: Tid)
    requires StepsTo(k, step, k') && t in k.threads && !(step.SetPriority? && step.t == t)
    ensures t in k'.threads && k'.threads[t].priority == k.threads[t].priority
  {
    if step.P? || step.Acquire? || step.Release? || step.Wait? || step.Broadcast? || step.Resume? {
      SynchPriority(k, step, k', t);
    }
  }

  // Whoever is put on the ready list in a step was not ready, and is filed under its priority.
  ghost predicate NewlyReady(k: Kernel, k': Kernel, use: Use<Tid>) {
    use.Put? ==>
      && use.e.item in k.threads && use.e.item in k'.threads && k.threads[use.e.item].status != Ready
      && use.e.key == -k'.threads[use.e.item].priority
  }

  lemma {:induction false} WakeAllUsesAt(k: Kernel, waiting: seq<Entry<Tid>>, i: nat)
    requires i < |WakeAllUses(k, waiting)|
    ensures i < |waiting| && WakeAllUses(k, waiting)[i] == Readied(k, waiting[i].item)
  {
    if i > 0 {
      WakeAllUsesAt(k, waiting[1..], i - 1);
    }
  }

  lemma SleeperReadied(k: Kernel, step: Step, k': Kernel, q: QueueId, i: nat)
    requires Inv(k) && StepsTo(k, step, k') && i < |k.Queue(q)| && !step.SetPriority?
    ensures NewlyReady(k, k', Readied(k, k.Queue(q)[i].item))
  {
    var t := k.Queue(q)[i].item;
    MemberAt(k.Queue(q), i);
    MembersSleep(k, q, t);
    PriorityKept(k, step, k', t);
  }

  lemma PutsAreNew(k: Kernel, step: Step, k': Kernel, i: nat)
    requires Inv(k) && StepsTo(k, step, k') && i < |ReadyUses(k, step)|
    ensures NewlyReady(k, k', ReadyUses(k, step)[i])
  {
    if step.Fork? || step.Yield? {
      OwnPutIsNew(k, step, k', i);
    } else if step.V? || step.Interrupt? || step.Release? || step.Wait? || step.Signal? || step.Broadcast? {
      SleepersPutIsNew(k, step, k', i);
    } else {
      OnlyTakes(k, step, i);
    }
  }

  lemma OnlyTakes(k: Kernel, step: Step, i: nat)
    requires i < |ReadyUses(k, step)| && !step.Fork? && !step.Yield? && !step.V? && !step.Interrupt? && !step.Release?
    requires !step.Wait? && !step.Signal? && !step.Broadcast?
    ensures ReadyUses(k, step)[i] == Take
  {
  }

  lemma SleepersPutIsNew(k: Kernel, step: Step, k': Kernel, i: nat)
    requires Inv(k) && StepsTo(k, step, k') && i < |ReadyUses(k, step)|
    requires step.V? || step.Interrupt? || step.Release? || step.Wait? || step.Signal? || step.Broadcast?
    ensures NewlyReady(k, k', ReadyUses(k, step)[i])
  {
    if step.Broadcast? {
      WakeAllUsesAt(k, k.Queue(CondQueue(step.c)), i);
      SleeperReadied(k, step, k', CondQueue(step.c), i);
    } else {
      var q := OneUse(k, step, i);
      WokenIsNew(k, step, k', q, ReadyUses(k, step)[i]);
    }
  }

  lemma OneUse(k: Kernel, step: Step, i: nat) returns (q: QueueId)
    requires i < |ReadyUses(k, step)|
    requires step.V? || step.Interrupt? || step.Release? || step.Wait? || step.Signal?
    ensures ReadyUses(k, step)[i] == Take ||
            (k.Queue(q) != [] && ReadyUses(k, step)[i] == Readied(k, k.Queue(q)[0].item))
  {
    match step {
      case V(s) => q := SemQueue(s);
      case Interrupt(s) => q := SemQueue(s);
      case Release(l) => q := LockQueue(l);
      case Wait(_, l) => q := LockQueue(l);
      case Signal(c, _) => q := CondQueue(c);
    }
  }

  lemma OwnPutIsNew(k: Kernel, step: Step, k': Kernel, i: nat)
    requires Inv(k) && StepsTo(k, step, k') && i < |ReadyUses(k, step)| && (step.Fork? || step.Yield?)
    ensures NewlyReady(k, k', ReadyUses(k, step)[i])
  {
    if step.Fork? {
      PriorityKept(k, step, k', step.t);
    } else {
      PriorityKept(k, step, k', k.current);
    }
  }

  lemma WokenIsNew(k: Kernel, step: Step, k': Kernel, q: QueueId, use: Use<Tid>)
    requires Inv(k) && StepsTo(k, step, k') && !step.SetPriority?
    requires use == Take || (k.Queue(q) != [] && use == Readied(k, k.Queue(q)[0].item))
    ensures NewlyReady(k, k', use)
  {
    if use != Take {
      SleeperReadied(k, step, k', q, 0);
    }
  }

  ghost function ReadyRanks(states: seq<Kernel>, n: nat): Tid -> Rank
    requires n < |states|
  {
    (t: Tid) => ReadyRank(states, n, t)
  }

  // A thread that was ready keeps its rank; one that was not has the rank of its priority now.
  lemma RankAfter(states: seq<Kernel>, n: nat, t: Tid)
    requires n + 1 < |states|
    ensures ReadyRank(states, n + 1, t) ==
            if IsReady(states[n], t) then ReadyRank(states, n, t) else Rank(PriorityOf(states[n + 1], t), n + 1)
  {
  }

  lemma ReadyListIsReady(k: Kernel, i: nat)
    requires Inv(k) && i < |k.ready|
    ensures IsReady(k, k.ready[i].item)
  {
    MemberAt(k.ready, i);
    assert OnReadyList(k, k.ready[i].item);
  }

  // One step keeps the ready list in the order of ranks.
  lemma StepRanked(states: seq<Kernel>, step: Step, n: nat)
    requires n + 1 < |states| && Inv(states[n]) && StepsTo(states[n], step, states[n + 1])
    requires Ranked(states[n].ready, ReadyRanks(states, n), n)
    ensures Ranked(states[n].ready, ReadyRanks(states, n + 1), n + 1)
    ensures forall i | 0 <= i < |ReadyUses(states[n], step)| ::
              PutFiled(ReadyUses(states[n], step)[i], ReadyRanks(states, n + 1), n + 1)
    ensures Ranked(states[n + 1].ready, ReadyRanks(states, n + 1), n + 1)
  {
    var k, k', ranks := states[n], states[n + 1], ReadyRanks(states, n + 1);
    forall i | 0 <= i < |k.ready|
      ensures ranks(k.ready[i].item) == ReadyRanks(states, n)(k.ready[i].item)
    {
      ReadyListIsReady(k, i);
      RankAfter(states, n, k.ready[i].item);
    }
    RankedAlike(k.ready, ReadyRanks(states, n), ranks, n, n + 1);
    forall i | 0 <= i < |ReadyUses(k, step)|
      ensures PutFiled(ReadyUses(k, step)[i], ranks, n + 1)
    {
      PutRanked(states, step, n, i);
    }
    StepUses(k, step, k');
    RankedUses(k.ready, ReadyUses(k, step), ranks, n + 1);
  }

  lemma PutRanked(states: seq<Kernel>, step: Step, n: nat, i: nat)
    requires n + 1 < |states| && Inv(states[n]) && StepsTo(states[n], step, states[n + 1])
    requires i < |ReadyUses(states[n], step)|
    ensures PutFiled(ReadyUses(states[n], step)[i], ReadyRanks(states, n + 1), n + 1)
  {
    var use := ReadyUses(states[n], step)[i];
    PutsAreNew(states[n], step, states[n + 1], i);
    if use.Put? {
      RankAfter(states, n, use.e.item);
    }
  }

  lemma FirstRanked(states: seq<Kernel>, steps: seq<Step>)
    requires Run(states, steps)
    ensures Ranked(states[0].ready, ReadyRanks(states, 0), 0)
  {
  }

  lemma ReadyRanked(states: seq<Kernel>, steps: seq<Step>, n: nat)
    requires Run(states, steps) && n <= |steps|
    ensures Ranked(states[n].ready, ReadyRanks(states, n), n)
  {
    var ranked := seq(|states|, i requires 0 <= i < |states| => Ranked(states[i].ready, ReadyRanks(states, i), i));
    FirstRanked(states, steps);
    forall i | 0 <= i < |steps| && ranked[i]
      ensures ranked[i + 1]
    {
      RunKeeps(states, steps, i);
      StepRanked(states, steps[i], i);
    }
    Throughout(ranked, n);
  }

  // In every state of every run, if any thread is ready, then the one that Yield would give the CPU
  // to, or the idle CPU would take, comes before all others that are ready.
  lemma NextComesFirst(states: seq<Kernel>, steps: seq<Step>, n: nat, t: Tid)
    requires Run(states, steps) && n <= |steps| && IsReady(states[n], t)
    ensures HeadsExist(states[n]) && states[n].ready != []
    ensures IsReady(states[n], Dispatch(states[n]).current)
    ensures Before(ReadyRank(states, n, Dispatch(states[n]).current), ReadyRank(states, n, t))
    ensures ThreadYield(states[n]).current == Dispatch(states[n]).current
  {
    var k := states[n];
    RunKeeps(states, steps, n);
    InvHeadsExist(k);
    assert OnReadyList(k, t);
    var i := PlaceOf(k.ready, t);
    ReadyListIsReady(k, 0);
    ReadyRanked(states, steps, n);
  }

  lemma {:induction false} PlaceOf(list: seq<Entry<Tid>>, t: Tid) returns (i: nat)
    requires t in Members(list)
    ensures i < |list| && list[i].item == t
  {
    if list[0].item == t {
      i := 0;
    } else {
      i := PlaceOf(list[1..], t);
      i := i + 1;
    }
  }

  // The CPU is given to a thread.
  predicate Switches(k: Kernel, k': Kernel) {
    k'.current != k.current || (!k.Busy() && k'.Busy())
  }

  // What the list is when the next thread is taken off it: Wait has woken a thread before.
  function Woken(k: Kernel, step: Step): seq<Use<Tid>> {
    if step.Wait? && k.Holds(step.l) then WakeUse(k, LockQueue(step.l)) else []
  }

  ghost predicate TakenFrom(k: Kernel, step: Step, k': Kernel, list: seq<Entry<Tid>>) {
    && list != [] && k'.current == list[0].item
    && k'.ready ==
       if step.Yield? && k.current in k.threads then InsertSorted(list[1..], Ticket(k, k.current)) else list[1..]
  }

  lemma WaitTakes(k: Kernel, c: nat, l: nat, k': Kernel)
    requires HeadsExist(k) && k.Holds(l) && k' == ConditionWait(k, c, l) && k'.current != k.current
    ensures TakenFrom(k, Wait(c, l), k', UsedBy(k.ready, WakeUse(k, LockQueue(l))))
  {
    var b := Block(k, CondQueue(c), InWait(c, l));
    assert b.Queue(LockQueue(l)) == k.Queue(LockQueue(l));
    assert LockRelease(b, l).ready == UsedBy(k.ready, WakeUse(k, LockQueue(l))) by {
      if k.Queue(LockQueue(l)) != [] {
        FewUsed(k.ready, Readied(k, k.Queue(LockQueue(l))[0].item), Take);
      }
    }
  }

  lemma PTakes(k: Kernel, s: nat)
    requires HeadsExist(k) && s in k.sems && SemaphoreP(k, s).current != k.current
    ensures k.ready != [] && SemaphoreP(k, s).current == k.ready[0].item && SemaphoreP(k, s).ready == k.ready[1..]
  {
  }

  lemma AcquireTakes(k: Kernel, l: nat)
    requires HeadsExist(k) && l in k.locks && LockAcquire(k, l).current != k.current
    ensures k.ready != [] && LockAcquire(k, l).current == k.ready[0].item && LockAcquire(k, l).ready == k.ready[1..]
  {
  }

  // These do not switch.
  lemma NoSwitch(k: Kernel, step: Step, k': Kernel)
    requires StepsTo(k, step, k')
    requires step.Create? || step.Fork? || step.SetPriority? || step.V? || step.Interrupt? || step.Release? ||
             step.Signal? || step.Broadcast?
    ensures k'.current == k.current && (k'.Busy() ==> k.Busy())
  {
    match step {
      case Broadcast(c, _) => WakeAllCurrent(k, CondQueue(c));
      case _ =>
    }
  }

  lemma BlockingTakes(k: Kernel, step: Step, k': Kernel)
    requires StepsTo(k, step, k') && k'.current != k.current && (step.P? || step.Acquire? || step.Resume?)
    ensures TakenFrom(k, step, k', k.ready)
  {
    match step {
      case P(s) => PTakes(k, s);
      case Acquire(l) => AcquireTakes(k, l);
      case Resume =>
        assert Known(k, k.current);
        match k.threads[k.current].pc {
          case InP(s) => PTakes(k, s);
          case InAcquire(l) => AcquireTakes(k, l);
          case InWait(_, l) => AcquireTakes(k, l);
        }
    }
  }

  lemma YieldTakes(k: Kernel, step: Step, k': Kernel)
    requires StepsTo(k, step, k') && Switches(k, k') && (step.Yield? || step.Finish? || step.EndIdle?)
    ensures TakenFrom(k, step, k', k.ready)
  {
  }

  lemma SwitchTakes(k: Kernel, step: Step, k': Kernel)
    requires StepsTo(k, step, k') && Switches(k, k')
    ensures TakenFrom(k, step, k', UsedBy(k.ready, Woken(k, step)))
  {
    if step.P? || step.Acquire? || step.Resume? {
      BlockingTakes(k, step, k');
    } else if step.Yield? || step.Finish? || step.EndIdle? {
      YieldTakes(k, step, k');
    } else if step.Wait? {
      if k.Holds(step.l) {
        WaitTakes(k, step.c, step.l, k');
      }
    } else {
      NoSwitch(k, step, k');
    }
  }

  // In every run, whenever the CPU is given to a thread, it comes before all that are left ready, but
  // for a thread that has just yielded.
  lemma SwitchTakesFirst(states: seq<Kernel>, steps: seq<Step>, n: nat, t: Tid)
    requires Run(states, steps) && n < |steps| && Switches(states[n], states[n + 1])
    requires IsReady(states[n + 1], t) && t != states[n].current
    ensures Before(ReadyRank(states, n + 1, states[n + 1].current), ReadyRank(states, n + 1, t))
  {
    var k, k', step := states[n], states[n + 1], steps[n];
    RunKeeps(states, steps, n);
    RunKeeps(states, steps, n + 1);
    ReadyRanked(states, steps, n);
    assert StepsTo(k, step, k');
    StepRanked(states, step, n);
    SwitchTakes(k, step, k');
    var list := UsedBy(k.ready, Woken(k, step));
    WokenRanked(states, step, n);
    assert OnReadyList(k', t);
    var j := PlaceOf(k'.ready, t);
    RestOfList(k, step, k', list, j);
  }

  lemma WokenRanked(states: seq<Kernel>, step: Step, n: nat)
    requires n + 1 < |states| && Ranked(states[n].ready, ReadyRanks(states, n + 1), n + 1)
    requires forall i | 0 <= i < |ReadyUses(states[n], step)| ::
               PutFiled(ReadyUses(states[n], step)[i], ReadyRanks(states, n + 1), n + 1)
    ensures Ranked(UsedBy(states[n].ready, Woken(states[n], step)), ReadyRanks(states, n + 1), n + 1)
  {
    var woken := Woken(states[n], step);
    forall i | 0 <= i < |woken|
      ensures PutFiled(woken[i], ReadyRanks(states, n + 1), n + 1)
    {
      assert woken[i] == ReadyUses(states[n], step)[i];
    }
    RankedUses(states[n].ready, woken, ReadyRanks(states, n + 1), n + 1);
  }

  lemma RestOfList(k: Kernel, step: Step, k': Kernel, list: seq<Entry<Tid>>, j: nat)
    requires TakenFrom(k, step, k', list) && j < |k'.ready| && k'.ready[j].item != k.current
    ensures exists i :: 0 < i < |list| && list[i] == k'.ready[j]
  {
    if step.Yield? && k.current in k.threads {
      var p := InsertPlace(list[1..], Ticket(k, k.current));
      assert j != p && k'.ready[j] == if j < p then list[j + 1] else list[j];
    } else {
      assert k'.ready[j] == list[j + 1];
    }
  }

  // Without SetPriority, ranks are by the priorities that threads have.
  lemma {:induction false} RankIsPriority(states: seq<Kernel>, steps: seq<Step>, n: nat, t: Tid)
    requires Run(states, steps) && n <= |steps| && IsReady(states[n], t)
    requires forall i | 0 <= i < n :: !steps[i].SetPriority?
    ensures ReadyRank(states, n, t).priority == states[n].threads[t].priority
  {
    if n > 0 && IsReady(states[n - 1], t) {
      RankIsPriority(states, steps, n - 1, t);
      StepPriority(states, steps, n - 1, t);
    }
  }

  lemma StepPriority(states: seq<Kernel>, steps: seq<Step>, n: nat, t: Tid)
    requires Run(states, steps) && n < |steps| && t in states[n].threads && !steps[n].SetPriority?
    ensures t in states[n + 1].threads && states[n + 1].threads[t].priority == states[n].threads[t].priority
  {
    assert StepsTo(states[n], steps[n], states[n + 1]);
    PriorityKept(states[n], steps[n], states[n + 1], t);
  }

  lemma HighestPriorityRuns(states: seq<Kernel>, steps: seq<Step>, n: nat, t: Tid)
    requires Run(states, steps) && n <= |steps| && IsReady(states[n], t)
    requires forall i | 0 <= i < n :: !steps[i].SetPriority?
    ensures HeadsExist(states[n]) && states[n].ready != []
    ensures var next := Dispatch(states[n]).current;
            IsReady(states[n], next) && states[n].threads[next].priority >= states[n].threads[t].priority
  {
    NextComesFirst(states, steps, n, t);
    RankIsPriority(states, steps, n, t);
    RankIsPriority(states, steps, n, Dispatch(states[n]).current);
  }

  ghost function SleepRanks(states: seq<Kernel>, n: nat, q: QueueId): Tid -> Rank
    requires n < |states|
  {
    (t: Tid) => SleepRank(states, n, q, t)
  }

  lemma SleepRankAfter(states: seq<Kernel>, n: nat, q: QueueId, t: Tid)
    requires n + 1 < |states|
    ensures SleepRank(states, n + 1, q, t) ==
            if AsleepAt(states[n], t, q) then SleepRank(states, n, q, t)
            else Rank(PriorityOf(states[n + 1], t), n + 1)
  {
  }

  lemma SleepersAsleep(k: Kernel, q: QueueId, i: nat)
    requires Inv(k) && i < |k.Queue(q)|
    ensures AsleepAt(k, k.Queue(q)[i].item, q)
  {
    MemberAt(k.Queue(q), i);
    MembersSleep(k, q, k.Queue(q)[i].item);
  }

  lemma StepQueueRanked(states: seq<Kernel>, step: Step, n: nat, q: QueueId)
    requires n + 1 < |states| && Inv(states[n]) && StepsTo(states[n], step, states[n + 1])
    requires QueueInOrder(states, n, q)
    ensures QueueInOrder(states, n + 1, q)
  {
    var k, k', ranks := states[n], states[n + 1], SleepRanks(states, n + 1, q);
    forall i | 0 <= i < |k.Queue(q)|
      ensures ranks(k.Queue(q)[i].item) == SleepRanks(states, n, q)(k.Queue(q)[i].item)
    {
      SleepersAsleep(k, q, i);
      SleepRankAfter(states, n, q, k.Queue(q)[i].item);
    }
    RankedAlike(k.Queue(q), SleepRanks(states, n, q), ranks, n, n + 1);
    QueueAfter(k, step, k', q);
    RankedTail(k.Queue(q), ranks, n + 1);
    if SleepsAt(k, step) == Some(q) {
      SleeperFiled(states, step, n, q);
      RankedInsert(k.Queue(q), Ticket(k, k.current), ranks, n + 1);
    }
  }

  lemma SleeperFiled(states: seq<Kernel>, step: Step, n: nat, q: QueueId)
    requires n + 1 < |states| && Inv(states[n]) && StepsTo(states[n], step, states[n + 1])
    requires SleepsAt(states[n], step) == Some(q)
    ensures Filed(Ticket(states[n], states[n].current), SleepRanks(states, n + 1, q), n + 1)
    ensures SleepRank(states, n + 1, q, states[n].current).since == n + 1
  {
    var k := states[n];
    PriorityKept(k, step, states[n + 1], k.current);
    SleepRankAfter(states, n, q, k.current);
  }

  ghost predicate QueueInOrder(states: seq<Kernel>, n: nat, q: QueueId)
    requires n < |states|
  {
    Ranked(states[n].Queue(q), SleepRanks(states, n, q), n)
  }

  lemma QueueRanked(states: seq<Kernel>, steps: seq<Step>, n: nat, q: QueueId)
    requires Run(states, steps) && n <= |steps|
    ensures QueueInOrder(states, n, q)
  {
    var ranked := seq(|states|, i requires 0 <= i < |states| => QueueInOrder(states, i, q));
    FirstQueueRanked(states, steps, q);
    forall i | 0 <= i < |steps| && ranked[i]
      ensures ranked[i + 1]
    {
      QueueRankedOn(states, steps, i, q);
    }
    Throughout(ranked, n);
  }

  lemma QueueRankedOn(states: seq<Kernel>, steps: seq<Step>, n: nat, q: QueueId)
    requires Run(states, steps) && n < |steps| && QueueInOrder(states, n, q)
    ensures QueueInOrder(states, n + 1, q)
  {
    RunKeeps(states, steps, n);
    StepQueueRanked(states, steps[n], n, q);
  }

  lemma FirstQueueRanked(states: seq<Kernel>, steps: seq<Step>, q: QueueId)
    requires Run(states, steps)
    ensures QueueInOrder(states, 0, q)
  {
  }

  // In every run, a thread that is woken from a queue comes before all that sleep on there.
  lemma WokenComesFirst(states: seq<Kernel>, steps: seq<Step>, n: nat, q: QueueId, t: Tid, u: Tid)
    requires Run(states, steps) && n < |steps|
    requires AsleepAt(states[n], t, q) && !AsleepAt(states[n + 1], t, q)
    requires AsleepAt(states[n], u, q) && AsleepAt(states[n + 1], u, q)
    ensures Before(SleepRank(states, n, q, t), SleepRank(states, n, q, u))
  {
    var k, k', step := states[n], states[n + 1], steps[n];
    RunKeeps(states, steps, n);
    RunKeeps(states, steps, n + 1);
    assert StepsTo(k, step, k');
    WokenIsHead(k, step, k', q, t, u);
    QueueRanked(states, steps, n, q);
    MembersSleep(k, q, u);
    var i := PlaceOf(k.Queue(q), u);
  }

  lemma WokenIsHead(k: Kernel, step: Step, k': Kernel, q: QueueId, t: Tid, u: Tid)
    requires Inv(k) && Inv(k') && StepsTo(k, step, k')
    requires AsleepAt(k, t, q) && !AsleepAt(k', t, q) && AsleepAt(k', u, q)
    ensures k.Queue(q) != [] && t == k.Queue(q)[0].item
  {
    if WakesAllAt(k, step) == Some(q) {
      WakesAll(k, step, k', q, u);
    } else if WakesAt(k, step) == Some(q) {
      QueueAfter(k, step, k', q);
      HeadWakes(k, k', q, t);
    } else {
      OthersSleepOn(k, step, k', q, t);
    }
  }
}
