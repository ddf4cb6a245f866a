// The value of a semaphore in any run, told from the steps of the run alone: what it started with,
// one more for each V, from a thread or a handler, and one less for each P that has been passed.
module SemaphoreCounts {
  import opened Kernel
  import opened Synch
  import opened Threads

  function Value(k: Kernel, s: nat): int {
    if s in k.sems then k.sems[s].value else 0
  }

  predicate Ups(step: Step, s: nat) {
    step == V(s) || step == Interrupt(s)
  }

  // A thread was in P, or called it, and is back in its own code.
  predicate Passes(k: Kernel, step: Step, k': Kernel, s: nat) {
    && k.current in k.threads && k.current in k'.threads
    && (step == P(s) || (step == Resume && k.threads[k.current].pc == InP(s)))
    && k'.threads[k.current].pc == Outside
  }

  lemma AfterP(k: Kernel, s: nat, s0: nat)
    requires HeadsExist(k) && s in k.sems
    ensures var k' := SemaphoreP(k, s);
            && k.current in k'.threads
            && Value(k', s0) == Value(k, s0) - if s0 == s && k'.threads[k.current].pc == Outside then 1 else 0
  {
    if k.sems[s].value == 0 {
      var b := Block(k, SemQueue(s), InP(s));
      assert Reschedule(b).threads[k.current].pc == b.threads[k.current].pc == InP(s);
    }
  }

  lemma AfterV(k: Kernel, s: nat, s0: nat)
    requires HeadsExist(k) && s in k.sems
    ensures Value(SemaphoreV(k, s), s0) == Value(k, s0) + if s0 == s then 1 else 0
  {
  }

  lemma {:induction false} WakeAllSems(k: Kernel, q: QueueId)
    requires forall i | 0 <= i < |k.Queue(q)| :: k.Queue(q)[i].item in k.threads
    ensures WakeAll(k, q).sems == k.sems
    decreases |k.Queue(q)|
  {
    if k.Queue(q) != [] {
      assert Wake(k, q).Queue(q) == k.Queue(q)[1..];
      WakeAllSems(Wake(k, q), q);
    }
  }

  lemma LockSems(k: Kernel, c: nat, l: nat)
    requires HeadsExist(k)
    ensures l in k.locks ==> LockAcquire(k, l).sems == k.sems && LockRelease(k, l).sems == k.sems
    ensures ConditionWait(k, c, l).sems == k.sems
  {
  }

  lemma SemsKept(k: Kernel, step: Step, k': Kernel)
    requires StepsTo(k, step, k') && !step.P? && !step.V? && !step.Interrupt? && !step.Resume?
    ensures k'.sems == k.sems
  {
    match step {
      case Acquire(l) => LockSems(k, 0, l);
      case Release(l) => LockSems(k, 0, l);
      case Wait(c, l) => LockSems(k, c, l);
      case Broadcast(c, _) => WakeAllSems(k, CondQueue(c));
      case _ =>
    }
  }

  // How one step changes the value
  ghost predicate Counted(k: Kernel, step: Step, k': Kernel, s: nat) {
    Value(k', s) == Value(k, s) + (if s in k.sems && Ups(step, s) then 1 else 0) -
                    if s in k.sems && Passes(k, step, k', s) then 1 else 0
  }

  lemma ResumeCounts(k: Kernel, k': Kernel, s: nat)
    requires StepsTo(k, Resume, k')
    ensures Counted(k, Resume, k', s) && k'.sems.Keys == k.sems.Keys
  {
    assert Known(k, k.current);
    match k.threads[k.current].pc {
      case InP(x) => AfterP(k, x, s);
      case InAcquire(l) => LockSems(k, 0, l);
      case InWait(_, l) => LockSems(k, 0, l);
    }
  }

  lemma PCounts(k: Kernel, x: nat, k': Kernel, s: nat)
    requires StepsTo(k, P(x), k')
    ensures Counted(k, P(x), k', s) && k'.sems.Keys == k.sems.Keys
  {
    AfterP(k, x, s);
  }

  lemma VCounts(k: Kernel, step: Step, k': Kernel, s: nat)
    requires StepsTo(k, step, k') && (step.V? || step.Interrupt?)
    ensures Counted(k, step, k', s) && k'.sems.Keys == k.sems.Keys
  {
    AfterV(k, step.s, s);
  }

  lemma OtherCounts(k: Kernel, step: Step, k': Kernel, s: nat)
    requires StepsTo(k, step, k') && !step.P? && !step.V? && !step.Interrupt? && !step.Resume?
    ensures Counted(k, step, k', s) && k'.sems.Keys == k.sems.Keys
  {
    SemsKept(k, step, k');
  }

  lemma StepCounts(k: Kernel, step: Step, k': Kernel, s: nat)
    requires StepsTo(k, step, k')
    ensures Counted(k, step, k', s) && k'.sems.Keys == k.sems.Keys
  {
    if step.P? {
      PCounts(k, step.s, k', s);
    } else if step.V? || step.Interrupt? {
      VCounts(k, step, k', s);
    } else if step.Resume? {
      ResumeCounts(k, k', s);
    } else {
      OtherCounts(k, step, k', s);
    }
  }

  // The number of Vs, and of passed Ps, in the first n steps
  function Vs(steps: seq<Step>, s: nat, n: nat): nat
    requires n <= |steps|
  {
    if n == 0 then 0 else Vs(steps, s, n - 1) + if Ups(steps[n - 1], s) then 1 else 0
  }

  function Ps(states: seq<Kernel>, steps: seq<Step>, s: nat, n: nat): nat
    requires n <= |steps| < |states|
  {
    if n == 0 then 0
    else Ps(states, steps, s, n - 1) + if Passes(states[n - 1], steps[n - 1], states[n], s) then 1 else 0
  }

  lemma {:induction false} AddsUp(states: seq<Kernel>, steps: seq<Step>, s: nat, n: nat)
    requires n <= |steps| < |states| && s in states[0].sems
    requires forall i | 0 <= i < |steps| ::
               Counted(states[i], steps[i], states[i + 1], s) && states[i + 1].sems.Keys == states[i].sems.Keys
    ensures s in states[n].sems
    ensures Value(states[n], s) == Value(states[0], s) + Vs(steps, s, n) - Ps(states, steps, s, n)
  {
    if n > 0 {
      AddsUp(states, steps, s, n - 1);
      assert Counted(states[n - 1], steps[n - 1], states[n - 1 + 1], s);
    }
  }

  lemma ValueCounts(states: seq<Kernel>, steps: seq<Step>, s: nat, n: nat)
    requires Run(states, steps) && n <= |steps| && s in states[0].sems
    ensures s in states[n].sems
    ensures states[n].sems[s].value == states[0].sems[s].initial + Vs(steps, s, n) - Ps(states, steps, s, n)
  {
    forall i | 0 <= i < |steps|
      ensures Counted(states[i], steps[i], states[i + 1], s) && states[i + 1].sems.Keys == states[i].sems.Keys
    {
      StepCounts(states[i], steps[i], states[i + 1], s);
    }
    AddsUp(states, steps, s, n);
  }
}
