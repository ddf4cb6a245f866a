// threads/synchlist.cc: a list that threads append to and remove from under a lock, as a step
// machine. Any thread may be stopped between any two statements; the lock has one owner at a time.
module SynchList {
  import opened Basics

  // Where a thread is in Append or Remove.
  datatype Pc<T> =
    | Outside
    | Appending(item: T)      // in lock->Acquire()
    | MayAppend(item: T)      // has the lock
    | Appended                // about to signal
    | Removing                // in lock->Acquire()
    | MayRemove               // has the lock, about to look at the list
    | Asleep                  // in listEmpty->Wait(), not signalled
    | Woken                   // signalled, in the Acquire of Wait
    | Leaving                 // about to release the lock

  datatype State<T> = State(list: seq<T>, owner: Option<Tid>, pcs: map<Tid, Pc<T>>, put: seq<T>, taken: seq<T>)

  function At<T>(s: State<T>, t: Tid): Pc<T> {
    if t in s.pcs then s.pcs[t] else Outside
  }

  predicate HasLock<T>(pc: Pc<T>) {
    pc.MayAppend? || pc.Appended? || pc.MayRemove? || pc.Leaving?
  }

  datatype Step<T> =
    | CallAppend(t: Tid, item: T)
    | CallRemove(t: Tid)
    | Acquire(t: Tid)
    | Append(t: Tid)
    | Signal(t: Tid, wake: Option<Tid>)
    | Look(t: Tid)
    | Release(t: Tid)

  ghost predicate Enabled<T(!new)>(s: State<T>, step: Step<T>) {
    match step
    case CallAppend(t, _) => At(s, t) == Outside
    case CallRemove(t) => At(s, t) == Outside
    case Acquire(t) => s.owner == None && (At(s, t).Appending? || At(s, t).Removing? || At(s, t).Woken?)
    case Append(t) => s.owner == Some(t) && At(s, t).MayAppend?
    case Signal(t, wake) =>
      && s.owner == Some(t) && At(s, t).Appended?
      && if wake.Some? then At(s, wake.value).Asleep? else forall u :: !At(s, u).Asleep?
    case Look(t) => s.owner == Some(t) && At(s, t).MayRemove?
    case Release(t) => s.owner == Some(t) && At(s, t).Leaving?
  }

  function Move<T>(s: State<T>, t: Tid, pc: Pc<T>): State<T> {
    s.(pcs := s.pcs[t := pc])
  }

  function Apply<T>(s: State<T>, step: Step<T>): State<T> {
    match step
    case CallAppend(t, item) => Move(s, t, Appending(item))
    case CallRemove(t) => Move(s, t, Removing)
    case Acquire(t) =>
      Move(s, t, if At(s, t).Appending? then MayAppend(At(s, t).item) else MayRemove).(owner := Some(t))
    case Append(t) =>
      if At(s, t).MayAppend?
      then Move(s, t, Appended).(list := s.list + [At(s, t).item], put := s.put + [At(s, t).item])
      else s
    case Signal(t, wake) => Move(if wake.Some? then Move(s, wake.value, Woken) else s, t, Leaving)
    case Look(t) =>
      if s.list == [] then Move(s, t, Asleep).(owner := None) // Wait releases the lock
      else Move(s, t, Leaving).(list := s.list[1..], taken := s.taken + [s.list[0]])
    case Release(t) => Move(s, t, Outside).(owner := None)
  }

  // The removers that are going to look at the list without having to be signalled again.
  ghost function OnTheWay<T>(s: State<T>): set<Tid> {
    set t | t in s.pcs && (s.pcs[t].Woken? || s.pcs[t].MayRemove?)
  }

  // One more signal is about to be given.
  ghost function Owed<T>(s: State<T>): nat {
    if s.owner.Some? && At(s, s.owner.value).Appended? then 1 else 0
  }

  // The owner of the lock is the thread that is between Acquire and Release or Wait.
  ghost predicate OwnerOk<T(!new)>(s: State<T>) {
    forall t: Tid :: s.owner == Some(t) <==> HasLock(At(s, t))
  }

  // Nothing is lost and nothing overtakes: what was put is what was taken, then what is there.
  ghost predicate ListOk<T>(s: State<T>) {
    s.put == s.taken + s.list
  }

  // While a remover sleeps, every element has a woken remover, or a signal about to be given.
  ghost predicate SleeperOk<T>(s: State<T>, t: Tid) {
    At(s, t).Asleep? ==> |s.list| <= |OnTheWay(s)| + Owed(s)
  }

  ghost predicate Inv<T(!new)>(s: State<T>) {
    OwnerOk(s) && ListOk(s) && forall t :: SleeperOk(s, t)
  }

  lemma OwnerKept<T(!new)>(s: State<T>, step: Step<T>)
    requires OwnerOk(s) && Enabled(s, step)
    ensures OwnerOk(Apply(s, step))
  {
  }

  // How a step changes who is on the way, and how many.
  lemma OnTheWayAfter<T(!new)>(s: State<T>, step: Step<T>)
    requires OwnerOk(s) && Enabled(s, step)
    ensures OnTheWay(s) - (if step.Look? then {step.t} else {}) <= OnTheWay(Apply(s, step))
    ensures step.Signal? && step.wake.Some? ==>
              step.wake.value !in OnTheWay(s) && step.wake.value in OnTheWay(Apply(s, step))
  {
    var s' := Apply(s, step);
    forall t | t in OnTheWay(s) && !(step.Look? && t == step.t)
      ensures t in OnTheWay(s')
    {
    }
  }

  lemma CountAfter<T(!new)>(s: State<T>, step: Step<T>)
    requires OwnerOk(s) && Enabled(s, step)
    ensures |OnTheWay(Apply(s, step))| >=
            |OnTheWay(s)| + match step
                            case Signal(_, wake) => (if wake.Some? then 1 else 0)
                            case Look(_) => -1
                            case _ => 0
  {
    var a, b := OnTheWay(s), OnTheWay(Apply(s, step));
    OnTheWayAfter(s, step);
    if step.Look? {
      LargerSet(a - {step.t}, b);
      LargerSet(a, a - {step.t} + {step.t});
    } else if step.Signal? && step.wake.Some? {
      LargerSet(a + {step.wake.value}, b);
    } else {
      LargerSet(a, b);
    }
  }

  lemma LargerSet(a: set<Tid>, b: set<Tid>)
    requires a <= b
    ensures |a| <= |b|
  {
    assert b == a + (b - a);
  }

  lemma SleeperKept<T(!new)>(s: State<T>, step: Step<T>, t: Tid)
    requires OwnerOk(s) && Enabled(s, step) && forall u :: SleeperOk(s, u)
    ensures SleeperOk(Apply(s, step), t)
  {
    CountAfter(s, step);
    assert SleeperOk(s, t);
  }

  lemma StepKeeps<T(!new)>(s: State<T>, step: Step<T>)
    requires Inv(s) && Enabled(s, step)
    ensures Inv(Apply(s, step))
  {
    OwnerKept(s, step);
    forall t {
      SleeperKept(s, step, t);
    }
  }

  ghost predicate Run<T(!new)>(states: seq<State<T>>, steps: seq<Step<T>>) {
    && |states| == |steps| + 1 && states[0] == State([], None, map[], [], [])
    && forall i | 0 <= i < |steps| :: Enabled(states[i], steps[i]) && states[i + 1] == Apply(states[i], steps[i])
  }

  lemma {:induction false} RunKeeps<T(!new)>(states: seq<State<T>>, steps: seq<Step<T>>, n: nat)
    requires Run(states, steps) && n <= |steps|
    ensures Inv(states[n])
  {
    if n > 0 {
      RunKeeps(states, steps, n - 1);
      StepKeeps(states[n - 1], steps[n - 1]);
    }
  }

  // When every thread is outside or asleep and some remover sleeps, there is nothing to remove.
  lemma NobodyStranded<T(!new)>(s: State<T>, t: Tid)
    requires Inv(s) && At(s, t).Asleep? && forall u :: At(s, u).Outside? || At(s, u).Asleep?
    ensures s.list == [] && s.put == s.taken
  {
    assert SleeperOk(s, t);
    assert forall u | u in s.pcs :: At(s, u) == s.pcs[u];
    assert OnTheWay(s) == {};
  }
}
