// Whale of threads/synch.cc: males, females and matchmakers leave in threes, as a step machine.
// Any thread may be stopped between any two statements; the lock has one owner at a time.
module Whale {
  import opened Basics

  datatype Role = Male | Female | Matchmaker

  // One number for each role.
  datatype Three = Three(male: int, female: int, matchmaker: int) {
    function Of(r: Role): int {
      match r
      case Male => male
      case Female => female
      case Matchmaker => matchmaker
    }

    function Add(r: Role, n: int): Three {
      match r
      case Male => this.(male := male + n)
      case Female => this.(female := female + n)
      case Matchmaker => this.(matchmaker := matchmaker + n)
    }
  }

  // Where a thread is in Male, Female or Matchmaker.
  datatype Pc =
    | Outside
    | Entering(r: Role)             // in whaleLock->Acquire()
    | Arriving(r: Role)             // has the lock, about to count itself
    | Testing(r: Role)              // at the loop's test
    | Asleep(r: Role)               // waiting on the condition of its role
    | Woken(r: Role)                // signalled, in the Acquire of Wait
    | Marking(r: Role)              // about to mark its role as present
    | Pairing(r: Role)              // about to check for a complete match
    | Signalling(r: Role, next: Role)
    | Leaving(r: Role)              // about to release the lock
  {
    predicate HasLock() {
      Arriving? || Testing? || Marking? || Pairing? || Signalling? || Leaving?
    }

    // Counted, but not yet through the loop.
    predicate InLoop(role: Role) {
      (Testing? || Asleep? || Woken? || Marking?) && r == role
    }
  }

  // The fields of the whale, with the arrivals and departures of each role and the rounds so far.
  datatype State = State(
    waiting: Three, present: Three,
    owner: Option<Tid>, pcs: map<Tid, Pc>,
    arrivals: Three, departures: Three, rounds: int)

  function At(s: State, t: Tid): Pc {
    if t in s.pcs then s.pcs[t] else Outside
  }

  datatype Step =
    | Call(t: Tid, r: Role)
    | Acquire(t: Tid)
    | Go(t: Tid)                    // the next statement under the lock
    | Signal(t: Tid, wake: Option<Tid>)

  ghost predicate Enabled(s: State, step: Step) {
    match step
    case Call(t, _) => At(s, t).Outside?
    case Acquire(t) => s.owner == None && (At(s, t).Entering? || At(s, t).Woken?)
    case Go(t) => s.owner == Some(t) && !At(s, t).Signalling?
    case Signal(t, wake) =>
      && s.owner == Some(t) && At(s, t).Signalling?
      && (wake.Some? ==> At(s, wake.value) == Asleep(At(s, t).next))
      && (wake == None ==> forall u :: At(s, u) != Asleep(At(s, t).next))
  }

  function Move(s: State, t: Tid, pc: Pc): State {
    s.(pcs := s.pcs[t := pc])
  }

  predicate MustWait(s: State, r: Role) {
    (exists other: Role | other != r :: s.waiting.Of(other) < 1) || s.present.Of(r) == 1
  }

  // One statement of the thread that has the lock.
  function Go1(s: State, t: Tid): State {
    match At(s, t)
    case Arriving(r) => Move(s, t, Testing(r)).(waiting := s.waiting.Add(r, 1), arrivals := s.arrivals.Add(r, 1))
    case Testing(r) => if MustWait(s, r) then Move(s, t, Asleep(r)).(owner := None) else Move(s, t, Marking(r))
    case Marking(r) =>
      Move(s, t, Pairing(r)).
        (present := s.present.Add(r, 1 - s.present.Of(r)), departures := s.departures.Add(r, 1))
    case Pairing(r) =>
      if s.present == Three(1, 1, 1) then
        Move(s, t, Signalling(r, Male)).
          (waiting := Three(s.waiting.male - 1, s.waiting.female - 1, s.waiting.matchmaker - 1),
           present := Three(0, 0, 0), rounds := s.rounds + 1)
      else Move(s, t, Signalling(r, Male))
    case Leaving(_) => Move(s, t, Outside).(owner := None)
    case _ => s
  }

  function AfterSignal(pc: Pc): Pc {
    if !pc.Signalling? then pc
    else match pc.next
      case Male => Signalling(pc.r, Female)
      case Female => Signalling(pc.r, Matchmaker)
      case Matchmaker => Leaving(pc.r)
  }

  function Entered(pc: Pc): Pc {
    match pc
    case Entering(r) => Arriving(r)
    case Woken(r) => Testing(r)
    case _ => pc
  }

  function Apply(s: State, step: Step): State {
    match step
    case Call(t, r) => Move(s, t, Entering(r))
    case Acquire(t) =>
      Move(s, t, Entered(At(s, t))).(owner := Some(t))
    case Go(t) => Go1(s, t)
    case Signal(t, wake) =>
      Move(if wake.Some? && At(s, wake.value).Asleep? then Move(s, wake.value, Woken(At(s, wake.value).r)) else s,
           t, AfterSignal(At(s, t)))
  }

  ghost function InLoop(s: State, r: Role): set<Tid> {
    set t | t in s.pcs && s.pcs[t].InLoop(r)
  }

  ghost predicate OwnerOk(s: State) {
    forall t: Tid :: s.owner == Some(t) <==> At(s, t).HasLock()
  }

  // The books of one role: those who have arrived have left or are in the loop, and each round has
  // let one of them through.
  ghost predicate Counted(s: State, r: Role) {
    && (s.present.Of(r) == 0 || s.present.Of(r) == 1)
    && s.waiting.Of(r) == s.arrivals.Of(r) - s.rounds
    && s.departures.Of(r) == s.rounds + s.present.Of(r)
    && |InLoop(s, r)| == s.arrivals.Of(r) - s.departures.Of(r)
  }

  // Somebody of a role is present, or about to be, only when all roles wait.
  ghost predicate Complete(s: State) {
    forall r: Role | s.present.Of(r) == 1 || (s.owner.Some? && At(s, s.owner.value) == Marking(r)) ::
      && (s.owner.Some? && At(s, s.owner.value) == Marking(r) ==> s.present.Of(r) != 1)
      && forall other: Role :: s.waiting.Of(other) >= 1
  }

  ghost predicate Inv(s: State) {
    OwnerOk(s) && (forall r: Role :: Counted(s, r)) && Complete(s)
  }

  lemma OwnerKept(s: State, step: Step)
    requires OwnerOk(s) && Enabled(s, step)
    ensures OwnerOk(Apply(s, step))
  {
  }

  // A step changes who is in the loop only where a thread arrives or marks itself.
  lemma LoopAfter(s: State, step: Step, r: Role)
    requires OwnerOk(s) && Enabled(s, step)
    ensures var pc, after := At(s, step.t), InLoop(Apply(s, step), r);
            if step.Go? && pc == Arriving(r) then after == InLoop(s, r) + {step.t} && step.t !in InLoop(s, r)
            else if step.Go? && pc == Marking(r) then after == InLoop(s, r) - {step.t} && step.t in InLoop(s, r)
            else after == InLoop(s, r)
  {
    forall t {
      LoopAt(s, step, r, t);
    }
  }

  lemma LoopAt(s: State, step: Step, r: Role, t: Tid)
    requires OwnerOk(s) && Enabled(s, step)
    ensures t in InLoop(s, r) <==> At(s, t).InLoop(r)
    ensures t in InLoop(Apply(s, step), r) <==> At(Apply(s, step), t).InLoop(r)
    ensures t != step.t ==> At(Apply(s, step), t).InLoop(r) == At(s, t).InLoop(r)
  {
  }

  lemma CountedKept(s: State, step: Step, r: Role)
    requires OwnerOk(s) && Complete(s) && (forall r0: Role :: Counted(s, r0)) && Enabled(s, step)
    ensures Counted(Apply(s, step), r)
  {
    LoopAfter(s, step, r);
    assert Counted(s, r);
    if !step.Go? {
      SameBooks(s, step);
    } else {
      var pc := At(s, step.t);
      match pc {
        case Arriving(_) => ArrivalCounted(s, step.t, r);
        case Marking(_) => DepartureCounted(s, step.t, r);
        case Pairing(_) => RoundCounted(s, step.t, r);
        case _ => SameBooks(s, step);
      }
    }
  }

  // All other steps leave the books alone.
  lemma SameBooks(s: State, step: Step)
    requires Enabled(s, step)
    requires step.Go? ==> !At(s, step.t).Arriving? && !At(s, step.t).Marking? && !At(s, step.t).Pairing?
    ensures var s' := Apply(s, step);
            && s'.waiting == s.waiting && s'.present == s.present && s'.arrivals == s.arrivals
            && s'.departures == s.departures && s'.rounds == s.rounds
  {
  }

  lemma RoundCounted(s: State, t: Tid, r: Role)
    requires Counted(s, r) && At(s, t).Pairing? && InLoop(Go1(s, t), r) == InLoop(s, r)
    ensures Counted(Go1(s, t), r)
  {
  }

  lemma ArrivalCounted(s: State, t: Tid, r: Role)
    requires Counted(s, r) && At(s, t).Arriving?
    requires InLoop(Go1(s, t), r) == if At(s, t).r == r then InLoop(s, r) + {t} else InLoop(s, r)
    requires At(s, t).r == r ==> t !in InLoop(s, r)
    ensures Counted(Go1(s, t), r)
  {
  }

  lemma DepartureCounted(s: State, t: Tid, r: Role)
    requires Counted(s, r) && At(s, t).Marking? && (At(s, t).r == r ==> s.present.Of(r) == 0)
    requires InLoop(Go1(s, t), r) == if At(s, t).r == r then InLoop(s, r) - {t} else InLoop(s, r)
    requires At(s, t).r == r ==> t in InLoop(s, r)
    ensures Counted(Go1(s, t), r)
  {
  }

  lemma CompleteKept(s: State, step: Step)
    requires Inv(s) && Enabled(s, step)
    ensures Complete(Apply(s, step))
  {
    var pc := At(s, step.t);
    if pc.Testing? {
      assert step.t in InLoop(s, pc.r) && Counted(s, pc.r);
    }
    assert Counted(s, Male) && Counted(s, Female) && Counted(s, Matchmaker);
  }

  lemma StepKeeps(s: State, step: Step)
    requires Inv(s) && Enabled(s, step)
    ensures Inv(Apply(s, step))
  {
    OwnerKept(s, step);
    forall r: Role
      ensures Counted(Apply(s, step), r)
    {
      CountedKept(s, step, r);
    }
    CompleteKept(s, step);
  }

  ghost predicate Run(states: seq<State>, steps: seq<Step>) {
    && |states| == |steps| + 1
    && states[0] == State(Three(0, 0, 0), Three(0, 0, 0), None, map[], Three(0, 0, 0), Three(0, 0, 0), 0)
    && forall i | 0 <= i < |steps| :: Enabled(states[i], steps[i]) && states[i + 1] == Apply(states[i], steps[i])
  }

  lemma {:induction false} RunKeeps(states: seq<State>, steps: seq<Step>, n: nat)
    requires Run(states, steps) && n <= |steps|
    ensures Inv(states[n])
  {
    if n > 0 {
      RunKeeps(states, steps, n - 1);
      StepKeeps(states[n - 1], steps[n - 1]);
    }
  }

  // The departures of two roles differ by one at most and exceed the arrivals of no role.
  lemma LeaveInThrees(s: State, a: Role, b: Role)
    requires Inv(s)
    ensures -1 <= s.departures.Of(a) - s.departures.Of(b) <= 1
    ensures s.departures.Of(a) <= s.arrivals.Of(b)
  {
    assert Counted(s, a) && Counted(s, b);
  }
}
