// Join and the joinable branch of Finish in threads/thread.cc: one thread waits for another, as a
// step machine. Either may be stopped between any two statements.
module Join {
  datatype Who = Joiner | Joinee | Nobody

  // Where the joiner is: its call of Join, statement by statement.
  datatype JoinPc =
    | NotCalled
    | JoinEntering    // in joinLock->Acquire()
    | SetGo           // has the lock, about to set go
    | JoinSignal      // about to signal
    | JoinWait        // about to wait
    | JoinAsleep
    | JoinWoken       // signalled, in the Acquire of Wait
    | JoinSignalAgain
    | JoinLeaving     // about to release the lock
    | Returned

  // Where the joinee is: its own code, then Finish.
  datatype FinishPc =
    | Working
    | FinishEntering  // in joinLock->Acquire()
    | TestGo          // has the lock, at the loop's test
    | LoopSignal
    | LoopWait
    | LoopAsleep
    | LoopWoken       // signalled, in the Acquire of Wait
    | LoopSignalAgain
    | LastWait        // past the loop
    | LastAsleep
    | LastWoken
    | FinishLeaving   // about to release the lock
    | Gone            // past its last Wait and Release

  // first is the thread that got the lock first.
  datatype State = State(join: JoinPc, finish: FinishPc, owner: Who, go: bool, first: Who)

  predicate CanJoin(s: State) {
    match s.join
    case JoinEntering => s.owner == Nobody
    case JoinWoken => s.owner == Nobody
    case JoinAsleep => false
    case Returned => false
    case _ => true
  }

  predicate CanFinish(s: State) {
    match s.finish
    case FinishEntering => s.owner == Nobody
    case LoopWoken => s.owner == Nobody
    case LastWoken => s.owner == Nobody
    case LoopAsleep => false
    case LastAsleep => false
    case Gone => false
    case _ => true
  }

  // Signal wakes the other thread if it waits on the condition.
  function SignalJoinee(s: State): State {
    if s.finish == LoopAsleep then s.(finish := LoopWoken)
    else if s.finish == LastAsleep then s.(finish := LastWoken)
    else s
  }

  function SignalJoiner(s: State): State {
    if s.join == JoinAsleep then s.(join := JoinWoken) else s
  }

  function First(s: State, who: Who): Who {
    if s.first == Nobody then who else s.first
  }

  function StepJoin(s: State): State {
    match s.join
    case NotCalled => s.(join := JoinEntering)
    case JoinEntering => s.(join := SetGo, owner := Joiner, first := First(s, Joiner))
    case SetGo => s.(join := JoinSignal, go := true)
    case JoinSignal => SignalJoinee(s).(join := JoinWait)
    case JoinWait => s.(join := JoinAsleep, owner := Nobody)
    case JoinWoken => s.(join := JoinSignalAgain, owner := Joiner)
    case JoinSignalAgain => SignalJoinee(s).(join := JoinLeaving)
    case JoinLeaving => s.(join := Returned, owner := Nobody)
    case _ => s
  }

  function StepFinish(s: State): State {
    match s.finish
    case Working => s.(finish := FinishEntering)
    case FinishEntering => s.(finish := TestGo, owner := Joinee, first := First(s, Joinee))
    case TestGo => s.(finish := if s.go then LastWait else LoopSignal)
    case LoopSignal => SignalJoiner(s).(finish := LoopWait)
    case LoopWait => s.(finish := LoopAsleep, owner := Nobody)
    case LoopWoken => s.(finish := LoopSignalAgain, owner := Joinee)
    case LoopSignalAgain => SignalJoiner(s).(finish := TestGo)
    case LastWait => s.(finish := LastAsleep, owner := Nobody)
    case LastWoken => s.(finish := FinishLeaving, owner := Joinee)
    case FinishLeaving => s.(finish := Gone, owner := Nobody)
    case _ => s
  }

  ghost predicate Step(s: State, s': State) {
    (CanJoin(s) && s' == StepJoin(s)) || (CanFinish(s) && s' == StepFinish(s))
  }

  predicate JoinHolds(pc: JoinPc) {
    pc.SetGo? || pc.JoinSignal? || pc.JoinWait? || pc.JoinSignalAgain? || pc.JoinLeaving?
  }

  predicate FinishHolds(pc: FinishPc) {
    pc.TestGo? || pc.LoopSignal? || pc.LoopWait? || pc.LoopSignalAgain? || pc.LastWait? || pc.FinishLeaving?
  }

  predicate JoinSleepsOrBefore(pc: JoinPc) {
    pc.NotCalled? || pc.JoinEntering? || pc.SetGo? || pc.JoinSignal? || pc.JoinWait? || pc.JoinAsleep?
  }

  predicate PastJoinWait(pc: JoinPc) {
    pc.JoinSignalAgain? || pc.JoinLeaving? || pc.Returned?
  }

  predicate PastLastWait(pc: FinishPc) {
    pc.FinishLeaving? || pc.Gone?
  }

  // Which pairs of positions occur: before the lock has been taken, after the joiner came first,
  // and after the joinee came first.
  ghost predicate Reached(s: State) {
    match s.first
    case Nobody => !s.go && s.join in {NotCalled, JoinEntering} && s.finish in {Working, FinishEntering}
    case Joiner =>
      && !s.join.NotCalled? && !s.join.JoinEntering? && (s.go <==> !s.join.SetGo?) && JoinSleepsOrBefore(s.join)
      && (s.finish in {Working, FinishEntering} ||
          (s.finish in {TestGo, LastWait, LastAsleep} && s.join == JoinAsleep))
    case Joinee =>
      && s.finish != Working && s.finish != FinishEntering
      && (!s.go ==>
            s.join in {NotCalled, JoinEntering, SetGo} && s.finish in {TestGo, LoopSignal, LoopWait, LoopAsleep})
      && (s.go ==> !s.join.NotCalled? && !s.join.JoinEntering? && !s.join.SetGo?)
      && (s.join.SetGo? ==> s.finish == LoopAsleep)
      && (s.join.JoinSignal? ==> s.finish == LoopAsleep)
      && (s.join.JoinWait? ==> s.finish == LoopWoken)
      && (s.join.JoinAsleep? ==> s.finish in {LoopWoken, LoopSignalAgain})
      && (s.join.JoinWoken? ==> s.finish in {TestGo, LastWait, LastAsleep})
      && (s.join.JoinSignalAgain? ==> s.finish == LastAsleep)
      && (s.join.JoinLeaving? ==> s.finish == LastWoken)
      && (s.join.Returned? ==> s.finish in {LastWoken, FinishLeaving, Gone})
  }

  ghost predicate Inv(s: State) {
    && Reached(s)
    && (s.owner == Joiner <==> JoinHolds(s.join))
    && (s.owner == Joinee <==> FinishHolds(s.finish))
  }

  lemma StepKeeps(s: State, s': State)
    requires Inv(s) && Step(s, s')
    ensures Inv(s')
  {
  }

  // Join does not return before the joinee has entered Finish, and the joinee does not get past
  // its last Wait before the joiner has woken from its own.
  lemma Handshake(s: State)
    requires Inv(s)
    ensures s.join == Returned ==> s.finish != Working
    ensures PastLastWait(s.finish) ==> PastJoinWait(s.join)
  {
  }

  // How many steps are left at most.
  function JoinLeft(pc: JoinPc): nat {
    match pc
    case NotCalled => 9
    case JoinEntering => 8
    case SetGo => 7
    case JoinSignal => 6
    case JoinWait => 5
    case JoinAsleep => 4
    case JoinWoken => 3
    case JoinSignalAgain => 2
    case JoinLeaving => 1
    case Returned => 0
  }

  function FinishLeft(pc: FinishPc, go: bool): nat {
    match pc
    case Working => 13
    case FinishEntering => 12
    case TestGo => if go then 5 else 11
    case LoopSignal => 10
    case LoopWait => 9
    case LoopAsleep => 8
    case LoopWoken => 7
    case LoopSignalAgain => 6
    case LastWait => 4
    case LastAsleep => 3
    case LastWoken => 2
    case FinishLeaving => 1
    case Gone => 0
  }

  function Left(s: State): nat {
    JoinLeft(s.join) + FinishLeft(s.finish, s.go)
  }

  lemma StepDescends(s: State, s': State)
    requires Inv(s) && Step(s, s')
    ensures Left(s') < Left(s)
  {
  }

  // The handshake completes exactly if the joinee gets the lock first. If the joiner does, both
  // sleep for ever: Finish then waits without having signalled.
  lemma CompletesIffJoineeFirst(s: State)
    requires Inv(s) && !CanJoin(s) && !CanFinish(s)
    ensures s.join == Returned && s.finish == Gone <==> s.first == Joinee
    ensures s.first != Joinee ==> s.first == Joiner && s.join == JoinAsleep && s.finish == LastAsleep
  {
  }

  const START := State(NotCalled, Working, Nobody, false, Nobody)

  ghost predicate Run(states: seq<State>) {
    states != [] && states[0] == START && forall i | 0 <= i < |states| - 1 :: Step(states[i], states[i + 1])
  }

  // Every run ends after 22 steps at most.
  lemma {:induction false} RunKeeps(states: seq<State>, n: nat)
    requires Run(states) && n < |states|
    ensures Inv(states[n]) && n + Left(states[n]) <= 22
  {
    if n > 0 {
      RunKeeps(states, n - 1);
      StepKeeps(states[n - 1], states[n]);
      StepDescends(states[n - 1], states[n]);
    }
  }

  // The run in which the joiner comes first, statement by statement.
  lemma JoinerFirstDeadlocks()
    ensures exists states: seq<State>, n: nat ::
              Run(states) && n == |states| - 1 && !CanJoin(states[n]) && !CanFinish(states[n]) &&
                states[n].join == JoinAsleep
  {
    var a0 := START;
    var a1 := StepJoin(a0);
    var a2 := StepJoin(a1);
    var a3 := StepJoin(a2);
    var a4 := StepJoin(a3);
    var a5 := StepJoin(a4);
    var b1 := StepFinish(a5);
    var b2 := StepFinish(b1);
    var b3 := StepFinish(b2);
    var b4 := StepFinish(b3);
    var states := [a0, a1, a2, a3, a4, a5, b1, b2, b3, b4];
    assert Run(states) && !CanJoin(states[9]) && !CanFinish(states[9]) && states[9].join == JoinAsleep;
  }
}
