// Mailbox of threads/synch.cc: messages pass one at a time through a buffer, as a step machine.
// Any thread may be stopped between any two statements; the lock has one owner at a time.
module Mailbox {
  import opened Basics

  // Where a thread is in Send or Receive.
  datatype Pc =
    | Outside
    | Sending(message: int)     // in mailLock->Acquire()
    | SendTest(message: int)    // has the lock, at the loop's test
    | SendAsleep(message: int)  // in sendWait->Wait()
    | SendWoken(message: int)   // signalled, in the Acquire of Wait
    | Copying(message: int)     // about to copy into the buffer
    | Copied(message: int)      // about to set copied
    | SendSignal                // about to signal receiveWait
    | SendLeaving               // about to release the lock
    | Receiving                 // in mailLock->Acquire()
    | Begin                     // has the lock, about to count itself
    | ReceiveSignal             // about to signal sendWait
    | ReceiveTest               // at the loop's test
    | ReceiveAsleep             // in receiveWait->Wait()
    | ReceiveWoken              // signalled, in the Acquire of Wait
    | Taking                    // about to copy from the buffer
    | Taken(message: int)       // about to clear copied
    | Cleared                   // about to decrement receiveBool
    | Leaving                   // about to release the lock
  {
    predicate HasLock() {
      SendTest? || Copying? || Copied? || SendSignal? || SendLeaving? || Begin? || ReceiveSignal? ||
      ReceiveTest? || Taking? || Taken? || Cleared? || Leaving?
    }
  }

  // The fields of the mailbox, with the messages sent and received and the Receives begun so far.
  datatype State = State(
    buff: int, copied: int, receiveBool: int,
    owner: Option<Tid>, pcs: map<Tid, Pc>,
    sent: seq<int>, received: seq<int>, begun: nat)

  function At(s: State, t: Tid): Pc {
    if t in s.pcs then s.pcs[t] else Outside
  }

  datatype Step =
    | CallSend(t: Tid, message: int)
    | CallReceive(t: Tid)
    | Acquire(t: Tid)
    | Go(t: Tid)                    // the next statement under the lock
    | Signal(t: Tid, wake: Option<Tid>)

  ghost predicate Enabled(s: State, step: Step) {
    match step
    case CallSend(t, _) => At(s, t).Outside?
    case CallReceive(t) => At(s, t).Outside?
    case Acquire(t) =>
      && s.owner == None
      && (At(s, t).Sending? || At(s, t).SendWoken? || At(s, t).Receiving? || At(s, t).ReceiveWoken?)
    case Go(t) => s.owner == Some(t) && !At(s, t).SendSignal? && !At(s, t).ReceiveSignal?
    case Signal(t, wake) =>
      && s.owner == Some(t) && (At(s, t).SendSignal? || At(s, t).ReceiveSignal?)
      && (wake.Some? ==>
            if At(s, t).SendSignal? then At(s, wake.value).ReceiveAsleep? else At(s, wake.value).SendAsleep?)
      && (wake == None ==> forall u :: if At(s, t).SendSignal? then !At(s, u).ReceiveAsleep? else !At(s, u).SendAsleep?)
  }

  function Move(s: State, t: Tid, pc: Pc): State {
    s.(pcs := s.pcs[t := pc])
  }

  function Entered(pc: Pc): Pc {
    match pc
    case Sending(m) => SendTest(m)
    case SendWoken(m) => SendTest(m)
    case Receiving => Begin
    case _ => ReceiveTest
  }

  function Roused(pc: Pc): Pc {
    if pc.SendAsleep? then SendWoken(pc.message) else ReceiveWoken
  }

  // One statement of the thread that has the lock: where it goes, and what it does to the fields.
  predicate MustWait(s: State, pc: Pc) {
    (pc.SendTest? && (s.receiveBool < 1 || s.copied == 1)) || (pc.ReceiveTest? && s.copied != 1)
  }

  function PcAfter(s: State, pc: Pc): Pc {
    match pc
    case SendTest(m) => if MustWait(s, pc) then SendAsleep(m) else Copying(m)
    case Copying(m) => Copied(m)
    case Copied(_) => SendSignal
    case Begin => ReceiveSignal
    case ReceiveTest => if MustWait(s, pc) then ReceiveAsleep else Taking
    case Taking => Taken(s.buff)
    case Taken(_) => Cleared
    case Cleared => Leaving
    case Leaving => Outside
    case SendLeaving => Outside
    case _ => pc
  }

  function CopiedAfter(s: State, pc: Pc): int {
    if pc.Copied? then 1 else if pc.Taken? then 0 else s.copied
  }

  function ReceiveBoolAfter(s: State, pc: Pc): int {
    if pc.Begin? then s.receiveBool + 1 else if pc.Cleared? then s.receiveBool - 1 else s.receiveBool
  }

  function OwnerAfter(s: State, pc: Pc): Option<Tid> {
    if pc.Leaving? || pc.SendLeaving? || MustWait(s, pc) then None else s.owner
  }

  function Go1(s: State, t: Tid): State {
    var pc := At(s, t);
    State(
      if pc.Copying? then pc.message else s.buff,
      CopiedAfter(s, pc), ReceiveBoolAfter(s, pc), OwnerAfter(s, pc), s.pcs[t := PcAfter(s, pc)],
      if pc.Copied? then s.sent + [pc.message] else s.sent,
      if pc.Taken? then s.received + [pc.message] else s.received,
      if pc.Begin? then s.begun + 1 else s.begun)
  }

  function Apply(s: State, step: Step): State {
    match step
    case CallSend(t, message) => Move(s, t, Sending(message))
    case CallReceive(t) => Move(s, t, Receiving)
    case Acquire(t) => Move(s, t, Entered(At(s, t))).(owner := Some(t))
    case Go(t) => Go1(s, t)
    case Signal(t, wake) =>
      Move(if wake.Some? then Move(s, wake.value, Roused(At(s, wake.value))) else s, t,
           if At(s, t).SendSignal? then SendLeaving else ReceiveTest)
  }

  ghost predicate OwnerOk(s: State) {
    forall t: Tid :: s.owner == Some(t) <==> At(s, t).HasLock()
  }

  ghost function OwnerPc(s: State): Pc {
    if s.owner == None then Outside else At(s, s.owner.value)
  }

  // What the thread that has the lock knows.
  ghost predicate OwnerKnows(s: State) {
    match OwnerPc(s)
    case Copying(_) => s.receiveBool >= 1 && s.copied != 1
    case Copied(m) => s.receiveBool >= 1 && s.copied != 1 && s.buff == m
    case Taking => s.copied == 1
    case Taken(m) => s.copied == 1 && s.buff == m
    case _ => true
  }

  // The messages received, and the buffered one if there is one, are the messages sent, in order;
  // every message waits for a Receive that has begun.
  ghost predicate Conserved(s: State) {
    && s.sent == s.received + (if s.copied == 1 then [s.buff] else [])
    && s.receiveBool == s.begun - |s.received| + (if OwnerPc(s).Cleared? then 1 else 0)
    && (s.copied == 1 ==> s.receiveBool >= 1)
    && (OwnerPc(s).Cleared? ==> s.copied != 1 && s.receiveBool >= 1)
  }

  ghost predicate Inv(s: State) {
    OwnerOk(s) && OwnerKnows(s) && Conserved(s)
  }

  lemma OwnerKept(s: State, step: Step)
    requires OwnerOk(s) && Enabled(s, step)
    ensures OwnerOk(Apply(s, step))
  {
  }

  // A thread without the lock changes nothing that the others see.
  lemma StepKeeps(s: State, step: Step)
    requires Inv(s) && Enabled(s, step)
    ensures Inv(Apply(s, step))
  {
    OwnerKept(s, step);
  }

  // In every run the messages come out in the order in which they went in, and no Send completes
  // without a Receive of its own having begun.
  ghost predicate Run(states: seq<State>, steps: seq<Step>) {
    && |states| == |steps| + 1 && states[0].owner == None && (forall t: Tid :: At(states[0], t) == Outside)
    && states[0].copied == 0 && states[0].receiveBool == 0
    && states[0].sent == [] && states[0].received == [] && states[0].begun == 0
    && forall i | 0 <= i < |steps| :: Enabled(states[i], steps[i]) && states[i + 1] == Apply(states[i], steps[i])
  }

  lemma {:induction false} RunKeeps(states: seq<State>, steps: seq<Step>, n: nat)
    requires Run(states, steps) && n <= |steps|
    ensures Inv(states[n]) && |states[n].sent| <= states[n].begun
    ensures states[n].sent == states[n].received + if states[n].copied == 1 then [states[n].buff] else []
  {
    if n > 0 {
      RunKeeps(states, steps, n - 1);
      StepKeeps(states[n - 1], steps[n - 1]);
    }
  }

  // Nothing happens any more without a new call.
  ghost predicate Quiescent(s: State) {
    forall step | Enabled(s, step) :: step.CallSend? || step.CallReceive?
  }

  // Whoever has the lock can go on.
  lemma OwnerMoves(s: State, t: Tid) returns (step: Step)
    requires s.owner == Some(t)
    ensures Enabled(s, step) && !step.CallSend? && !step.CallReceive?
  {
    if !At(s, t).SendSignal? && !At(s, t).ReceiveSignal? {
      step := Go(t);
    } else if u :| if At(s, t).SendSignal? then At(s, u).ReceiveAsleep? else At(s, u).SendAsleep? {
      step := Signal(t, Some(u));
    } else {
      step := Signal(t, None);
    }
  }

  // So when all is quiet nobody has the lock or waits for it.
  lemma QuiescentMeans(s: State, t: Tid)
    requires OwnerOk(s) && Quiescent(s)
    ensures s.owner == None && (At(s, t).Outside? || At(s, t).SendAsleep? || At(s, t).ReceiveAsleep?)
  {
    if s.owner.Some? {
      var step := OwnerMoves(s, s.owner.value);
    }
    assert !Enabled(s, Acquire(t));
  }

  // No message waits for a receiver that nobody will wake: while the buffer is full and a receiver
  // sleeps, the signal is about to be given, or another receiver is on its way to the message.
  ghost predicate ReceiverComes(s: State, t: Tid) {
    At(s, t).SendSignal? || At(s, t).Taking? || At(s, t).Taken? || At(s, t).ReceiveWoken? || At(s, t).ReceiveTest?
  }

  ghost predicate ReceiversServed(s: State) {
    forall r | s.copied == 1 && At(s, r).ReceiveAsleep? :: exists t :: ReceiverComes(s, t)
  }

  lemma ReceiversKept(s: State, step: Step)
    requires Inv(s) && ReceiversServed(s) && Enabled(s, step)
    ensures ReceiversServed(Apply(s, step))
  {
    var s' := Apply(s, step);
    forall r | s'.copied == 1 && At(s', r).ReceiveAsleep?
      ensures exists t :: ReceiverComes(s', t)
    {
      if step.Go? && At(s, step.t).Copied? {
        assert ReceiverComes(s', step.t);
      } else {
        assert At(s, r).ReceiveAsleep?;
        var t :| ReceiverComes(s, t);
        if step.Signal? && step.t == t {
          assert ReceiverComes(s', step.wake.value);
        } else {
          assert ReceiverComes(s', t);
        }
      }
    }
  }

  // No sender that could go ahead sleeps on without a signal to come, as long as no two Receives
  // have begun at a time.
  ghost predicate SenderComes(s: State, t: Tid) {
    At(s, t).ReceiveSignal? || At(s, t).Cleared? || At(s, t).SendWoken? || At(s, t).SendTest? || At(s, t).Copying? ||
    At(s, t).Copied?
  }

  ghost predicate SendersServed(s: State) {
    forall r | s.copied != 1 && s.receiveBool >= 1 && At(s, r).SendAsleep? :: exists t :: SenderComes(s, t)
  }

  lemma SendersKept(s: State, step: Step)
    requires Inv(s) && SendersServed(s) && Enabled(s, step) && s.receiveBool <= 1
    ensures SendersServed(Apply(s, step))
  {
    var s' := Apply(s, step);
    forall r | s'.copied != 1 && s'.receiveBool >= 1 && At(s', r).SendAsleep?
      ensures exists t :: SenderComes(s', t)
    {
      if step.Go? && (At(s, step.t).Begin? || At(s, step.t).Taken?) {
        assert SenderComes(s', step.t);
      } else {
        assert At(s, r).SendAsleep?;
        var t :| SenderComes(s, t);
        if step.Signal? && step.t == t {
          assert SenderComes(s', step.wake.value);
        } else {
          assert SenderComes(s', t);
        }
      }
    }
  }

  ghost predicate SenderStuck(s: State) {
    Quiescent(s) && s.copied != 1 && s.receiveBool >= 1 && exists t :: At(s, t).SendAsleep?
  }

  ghost predicate ReceiverStuck(s: State) {
    Quiescent(s) && s.copied == 1 && exists t :: At(s, t).ReceiveAsleep?
  }

  lemma ServedNotStuck(s: State)
    requires OwnerOk(s)
    ensures ReceiversServed(s) ==> !ReceiverStuck(s)
    ensures SendersServed(s) ==> !SenderStuck(s)
  {
    if Quiescent(s) {
      forall t
        ensures !ReceiverComes(s, t) && !SenderComes(s, t)
      {
        QuiescentMeans(s, t);
      }
    }
  }

  lemma {:induction false} ReceiversServedInRun(states: seq<State>, steps: seq<Step>, n: nat)
    requires Run(states, steps) && n <= |steps|
    ensures ReceiversServed(states[n])
  {
    if n > 0 {
      ReceiversServedInRun(states, steps, n - 1);
      RunKeeps(states, steps, n - 1);
      ReceiversKept(states[n - 1], steps[n - 1]);
    }
  }

  // In no run does a receiver sleep on while there is a message for it.
  lemma ReceiverNeverStuck(states: seq<State>, steps: seq<Step>, n: nat)
    requires Run(states, steps) && n <= |steps|
    ensures !ReceiverStuck(states[n])
  {
    RunKeeps(states, steps, n);
    ReceiversServedInRun(states, steps, n);
    ServedNotStuck(states[n]);
  }

  // The threads that are in Receive, and those of them that receiveBool counts.
  predicate InReceive(pc: Pc) {
    pc.Receiving? || pc.Begin? || Counted(pc) || pc.Leaving?
  }

  predicate Counted(pc: Pc) {
    pc.ReceiveSignal? || pc.ReceiveTest? || pc.ReceiveAsleep? || pc.ReceiveWoken? || pc.Taking? || pc.Taken? ||
    pc.Cleared?
  }

  function Receivers(s: State): set<Tid> {
    set t | t in s.pcs && InReceive(s.pcs[t])
  }

  function CountedReceivers(s: State): set<Tid> {
    set t | t in s.pcs && Counted(s.pcs[t])
  }

  lemma CountMoved(s: State, s': State, t: Tid, pc: Pc)
    requires s'.pcs == s.pcs[t := pc]
    ensures t in CountedReceivers(s) <==> Counted(At(s, t))
    ensures CountedReceivers(s') == if Counted(pc) then CountedReceivers(s) + {t} else CountedReceivers(s) - {t}
  {
  }

  lemma CountGo(s: State, t: Tid)
    requires OwnerOk(s) && Enabled(s, Go(t))
    ensures At(s, t).Begin? ==> |CountedReceivers(Go1(s, t))| == |CountedReceivers(s)| + 1
    ensures At(s, t).Cleared? ==> |CountedReceivers(Go1(s, t))| == |CountedReceivers(s)| - 1
    ensures !At(s, t).Begin? && !At(s, t).Cleared? ==> CountedReceivers(Go1(s, t)) == CountedReceivers(s)
  {
    CountMoved(s, Go1(s, t), t, PcAfter(s, At(s, t)));
  }

  lemma CountSignal(s: State, t: Tid, wake: Option<Tid>)
    requires Enabled(s, Signal(t, wake))
    ensures CountedReceivers(Apply(s, Signal(t, wake))) == CountedReceivers(s)
  {
    var pc := if At(s, t).SendSignal? then SendLeaving else ReceiveTest;
    if wake.Some? {
      var w := Move(s, wake.value, Roused(At(s, wake.value)));
      CountMoved(s, w, wake.value, Roused(At(s, wake.value)));
      CountMoved(w, Move(w, t, pc), t, pc);
    } else {
      CountMoved(s, Move(s, t, pc), t, pc);
    }
  }

  lemma CountSame(s: State, step: Step)
    requires OwnerOk(s) && Enabled(s, step) && !step.Go?
    ensures CountedReceivers(Apply(s, step)) == CountedReceivers(s)
  {
    match step {
      case CallSend(t, message) => CountMoved(s, Apply(s, step), t, Sending(message));
      case CallReceive(t) => CountMoved(s, Apply(s, step), t, Receiving);
      case Acquire(t) => CountMoved(s, Apply(s, step), t, Entered(At(s, t)));
      case Signal(t, wake) => CountSignal(s, t, wake);
    }
  }

  lemma CountKept(s: State, step: Step)
    requires OwnerOk(s) && Enabled(s, step) && s.receiveBool == |CountedReceivers(s)|
    ensures Apply(s, step).receiveBool == |CountedReceivers(Apply(s, step))|
  {
    if step.Go? {
      CountGo(s, step.t);
    } else {
      CountSame(s, step);
    }
  }

  lemma {:induction false} SubsetSize<T>(a: set<T>, b: set<T>)
    requires a <= b
    ensures |a| <= |b|
  {
    if x :| x in a {
      SubsetSize(a - {x}, b - {x});
    }
  }

  // A run in which no more than n threads are in Receive at a time.
  ghost predicate Overlap(states: seq<State>, n: nat) {
    forall i | 0 <= i < |states| :: |Receivers(states[i])| <= n
  }

  lemma {:induction false} SendersServedInRun(states: seq<State>, steps: seq<Step>, n: nat)
    requires Run(states, steps) && Overlap(states, 1) && n <= |steps|
    ensures SendersServed(states[n]) && states[n].receiveBool == |CountedReceivers(states[n])|
  {
    if n == 0 {
      assert forall t | t in states[0].pcs :: At(states[0], t) == Outside;
      assert CountedReceivers(states[0]) == {};
    } else {
      SendersServedInRun(states, steps, n - 1);
      RunKeeps(states, steps, n - 1);
      SubsetSize(CountedReceivers(states[n - 1]), Receivers(states[n - 1]));
      SendersKept(states[n - 1], steps[n - 1]);
      CountKept(states[n - 1], steps[n - 1]);
    }
  }

  ghost predicate Reached(s: State, n: nat) {
    exists states, steps :: Run(states, steps) && Overlap(states, n) && states[|steps|] == s
  }

  lemma Extend(s: State, n: nat, step: Step)
    requires Reached(s, n) && Enabled(s, step) && |Receivers(Apply(s, step))| <= n
    ensures Reached(Apply(s, step), n)
  {
    var states, steps :| Run(states, steps) && Overlap(states, n) && states[|steps|] == s;
    var states', steps' := states + [Apply(s, step)], steps + [step];
    assert Run(states', steps') && Overlap(states', n) && states'[|steps'|] == Apply(s, step);
  }

  // A sender can sleep on for ever although it could go ahead exactly if more than one thread may be
  // in Receive at a time.
  lemma SenderStuckIffOverlap(n: nat)
    ensures (exists s :: Reached(s, n) && SenderStuck(s)) <==> n >= 2
  {
    if n >= 2 {
      var s := SenderStranded();
      MoreMayReceive(s, 2, n);
    } else if s :| Reached(s, n) && SenderStuck(s) {
      var states, steps :| Run(states, steps) && Overlap(states, n) && states[|steps|] == s;
      SendersServedInRun(states, steps, |steps|);
      RunKeeps(states, steps, |steps|);
      ServedNotStuck(s);
    }
  }

  lemma MoreMayReceive(s: State, m: nat, n: nat)
    requires Reached(s, m) && m <= n
    ensures Reached(s, n)
  {
    var states, steps :| Run(states, steps) && Overlap(states, m) && states[|steps|] == s;
    assert Overlap(states, n);
  }

  // Such a run has four threads: 1 and 2 receive, 3 and 4 send.
  ghost predicate OneStep(s: State, step: Step) {
    && Enabled(s, step) && 1 <= step.t <= 4
    && (step.t > 2 ==> !InReceive(At(Apply(s, step), step.t)))
    && (step.Signal? && step.wake.Some? ==> 1 <= step.wake.value <= 4)
  }

  // A property of states that their steps keep.
  ghost predicate Steady(ok: State -> bool) {
    && (forall s, t {:trigger ok(s), At(s, t)} :: ok(s) && At(s, t) != Outside ==> 1 <= t <= 4)
    && forall s, step {:trigger ok(Apply(s, step))} :: ok(s) && OneStep(s, step) ==> ok(Apply(s, step))
  }

  ghost predicate Here(s: State, owner: Option<Tid>, copied: int, receiveBool: int) {
    s.owner == owner && s.copied == copied && s.receiveBool == receiveBool
  }

  // Of the four, only t has moved.
  ghost predicate Moved(s: State, s': State, t: Tid, pc: Pc) {
    forall u | 1 <= u <= 4 :: At(s', u) == if u == t then pc else At(s, u)
  }

  // One more step of the run: a call, the lock, the next statement, a signal.
  lemma Calls(s: State, ok: State -> bool, call: Step) returns (s': State)
    requires ok(s) && Steady(ok) && 1 <= call.t <= 4 && At(s, call.t) == Outside
    requires (call.CallSend? && call.t > 2) || (call.CallReceive? && call.t <= 2)
    ensures ok(s') && Here(s', s.owner, s.copied, s.receiveBool)
    ensures Moved(s, s', call.t, if call.CallSend? then Sending(call.message) else Receiving)
  {
    s' := Apply(s, call);
  }

  lemma Acquires(s: State, ok: State -> bool, t: Tid) returns (s': State)
    requires ok(s) && Steady(ok) && s.owner == None && 1 <= t <= 4
    requires At(s, t).Sending? || (t <= 2 && (At(s, t).Receiving? || At(s, t).ReceiveWoken?))
    ensures ok(s') && Here(s', Some(t), s.copied, s.receiveBool) && Moved(s, s', t, Entered(At(s, t)))
  {
    s' := Apply(s, Acquire(t));
  }

  lemma Goes(s: State, ok: State -> bool, t: Tid) returns (s': State)
    requires ok(s) && Steady(ok) && s.owner == Some(t) && 1 <= t <= 4 && !At(s, t).SendSignal? &&
             !At(s, t).ReceiveSignal?
    requires t > 2 ==> !InReceive(PcAfter(s, At(s, t)))
    ensures ok(s') && Moved(s, s', t, PcAfter(s, At(s, t)))
    ensures Here(s', OwnerAfter(s, At(s, t)), CopiedAfter(s, At(s, t)), ReceiveBoolAfter(s, At(s, t)))
  {
    s' := Apply(s, Go(t));
  }

  lemma SignalsNobody(s: State, ok: State -> bool, t: Tid) returns (s': State)
    requires ok(s) && Steady(ok) && s.owner == Some(t) && 1 <= t <= 2 && At(s, t) == ReceiveSignal
    requires forall u | 1 <= u <= 4 :: !At(s, u).SendAsleep?
    ensures ok(s') && Here(s', Some(t), s.copied, s.receiveBool) && Moved(s, s', t, ReceiveTest)
  {
    assert forall u :: !At(s, u).SendAsleep?;
    s' := Apply(s, Signal(t, None));
  }

  lemma Wakes(s: State, ok: State -> bool, t: Tid, r: Tid) returns (s': State)
    requires ok(s) && Steady(ok) && s.owner == Some(t) && 3 <= t <= 4 && 1 <= r <= 2
    requires At(s, t) == SendSignal && At(s, r) == ReceiveAsleep
    ensures ok(s') && Here(s', Some(t), s.copied, s.receiveBool)
    ensures forall u | 1 <= u <= 4 :: At(s', u) == if u == t then SendLeaving else if u ==
            r then ReceiveWoken else At(s, u)
  {
    s' := Apply(s, Signal(t, Some(r)));
  }

  lemma ReceiverBegins(s: State, ok: State -> bool, t: Tid) returns (s': State)
    requires ok(s) && Steady(ok) && s.owner == None && 1 <= t <= 2 && At(s, t) == Outside
    ensures ok(s') && Here(s', Some(t), s.copied, s.receiveBool + 1) && Moved(s, s', t, ReceiveSignal)
  {
    s' := Calls(s, ok, CallReceive(t));
    s' := Acquires(s', ok, t);
    s' := Goes(s', ok, t);
  }

  // A receiver begins, signals to nobody and goes to sleep.
  lemma ReceiverSleeps(s: State, ok: State -> bool, t: Tid) returns (s': State)
    requires ok(s) && Steady(ok) && s.owner == None && 1 <= t <= 2 && At(s, t) == Outside && s.copied == 0
    requires forall u | 1 <= u <= 4 :: !At(s, u).SendAsleep?
    ensures ok(s') && Here(s', None, 0, s.receiveBool + 1) && Moved(s, s', t, ReceiveAsleep)
  {
    s' := ReceiverBegins(s, ok, t);
    s' := SignalsNobody(s', ok, t);
    s' := Goes(s', ok, t);
  }

  // A sender fills the buffer.
  lemma SenderFills(s: State, ok: State -> bool) returns (s': State)
    requires ok(s) && Steady(ok) && Here(s, None, 0, 2) && At(s, 3) == Outside
    ensures ok(s') && Here(s', Some(3), 1, 2) && Moved(s, s', 3, SendSignal)
  {
    s' := Calls(s, ok, CallSend(3, 0));
    s' := Acquires(s', ok, 3);
    s' := Goes(s', ok, 3);
    s' := Goes(s', ok, 3);
    s' := Goes(s', ok, 3);
  }

  // Another finds it full and goes to sleep.
  lemma SenderSleeps(s: State, ok: State -> bool) returns (s': State)
    requires ok(s) && Steady(ok) && Here(s, None, 1, 2) && At(s, 4) == Outside
    ensures ok(s') && Here(s', None, 1, 2) && Moved(s, s', 4, SendAsleep(0))
  {
    s' := Calls(s, ok, CallSend(4, 0));
    s' := Acquires(s', ok, 4);
    s' := Goes(s', ok, 4);
  }

  // The woken receiver empties the buffer.
  lemma ReceiverTakes(s: State, ok: State -> bool) returns (s': State)
    requires ok(s) && Steady(ok) && Here(s, None, 1, 2) && At(s, 1) == ReceiveWoken
    ensures ok(s') && Here(s', Some(1), 0, 2) && Moved(s, s', 1, Cleared)
  {
    s' := Acquires(s, ok, 1);
    s' := Goes(s', ok, 1);
    s' := Goes(s', ok, 1);
    s' := Goes(s', ok, 1);
  }

  // Both receivers wait, one sender leaves its message, and the other sender comes too early.
  lemma StoryBegins(s0: State, ok: State -> bool) returns (s: State)
    requires ok(s0) && Steady(ok) && Here(s0, None, 0, 0) && forall u | 1 <= u <= 4 :: At(s0, u) == Outside
    ensures ok(s) && Here(s, Some(3), 1, 2)
    ensures At(s, 1) == At(s, 2) == ReceiveAsleep && At(s, 3) == SendSignal && At(s, 4) == Outside
  {
    s := ReceiverSleeps(s0, ok, 1);
    s := ReceiverSleeps(s, ok, 2);
    s := SenderFills(s, ok);
  }

  lemma StoryGoesOn(s0: State, ok: State -> bool) returns (s: State)
    requires ok(s0) && Steady(ok) && Here(s0, Some(3), 1, 2)
    requires At(s0, 1) == At(s0, 2) == ReceiveAsleep && At(s0, 3) == SendSignal && At(s0, 4) == Outside
    ensures ok(s) && Here(s, None, 1, 2)
    ensures At(s, 1) == ReceiveWoken && At(s, 2) == ReceiveAsleep && At(s, 3) == Outside && At(s, 4) == SendAsleep(0)
  {
    s := Wakes(s0, ok, 3, 1);
    s := Goes(s, ok, 3);
    s := SenderSleeps(s, ok);
  }

  // In the end the buffer is empty and a receiver waits, but the sender sleeps on.
  lemma StoryEnds(s0: State, ok: State -> bool) returns (s: State)
    requires ok(s0) && Steady(ok) && Here(s0, None, 1, 2)
    requires At(s0, 1) == ReceiveWoken && At(s0, 2) == ReceiveAsleep && At(s0, 3) == Outside &&
             At(s0, 4) == SendAsleep(0)
    ensures ok(s) && Here(s, None, 0, 1)
    ensures At(s, 1) == At(s, 3) == Outside && At(s, 2) == ReceiveAsleep && At(s, 4) == SendAsleep(0)
  {
    s := ReceiverTakes(s0, ok);
    s := Goes(s, ok, 1);
    s := Goes(s, ok, 1);
  }

  lemma Story(s0: State, ok: State -> bool) returns (s: State)
    requires ok(s0) && Steady(ok) && Here(s0, None, 0, 0) && forall u | 1 <= u <= 4 :: At(s0, u) == Outside
    ensures ok(s) && Here(s, None, 0, 1) && At(s, 2) == ReceiveAsleep && At(s, 4) == SendAsleep(0)
    ensures At(s, 1) == At(s, 3) == Outside
  {
    s := StoryBegins(s0, ok);
    s := StoryGoesOn(s, ok);
    s := StoryEnds(s, ok);
  }

  ghost predicate FourOnly(s: State) {
    && (forall t | t in s.pcs :: t == 1 || t == 2 || t == 3 || t == 4)
    && !InReceive(At(s, 3)) && !InReceive(At(s, 4))
  }

  lemma TwoReceive(s: State)
    requires FourOnly(s)
    ensures |Receivers(s)| <= 2
  {
    assert Receivers(s) <= {1, 2};
    SubsetSize(Receivers(s), {1, 2});
  }

  lemma StillFour(s: State, step: Step)
    requires FourOnly(s) && OneStep(s, step)
    ensures FourOnly(Apply(s, step))
  {
  }

  lemma FourSteady()
    ensures Steady(s => FourOnly(s) && Reached(s, 2))
  {
    forall s, step | FourOnly(s) && Reached(s, 2) && OneStep(s, step)
      ensures FourOnly(Apply(s, step)) && Reached(Apply(s, step), 2)
    {
      StillFour(s, step);
      TwoReceive(Apply(s, step));
      Extend(s, 2, step);
    }
  }

  lemma SenderStranded() returns (s: State)
    ensures Reached(s, 2) && SenderStuck(s)
  {
    var s0 := State(0, 0, 0, None, map[], [], [], 0);
    var steps: seq<Step> := [];
    TwoReceive(s0);
    assert Run([s0], steps) && Overlap([s0], 2) && [s0][|steps|] == s0;
    FourSteady();
    s := Story(s0, s => FourOnly(s) && Reached(s, 2));
    assert At(s, 4).SendAsleep?;
  }
}
