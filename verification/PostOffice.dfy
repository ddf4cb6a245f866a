// network/post.cc over machine/network.cc: mail between machines joined by links that lose packets
// but keep them in order, as a step machine. On each machine the network interrupt puts one packet
// into the inbox, and the postal worker moves it on to a mailbox.
module PostOffice {
  type Address = nat

  // A packet with its header; the data include the number of the mailbox. A header with length 0
  // stands for no packet.
  datatype Packet = Packet(from: Address, to: Address, length: nat, box: nat, data: seq<int>)

  // Where the postal worker is in PostalDelivery.
  datatype Worker =
    | Waiting                   // in messageAvailable->P()
    | Fetching                  // about to call network->Receive()
    | Putting(packet: Packet)   // about to put it into its mailbox

  // puts and got record what the worker has put into any mailbox and what has been taken from each.
  datatype Machine = Machine(
    socket: seq<Packet>, inHdr: Packet, messageAvailable: nat, worker: Worker,
    boxes: map<nat, seq<Packet>>, puts: seq<Packet>, got: map<nat, seq<Packet>>)

  datatype State = State(machines: map<Address, Machine>, sent: seq<Packet>)

  datatype Step =
    | Send(packet: Packet, lost: bool)
    | CheckPktAvail(m: Address)
    | P(m: Address)
    | Receive(m: Address)
    | Put(m: Address)
    | Get(m: Address, box: nat)

  function Box(boxes: map<nat, seq<Packet>>, b: nat): seq<Packet> {
    if b in boxes then boxes[b] else []
  }

  ghost predicate Enabled(s: State, step: Step) {
    match step
    case Send(p, _) => p.from in s.machines && p.to in s.machines && p.length > 0
    case CheckPktAvail(m) => m in s.machines
    case P(m) => m in s.machines && s.machines[m].worker.Waiting? && s.machines[m].messageAvailable > 0
    case Receive(m) => m in s.machines && s.machines[m].worker.Fetching?
    case Put(m) => m in s.machines && s.machines[m].worker.Putting?
    case Get(m, b) => m in s.machines && Box(s.machines[m].boxes, b) != []
  }

  // What a step does to the machine it happens on; a packet that is sent reaches its receiver's socket.
  function Local(x: Machine, step: Step): Machine {
    match step
    case Send(p, lost) => if lost then x else x.(socket := x.socket + [p])
    case CheckPktAvail(_) =>
      if x.inHdr.length != 0 || x.socket == [] then x
      else x.(inHdr := x.socket[0], socket := x.socket[1..], messageAvailable := x.messageAvailable + 1)
    case P(_) => if x.messageAvailable > 0 then x.(messageAvailable := x.messageAvailable - 1,
      worker := Fetching) else x
    case Receive(_) => x.(worker := Putting(x.inHdr), inHdr := x.inHdr.(length := 0))
    case Put(_) =>
      if !x.worker.Putting? then x
      else
        var p := x.worker.packet;
        x.(worker := Waiting, puts := x.puts + [p], boxes := x.boxes[p.box := Box(x.boxes, p.box) + [p]])
    case Get(_, b) =>
      if Box(x.boxes, b) == [] then x
      else x.(boxes := x.boxes[b := x.boxes[b][1..]], got := x.got[b := Box(x.got, b) + [x.boxes[b][0]]])
  }

  function Where(step: Step): Address {
    match step
    case Send(p, _) => p.to
    case CheckPktAvail(m) => m
    case P(m) => m
    case Receive(m) => m
    case Put(m) => m
    case Get(m, _) => m
  }

  ghost function Apply(s: State, step: Step): State
    requires Enabled(s, step)
  {
    var m := Where(step);
    State(s.machines[m := Local(s.machines[m], step)], if step.Send? then s.sent + [step.packet] else s.sent)
  }

  // a is b with some elements left out.
  ghost predicate Subsequence(a: seq<Packet>, b: seq<Packet>)
    decreases |b|
  {
    a == [] || (b != [] &&
                (Subsequence(a, b[..|b| - 1]) ||
                 (a[|a| - 1] == b[|b| - 1] && Subsequence(a[..|a| - 1], b[..|b| - 1]))))
  }

  lemma SubsequenceGrows(a: seq<Packet>, b: seq<Packet>, p: Packet)
    requires Subsequence(a, b)
    ensures Subsequence(a, b + [p]) && Subsequence(a + [p], b + [p])
  {
    assert (b + [p])[..|b|] == b && (a + [p])[..|a|] == a;
  }

  lemma {:induction false} SubsequenceShrinks(a: seq<Packet>, b: seq<Packet>)
    requires a != [] && Subsequence(a, b)
    ensures Subsequence(a[..|a| - 1], b)
    decreases |b|
  {
    var c := b[..|b| - 1];
    if Subsequence(a, c) {
      SubsequenceShrinks(a, c);
    }
  }

  function Sent(log: seq<Packet>, to: Address): seq<Packet> {
    if log == [] then []
    else Sent(log[..|log| - 1], to) + if log[|log| - 1].to == to then [log[|log| - 1]] else []
  }

  // The mail of one sender for one mailbox.
  function Mail(log: seq<Packet>, from: Address, box: nat): seq<Packet> {
    if log == [] then []
    else
      var last := log[|log| - 1];
      Mail(log[..|log| - 1], from, box) + if last.from == from && last.box == box then [last] else []
  }

  lemma {:induction false} MailOfSubsequence(a: seq<Packet>, b: seq<Packet>, from: Address, box: nat)
    requires Subsequence(a, b)
    ensures Subsequence(Mail(a, from, box), Mail(b, from, box))
    decreases |b|
  {
    if a != [] {
      var c, p := b[..|b| - 1], b[|b| - 1];
      if Subsequence(a, c) {
        MailOfSubsequence(a, c, from, box);
      } else {
        MailOfSubsequence(a[..|a| - 1], c, from, box);
      }
      if p.from != from || p.box != box {
        assert Mail(b, from, box) == Mail(c, from, box);
        assert !Subsequence(a, c) ==> Mail(a, from, box) == Mail(a[..|a| - 1], from, box);
      } else {
        if Subsequence(a, c) {
          SubsequenceGrows(Mail(a, from, box), Mail(c, from, box), p);
        } else {
          SubsequenceGrows(Mail(a[..|a| - 1], from, box), Mail(c, from, box), p);
        }
      }
    }
  }

  // The packets that a machine has taken in or still may, in their order.
  function Stream(x: Machine): seq<Packet> {
    x.puts + (if x.worker.Putting? then [x.worker.packet] else []) +
    (if x.inHdr.length != 0 then [x.inHdr] else []) + x.socket
  }

  // The semaphore counts the packet in the inbox until the worker is on its way to fetch it.
  ghost predicate InboxOk(x: Machine) {
    x.messageAvailable + (if x.worker.Fetching? then 1 else 0) == if x.inHdr.length != 0 then 1 else 0
  }

  ghost predicate NoneEmpty(ps: seq<Packet>) {
    forall i | 0 <= i < |ps| :: ps[i].length > 0
  }

  ghost predicate BoxOk(x: Machine, b: nat) {
    InBox(x.puts, b) == Box(x.got, b) + Box(x.boxes, b)
  }

  function InBox(log: seq<Packet>, b: nat): seq<Packet> {
    if log == [] then []
    else InBox(log[..|log| - 1], b) + if log[|log| - 1].box == b then [log[|log| - 1]] else []
  }

  ghost predicate MachineOk(s: State, m: Address)
    requires m in s.machines
  {
    var x := s.machines[m];
    InboxOk(x) && NoneEmpty(Stream(x)) && Subsequence(Stream(x), Sent(s.sent, m)) && forall b :: BoxOk(x, b)
  }

  ghost predicate Inv(s: State) {
    forall m | m in s.machines :: MachineOk(s, m)
  }

  // The steps that move packets on keep the stream; a packet that is not lost is added at its end.
  lemma StreamAfter(x: Machine, step: Step)
    requires InboxOk(x) && NoneEmpty(Stream(x))
    requires step.P? ==> x.worker.Waiting?
    requires step.Receive? ==> x.worker.Fetching?
    ensures Stream(Local(x, step)) == if step.Send? && !step.lost then Stream(x) + [step.packet] else Stream(x)
    ensures InboxOk(Local(x, step))
  {
    if step.CheckPktAvail? && x.socket != [] {
      assert x.socket[0] == Stream(x)[|Stream(x)| - |x.socket|];
    }
  }

  lemma BoxAfter(x: Machine, step: Step, b: nat)
    requires BoxOk(x, b)
    ensures BoxOk(Local(x, step), b)
  {
    if step.Put? && x.worker.Putting? {
      assert (x.puts + [x.worker.packet])[..|x.puts|] == x.puts;
    }
  }

  // The machine on which the step happens
  lemma LocalKept(s: State, step: Step)
    requires Inv(s) && Enabled(s, step)
    ensures var x := Local(s.machines[Where(step)], step);
            InboxOk(x) && NoneEmpty(Stream(x)) && forall b :: BoxOk(x, b)
    ensures var x, x' := s.machines[Where(step)], Local(s.machines[Where(step)], step);
            Stream(x') == if step.Send? && !step.lost then Stream(x) + [step.packet] else Stream(x)
  {
    assert MachineOk(s, Where(step));
    var x := s.machines[Where(step)];
    StreamAfter(x, step);
    forall b
      ensures BoxOk(Local(x, step), b)
    {
      assert BoxOk(x, b);
      BoxAfter(x, step, b);
    }
  }

  // What has been sent to a machine
  lemma SentAfter(s: State, step: Step, m: Address)
    requires Enabled(s, step)
    ensures Sent(Apply(s, step).sent, m) ==
              if step.Send? && Where(step) == m then Sent(s.sent, m) + [step.packet] else Sent(s.sent, m)
  {
    if step.Send? {
      assert Apply(s, step).sent[..|s.sent|] == s.sent;
    }
  }

  lemma MachineKept(s: State, step: Step, m: Address)
    requires Inv(s) && Enabled(s, step) && m in s.machines
    ensures MachineOk(Apply(s, step), m)
  {
    assert MachineOk(s, m);
    SentAfter(s, step, m);
    if m == Where(step) {
      LocalKept(s, step);
      if step.Send? {
        SubsequenceGrows(Stream(s.machines[m]), Sent(s.sent, m), step.packet);
      }
    }
  }

  lemma StepKeeps(s: State, step: Step)
    requires Inv(s) && Enabled(s, step)
    ensures Inv(Apply(s, step))
  {
    forall m | m in s.machines {
      MachineKept(s, step, m);
    }
  }

  ghost predicate Run(states: seq<State>, steps: seq<Step>) {
    && |states| == |steps| + 1 && states[0].sent == []
    && (forall m | m in states[0].machines :: Idle(states[0].machines[m]))
    && forall i | 0 <= i < |steps| :: Enabled(states[i], steps[i]) && states[i + 1] == Apply(states[i], steps[i])
  }

  ghost predicate Idle(x: Machine) {
    && x.socket == [] && x.inHdr.length == 0 && x.messageAvailable == 0 && x.worker == Waiting
    && x.boxes == map[] && x.puts == [] && x.got == map[]
  }

  lemma {:induction false} RunKeeps(states: seq<State>, steps: seq<Step>, n: nat)
    requires Run(states, steps) && n <= |steps|
    ensures Inv(states[n])
  {
    if n > 0 {
      RunKeeps(states, steps, n - 1);
      StepKeeps(states[n - 1], steps[n - 1]);
    }
  }

  // The worker is never handed an empty packet, and a packet in the inbox stays there, whatever
  // happens on any machine, until the worker takes it.
  lemma InboxHolds(s: State, step: Step, m: Address)
    requires Enabled(s, step) && m in s.machines && s.machines[m].inHdr.length > 0
    ensures var x, x' := s.machines[m], Apply(s, step).machines[m];
            if step == Receive(m) then x'.worker == Putting(x.inHdr) else x'.inHdr == x.inHdr
  {
  }

  lemma NeverEmpty(s: State, m: Address)
    requires Inv(s) && m in s.machines
    ensures s.machines[m].worker.Fetching? ==> s.machines[m].inHdr.length > 0
    ensures s.machines[m].worker.Putting? ==> s.machines[m].worker.packet.length > 0
  {
    assert MachineOk(s, m);
    var x := s.machines[m];
    if x.worker.Putting? {
      assert Stream(x)[|x.puts|] == x.worker.packet;
    }
  }

  // The mail from one sender in one mailbox, taken out or still there, is what that sender sent to
  // that mailbox, in the same order, with some of it lost.
  lemma MailInOrder(s: State, m: Address, from: Address, box: nat)
    requires Inv(s) && m in s.machines
    ensures Subsequence(Mail(s.machines[m].puts, from, box), Mail(Sent(s.sent, m), from, box))
    ensures InBox(s.machines[m].puts, box) == Box(s.machines[m].got, box) + Box(s.machines[m].boxes, box)
  {
    assert MachineOk(s, m) && BoxOk(s.machines[m], box);
    var x := s.machines[m];
    assert x.puts + Stream(x)[|x.puts|..] == Stream(x);
    PrefixOf(x.puts, Stream(x)[|x.puts|..], Sent(s.sent, m));
    MailOfSubsequence(x.puts, Sent(s.sent, m), from, box);
  }

  lemma {:induction false} PrefixOf(a: seq<Packet>, rest: seq<Packet>, b: seq<Packet>)
    requires Subsequence(a + rest, b)
    ensures Subsequence(a, b)
    decreases |rest|
  {
    if rest == [] {
      assert a + rest == a;
    } else {
      SubsequenceShrinks(a + rest, b);
      assert (a + rest)[..|a + rest| - 1] == a + rest[..|rest| - 1];
      PrefixOf(a, rest[..|rest| - 1], b);
    }
  }
}
