// filesys/synchdisk.cc over machine/disk.cc: whole-sector reads and writes by many threads on an
// asynchronous device that takes one request at a time, as a step machine. Any thread may be
// stopped between any two statements, and the interrupt comes at any time.
module DiskProtocol {
  import opened Basics

  datatype Request<D> = Read(sector: nat) | Write(sector: nat, data: D)

  // Where a thread is in ReadSector or WriteSector. A request is known by its place in the log.
  datatype Pc<D> =
    | Outside
    | Entering(request: Request<D>)       // in lock->Acquire()
    | MayRequest(request: Request<D>)     // has the lock
    | Waiting(id: nat, buffer: D)         // in semaphore->P()
    | Leaving(id: nat, buffer: D)         // about to release the lock
  {
    predicate HasLock() {
      MayRequest? || Waiting? || Leaving?
    }
  }

  // The device, the semaphore, the lock and the threads, with the requests made so far in the
  // order in which their threads had the lock, and those whose interrupt has come.
  datatype State<D> = State(
    sectors: seq<D>, active: bool, pending: seq<nat>, value: nat,
    owner: Option<Tid>, pcs: map<Tid, Pc<D>>,
    log: seq<Request<D>>, done: set<nat>)

  function At<D>(s: State<D>, t: Tid): Pc<D> {
    if t in s.pcs then s.pcs[t] else Outside
  }

  datatype Step<D> =
    | Call(t: Tid, request: Request<D>)
    | Acquire(t: Tid)
    | Start(t: Tid)
    | Interrupt
    | P(t: Tid)
    | Release(t: Tid)

  ghost predicate Enabled<D>(s: State<D>, step: Step<D>) {
    match step
    case Call(t, request) => At(s, t).Outside? && request.sector < |s.sectors|
    case Acquire(t) => s.owner == None && At(s, t).Entering?
    case Start(t) => s.owner == Some(t) && At(s, t).MayRequest? && At(s, t).request.sector < |s.sectors|
    case Interrupt => s.pending != []
    case P(t) => At(s, t).Waiting? && s.value > 0
    case Release(t) => s.owner == Some(t) && At(s, t).Leaving?
  }

  function Move<D>(s: State<D>, t: Tid, pc: Pc<D>): State<D> {
    s.(pcs := s.pcs[t := pc])
  }

  // Disk::ReadRequest and Disk::WriteRequest: the transfer is immediate, the interrupt comes later.
  function Transfer<D>(s: State<D>, t: Tid): State<D>
    requires At(s, t).MayRequest? && At(s, t).request.sector < |s.sectors|
  {
    var r, id := At(s, t).request, |s.log|;
    var before := s.(active := true, pending := s.pending + [id], log := s.log + [r]);
    if r.Read? then Move(before, t, Waiting(id, s.sectors[r.sector]))
    else Move(before, t, Waiting(id, r.data)).(sectors := s.sectors[r.sector := r.data])
  }

  // Disk::HandleInterrupt, which calls RequestDone, which calls V
  function HandleInterrupt<D>(s: State<D>): State<D>
    requires s.pending != []
  {
    s.(active := false, value := s.value + 1, pending := s.pending[1..], done := s.done + {s.pending[0]})
  }

  ghost function Apply<D>(s: State<D>, step: Step<D>): State<D>
    requires Enabled(s, step)
  {
    match step
    case Call(t, request) => Move(s, t, Entering(request))
    case Acquire(t) => Move(s, t, MayRequest(At(s, t).request)).(owner := Some(t))
    case Start(t) => Transfer(s, t)
    case Interrupt => HandleInterrupt(s)
    case P(t) => Move(s, t, Leaving(At(s, t).id, At(s, t).buffer)).(value := s.value - 1)
    case Release(t) => Move(s, t, Outside).(owner := None)
  }

  // What the first n requests of the log leave in a sector: the last write to it, if any.
  ghost function LastWrite<D>(initial: seq<D>, log: seq<Request<D>>, sector: nat): D
    requires sector < |initial|
  {
    if log == [] then initial[sector]
    else
      var last := log[|log| - 1];
      if last.Write? && last.sector == sector then last.data else LastWrite(initial, log[..|log| - 1], sector)
  }

  ghost predicate OwnerOk<D>(s: State<D>) {
    forall t: Tid :: s.owner == Some(t) <==> At(s, t).HasLock()
  }

  ghost function OwnerPc<D>(s: State<D>): Pc<D> {
    if s.owner == None then Outside else At(s, s.owner.value)
  }

  // At most one request is under way, and it is the owner's.
  ghost predicate OneRequest<D>(s: State<D>) {
    && (s.active <==> s.pending != [])
    && match OwnerPc(s)
       case Waiting(id, _) =>
         && id + 1 == |s.log|
         && ((s.pending == [id] && s.value == 0 && id !in s.done) || (s.pending == [] && s.value == 1 && id in s.done))
       case Leaving(id, _) => s.pending == [] && s.value == 0 && id + 1 == |s.log| && id in s.done
       case _ => s.pending == [] && s.value == 0
  }

  ghost predicate Fresh<D>(s: State<D>) {
    forall id | id in s.done :: id < |s.log|
  }

  // The sectors hold what the log says, and a thread that has read has what the log said then.
  ghost predicate DataOk<D>(s: State<D>, initial: seq<D>) {
    && |s.sectors| == |initial|
    && (forall n: nat | n < |s.sectors| :: s.sectors[n] == LastWrite(initial, s.log, n))
    && (forall i | 0 <= i < |s.log| :: s.log[i].sector < |initial|)
    && match OwnerPc(s)
       case Waiting(id, buffer) => id < |s.log| && Delivered(s, initial, id, buffer)
       case Leaving(id, buffer) => id < |s.log| && Delivered(s, initial, id, buffer)
       case _ => true
  }

  ghost predicate Delivered<D>(s: State<D>, initial: seq<D>, id: nat, buffer: D)
    requires id < |s.log|
  {
    s.log[id].Read? && s.log[id].sector < |initial| ==> buffer == LastWrite(initial, s.log[..id], s.log[id].sector)
  }

  ghost predicate Inv<D>(s: State<D>, initial: seq<D>) {
    OwnerOk(s) && OneRequest(s) && Fresh(s) && DataOk(s, initial)
  }

  lemma OwnerKept<D>(s: State<D>, step: Step<D>)
    requires OwnerOk(s) && Enabled(s, step)
    ensures OwnerOk(Apply(s, step))
  {
  }

  lemma OneRequestKept<D>(s: State<D>, step: Step<D>)
    requires OwnerOk(s) && OneRequest(s) && Fresh(s) && Enabled(s, step)
    ensures OneRequest(Apply(s, step)) && Fresh(Apply(s, step))
  {
    OwnerKept(s, step);
  }

  lemma DataKept<D>(s: State<D>, step: Step<D>, initial: seq<D>)
    requires Inv(s, initial) && Enabled(s, step)
    ensures DataOk(Apply(s, step), initial)
  {
    OwnerKept(s, step);
    if step.Start? {
      var s' := Apply(s, step);
      assert s'.log[..|s.log|] == s.log;
      forall n: nat | n < |s'.sectors|
        ensures s'.sectors[n] == LastWrite(initial, s'.log, n)
      {
        assert s.sectors[n] == LastWrite(initial, s.log, n);
      }
    }
  }

  lemma StepKeeps<D>(s: State<D>, step: Step<D>, initial: seq<D>)
    requires Inv(s, initial) && Enabled(s, step)
    ensures Inv(Apply(s, step), initial)
  {
    OwnerKept(s, step);
    OneRequestKept(s, step);
    DataKept(s, step, initial);
  }

  ghost predicate Run<D>(states: seq<State<D>>, steps: seq<Step<D>>, initial: seq<D>) {
    && |states| == |steps| + 1 && states[0] == State(initial, false, [], 0, None, map[], [], {})
    && forall i | 0 <= i < |steps| :: Enabled(states[i], steps[i]) && states[i + 1] == Apply(states[i], steps[i])
  }

  lemma {:induction false} RunKeeps<D>(states: seq<State<D>>, steps: seq<Step<D>>, initial: seq<D>, n: nat)
    requires Run(states, steps, initial) && n <= |steps|
    ensures Inv(states[n], initial)
  {
    if n > 0 {
      RunKeeps(states, steps, initial, n - 1);
      StepKeeps(states[n - 1], steps[n - 1], initial);
    }
  }

  // The device is never asked while it is active, so its ASSERT(!active) holds.
  lemma NeverAskedTwice<D>(s: State<D>, initial: seq<D>, t: Tid)
    requires Inv(s, initial) && Enabled(s, Start(t))
    ensures !s.active && s.pending == []
  {
  }

  // A thread leaves only after the interrupt of its own request, and a reader then has what the
  // last write to its sector, in the order of the lock, put there.
  lemma LeavesWithOwnData<D>(s: State<D>, initial: seq<D>, t: Tid)
    requires Inv(s, initial) && At(s, t).Leaving?
    ensures At(s, t).id in s.done && At(s, t).id < |s.log| && Delivered(s, initial, At(s, t).id, At(s, t).buffer)
  {
    assert s.owner == Some(t);
  }

  // A disk that carries out one request after the other
  function Done<D>(sectors: seq<D>, r: Request<D>): (after: seq<D>)
    ensures |after| == |sectors|
  {
    if r.Write? && r.sector < |sectors| then sectors[r.sector := r.data] else sectors
  }

  function Replay<D>(initial: seq<D>, log: seq<Request<D>>): (sectors: seq<D>)
    ensures |sectors| == |initial|
  {
    if log == [] then initial else Done(Replay(initial, log[..|log| - 1]), log[|log| - 1])
  }

  lemma {:induction false} ReplayedSector<D>(initial: seq<D>, log: seq<Request<D>>, sector: nat)
    requires sector < |initial|
    ensures Replay(initial, log)[sector] == LastWrite(initial, log, sector)
  {
    if log != [] {
      ReplayedSector(initial, log[..|log| - 1], sector);
    }
  }

  // In every run the sectors are those that such a disk has after the requests in the order of the
  // lock, and a thread that has read has what such a disk delivers in its turn.
  lemma RunReplays<D>(states: seq<State<D>>, steps: seq<Step<D>>, initial: seq<D>, n: nat, t: Tid)
    requires Run(states, steps, initial) && n <= |steps|
    ensures var s := states[n];
            && s.sectors == Replay(initial, s.log)
            && (At(s, t).Leaving? ==>
                  var id := At(s, t).id;
                  && id < |s.log| && s.log[id].sector < |initial|
                  && (s.log[id].Read? ==> At(s, t).buffer == Replay(initial, s.log[..id])[s.log[id].sector]))
  {
    var s := states[n];
    RunKeeps(states, steps, initial, n);
    forall sector: nat | sector < |initial|
      ensures s.sectors[sector] == Replay(initial, s.log)[sector]
    {
      ReplayedSector(initial, s.log, sector);
    }
    if At(s, t).Leaving? {
      LeavesWithOwnData(s, initial, t);
      ReplayedSector(initial, s.log[..At(s, t).id], s.log[At(s, t).id].sector);
    }
  }
}
