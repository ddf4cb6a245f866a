// machine/disk.cc: how long the simulated disk takes. Time is in ticks; one sector passes under
// the head, and one track is crossed, in 500 of them.
module Disk {
  import opened SynchDisk

  const ROTATION_TIME := 500 // for one sector to pass under the head
  const SEEK_TIME := 500 // for one track to be crossed
  const SECTORS_PER_TRACK := 32
  const NUM_TRACKS := 32

  // a full seek, the rest of a sector, a full turn and the sector itself
  const MAX_LATENCY := (NUM_TRACKS - 1) * SEEK_TIME + (ROTATION_TIME - 1) + SECTORS_PER_TRACK * ROTATION_TIME

  function Abs(x: int): nat {
    if x < 0 then -x else x
  }

  // How long the head takes to get to the track.
  function SeekTime(lastSector: nat, newSector: nat): nat {
    Abs(newSector / SECTORS_PER_TRACK - lastSector / SECTORS_PER_TRACK) * SEEK_TIME
  }

  // How long from a time until the next sector boundary.
  function ToBoundary(time: nat): nat {
    if time % ROTATION_TIME > 0 then ROTATION_TIME - time % ROTATION_TIME else 0
  }

  // How many sectors pass the head from one sector until another is reached.
  function ModuloDiff(to: nat, from: nat): nat {
    (to % SECTORS_PER_TRACK - from % SECTORS_PER_TRACK + SECTORS_PER_TRACK) % SECTORS_PER_TRACK
  }

  // The sector of the track that is under the head during the k-th rotation slot has offset k % SECTORS_PER_TRACK.
  lemma ModuloDiffReaches(to: nat, from: nat)
    ensures ModuloDiff(to, from) < SECTORS_PER_TRACK &&
            (from + ModuloDiff(to, from)) % SECTORS_PER_TRACK == to % SECTORS_PER_TRACK
  {
    var a, b := to % SECTORS_PER_TRACK, from % SECTORS_PER_TRACK;
    if a >= b {
      assert ModuloDiff(to, from) == a - b;
      assert from + (a - b) == from / SECTORS_PER_TRACK * SECTORS_PER_TRACK + a;
    } else {
      assert ModuloDiff(to, from) == a - b + SECTORS_PER_TRACK;
      assert from + (a - b + SECTORS_PER_TRACK) == (from / SECTORS_PER_TRACK + 1) * SECTORS_PER_TRACK + a;
    }
  }

  // No earlier slot has that sector.
  lemma ModuloDiffIsFirst(to: nat, from: nat, k: nat)
    requires from <= k && k % SECTORS_PER_TRACK == to % SECTORS_PER_TRACK
    ensures from + ModuloDiff(to, from) <= k
  {
    ModuloDiffReaches(to, from);
    SameOffset(from + ModuloDiff(to, from), k);
  }

  // Two slots of the same sector are a whole number of turns apart.
  lemma SameOffset(a: nat, b: nat)
    requires a % SECTORS_PER_TRACK == b % SECTORS_PER_TRACK && a < b + SECTORS_PER_TRACK
    ensures a <= b
  {
    assert a == a / SECTORS_PER_TRACK * SECTORS_PER_TRACK + a % SECTORS_PER_TRACK &&
           b == b / SECTORS_PER_TRACK * SECTORS_PER_TRACK + b % SECTORS_PER_TRACK;
  }

  // A request for newSector that comes at time now, as ComputeLatency sees it.
  datatype Request = Request(now: nat, lastSector: nat, bufferInit: nat, newSector: nat) {
    function Seek(): nat {
      SeekTime(lastSector, newSector)
    }

    // The first sector boundary after the head has arrived.
    function TimeAfter(): nat {
      now + Seek() + ToBoundary(now + Seek())
    }

    predicate Buffered(writing: bool) {
      !writing && Seek() == 0 &&
        (TimeAfter() - bufferInit) / ROTATION_TIME > ModuloDiff(newSector, bufferInit / ROTATION_TIME)
    }

    function Unbuffered(): nat {
      TimeAfter() - now + ModuloDiff(newSector, TimeAfter() / ROTATION_TIME) * ROTATION_TIME + ROTATION_TIME
    }

    function Latency(writing: bool): nat {
      if Buffered(writing) then ROTATION_TIME else Unbuffered()
    }

    // The buffer has been filled from a sector boundary on that has been reached.
    predicate Ready() {
      bufferInit % ROTATION_TIME == 0 && bufferInit <= now && lastSector < NUM_SECTORS && newSector < NUM_SECTORS
    }
  }

  lemma BoundaryReached(time: nat)
    ensures (time + ToBoundary(time)) % ROTATION_TIME == 0 && ToBoundary(time) < ROTATION_TIME
  {
    var q, r := time / ROTATION_TIME, time % ROTATION_TIME;
    if r > 0 {
      assert time + ToBoundary(time) == (q + 1) * ROTATION_TIME;
    }
  }

  // Latency is positive and bounded by a full seek, a full turn and two sectors.
  lemma LatencyBounds(r: Request, writing: bool)
    requires r.Ready()
    ensures ROTATION_TIME <= r.Latency(writing) <= MAX_LATENCY
  {
    BoundaryReached(r.now + r.Seek());
    ModuloDiffReaches(r.newSector, r.TimeAfter() / ROTATION_TIME);
  }

  // A request that the buffer does not serve completes exactly when the requested sector has passed
  // the head for the first time after the head arrived.
  lemma CompletesAfterPass(r: Request, slot: nat)
    requires r.Ready()
    ensures var done := r.now + r.Unbuffered();
            && done % ROTATION_TIME == 0 && done / ROTATION_TIME >= 1
            && (done / ROTATION_TIME - 1) % SECTORS_PER_TRACK == r.newSector % SECTORS_PER_TRACK
            && (done / ROTATION_TIME - 1) * ROTATION_TIME >= r.now + r.Seek()
            && (slot % SECTORS_PER_TRACK == r.newSector % SECTORS_PER_TRACK &&
                slot * ROTATION_TIME >= r.now + r.Seek() ==>
                  done / ROTATION_TIME - 1 <= slot)
  {
    var last := LastSlot(r);
    var first := r.TimeAfter() / ROTATION_TIME;
    if slot % SECTORS_PER_TRACK == r.newSector % SECTORS_PER_TRACK && slot * ROTATION_TIME >= r.now + r.Seek() {
      BoundaryReached(r.now + r.Seek());
      assert slot >= first;
      ModuloDiffIsFirst(r.newSector, first, slot);
    }
  }

  // The slot in which the requested sector passes the head
  lemma LastSlot(r: Request) returns (slot: nat)
    requires r.Ready()
    ensures r.now + r.Unbuffered() == (slot + 1) * ROTATION_TIME
    ensures slot == r.TimeAfter() / ROTATION_TIME + ModuloDiff(r.newSector, r.TimeAfter() / ROTATION_TIME)
    ensures slot % SECTORS_PER_TRACK == r.newSector % SECTORS_PER_TRACK && slot * ROTATION_TIME >= r.now + r.Seek()
  {
    BoundaryReached(r.now + r.Seek());
    var first := r.TimeAfter() / ROTATION_TIME;
    ModuloDiffReaches(r.newSector, first);
    slot := first + ModuloDiff(r.newSector, first);
  }

  // The head is over the sector during the slots with its offset.
  predicate Passes(slot: nat, sector: nat) {
    slot % SECTORS_PER_TRACK == sector % SECTORS_PER_TRACK
  }

  // A read is served from the buffer exactly if its sector has passed the head completely since the
  // buffer was started.
  lemma BufferedIffPassed(r: Request)
    requires r.Ready() && r.Seek() == 0
    ensures r.Buffered(false) <==>
              exists slot: nat ::
                Passes(slot, r.newSector) &&
                  r.bufferInit <= slot * ROTATION_TIME && (slot + 1) * ROTATION_TIME <= r.TimeAfter()
  {
    BoundaryReached(r.now);
    var start, end := r.bufferInit / ROTATION_TIME, r.TimeAfter() / ROTATION_TIME;
    assert (r.TimeAfter() - r.bufferInit) / ROTATION_TIME == end - start;
    ModuloDiffReaches(r.newSector, start);
    var first := start + ModuloDiff(r.newSector, start);
    if r.Buffered(false) {
      assert Passes(first, r.newSector) &&
             r.bufferInit <= first * ROTATION_TIME && (first + 1) * ROTATION_TIME <= r.TimeAfter();
    }
    if slot: nat :|
      && Passes(slot, r.newSector)
      && r.bufferInit <= slot * ROTATION_TIME && (slot + 1) * ROTATION_TIME <= r.TimeAfter() {
      ModuloDiffIsFirst(r.newSector, start, slot);
    }
  }

  // The head crosses tracks one by one: a sector is on the track that its number falls into.
  predicate OnTrack(sector: nat, track: nat) {
    track * SECTORS_PER_TRACK <= sector < (track + 1) * SECTORS_PER_TRACK
  }

  predicate Apart(a: nat, b: nat, distance: nat) {
    a == b + distance || b == a + distance
  }

  lemma SeekTimeMeans(from: nat, to: nat, a: nat, b: nat, distance: nat)
    requires OnTrack(from, a) && OnTrack(to, b) && Apart(a, b, distance)
    ensures SeekTime(from, to) == distance * SEEK_TIME
  {
  }

  // The first slot of the sector that begins at the time or later
  ghost predicate FirstPass(slot: nat, sector: nat, from: nat) {
    && Passes(slot, sector) && slot * ROTATION_TIME >= from
    && forall other: nat | Passes(other, sector) && other * ROTATION_TIME >= from :: slot <= other
  }

  // The end of that slot
  ghost predicate PassedBy(sector: nat, from: nat, done: nat) {
    exists slot: nat :: FirstPass(slot, sector, from) && done == (slot + 1) * ROTATION_TIME
  }

  // The sector has begun to pass since the buffer was started.
  ghost predicate InBuffer(sector: nat, bufferInit: nat, now: nat) {
    exists slot: nat :: Passes(slot, sector) && bufferInit <= slot * ROTATION_TIME < now
  }

  // How long a request takes, from the tracks and the sectors alone: a read on the track of the last
  // request takes one sector time if its sector has passed since the buffer was started; any other
  // request is over when its sector has passed the head, once the head has crossed the tracks.
  lemma LatencyMeans(r: Request, writing: bool, a: nat, b: nat, distance: nat)
    requires r.Ready() && OnTrack(r.lastSector, a) && OnTrack(r.newSector, b) && Apart(a, b, distance)
    ensures !writing && distance == 0 && InBuffer(r.newSector, r.bufferInit, r.now) ==>
              r.Latency(writing) == ROTATION_TIME
    ensures !(!writing && distance == 0 && InBuffer(r.newSector, r.bufferInit, r.now)) ==>
              PassedBy(r.newSector, r.now + distance * SEEK_TIME, r.now + r.Latency(writing))
  {
    SeekTimeMeans(r.lastSector, r.newSector, a, b, distance);
    if !writing && distance == 0 {
      BufferedIffPassed(r);
      BufferedIffBegun(r);
    }
    if !r.Buffered(writing) {
      var slot := LastSlot(r);
      forall other: nat | Passes(other, r.newSector) && other * ROTATION_TIME >= r.now + distance * SEEK_TIME
        ensures slot <= other
      {
        CompletesAfterPass(r, other);
      }
      assert FirstPass(slot, r.newSector, r.now + distance * SEEK_TIME);
    }
  }

  // The boundary up to which the sector must have passed is the end of the current slot.
  lemma BufferedIffBegun(r: Request)
    requires r.Ready() && r.Seek() == 0
    ensures InBuffer(r.newSector, r.bufferInit, r.now) <==>
              exists slot: nat ::
                Passes(slot, r.newSector) &&
                  r.bufferInit <= slot * ROTATION_TIME && (slot + 1) * ROTATION_TIME <= r.TimeAfter()
  {
    BoundaryReached(r.now);
    forall slot: nat
      ensures (slot + 1) * ROTATION_TIME <= r.TimeAfter() <==> slot * ROTATION_TIME < r.now
    {
      SlotEnds(r.now, slot);
    }
  }

  lemma SlotEnds(time: nat, slot: nat)
    ensures (slot + 1) * ROTATION_TIME <= time + ToBoundary(time) <==> slot * ROTATION_TIME < time
  {
    BoundaryReached(time);
  }

  // The buffer never makes a read slower than a write of the same sector.
  lemma BufferNeverSlower(r: Request)
    requires r.Ready()
    ensures r.Latency(false) <= r.Latency(true)
  {
    BoundaryReached(r.now + r.Seek());
    ModuloDiffReaches(r.newSector, r.TimeAfter() / ROTATION_TIME);
  }

  class Disk {
    var sectors: Image
    var active: bool
    var lastSector: nat
    var bufferInit: nat
    ghost var completion: nat

    // Whenever the disk is idle, the buffer was started at a sector boundary that is past.
    ghost predicate Valid(now: nat)
      reads this
    {
      && lastSector < NUM_SECTORS && bufferInit % ROTATION_TIME == 0
      && bufferInit <= if active then completion else now
    }

    constructor (initial: Image)
      ensures Valid(0) && !active && lastSector == 0 && bufferInit == 0 && sectors == initial
    {
      sectors := initial;
      active, lastSector, bufferInit, completion := false, 0, 0, 0;
    }

    // Time passing changes nothing.
    lemma StaysValid(now: nat, later: nat)
      requires Valid(now) && now <= later
      ensures Valid(later)
    {
    }

    method TimeToSeek(now: nat, newSector: nat) returns (seek: nat, rotation: nat)
      ensures seek == SeekTime(lastSector, newSector) && rotation == ToBoundary(now + seek)
    {
      var newTrack := newSector / SECTORS_PER_TRACK;
      var oldTrack := lastSector / SECTORS_PER_TRACK;
      seek := (if newTrack < oldTrack then oldTrack - newTrack else newTrack - oldTrack) * SEEK_TIME;
      var over := (now + seek) % ROTATION_TIME;
      rotation := 0;
      if over > 0 {
        rotation := ROTATION_TIME - over;
      }
    }

    method ComputeLatency(now: nat, newSector: nat, writing: bool) returns (latency: nat)
      ensures latency == Request(now, lastSector, bufferInit, newSector).Latency(writing)
    {
      var seek, rotation := TimeToSeek(now, newSector);
      var timeAfter := now + seek + rotation;
      if !writing && seek == 0 &&
         (timeAfter - bufferInit) / ROTATION_TIME > ModuloDiff(newSector, bufferInit / ROTATION_TIME) {
        return ROTATION_TIME; // the track buffer has the sector
      }
      rotation := rotation + ModuloDiff(newSector, timeAfter / ROTATION_TIME) * ROTATION_TIME;
      return seek + rotation + ROTATION_TIME;
    }

    method UpdateLast(now: nat, newSector: nat)
      modifies this`lastSector, this`bufferInit
      ensures lastSector == newSector && active == old(active) && completion == old(completion)
      ensures bufferInit == if SeekTime(old(lastSector), newSector) == 0 then old(bufferInit)
                            else Request(now, old(lastSector), old(bufferInit), newSector).TimeAfter()
    {
      var seek, rotate := TimeToSeek(now, newSector);
      if seek != 0 {
        bufferInit := now + seek + rotate;
      }
      lastSector := newSector;
    }

    // The transfer is done at once; the interrupt that tells of it comes after the latency.
    method ReadRequest(now: nat, sectorNumber: nat) returns (data: Sector, ticks: nat)
      requires Valid(now) && !active && sectorNumber < NUM_SECTORS
      modifies this
      ensures data == sectors[sectorNumber] && sectors == old(sectors)
      ensures Valid(now) && active && completion == now + ticks && ROTATION_TIME <= ticks <= MAX_LATENCY
      ensures ticks == Request(now, old(lastSector), old(bufferInit), sectorNumber).Latency(false)
    {
      data := sectors[sectorNumber];
      ticks := StartRequest(now, sectorNumber, false);
    }

    method WriteRequest(now: nat, sectorNumber: nat, data: Sector) returns (ticks: nat)
      requires Valid(now) && !active && sectorNumber < NUM_SECTORS
      modifies this
      ensures sectors == old(sectors)[sectorNumber := data]
      ensures Valid(now) && active && completion == now + ticks && ROTATION_TIME <= ticks <= MAX_LATENCY
      ensures ticks == Request(now, old(lastSector), old(bufferInit), sectorNumber).Latency(true)
    {
      sectors := sectors[sectorNumber := data];
      ticks := StartRequest(now, sectorNumber, true);
    }

    // The latency, the end of the request, and where the head will be then.
    method StartRequest(now: nat, sectorNumber: nat, writing: bool) returns (ticks: nat)
      requires Valid(now) && !active && sectorNumber < NUM_SECTORS
      modifies this`active, this`lastSector, this`bufferInit, this`completion
      ensures Valid(now) && active && completion == now + ticks && ROTATION_TIME <= ticks <= MAX_LATENCY
      ensures ticks == Request(now, old(lastSector), old(bufferInit), sectorNumber).Latency(writing)
    {
      ghost var r := Request(now, lastSector, bufferInit, sectorNumber);
      ticks := ComputeLatency(now, sectorNumber, writing);
      LatencyBounds(r, writing);
      BoundaryReached(now + r.Seek());
      active := true;
      UpdateLast(now, sectorNumber);
      completion := now + ticks;
    }

    method HandleInterrupt(now: nat)
      requires Valid(now) && active && completion <= now
      modifies this`active
      ensures Valid(now) && !active
    {
      active := false;
    }
  }
}
