// machine/interrupt.cc: simulated time and the interrupts pending in it.
module Interrupt {
  import opened List

  const USER_TICK := 1
  const SYSTEM_TICK := 10

  datatype IntStatus = IntOff | IntOn

  datatype MachineStatus = IdleMode | SystemMode | UserMode

  datatype IntType = TimerInt | DiskInt | ConsoleWriteInt | ConsoleReadInt | NetworkSendInt | NetworkRecvInt

  // The handler and its argument stand for themselves.
  datatype PendingInterrupt = PendingInterrupt(handler: int, arg: int, when: int, kind: IntType)

  // What a handler may ask for: another interrupt, fromNow ticks ahead.
  datatype Request = Request(handler: int, arg: int, fromNow: int, kind: IntType)

  type Pending = seq<Entry<PendingInterrupt>>

  // An interrupt that has been delivered, and when its handler was called.
  datatype Firing = Firing(entry: Entry<PendingInterrupt>, ran: int)

  function Delivered(firings: seq<Firing>): (entries: Pending)
    ensures |entries| == |firings|
  {
    if firings == [] then [] else Delivered(firings[..|firings| - 1]) + [firings[|firings| - 1].entry]
  }

  // How often an interrupt occurs in a list
  ghost function Times(s: Pending, e: Entry<PendingInterrupt>): nat {
    if s == [] then 0 else Times(s[..|s| - 1], e) + if s[|s| - 1] == e then 1 else 0
  }

  lemma {:induction false} TimesJoin(a: Pending, b: Pending, e: Entry<PendingInterrupt>)
    ensures Times(a + b, e) == Times(a, e) + Times(b, e)
    decreases |b|
  {
    if b == [] {
      assert a + b == a;
    } else {
      assert (a + b)[..|a + b| - 1] == a + b[..|b| - 1];
      TimesJoin(a, b[..|b| - 1], e);
    }
  }

  lemma TimesOne(x: Entry<PendingInterrupt>, e: Entry<PendingInterrupt>)
    ensures Times([x], e) == if x == e then 1 else 0
  {
    assert [x][..0] == [];
  }

  lemma TimesInserted(s: Pending, x: Entry<PendingInterrupt>, e: Entry<PendingInterrupt>)
    ensures Times(InsertSorted(s, x), e) == Times(s, e) + if x == e then 1 else 0
  {
    var p := InsertPlace(s, x);
    assert InsertSorted(s, x) == s[..p] + ([x] + s[p..]) && s == s[..p] + s[p..];
    TimesJoin(s[..p], s[p..], e);
    TimesJoin(s[..p], [x] + s[p..], e);
    TimesJoin([x], s[p..], e);
    TimesOne(x, e);
  }

  lemma {:induction false} DeliveredJoin(a: seq<Firing>, b: seq<Firing>)
    ensures Delivered(a + b) == Delivered(a) + Delivered(b)
    decreases |b|
  {
    if b == [] {
      assert a + b == a;
    } else {
      assert (a + b)[..|a + b| - 1] == a + b[..|b| - 1];
      DeliveredJoin(a, b[..|b| - 1]);
    }
  }

  // How many interrupts are due.
  ghost function Due(pending: Pending, now: int): nat {
    if pending == [] then 0 else Due(pending[1..], now) + if pending[0].key <= now then 1 else 0
  }

  lemma {:induction false} DueAfterInsert(pending: Pending, e: Entry<PendingInterrupt>, now: int)
    ensures Due(InsertSorted(pending, e), now) == Due(pending, now) + if e.key <= now then 1 else 0
  {
    if pending != [] && pending[0].key <= e.key {
      DueAfterInsert(pending[1..], e, now);
      assert InsertSorted(pending, e)[1..] == InsertSorted(pending[1..], e);
    } else {
      assert InsertSorted(pending, e)[1..] == pending;
    }
  }

  ghost predicate NoneBefore(pending: Pending, time: int) {
    forall i | 0 <= i < |pending| :: pending[i].key >= time
  }

  // Interrupts are filed under their times.
  ghost predicate Keyed(pending: Pending) {
    forall i | 0 <= i < |pending| :: pending[i].key == pending[i].item.when
  }

  lemma {:induction false} InsertedKeyed(pending: Pending, e: Entry<PendingInterrupt>)
    requires Keyed(pending) && e.key == e.item.when
    ensures Keyed(InsertSorted(pending, e))
  {
    if pending != [] && pending[0].key <= e.key {
      InsertedKeyed(pending[1..], e);
    }
  }

  lemma Inserted(pending: Pending, e: Entry<PendingInterrupt>)
    requires Sorted(pending)
    ensures Sorted(InsertSorted(pending, e))
    ensures Keyed(pending) && e.key == e.item.when ==> Keyed(InsertSorted(pending, e))
    ensures forall time | NoneBefore(pending, time) && e.key >= time :: NoneBefore(InsertSorted(pending, e), time)
  {
    var p := InsertKeepsSorted(pending, e);
    if Keyed(pending) && e.key == e.item.when {
      InsertedKeyed(pending, e);
    }
  }

  // Nothing is lost or made up when the first interrupt is taken off and put back.
  lemma PutBack(pending: Pending, now: int)
    requires Sorted(pending)
    ensures multiset(Rotated(pending)) == multiset(pending) && Sorted(Rotated(pending))
    ensures Due(Rotated(pending), now) == Due(pending, now)
    ensures pending != [] ==> Rotated(pending) != [] && Rotated(pending)[0].key == pending[0].key
    ensures forall time | NoneBefore(pending, time) :: NoneBefore(Rotated(pending), time)
  {
    if pending != [] {
      var p := InsertKeepsSorted(pending[1..], pending[0]);
      DueAfterInsert(pending[1..], pending[0], now);
      FirstAndRest(pending);
    }
  }

  lemma AloneRotated(pending: Pending)
    ensures |pending| <= 1 ==> Rotated(pending) == pending
  {
  }

  lemma FirstAndRest(pending: Pending)
    requires pending != []
    ensures multiset(pending) == multiset(pending[1..]) + multiset{pending[0]}
  {
    assert pending == [pending[0]] + pending[1..];
  }

  ghost predicate Prefix<T>(a: seq<T>, b: seq<T>) {
    |a| <= |b| && b[..|a|] == a
  }

  lemma Prefixes<T>(a: seq<T>, b: seq<T>, c: seq<T>)
    requires Prefix(a, b) && Prefix(b, c)
    ensures Prefix(a, c)
  {
    assert c[..|a|] == c[..|b|][..|a|];
  }

  // Each delivery came no earlier than it was scheduled for, and no earlier than the one before.
  ghost predicate InOrder(firings: seq<Firing>) {
    firings != [] ==>
      var n := |firings| - 1;
      && firings[n].entry.key <= firings[n].ran
      && (n > 0 ==> firings[n - 1].entry.key <= firings[n].entry.key && firings[n - 1].ran <= firings[n].ran)
      && InOrder(firings[..n])
  }

  lemma {:induction false} DeliveredInOrder(firings: seq<Firing>, i: nat, j: nat)
    requires InOrder(firings) && i <= j < |firings|
    ensures firings[j].entry.key <= firings[j].ran
    ensures firings[i].entry.key <= firings[j].entry.key && firings[i].ran <= firings[j].ran
  {
    var n := |firings| - 1;
    if j < n {
      DeliveredInOrder(firings[..n], i, j);
    } else if i < n {
      DeliveredInOrder(firings[..n], i, n - 1);
    }
  }

  // The time after the clock may have been advanced to the first pending interrupt.
  function Advanced(pending: Pending, now: int, advanceClock: bool): int {
    if advanceClock && pending != [] && pending[0].key > now then pending[0].key else now
  }

  // An interrupt fires if it is due, unless it is the time-slice timer with nothing else to wait for.
  predicate Fires(pending: Pending, now: int, status: MachineStatus) {
    && pending != [] && pending[0].key <= now
    && !(status == IdleMode && |pending| == 1 && pending[0].item.kind == TimerInt)
  }

  // Nothing that has been scheduled is lost, delivered twice or made up: each interrupt has been
  // delivered as often as it was scheduled, but for the times it is pending.
  ghost predicate Accounted(requested: Pending, pending: Pending, firings: seq<Firing>) {
    forall e :: Times(requested, e) == Times(pending, e) + Times(Delivered(firings), e)
  }

  // The same while one interrupt is on its way from the list to its handler, or back.
  ghost predicate AccountedBut(requested: Pending, pending: Pending, firings: seq<Firing>, x: Entry<PendingInterrupt>) {
    forall e ::
      Times(requested, e) == Times(pending, e) + (if x == e then 1 else 0) + Times(Delivered(firings), e)
  }

  lemma {:induction false} TimesAt(s: Pending, i: nat)
    requires i < |s|
    ensures Times(s, s[i]) >= 1
  {
    if i < |s| - 1 {
      TimesAt(s[..|s| - 1], i);
    }
  }

  lemma {:induction false} TimesTwice(s: Pending, i: nat, j: nat)
    requires i < j < |s| && s[i] == s[j]
    ensures Times(s, s[i]) >= 2
  {
    if j < |s| - 1 {
      TimesTwice(s[..|s| - 1], i, j);
    } else {
      TimesAt(s[..|s| - 1], i);
    }
  }

  lemma {:induction false} TimesSome(s: Pending, e: Entry<PendingInterrupt>)
    requires Times(s, e) > 0
    ensures e in s
  {
    if s[|s| - 1] != e {
      TimesSome(s[..|s| - 1], e);
    }
  }

  lemma {:induction false} DeliveredAt(firings: seq<Firing>, i: nat)
    requires i < |firings|
    ensures Delivered(firings)[i] == firings[i].entry
  {
    if i < |firings| - 1 {
      DeliveredAt(firings[..|firings| - 1], i);
    }
  }

  // An interrupt that is scheduled once is delivered at most once, is not pending any more then, and
  // is pending until then.
  lemma DeliveredOnce(requested: Pending, pending: Pending, firings: seq<Firing>, e: Entry<PendingInterrupt>)
    requires Accounted(requested, pending, firings) && Times(requested, e) == 1
    ensures e in pending <==> forall i | 0 <= i < |firings| :: firings[i].entry != e
    ensures forall i, j | 0 <= i < j < |firings| :: !(firings[i].entry == e == firings[j].entry)
  {
    forall i, j | 0 <= i < j < |firings|
      ensures !(firings[i].entry == e == firings[j].entry)
    {
      DeliveredAt(firings, i);
      DeliveredAt(firings, j);
      if firings[i].entry == e == firings[j].entry {
        TimesTwice(Delivered(firings), i, j);
      }
    }
    if e in pending {
      var k :| 0 <= k < |pending| && pending[k] == e;
      TimesAt(pending, k);
      forall i | 0 <= i < |firings|
        ensures firings[i].entry != e
      {
        DeliveredAt(firings, i);
        TimesAt(Delivered(firings), i);
      }
    } else if Times(pending, e) > 0 {
      TimesSome(pending, e);
    } else {
      TimesSome(Delivered(firings), e);
      var i :| 0 <= i < |firings| && Delivered(firings)[i] == e;
      DeliveredAt(firings, i);
    }
  }

  // What has not been scheduled is neither pending nor delivered.
  lemma NothingMadeUp(requested: Pending, pending: Pending, firings: seq<Firing>, i: nat)
    requires Accounted(requested, pending, firings) && i < |firings|
    ensures firings[i].entry in requested
  {
    DeliveredAt(firings, i);
    TimesAt(Delivered(firings), i);
    TimesSome(requested, firings[i].entry);
  }

  lemma AccountedScheduled(requested: Pending, pending: Pending, firings: seq<Firing>, x: Entry<PendingInterrupt>)
    requires Accounted(requested, pending, firings)
    ensures Accounted(requested + [x], InsertSorted(pending, x), firings)
  {
    forall e
      ensures Times(requested + [x], e) == Times(InsertSorted(pending, x), e) + Times(Delivered(firings), e)
    {
      TimesJoin(requested, [x], e);
      TimesOne(x, e);
      TimesInserted(pending, x, e);
    }
  }

  lemma AccountedTaken(requested: Pending, pending: Pending, firings: seq<Firing>)
    requires pending != [] && Accounted(requested, pending, firings)
    ensures AccountedBut(requested, pending[1..], firings, pending[0])
  {
    forall e
      ensures Times(pending, e) == Times(pending[1..], e) + if pending[0] == e then 1 else 0
    {
      assert pending == [pending[0]] + pending[1..];
      TimesJoin([pending[0]], pending[1..], e);
      TimesOne(pending[0], e);
    }
  }

  lemma AccountedReturned(requested: Pending, pending: Pending, firings: seq<Firing>, x: Entry<PendingInterrupt>)
    requires AccountedBut(requested, pending, firings, x)
    ensures Accounted(requested, InsertSorted(pending, x), firings)
  {
    forall e
      ensures Times(InsertSorted(pending, x), e) == Times(pending, e) + if x == e then 1 else 0
    {
      TimesInserted(pending, x, e);
    }
  }

  lemma AccountedFired(requested: Pending, pending: Pending, firings: seq<Firing>, f: Firing)
    requires AccountedBut(requested, pending, firings, f.entry)
    ensures Accounted(requested, pending, firings + [f])
  {
    assert (firings + [f])[..|firings|] == firings;
    forall e
      ensures Times(Delivered(firings + [f]), e) == Times(Delivered(firings), e) + if f.entry == e then 1 else 0
    {
      TimesJoin(Delivered(firings), [f.entry], e);
      TimesOne(f.entry, e);
    }
  }

  // What was pending or was scheduled in between is pending or was delivered in between.
  ghost predicate Conserved(pending: Pending, requests: Pending, pending': Pending, delivered: Pending) {
    forall e :: Times(pending, e) + Times(requests, e) == Times(pending', e) + Times(delivered, e)
  }

  lemma AccountedSince(requested: Pending, pending: Pending, firings: seq<Firing>, requests: Pending,
                       pending': Pending, delivered: seq<Firing>)
    requires Accounted(requested, pending, firings)
    requires Accounted(requested + requests, pending', firings + delivered)
    ensures Conserved(pending, requests, pending', Delivered(delivered))
  {
    DeliveredJoin(firings, delivered);
    forall e
      ensures Times(pending, e) + Times(requests, e) == Times(pending', e) + Times(Delivered(delivered), e)
    {
      TimesJoin(requested, requests, e);
      TimesJoin(Delivered(firings), Delivered(delivered), e);
      assert Times(requested, e) == Times(pending, e) + Times(Delivered(firings), e);
      assert Times(requested + requests, e) == Times(pending', e) + Times(Delivered(firings + delivered), e);
    }
  }

  // The first interrupt taken off and put back.
  function Rotated(pending: Pending): Pending {
    if pending == [] then [] else InsertSorted(pending[1..], pending[0])
  }

  class Interrupt {
    var level: IntStatus
    var pending: Pending
    var inHandler: bool
    var yieldOnReturn: bool
    var status: MachineStatus
    var totalTicks: int
    var idleTicks: int
    var systemTicks: int
    var userTicks: int
    ghost var requested: Pending // everything that has ever been scheduled
    ghost var firings: seq<Firing>

    // Time is accounted for, interrupts are pending in order, and those that have been delivered
    // were delivered in order and not early, before any that are still pending.
    ghost predicate Sound()
      reads this
    {
      && totalTicks == idleTicks + systemTicks + userTicks
      && Sorted(pending) && Keyed(pending)
      && InOrder(firings)
      && (firings != [] ==>
            && firings[|firings| - 1].ran <= totalTicks
            && NoneBefore(pending, firings[|firings| - 1].entry.key))
    }

    // Besides, whatever has been scheduled is pending or has been delivered, each as often as it
    // was scheduled.
    ghost predicate Valid()
      reads this
    {
      Sound() && Accounted(requested, pending, firings)
    }

    // The same while the first interrupt is off the list.
    ghost predicate Taken(e: Entry<PendingInterrupt>)
      reads this
    {
      && Sound() && AccountedBut(requested, pending, firings, e)
      && e.key == e.item.when && NoneBefore(pending, e.key)
      && (firings != [] ==> firings[|firings| - 1].entry.key <= e.key)
    }

    constructor ()
      ensures Valid() && level == IntOff && pending == [] && status == SystemMode && firings == [] && requested == [] &&
              totalTicks == 0
    {
      level, pending, inHandler, yieldOnReturn, status := IntOff, [], false, false, SystemMode;
      totalTicks, idleTicks, systemTicks, userTicks := 0, 0, 0, 0;
      firings, requested := [], [];
    }

    method Schedule(handler: int, arg: int, fromNow: int, kind: IntType)
      requires Valid() && fromNow > 0
      modifies this`pending, this`requested
      ensures Valid()
      ensures var when := totalTicks + fromNow;
              var e := Entry(when, PendingInterrupt(handler, arg, when, kind));
              pending == InsertSorted(old(pending), e) && requested == old(requested) + [e]
      ensures Due(pending, totalTicks) == Due(old(pending), totalTicks)
    {
      var when := totalTicks + fromNow;
      var toOccur := PendingInterrupt(handler, arg, when, kind);
      DueAfterInsert(pending, Entry(when, toOccur), totalTicks);
      Inserted(pending, Entry(when, toOccur));
      AccountedScheduled(requested, pending, firings, Entry(when, toOccur));
      requested := requested + [Entry(when, toOccur)];
      pending := InsertSorted(pending, Entry(when, toOccur));
    }

    // Logs only grow, and what was pending or has been scheduled since is pending or has been
    // delivered since.
    twostate predicate Grown()
      reads this
    {
      Prefix(old(requested), requested) && Prefix(old(firings), firings)
    }

    twostate predicate NoneLost()
      requires Grown()
      reads this
    {
      Conserved(old(pending), requested[|old(requested)|..], pending, Delivered(firings[|old(firings)|..]))
    }

    twostate lemma LosesNone()
      requires old(Valid()) && Valid() && Grown()
      ensures NoneLost()
    {
      var requests, delivered := requested[|old(requested)|..], firings[|old(firings)|..];
      assert requested == old(requested) + requests && firings == old(firings) + delivered;
      AccountedSince(old(requested), old(pending), old(firings), requests, pending, delivered);
    }

    // Any handler: it may schedule further interrupts and ask for a context switch on return.
    method CallHandler(toOccur: PendingInterrupt)
      requires Taken(Entry(toOccur.when, toOccur)) && toOccur.when <= totalTicks && inHandler
      modifies this`pending, this`yieldOnReturn, this`requested, this`firings
      ensures Valid() && Due(pending, totalTicks) == Due(old(pending), totalTicks)
      ensures firings == old(firings) + [Firing(Entry(toOccur.when, toOccur), totalTicks)] && Grown()
    {
      Record(Entry(toOccur.when, toOccur));
      var requests: seq<Request> := *;
      for i := 0 to |requests|
        invariant Valid() && Due(pending, totalTicks) == Due(old(pending), totalTicks) && Grown()
        invariant firings == old(firings) + [Firing(Entry(toOccur.when, toOccur), totalTicks)]
      {
        if requests[i].fromNow > 0 { // Schedule asserts as much
          Schedule(requests[i].handler, requests[i].arg, requests[i].fromNow, requests[i].kind);
        }
      }
      yieldOnReturn := *;
    }

    ghost method Record(e: Entry<PendingInterrupt>)
      requires Taken(e) && e.key <= totalTicks
      modifies this`firings
      ensures Valid() && firings == old(firings) + [Firing(e, totalTicks)]
    {
      AccountedFired(requested, pending, firings, Firing(e, totalTicks));
      firings := firings + [Firing(e, totalTicks)];
      assert firings[..|firings| - 1] == old(firings);
    }

    // The first pending interrupt goes off if its time has come, or is made to come.
    method CheckIfDue(advanceClock: bool) returns (fired: bool)
      requires Valid() && level == IntOff && !inHandler
      modifies this`pending, this`inHandler, this`yieldOnReturn, this`status, this`totalTicks, this`idleTicks,
               this`firings, this`requested
      ensures Valid() && !inHandler && status == old(status)
      ensures totalTicks == Advanced(old(pending), old(totalTicks), advanceClock)
      ensures fired == Fires(old(pending), totalTicks, status)
      ensures fired ==>
                && firings == old(firings) + [Firing(old(pending)[0], totalTicks)]
                && Due(pending, totalTicks) == Due(old(pending)[1..], totalTicks)
      ensures !fired ==> firings == old(firings) && requested == old(requested) && pending == Rotated(old(pending))
      ensures Grown() && NoneLost()
    {
      if pending == [] { // nothing will ever happen
        LosesNone();
        return false;
      }
      ghost var before := pending;
      var when, toOccur := TakeFirst();
      fired := FireOrReturn(when, toOccur, advanceClock, before);
      LosesNone();
    }

    // The rest, with the first interrupt off the list.
    method FireOrReturn(when: int, toOccur: PendingInterrupt, advanceClock: bool, ghost before: Pending)
      returns (fired: bool)
      requires Taken(Entry(when, toOccur)) && before != [] && before[0] == Entry(when, toOccur)
      requires pending == before[1..] && Sorted(before) && !inHandler
      modifies this`pending, this`inHandler, this`yieldOnReturn, this`status, this`totalTicks, this`idleTicks,
               this`firings, this`requested
      ensures Valid() && !inHandler && status == old(status) && Grown()
      ensures totalTicks == Advanced(before, old(totalTicks), advanceClock)
      ensures fired == Fires(before, totalTicks, status)
      ensures fired ==>
                && firings == old(firings) + [Firing(before[0], totalTicks)]
                && Due(pending, totalTicks) == Due(before[1..], totalTicks)
      ensures !fired ==> firings == old(firings) && requested == old(requested) && pending == Rotated(before)
    {
      if advanceClock && when > totalTicks { // skip the time in between
        idleTicks := idleTicks + (when - totalTicks);
        totalTicks := when;
      } else if when > totalTicks { // too early
        Return(when, toOccur, before);
        return false;
      }
      // a lone timer would keep an idle machine going for ever
      if status == IdleMode && toOccur.kind == TimerInt && pending == [] {
        Return(when, toOccur, before);
        return false;
      }
      Fire(when, toOccur);
      return true;
    }

    method TakeFirst() returns (when: int, toOccur: PendingInterrupt)
      requires Valid() && pending != []
      modifies this`pending
      ensures old(pending)[0] == Entry(when, toOccur) && pending == old(pending)[1..] && Taken(Entry(when, toOccur))
    {
      FirstAfterRest(pending);
      AccountedTaken(requested, pending, firings);
      when, toOccur := pending[0].key, pending[0].item;
      pending := pending[1..];
    }

    method Return(when: int, toOccur: PendingInterrupt, ghost before: Pending)
      requires Taken(Entry(when, toOccur)) && before != [] && before[0] == Entry(when, toOccur)
      requires pending == before[1..] && Sorted(before)
      modifies this`pending
      ensures Valid() && pending == Rotated(before)
    {
      Inserted(pending, Entry(when, toOccur));
      AccountedReturned(requested, pending, firings, Entry(when, toOccur));
      pending := InsertSorted(pending, Entry(when, toOccur));
      assert pending == InsertSorted(before[1..], before[0]);
    }

    method Fire(when: int, toOccur: PendingInterrupt)
      requires Taken(Entry(when, toOccur)) && when <= totalTicks && !inHandler
      modifies this`pending, this`inHandler, this`yieldOnReturn, this`status, this`firings, this`requested
      ensures Valid() && !inHandler && status == old(status) && Grown()
      ensures firings == old(firings) + [Firing(Entry(when, toOccur), totalTicks)]
      ensures Due(pending, totalTicks) == Due(old(pending), totalTicks)
    {
      var oldStatus := status;
      inHandler := true;
      status := SystemMode; // a handler is part of the kernel
      CallHandler(toOccur);
      status := oldStatus;
      inHandler := false;
    }

    // Advance simulated time and deliver whatever is due. The loop ends: a handler only schedules
    // interrupts that are not due yet. The yield that a handler may have asked for is reported.
    method OneTick() returns (mustYield: bool)
      requires Valid() && !inHandler && status != IdleMode
      modifies this
      ensures Valid() && !inHandler && status == old(status) && level == IntOn && !yieldOnReturn
      ensures totalTicks == old(totalTicks) + if status == SystemMode then SYSTEM_TICK else USER_TICK
      ensures forall i | 0 <= i < |pending| :: pending[i].key > totalTicks
      ensures Grown() && NoneLost()
    {
      Tick();
      // everything due by now
      level := IntOff; // a handler is not interrupted
      DeliverAll();
      level := IntOn;
      mustYield := yieldOnReturn;
      yieldOnReturn := false;
      LosesNone();
    }

    method Tick()
      requires Valid()
      modifies this`totalTicks, this`systemTicks, this`userTicks
      ensures Valid() && totalTicks == old(totalTicks) + if status == SystemMode then SYSTEM_TICK else USER_TICK
    {
      if status == SystemMode {
        totalTicks := totalTicks + SYSTEM_TICK;
        systemTicks := systemTicks + SYSTEM_TICK;
      } else {
        totalTicks := totalTicks + USER_TICK;
        userTicks := userTicks + USER_TICK;
      }
    }

    method DeliverAll()
      requires Valid() && level == IntOff && !inHandler
      modifies this`pending, this`inHandler, this`yieldOnReturn, this`status, this`totalTicks, this`idleTicks,
               this`firings, this`requested
      ensures Valid() && !inHandler && status == old(status) && totalTicks == old(totalTicks) &&
              idleTicks == old(idleTicks)
      ensures Grown() && NoneLost()
      ensures (forall i | 0 <= i < |pending| :: pending[i].key > totalTicks) ||
              (status == IdleMode && |pending| == 1 && pending[0].item.kind == TimerInt)
    {
      ghost var requested0, firings0 := requested, firings;
      var more := true;
      while more
        invariant Valid() && !inHandler && status == old(status)
        invariant totalTicks == old(totalTicks) && idleTicks == old(idleTicks)
        invariant Prefix(requested0, requested) && Prefix(firings0, firings)
        invariant !more ==> (forall i | 0 <= i < |pending| :: pending[i].key > totalTicks) ||
                            (status == IdleMode && |pending| == 1 && pending[0].item.kind == TimerInt)
        decreases Due(pending, totalTicks), more
      {
        ghost var requested1, firings1 := requested, firings;
        more := DeliverOne();
        Prefixes(requested0, requested1, requested);
        Prefixes(firings0, firings1, firings);
      }
      LosesNone();
    }

    // One pass through that loop
    method DeliverOne() returns (more: bool)
      requires Valid() && level == IntOff && !inHandler
      modifies this`pending, this`inHandler, this`yieldOnReturn, this`status, this`totalTicks, this`idleTicks,
               this`firings, this`requested
      ensures Valid() && !inHandler && status == old(status) && totalTicks == old(totalTicks) &&
              idleTicks == old(idleTicks)
      ensures Grown()
      ensures Due(pending, totalTicks) <= old(Due(pending, totalTicks))
      ensures more ==> Due(pending, totalTicks) < old(Due(pending, totalTicks))
      ensures !more ==> (forall i | 0 <= i < |pending| :: pending[i].key > totalTicks) ||
                        (status == IdleMode && |pending| == 1 && pending[0].item.kind == TimerInt)
    {
      PutBack(pending, totalTicks);
      more := CheckIfDue(false);
    }

    // With nothing to run, advance time to the next interrupt. Without one, the machine halts.
    method Idle() returns (halted: bool)
      requires Valid() && level == IntOff && !inHandler
      modifies this
      ensures Valid() && !inHandler && level == IntOff
      ensures halted ==> status == IdleMode && firings == old(firings) && pending == old(pending)
      ensures halted <==> old(pending) == [] || (|old(pending)| == 1 && old(pending)[0].item.kind == TimerInt)
      ensures !halted ==>
                && status == SystemMode && !yieldOnReturn && |firings| > |old(firings)|
                && totalTicks - old(totalTicks) == idleTicks - old(idleTicks) >= 0
                && firings[|old(firings)|].entry == old(pending)[0]
                && totalTicks == if old(pending)[0].key > old(totalTicks) then old(pending)[0].key else old(totalTicks)
      ensures Grown() && NoneLost()
    {
      ghost var requested0, firings0 := requested, firings;
      status := IdleMode;
      AloneRotated(pending);
      var fired := CheckIfDue(true);
      if fired {
        ghost var requested1, firings1 := requested, firings;
        EndIdle();
        Prefixes(requested0, requested1, requested);
        Prefixes(firings0, firings1, firings);
        assert firings[|firings0|] == firings1[|firings0|];
      }
      LosesNone();
      return !fired;
    }

    // Deliver whatever else is due; there may be a runnable thread now.
    method EndIdle()
      requires Valid() && level == IntOff && !inHandler
      modifies this
      ensures Valid() && level == IntOff && !inHandler && status == SystemMode && !yieldOnReturn
      ensures Grown() && totalTicks == old(totalTicks) && idleTicks == old(idleTicks)
    {
      DeliverAll();
      yieldOnReturn := false;
      status := SystemMode;
    }

    // Enabling interrupts takes a tick.
    method SetLevel(now: IntStatus) returns (previous: IntStatus, mustYield: bool)
      requires Valid() && status != IdleMode
      requires now == IntOff || !inHandler // what the ASSERT forbids to handlers
      modifies this
      ensures Valid() && previous == old(level) && level == now && inHandler == old(inHandler)
      ensures totalTicks >= old(totalTicks)
      ensures now == IntOn && previous == IntOff ==> forall i | 0 <= i < |pending| :: pending[i].key > totalTicks
      ensures !(now == IntOn && previous == IntOff) ==>
                totalTicks == old(totalTicks) && firings == old(firings) && pending == old(pending)
      ensures Grown() && NoneLost()
    {
      previous, mustYield := level, false;
      level := now;
      if now == IntOn && previous == IntOff {
        mustYield := OneTick();
      }
      LosesNone();
    }
  }

  lemma FirstAfterRest(pending: Pending)
    requires Sorted(pending) && pending != []
    ensures Sorted(pending[1..]) && NoneBefore(pending[1..], pending[0].key)
  {
  }
}
