// The simulated processor: machine/machine.cc, the memory access of machine/translate.cc, and the
// execution of one instruction in machine/mipssim.cc.
module Machine {
  import opened Basics
  import opened Bytes
  import opened Translate
  import opened Instruction

  const PC_REG := 34
  const NEXT_PC_REG := 35
  const PREV_PC_REG := 36
  const LOAD_REG := 37
  const LOAD_VALUE_REG := 38
  const BAD_VADDR_REG := 39
  const NUM_TOTAL_REGS := 40

  type Registers = r: seq<int32> | |r| == NUM_TOTAL_REGS witness seq(NUM_TOTAL_REGS, _ => 0)

  // The state of the processor as the kernel sees it, and what one instruction makes of it.
  datatype Cpu = Cpu(regs: Registers, memory: Memory, mapping: Mapping)

  datatype Outcome = Outcome(cpu: Cpu, exception: Exception)

  // A delayed load is pending into a general register, and register 0 is zero.
  predicate Sound(regs: Registers) {
    0 <= regs[LOAD_REG] < 32 && regs[0] == 0
  }

  function DelayedLoad(regs: Registers, nextReg: Gpr, nextValue: int32): (r: Registers)
    requires 0 <= regs[LOAD_REG] < 32
    ensures Sound(r)
  {
    regs[regs[LOAD_REG] := regs[LOAD_VALUE_REG]][LOAD_REG := nextReg][LOAD_VALUE_REG := nextValue][0 := 0]
  }

  // Up to the call of the kernel's exception handler
  function Raise(c: Cpu, e: Exception, badVAddr: int32): Outcome
    requires 0 <= c.regs[LOAD_REG] < 32
  {
    Outcome(c.(regs := DelayedLoad(c.regs[BAD_VADDR_REG := badVAddr], 0, 0)), e)
  }

  // The end of an instruction: the pending load, and the program counters.
  function Advance(regs: Registers, nextLoadReg: Gpr, nextLoadValue: int32, pcAfter: int32): Registers
    requires 0 <= regs[LOAD_REG] < 32
  {
    var r := DelayedLoad(regs, nextLoadReg, nextLoadValue);
    r[PREV_PC_REG := r[PC_REG]][PC_REG := r[NEXT_PC_REG]][NEXT_PC_REG := pcAfter]
  }

  function Complete(c: Cpu, regs: Registers, nextLoadReg: Gpr, nextLoadValue: int32, pcAfter: int32): Outcome
    requires 0 <= regs[LOAD_REG] < 32
  {
    Outcome(c.(regs := Advance(regs, nextLoadReg, nextLoadValue, pcAfter)), NoException)
  }

  function OperandsOf(regs: Registers, i: Instruction): Operands {
    Operands(regs[i.rs], regs[i.rt], regs[HI_REG], regs[LO_REG], regs[NEXT_PC_REG],
             if regs[LOAD_REG] == i.rt then regs[LOAD_VALUE_REG] else regs[i.rt])
  }

  function Extended(value: int32, size: nat, signExtend: bool): int32 {
    if size == 1 then (if value % 0x100 >= 0x80 && signExtend then value % 0x100 - 0x100 else value % 0x100)
    else if size == 2 then
      (if value % 0x1_0000 >= 0x8000 && signExtend then value % 0x1_0000 - 0x1_0000 else value % 0x1_0000)
    else value
  }

  // What lwr makes of an aligned word, and what swr makes of one.
  function MergeRight(before: int32, value: int32): int32 {
    Signed(Unsigned(before) / 0x100 * 0x100 + Unsigned(value) / 0x100_0000)
  }

  function OverRight(before: int32, value: int32): int32 {
    Signed(Unsigned(before) % 0x100_0000 + Unsigned(value) % 0x100 * 0x100_0000)
  }

  function Link(regs: Registers): int32 {
    var next: int := regs[NEXT_PC_REG];
    Wrap(next + 4)
  }

  function PerformStoreOver(c: Cpu, addr: int32, value: int32, whole: bool): Outcome
    requires Sound(c.regs)
  {
    match Read(c.mapping, c.memory, addr, 4)
    case NoRead(ex) => Raise(c, ex, addr)
    case Value(before, marked) =>
      match Write(marked, c.memory, addr, 4, if whole then value else OverRight(before, value))
      case NoWrite(ex) => Raise(c.(mapping := marked), ex, addr)
      case Written(memory, mapping) =>
        Complete(c.(memory := memory, mapping := mapping), c.regs, 0, 0, Link(c.regs))
  }

  function Perform(c: Cpu, e: Effect): Outcome
    requires Sound(c.regs)
  {
    var pcAfter := Link(c.regs);
    match e
    case Trap(ex, bad) => Raise(c, ex, bad)
    case Set(reg, value) => Complete(c, c.regs[reg := value], 0, 0, pcAfter)
    case SetHiLo(hi, lo) => Complete(c, c.regs[HI_REG := hi][LO_REG := lo], 0, 0, pcAfter)
    case Jump(link, target) =>
      Complete(c, if link.Some? then c.regs[link.value := Link(c.regs)] else c.regs, 0, 0, target)
    case Load(addr, size, signExtend, reg) =>
      (match Read(c.mapping, c.memory, addr, size)
       case NoRead(ex) => Raise(c, ex, addr)
       case Value(value, mapping) =>
         Complete(c.(mapping := mapping), c.regs, reg, Extended(value, size, signExtend), pcAfter))
    case Store(addr, size, value) =>
      (match Write(c.mapping, c.memory, addr, size, value)
       case NoWrite(ex) => Raise(c, ex, addr)
       case Written(memory, mapping) => Complete(c.(memory := memory, mapping := mapping), c.regs, 0, 0, pcAfter))
    case LoadRight(addr, before, reg) =>
      (match Read(c.mapping, c.memory, addr, 4)
       case NoRead(ex) => Raise(c, ex, addr)
       case Value(value, mapping) =>
         Complete(c.(mapping := mapping), c.regs, reg, MergeRight(before, value), pcAfter))
    case StoreOver(addr, value, whole) => PerformStoreOver(c, addr, value, whole)
    case Abort => Outcome(c, NoException)
  }

  // The instruction that is next, if it can be fetched.
  function NextInstruction(c: Cpu): Option<Instruction> {
    match Read(c.mapping, c.memory, c.regs[PC_REG], 4)
    case NoRead(_) => None
    case Value(raw, _) => Some(Decode(Unsigned(raw)))
  }

  // OneInstruction, up to the kernel's exception handler if there is an exception.
  function Execute(c: Cpu): Outcome
    requires Sound(c.regs)
  {
    match Read(c.mapping, c.memory, c.regs[PC_REG], 4)
    case NoRead(ex) => Raise(c, ex, c.regs[PC_REG])
    case Value(raw, mapping) =>
      var i := Decode(Unsigned(raw));
      Perform(c.(mapping := mapping), EffectOf(i, OperandsOf(c.regs, i)))
  }

  // Where a fault comes from, it does no more than RaiseException does.
  ghost predicate OnlyRaised(c: Cpu, o: Outcome)
    requires Sound(c.regs)
  {
    o.cpu.memory == c.memory && o.cpu.regs == Raise(c, NoException, o.cpu.regs[BAD_VADDR_REG]).cpu.regs
  }

  lemma RaisedOnly(c: Cpu, e: Exception, badVAddr: int32)
    requires Sound(c.regs)
    ensures OnlyRaised(c, Raise(c, e, badVAddr))
  {
    assert Raise(c, e, badVAddr).cpu.regs[BAD_VADDR_REG] == badVAddr;
  }

  lemma PerformRaises(c: Cpu, e: Effect)
    requires Sound(c.regs) && Perform(c, e).exception != NoException
    ensures OnlyRaised(c, Perform(c, e))
  {
    match e {
      case Trap(ex, bad) => RaisedOnly(c, ex, bad);
      case Load(addr, size, _, _) => RaisedOnly(c, Read(c.mapping, c.memory, addr, size).e, addr);
      case LoadRight(addr, _, _) => RaisedOnly(c, Read(c.mapping, c.memory, addr, 4).e, addr);
      case Store(addr, size, value) => RaisedOnly(c, Write(c.mapping, c.memory, addr, size, value).e, addr);
      case StoreOver(addr, _, _) => RaisedOnly(c.(mapping := Perform(c, e).cpu.mapping), Perform(c, e).exception, addr);
    }
  }

  lemma FaultIsRaise(c: Cpu)
    requires Sound(c.regs) && Execute(c).exception != NoException
    ensures OnlyRaised(c, Execute(c))
  {
    match Read(c.mapping, c.memory, c.regs[PC_REG], 4) {
      case NoRead(ex) => RaisedOnly(c, ex, c.regs[PC_REG]);
      case Value(raw, mapping) =>
        var i := Decode(Unsigned(raw));
        PerformRaises(c.(mapping := mapping), EffectOf(i, OperandsOf(c.regs, i)));
    }
  }

  // A fault retires the pending load and notes the address; nothing else of the processor changes.
  lemma FaultChangesNothingElse(c: Cpu)
    requires Sound(c.regs) && Execute(c).exception != NoException
    ensures Execute(c).cpu.memory == c.memory
    ensures var r, r' := c.regs, Execute(c).cpu.regs;
            && (forall k | k in {PC_REG, NEXT_PC_REG, PREV_PC_REG, HI_REG, LO_REG} :: r'[k] == r[k])
            && r'[LOAD_REG] == 0 && r'[LOAD_VALUE_REG] == 0
            && forall g: Gpr :: r'[g] == if g == 0 then 0 else if g == r[LOAD_REG] then r[LOAD_VALUE_REG] else r[g]
  {
    FaultIsRaise(c);
    RaisedRegisters(c, Execute(c).cpu.regs[BAD_VADDR_REG]);
  }

  lemma RaisedRegisters(c: Cpu, bad: int32)
    requires Sound(c.regs)
    ensures var r, r' := c.regs, Raise(c, NoException, bad).cpu.regs;
            && (forall k | k in {PC_REG, NEXT_PC_REG, PREV_PC_REG, HI_REG, LO_REG} :: r'[k] == r[k])
            && r'[LOAD_REG] == 0 && r'[LOAD_VALUE_REG] == 0
            && forall g: Gpr :: r'[g] == if g == 0 then 0 else if g == r[LOAD_REG] then r[LOAD_VALUE_REG] else r[g]
  {
  }

  // The pending load of a register is of no concern to an instruction. A load into register 0 is lost,
  // except to a lwr into register 0, which still finds its value.
  predicate Untouched(i: Instruction, r: Gpr) {
    if r == 0 then !(i.op.Lwr? && i.rt == 0) else !Reads(i, r) && !Writes(i, r)
  }

  // No ASSERT of the instruction fails.
  predicate Completes(c: Cpu, i: Instruction) {
    !EffectOf(i, OperandsOf(c.regs, i)).Abort?
  }

  ghost predicate SameButBadVAddr(r: Registers, r': Registers) {
    forall k | 0 <= k < NUM_TOTAL_REGS && k != BAD_VADDR_REG :: r[k] == r'[k]
  }

  ghost predicate SameOutcome(a: Outcome, b: Outcome) {
    && a.exception == b.exception && a.cpu.memory == b.cpu.memory && a.cpu.mapping == b.cpu.mapping
    && SameButBadVAddr(a.cpu.regs, b.cpu.regs)
  }

  // Retiring the pending load early changes nothing for an instruction that does not touch its register.
  lemma RetiredEarly(c: Cpu, bad: int32, i: Instruction)
    requires Sound(c.regs) && Untouched(i, c.regs[LOAD_REG])
    ensures var d := Raise(c, NoException, bad).cpu;
            EffectOf(i, OperandsOf(c.regs, i)) == EffectOf(i, OperandsOf(d.regs, i))
  {
    var d := Raise(c, NoException, bad).cpu;
    EffectIgnores(i, OperandsOf(c.regs, i), OperandsOf(d.regs, i));
  }

  predicate Spares(e: Effect, r: Gpr) {
    && !e.Abort?
    && (e.Set? && r != 0 ==> e.reg != r)
    && (e.Jump? && e.link.Some? && r != 0 ==> e.link.value != r)
  }

  lemma PerformedLater(c: Cpu, d: Cpu, e: Effect)
    requires Sound(c.regs) && Sound(d.regs) && Ahead(c.regs, d.regs) && d == c.(regs := d.regs)
    requires Spares(e, c.regs[LOAD_REG])
    ensures SameOutcome(Perform(c, e), Perform(d, e))
  {
    var r, s := c.regs, d.regs;
    match e {
      case Set(reg, value) =>
        AheadUpdated(r, s, reg, value);
        CompletedAlike(c, d, r[reg := value], s[reg := value], 0, 0, Link(r));
      case SetHiLo(hi, lo) =>
        AheadUpdated(r, s, HI_REG, hi);
        AheadUpdated(r[HI_REG := hi], s[HI_REG := hi], LO_REG, lo);
        CompletedAlike(c, d, r[HI_REG := hi][LO_REG := lo], s[HI_REG := hi][LO_REG := lo], 0, 0, Link(r));
      case Jump(link, target) => JumpedLater(c, d, link, target);
      case Trap(ex, at) => RaisedAlike(c, d, ex, at);
      case _ => TransferredLater(c, d, e);
    }
  }

  lemma JumpedLater(c: Cpu, d: Cpu, link: Option<Gpr>, target: int32)
    requires Sound(c.regs) && Sound(d.regs) && Ahead(c.regs, d.regs) && d == c.(regs := d.regs)
    requires Spares(Jump(link, target), c.regs[LOAD_REG])
    ensures SameOutcome(Perform(c, Jump(link, target)), Perform(d, Jump(link, target)))
  {
    var r, s := c.regs, d.regs;
    if link.Some? {
      AheadUpdated(r, s, link.value, Link(r));
      CompletedAlike(c, d, r[link.value := Link(r)], s[link.value := Link(r)], 0, 0, target);
    } else {
      CompletedAlike(c, d, r, s, 0, 0, target);
    }
  }

  lemma TransferredLater(c: Cpu, d: Cpu, e: Effect)
    requires Sound(c.regs) && Sound(d.regs) && Ahead(c.regs, d.regs) && d == c.(regs := d.regs)
    requires e.Load? || e.LoadRight? || e.Store? || e.StoreOver?
    ensures SameOutcome(Perform(c, e), Perform(d, e))
  {
    match e {
      case Load(addr, size, signExtend, reg) => LoadedLater(c, d, e);
      case LoadRight(addr, before, reg) => LoadedRightLater(c, d, e);
      case Store(addr, size, value) => StoredLater(c, d, e);
      case StoreOver(addr, value, whole) => StoredOverLater(c, d, addr, value, whole);
    }
  }

  lemma LoadedLater(c: Cpu, d: Cpu, e: Effect)
    requires Sound(c.regs) && Sound(d.regs) && Ahead(c.regs, d.regs) && d == c.(regs := d.regs) && e.Load?
    ensures SameOutcome(Perform(c, e), Perform(d, e))
  {
    match Read(c.mapping, c.memory, e.addr, e.size) {
      case NoRead(ex) => RaisedAlike(c, d, ex, e.addr);
      case Value(value, m) =>
        var loaded := Extended(value, e.size, e.signExtend);
        CompletedAlike(c.(mapping := m), d.(mapping := m), c.regs, d.regs, e.target, loaded, Link(c.regs));
    }
  }

  lemma LoadedRightLater(c: Cpu, d: Cpu, e: Effect)
    requires Sound(c.regs) && Sound(d.regs) && Ahead(c.regs, d.regs) && d == c.(regs := d.regs) && e.LoadRight?
    ensures SameOutcome(Perform(c, e), Perform(d, e))
  {
    match Read(c.mapping, c.memory, e.addr, 4) {
      case NoRead(ex) => RaisedAlike(c, d, ex, e.addr);
      case Value(value, m) =>
        var loaded := MergeRight(e.before, value);
        CompletedAlike(c.(mapping := m), d.(mapping := m), c.regs, d.regs, e.target, loaded, Link(c.regs));
    }
  }

  lemma StoredLater(c: Cpu, d: Cpu, e: Effect)
    requires Sound(c.regs) && Sound(d.regs) && Ahead(c.regs, d.regs) && d == c.(regs := d.regs) && e.Store?
    ensures SameOutcome(Perform(c, e), Perform(d, e))
  {
    match Write(c.mapping, c.memory, e.addr, e.size, e.value) {
      case NoWrite(ex) => RaisedAlike(c, d, ex, e.addr);
      case Written(memory, m) =>
        var c', d' := c.(memory := memory, mapping := m), d.(memory := memory, mapping := m);
        CompletedAlike(c', d', c.regs, d.regs, 0, 0, Link(c.regs));
    }
  }

  lemma StoredOverLater(c: Cpu, d: Cpu, addr: int32, value: int32, whole: bool)
    requires Sound(c.regs) && Sound(d.regs) && Ahead(c.regs, d.regs) && d == c.(regs := d.regs)
    ensures SameOutcome(PerformStoreOver(c, addr, value, whole), PerformStoreOver(d, addr, value, whole))
  {
    match Read(c.mapping, c.memory, addr, 4) {
      case NoRead(ex) => RaisedAlike(c, d, ex, addr);
      case Value(before, marked) =>
        match Write(marked, c.memory, addr, 4, if whole then value else OverRight(before, value)) {
          case NoWrite(ex) => RaisedAlike(c.(mapping := marked), d.(mapping := marked), ex, addr);
          case Written(memory, m) =>
            var c', d' := c.(memory := memory, mapping := m), d.(memory := memory, mapping := m);
            CompletedAlike(c', d', c.regs, d.regs, 0, 0, Link(c.regs));
        }
    }
  }

  // The second set of registers is the first with its pending load retired.
  ghost predicate Ahead(r: Registers, d: Registers) {
    && 0 <= r[LOAD_REG] < 32 && d[LOAD_REG] == 0
    && forall k | 0 < k < LOAD_REG :: d[k] == if k == r[LOAD_REG] then r[LOAD_VALUE_REG] else r[k]
  }

  lemma AheadUpdated(r: Registers, d: Registers, reg: Writable, value: int32)
    requires Ahead(r, d) && (reg == 0 || reg != r[LOAD_REG])
    ensures Ahead(r[reg := value], d[reg := value])
  {
  }

  lemma AdvancedAlike(r: Registers, d: Registers, nextLoadReg: Gpr, nextLoadValue: int32, pcAfter: int32)
    requires Ahead(r, d)
    ensures SameButBadVAddr(Advance(r, nextLoadReg, nextLoadValue, pcAfter),
                            Advance(d, nextLoadReg, nextLoadValue, pcAfter))
  {
  }

  lemma CompletedAlike(c: Cpu, d: Cpu, r: Registers, s: Registers, nextLoadReg: Gpr, nextLoadValue: int32,
                       pcAfter: int32)
    requires Ahead(r, s) && c.memory == d.memory && c.mapping == d.mapping
    ensures SameOutcome(Complete(c, r, nextLoadReg, nextLoadValue, pcAfter), Complete(d, s, nextLoadReg,
            nextLoadValue, pcAfter))
  {
    AdvancedAlike(r, s, nextLoadReg, nextLoadValue, pcAfter);
  }

  lemma RaisedAlike(c: Cpu, d: Cpu, e: Exception, badVAddr: int32)
    requires Ahead(c.regs, d.regs) && c.memory == d.memory && c.mapping == d.mapping
    ensures SameOutcome(Raise(c, e, badVAddr), Raise(d, e, badVAddr))
  {
  }

  // After a fault, a repair of the mapping and a retry, the registers and the memory are those that
  // there would have been without the fault, in a branch delay slot as anywhere else, if the
  // instruction neither reads nor writes the register with the pending load.
  lemma RetryIsTransparent(c: Cpu, repaired: Mapping)
    requires Sound(c.regs) && Execute(c).exception != NoException
    requires var next := NextInstruction(c.(mapping := repaired));
             next.Some? ==> Untouched(next.value, c.regs[LOAD_REG]) && Completes(c, next.value)
    ensures Sound(Execute(c).cpu.regs)
    ensures SameOutcome(Execute(c.(mapping := repaired)), Execute(Execute(c).cpu.(mapping := repaired)))
  {
    var bad := Execute(c).cpu.regs[BAD_VADDR_REG];
    var direct := c.(mapping := repaired);
    var retry := Execute(c).cpu.(mapping := repaired);
    FaultIsRaise(c);
    assert retry == Raise(direct, NoException, bad).cpu;
    match Read(repaired, c.memory, c.regs[PC_REG], 4) {
      case NoRead(_) =>
      case Value(raw, mapping) =>
        var i := Decode(Unsigned(raw));
        var d := direct.(mapping := mapping);
        RetiredEarly(d, bad, i);
        EffectWrites(i, OperandsOf(d.regs, i));
        PerformedLater(d, Raise(d, NoException, bad).cpu, EffectOf(i, OperandsOf(d.regs, i)));
    }
  }

  // The registers after an instruction that sets one of them
  lemma SetRegisters(c: Cpu, reg: Writable, value: int32, k: nat)
    requires Sound(c.regs) && reg > 0 && 0 < k < PC_REG
    ensures var r := c.regs;
            Perform(c, Set(reg, value)).cpu.regs[k] ==
            if k == r[LOAD_REG] then r[LOAD_VALUE_REG] else if k == reg then value else r[k]
  {
  }

  lemma SetPc(c: Cpu, reg: Writable, value: int32)
    requires Sound(c.regs) && reg > 0
    ensures var r, r' := c.regs, Perform(c, Set(reg, value)).cpu.regs;
            && r'[0] == 0 && r'[LOAD_REG] == 0 && r'[LOAD_VALUE_REG] == 0
            && r'[PC_REG] == r[NEXT_PC_REG] && r'[NEXT_PC_REG] == Link(r) && r'[PREV_PC_REG] == r[PC_REG]
  {
  }

  // For the instructions that set a register, arithmetic and logic and moves, this is when a retry
  // makes no difference: the same value is computed with the pending load done and not done, or the
  // register is the one with the pending load, and the value is what the load brings.
  predicate SetAlike(r: Registers, reg: Writable, direct: int32, retried: int32) {
    if reg == r[LOAD_REG] then retried == r[LOAD_VALUE_REG] else retried == direct
  }

  lemma PerformedSetAlike(c: Cpu, d: Cpu, reg: Writable, direct: int32, retried: int32)
    requires Sound(c.regs) && Sound(d.regs) && Ahead(c.regs, d.regs) && d == c.(regs := d.regs) && reg > 0
    ensures SameOutcome(Perform(c, Set(reg, direct)), Perform(d, Set(reg, retried))) <==>
              SetAlike(c.regs, reg, direct, retried)
  {
    var a, b := Perform(c, Set(reg, direct)).cpu.regs, Perform(d, Set(reg, retried)).cpu.regs;
    SetRegisters(c, reg, direct, reg);
    SetRegisters(d, reg, retried, reg);
    SetPc(c, reg, direct);
    SetPc(d, reg, retried);
    forall k | 0 < k < PC_REG && k != reg
      ensures a[k] == b[k]
    {
      SetRegisters(c, reg, direct, k);
      SetRegisters(d, reg, retried, k);
    }
    OtherRegisters(c, reg, direct);
    OtherRegisters(d, reg, retried);
  }

  // Every register is one of these.
  lemma OtherRegisters(c: Cpu, reg: Writable, value: int32)
    requires Sound(c.regs)
    ensures Perform(c, Set(reg, value)).cpu.memory == c.memory && Perform(c, Set(reg, value)).cpu.mapping == c.mapping
    ensures Perform(c, Set(reg, value)).exception == NoException
  {
  }

  // The registers with the pending load retired
  function Retired(regs: Registers): Registers
    requires Sound(regs)
  {
    DelayedLoad(regs, 0, 0)
  }

  lemma RetryIffSetAlike(c: Cpu, repaired: Mapping, reg: Writable, direct: int32, retried: int32)
    requires Sound(c.regs) && Execute(c).exception != NoException && reg > 0
    requires var next := NextInstruction(c.(mapping := repaired));
             && next.Some?
             && EffectOf(next.value, OperandsOf(c.regs, next.value)) == Set(reg, direct)
             && EffectOf(next.value, OperandsOf(Retired(c.regs), next.value)) == Set(reg, retried)
    ensures Sound(Execute(c).cpu.regs)
    ensures SameOutcome(Execute(c.(mapping := repaired)), Execute(Execute(c).cpu.(mapping := repaired))) <==>
              SetAlike(c.regs, reg, direct, retried)
  {
    var direct', retry := c.(mapping := repaired), Execute(c).cpu.(mapping := repaired);
    FaultIsRaise(c);
    assert OperandsOf(retry.regs, NextInstruction(direct').value) ==
           OperandsOf(Retired(c.regs), NextInstruction(direct').value);
    var d := Fetched(direct', Set(reg, direct));
    var d' := Fetched(retry, Set(reg, retried));
    PerformedSetAlike(d, d', reg, direct, retried);
  }

  // What happens after the fetch, with the entry of the mapping marked as used
  lemma Fetched(c: Cpu, e: Effect) returns (d: Cpu)
    requires Sound(c.regs) && NextInstruction(c).Some?
    requires EffectOf(NextInstruction(c).value, OperandsOf(c.regs, NextInstruction(c).value)) == e
    ensures d.regs == c.regs && d.memory == c.memory
    ensures d.mapping == Read(c.mapping, c.memory, c.regs[PC_REG], 4).mapping
    ensures Execute(c) == Perform(d, e)
  {
    d := c.(mapping := Read(c.mapping, c.memory, c.regs[PC_REG], 4).mapping);
  }

  // The condition is needed. With a load of 7 pending into register 1 and the instruction word at
  // address 0, which is first unmapped and then mapped:
  function Stopped(instruction: int32): Cpu {
    Cpu(seq(NUM_TOTAL_REGS, _ => 0)[NEXT_PC_REG := 4][LOAD_REG := 1][LOAD_VALUE_REG := 7],
        Translate.Store(seq(MEMORY_SIZE, _ => 0), 0, 4, instruction), Mapping(false, []))
  }

  function FirstPage(): Mapping {
    Mapping(false, [TranslationEntry(0, 0, true, false, false, false)])
  }

  lemma StoppedFetches(instruction: int32)
    ensures Sound(Stopped(instruction).regs) && Execute(Stopped(instruction)).exception == AddressErrorException
    ensures Read(FirstPage(), Stopped(instruction).memory, 0, 4) == Value(instruction, Marked(FirstPage(), 0, false))
  {
    FetchStored(seq(MEMORY_SIZE, _ => 0), 0, 4, instruction);
  }

  // The registers without the fault, and those after the fault, the repair and the retry.
  ghost function Direct(instruction: int32): Registers {
    StoppedFetches(instruction);
    Execute(Stopped(instruction).(mapping := FirstPage())).cpu.regs
  }

  ghost function Retried(instruction: int32): Registers {
    StoppedFetches(instruction);
    FaultIsRaise(Stopped(instruction));
    Execute(Execute(Stopped(instruction)).cpu.(mapping := FirstPage())).cpu.regs
  }

  lemma SetPerformed(c: Cpu, reg: Writable, value: int32)
    requires Sound(c.regs) && 0 < reg < 32
    ensures Perform(c, Set(reg, value)).cpu.regs[reg] == if reg ==
            c.regs[LOAD_REG] then c.regs[LOAD_VALUE_REG] else value
  {
  }

  lemma StoppedExecutes(instruction: int32, i: Instruction, direct: Effect, retried: Effect)
    requires Decode(Unsigned(instruction)) == i
    requires EffectOf(i, Operands(Stopped(instruction).regs[i.rs], Stopped(instruction).regs[i.rt], 0, 0, 4,
             if i.rt == 1 then 7 else 0)) == direct
    requires var value := (r: Gpr) => if r == 1 then 7 else 0;
      EffectOf(i, Operands(value(i.rs), value(i.rt), 0, 0, 4, value(i.rt))) == retried
    requires direct.Set? && 0 < direct.reg < 32 && retried.Set? && retried.reg == direct.reg
    ensures Direct(instruction)[direct.reg] == if direct.reg == 1 then 7 else direct.value
    ensures Retried(instruction)[direct.reg] == retried.value
  {
    var c := Stopped(instruction);
    StoppedFetches(instruction);
    FaultChangesNothingElse(c);
    var marked := Marked(FirstPage(), 0, false);
    SetPerformed(c.(mapping := marked), direct.reg, direct.value);
    SetPerformed(Execute(c).cpu.(mapping := marked), direct.reg, retried.value);
    assert OperandsOf(c.regs, i) == Operands(c.regs[i.rs], c.regs[i.rt], 0, 0, 4, if i.rt == 1 then 7 else 0);
  }

  // addu $2, $1, $0 reads the register: without the fault it sees the old value, afterwards the new one.
  lemma ReadingMatters()
    ensures Direct(0x20_1021)[2] == 0 && Retried(0x20_1021)[2] == 7
  {
    var i := Instruction(Addu, 1, 0, 2, 0);
    assert Decode(0x20_1021) == i;
    StoppedExecutes(0x20_1021, i, Set(2, 0), Set(2, 7));
  }

  // addiu $1, $0, 5 writes the register: without the fault the load overwrites the result, afterwards
  // the result stays.
  lemma WritingMatters()
    ensures Direct(0x2401_0005)[1] == 7 && Retried(0x2401_0005)[1] == 5
  {
    var i := Instruction(Addiu, 0, 1, 0, 5);
    assert Decode(0x2401_0005) == i;
    StoppedExecutes(0x2401_0005, i, Set(1, 5), Set(1, 5));
  }
}
