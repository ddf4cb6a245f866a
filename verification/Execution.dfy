// What one instruction does, told from the instruction that is fetched and the registers before it:
// where control goes, what ends up in registers and memory, and which faults there are.
module Execution {
  import opened Basics
  import opened Bytes
  import opened Translate
  import opened Instruction
  import opened Machine
  import Bits
  import Mult

  // The instruction can be fetched, no ASSERT fails, and no exception is raised.
  ghost predicate Completes(c: Cpu, i: Instruction) {
    && Sound(c.regs) && NextInstruction(c) == Some(i) && Machine.Completes(c, i)
    && Execute(c).exception == NoException
  }

  // What a completed effect leaves in the registers
  ghost predicate Finished(d: Cpu, e: Effect) {
    Sound(d.regs) && !e.Abort? && !e.Trap? && Perform(d, e).exception == NoException
  }

  lemma Advances(regs: Registers, nextLoadReg: Gpr, nextLoadValue: int32, pcAfter: int32)
    requires 0 <= regs[LOAD_REG] < 32
    ensures var r := Advance(regs, nextLoadReg, nextLoadValue, pcAfter);
            && r[PREV_PC_REG] == regs[PC_REG] && r[PC_REG] == regs[NEXT_PC_REG] && r[NEXT_PC_REG] == pcAfter
            && r[LOAD_REG] == nextLoadReg && r[LOAD_VALUE_REG] == nextLoadValue
            && forall g | 0 < g < 34 :: r[g] == if g == regs[LOAD_REG] then regs[LOAD_VALUE_REG] else regs[g]
  {
  }

  // The registers that Advance is given, the load that it notes, and the next program counter
  lemma Advanced(d: Cpu, e: Effect) returns (regs: Registers, reg: Gpr, value: int32)
    requires Finished(d, e)
    ensures regs[LOAD_REG] == d.regs[LOAD_REG] && regs[LOAD_VALUE_REG] == d.regs[LOAD_VALUE_REG]
    ensures forall k | PC_REG <= k <= NEXT_PC_REG :: regs[k] == d.regs[k]
    ensures forall k | 0 < k < 34 :: regs[k] ==
              if e.Set? && e.reg == k then e.value
              else if e.Jump? && e.link == Some(k) then Link(d.regs)
              else if e.SetHiLo? && k == HI_REG then e.hi
              else if e.SetHiLo? && k == LO_REG then e.lo
              else d.regs[k]
    ensures Perform(d, e).cpu.regs == Advance(regs, reg, value, if e.Jump? then e.pcAfter else Link(d.regs))
    ensures !e.Load? && !e.LoadRight? ==> reg == 0 && value == 0
    ensures e.Load? ==>
              var got := Read(d.mapping, d.memory, e.addr, e.size);
              got.Value? && reg == e.target && value == Extended(got.value, e.size, e.signExtend)
    ensures e.LoadRight? ==>
              var got := Read(d.mapping, d.memory, e.addr, 4);
              got.Value? && reg == e.target && value == MergeRight(e.before, got.value)
  {
    reg, value := 0, 0;
    regs := d.regs;
    match e {
      case Set(r, v) => regs := d.regs[r := v];
      case SetHiLo(hi, lo) => regs := d.regs[HI_REG := hi][LO_REG := lo];
      case Jump(link, _) => regs := if link.Some? then d.regs[link.value := Link(d.regs)] else d.regs;
      case Load(addr, size, signExtend, r) =>
        reg, value := r, Extended(Read(d.mapping, d.memory, addr, size).value, size, signExtend);
      case LoadRight(addr, before, r) =>
        reg, value := r, MergeRight(before, Read(d.mapping, d.memory, addr, 4).value);
      case _ =>
    }
  }

  lemma PcsAfter(d: Cpu, e: Effect)
    requires Finished(d, e)
    ensures var r, r' := d.regs, Perform(d, e).cpu.regs;
            && r'[PREV_PC_REG] == r[PC_REG] && r'[PC_REG] == r[NEXT_PC_REG]
            && r'[NEXT_PC_REG] == if e.Jump? then e.pcAfter else Link(r)
  {
    var regs, reg, value := Advanced(d, e);
    Advances(regs, reg, value, if e.Jump? then e.pcAfter else Link(d.regs));
  }

  lemma GprAfter(d: Cpu, e: Effect, g: Gpr)
    requires Finished(d, e) && g > 0
    ensures var r, r' := d.regs, Perform(d, e).cpu.regs;
            r'[g] ==
            if g == r[LOAD_REG] then r[LOAD_VALUE_REG]
            else if e.Set? && e.reg == g then e.value
            else if e.Jump? && e.link == Some(g) then Link(r)
            else r[g]
  {
    var regs, reg, value := Advanced(d, e);
    Advances(regs, reg, value, if e.Jump? then e.pcAfter else Link(d.regs));
  }

  lemma HiLoAfter(d: Cpu, e: Effect)
    requires Finished(d, e)
    ensures var r, r' := d.regs, Perform(d, e).cpu.regs;
            && r'[HI_REG] == (if e.SetHiLo? then e.hi else if e.Set? && e.reg == HI_REG then e.value else r[HI_REG])
            && r'[LO_REG] == if e.SetHiLo? then e.lo else if e.Set? && e.reg == LO_REG then e.value else r[LO_REG]
  {
    var regs, reg, value := Advanced(d, e);
    Advances(regs, reg, value, if e.Jump? then e.pcAfter else Link(d.regs));
  }

  // Which effects an instruction may have
  ghost predicate Shape(i: Instruction, e: Effect) {
    && (e.Trap? ==> e.e != NoException)
    && (e.Load? || e.LoadRight? ==> Loads(i.op))
    && (e.Store? || e.StoreOver? ==> Stores(i.op))
  }

  predicate Loads(op: Op) {
    op.Lb? || op.Lbu? || op.Lh? || op.Lhu? || op.Lw? || op.Lwl? || op.Lwr?
  }

  predicate Stores(op: Op) {
    op.Sb? || op.Sh? || op.Sw? || op.Swl? || op.Swr?
  }

  // Where control goes after the instruction in the delay slot. next is the address of that slot, and
  // s and t are the values of rs and rt.
  function Destination(i: Instruction, s: int32, t: int32, next: int32): int32 {
    var link := Wrap(next + 4);
    var target := Wrap(next + 4 * i.extra);
    match i.op
    case Beq => if s == t then target else link
    case Bne => if s != t then target else link
    case Bgtz => if s > 0 then target else link
    case Blez => if s <= 0 then target else link
    case Bltz => if s < 0 then target else link
    case Bgez => if s >= 0 then target else link
    case Bltzal => if (if i.rs == 31 then link else s) < 0 then target else link
    case Bgezal => if (if i.rs == 31 then link else s) >= 0 then target else link
    case J => JumpTarget(link, i.extra)
    case Jal => JumpTarget(link, i.extra)
    case Jr => s
    case Jalr => if i.rs == i.rd then link else s
    case _ => link
  }

  // The register that gets the return address
  function LinkRegister(i: Instruction): Option<Gpr> {
    if i.op.Jal? || i.op.Bltzal? || i.op.Bgezal? then Some(31) else if i.op.Jalr? then Some(i.rd) else None
  }

  lemma Goes(i: Instruction, o: Operands)
    ensures var e := EffectOf(i, o);
            && Shape(i, e)
            && (if e.Jump? then e.pcAfter == Destination(i, o.rs, o.rt, o.nextPc) && e.link == LinkRegister(i)
                else e.Trap? || e.Abort? ||
                     (Destination(i, o.rs, o.rt, o.nextPc) == Wrap(o.nextPc + 4) && LinkRegister(i) == None))
  {
    if ReadsRt(i.op) {
      TwoGoes(i, o.rs, o.rt, o.nextPc);
    } else {
      OneGoes(i, o);
    }
  }

  lemma TwoGoes(i: Instruction, rs: int32, rt: int32, nextPc: int32)
    requires ReadsRt(i.op)
    ensures var e := EffectOfTwo(i, rs, rt, nextPc);
            && Shape(i, e)
            && (if e.Jump? then e.pcAfter == Destination(i, rs, rt, nextPc) && e.link == LinkRegister(i)
                else e.Trap? || e.Abort? ||
                     (Destination(i, rs, rt, nextPc) == Wrap(nextPc + 4) && LinkRegister(i) == None))
  {
  }

  predicate Jumps(op: Op) {
    op.Bgezal? || op.Bgez? || op.Bgtz? || op.Blez? || op.Bltzal? || op.Bltz? || op.Jal? || op.J? || op.Jalr? || op.Jr?
  }

  lemma OneJumps(i: Instruction, o: Operands)
    requires Jumps(i.op)
    ensures var e := EffectOfOne(i, o.rs, o.hi, o.lo, o.nextPc, o.loaded);
            e.Jump? && e.pcAfter == Destination(i, o.rs, o.rt, o.nextPc) && e.link == LinkRegister(i)
  {
  }

  lemma OneStays(i: Instruction, o: Operands)
    requires !ReadsRt(i.op) && !Jumps(i.op)
    ensures var e := EffectOfOne(i, o.rs, o.hi, o.lo, o.nextPc, o.loaded);
            !e.Jump? && Shape(i, e)
    ensures Destination(i, o.rs, o.rt, o.nextPc) == Wrap(o.nextPc + 4) && LinkRegister(i) == None
  {
  }

  lemma OneGoes(i: Instruction, o: Operands)
    requires !ReadsRt(i.op)
    ensures var e := EffectOfOne(i, o.rs, o.hi, o.lo, o.nextPc, o.loaded);
            && Shape(i, e)
            && (if e.Jump? then e.pcAfter == Destination(i, o.rs, o.rt, o.nextPc) && e.link == LinkRegister(i)
                else e.Trap? || e.Abort? ||
                     (Destination(i, o.rs, o.rt, o.nextPc) == Wrap(o.nextPc + 4) && LinkRegister(i) == None))
  {
    if Jumps(i.op) {
      OneJumps(i, o);
    } else {
      OneStays(i, o);
    }
  }

  // After any completed instruction the program counters have moved on by one place, and the place
  // after the delay slot is where the branch or jump goes, or the next one.
  lemma ControlFlow(c: Cpu, i: Instruction)
    requires Completes(c, i)
    ensures var r, r' := c.regs, Execute(c).cpu.regs;
            && r'[PREV_PC_REG] == r[PC_REG] && r'[PC_REG] == r[NEXT_PC_REG]
            && r'[NEXT_PC_REG] == Destination(i, r[i.rs], r[i.rt], r[NEXT_PC_REG])
  {
    var d, e := Started(c, i);
    Goal(c, i, e);
    PcsAfter(d, e);
  }

  // The entries, with the one of the instruction's page marked as used
  function AfterFetch(c: Cpu): Mapping {
    var got := Read(c.mapping, c.memory, c.regs[PC_REG], 4);
    if got.Value? then got.mapping else c.mapping
  }

  // What a completed instruction comes down to
  lemma Started(c: Cpu, i: Instruction) returns (d: Cpu, e: Effect)
    requires Completes(c, i)
    ensures d == c.(mapping := AfterFetch(c))
    ensures e == EffectOf(i, OperandsOf(c.regs, i)) && Finished(d, e) && Execute(c) == Perform(d, e)
  {
    e := EffectOf(i, OperandsOf(c.regs, i));
    d := Machine.Fetched(c, e);
    GoesOrTraps(i, OperandsOf(c.regs, i), e);
  }

  // Where its effect goes
  ghost predicate Going(c: Cpu, i: Instruction, e: Effect) {
    var to := Destination(i, c.regs[i.rs], c.regs[i.rt], c.regs[NEXT_PC_REG]);
    && Shape(i, e)
    && if e.Jump? then e.pcAfter == to && e.link == LinkRegister(i) else to == Link(c.regs) && LinkRegister(i) == None
  }

  lemma GoesOrTraps(i: Instruction, o: Operands, e: Effect)
    requires e == EffectOf(i, o)
    ensures Shape(i, e)
    ensures e.Jump? ==> e.pcAfter == Destination(i, o.rs, o.rt, o.nextPc) && e.link == LinkRegister(i)
    ensures e.Jump? || e.Trap? || e.Abort? ||
            (Destination(i, o.rs, o.rt, o.nextPc) == Wrap(o.nextPc + 4) && LinkRegister(i) == None)
  {
    Goes(i, o);
  }

  lemma Goal(c: Cpu, i: Instruction, e: Effect)
    requires e == EffectOf(i, OperandsOf(c.regs, i)) && !e.Trap? && !e.Abort?
    ensures Going(c, i, e)
  {
    GoesOrTraps(i, OperandsOf(c.regs, i), e);
  }

  // So the instruction after the one in the delay slot is the one at the target.
  lemma AfterDelaySlot(c: Cpu, i: Instruction, slot: Instruction)
    requires Completes(c, i) && Completes(Execute(c).cpu, slot)
    ensures Execute(Execute(c).cpu).cpu.regs[PC_REG] == Destination(i, c.regs[i.rs], c.regs[i.rt], c.regs[NEXT_PC_REG])
  {
    ControlFlow(c, i);
    ControlFlow(Execute(c).cpu, slot);
  }

  // The pending load is done; the return address is in its register; a register that the instruction
  // does not write keeps its value.
  lemma RegistersAfter(c: Cpu, i: Instruction, g: Gpr)
    requires Completes(c, i) && g > 0
    ensures var r, r' := c.regs, Execute(c).cpu.regs;
            && (g == r[LOAD_REG] ==> r'[g] == r[LOAD_VALUE_REG])
            && (g != r[LOAD_REG] && LinkRegister(i) == Some(g) ==>
                  var next: int := r[NEXT_PC_REG]; r'[g] == Wrap(next + 4))
            && (g != r[LOAD_REG] && !Writes(i, g) ==> r'[g] == r[g])
            && var e := EffectOf(i, OperandsOf(r, i)); g != r[LOAD_REG] && e.Set? && e.reg == g ==> r'[g] == e.value
  {
    var d, e := Started(c, i);
    Goal(c, i, e);
    GprAfter(d, e, g);
    EffectWrites(i, OperandsOf(c.regs, i));
  }

  function Width(op: Op): Size {
    if op.Lb? || op.Lbu? || op.Sb? then 1 else if op.Lh? || op.Lhu? || op.Sh? then 2 else 4
  }

  // What a load of the bytes from address p on brings into its register; before is what the register
  // holds, of which lwr keeps the rest.
  function LoadedValue(op: Op, memory: Memory, p: nat, before: int32): int
    requires Loads(op) && p + Width(op) <= MEMORY_SIZE
  {
    if op.Lbu? || op.Lb? then
      if op.Lbu? || memory[p] < 0x80 then memory[p] as int else memory[p] as int - 0x100
    else if op.Lh? || op.Lhu? then
      var half := memory[p] as int + 0x100 * memory[p + 1] as int;
      if op.Lhu? || half < 0x8000 then half else half - 0x1_0000
    else
      var word := if op.Lwr? then Unsigned(before) as int - Unsigned(before) % 0x100 + memory[p + 3] as int
                  else WordAt(memory, p);
      if word < 0x8000_0000 then word else word - 0x1_0000_0000
  }

  function WordAt(memory: Memory, p: nat): int
    requires p + 4 <= MEMORY_SIZE
  {
    memory[p] as int + 0x100 * memory[p + 1] as int + 0x1_0000 * memory[p + 2] as int +
    0x100_0000 * memory[p + 3] as int
  }

  lemma LoadEffect(i: Instruction, o: Operands)
    requires Loads(i.op) && !EffectOf(i, o).Abort? && !EffectOf(i, o).Trap?
    ensures var addr := AddressOf(i, o.rs);
            EffectOf(i, o) ==
            if i.op.Lwr? then LoadRight(addr, o.loaded, i.rt)
            else Load(addr, Width(i.op), !i.op.Lbu? && !i.op.Lhu?, i.rt)
  {
  }

  lemma ExtendedMeans(op: Op, value: int32, memory: Memory, p: nat, before: int32)
    requires Loads(op) && !op.Lwr? && p + Width(op) <= MEMORY_SIZE
    requires Unsigned(value) ==
             (if Width(op) == 1 then memory[p] as int
              else if Width(op) == 2 then memory[p] as int + 0x100 * memory[p + 1] as int
              else WordAt(memory, p))
    ensures Extended(value, Width(op), !op.Lbu? && !op.Lhu?) == LoadedValue(op, memory, p, before)
  {
  }

  lemma MergedMeans(value: int32, memory: Memory, p: nat, before: int32)
    requires p + 4 <= MEMORY_SIZE
    requires Unsigned(value) == WordAt(memory, p)
    ensures MergeRight(before, value) == LoadedValue(Lwr, memory, p, before)
  {
    assert Unsigned(value) / 0x100_0000 == memory[p + 3];
  }

  // Only stores change memory.
  lemma MemoryKept(c: Cpu, i: Instruction)
    requires Completes(c, i) && !Stores(i.op)
    ensures Execute(c).cpu.memory == c.memory
  {
    var d, e := Started(c, i);
    Goal(c, i, e);
  }

  // The bytes that a load reads
  lemma LoadReads(d: Cpu, i: Instruction, addr: int32, before: int32) returns (p: nat, entry: nat)
    requires Loads(i.op) && Read(d.mapping, d.memory, addr, Width(i.op)).Value?
    ensures Translated(d.mapping, addr, Width(i.op), false) == Physical(p, entry)
    ensures p + Width(i.op) <= MEMORY_SIZE
    ensures var got := Read(d.mapping, d.memory, addr, Width(i.op)).value;
            LoadedValue(i.op, d.memory, p, before) ==
            if i.op.Lwr? then MergeRight(before, got) else Extended(got, Width(i.op), !i.op.Lbu? && !i.op.Lhu?)
  {
    var at := Translated(d.mapping, addr, Width(i.op), false);
    p, entry := at.addr, at.index;
    ReadMeans(d.mapping, d.memory, addr, Width(i.op), p, entry);
    var got := Read(d.mapping, d.memory, addr, Width(i.op));
    if i.op.Lwr? {
      MergedMeans(got.value, d.memory, p, before);
    } else {
      ExtendedMeans(i.op, got.value, d.memory, p, before);
    }
  }

  // A load effect brings the value of the bytes that it reads.
  lemma EffectLoads(d: Cpu, i: Instruction, o: Operands, addr: int32) returns (p: nat, entry: nat)
    requires Loads(i.op) && Finished(d, EffectOf(i, o)) && addr == AddressOf(i, o.rs)
    ensures Translated(d.mapping, addr, Width(i.op), false) == Physical(p, entry)
    ensures p + Width(i.op) <= MEMORY_SIZE
    ensures var r' := Perform(d, EffectOf(i, o)).cpu.regs;
            r'[LOAD_REG] == i.rt && r'[LOAD_VALUE_REG] == LoadedValue(i.op, d.memory, p, o.loaded)
  {
    LoadEffect(i, o);
    var regs, reg, value := Advanced(d, EffectOf(i, o));
    Advances(regs, reg, value, Link(d.regs));
    p, entry := LoadReads(d, i, addr, o.loaded);
  }

  // The address of an access is the sum of register and offset, but for a multiple of 2^32.
  lemma AddressIsSum(i: Instruction, s: int32)
    ensures exists k :: AddressOf(i, s) == s + i.extra + k * 0x1_0000_0000
  {
    var x: int := s + i.extra;
    if x < -0x8000_0000 {
      assert AddressOf(i, s) == x + 1 * 0x1_0000_0000;
    } else if x < 0x8000_0000 {
      assert AddressOf(i, s) == x + 0 * 0x1_0000_0000;
    } else {
      assert AddressOf(i, s) == x + (-1) * 0x1_0000_0000;
    }
  }

  // Where a completed load or store goes
  function Place(c: Cpu, i: Instruction): Translate.Outcome {
    Translated(AfterFetch(c), AddressOf(i, c.regs[i.rs]), Width(i.op), Stores(i.op))
  }

  // A completed load notes its register and the value that the bytes at its address stand for.
  lemma LoadCompletes(c: Cpu, i: Instruction)
    requires Completes(c, i) && Loads(i.op)
    ensures Place(c, i).Physical? && Place(c, i).addr + Width(i.op) <= MEMORY_SIZE
    ensures Execute(c).cpu.regs[LOAD_REG] == i.rt
    ensures Execute(c).cpu.regs[LOAD_VALUE_REG] == LoadedValue(i.op, c.memory, Place(c, i).addr, Before(c, i))
  {
    var d, e := Started(c, i);
    LoadFinishes(c, i, d, e);
  }

  // What the register of a load holds once the pending load is done
  function Before(c: Cpu, i: Instruction): int32 {
    if c.regs[LOAD_REG] == i.rt then c.regs[LOAD_VALUE_REG] else c.regs[i.rt]
  }

  lemma LoadFinishes(c: Cpu, i: Instruction, d: Cpu, e: Effect)
    requires Loads(i.op) && d == c.(mapping := AfterFetch(c))
    requires e == EffectOf(i, OperandsOf(c.regs, i)) && Finished(d, e)
    ensures Place(c, i).Physical? && Place(c, i).addr + Width(i.op) <= MEMORY_SIZE
    ensures var r' := Perform(d, e).cpu.regs;
            && r'[LOAD_REG] == i.rt
            && r'[LOAD_VALUE_REG] == LoadedValue(i.op, c.memory, Place(c, i).addr, Before(c, i))
  {
    var p, entry := EffectLoads(d, i, OperandsOf(c.regs, i), AddressOf(i, c.regs[i.rs]));
  }

  // The next instruction that completes puts it into the register.
  lemma LoadDelivers(c: Cpu, i: Instruction, slot: Instruction)
    requires Completes(c, i) && Loads(i.op) && i.rt > 0 && Completes(Execute(c).cpu, slot)
    ensures Place(c, i).Physical? && Place(c, i).addr + Width(i.op) <= MEMORY_SIZE
    ensures Execute(Execute(c).cpu).cpu.regs[i.rt] == LoadedValue(i.op, c.memory, Place(c, i).addr, Before(c, i))
  {
    LoadCompletes(c, i);
    RegistersAfter(Execute(c).cpu, slot, i.rt);
  }

  lemma StoreEffect(i: Instruction, o: Operands)
    requires Stores(i.op) && !EffectOf(i, o).Abort? && !EffectOf(i, o).Trap?
    ensures var addr := AddressOf(i, o.rs);
            EffectOf(i, o) ==
            if i.op.Swl? || i.op.Swr? then StoreOver(addr, o.rt, i.op.Swl?) else Store(addr, Width(i.op), o.rt)
  {
  }

  // What a store leaves in memory from address p on: the low bytes of its register; swr stores only
  // the lowest one, in the last place of the word.
  ghost predicate StoredAt(op: Op, memory: Memory, memory': Memory, p: nat, value: int32)
    requires Stores(op)
  {
    forall k | 0 <= k < MEMORY_SIZE ::
      memory'[k] as int ==
      if op.Swr? then (if k == p + 3 then ByteOf(value, 0) else memory[k] as int)
      else if p <= k < p + Width(op) then ByteOf(value, k - p)
      else memory[k] as int
  }

  lemma ByteApart(b: int, rest: int)
    requires 0 <= b < 0x100 && 0 <= rest
    ensures (b + 0x100 * rest) / 0x100 == rest && (b + 0x100 * rest) % 0x100 == b
  {
  }

  // A word and its bytes
  lemma FourBytes(x: int32, b0: int, b1: int, b2: int, b3: int)
    requires 0 <= b0 < 0x100 && 0 <= b1 < 0x100 && 0 <= b2 < 0x100 && 0 <= b3 < 0x100
    requires Unsigned(x) == b0 + 0x100 * b1 + 0x1_0000 * b2 + 0x100_0000 * b3
    ensures ByteOf(x, 0) == b0 && ByteOf(x, 1) == b1 && ByteOf(x, 2) == b2 && ByteOf(x, 3) == b3
  {
    var w: int := Unsigned(x);
    ByteApart(b0, b1 + 0x100 * b2 + 0x1_0000 * b3);
    ByteApart(b1, b2 + 0x100 * b3);
    ByteApart(b2, b3);
    assert w / 0x1_0000 == w / 0x100 / 0x100 && w / 0x100_0000 == w / 0x100 / 0x100 / 0x100;
  }

  lemma OverRightBytes(before: int32, value: int32, b0: int, b1: int, b2: int, b3: int)
    requires 0 <= b0 < 0x100 && 0 <= b1 < 0x100 && 0 <= b2 < 0x100 && 0 <= b3 < 0x100
    requires Unsigned(before) == b0 + 0x100 * b1 + 0x1_0000 * b2 + 0x100_0000 * b3
    ensures var x := OverRight(before, value);
            ByteOf(x, 0) == b0 && ByteOf(x, 1) == b1 && ByteOf(x, 2) == b2 && ByteOf(x, 3) == ByteOf(value, 0)
  {
    var low := b0 + 0x100 * b1 + 0x1_0000 * b2;
    assert Unsigned(before) % 0x100_0000 == low;
    FourBytes(OverRight(before, value), b0, b1, b2, Unsigned(value) % 0x100);
  }

  lemma EffectStores(d: Cpu, i: Instruction, o: Operands, addr: int32) returns (p: nat, entry: nat)
    requires Stores(i.op) && Finished(d, EffectOf(i, o)) && addr == AddressOf(i, o.rs)
    ensures Translated(d.mapping, addr, Width(i.op), true) == Physical(p, entry)
    ensures p + Width(i.op) <= MEMORY_SIZE
    ensures StoredAt(i.op, d.memory, Perform(d, EffectOf(i, o)).cpu.memory, p, o.rt)
  {
    StoreEffect(i, o);
    if i.op.Swl? || i.op.Swr? {
      p, entry := OverStores(d, addr, o.rt, i.op.Swl?);
    } else {
      var at := Translated(d.mapping, addr, Width(i.op), true);
      p, entry := at.addr, at.index;
      WriteMeans(d.mapping, d.memory, addr, Width(i.op), o.rt, p, entry);
    }
  }

  lemma OverStores(d: Cpu, addr: int32, value: int32, whole: bool) returns (p: nat, entry: nat)
    requires Finished(d, StoreOver(addr, value, whole))
    ensures Translated(d.mapping, addr, 4, true) == Physical(p, entry) && p + 4 <= MEMORY_SIZE
    ensures var o := Perform(d, StoreOver(addr, value, whole));
            StoredAt(if whole then Swl else Swr, d.memory, o.cpu.memory, p, value)
  {
    var o, at := Translated(d.mapping, addr, 4, false), Translated(d.mapping, addr, 4, true);
    var before := Read(d.mapping, d.memory, addr, 4);
    MarkedTranslates(d.mapping, o.index, false, addr, 4, true);
    p, entry := at.addr, at.index;
    SamePlace(d.mapping, addr, o.addr, o.index, p, entry);
    OverWrites(d.mapping, d.memory, addr, value, whole, p, entry);
  }

  lemma OverWrites(m: Mapping, memory: Memory, addr: int32, value: int32, whole: bool, p: nat, i: nat)
    requires Translated(m, addr, 4, false) == Physical(p, i) && i < |m.entries|
    requires Translated(Marked(m, i, false), addr, 4, true) == Physical(p, i)
    ensures p + 4 <= MEMORY_SIZE
    ensures Read(m, memory, addr, 4).Value? && Read(m, memory, addr, 4).mapping == Marked(m, i, false)
    ensures var before := Read(m, memory, addr, 4).value;
            var w := Write(Marked(m, i, false), memory, addr, 4, if whole then value else OverRight(before, value));
            w.Written? && StoredAt(if whole then Swl else Swr, memory, w.memory, p, value)
  {
    ReadMeans(m, memory, addr, 4, p, i);
    var before := Read(m, memory, addr, 4).value;
    var stored := if whole then value else OverRight(before, value);
    WriteMeans(Marked(m, i, false), memory, addr, 4, stored, p, i);
    OverRightBytes(before, value, memory[p], memory[p + 1], memory[p + 2], memory[p + 3]);
  }

  // A write that translates goes where a read would.
  lemma SamePlace(m: Mapping, addr: int32, p: nat, i: nat, q: nat, j: nat)
    requires Translated(m, addr, 4, false) == Physical(p, i) && Translated(m, addr, 4, true) == Physical(q, j)
    ensures p == q && i == j
  {
  }

  lemma StoreFinishes(c: Cpu, i: Instruction, d: Cpu, e: Effect)
    requires Stores(i.op) && d == c.(mapping := AfterFetch(c))
    requires e == EffectOf(i, OperandsOf(c.regs, i)) && Finished(d, e)
    ensures Place(c, i).Physical? && Place(c, i).addr + Width(i.op) <= MEMORY_SIZE
    ensures StoredAt(i.op, c.memory, Perform(d, e).cpu.memory, Place(c, i).addr, c.regs[i.rt])
  {
    var p, entry := EffectStores(d, i, OperandsOf(c.regs, i), AddressOf(i, c.regs[i.rs]));
  }

  // A completed store leaves the bytes of its register at its address, and all others as they were.
  lemma StoreCompletes(c: Cpu, i: Instruction)
    requires Completes(c, i) && Stores(i.op)
    ensures Place(c, i).Physical? && Place(c, i).addr + Width(i.op) <= MEMORY_SIZE
    ensures StoredAt(i.op, c.memory, Execute(c).cpu.memory, Place(c, i).addr, c.regs[i.rt])
  {
    var d, e := Started(c, i);
    StoreFinishes(c, i, d, e);
  }

  // An access faults exactly if its address does not translate, with the exception that the entries
  // give, and notes the address.
  lemma AccessFaults(c: Cpu, i: Instruction)
    requires Sound(c.regs) && NextInstruction(c) == Some(i) && Machine.Completes(c, i)
    requires (Loads(i.op) || Stores(i.op)) && !i.op.Swl? && !i.op.Swr?
    ensures match Place(c, i)
            case Physical(_, _) => Execute(c).exception == NoException
            case Fault(e) =>
              Execute(c).exception == e && Execute(c).cpu.regs[BAD_VADDR_REG] == AddressOf(i, c.regs[i.rs])
  {
    var e := EffectOf(i, OperandsOf(c.regs, i));
    var d := Machine.Fetched(c, e);
    assert d == c.(mapping := AfterFetch(c));
    AccessEffect(i, OperandsOf(c.regs, i));
    AccessRaises(d, e, AddressOf(i, c.regs[i.rs]), Width(i.op), Stores(i.op));
  }

  ghost predicate Access(e: Effect, addr: int32, size: nat, writing: bool) {
    match e
    case Trap(ex, bad) => ex == AddressErrorException && bad == addr && Misaligned(Unsigned(addr), size)
    case Load(a, n, _, _) => a == addr && n == size && !writing
    case LoadRight(a, _, _) => a == addr && size == 4 && !writing
    case Store(a, n, _) => a == addr && n == size && writing
    case _ => false
  }

  lemma AccessEffect(i: Instruction, o: Operands)
    requires (Loads(i.op) || Stores(i.op)) && !i.op.Swl? && !i.op.Swr? && !EffectOf(i, o).Abort?
    ensures Access(EffectOf(i, o), AddressOf(i, o.rs), Width(i.op), Stores(i.op))
  {
    SameParity(AddressOf(i, o.rs));
  }

  lemma SameParity(x: int32)
    ensures x % 2 == Unsigned(x) % 2 && x % 4 == Unsigned(x) % 4
  {
  }

  lemma AccessRaises(d: Cpu, e: Effect, addr: int32, size: nat, writing: bool)
    requires Sound(d.regs) && Access(e, addr, size, writing)
    ensures match Translated(d.mapping, addr, size, writing)
            case Physical(_, _) => Perform(d, e).exception == NoException
            case Fault(ex) => Perform(d, e).exception == ex && Perform(d, e).cpu.regs[BAD_VADDR_REG] == addr
  {
    ExceptionsMean(d.mapping, addr, size, writing);
  }

  lemma FetchFaults(c: Cpu)
    requires Sound(c.regs)
    ensures match Translated(c.mapping, c.regs[PC_REG], 4, false)
            case Physical(_, _) => NextInstruction(c).Some?
            case Fault(e) => Execute(c).exception == e && Execute(c).cpu.regs[BAD_VADDR_REG] == c.regs[PC_REG]
  {
  }

  // Jumps go to a word of the same 2^28 bytes as the instruction after the delay slot.
  lemma JumpTargetIs(link: int32, extra: int32)
    requires 0 <= extra < 0x400_0000
    ensures Unsigned(JumpTarget(link, extra)) == Unsigned(link) / 0x1000_0000 * 0x1000_0000 + 4 * extra
  {
    var high, low := Unsigned(link) / 0x1000_0000, 4 * extra;
    SmallWord(low);
    Joined(high, low);
    UnsignedBitwise(Bits.Or(high * 0x1000_0000, low, 32));
  }

  lemma SmallWord(x: nat)
    requires x < 0x8000_0000
    ensures Unsigned(Wrap(x)) == x
  {
  }

  lemma UnsignedBitwise(x: nat)
    requires x < 0x1_0000_0000
    ensures Unsigned(Bitwise(x)) == x
  {
  }

  lemma Joined(high: nat, low: nat)
    requires high < 16 && low < 0x1000_0000
    ensures Bits.Or(high * 0x1000_0000, low, 32) == high * 0x1000_0000 + low
  {
    Pow28();
    Bits.OrJoins(high, low, 28, 32);
  }

  lemma Pow28()
    ensures Bits.Pow2(28) == 0x1000_0000 && Bits.Pow2(32) == 0x1_0000_0000
  {
    assert Bits.Pow2(8) == 0x100 && Bits.Pow2(16) == 0x1_0000 && Bits.Pow2(24) == 0x100_0000;
  }

  // An instruction word is made up of its fields.
  lemma FieldsOf(value: word)
    ensures var i, code, low := Decode(value), value / 0x400_0000, value % 0x1_0000;
            && value == code * 0x400_0000 + i.rs * 0x20_0000 + i.rt * 0x1_0000 + low
            && i.rd == low / 0x800
            && (code == 0 ==> i.extra == low / 64 % 32)
            && (code == 2 || code == 3 ==> value == code * 0x400_0000 + i.extra)
            && (code == 1 || code > 3 ==> -0x8000 <= i.extra < 0x8000 && (low == i.extra || low == i.extra + 0x1_0000))
  {
    var high, low := value / 0x1_0000, value % 0x1_0000;
    HighFields(high, low, value);
    LowFields(high, low, value);
  }

  lemma HighFields(high: nat, low: nat, value: nat)
    requires high < 0x1_0000 && low < 0x1_0000 && value == high * 0x1_0000 + low
    ensures value / 0x400_0000 == high / 0x400 && value / 0x20_0000 == high / 0x20
    ensures value % 0x400_0000 == high % 0x400 * 0x1_0000 + low
    ensures high == high / 0x400 * 0x400 + high / 0x20 % 32 * 0x20 + high % 32
  {
    Part(high, low, 0x1_0000, 0x400);
    Part(high, low, 0x1_0000, 0x20);
    assert high / 0x20 / 32 == high / 0x400;
  }

  lemma LowFields(high: nat, low: nat, value: nat)
    requires high < 0x1_0000 && low < 0x1_0000 && value == high * 0x1_0000 + low
    ensures value / 0x800 % 32 == low / 0x800 && value / 64 % 32 == low / 64 % 32
  {
    FieldStart(high, low, 0x20, 0x800);
    FieldStart(high, low, 0x400, 64);
    LowFive(high, low / 0x800);
    LowFive(32 * high, low / 64);
  }

  lemma LowFive(high: nat, x: nat)
    ensures (high * 0x20 + x) % 32 == x % 32
  {
  }

  lemma FieldStart(high: nat, low: nat, cut: nat, place: nat)
    requires cut > 0 && place > 0 && low < cut * place
    ensures (high * (cut * place) + low) / place == high * cut + low / place
  {
    var q, r := low / place, low % place;
    DivisionLaw(low, place);
    assert high * (cut * place) + low == place * (high * cut + q) + r;
    Bits.QuotientIs(high * (cut * place) + low, place, high * cut + q, r);
  }

  // Dividing by a multiple of the place where a number is cut
  lemma Part(high: nat, low: nat, cut: nat, d: nat)
    requires low < cut && d > 0
    ensures (high * cut + low) / (cut * d) == high / d && (high * cut + low) % (cut * d) == high % d * cut + low
  {
    var q, r := high / d, high % d;
    DivisionLaw(high, d);
    Scaled(high, low, cut, d, q, r);
    Bits.QuotientIs(high * cut + low, cut * d, q, r * cut + low);
  }

  lemma Scaled(high: nat, low: nat, cut: nat, d: nat, q: nat, r: nat)
    requires high == d * q + r && r < d && low < cut
    ensures high * cut + low == cut * d * q + (r * cut + low) && r * cut + low < cut * d
  {
    assert (d * q + r) * cut == cut * d * q + r * cut;
    assert (r + 1) * cut <= d * cut;
  }

  // Signed additions and subtractions trap exactly if the result is out of range, and are exact else.
  function Checked(reg: Gpr, x: int): Effect {
    if -0x8000_0000 <= x < 0x8000_0000 then Set(reg, x) else Trap(OverflowException, 0)
  }

  lemma OverflowExact(i: Instruction, o: Operands)
    ensures i.op.Add? ==> EffectOf(i, o) == Checked(i.rd, o.rs as int + o.rt as int)
    ensures i.op.Addi? ==> EffectOf(i, o) == Checked(i.rt, o.rs as int + i.extra as int)
    ensures i.op.Sub? ==> EffectOf(i, o) == Checked(i.rd, o.rs as int - o.rt as int)
  {
    if i.op.Add? || i.op.Addi? {
      SumChecked(o.rs, if i.op.Add? then o.rt else i.extra);
    } else {
      DifferenceChecked(o.rs, o.rt);
    }
  }

  lemma SumChecked(a: int32, b: int32)
    ensures var x := a as int + b as int;
            var sum := Wrap(x);
            if (a < 0) == (b < 0) && (a < 0) != (sum < 0) then x < -0x8000_0000 || x >= 0x8000_0000
            else sum == x
  {
  }

  lemma DifferenceChecked(a: int32, b: int32)
    ensures var x := a as int - b as int;
            var diff := Wrap(x);
            if (a < 0) != (b < 0) && (a < 0) != (diff < 0) then x < -0x8000_0000 || x >= 0x8000_0000
            else diff == x
  {
  }

  // Division truncates: the quotient is the largest in magnitude whose product does not exceed the
  // dividend, and the remainder has the sign of the dividend.
  lemma DivisionExact(a: int32, b: int32)
    requires b != 0
    ensures a == b * Quotient(a, b) + Remainder(a, b)
    ensures Mult.Magnitude(Remainder(a, b)) < Mult.Magnitude(b)
    ensures Remainder(a, b) == 0 || (Remainder(a, b) < 0) == (a < 0)
  {
    var q, r := MagnitudesDivided(a, b);
    SignedDivision(a, b, q, r);
    assert Remainder(a, b) == if a < 0 then -r else r;
  }

  lemma MagnitudesDivided(a: int, b: int) returns (q: int, r: int)
    requires b != 0
    ensures Mult.Magnitude(a) == Mult.Magnitude(b) * q + r && 0 <= r < Mult.Magnitude(b)
    ensures Quotient(a, b) == if (a < 0) == (b < 0) then q else -q
  {
    q, r := Mult.Magnitude(a) / Mult.Magnitude(b), Mult.Magnitude(a) % Mult.Magnitude(b);
    DivisionLaw(Mult.Magnitude(a), Mult.Magnitude(b));
  }

  lemma SignedDivision(a: int, b: int, q: int, r: int)
    requires b != 0 && Mult.Magnitude(a) == Mult.Magnitude(b) * q + r
    ensures a - b * (if (a < 0) == (b < 0) then q else -q) == if a < 0 then -r else r
  {
    var minus: int := -b;
    assert b * -q == -(b * q) && minus * q == -(b * q);
  }

  // HI and LO after any completed instruction
  lemma HiLoSet(c: Cpu, i: Instruction)
    requires Completes(c, i)
    ensures var r, r' := c.regs, Execute(c).cpu.regs;
            var s, t: int := r[i.rs], r[i.rt];
            match i.op
            case Mult => r'[HI_REG] == Mult.High(s * t) && r'[LO_REG] == Mult.Low(s * t)
            case Multu =>
              var x := Unsigned(r[i.rs]) * Unsigned(r[i.rt]);
              r'[HI_REG] == Mult.High(x) && r'[LO_REG] == Mult.Low(x)
            case Div =>
              t != 0 ==> r'[HI_REG] == Wrap(Remainder(s, t)) && r'[LO_REG] == Wrap(Quotient(s, t))
            case Divu =>
              t != 0 ==> Unsigned(r'[HI_REG]) == Unsigned(r[i.rs]) % Unsigned(r[i.rt]) &&
                         Unsigned(r'[LO_REG]) == Unsigned(r[i.rs]) / Unsigned(r[i.rt])
            case Mthi => r'[HI_REG] == s && r'[LO_REG] == r[LO_REG]
            case Mtlo => r'[HI_REG] == r[HI_REG] && r'[LO_REG] == s
            case _ => r'[HI_REG] == r[HI_REG] && r'[LO_REG] == r[LO_REG]
  {
    var d, e := Started(c, i);
    HiLoAfter(d, e);
    if i.op.Divu? && c.regs[i.rt] != 0 {
      DividesUnsigned(Unsigned(c.regs[i.rs]), Unsigned(c.regs[i.rt]));
    }
    EffectOnHiLo(i, OperandsOf(c.regs, i));
  }

  lemma UnsignedWrap(x: word)
    ensures Unsigned(Signed(x)) == x && Unsigned(Wrap(x)) == x
  {
  }

  lemma {:induction false} AtLeastOnce(b: nat, q: nat)
    requires b > 0
    ensures b * q >= q
  {
    if b > 1 {
      AtLeastOnce(b - 1, q);
      assert b * q == (b - 1) * q + q;
    }
  }

  lemma DivisionLaw(a: nat, b: nat)
    requires b > 0
    ensures a == b * (a / b) + a % b
  {
  }

  lemma QuotientFits(a: nat, b: nat)
    requires b > 0
    ensures a / b <= a
  {
    var q := a / b;
    DivisionLaw(a, b);
    AtLeastOnce(b, q);
  }

  lemma DividesUnsigned(a: word, b: word)
    requires b > 0
    ensures Unsigned(Signed(a % b)) == a % b && a / b <= a && Unsigned(Wrap(a / b)) == a / b
  {
    QuotientFits(a, b);
    var q, rest := a / b, a % b;
    WordsKept(q, rest);
  }

  lemma WordsKept(q: word, rest: word)
    ensures Unsigned(Wrap(q)) == q && Unsigned(Signed(rest)) == rest
  {
    UnsignedWrap(q);
    UnsignedWrap(rest);
  }

  // Only these touch them.
  lemma EffectOnHiLo(i: Instruction, o: Operands)
    ensures EffectOf(i, o).SetHiLo? ==> i.op.Mult? || i.op.Multu? || i.op.Div? || i.op.Divu?
    ensures EffectOf(i, o).Set? && EffectOf(i, o).reg >= 32 ==> i.op.Mthi? || i.op.Mtlo?
  {
    if ReadsRt(i.op) {
      TwoOnHiLo(i, o.rs, o.rt, o.nextPc);
    } else {
      OneOnHiLo(i, o);
    }
  }

  lemma TwoOnHiLo(i: Instruction, rs: int32, rt: int32, nextPc: int32)
    requires ReadsRt(i.op)
    ensures var e := EffectOfTwo(i, rs, rt, nextPc);
            && (e.SetHiLo? ==> i.op.Mult? || i.op.Multu? || i.op.Div? || i.op.Divu?)
            && (e.Set? ==> e.reg < 32)
  {
  }

  lemma OneOnHiLo(i: Instruction, o: Operands)
    requires !ReadsRt(i.op)
    ensures var e := EffectOfOne(i, o.rs, o.hi, o.lo, o.nextPc, o.loaded);
            !e.SetHiLo? && (e.Set? && e.reg >= 32 ==> i.op.Mthi? || i.op.Mtlo?)
  {
  }
}
