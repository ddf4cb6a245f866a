// The processor as the object that the kernel shares: its methods change the registers, the memory
// and the bits of the translation entries in place, as Machine says.
module Processor {
  import opened Basics
  import opened Bytes
  import opened Translate
  import T = Translate
  import opened Instruction
  import opened Machine
  import Mult

  lemma MultiplyEffect(i: Instruction, o: Operands)
    requires i.op.Mult? || i.op.Multu?
    ensures var product := if i.op.Mult? then o.rs * o.rt else Unsigned(o.rs) * Unsigned(o.rt);
            EffectOf(i, o) == SetHiLo(Mult.High(product), Mult.Low(product))
  {
  }

  class Processor {
    const registers: array<int32>
    const mainMemory: array<byte>
    var tlb: array?<TranslationEntry>
    var pageTable: array?<TranslationEntry>

    // Exactly one of the two is there.
    ghost predicate Valid()
      reads this
    {
      && registers.Length == NUM_TOTAL_REGS && mainMemory.Length == MEMORY_SIZE
      && (tlb == null || pageTable == null) && (tlb != null || pageTable != null)
    }

    function Entries(): array<TranslationEntry>
      requires Valid()
      reads this
    {
      if tlb != null then tlb else pageTable
    }

    ghost function State(): Cpu
      requires Valid()
      reads this, registers, mainMemory, Entries()
    {
      Cpu(registers[..], mainMemory[..], Mapping(tlb != null, Entries()[..]))
    }

    method WriteRegister(num: nat, value: int32)
      requires Valid() && num < NUM_TOTAL_REGS
      modifies registers
      ensures State() == old(State()).(regs := old(State()).regs[num := value])
    {
      registers[num] := value;
      assert registers[..] == old(registers[..])[num := value];
    }

    method DelayedLoad(nextReg: Gpr, nextValue: int32)
      requires Valid() && 0 <= registers[LOAD_REG] < 32
      modifies registers
      ensures State() == old(State()).(regs := Machine.DelayedLoad(old(State()).regs, nextReg, nextValue))
    {
      WriteRegister(registers[LOAD_REG], registers[LOAD_VALUE_REG]);
      WriteRegister(LOAD_REG, nextReg);
      WriteRegister(LOAD_VALUE_REG, nextValue);
      WriteRegister(0, 0); // whatever the load did to it
    }

    // Up to the call of the kernel's exception handler.
    method RaiseException(which: Exception, badVAddr: int32)
      requires Valid() && 0 <= registers[LOAD_REG] < 32
      modifies registers
      ensures Outcome(State(), which) == Raise(old(State()), which, badVAddr)
    {
      WriteRegister(BAD_VADDR_REG, badVAddr);
      DelayedLoad(0, 0);
    }

    // The valid entry of the TLB for a page, if any.
    method Search(vpn: nat) returns (i: int)
      requires Valid() && tlb != null
      ensures i == Matching(Entries()[..], Entries().Length, vpn)
    {
      MatchingIsFirst(Entries()[..], Entries().Length, vpn);
      ghost var entries := Entries()[..];
      for k := 0 to tlb.Length
        invariant forall j | 0 <= j < k :: !(entries[j].valid && Unsigned(entries[j].virtualPage) == vpn)
      {
        if tlb[k].valid && Unsigned(tlb[k].virtualPage) == vpn {
          assert entries[k] == tlb[k];
          return k;
        }
      }
      return -1;
    }

    method Translate(virtAddr: int32, size: Size, writing: bool) returns (exception: Exception, physAddr: nat)
      requires Valid()
      modifies Entries()
      ensures var o := Translated(old(State()).mapping, virtAddr, size, writing);
              if o.Fault? then exception == o.e && exception != NoException && State() == old(State())
              else
                && exception == NoException && physAddr == o.addr && o.index < |old(State()).mapping.entries|
                && State() == old(State()).(mapping := Marked(old(State()).mapping, o.index, writing))
                && physAddr + size <= MEMORY_SIZE
    {
      physAddr := 0;
      var addr := Unsigned(virtAddr);
      if !Aligned(addr, size) {
        return AddressErrorException, physAddr;
      }
      var vpn, offset := addr / PAGE_SIZE, addr % PAGE_SIZE;
      var i: int := vpn;
      if tlb == null {
        if vpn >= pageTable.Length {
          return AddressErrorException, physAddr;
        } else if !pageTable[vpn].valid {
          return PageFaultException, physAddr;
        }
      } else {
        i := Search(vpn);
        if i == -1 {
          return PageFaultException, physAddr;
        }
      }
      var entries := Entries();
      if entries[i].readOnly && writing {
        return ReadOnlyException, physAddr;
      }
      var pageFrame := Unsigned(entries[i].physicalPage);
      if pageFrame >= NUM_PHYS_PAGES {
        return BusErrorException, physAddr;
      }
      WithinFrame(State().mapping, virtAddr, size, writing);
      ghost var was := entries[..];
      entries[i] := entries[i].(use := true, dirty := entries[i].dirty || writing);
      assert entries[..] == was[i := entries[i]];
      return NoException, pageFrame * PAGE_SIZE + offset;
    }

    // A failed read raises the exception that the translation gives.
    method ReadMem(addr: int32, size: Size) returns (exception: Exception, value: int32)
      requires Valid() && 0 <= registers[LOAD_REG] < 32
      modifies registers, Entries()
      ensures match Read(old(State()).mapping, old(State()).memory, addr, size)
              case NoRead(e) => exception == e && e != NoException && State() == Raise(old(State()), e, addr).cpu
              case Value(v, m) => exception == NoException && value == v && State() == old(State()).(mapping := m)
    {
      var physAddr;
      value := 0;
      exception, physAddr := Translate(addr, size, false);
      if exception != NoException {
        RaiseException(exception, addr);
        return;
      }
      value := Fetch(mainMemory[..], physAddr, size);
    }

    method WriteMem(addr: int32, size: Size, value: int32) returns (exception: Exception)
      requires Valid() && 0 <= registers[LOAD_REG] < 32
      modifies registers, mainMemory, Entries()
      ensures match Write(old(State()).mapping, old(State()).memory, addr, size, value)
              case NoWrite(e) => exception == e && e != NoException && State() == Raise(old(State()), e, addr).cpu
              case Written(memory, m) =>
                exception == NoException && State() == old(State()).(memory := memory, mapping := m)
    {
      var physAddr;
      exception, physAddr := Translate(addr, size, true);
      if exception != NoException {
        RaiseException(exception, addr);
        return;
      }
      var bytes := WordBytes(Unsigned(value));
      ghost var was, entries := mainMemory[..], Entries()[..];
      for k := 0 to size
        invariant registers[..] == old(registers[..]) && Entries()[..] == entries
        invariant forall j | 0 <= j < MEMORY_SIZE ::
                    mainMemory[j] == if physAddr <= j < physAddr + k then bytes[j - physAddr] else was[j]
      {
        mainMemory[physAddr + k] := bytes[k];
      }
      assert mainMemory[..] == T.Store(was, physAddr, size, value);
    }

    // The end of an instruction that has been executed successfully.
    method Finish(nextLoadReg: Gpr, nextLoadValue: int32, pcAfter: int32)
      requires Valid() && 0 <= registers[LOAD_REG] < 32
      modifies registers
      ensures State() == old(State()).(regs := Advance(old(State()).regs, nextLoadReg, nextLoadValue, pcAfter))
    {
      DelayedLoad(nextLoadReg, nextLoadValue);
      WriteRegister(PREV_PC_REG, registers[PC_REG]);
      WriteRegister(PC_REG, registers[NEXT_PC_REG]);
      WriteRegister(NEXT_PC_REG, pcAfter);
    }

    method Multiply(a: int32, b: int32, signedArith: bool)
      requires Valid()
      modifies registers
      ensures var product := if signedArith then a * b else Unsigned(a) * Unsigned(b);
              State() == old(State()).(regs :=
                old(State()).regs[HI_REG := Mult.High(product)][LO_REG := Mult.Low(product)])
    {
      var hi, lo := Mult.Mult(a, b, signedArith);
      Mult.HalvesAreUnique(hi, lo, if signedArith then a * b else Unsigned(a) * Unsigned(b));
      WriteRegister(HI_REG, hi);
      WriteRegister(LO_REG, lo);
    }

    // swl and swr of an aligned word
    method StoreOver(addr: int32, value: int32, whole: bool) returns (which: Exception)
      requires Valid() && Sound(registers[..])
      modifies registers, mainMemory, Entries()
      ensures which != NoException ==> PerformStoreOver(old(State()), addr, value, whole) == Outcome(State(), which)
      ensures which == NoException ==> registers[..] == old(registers[..])
      ensures which == NoException ==>
                PerformStoreOver(old(State()), addr, value, whole) ==
                Complete(State(), old(State()).regs, 0, 0, Link(old(State()).regs))
    {
      var before;
      which, before := ReadMem(addr, 4);
      if which == NoException {
        which := WriteMem(addr, 4, if whole then value else OverRight(before, value));
      }
    }

    method Perform(effect: Effect) returns (which: Exception)
      requires Valid() && Sound(registers[..]) && !effect.Abort?
      modifies registers, mainMemory, Entries()
      ensures Outcome(State(), which) == Machine.Perform(old(State()), effect)
    {
      which := NoException;
      var pcAfter := Link(registers[..]);
      var nextLoadReg, nextLoadValue := 0, 0; // without a load, register 0
      match effect {
        case Trap(e, badVAddr) =>
          RaiseException(e, badVAddr);
          return e;
        case Set(reg, value) => WriteRegister(reg, value);
        case SetHiLo(hi, lo) =>
          WriteRegister(HI_REG, hi);
          WriteRegister(LO_REG, lo);
        case Jump(link, target) =>
          if link.Some? {
            WriteRegister(link.value, pcAfter);
          }
          pcAfter := target;
        case Load(addr, size, signExtend, target) =>
          var value;
          which, value := ReadMem(addr, size);
          if which != NoException {
            return;
          }
          nextLoadReg, nextLoadValue := target, Extended(value, size, signExtend);
        case LoadRight(addr, before, target) =>
          var value;
          which, value := ReadMem(addr, 4);
          if which != NoException {
            return;
          }
          nextLoadReg, nextLoadValue := target, MergeRight(before, value);
        case StoreOver(addr, value, whole) =>
          which := StoreOver(addr, value, whole);
          if which != NoException {
            return;
          }
        case Store(addr, size, value) =>
          which := WriteMem(addr, size, value);
          if which != NoException {
            return;
          }
      }
      Finish(nextLoadReg, nextLoadValue, pcAfter);
    }

    method OneInstruction() returns (which: Exception)
      requires Valid() && Sound(registers[..])
      requires NextInstruction(State()).Some? ==> Completes(State(), NextInstruction(State()).value)
      modifies registers, mainMemory, Entries()
      ensures Outcome(State(), which) == Execute(old(State()))
    {
      var raw;
      which, raw := ReadMem(registers[PC_REG], 4);
      if which != NoException {
        return; // exception occurred
      }
      var i := Decode(Unsigned(raw));
      var operands := OperandsOf(registers[..], i);
      if i.op.Mult? || i.op.Multu? {
        MultiplyEffect(i, operands);
        PerformMultiply(operands.rs, operands.rt, i.op.Mult?);
      } else {
        which := Perform(EffectOf(i, operands));
      }
    }

    method PerformMultiply(a: int32, b: int32, signedArith: bool)
      requires Valid() && Sound(registers[..])
      modifies registers
      ensures var product := if signedArith then a * b else Unsigned(a) * Unsigned(b);
              Outcome(State(), NoException) ==
              Machine.Perform(old(State()), SetHiLo(Mult.High(product), Mult.Low(product)))
    {
      var pcAfter := Link(registers[..]);
      Multiply(a, b, signedArith);
      Finish(0, 0, pcAfter);
    }
  }
}
