// machine/translate.cc: virtual addresses, page tables and the translation buffer, and what a read
// or a write of memory through them yields.
module Translate {
  import opened Bytes

  const NUM_PHYS_PAGES := 32
  const PAGE_SIZE := 128
  const MEMORY_SIZE := 4096

  datatype Exception =
    | NoException
    | SyscallException
    | PageFaultException
    | ReadOnlyException
    | BusErrorException
    | AddressErrorException
    | OverflowException
    | IllegalInstrException

  datatype TranslationEntry = TranslationEntry(
    virtualPage: int32, physicalPage: int32, valid: bool, readOnly: bool, use: bool, dirty: bool)

  // A linear page table, indexed by virtual page, or a translation buffer, which is searched.
  datatype Mapping = Mapping(isTlb: bool, entries: seq<TranslationEntry>)

  type Memory = m: seq<byte> | |m| == MEMORY_SIZE witness seq(MEMORY_SIZE, _ => 0)

  // The first valid entry for a page, among the first n of a translation buffer; -1 if none.
  function Matching(entries: seq<TranslationEntry>, n: nat, vpn: nat): (i: int)
    requires n <= |entries|
    ensures -1 <= i < n
  {
    if n == 0 then -1
    else if Matching(entries, n - 1, vpn) != -1 then Matching(entries, n - 1, vpn)
    else if entries[n - 1].valid && Unsigned(entries[n - 1].virtualPage) == vpn then n - 1
    else -1
  }

  lemma {:induction false} MatchingIsFirst(entries: seq<TranslationEntry>, n: nat, vpn: nat)
    requires n <= |entries|
    ensures var i := Matching(entries, n, vpn);
            if i == -1 then forall j | 0 <= j < n :: !(entries[j].valid && Unsigned(entries[j].virtualPage) == vpn)
            else
              && entries[i].valid && Unsigned(entries[i].virtualPage) == vpn
              && forall j | 0 <= j < i :: !(entries[j].valid && Unsigned(entries[j].virtualPage) == vpn)
  {
    if n > 0 {
      MatchingIsFirst(entries, n - 1, vpn);
    }
  }

  datatype Outcome = Fault(e: Exception) | Physical(addr: nat, index: nat)

  predicate Aligned(addr: nat, size: nat) {
    !(size == 4 && addr % 4 != 0) && !(size == 2 && addr % 2 != 0)
  }

  // The frame of an entry, if it may be used.
  function Through(m: Mapping, i: nat, offset: nat, writing: bool): Outcome
    requires i < |m.entries|
  {
    if m.entries[i].readOnly && writing then Fault(ReadOnlyException)
    else if Unsigned(m.entries[i].physicalPage) >= 32 then Fault(BusErrorException)
    else Physical(Unsigned(m.entries[i].physicalPage) * PAGE_SIZE + offset, i)
  }

  function Translated(m: Mapping, virtAddr: int32, size: nat, writing: bool): Outcome {
    var addr := Unsigned(virtAddr);
    var vpn, offset := addr / PAGE_SIZE, addr % PAGE_SIZE;
    if !Aligned(addr, size) then Fault(AddressErrorException)
    else if m.isTlb then
      if Matching(m.entries, |m.entries|, vpn) == -1 then Fault(PageFaultException)
      else Through(m, Matching(m.entries, |m.entries|, vpn), offset, writing)
    else if vpn >= |m.entries| then Fault(AddressErrorException)
    else if !m.entries[vpn].valid then Fault(PageFaultException)
    else Through(m, vpn, offset, writing)
  }

  predicate Transferable(size: nat) {
    size == 1 || size == 2 || size == 4
  }

  // A translated access stays inside its page, hence inside the memory.
  lemma WithinFrame(m: Mapping, virtAddr: int32, size: nat, writing: bool)
    requires Transferable(size) && Translated(m, virtAddr, size, writing).Physical?
    ensures var o := Translated(m, virtAddr, size, writing);
            && o.index < |m.entries|
            && var frame := Unsigned(m.entries[o.index].physicalPage);
               frame < 32 && frame * PAGE_SIZE <= o.addr &&
                 o.addr + size <= frame * PAGE_SIZE + PAGE_SIZE <= MEMORY_SIZE
  {
    OffsetFits(Unsigned(virtAddr), size);
    ThroughFrame(m, Translated(m, virtAddr, size, writing).index, Unsigned(virtAddr) % PAGE_SIZE, writing);
  }

  lemma OffsetFits(addr: nat, size: nat)
    requires Transferable(size) && Aligned(addr, size)
    ensures addr % PAGE_SIZE + size <= PAGE_SIZE
  {
    var page, offset := addr / PAGE_SIZE, addr % PAGE_SIZE;
    if size == 4 {
      var k := addr / 4;
      assert offset == 4 * (k - 32 * page);
    } else if size == 2 {
      var k := addr / 2;
      assert offset == 2 * (k - 64 * page);
    }
  }

  lemma ThroughFrame(m: Mapping, i: nat, offset: nat, writing: bool)
    requires i < |m.entries| && Through(m, i, offset, writing).Physical?
    ensures var frame := Unsigned(m.entries[i].physicalPage);
            frame < 32 && Through(m, i, offset, writing) == Physical(frame * PAGE_SIZE + offset, i)
  {
  }

  // The use and dirty bits that an access sets.
  function Marked(m: Mapping, i: nat, writing: bool): Mapping
    requires i < |m.entries|
  {
    m.(entries := m.entries[i := m.entries[i].(use := true, dirty := m.entries[i].dirty || writing)])
  }

  // What the entries say of a virtual page: the one that serves it is at its place in a page table,
  // or the first valid one for it in a translation buffer.
  ghost predicate Serves(m: Mapping, i: int, vpn: nat) {
    && 0 <= i < |m.entries| && m.entries[i].valid
    && if m.isTlb
       then
         && Unsigned(m.entries[i].virtualPage) == vpn
         && forall j | 0 <= j < i :: !(m.entries[j].valid && Unsigned(m.entries[j].virtualPage) == vpn)
       else i == vpn
  }

  ghost predicate Misaligned(addr: nat, size: nat) {
    (size == 4 && addr % 4 != 0) || (size == 2 && addr % 2 != 0)
  }

  // An access goes through an entry that serves its page, is not read-only if it writes, and names a
  // frame that there is; it ends at the same offset in that frame.
  lemma TranslatesThrough(m: Mapping, virtAddr: int32, size: nat, writing: bool, p: nat, i: nat)
    ensures var addr := Unsigned(virtAddr);
            Translated(m, virtAddr, size, writing) == Physical(p, i) <==>
              && !Misaligned(addr, size) && Serves(m, i, addr / PAGE_SIZE)
              && (m.entries[i].readOnly ==> !writing)
              && Unsigned(m.entries[i].physicalPage) < NUM_PHYS_PAGES
              && p == Unsigned(m.entries[i].physicalPage) * PAGE_SIZE + addr % PAGE_SIZE
  {
    if m.isTlb {
      ServedByMatch(m, Unsigned(virtAddr) / PAGE_SIZE, i);
    }
  }

  lemma ServedByMatch(m: Mapping, vpn: nat, i: nat)
    requires m.isTlb
    ensures Serves(m, i, vpn) <==> Matching(m.entries, |m.entries|, vpn) == i
  {
    MatchingIsFirst(m.entries, |m.entries|, vpn);
  }

  // Each exception has its own condition on the entries.
  lemma ExceptionsMean(m: Mapping, virtAddr: int32, size: nat, writing: bool)
    ensures var addr, o := Unsigned(virtAddr), Translated(m, virtAddr, size, writing);
            var vpn := addr / PAGE_SIZE;
            && (o == Fault(AddressErrorException) <==> Misaligned(addr, size) || (!m.isTlb && vpn >= |m.entries|))
            && (o == Fault(PageFaultException) <==>
                  && !Misaligned(addr, size) && (!m.isTlb ==> vpn < |m.entries|)
                  && forall i | 0 <= i < |m.entries| :: !Serves(m, i, vpn))
            && (o == Fault(ReadOnlyException) <==>
                  && !Misaligned(addr, size) && writing
                  && exists i :: Serves(m, i, vpn) && m.entries[i].readOnly)
            && (o == Fault(BusErrorException) <==>
                  && !Misaligned(addr, size)
                  && exists i :: Serves(m, i, vpn) && (m.entries[i].readOnly ==> !writing) &&
                                 Unsigned(m.entries[i].physicalPage) >= NUM_PHYS_PAGES)
  {
    var vpn := Unsigned(virtAddr) / PAGE_SIZE;
    MatchingIsFirst(m.entries, |m.entries|, vpn);
    if m.isTlb {
      var i := Matching(m.entries, |m.entries|, vpn);
      assert i != -1 ==> Serves(m, i, vpn);
      assert forall j | Serves(m, j, vpn) :: j == i;
    } else {
      assert vpn < |m.entries| && m.entries[vpn].valid ==> Serves(m, vpn, vpn);
    }
  }

  // Marking an entry changes no translation.
  lemma MarkedTranslates(m: Mapping, i: nat, marking: bool, virtAddr: int32, size: nat, writing: bool)
    requires i < |m.entries|
    ensures Translated(Marked(m, i, marking), virtAddr, size, writing) == Translated(m, virtAddr, size, writing)
  {
    var addr := Unsigned(virtAddr);
    MarkedMatches(m, i, marking, |m.entries|, addr / PAGE_SIZE);
  }

  lemma {:induction false} MarkedMatches(m: Mapping, i: nat, marking: bool, n: nat, vpn: nat)
    requires i < |m.entries| && n <= |m.entries|
    ensures Matching(Marked(m, i, marking).entries, n, vpn) == Matching(m.entries, n, vpn)
  {
    if n > 0 {
      MarkedMatches(m, i, marking, n - 1, vpn);
    }
  }

  // The values in memory, least significant byte first; a byte counts as unsigned.
  function Fetch(memory: Memory, addr: nat, size: nat): int32
    requires Transferable(size) && addr + size <= MEMORY_SIZE
  {
    if size == 1 then memory[addr]
    else if size == 2 then memory[addr] + 0x100 * memory[addr + 1]
    else Signed(BytesWord(memory[addr..addr + 4]))
  }

  function Store(memory: Memory, addr: nat, size: nat, value: int32): (memory': Memory)
    requires Transferable(size) && addr + size <= MEMORY_SIZE
  {
    var b := WordBytes(Unsigned(value));
    seq(MEMORY_SIZE, k requires 0 <= k < MEMORY_SIZE => if addr <= k < addr + size then b[k - addr] else memory[k])
  }

  // What was stored is fetched again, cut to its size.
  lemma FetchStored(memory: Memory, addr: nat, size: nat, value: int32)
    requires Transferable(size) && addr + size <= MEMORY_SIZE
    ensures Fetch(Store(memory, addr, size, value), addr, size) ==
            if size == 4 then value else if size == 2 then Unsigned(value) % 0x1_0000 else Unsigned(value) % 0x100
  {
    var stored := Store(memory, addr, size, value);
    var w := Unsigned(value);
    if size == 4 {
      assert stored[addr..addr + 4] == WordBytes(w);
      WordRoundTrip(w);
    } else if size == 2 {
      TwoBytes(w);
    }
  }

  lemma TwoBytes(w: word)
    ensures w % 0x1_0000 == w % 0x100 + 0x100 * (w / 0x100 % 0x100)
  {
  }

  // Reads and writes through a mapping.
  datatype ReadResult = NoRead(e: Exception) | Value(value: int32, mapping: Mapping)
  datatype WriteResult = NoWrite(e: Exception) | Written(memory: Memory, mapping: Mapping)

  function Read(m: Mapping, memory: Memory, virtAddr: int32, size: nat): ReadResult
    requires Transferable(size)
  {
    match Translated(m, virtAddr, size, false)
    case Fault(e) => NoRead(e)
    case Physical(addr, i) =>
      WithinFrame(m, virtAddr, size, false);
      Value(Fetch(memory, addr, size), Marked(m, i, false))
  }

  function Write(m: Mapping, memory: Memory, virtAddr: int32, size: nat, value: int32): WriteResult
    requires Transferable(size)
  {
    match Translated(m, virtAddr, size, true)
    case Fault(e) => NoWrite(e)
    case Physical(addr, i) =>
      WithinFrame(m, virtAddr, size, true);
      Written(Store(memory, addr, size, value), Marked(m, i, true))
  }

  // What a read delivers, the byte at the address counting least, and what it marks
  lemma ReadMeans(m: Mapping, memory: Memory, virtAddr: int32, size: nat, p: nat, i: nat)
    requires Transferable(size) && Translated(m, virtAddr, size, false) == Physical(p, i)
    ensures i < |m.entries| && p + size <= MEMORY_SIZE && Read(m, memory, virtAddr, size).Value?
    ensures var r := Read(m, memory, virtAddr, size);
            && r.mapping.isTlb == m.isTlb && |r.mapping.entries| == |m.entries|
            && (forall j | 0 <= j < |m.entries| ::
                  r.mapping.entries[j] == if j == i then m.entries[j].(use := true) else m.entries[j])
            && Unsigned(r.value) ==
               (if size == 1 then memory[p] as int
                else if size == 2 then memory[p] as int + 0x100 * memory[p + 1] as int
                else memory[p] as int + 0x100 * memory[p + 1] as int + 0x1_0000 * memory[p + 2] as int +
                     0x100_0000 * memory[p + 3] as int)
  {
    WithinFrame(m, virtAddr, size, false);
  }

  // What a write leaves in memory, and what it marks
  function ByteOf(value: int32, k: nat): int
    requires k < 4
  {
    if k == 0 then Unsigned(value) % 0x100
    else if k == 1 then Unsigned(value) / 0x100 % 0x100
    else if k == 2 then Unsigned(value) / 0x1_0000 % 0x100
    else Unsigned(value) / 0x100_0000
  }

  lemma WriteMeans(m: Mapping, memory: Memory, virtAddr: int32, size: nat, value: int32, p: nat, i: nat)
    requires Transferable(size) && Translated(m, virtAddr, size, true) == Physical(p, i)
    ensures i < |m.entries| && p + size <= MEMORY_SIZE && Write(m, memory, virtAddr, size, value).Written?
    ensures var r := Write(m, memory, virtAddr, size, value);
            && r.mapping.isTlb == m.isTlb && |r.mapping.entries| == |m.entries|
            && (forall j | 0 <= j < |m.entries| ::
                  r.mapping.entries[j] == if j == i then m.entries[j].(use := true, dirty := true) else m.entries[j])
            && (forall k | 0 <= k < MEMORY_SIZE ::
                  r.memory[k] as int == if p <= k < p + size then ByteOf(value, k - p) else memory[k] as int)
  {
    WithinFrame(m, virtAddr, size, true);
  }

  // A read through the same mapping at the same address returns what was written.
  lemma ReadWritten(m: Mapping, memory: Memory, virtAddr: int32, size: nat, value: int32)
    requires Transferable(size) && Write(m, memory, virtAddr, size, value).Written?
    ensures var w := Write(m, memory, virtAddr, size, value);
            && Read(w.mapping, w.memory, virtAddr, size).Value?
            && Read(w.mapping, w.memory, virtAddr, size).value ==
               if size == 4 then value else if size == 2 then Unsigned(value) % 0x1_0000 else Unsigned(value) % 0x100
  {
    var o := Translated(m, virtAddr, size, true);
    WithinFrame(m, virtAddr, size, true);
    MarkedTranslates(m, o.index, true, virtAddr, size, false);
    FetchStored(memory, o.addr, size, value);
  }

  // The frames that a mapping gives access to.
  ghost function Frames(m: Mapping): set<nat> {
    set i | 0 <= i < |m.entries| :: Unsigned(m.entries[i].physicalPage)
  }

  // A write through one mapping changes nothing that can be read through another that shares no
  // frame with it.
  lemma WritesAreIsolated(a: Mapping, b: Mapping, memory: Memory, virtAddr: int32, size: nat, value: int32,
                          addr: int32, n: nat)
    requires Transferable(size) && Transferable(n) && Frames(a) !! Frames(b)
    requires Write(a, memory, virtAddr, size, value).Written?
    ensures Read(b, Write(a, memory, virtAddr, size, value).memory, addr, n) == Read(b, memory, addr, n)
  {
    WithinFrame(a, virtAddr, size, true);
    var w := Translated(a, virtAddr, size, true);
    var r := Translated(b, addr, n, false);
    if r.Physical? {
      WithinFrame(b, addr, n, false);
      var f, g := Unsigned(a.entries[w.index].physicalPage), Unsigned(b.entries[r.index].physicalPage);
      assert f in Frames(a) && g in Frames(b);
      var memory' := Store(memory, w.addr, size, value);
      assert forall k | r.addr <= k < r.addr + n :: memory'[k] == memory[k];
      assert n == 4 ==> memory'[r.addr..r.addr + 4] == memory[r.addr..r.addr + 4];
    }
  }
}
