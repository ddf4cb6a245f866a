// Runs of programs in their address spaces (userprog/addrspace.cc with machine/translate.cc):
// spaces are set up and destroyed, and read and write memory through their page tables.
module AddrSpaces {
  import opened Bytes
  import opened BitMap
  import opened Translate
  import opened Frames

  datatype State = State(bits: seq<bool>, spaces: map<nat, Mapping>, memory: Memory)

  datatype Step =
    | Initialize(id: nat, pagesNeeded: nat)
    | Destroy(id: nat)
    | ReadMem(id: nat, addr: int32, size: nat)
    | WriteMem(id: nat, addr: int32, size: nat, value: int32)

  function Pages(m: Mapping): (pages: seq<int>)
    ensures |pages| == |m.entries|
  {
    seq(|m.entries|, i requires 0 <= i < |m.entries| => m.entries[i].physicalPage)
  }

  // Loading the program into its own frames is the only change of memory.
  ghost predicate LoadsInto(memory: Memory, memory': Memory, pages: seq<int>) {
    forall k | 0 <= k < MEMORY_SIZE && k / PAGE_SIZE !in pages :: memory'[k] == memory[k]
  }

  ghost predicate NewSpace(s: State, m: Mapping, s': State, id: nat) {
    && !m.isTlb && (forall i | 0 <= i < |m.entries| :: NewEntry(m.entries[i], i))
    && Granted(s.bits, s'.bits, Pages(m)) && s'.spaces == s.spaces[id := m]
    && LoadsInto(s.memory, s'.memory, Pages(m))
  }

  function AfterRead(s: State, id: nat, r: ReadResult): State {
    match r
    case NoRead(_) => s
    case Value(_, m) => s.(spaces := s.spaces[id := m])
  }

  function AfterWrite(s: State, id: nat, w: WriteResult): State {
    match w
    case NoWrite(_) => s
    case Written(memory, m) => s.(spaces := s.spaces[id := m], memory := memory)
  }

  ghost predicate StepsTo(s: State, step: Step, s': State) {
    match step
    case Initialize(id, n) =>
      && id !in s.spaces && n <= NUM_PHYS_PAGES
      && if n <= CountClear(s.bits) then exists m: Mapping :: |m.entries| == n && NewSpace(s, m, s', id) else s' == s
    case Destroy(id) =>
      && id in s.spaces && Returned(s.bits, s'.bits, Pages(s.spaces[id]))
      && s'.spaces == s.spaces - {id} && s'.memory == s.memory
    case ReadMem(id, addr, size) =>
      && id in s.spaces && Transferable(size)
      && s' == AfterRead(s, id, Read(s.spaces[id], s.memory, addr, size))
    case WriteMem(id, addr, size, value) =>
      && id in s.spaces && Transferable(size)
      && s' == AfterWrite(s, id, Write(s.spaces[id], s.memory, addr, size, value))
  }

  // Each space has frames of its own, and the manager's map marks the frames in use.
  ghost predicate Proper(m: Mapping) {
    !m.isTlb && NoneTwice(Pages(m)) && forall i | 0 <= i < |m.entries| :: 0 <= Pages(m)[i] < NUM_PHYS_PAGES
  }

  ghost predicate Has(s: State, id: nat, f: int) {
    id in s.spaces && f in Pages(s.spaces[id])
  }

  ghost predicate Inv(s: State) {
    && |s.bits| == NUM_PHYS_PAGES
    && (forall id | id in s.spaces :: Proper(s.spaces[id]))
    && (forall id, id', f | Has(s, id, f) && Has(s, id', f) :: id == id')
    && (forall f | 0 <= f < NUM_PHYS_PAGES :: s.bits[f] <==> exists id :: Has(s, id, f))
  }

  lemma InitializeKeeps(s: State, m: Mapping, s': State, id: nat)
    requires Inv(s) && id !in s.spaces && NewSpace(s, m, s', id)
    ensures Inv(s')
  {
    GrantedWereFree(s.bits, s'.bits, Pages(m));
    GrantedBits(s.bits, s'.bits, Pages(m), 0);
    forall i, f
      ensures Has(s', i, f) <==> if i == id then f in Pages(m) else Has(s, i, f)
    {
    }
    forall i, f | Has(s, i, f)
      ensures f !in Pages(m)
    {
      assert s.bits[f];
    }
    forall f | 0 <= f < NUM_PHYS_PAGES
      ensures s'.bits[f] <==> exists i :: Has(s', i, f)
    {
      GrantedBits(s.bits, s'.bits, Pages(m), f);
      if s.bits[f] {
        var i :| Has(s, i, f);
        assert Has(s', i, f);
      } else if f in Pages(m) {
        assert Has(s', id, f);
      }
    }
  }

  lemma DestroyKeeps(s: State, s': State, id: nat)
    requires Inv(s) && StepsTo(s, Destroy(id), s')
    ensures Inv(s')
  {
    forall i, f
      ensures Has(s', i, f) <==> i != id && Has(s, i, f)
    {
    }
    forall f | 0 <= f < NUM_PHYS_PAGES
      ensures s'.bits[f] <==> exists i :: Has(s', i, f)
    {
      if s.bits[f] {
        var i :| Has(s, i, f);
        assert i != id ==> Has(s', i, f);
        assert f in Pages(s.spaces[id]) ==> Has(s, id, f);
      }
    }
  }

  // The pages that a destroyed space gives back were marked, each once, as FreePage demands.
  lemma DestroyedWereMarked(s: State, id: nat)
    requires Inv(s) && id in s.spaces
    ensures NoneTwice(Pages(s.spaces[id]))
    ensures forall i | 0 <= i < |Pages(s.spaces[id])| ::
              0 <= Pages(s.spaces[id])[i] < NUM_PHYS_PAGES && s.bits[Pages(s.spaces[id])[i]]
  {
    forall i | 0 <= i < |Pages(s.spaces[id])|
      ensures 0 <= Pages(s.spaces[id])[i] < NUM_PHYS_PAGES && s.bits[Pages(s.spaces[id])[i]]
    {
      assert Has(s, id, Pages(s.spaces[id])[i]);
    }
  }

  // Marking an entry as used moves no page.
  lemma MarkKeeps(s: State, s': State, id: nat, i: nat, writing: bool)
    requires Inv(s) && id in s.spaces && i < |s.spaces[id].entries|
    requires s'.bits == s.bits && s'.spaces == s.spaces[id := Marked(s.spaces[id], i, writing)]
    ensures Inv(s')
  {
    assert Pages(Marked(s.spaces[id], i, writing)) == Pages(s.spaces[id]);
    forall j, f
      ensures Has(s', j, f) <==> Has(s, j, f)
    {
    }
  }

  lemma StepKeeps(s: State, step: Step, s': State)
    requires Inv(s) && StepsTo(s, step, s')
    ensures Inv(s')
  {
    match step {
      case Initialize(id, n) =>
        if n <= CountClear(s.bits) {
          var m: Mapping :| |m.entries| == n && NewSpace(s, m, s', id);
          InitializeKeeps(s, m, s', id);
        }
      case Destroy(id) => DestroyKeeps(s, s', id);
      case ReadMem(id, addr, size) =>
        var o := Translated(s.spaces[id], addr, size, false);
        if o.Physical? {
          WithinFrame(s.spaces[id], addr, size, false);
          MarkKeeps(s, s', id, o.index, false);
        }
      case WriteMem(id, addr, size, value) =>
        var o := Translated(s.spaces[id], addr, size, true);
        if o.Physical? {
          WithinFrame(s.spaces[id], addr, size, true);
          MarkKeeps(s, s', id, o.index, true);
        }
    }
  }

  ghost predicate Run(states: seq<State>, steps: seq<Step>) {
    && |states| == |steps| + 1
    && states[0].bits == seq(NUM_PHYS_PAGES, _ => false) && states[0].spaces == map[]
    && forall i | 0 <= i < |steps| :: StepsTo(states[i], steps[i], states[i + 1])
  }

  lemma {:induction false} RunKeeps(states: seq<State>, steps: seq<Step>, n: nat)
    requires Run(states, steps) && n <= |steps|
    ensures Inv(states[n])
  {
    if n > 0 {
      RunKeeps(states, steps, n - 1);
      StepKeeps(states[n - 1], steps[n - 1], states[n]);
    }
  }

  // What one space does is invisible to every other one: it reads the same values as before.
  lemma Isolation(s: State, step: Step, s': State, other: nat, addr: int32, size: nat)
    requires Inv(s) && StepsTo(s, step, s') && other in s.spaces && step.id != other && Transferable(size)
    ensures other in s'.spaces && s'.spaces[other] == s.spaces[other]
    ensures Read(s'.spaces[other], s'.memory, addr, size) == Read(s.spaces[other], s.memory, addr, size)
  {
    match step {
      case Initialize(id, n) =>
        if n <= CountClear(s.bits) {
          var m: Mapping :| |m.entries| == n && NewSpace(s, m, s', id);
          LoadingIsIsolated(s, m, s', id, other, addr, size);
        }
      case WriteMem(id, a, n, value) =>
        if Write(s.spaces[id], s.memory, a, n, value).Written? {
          FramesApart(s, id, other);
          WritesAreIsolated(s.spaces[id], s.spaces[other], s.memory, a, n, value, addr, size);
        }
      case _ =>
    }
  }

  lemma FramesApart(s: State, id: nat, other: nat)
    requires Inv(s) && id in s.spaces && other in s.spaces && id != other
    ensures Translate.Frames(s.spaces[id]) !! Translate.Frames(s.spaces[other])
  {
    var a, b := s.spaces[id], s.spaces[other];
    forall i, j | 0 <= i < |a.entries| && 0 <= j < |b.entries|
      ensures Unsigned(a.entries[i].physicalPage) != Unsigned(b.entries[j].physicalPage)
    {
      assert Pages(a)[i] in Pages(a) && Pages(b)[j] in Pages(b);
      assert Has(s, id, Pages(a)[i]) && Has(s, other, Pages(b)[j]);
    }
  }

  lemma LoadingIsIsolated(s: State, m: Mapping, s': State, id: nat, other: nat, addr: int32, size: nat)
    requires Inv(s) && id !in s.spaces && other in s.spaces && NewSpace(s, m, s', id) && Transferable(size)
    ensures Read(s.spaces[other], s'.memory, addr, size) == Read(s.spaces[other], s.memory, addr, size)
  {
    var b := s.spaces[other];
    var o := Translated(b, addr, size, false);
    if o.Physical? {
      WithinFrame(b, addr, size, false);
      var f := Pages(b)[o.index];
      assert f in Pages(b) && Has(s, other, f);
      GrantedWereFree(s.bits, s'.bits, Pages(m));
      assert s.bits[f] && f !in Pages(m);
      forall k | o.addr <= k < o.addr + size
        ensures s'.memory[k] == s.memory[k]
      {
        assert k / PAGE_SIZE == f;
      }
      assert size == 4 ==> s'.memory[o.addr..o.addr + 4] == s.memory[o.addr..o.addr + 4];
    }
  }
}
