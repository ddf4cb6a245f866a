// userprog/memorymanager.cc and the page tables of userprog/addrspace.cc: which address space has
// which physical page.
module Frames {
  import opened BitMap
  import opened Translate

  class MemoryManager {
    const pages: BitMap
    var usedPagesTotal: int
    var lockHeld: bool // between Acquire and Release

    ghost predicate Valid()
      reads this, pages.storage
    {
      pages.Valid()
    }

    // The count of used pages is right.
    ghost predicate Counted()
      requires Valid()
      reads this, pages.storage
    {
      usedPagesTotal + CountClear(pages.Bits()) == pages.numBits
    }

    constructor (numPages: nat)
      ensures Valid() && Counted() && !lockHeld
      ensures fresh(pages) && fresh(pages.storage) && pages.numBits == numPages
      ensures pages.Bits() == seq(numPages, _ => false)
    {
      pages := new BitMap(numPages);
      usedPagesTotal, lockHeld := 0, false;
      new;
      CountClearAll(pages.Bits());
    }

    method Acquire()
      requires !lockHeld
      modifies this`lockHeld
      ensures lockHeld
    {
      lockHeld := true;
    }

    method Release()
      requires lockHeld
      modifies this`lockHeld
      ensures !lockHeld
    {
      lockHeld := false;
    }

    // Where no page is free it returns with the lock.
    method AllocPage() returns (free: int)
      requires Valid() && !lockHeld
      modifies this, pages.storage
      ensures Valid() && Counted() == old(Counted()) && (free == -1 <==> CountClear(old(pages.Bits())) == 0)
      ensures lockHeld <==> free == -1
      ensures free == -1 ==> pages.Bits() == old(pages.Bits()) && usedPagesTotal == old(usedPagesTotal)
      ensures free != -1 ==>
                && 0 <= free < pages.numBits && !old(pages.Bits())[free]
                && pages.Bits() == old(pages.Bits())[free := true]
                && CountClear(pages.Bits()) == CountClear(old(pages.Bits())) - 1
    {
      Acquire();
      ghost var bits := pages.Bits();
      free := pages.Find();
      if free == -1 {
        return -1;
      }
      CountClearUpdate(bits, free, true);
      usedPagesTotal := usedPagesTotal + 1;
      Release();
    }

    // The count stays right exactly if the page was in use.
    method FreePage(physPageNum: int)
      requires Valid() && !lockHeld && 0 <= physPageNum < pages.numBits
      modifies this, pages.storage
      ensures Valid() && !lockHeld && pages.Bits() == old(pages.Bits())[physPageNum := false]
      ensures old(Counted()) ==> (Counted() <==> old(pages.Bits())[physPageNum])
    {
      Acquire();
      ghost var bits := pages.Bits();
      if bits[physPageNum] {
        CountClearUpdate(bits, physPageNum, false);
      } else {
        assert bits[physPageNum := false] == bits;
      }
      pages.Clear(physPageNum);
      usedPagesTotal := usedPagesTotal - 1;
      Release();
    }

    method PageIsAllocated(physPageNum: int) returns (allotted: bool)
      requires Valid() && !lockHeld && 0 <= physPageNum < pages.numBits
      modifies this`lockHeld
      ensures !lockHeld && allotted == pages.Bits()[physPageNum]
    {
      Acquire();
      allotted := pages.Test(physPageNum);
      Release();
    }

    method GetAvailable() returns (available: nat)
      requires Valid() && !lockHeld
      modifies this`lockHeld
      ensures !lockHeld && available == CountClear(pages.Bits())
      ensures Counted() ==> usedPagesTotal + available == pages.numBits
    {
      Acquire();
      available := pages.NumClear();
      Release();
    }
  }

  // An entry as Initialize sets it up.
  predicate NewEntry(e: TranslationEntry, i: int) {
    e.virtualPage == i && e.valid && !e.readOnly && !e.use && !e.dirty
  }

  ghost predicate NoneTwice(frames: seq<int>) {
    forall i, j | 0 <= i < j < |frames| :: frames[i] != frames[j]
  }

  // The frames were free one after the other, and have been marked.
  ghost predicate Granted(bits: seq<bool>, bits': seq<bool>, frames: seq<int>)
    decreases |frames|
  {
    if frames == [] then bits' == bits
    else
      var n := |frames| - 1;
      exists before ::
        && Granted(bits, before, frames[..n])
        && 0 <= frames[n] < |before| && !before[frames[n]] && bits' == before[frames[n] := true]
  }

  lemma {:induction false} GrantedBits(bits: seq<bool>, bits': seq<bool>, frames: seq<int>, f: nat)
    requires Granted(bits, bits', frames)
    ensures |bits| == |bits'|
    ensures f < |bits| ==> (bits'[f] <==> bits[f] || f in frames)
    decreases |frames|
  {
    if frames != [] {
      var n := |frames| - 1;
      var before :|
        && Granted(bits, before, frames[..n])
        && 0 <= frames[n] < |before| && !before[frames[n]] && bits' == before[frames[n] := true];
      GrantedBits(bits, before, frames[..n], f);
      assert frames == frames[..n] + [frames[n]];
    }
  }

  lemma {:induction false} GrantedWereFree(bits: seq<bool>, bits': seq<bool>, frames: seq<int>)
    requires Granted(bits, bits', frames)
    ensures NoneTwice(frames) && forall i | 0 <= i < |frames| :: 0 <= frames[i] < |bits| && !bits[frames[i]]
    decreases |frames|
  {
    if frames != [] {
      var n := |frames| - 1;
      var before :|
        && Granted(bits, before, frames[..n])
        && 0 <= frames[n] < |before| && !before[frames[n]] && bits' == before[frames[n] := true];
      GrantedWereFree(bits, before, frames[..n]);
      GrantedBits(bits, before, frames[..n], frames[n]);
      assert forall i | 0 <= i < n :: frames[..n][i] == frames[i];
    }
  }

  lemma GrantOne(bits: seq<bool>, bits': seq<bool>, frames: seq<int>, free: int)
    requires Granted(bits, bits', frames) && 0 <= free < |bits'| && !bits'[free]
    ensures Granted(bits, bits'[free := true], frames + [free])
  {
    assert (frames + [free])[..|frames|] == frames;
  }

  // The frames were marked, and now they are free.
  ghost predicate Returned(bits: seq<bool>, bits': seq<bool>, frames: seq<int>) {
    && |bits| == |bits'|
    && forall f | 0 <= f < |bits| :: bits'[f] <==> bits[f] && f !in frames
  }

  ghost predicate InUse(bits: seq<bool>, frames: seq<int>) {
    forall i | 0 <= i < |frames| :: 0 <= frames[i] < |bits| && bits[frames[i]]
  }

  class AddrSpace {
    var pageTable: array<TranslationEntry>
    var numPages: nat

    constructor ()
    {
      numPages := 0;
      pageTable := new TranslationEntry[0];
    }

    function Frames(): seq<int>
      reads this, pageTable
    {
      seq(pageTable.Length, i requires 0 <= i < pageTable.Length reads this, pageTable => pageTable[i].physicalPage)
    }

    // The frames for a program of the given number of pages. Once enough pages are available, no
    // AllocPage fails, so that the manager's lock is free again.
    method Initialize(memManager: MemoryManager, pagesNeeded: nat) returns (ok: bool)
      requires memManager.Valid() && !memManager.lockHeld && memManager.pages.numBits == NUM_PHYS_PAGES
      requires pagesNeeded <= NUM_PHYS_PAGES
      modifies this, memManager, memManager.pages.storage
      ensures memManager.Valid() && !memManager.lockHeld && memManager.Counted() == old(memManager.Counted())
      ensures ok <==> pagesNeeded <= CountClear(old(memManager.pages.Bits()))
      ensures !ok ==> memManager.pages.Bits() == old(memManager.pages.Bits()) && pageTable == old(pageTable)
      ensures ok ==> fresh(pageTable) && numPages == pageTable.Length == pagesNeeded
      ensures ok ==> Granted(old(memManager.pages.Bits()), memManager.pages.Bits(), Frames())
      ensures ok ==> forall i | 0 <= i < numPages :: NewEntry(pageTable[i], i)
    {
      numPages := pagesNeeded;
      var available := memManager.GetAvailable();
      if numPages > available {
        return false;
      }
      pageTable := new TranslationEntry[numPages];
      assert Frames()[..0] == [];
      FillTable(memManager);
      assert Frames()[..numPages] == Frames();
      return true;
    }

    // The first i entries are set up, with frames that have been granted since the map was as given.
    ghost predicate Filled(memManager: MemoryManager, bits: seq<bool>, i: nat)
      reads this, pageTable, memManager, memManager.pages, memManager.pages.storage
    {
      && memManager.Valid() && !memManager.lockHeld && memManager.pages.numBits == NUM_PHYS_PAGES
      && numPages == pageTable.Length <= NUM_PHYS_PAGES && i <= numPages
      && Granted(bits, memManager.pages.Bits(), Frames()[..i])
      && CountClear(memManager.pages.Bits()) + i == CountClear(bits)
      && forall j | 0 <= j < i :: NewEntry(pageTable[j], j)
    }

    // The loop of Initialize
    method FillTable(memManager: MemoryManager)
      requires memManager.Valid() && Filled(memManager, memManager.pages.Bits(), 0)
      requires numPages <= CountClear(memManager.pages.Bits())
      modifies pageTable, memManager, memManager.pages.storage
      ensures memManager.Valid() && memManager.Counted() == old(memManager.Counted())
      ensures Filled(memManager, old(memManager.pages.Bits()), numPages)
    {
      ghost var bits := memManager.pages.Bits();
      for i := 0 to numPages
        invariant memManager.Valid() && Filled(memManager, bits, i)
        invariant memManager.Counted() == old(memManager.Counted())
      {
        FillEntry(memManager, i, bits);
      }
    }

    method FillEntry(memManager: MemoryManager, i: nat, ghost bits: seq<bool>)
      requires Filled(memManager, bits, i) && i < numPages && numPages <= CountClear(bits)
      modifies pageTable, memManager, memManager.pages.storage
      ensures Filled(memManager, bits, i + 1) && memManager.Counted() == old(memManager.Counted())
    {
      ghost var frames, now := Frames()[..i], memManager.pages.Bits();
      var page := memManager.AllocPage();
      GrantOne(bits, now, frames, page);
      pageTable[i] := TranslationEntry(i, page, true, false, false, false);
      assert Frames()[..i + 1] == frames + [page];
    }

    // The destructor. The count stays right if the frames were in use, each once.
    method Destroy(memManager: MemoryManager)
      requires memManager.Valid() && !memManager.lockHeld && numPages == pageTable.Length
      requires forall i | 0 <= i < numPages :: 0 <= Frames()[i] < memManager.pages.numBits
      modifies memManager, memManager.pages.storage
      ensures memManager.Valid() && !memManager.lockHeld
      ensures Returned(old(memManager.pages.Bits()), memManager.pages.Bits(), Frames())
      ensures old(memManager.Counted()) && NoneTwice(Frames()) && InUse(old(memManager.pages.Bits()), Frames()) ==>
                memManager.Counted()
    {
      ghost var bits, frames := memManager.pages.Bits(), Frames();
      for i := 0 to numPages
        invariant memManager.Valid() && !memManager.lockHeld && Frames() == frames
        invariant Returned(bits, memManager.pages.Bits(), frames[..i])
        invariant old(memManager.Counted()) && NoneTwice(frames) && InUse(bits, frames) ==> memManager.Counted()
      {
        assert Frames()[i] == pageTable[i].physicalPage;
        assert NoneTwice(frames) ==> frames[i] !in frames[..i];
        memManager.FreePage(pageTable[i].physicalPage);
        assert frames[..i + 1] == frames[..i] + [frames[i]];
      }
      assert frames[..numPages] == frames;
    }
  }
}
