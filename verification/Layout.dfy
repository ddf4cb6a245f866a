// Who owns which sector: the layout of a disk, and how creating and removing a file change it.
module Layout {
  import opened Bytes
  import opened SynchDisk
  import opened BitMap
  import opened FileHeader
  import opened Directory

  const NUM_DIR_ENTRIES := 10
  const NUM_FILES := 12

  function NoFile(): Inode {
    Inode(0, 0, seq(NUM_DIRECT, _ => 0))
  }

  // File 0 is the free map, file 1 the directory, and file i + 2 the one in directory entry i.
  datatype Layout = Layout(bits: seq<bool>, table: seq<DirectoryEntry>, inodes: seq<Inode>) {
    ghost predicate Shaped() {
      |bits| == NUM_SECTORS && |table| == NUM_DIR_ENTRIES && |inodes| == NUM_FILES
    }

    ghost predicate Live(id: int)
      requires Shaped()
    {
      0 <= id < NUM_FILES && (id < 2 || table[id - 2].inUse)
    }

    // The sector of a file's header.
    ghost function Header(id: int): int
      requires Shaped() && 0 <= id < NUM_FILES
    {
      if id < 2 then id else table[id - 2].sector
    }

    ghost predicate Owns(id: int, s: int)
      requires Shaped()
    {
      Live(id) && (s == Header(id) || s in inodes[id].Data())
    }

    ghost predicate Placed(id: int)
      requires Shaped() && 0 <= id < NUM_FILES
    {
      0 <= Header(id) < NUM_SECTORS && inodes[id].Sound() && Header(id) !in inodes[id].Data()
    }

    // No sector belongs to two files, and the free map marks exactly the sectors that belong to one.
    ghost predicate Owned() {
      && Shaped()
      && (forall id | Live(id) :: Placed(id))
      && (forall s, id, id' | Owns(id, s) && Owns(id', s) :: id == id')
      && (forall s | 0 <= s < NUM_SECTORS :: bits[s] <==> exists id :: Owns(id, s))
    }

    ghost function KeyOf(i: nat): seq<byte>
      requires i < |table|
    {
      Key(table[i].name, FILE_NAME_MAX_LEN)
    }

    ghost predicate NamesDiffer()
      requires Shaped()
    {
      forall i, j | 0 <= i < j < NUM_DIR_ENTRIES && table[i].inUse && table[j].inUse :: KeyOf(i) != KeyOf(j)
    }
  }

  // The new file gets the first free sector for its header, the next free ones for its data, and
  // the first free directory entry.
  ghost predicate Created(a: Layout, b: Layout, key: seq<byte>, h: nat, inode: Inode)
    requires a.Shaped()
  {
    && b.Shaped()
    && FreeIndex(a.table) != -1 && IndexOf(a.table, key) == -1
    && FirstClear(a.bits, h) && inode.Sound() && FirstFit(a.bits[h := true], inode.Data())
    && b.bits == Taken(a.bits[h := true], inode.Data())
    && EntryAdded(a.table, b.table, FreeIndex(a.table), key, h)
    && b.inodes == a.inodes[FreeIndex(a.table) + 2 := inode]
  }

  ghost predicate EntryAdded(a: seq<DirectoryEntry>, b: seq<DirectoryEntry>, i: nat, key: seq<byte>, h: nat)
    requires i < |a| == |b|
  {
    h < NUM_SECTORS && b[i].Named(key) && b == a[i := DirectoryEntry(true, h, b[i].name)]
  }

  // A removed file gives back what it owned and leaves its directory entry free.
  ghost predicate Removed(a: Layout, b: Layout, key: seq<byte>)
    requires a.Shaped()
  {
    && b.Shaped()
    && IndexOf(a.table, key) != -1
    && GivenBack(a, b.bits, IndexOf(a.table, key) + 2)
    && b.table == a.table[IndexOf(a.table, key) := Unused(a.table[IndexOf(a.table, key)])]
    && b.inodes == a.inodes[IndexOf(a.table, key) + 2 := NoFile()]
  }

  ghost predicate GivenBack(a: Layout, bits: seq<bool>, id: int)
    requires a.Shaped() && |bits| == NUM_SECTORS
  {
    forall s | 0 <= s < NUM_SECTORS :: bits[s] == (a.bits[s] && !a.Owns(id, s))
  }

  lemma CreatedOwns(a: Layout, b: Layout, key: seq<byte>, h: nat, inode: Inode, id: int, s: int)
    requires a.Owned() && Created(a, b, key, h, inode)
    ensures b.Owns(id, s) <==> if id == FreeIndex(a.table) + 2 then s == h || s in inode.Data() else a.Owns(id, s)
  {
  }

  // What a new file takes was free.
  lemma CreatedTakesFree(a: Layout, b: Layout, key: seq<byte>, h: nat, inode: Inode)
    requires a.Owned() && Created(a, b, key, h, inode)
    ensures h !in inode.Data()
    ensures forall s | s == h || s in inode.Data() :: !a.bits[s]
    ensures forall s, id | s == h || s in inode.Data() :: !a.Owns(id, s)
  {
    FirstFitFresh(a.bits[h := true], inode.Data());
    assert a.bits[h := true][h];
    forall s | s == h || s in inode.Data()
      ensures !a.bits[s]
    {
      if s != h {
        assert !a.bits[h := true][s];
      }
    }
  }

  lemma CreatedOwned(a: Layout, b: Layout, key: seq<byte>, h: nat, inode: Inode)
    requires a.Owned() && Created(a, b, key, h, inode)
    ensures b.Owned()
  {
    var n := FreeIndex(a.table) + 2;
    CreatedTakesFree(a, b, key, h, inode);
    forall id, s {
      CreatedOwns(a, b, key, h, inode, id, s);
    }
    forall id | b.Live(id)
      ensures b.Placed(id)
    {
      if id != n {
        assert a.Live(id);
      }
    }
    forall s | 0 <= s < NUM_SECTORS
      ensures b.bits[s] <==> exists id :: b.Owns(id, s)
    {
      TakenBits(a.bits[h := true], inode.Data(), s);
      if a.bits[s] {
        var id :| a.Owns(id, s);
        assert b.Owns(id, s);
      } else if b.bits[s] {
        assert b.Owns(n, s);
      }
    }
  }

  lemma RemovedOwns(a: Layout, b: Layout, key: seq<byte>, id: int, s: int)
    requires a.Owned() && Removed(a, b, key)
    ensures b.Owns(id, s) <==> id != IndexOf(a.table, key) + 2 && a.Owns(id, s)
  {
  }

  lemma RemovedOwned(a: Layout, b: Layout, key: seq<byte>)
    requires a.Owned() && Removed(a, b, key)
    ensures b.Owned()
  {
    forall id, s {
      RemovedOwns(a, b, key, id, s);
    }
    forall id | b.Live(id)
      ensures b.Placed(id)
    {
      assert a.Live(id);
    }
    forall s | 0 <= s < NUM_SECTORS
      ensures b.bits[s] <==> exists id :: b.Owns(id, s)
    {
      if b.bits[s] {
        var id :| a.Owns(id, s);
        assert b.Owns(id, s);
      }
    }
  }

  // The sectors that Remove frees are all marked, as the ASSERT in Deallocate demands.
  lemma OwnedIsMarked(a: Layout, id: int)
    requires a.Owned() && a.Live(id)
    ensures a.Placed(id)
    ensures forall s | s == a.Header(id) || s in a.inodes[id].Data() :: 0 <= s < NUM_SECTORS && a.bits[s]
  {
    assert a.Placed(id);
    forall s | s == a.Header(id) || s in a.inodes[id].Data()
      ensures 0 <= s < NUM_SECTORS && a.bits[s]
    {
      assert a.Owns(id, s);
    }
  }

  // Creating a file and removing it again restores the free map and the directory's files.
  lemma CreateThenRemove(a: Layout, b: Layout, c: Layout, key: seq<byte>, h: nat, inode: Inode)
    requires a.Owned() && Created(a, b, key, h, inode) && b.Owned() && Removed(b, c, key)
    ensures c.bits == a.bits
    ensures forall i | 0 <= i < NUM_DIR_ENTRIES :: c.table[i].inUse == a.table[i].inUse
    ensures forall i | 0 <= i < NUM_DIR_ENTRIES && a.table[i].inUse :: c.table[i] == a.table[i]
  {
    var i := FreeIndex(a.table);
    assert IndexOf(b.table, key) == i by {
      IndexMeans(a.table, NUM_DIR_ENTRIES, key);
      IndexMeans(b.table, NUM_DIR_ENTRIES, key);
      assert b.table[i].Named(key);
      assert forall j | 0 <= j < NUM_DIR_ENTRIES && j != i :: b.table[j] == a.table[j];
    }
    CreatedTakesFree(a, b, key, h, inode);
    forall s | 0 <= s < NUM_SECTORS
      ensures c.bits[s] == a.bits[s]
    {
      TakenBits(a.bits[h := true], inode.Data(), s);
      CreatedOwns(a, b, key, h, inode, i + 2, s);
    }
  }

  // Which entry each name finds after an entry has been added or freed.
  lemma IndexAfterAdd(a: seq<DirectoryEntry>, b: seq<DirectoryEntry>, i: nat, key: seq<byte>, h: nat, k: seq<byte>)
    requires i < |a| == |b| && EntryAdded(a, b, i, key, h)
    requires !a[i].inUse && IndexOf(a, key) == -1
    ensures IndexOf(b, k) == if k == key then i else IndexOf(a, k)
  {
    IndexMeans(a, |a|, k);
    IndexMeans(b, |b|, k);
    IndexMeans(a, |a|, key);
    assert forall j | 0 <= j < |a| && j != i :: b[j] == a[j];
  }

  lemma IndexAfterRemove(v: Layout, b: seq<DirectoryEntry>, key: seq<byte>, k: seq<byte>)
    requires v.Shaped() && v.NamesDiffer() && IndexOf(v.table, key) != -1
    requires b == v.table[IndexOf(v.table, key) := Unused(v.table[IndexOf(v.table, key)])]
    ensures IndexOf(b, k) == if k == key then -1 else IndexOf(v.table, k)
  {
    var i := IndexOf(v.table, key);
    IndexMeans(v.table, |b|, k);
    IndexMeans(b, |b|, k);
    IndexMeans(v.table, |b|, key);
    assert forall j | 0 <= j < |b| && j != i :: b[j] == v.table[j];
  }
}
