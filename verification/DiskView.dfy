// What the bytes of a disk say about the files on it, and how creating, removing and writing files
// change that. The free map and the directory are themselves files on the disk they describe.
module DiskView {
  import opened Bytes
  import opened SynchDisk
  import opened BitMap
  import opened FileHeader
  import opened Directory
  import opened Layout

  const FREE_MAP_FILE_SIZE := 128
  const DIRECTORY_FILE_SIZE := 200

  // The disk holds the headers of a free map and a directory of the right sizes.
  ghost predicate Formatted(disk: Image) {
    && Decode(disk[0]).Sound() && Decode(disk[0]).numBytes == FREE_MAP_FILE_SIZE
    && Decode(disk[1]).Sound() && Decode(disk[1]).numBytes == DIRECTORY_FILE_SIZE
  }

  ghost function FreeMap(disk: Image): (bits: seq<bool>)
    requires Formatted(disk)
    ensures |bits| == NUM_SECTORS
  {
    BitsOf(BytesWords(Content(disk, Decode(disk[0])), 32), NUM_SECTORS)
  }

  ghost function Entries(disk: Image): (table: seq<DirectoryEntry>)
    requires Formatted(disk)
    ensures |table| == NUM_DIR_ENTRIES
  {
    BytesTable(Content(disk, Decode(disk[1])), NUM_DIR_ENTRIES)
  }

  ghost function InodeAt(disk: Image, table: seq<DirectoryEntry>, id: nat): Inode
    requires |table| == NUM_DIR_ENTRIES && id < NUM_FILES
  {
    if id < 2 then Decode(disk[id])
    else if table[id - 2].inUse && 0 <= table[id - 2].sector < NUM_SECTORS then Decode(disk[table[id - 2].sector])
    else NoFile()
  }

  // What the bytes of the disk say about itself.
  ghost function View(disk: Image): (v: Layout)
    requires Formatted(disk)
    ensures v.Shaped()
  {
    Layout(FreeMap(disk), Entries(disk), seq(NUM_FILES, id requires 0 <= id < NUM_FILES => InodeAt(disk,
      Entries(disk), id)))
  }

  ghost predicate Consistent(disk: Image) {
    Formatted(disk) && View(disk).Owned() && View(disk).NamesDiffer()
  }

  ghost function ContentOf(disk: Image, v: Layout, id: int): seq<byte>
    requires v.Shaped()
  {
    if 0 <= id < NUM_FILES && v.inodes[id].Sound() then Content(disk, v.inodes[id]) else []
  }

  // The file system as its users see it: a map from names to what the files hold, here of the
  // files in the first n directory entries.
  ghost function FilesBelow(disk: Image, v: Layout, n: nat): map<seq<byte>, seq<byte>>
    requires v.Shaped() && n <= NUM_DIR_ENTRIES
  {
    if n == 0 then map[]
    else if !v.table[n - 1].inUse || v.KeyOf(n - 1) in FilesBelow(disk, v, n - 1) then FilesBelow(disk, v, n - 1)
    else FilesBelow(disk, v, n - 1)[v.KeyOf(n - 1) := ContentOf(disk, v, n + 1)]
  }

  ghost function FilesIn(disk: Image, v: Layout): map<seq<byte>, seq<byte>>
    requires v.Shaped()
  {
    FilesBelow(disk, v, NUM_DIR_ENTRIES)
  }

  lemma {:induction false} FileBelow(disk: Image, v: Layout, n: nat, key: seq<byte>)
    requires v.Shaped() && n <= NUM_DIR_ENTRIES
    ensures key in FilesBelow(disk, v, n) <==> IndexBelow(v.table, n, key) != -1
    ensures key in FilesBelow(disk, v, n) ==>
              FilesBelow(disk, v, n)[key] == ContentOf(disk, v, IndexBelow(v.table, n, key) + 2)
  {
    if n > 0 {
      FileBelow(disk, v, n - 1, key);
      FileBelow(disk, v, n - 1, v.KeyOf(n - 1));
    }
  }

  lemma FileAt(disk: Image, v: Layout, key: seq<byte>)
    requires v.Shaped()
    ensures key in FilesIn(disk, v) <==> IndexOf(v.table, key) != -1
    ensures key in FilesIn(disk, v) ==> FilesIn(disk, v)[key] == ContentOf(disk, v, IndexOf(v.table, key) + 2)
  {
    FileBelow(disk, v, NUM_DIR_ENTRIES, key);
  }

  ghost function Files(disk: Image): map<seq<byte>, seq<byte>>
    requires Formatted(disk)
  {
    FilesIn(disk, View(disk))
  }

  // Creating, removing and writing change only some sectors.
  ghost predicate Untouched(disk: Image, disk': Image, v: Layout, h: int)
    requires v.Shaped()
  {
    forall s | 0 <= s < NUM_SECTORS && s != h && s !in v.inodes[0].Data() && s !in v.inodes[1].Data() ::
      disk'[s] == disk[s]
  }

  // Sectors owned by a file other than the free map and the directory keep their content.
  lemma OtherFileKept(disk: Image, disk': Image, v: Layout, h: int, id: int)
    requires v.Owned() && Untouched(disk, disk', v, h)
    requires v.Live(id) && id >= 2 && !v.Owns(id, h)
    ensures disk'[v.Header(id)] == disk[v.Header(id)]
    ensures Content(disk', v.inodes[id]) == Content(disk, v.inodes[id])
  {
    assert v.Placed(id) && v.Live(0) && v.Live(1);
    assert v.Owns(id, v.Header(id)) && !v.Owns(0, v.Header(id)) && !v.Owns(1, v.Header(id));
    forall s | s in v.inodes[id].Data()
      ensures disk'[s] == disk[s]
    {
      assert v.Owns(id, s) && !v.Owns(0, s) && !v.Owns(1, s);
    }
    ContentFrame(disk', disk, v.inodes[id]);
  }

  // The steps of a run: what Create, Remove and writes through open files do to the disk.
  ghost predicate CreateStep(disk: Image, disk': Image, key: seq<byte>, size: nat, h: nat, inode: Inode)
    requires Formatted(disk)
  {
    && Formatted(disk') && inode.numBytes == size
    && Created(View(disk), View(disk'), key, h, inode)
    && Untouched(disk, disk', View(disk), h)
  }

  ghost predicate RemoveStep(disk: Image, disk': Image, key: seq<byte>)
    requires Formatted(disk)
  {
    Formatted(disk') && Removed(View(disk), View(disk'), key) && Untouched(disk, disk', View(disk), -1)
  }

  ghost predicate WriteStep(disk: Image, disk': Image, inode: Inode, position: nat, bytes: seq<byte>)
    requires inode.Sound() && position + |bytes| <= inode.numBytes
  {
    && (forall s | 0 <= s < NUM_SECTORS && s !in inode.Data() :: disk'[s] == disk[s])
    && Content(disk', inode) == Splice(Content(disk, inode), position, bytes)
  }

  lemma EntryAfterCreate(disk: Image, disk': Image, v: Layout, v': Layout, key: seq<byte>, h: nat, inode: Inode,
                         k: seq<byte>)
    requires v.Owned() && Created(v, v', key, h, inode) && Untouched(disk, disk', v, h)
    ensures IndexOf(v'.table, k) == if k == key then FreeIndex(v.table) else IndexOf(v.table, k)
    ensures k == key ==> ContentOf(disk', v', IndexOf(v'.table, k) + 2) == Content(disk, inode)
    ensures k != key && IndexOf(v.table, k) != -1 ==>
              ContentOf(disk', v', IndexOf(v'.table, k) + 2) == ContentOf(disk, v, IndexOf(v.table, k) + 2)
  {
    CreatedTakesFree(v, v', key, h, inode);
    IndexAfterAdd(v.table, v'.table, FreeIndex(v.table), key, h, k);
    if k == key {
      NewFileKept(disk, disk', v, h, inode);
    } else if IndexOf(v.table, k) != -1 {
      IndexMeans(v.table, NUM_DIR_ENTRIES, k);
      OtherFileKept(disk, disk', v, h, IndexOf(v.table, k) + 2);
    }
  }

  lemma FileCreated(disk: Image, disk': Image, v: Layout, v': Layout, key: seq<byte>, h: nat, inode: Inode)
    requires v.Owned() && Created(v, v', key, h, inode) && Untouched(disk, disk', v, h)
    ensures FilesIn(disk', v') == FilesIn(disk, v)[key := Content(disk, inode)]
  {
    IndexMeans(v.table, NUM_DIR_ENTRIES, key);
    forall k
      ensures k in FilesIn(disk', v') <==> k == key || k in FilesIn(disk, v)
      ensures k in FilesIn(disk', v') ==>
                FilesIn(disk', v')[k] == if k == key then Content(disk, inode) else FilesIn(disk, v)[k]
    {
      FileAt(disk, v, k);
      FileAt(disk', v', k);
      EntryAfterCreate(disk, disk', v, v', key, h, inode, k);
    }
  }

  lemma NamesAfterCreate(v: Layout, v': Layout, key: seq<byte>, h: nat, inode: Inode)
    requires v.Shaped() && Created(v, v', key, h, inode) && v.NamesDiffer()
    ensures v'.NamesDiffer()
  {
    IndexMeans(v.table, NUM_DIR_ENTRIES, key);
  }

  lemma CreateKeeps(disk: Image, disk': Image, key: seq<byte>, size: nat, h: nat, inode: Inode)
    requires Consistent(disk) && CreateStep(disk, disk', key, size, h, inode)
    ensures Consistent(disk')
    ensures key !in Files(disk) && Files(disk') == Files(disk)[key := Content(disk, inode)]
  {
    CreatedOwned(View(disk), View(disk'), key, h, inode);
    NamesAfterCreate(View(disk), View(disk'), key, h, inode);
    FileCreated(disk, disk', View(disk), View(disk'), key, h, inode);
    FileAt(disk, View(disk), key);
  }

  lemma NewFileKept(disk: Image, disk': Image, v: Layout, h: nat, inode: Inode)
    requires v.Owned() && Untouched(disk, disk', v, h) && inode.Sound() && h !in inode.Data()
    requires forall s, id | s in inode.Data() :: !v.Owns(id, s)
    ensures Content(disk', inode) == Content(disk, inode)
  {
    forall s | s in inode.Data()
      ensures disk'[s] == disk[s]
    {
      assert !v.Owns(0, s) && !v.Owns(1, s);
    }
    ContentFrame(disk', disk, inode);
  }

  lemma EntryAfterRemove(disk: Image, disk': Image, v: Layout, v': Layout, key: seq<byte>, k: seq<byte>)
    requires v.Owned() && v.NamesDiffer() && Removed(v, v', key) && Untouched(disk, disk', v, -1)
    ensures IndexOf(v'.table, k) == if k == key then -1 else IndexOf(v.table, k)
    ensures k != key && IndexOf(v.table, k) != -1 ==>
              ContentOf(disk', v', IndexOf(v'.table, k) + 2) == ContentOf(disk, v, IndexOf(v.table, k) + 2)
  {
    IndexAfterRemove(v, v'.table, key, k);
    IndexMeans(v.table, NUM_DIR_ENTRIES, key);
    if k != key && IndexOf(v.table, k) != -1 {
      IndexMeans(v.table, NUM_DIR_ENTRIES, k);
      OtherFileKept(disk, disk', v, -1, IndexOf(v.table, k) + 2);
    }
  }

  lemma FileRemoved(disk: Image, disk': Image, v: Layout, v': Layout, key: seq<byte>)
    requires v.Owned() && v.NamesDiffer() && Removed(v, v', key) && Untouched(disk, disk', v, -1)
    ensures FilesIn(disk', v') == FilesIn(disk, v) - {key}
  {
    forall k
      ensures k in FilesIn(disk', v') <==> k != key && k in FilesIn(disk, v)
      ensures k in FilesIn(disk', v') ==> FilesIn(disk', v')[k] == FilesIn(disk, v)[k]
    {
      FileAt(disk, v, k);
      FileAt(disk', v', k);
      EntryAfterRemove(disk, disk', v, v', key, k);
    }
    WithoutKey(FilesIn(disk, v), FilesIn(disk', v'), key);
  }

  lemma WithoutKey(files: map<seq<byte>, seq<byte>>, files': map<seq<byte>, seq<byte>>, key: seq<byte>)
    requires forall k :: k in files' <==> k != key && k in files
    requires forall k | k in files' :: files'[k] == files[k]
    ensures files' == files - {key}
  {
  }

  lemma NamesAfterRemove(v: Layout, v': Layout, key: seq<byte>)
    requires v.Shaped() && Removed(v, v', key) && v.NamesDiffer()
    ensures v'.NamesDiffer()
  {
  }

  lemma RemoveKeeps(disk: Image, disk': Image, key: seq<byte>)
    requires Consistent(disk) && RemoveStep(disk, disk', key)
    ensures Consistent(disk')
    ensures key in Files(disk) && Files(disk') == Files(disk) - {key}
  {
    RemovedOwned(View(disk), View(disk'), key);
    NamesAfterRemove(View(disk), View(disk'), key);
    FileRemoved(disk, disk', View(disk), View(disk'), key);
    FileAt(disk, View(disk), key);
  }

  // A write to one file leaves every other file, all headers, the free map and the directory alone.
  ghost predicate Isolated(disk: Image, disk': Image, v: Layout, id: int)
    requires v.Shaped() && v.Live(id)
  {
    forall other | v.Live(other) && other != id && v.Placed(other) ::
      disk'[v.Header(other)] == disk[v.Header(other)] && ContentOf(disk', v, other) == ContentOf(disk, v, other)
  }

  lemma WriteIsolated(disk: Image, disk': Image, v: Layout, id: int, position: nat, bytes: seq<byte>)
    requires v.Owned() && v.Live(id)
    requires v.inodes[id].Sound() && position + |bytes| <= v.inodes[id].numBytes
    requires WriteStep(disk, disk', v.inodes[id], position, bytes)
    ensures Isolated(disk, disk', v, id) && disk'[v.Header(id)] == disk[v.Header(id)]
  {
    assert v.Placed(id);
    forall other | v.Live(other) && other != id && v.Placed(other)
      ensures disk'[v.Header(other)] == disk[v.Header(other)]
      ensures ContentOf(disk', v, other) == ContentOf(disk, v, other)
    {
      assert v.Owns(other, v.Header(other)) && !v.Owns(id, v.Header(other));
      forall s | s in v.inodes[other].Data()
        ensures disk'[s] == disk[s]
      {
        assert v.Owns(other, s) && !v.Owns(id, s);
      }
      ContentFrame(disk', disk, v.inodes[other]);
    }
  }

  lemma WriteKeeps(disk: Image, disk': Image, id: int, position: nat, bytes: seq<byte>)
    requires Consistent(disk) && View(disk).Live(id) && id >= 2 && View(disk).inodes[id].Sound()
    requires position + |bytes| <= View(disk).inodes[id].numBytes
    requires WriteStep(disk, disk', View(disk).inodes[id], position, bytes)
    ensures Formatted(disk') && View(disk') == View(disk) && Consistent(disk')
    ensures var key, content := View(disk).KeyOf(id - 2), Content(disk, View(disk).inodes[id]);
            && key in Files(disk) && Files(disk)[key] == content
            && Files(disk') == Files(disk)[key := Splice(content, position, bytes)]
  {
    var v := View(disk);
    WriteIsolated(disk, disk', v, id, position, bytes);
    ViewKept(disk, disk', v, id);
    FoundByName(v, id);
    FileWritten(disk, disk', v, v.KeyOf(id - 2), id, position, bytes);
  }

  // The header of a file whose entry and header sector are as before
  lemma SameInode(disk: Image, disk': Image, table: seq<DirectoryEntry>, table': seq<DirectoryEntry>, id: nat)
    requires |table| == |table'| == NUM_DIR_ENTRIES && 2 <= id < NUM_FILES && table'[id - 2] == table[id - 2]
    requires table[id - 2].inUse && 0 <= table[id - 2].sector < NUM_SECTORS ==>
               disk'[table[id - 2].sector] == disk[table[id - 2].sector]
    ensures InodeAt(disk', table', id) == InodeAt(disk, table, id)
  {
  }

  lemma ViewKept(disk: Image, disk': Image, v: Layout, id: int)
    requires Formatted(disk) && v == View(disk) && v.Owned() && v.Live(id) && id >= 2
    requires Isolated(disk, disk', v, id) && disk'[v.Header(id)] == disk[v.Header(id)]
    ensures Formatted(disk') && View(disk') == v
  {
    assert v.Live(0) && v.Live(1);
    assert FreeMap(disk') == v.bits && Entries(disk') == v.table;
    forall other | 0 <= other < NUM_FILES
      ensures InodeAt(disk', v.table, other) == v.inodes[other]
    {
      if v.Live(other) {
        assert v.Placed(other);
      }
      if other >= 2 {
        SameInode(disk, disk', v.table, v.table, other);
      }
    }
  }

  // The entry of a live file is the one its name finds.
  lemma FoundByName(v: Layout, id: int)
    requires v.Shaped() && v.NamesDiffer() && v.Live(id) && id >= 2
    ensures IndexOf(v.table, v.KeyOf(id - 2)) == id - 2
  {
    IndexMeans(v.table, NUM_DIR_ENTRIES, v.KeyOf(id - 2));
    assert v.table[id - 2].Named(v.KeyOf(id - 2));
  }

  lemma OtherEntryKept(disk: Image, disk': Image, v: Layout, id: int, k: seq<byte>)
    requires v.Owned() && v.Live(id) && id >= 2 && Isolated(disk, disk', v, id)
    requires k != v.KeyOf(id - 2) && IndexOf(v.table, k) != -1
    ensures ContentOf(disk', v, IndexOf(v.table, k) + 2) == ContentOf(disk, v, IndexOf(v.table, k) + 2)
  {
    IndexMeans(v.table, NUM_DIR_ENTRIES, k);
    assert v.Live(IndexOf(v.table, k) + 2);
  }

  lemma FileWritten(disk: Image, disk': Image, v: Layout, key: seq<byte>, id: int, position: nat, bytes: seq<byte>)
    requires v.Owned() && v.Live(id) && id >= 2
    requires key == v.KeyOf(id - 2) && IndexOf(v.table, key) == id - 2
    requires v.inodes[id].Sound() && position + |bytes| <= v.inodes[id].numBytes
    requires WriteStep(disk, disk', v.inodes[id], position, bytes) && Isolated(disk, disk', v, id)
    ensures key in FilesIn(disk, v) && FilesIn(disk, v)[key] == Content(disk, v.inodes[id])
    ensures FilesIn(disk', v) == FilesIn(disk, v)[key := Splice(Content(disk, v.inodes[id]), position, bytes)]
  {
    FileAt(disk, v, key);
    FileAt(disk', v, key);
    forall k
      ensures k in FilesIn(disk', v) <==> k in FilesIn(disk, v)
      ensures k != key && k in FilesIn(disk, v) ==> FilesIn(disk', v)[k] == FilesIn(disk, v)[k]
    {
      FileAt(disk, v, k);
      FileAt(disk', v, k);
      if k != key && k in FilesIn(disk, v) {
        OtherEntryKept(disk, disk', v, id, k);
      }
    }
    WithValue(FilesIn(disk, v), FilesIn(disk', v), key, Splice(Content(disk, v.inodes[id]), position, bytes));
  }

  lemma WithValue(files: map<seq<byte>, seq<byte>>, files': map<seq<byte>, seq<byte>>, key: seq<byte>, value: seq<byte>)
    requires key in files && (forall k :: k in files' <==> k in files)
    requires files'[key] == value
    requires forall k | k in files && k != key :: files'[k] == files[k]
    ensures files' == files[key := value]
  {
  }
}
