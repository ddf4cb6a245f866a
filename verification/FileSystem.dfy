// filesys/filesys.cc: formatting a disk, and creating, opening and removing files on it.
module FileSystem {
  import opened Bytes
  import opened SynchDisk
  import opened BitMap
  import opened FileHeader
  import opened OpenFile
  import opened Directory
  import opened Layout
  import opened DiskView
  import opened Accounting
  import BitMapFile

  const FREE_MAP_SECTOR := 0
  const DIRECTORY_SECTOR := 1

  // Writing a file changes its data sectors only.
  ghost predicate OnlyIn(disk: Image, disk': Image, inode: Inode) {
    forall s | 0 <= s < NUM_SECTORS && s !in inode.Data() :: disk'[s] == disk[s]
  }

  ghost predicate HoldsMap(disk: Image, inode: Inode, bits: seq<bool>) {
    && inode.Sound() && inode.numBytes == FREE_MAP_FILE_SIZE
    && bits == BitsOf(BytesWords(Content(disk, inode), 32), NUM_SECTORS)
  }

  ghost predicate HoldsTable(disk: Image, inode: Inode, table: seq<DirectoryEntry>) {
    && inode.Sound() && inode.numBytes == DIRECTORY_FILE_SIZE
    && |table| == NUM_DIR_ENTRIES && Content(disk, inode) == TableBytes(table)
  }

  // The sectors of the free map, those of the directory and the two headers are all different.
  lemma SystemFilesApart(v: Layout, s: int)
    requires v.Owned()
    ensures s in v.inodes[0].Data() ==> s != v.Header(0) && s != v.Header(1) && s !in v.inodes[1].Data()
    ensures s in v.inodes[1].Data() ==> s != v.Header(0) && s != v.Header(1)
  {
    assert v.Placed(0) && v.Placed(1);
    assert v.Owns(0, v.Header(0)) && v.Owns(1, v.Header(1));
    assert s in v.inodes[0].Data() ==> v.Owns(0, s);
    assert s in v.inodes[1].Data() ==> v.Owns(1, s);
  }

  lemma Flushed(disk: Image, disk': Image, v: Layout, h: int, bits: seq<bool>, table: seq<DirectoryEntry>)
    requires Consistent(disk) && v == View(disk) && Untouched(disk, disk', v, h) && h != 0 && h != 1
    requires HoldsMap(disk', v.inodes[0], bits) && HoldsTable(disk', v.inodes[1], table)
    ensures Formatted(disk') && disk'[0] == disk[0] && disk'[1] == disk[1]
    ensures FreeMap(disk') == bits && Entries(disk') == table
  {
    SystemFilesApart(v, 0);
    SystemFilesApart(v, 1);
    assert v.inodes[0] == Decode(disk[0]) && v.inodes[1] == Decode(disk[1]);
    TableRoundTrip(table);
  }

  // Writing the free map leaves the directory.
  lemma DirectoryKept(disk: Image, disk': Image, v: Layout)
    requires v.Owned() && v.inodes[1].Sound() && OnlyIn(disk, disk', v.inodes[0])
    ensures Content(disk', v.inodes[1]) == Content(disk, v.inodes[1])
  {
    forall s | s in v.inodes[1].Data()
      ensures disk[s] == disk'[s]
    {
      SystemFilesApart(v, s);
    }
    ContentFrame(disk, disk', v.inodes[1]);
  }

  lemma CreateFlushed(d0: Image, d1: Image, d2: Image, d3: Image, v: Layout, v': Layout, key: seq<byte>, h: nat,
                      inode: Inode)
    requires Consistent(d0) && v == View(d0) && Created(v, v', key, h, inode)
    requires d1 == d0[h := Encode(inode)]
    requires OnlyIn(d1, d2, v.inodes[1]) && HoldsTable(d2, v.inodes[1], v'.table)
    requires OnlyIn(d2, d3, v.inodes[0]) && HoldsMap(d3, v.inodes[0], v'.bits)
    ensures CreateStep(d0, d3, key, inode.numBytes, h, inode) && View(d3) == v'
  {
    CreatedTakesFree(v, v', key, h, inode);
    assert !v.Owns(0, h) && !v.Owns(1, h) && v.Owns(0, v.Header(0)) && v.Owns(1, v.Header(1));
    DirectoryKept(d2, d3, v);
    Flushed(d0, d3, v, h, v'.bits, v'.table);
    HeaderRoundTrip(inode);
    assert d3[h] == Encode(inode);
    ViewAfterCreate(d0, d3, v, v', key, h, inode);
  }

  lemma ViewAfterCreate(disk: Image, disk': Image, v: Layout, v': Layout, key: seq<byte>, h: nat, inode: Inode)
    requires Consistent(disk) && v == View(disk) && Created(v, v', key, h, inode) && Untouched(disk, disk', v, h)
    requires forall id :: !v.Owns(id, h)
    requires Formatted(disk') && disk'[0] == disk[0] && disk'[1] == disk[1] && Decode(disk'[h]) == inode
    requires FreeMap(disk') == v'.bits && Entries(disk') == v'.table
    ensures View(disk') == v'
  {
    forall id | 0 <= id < NUM_FILES {
      InodeAfterCreate(disk, disk', v, v', h, inode, id);
    }
  }

  // What Created says of the directory and the headers
  ghost predicate Entered(a: Layout, b: Layout, h: nat, inode: Inode) {
    && a.Shaped() && b.Shaped() && h < NUM_SECTORS && FreeIndex(a.table) != -1
    && b.table == a.table[FreeIndex(a.table) := DirectoryEntry(true, h, b.table[FreeIndex(a.table)].name)]
    && b.inodes == a.inodes[FreeIndex(a.table) + 2 := inode]
  }

  lemma InodeAfterCreate(disk: Image, disk': Image, v: Layout, v': Layout, h: nat, inode: Inode, id: nat)
    requires v.Owned() && Entered(v, v', h, inode) && id < NUM_FILES && InodeAt(disk, v.table, id) == v.inodes[id]
    requires Untouched(disk, disk', v, h) && disk'[0] == disk[0] && disk'[1] == disk[1]
    requires Decode(disk'[h]) == inode && !v.Owns(id, h)
    ensures InodeAt(disk', v'.table, id) == v'.inodes[id]
  {
    if id == FreeIndex(v.table) + 2 {
      NewInode(disk', v'.table, id, h, inode);
    } else if id >= 2 {
      OldInode(disk, disk', v, v'.table, h, id);
    }
  }

  lemma NewInode(disk': Image, table': seq<DirectoryEntry>, id: nat, h: nat, inode: Inode)
    requires |table'| == NUM_DIR_ENTRIES && 2 <= id < NUM_FILES && h < NUM_SECTORS && Decode(disk'[h]) == inode
    requires table'[id - 2].inUse && table'[id - 2].sector == h
    ensures InodeAt(disk', table', id) == inode
  {
  }

  lemma OldInode(disk: Image, disk': Image, v: Layout, table': seq<DirectoryEntry>, h: int, id: nat)
    requires v.Owned() && Untouched(disk, disk', v, h) && !v.Owns(id, h) && |table'| == NUM_DIR_ENTRIES
    requires 2 <= id < NUM_FILES && table'[id - 2] == v.table[id - 2]
    ensures InodeAt(disk', table', id) == InodeAt(disk, v.table, id)
  {
    if v.Live(id) {
      OtherFileKept(disk, disk', v, h, id);
    }
    SameInode(disk, disk', v.table, table', id);
  }

  // What Removed says of the directory and the headers
  ghost predicate Struck(a: Layout, b: Layout, i: int) {
    && a.Shaped() && b.Shaped() && 0 <= i < NUM_DIR_ENTRIES
    && b.table == a.table[i := Unused(a.table[i])] && b.inodes == a.inodes[i + 2 := NoFile()]
  }

  lemma InodeStruck(disk: Image, disk': Image, v: Layout, v': Layout, i: nat, id: nat)
    requires v.Owned() && Struck(v, v', i) && id < NUM_FILES && InodeAt(disk, v.table, id) == v.inodes[id]
    requires Untouched(disk, disk', v, -1) && disk'[0] == disk[0] && disk'[1] == disk[1]
    ensures InodeAt(disk', v'.table, id) == v'.inodes[id]
  {
    if id == i + 2 {
      assert !v'.table[id - 2].inUse;
    } else if id >= 2 {
      OldInode(disk, disk', v, v'.table, -1, id);
    }
  }

  lemma InodeAfterRemove(disk: Image, disk': Image, v: Layout, v': Layout, key: seq<byte>, id: nat)
    requires Formatted(disk) && v == View(disk) && v.Owned() && Removed(v, v', key) && id < NUM_FILES
    requires Untouched(disk, disk', v, -1) && disk'[0] == disk[0] && disk'[1] == disk[1]
    ensures InodeAt(disk', v'.table, id) == v'.inodes[id]
  {
    assert InodeAt(disk, v.table, id) == v.inodes[id];
    InodeStruck(disk, disk', v, v', IndexOf(v.table, key), id);
  }

  lemma ViewAfterRemove(disk: Image, disk': Image, v: Layout, v': Layout, key: seq<byte>)
    requires Formatted(disk) && v == View(disk) && v.Owned() && Removed(v, v', key) && Untouched(disk, disk', v, -1)
    requires Formatted(disk') && disk'[0] == disk[0] && disk'[1] == disk[1]
    requires FreeMap(disk') == v'.bits && Entries(disk') == v'.table
    ensures View(disk') == v'
  {
    forall id | 0 <= id < NUM_FILES {
      InodeAfterRemove(disk, disk', v, v', key, id);
    }
  }

  lemma RemoveFlushed(d0: Image, d1: Image, d2: Image, v: Layout, v': Layout, key: seq<byte>)
    requires Consistent(d0) && v == View(d0) && Removed(v, v', key)
    requires OnlyIn(d0, d1, v.inodes[0]) && HoldsMap(d1, v.inodes[0], v'.bits)
    requires OnlyIn(d1, d2, v.inodes[1]) && HoldsTable(d2, v.inodes[1], v'.table)
    ensures RemoveStep(d0, d2, key) && View(d2) == v'
  {
    forall s | s in v.inodes[0].Data()
      ensures d2[s] == d1[s]
    {
      SystemFilesApart(v, s);
    }
    ContentFrame(d1, d2, v.inodes[0]);
    Flushed(d0, d2, v, -1, v'.bits, v'.table);
    ViewAfterRemove(d0, d2, v, v', key);
  }

  // A disk that holds the two system files and an empty directory.
  lemma EmptyOwns(v: Layout, id: int, s: int)
    requires v.Shaped() && forall i | 0 <= i < NUM_DIR_ENTRIES :: !v.table[i].inUse
    ensures v.Owns(id, s) <==> (id == 0 || id == 1) && (s == id || s in v.inodes[id].Data())
  {
  }

  lemma EmptyOwned(v: Layout)
    requires v.Shaped() && v.inodes[0].Sound() && v.inodes[1].Sound()
    requires forall s | s in v.inodes[0].Data() :: s > 1 && s !in v.inodes[1].Data()
    requires forall s | s in v.inodes[1].Data() :: s > 1
    requires forall s | 0 <= s < NUM_SECTORS ::
               v.bits[s] <==> s <= 1 || s in v.inodes[0].Data() || s in v.inodes[1].Data()
    requires forall i | 0 <= i < NUM_DIR_ENTRIES :: !v.table[i].inUse
    ensures v.Owned() && v.NamesDiffer()
  {
    forall id, s {
      EmptyOwns(v, id, s);
    }
    forall s | 0 <= s < NUM_SECTORS
      ensures v.bits[s] <==> exists id :: v.Owns(id, s)
    {
      assert v.Owns(0, s) || v.Owns(1, s) || forall id :: !v.Owns(id, s);
    }
  }

  lemma {:induction false} NoFilesBelow(disk: Image, v: Layout, n: nat)
    requires v.Shaped() && n <= NUM_DIR_ENTRIES
    requires forall i | 0 <= i < NUM_DIR_ENTRIES :: !v.table[i].inUse
    ensures FilesBelow(disk, v, n) == map[]
  {
    if n > 0 {
      NoFilesBelow(disk, v, n - 1);
    }
  }

  lemma FormattedIsConsistent(disk: Image, a: Inode, b: Inode, bits: seq<bool>, table: seq<DirectoryEntry>)
    requires Decode(disk[0]) == a && Decode(disk[1]) == b && HoldsMap(disk, a, bits) && HoldsTable(disk, b, table)
    requires forall s | s in a.Data() :: s > 1 && s !in b.Data()
    requires forall s | s in b.Data() :: s > 1
    requires |bits| == NUM_SECTORS
    requires forall s | 0 <= s < NUM_SECTORS :: bits[s] <==> s <= 1 || s in a.Data() || s in b.Data()
    requires forall i | 0 <= i < NUM_DIR_ENTRIES :: !table[i].inUse
    ensures Consistent(disk) && Files(disk) == map[] && CountClear(FreeMap(disk)) == NUM_SECTORS - 5
  {
    TableRoundTrip(table);
    var v := View(disk);
    assert v.inodes[0] == a && v.inodes[1] == b && v.bits == bits && v.table == table;
    EmptyOwned(v);
    NoFilesBelow(disk, v, NUM_DIR_ENTRIES);
    SectorsConserved(v);
    SystemSectors(disk);
    FilesCounted(disk, v, NUM_DIR_ENTRIES);
  }

  // Two sectors of a new free map go to the headers of the system files.
  method MarkSystemHeaders(freeMap: BitMap)
    requires freeMap.Valid() && freeMap.numBits == NUM_SECTORS && freeMap.Bits() == seq(NUM_SECTORS, _ => false)
    modifies freeMap.storage
    ensures forall s | 0 <= s < NUM_SECTORS :: freeMap.Bits()[s] <==> s <= 1
    ensures CountClear(freeMap.Bits()) == NUM_SECTORS - 2
  {
    CountClearAll(freeMap.Bits());
    CountClearUpdate(freeMap.Bits(), FREE_MAP_SECTOR, true);
    freeMap.Mark(FREE_MAP_SECTOR);
    CountClearUpdate(freeMap.Bits(), DIRECTORY_SECTOR, true);
    freeMap.Mark(DIRECTORY_SECTOR);
  }

  // The data sectors of the system files. On an otherwise empty disk both fit.
  method AllocateSystemFiles(freeMap: BitMap) returns (mapHdr: FileHeader, dirHdr: FileHeader)
    requires freeMap.Valid() && freeMap.numBits == NUM_SECTORS && freeMap.Bits() == seq(NUM_SECTORS, _ => false)
    modifies freeMap.storage
    ensures fresh(mapHdr) && mapHdr.Value().Sound() && mapHdr.numBytes == FREE_MAP_FILE_SIZE
    ensures fresh(dirHdr) && dirHdr.Value().Sound() && dirHdr.numBytes == DIRECTORY_FILE_SIZE
    ensures SystemBits(freeMap.Bits(), mapHdr.Value(), dirHdr.Value())
  {
    MarkSystemHeaders(freeMap);
    ghost var bits := freeMap.Bits();
    mapHdr := new FileHeader();
    dirHdr := new FileHeader();
    var mapFits := mapHdr.Allocate(freeMap, FREE_MAP_FILE_SIZE);
    assert mapFits;
    TakenCount(bits, mapHdr.Value().Data());
    var dirFits := dirHdr.Allocate(freeMap, DIRECTORY_FILE_SIZE);
    assert dirFits;
    SystemBitsTaken(bits, mapHdr.Value(), dirHdr.Value());
  }

  lemma {:induction false} TakenCount(bits: seq<bool>, xs: seq<int32>)
    requires |bits| == NUM_SECTORS && OnDisk(xs) && FirstFit(bits, xs)
    ensures CountClear(Taken(bits, xs)) == CountClear(bits) - |xs|
  {
    if xs != [] {
      var n := |xs| - 1;
      TakenCount(bits, xs[..n]);
      CountClearUpdate(Taken(bits, xs[..n]), xs[n], true);
    }
  }

  // The map of a disk that holds the two system files only.
  ghost predicate SystemBits(bits: seq<bool>, a: Inode, b: Inode) {
    && |bits| == NUM_SECTORS
    && (forall s | s in a.Data() :: s > 1 && s !in b.Data())
    && (forall s | s in b.Data() :: s > 1)
    && forall s | 0 <= s < NUM_SECTORS :: bits[s] <==> s <= 1 || s in a.Data() || s in b.Data()
  }

  lemma SystemBitsTaken(bits: seq<bool>, a: Inode, b: Inode)
    requires |bits| == NUM_SECTORS && forall s | 0 <= s < NUM_SECTORS :: bits[s] <==> s <= 1
    requires a.Sound() && b.Sound()
    requires FirstFit(bits, a.Data()) && FirstFit(Taken(bits, a.Data()), b.Data())
    ensures SystemBits(Taken(Taken(bits, a.Data()), b.Data()), a, b)
  {
    var taken := Taken(bits, a.Data());
    FirstFitFresh(bits, a.Data());
    FirstFitFresh(taken, b.Data());
    forall s | 0 <= s < NUM_SECTORS
      ensures taken[s] == (s <= 1 || s in a.Data())
      ensures Taken(taken, b.Data())[s] == (taken[s] || s in b.Data())
    {
      TakenBits(bits, a.Data(), s);
      TakenBits(taken, b.Data(), s);
    }
    assert forall s | s in a.Data() || s in b.Data() :: 0 <= s < NUM_SECTORS;
  }

  method FlushHeaders(disk: SynchDisk, mapHdr: FileHeader, dirHdr: FileHeader)
    returns (mapFile: OpenFile, dirFile: OpenFile)
    requires mapHdr.Value().Sound() && dirHdr.Value().Sound()
    modifies disk
    ensures mapFile.disk == dirFile.disk == disk && fresh(mapFile) && fresh(dirFile)
    ensures Decode(disk.sectors[0]) == mapHdr.Value() && Decode(disk.sectors[1]) == dirHdr.Value()
    ensures mapFile.hdr.Value() == mapHdr.Value() && dirFile.hdr.Value() == dirHdr.Value()
  {
    HeaderRoundTrip(mapHdr.Value());
    HeaderRoundTrip(dirHdr.Value());
    mapHdr.WriteBack(disk, FREE_MAP_SECTOR);
    dirHdr.WriteBack(disk, DIRECTORY_SECTOR);
    mapFile := new OpenFile(disk, FREE_MAP_SECTOR);
    dirFile := new OpenFile(disk, DIRECTORY_SECTOR);
  }

  method FlushContents(disk: SynchDisk, freeMap: BitMap, directory: Directory, mapFile: OpenFile, dirFile: OpenFile)
    requires freeMap.Valid() && freeMap.numBits == NUM_SECTORS
    requires directory.Valid() && directory.tableSize == NUM_DIR_ENTRIES
    requires mapFile.disk == dirFile.disk == disk
    requires mapFile.Valid() && mapFile.hdr.numBytes == FREE_MAP_FILE_SIZE
    requires dirFile.Valid() && dirFile.hdr.numBytes == DIRECTORY_FILE_SIZE
    requires forall s | s in mapFile.hdr.Value().Data() :: s > 1 && s !in dirFile.hdr.Value().Data()
    requires forall s | s in dirFile.hdr.Value().Data() :: s > 1
    modifies disk
    ensures HoldsMap(disk.sectors, mapFile.hdr.Value(), freeMap.Bits())
    ensures HoldsTable(disk.sectors, dirFile.hdr.Value(), directory.table[..])
    ensures disk.sectors[0] == old(disk.sectors[0]) && disk.sectors[1] == old(disk.sectors[1])
  {
    BitMapFile.WriteBack(freeMap, mapFile);
    ghost var d1 := disk.sectors;
    directory.WriteBack(dirFile);
    ContentFrame(d1, disk.sectors, mapFile.hdr.Value());
  }

  // First the headers go to the disk, then the free map and the directory through their own files.
  method FlushFormatted(disk: SynchDisk, freeMap: BitMap, directory: Directory, mapHdr: FileHeader, dirHdr: FileHeader)
    returns (mapFile: OpenFile, dirFile: OpenFile)
    requires freeMap.Valid() && freeMap.numBits == NUM_SECTORS
    requires directory.Valid() && directory.tableSize == NUM_DIR_ENTRIES
    requires forall i | 0 <= i < NUM_DIR_ENTRIES :: !directory.table[i].inUse
    requires mapHdr.Value().Sound() && mapHdr.numBytes == FREE_MAP_FILE_SIZE
    requires dirHdr.Value().Sound() && dirHdr.numBytes == DIRECTORY_FILE_SIZE
    requires SystemBits(freeMap.Bits(), mapHdr.Value(), dirHdr.Value())
    modifies disk
    ensures mapFile.disk == disk && dirFile.disk == disk
    ensures Consistent(disk.sectors) && Files(disk.sectors) == map[]
    ensures CountClear(FreeMap(disk.sectors)) == NUM_SECTORS - 5
    ensures mapFile.hdr.Value() == View(disk.sectors).inodes[0] && dirFile.hdr.Value() == View(disk.sectors).inodes[1]
  {
    ghost var a, b := mapHdr.Value(), dirHdr.Value();
    mapFile, dirFile := FlushHeaders(disk, mapHdr, dirHdr);
    FlushContents(disk, freeMap, directory, mapFile, dirFile);
    FormattedIsConsistent(disk.sectors, a, b, freeMap.Bits(), directory.table[..]);
  }

  // What Create and Remove do, failures included.
  ghost predicate CreateCall(disk: Image, disk': Image, key: seq<byte>, size: nat, success: bool)
    requires Formatted(disk)
  {
    && success == CanCreate(disk, key, size)
    && if success then exists h, inode :: CreateStep(disk, disk', key, size, h, inode) else disk' == disk
  }

  lemma NotCreated(disk: Image, key: seq<byte>, size: nat)
    requires Formatted(disk) && !CanCreate(disk, key, size)
    ensures CreateCall(disk, disk, key, size, false)
  {
  }

  lemma WasCreated(disk: Image, disk': Image, key: seq<byte>, size: nat, h: nat, inode: Inode)
    requires Formatted(disk) && CanCreate(disk, key, size) && CreateStep(disk, disk', key, size, h, inode)
    ensures CreateCall(disk, disk', key, size, true)
  {
  }

  ghost predicate RemoveCall(disk: Image, disk': Image, key: seq<byte>, success: bool)
    requires Formatted(disk)
  {
    success == (key in Files(disk)) && if success then RemoveStep(disk, disk', key) else disk' == disk
  }

  lemma EntryInRange(v: Layout, key: seq<byte>)
    requires v.Owned()
    ensures var i := IndexOf(v.table, key); i != -1 ==> v.Live(i + 2) && v.Placed(i + 2)
  {
    IndexMeans(v.table, NUM_DIR_ENTRIES, key);
  }

  ghost function Updated(v: Layout, table: seq<DirectoryEntry>, bits: seq<bool>, inode: Inode): Layout
    requires v.Shaped() && FreeIndex(v.table) != -1
  {
    Layout(bits, table, v.inodes[FreeIndex(v.table) + 2 := inode])
  }

  // A header sector, a directory entry and data sectors make a new file.
  lemma AllottedIsCreated(v: Layout, table: seq<DirectoryEntry>, bits: seq<bool>, inode: Inode, h: nat, key: seq<byte>)
    requires v.Owned() && FirstClear(v.bits, h)
    requires IndexOf(v.table, key) == -1 && FreeIndex(v.table) != -1 && |table| == NUM_DIR_ENTRIES
    requires EntryAdded(v.table, table, FreeIndex(v.table), key, h)
    requires inode.Sound() && FirstFit(v.bits[h := true], inode.Data()) &&
             bits == Taken(v.bits[h := true], inode.Data())
    ensures Created(v, Updated(v, table, bits, inode), key, h, inode)
  {
  }

  ghost function Without(v: Layout, table: seq<DirectoryEntry>, bits: seq<bool>, key: seq<byte>): Layout
    requires v.Shaped() && IndexOf(v.table, key) != -1
  {
    Layout(bits, table, v.inodes[IndexOf(v.table, key) + 2 := NoFile()])
  }

  // Clearing the bits of the data sectors and of the header gives back all that a file owned.
  lemma FreedIsRemoved(v: Layout, key: seq<byte>, bits: seq<bool>, table: seq<DirectoryEntry>)
    requires v.Owned() && IndexOf(v.table, key) != -1
    requires var id := IndexOf(v.table, key) + 2;
      v.Live(id) && v.Placed(id) && bits == Freed(v.bits, v.inodes[id].Data())[v.Header(id) := false]
    requires table == v.table[IndexOf(v.table, key) := Unused(v.table[IndexOf(v.table, key)])]
    ensures Removed(v, Without(v, table, bits, key), key)
  {
    forall s | 0 <= s < NUM_SECTORS {
      FreedBits(v.bits, v.inodes[IndexOf(v.table, key) + 2].Data(), s);
    }
  }

  class FileSystem {
    const disk: SynchDisk
    const freeMapFile: OpenFile
    const directoryFile: OpenFile

    ghost predicate Valid()
      reads disk, freeMapFile.hdr, directoryFile.hdr
    {
      && freeMapFile.disk == disk && directoryFile.disk == disk
      && Consistent(disk.sectors)
      && freeMapFile.hdr.Value() == View(disk.sectors).inodes[0]
      && directoryFile.hdr.Value() == View(disk.sectors).inodes[1]
    }

    // To format: whatever the disk held, it now holds an empty directory and a free map.
    constructor Format(disk: SynchDisk)
      modifies disk
      ensures this.disk == disk && Valid()
      ensures Files(disk.sectors) == map[] && CountClear(FreeMap(disk.sectors)) == NUM_SECTORS - 5
    {
      var freeMap := new BitMap(NUM_SECTORS);
      var directory := new Directory(NUM_DIR_ENTRIES);
      var mapHdr, dirHdr := AllocateSystemFiles(freeMap);
      var mapFile, dirFile := FlushFormatted(disk, freeMap, directory, mapHdr, dirHdr);
      this.disk := disk;
      freeMapFile := mapFile;
      directoryFile := dirFile;
    }

    // Otherwise open the two files that are there from an earlier format.
    constructor Mount(disk: SynchDisk)
      requires Consistent(disk.sectors)
      ensures this.disk == disk && Valid()
    {
      this.disk := disk;
      freeMapFile := new OpenFile(disk, FREE_MAP_SECTOR);
      directoryFile := new OpenFile(disk, DIRECTORY_SECTOR);
    }

    method Create(name: CString, initialSize: int32) returns (success: bool)
      requires Valid() && 0 <= initialSize <= MAX_FILE_SIZE
      modifies disk
      ensures Valid() && CreateCall(old(disk.sectors), disk.sectors, NameKey(name), initialSize, success)
    {
      var directory := FetchDirectory();
      IndexMeans(directory.table[..], NUM_DIR_ENTRIES, NameKey(name));
      var existing := directory.Find(name);
      if existing != -1 {
        return false; // the name is taken
      }
      ghost var v := View(disk.sectors);
      EntryInRange(v, NameKey(name));
      var freeMap := FetchFreeMap();
      var sector := freeMap.Find(); // for the header
      if sector == -1 {
        return false; // not even one clear sector
      }
      CountClearUpdate(v.bits, sector, true);
      success := CreateAt(directory, freeMap, sector, name, initialSize);
    }

    // The rest of Create, with a sector for the header.
    method CreateAt(directory: Directory, freeMap: BitMap, sector: nat, name: CString, initialSize: int32)
      returns (success: bool)
      requires Valid() && 0 <= initialSize <= MAX_FILE_SIZE
      requires directory.Valid() && directory.tableSize == NUM_DIR_ENTRIES &&
               directory.table[..] == Entries(disk.sectors)
      requires freeMap.Valid() && freeMap.numBits == NUM_SECTORS && FirstClear(FreeMap(disk.sectors), sector)
      requires freeMap.Bits() == FreeMap(disk.sectors)[sector := true]
      requires CountClear(freeMap.Bits()) == CountClear(FreeMap(disk.sectors)) - 1
      requires IndexOf(Entries(disk.sectors), NameKey(name)) == -1
      modifies disk, directory.table, freeMap.storage
      ensures Valid() && CreateCall(old(disk.sectors), disk.sectors, NameKey(name), initialSize, success)
    {
      ghost var v := View(disk.sectors);
      var added := directory.Add(name, sector);
      if !added {
        NotCreated(disk.sectors, NameKey(name), initialSize);
        return false; // the directory is full
      }
      success := AllocateAndFlush(directory, freeMap, sector, name, initialSize, v);
    }

    method AllocateAndFlush(directory: Directory, freeMap: BitMap, sector: nat, name: CString, initialSize: int32,
                            ghost v: Layout) returns (success: bool)
      requires Valid() && 0 <= initialSize <= MAX_FILE_SIZE && v == View(disk.sectors)
      requires directory.Valid() && directory.tableSize == NUM_DIR_ENTRIES
      requires IndexOf(v.table, NameKey(name)) == -1 && FreeIndex(v.table) != -1
      requires EntryAdded(v.table, directory.table[..], FreeIndex(v.table), NameKey(name), sector)
      requires freeMap.Valid() && freeMap.numBits == NUM_SECTORS && FirstClear(v.bits, sector)
      requires freeMap.Bits() == v.bits[sector := true] && CountClear(freeMap.Bits()) == CountClear(v.bits) - 1
      modifies disk, freeMap.storage
      ensures Valid() && CreateCall(old(disk.sectors), disk.sectors, NameKey(name), initialSize, success)
    {
      var hdr := new FileHeader();
      var fits := hdr.Allocate(freeMap, initialSize);
      if !fits {
        NotCreated(disk.sectors, NameKey(name), initialSize);
        return false; // too few clear sectors for the data
      }
      // only now does anything reach the disk
      AllottedIsCreated(v, directory.table[..], freeMap.Bits(), hdr.Value(), sector, NameKey(name));
      FlushCreated(directory, freeMap, hdr, sector, NameKey(name));
      WasCreated(old(disk.sectors), disk.sectors, NameKey(name), initialSize, sector, hdr.Value());
      return true;
    }

    method FetchDirectory() returns (directory: Directory)
      requires Valid()
      ensures fresh(directory) && fresh(directory.table)
      ensures directory.Valid() && directory.tableSize == NUM_DIR_ENTRIES
      ensures directory.table[..] == Entries(disk.sectors)
    {
      directory := new Directory(NUM_DIR_ENTRIES);
      directory.FetchFrom(directoryFile);
    }

    method FetchFreeMap() returns (freeMap: BitMap)
      requires Valid()
      ensures fresh(freeMap) && fresh(freeMap.storage)
      ensures freeMap.Valid() && freeMap.numBits == NUM_SECTORS
      ensures freeMap.Bits() == FreeMap(disk.sectors)
    {
      freeMap := new BitMap(NUM_SECTORS);
      BitMapFile.FetchFrom(freeMap, freeMapFile);
    }

    method FlushCreated(directory: Directory, freeMap: BitMap, hdr: FileHeader, sector: nat, ghost key: seq<byte>)
      requires Valid() && directory.Valid() && directory.tableSize == NUM_DIR_ENTRIES
      requires freeMap.Valid() && freeMap.numBits == NUM_SECTORS
      requires {hdr} !! {freeMapFile.hdr, directoryFile.hdr}
      requires FreeIndex(Entries(disk.sectors)) != -1
      requires Created(View(disk.sectors), Updated(View(disk.sectors), directory.table[..], freeMap.Bits(),
               hdr.Value()),
                       key, sector, hdr.Value())
      modifies disk
      ensures Valid()
      ensures CreateStep(old(disk.sectors), disk.sectors, key, hdr.numBytes, sector, hdr.Value())
    {
      ghost var v := View(disk.sectors);
      ghost var v' := Updated(v, directory.table[..], freeMap.Bits(), hdr.Value());
      ghost var d0 := disk.sectors;
      hdr.WriteBack(disk, sector);
      ghost var d1 := disk.sectors;
      directory.WriteBack(directoryFile);
      ghost var d2 := disk.sectors;
      BitMapFile.WriteBack(freeMap, freeMapFile);
      CreateFlushed(d0, d1, d2, disk.sectors, v, v', key, sector, hdr.Value());
      CreateKeeps(d0, disk.sectors, key, hdr.numBytes, sector, hdr.Value());
    }

    method Open(name: CString) returns (openFile: OpenFile?)
      requires Valid()
      ensures openFile == null <==> NameKey(name) !in Files(disk.sectors)
      ensures openFile != null ==>
                && openFile.disk == disk && openFile.seekPosition == 0 && openFile.Valid()
                && openFile.hdr.Value() == View(disk.sectors).inodes[IndexOf(Entries(disk.sectors), NameKey(name)) + 2]
                && openFile.Bytes() == Files(disk.sectors)[NameKey(name)]
    {
      ghost var v := View(disk.sectors);
      EntryInRange(v, NameKey(name));
      FileAt(disk.sectors, v, NameKey(name));
      openFile := null;
      var directory := FetchDirectory();
      var sector := directory.Find(name);
      if sector >= 0 {
        openFile := new OpenFile(disk, sector); // the name is listed
      }
    }

    method Remove(name: CString) returns (success: bool)
      requires Valid()
      modifies disk
      ensures Valid() && RemoveCall(old(disk.sectors), disk.sectors, NameKey(name), success)
    {
      ghost var v, key := View(disk.sectors), NameKey(name);
      EntryInRange(v, key);
      FileAt(disk.sectors, v, key);
      var directory := FetchDirectory();
      var sector := directory.Find(name);
      if sector == -1 {
        return false; // the name is not listed
      }
      var freeMap := FreeSectors(sector, IndexOf(v.table, key) + 2);
      var removed := directory.Remove(name);
      FreedIsRemoved(v, key, freeMap.Bits(), directory.table[..]);
      FlushRemoved(directory, freeMap, key);
      return true;
    }

    // The free map without the sectors of the file whose header is in the given one
    method FreeSectors(sector: int, ghost id: int) returns (freeMap: BitMap)
      requires Valid() && id >= 2 && View(disk.sectors).Live(id) && View(disk.sectors).Placed(id)
      requires sector == View(disk.sectors).Header(id)
      ensures fresh(freeMap) && fresh(freeMap.storage) && freeMap.Valid() && freeMap.numBits == NUM_SECTORS
      ensures freeMap.Bits() == Freed(FreeMap(disk.sectors), View(disk.sectors).inodes[id].Data())[sector := false]
    {
      var fileHdr := new FileHeader();
      fileHdr.FetchFrom(disk, sector);
      assert fileHdr.Value() == View(disk.sectors).inodes[id];
      freeMap := FetchFreeMap();
      OwnedIsMarked(View(disk.sectors), id);
      fileHdr.Deallocate(freeMap); // the data sectors
      freeMap.Clear(sector); // the header's sector
    }

    method FlushRemoved(directory: Directory, freeMap: BitMap, ghost key: seq<byte>)
      requires Valid() && directory.Valid() && directory.tableSize == NUM_DIR_ENTRIES
      requires freeMap.Valid() && freeMap.numBits == NUM_SECTORS
      requires IndexOf(Entries(disk.sectors), key) != -1
      requires Removed(View(disk.sectors), Without(View(disk.sectors), directory.table[..], freeMap.Bits(), key), key)
      modifies disk
      ensures Valid() && RemoveStep(old(disk.sectors), disk.sectors, key)
    {
      ghost var v := View(disk.sectors);
      ghost var v' := Without(v, directory.table[..], freeMap.Bits(), key);
      ghost var d0 := disk.sectors;
      BitMapFile.WriteBack(freeMap, freeMapFile);
      ghost var d1 := disk.sectors;
      directory.WriteBack(directoryFile);
      RemoveFlushed(d0, d1, disk.sectors, v, v', key);
      RemoveKeeps(d0, disk.sectors, key);
    }
  }
}
