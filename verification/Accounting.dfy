// Counting sectors and directory entries: what decides whether Create succeeds, in terms of the
// files alone.
module Accounting {
  import opened Bytes
  import opened SynchDisk
  import opened BitMap
  import opened FileHeader
  import opened Directory
  import opened Layout
  import opened DiskView

  ghost function Marked(bits: seq<bool>): set<int> {
    set s | 0 <= s < |bits| && bits[s]
  }

  lemma {:induction false} ClearAndMarked(bits: seq<bool>)
    ensures CountClear(bits) + |Marked(bits)| == |bits|
  {
    if bits == [] {
      assert Marked(bits) == {};
    } else {
      var n := |bits| - 1;
      ClearAndMarked(bits[..n]);
      assert Marked(bits) == Marked(bits[..n]) + if bits[n] then {n} else {};
    }
  }

  ghost function Elements(xs: seq<int32>): set<int> {
    set x: int | x in xs
  }

  lemma {:induction false} DistinctSize(xs: seq<int32>)
    requires Distinct(xs)
    ensures |Elements(xs)| == |xs|
  {
    if xs == [] {
      assert Elements(xs) == {};
    } else {
      var n := |xs| - 1;
      DistinctSize(xs[..n]);
      assert xs == xs[..n] + [xs[n]];
      assert Elements(xs) == Elements(xs[..n]) + {xs[n]};
    }
  }

  // The sectors of the first n files, and how many they should be.
  ghost function SectorsOf(v: Layout, id: nat): set<int>
    requires v.Shaped() && id < NUM_FILES
  {
    if v.Live(id) then Elements(v.inodes[id].Data()) + {v.Header(id)} else {}
  }

  ghost function SectorsBelow(v: Layout, n: nat): set<int>
    requires v.Shaped() && n <= NUM_FILES
  {
    if n == 0 then {} else SectorsBelow(v, n - 1) + SectorsOf(v, n - 1)
  }

  ghost function Used(v: Layout, n: nat): nat
    requires v.Shaped() && n <= NUM_FILES
  {
    if n == 0 then 0 else Used(v, n - 1) + if v.Live(n - 1) then 1 + |v.inodes[n - 1].Data()| else 0
  }

  lemma {:induction false} SectorsAreOwned(v: Layout, n: nat, s: int)
    requires v.Shaped() && n <= NUM_FILES
    ensures s in SectorsBelow(v, n) <==> exists id | 0 <= id < n :: v.Owns(id, s)
  {
    if n > 0 {
      SectorsAreOwned(v, n - 1, s);
      assert s in SectorsOf(v, n - 1) <==> v.Owns(n - 1, s);
    }
  }

  lemma {:induction false} SectorsCounted(v: Layout, n: nat)
    requires v.Owned() && n <= NUM_FILES
    ensures |SectorsBelow(v, n)| == Used(v, n)
  {
    if n > 0 {
      SectorsCounted(v, n - 1);
      if v.Live(n - 1) {
        assert v.Placed(n - 1);
        DistinctSize(v.inodes[n - 1].Data());
        var own := SectorsOf(v, n - 1);
        forall s | s in own
          ensures s !in SectorsBelow(v, n - 1)
        {
          assert v.Owns(n - 1, s);
          SectorsAreOwned(v, n - 1, s);
        }
      }
    }
  }

  // Every sector of the disk is either free or used by exactly one file.
  lemma SectorsConserved(v: Layout)
    requires v.Owned()
    ensures CountClear(v.bits) + Used(v, NUM_FILES) == NUM_SECTORS
  {
    SectorsCounted(v, NUM_FILES);
    ClearAndMarked(v.bits);
    forall s
      ensures s in Marked(v.bits) <==> s in SectorsBelow(v, NUM_FILES)
    {
      SectorsAreOwned(v, NUM_FILES, s);
      if exists id :: v.Owns(id, s) {
        var id :| v.Owns(id, s);
        assert v.Placed(id);
      }
    }
    assert Marked(v.bits) == SectorsBelow(v, NUM_FILES);
  }

  // What a file of a given length takes: a sector for its header and its data sectors.
  ghost function Size(content: seq<byte>): nat {
    1 + DivRoundUp(|content|, SECTOR_SIZE)
  }

  ghost function Cost(files: map<seq<byte>, seq<byte>>): nat
    decreases |files|
  {
    if files == map[] then 0
    else
      var key :| key in files;
      Size(files[key]) + Cost(files - {key})
  }

  lemma {:induction false} CostOfOne(files: map<seq<byte>, seq<byte>>, key: seq<byte>)
    requires key in files
    ensures Cost(files) == Size(files[key]) + Cost(files - {key})
    decreases |files|
  {
    var k :| k in files && Cost(files) == Size(files[k]) + Cost(files - {k});
    if k != key {
      CostOfOne(files - {k}, key);
      CostOfOne(files - {key}, k);
      assert files - {k} - {key} == files - {key} - {k};
    }
  }

  lemma CostOfNew(files: map<seq<byte>, seq<byte>>, key: seq<byte>, content: seq<byte>)
    requires key !in files
    ensures Cost(files[key := content]) == Cost(files) + Size(content)
    ensures |files[key := content]| == |files| + 1
  {
    CostOfOne(files[key := content], key);
    assert files[key := content] - {key} == files;
  }

  // The room that a set of files leaves on the disk, of which five sectors serve the free map and
  // the directory.
  ghost function Room(files: map<seq<byte>, seq<byte>>): int {
    NUM_SECTORS - 5 - Cost(files)
  }

  ghost function InUseBelow(table: seq<DirectoryEntry>, n: nat): nat
    requires n <= |table|
  {
    if n == 0 then 0 else InUseBelow(table, n - 1) + if table[n - 1].inUse then 1 else 0
  }

  lemma {:induction false} FilesCounted(disk: Image, v: Layout, n: nat)
    requires v.Owned() && v.NamesDiffer() && n <= NUM_DIR_ENTRIES
    ensures |FilesBelow(disk, v, n)| == InUseBelow(v.table, n)
    ensures Used(v, n + 2) == Used(v, 2) + Cost(FilesBelow(disk, v, n))
  {
    if n > 0 {
      FilesCounted(disk, v, n - 1);
      if v.table[n - 1].inUse {
        OneMore(disk, v, n);
      } else {
        NoMore(disk, v, n);
      }
    }
  }

  lemma OneMore(disk: Image, v: Layout, n: nat)
    requires v.Owned() && v.NamesDiffer() && 0 < n <= NUM_DIR_ENTRIES && v.table[n - 1].inUse
    ensures |FilesBelow(disk, v, n)| == |FilesBelow(disk, v, n - 1)| + 1
    ensures Used(v, n + 2) == Used(v, n + 1) + Cost(FilesBelow(disk, v, n)) - Cost(FilesBelow(disk, v, n - 1))
  {
    NewName(disk, v, n);
    CostOfNew(FilesBelow(disk, v, n - 1), v.KeyOf(n - 1), ContentOf(disk, v, n + 1));
  }

  lemma NoMore(disk: Image, v: Layout, n: nat)
    requires v.Owned() && 0 < n <= NUM_DIR_ENTRIES && !v.table[n - 1].inUse
    ensures FilesBelow(disk, v, n) == FilesBelow(disk, v, n - 1) && Used(v, n + 2) == Used(v, n + 1)
  {
  }

  lemma NewName(disk: Image, v: Layout, n: nat)
    requires v.Owned() && v.NamesDiffer() && 0 < n <= NUM_DIR_ENTRIES && v.table[n - 1].inUse
    ensures v.KeyOf(n - 1) !in FilesBelow(disk, v, n - 1)
    ensures Size(ContentOf(disk, v, n + 1)) == 1 + |v.inodes[n + 1].Data()|
  {
    assert v.Live(n + 1) && v.Placed(n + 1);
    FileBelow(disk, v, n - 1, v.KeyOf(n - 1));
    IndexMeans(v.table, n - 1, v.KeyOf(n - 1));
  }

  lemma {:induction false} AllInUse(table: seq<DirectoryEntry>, n: nat)
    requires n <= |table|
    ensures InUseBelow(table, n) <= n
    ensures InUseBelow(table, n) == n <==> FreeBelow(table, n) == -1
  {
    if n > 0 {
      AllInUse(table, n - 1);
    }
  }

  // Whether Create has what it needs, as it finds out from the free map and the directory.
  ghost predicate CanCreate(disk: Image, key: seq<byte>, size: nat)
    requires Formatted(disk)
  {
    && IndexOf(Entries(disk), key) == -1 && FreeIndex(Entries(disk)) != -1
    && 1 + DivRoundUp(size, SECTOR_SIZE) <= CountClear(FreeMap(disk))
  }

  // The same in terms of the files alone.
  lemma CreateCondition(disk: Image, key: seq<byte>, size: nat)
    requires Consistent(disk)
    ensures CanCreate(disk, key, size) <==>
              && key !in Files(disk) && |Files(disk)| < NUM_DIR_ENTRIES
              && 1 + DivRoundUp(size, SECTOR_SIZE) <= Room(Files(disk))
  {
    var v := View(disk);
    FileAt(disk, v, key);
    FilesCounted(disk, v, NUM_DIR_ENTRIES);
    AllInUse(v.table, NUM_DIR_ENTRIES);
    SectorsConserved(v);
    SystemSectors(disk);
  }

  lemma SystemSectors(disk: Image)
    requires Formatted(disk)
    ensures Used(View(disk), 2) == 5
  {
    var v := View(disk);
    assert v.Live(0) && v.Live(1);
    assert v.inodes[0] == Decode(disk[0]) && v.inodes[1] == Decode(disk[1]);
    assert Used(v, 1) == 1 + |v.inodes[0].Data()|;
  }
}
