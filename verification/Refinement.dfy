// Runs of the file system. Every run refines a run of a machine that knows nothing of sectors: a
// map from names to byte sequences of fixed lengths.
module Refinement {
  import opened Basics
  import opened Bytes
  import opened SynchDisk
  import opened FileHeader
  import opened Directory
  import opened Layout
  import opened DiskView
  import opened Accounting
  import opened FileSystem

  datatype Op =
    | Create(key: seq<byte>, size: nat)
    | Remove(key: seq<byte>)
    | Write(key: seq<byte>, position: nat, bytes: seq<byte>)

  ghost function InodeFor(disk: Image, key: seq<byte>): Inode
    requires Formatted(disk)
  {
    InodeOf(View(disk), key)
  }

  ghost function InodeOf(v: Layout, key: seq<byte>): Inode
    requires v.Shaped()
  {
    v.inodes[IndexOf(v.table, key) + 2]
  }

  // One step of the file system on the disk. A write goes through an open file of that name.
  ghost predicate DiskStep(disk: Image, op: Op, disk': Image) {
    && Formatted(disk)
    && match op
       case Create(key, size) => CreateCall(disk, disk', key, size, CanCreate(disk, key, size))
       case Remove(key) => RemoveCall(disk, disk', key, key in Files(disk))
       case Write(key, position, bytes) => WriteCall(disk, disk', key, position, bytes)
  }

  ghost predicate WriteCall(disk: Image, disk': Image, key: seq<byte>, position: nat, bytes: seq<byte>)
    requires Formatted(disk)
  {
    && IndexOf(Entries(disk), key) != -1
    && InodeFor(disk, key).Sound() && position + |bytes| <= InodeFor(disk, key).numBytes
    && WriteStep(disk, disk', InodeFor(disk, key), position, bytes)
  }

  // One step of the machine it refines. Only the content of a new file is left open.
  ghost predicate FilesStep(files: map<seq<byte>, seq<byte>>, op: Op, files': map<seq<byte>, seq<byte>>) {
    match op
    case Create(key, size) =>
      if key !in files && |files| < NUM_DIR_ENTRIES && 1 + DivRoundUp(size, SECTOR_SIZE) <= Room(files)
      then key in files' && |files'[key]| == size && files' == files[key := files'[key]]
      else files' == files
    case Remove(key) => files' == files - {key}
    case Write(key, position, bytes) =>
      && key in files && position + |bytes| <= |files[key]|
      && files' == files[key := Splice(files[key], position, bytes)]
  }

  lemma StepRefines(disk: Image, op: Op, disk': Image)
    requires Consistent(disk) && DiskStep(disk, op, disk')
    ensures Consistent(disk') && FilesStep(Files(disk), op, Files(disk'))
  {
    match op {
      case Create(key, size) => CreateRefines(disk, key, size, disk');
      case Remove(key) => RemoveRefines(disk, key, disk');
      case Write(key, position, bytes) => WriteRefines(disk, key, position, bytes, disk');
    }
  }

  lemma CreateRefines(disk: Image, key: seq<byte>, size: nat, disk': Image)
    requires Consistent(disk) && DiskStep(disk, Create(key, size), disk')
    ensures Consistent(disk') && FilesStep(Files(disk), Create(key, size), Files(disk'))
  {
    CreateCondition(disk, key, size);
    if CanCreate(disk, key, size) {
      var h, inode :| CreateStep(disk, disk', key, size, h, inode);
      CreateKeeps(disk, disk', key, size, h, inode);
    }
  }

  lemma RemoveRefines(disk: Image, key: seq<byte>, disk': Image)
    requires Consistent(disk) && DiskStep(disk, Remove(key), disk')
    ensures Consistent(disk') && FilesStep(Files(disk), Remove(key), Files(disk'))
  {
    if key in Files(disk) {
      RemoveKeeps(disk, disk', key);
    }
  }

  lemma WriteRefines(disk: Image, key: seq<byte>, position: nat, bytes: seq<byte>, disk': Image)
    requires Consistent(disk) && DiskStep(disk, Write(key, position, bytes), disk')
    ensures Consistent(disk') && FilesStep(Files(disk), Write(key, position, bytes), Files(disk'))
  {
    WriteFound(disk, key);
    WriteKeeps(disk, disk', IndexOf(Entries(disk), key) + 2, position, bytes);
  }

  lemma WriteFound(disk: Image, key: seq<byte>)
    requires Consistent(disk) && IndexOf(Entries(disk), key) != -1
    ensures var id := IndexOf(Entries(disk), key) + 2; View(disk).Live(id) && View(disk).KeyOf(id - 2) == key
  {
    IndexMeans(Entries(disk), NUM_DIR_ENTRIES, key);
  }

  ghost predicate Run(disks: seq<Image>, ops: seq<Op>) {
    |disks| == |ops| + 1 && forall i | 0 <= i < |ops| :: DiskStep(disks[i], ops[i], disks[i + 1])
  }

  lemma ConsistentThroughout(disks: seq<Image>, ops: seq<Op>, n: nat)
    requires Run(disks, ops) && Consistent(disks[0]) && n <= |ops|
    ensures Consistent(disks[n])
  {
    forall i | 0 <= i < |ops| && Consistent(disks[i])
      ensures Consistent(disks[i + 1])
    {
      StepRefines(disks[i], ops[i], disks[i + 1]);
    }
    Throughout(seq(|disks|, i requires 0 <= i < |disks| => Consistent(disks[i])), n);
  }

  // In every state of every run no sector belongs to two files and the free map marks exactly the
  // sectors that belong to one, and the run is one of the map machine.
  ghost predicate Refined(disk: Image, op: Op, disk': Image) {
    Consistent(disk) && Consistent(disk') && FilesStep(Files(disk), op, Files(disk'))
  }

  lemma RunRefines(disks: seq<Image>, ops: seq<Op>, n: nat)
    requires Run(disks, ops) && Consistent(disks[0]) && n <= |ops|
    ensures Consistent(disks[n])
    ensures forall i | 0 <= i < n :: Refined(disks[i], ops[i], disks[i + 1])
  {
    ConsistentThroughout(disks, ops, n);
    forall i | 0 <= i < n
      ensures Refined(disks[i], ops[i], disks[i + 1])
    {
      ConsistentThroughout(disks, ops, i);
      StepRefines(disks[i], ops[i], disks[i + 1]);
    }
  }

  // A file keeps its header as long as it is not removed.
  lemma StepKeepsInode(disk: Image, op: Op, disk': Image, key: seq<byte>)
    requires Consistent(disk) && DiskStep(disk, op, disk')
    requires IndexOf(Entries(disk), key) != -1 && op != Remove(key)
    ensures Formatted(disk') && IndexOf(Entries(disk'), key) != -1
    ensures InodeFor(disk', key) == InodeFor(disk, key)
  {
    match op {
      case Create(k, size) =>
        if CanCreate(disk, k, size) {
          var h, inode :| CreateStep(disk, disk', k, size, h, inode);
          CreateKeepsInode(View(disk), View(disk'), k, h, inode, key);
        }
      case Remove(k) =>
        FileAt(disk, View(disk), k);
        if k in Files(disk) {
          RemoveKeepsInode(View(disk), View(disk'), k, key);
        }
      case Write(k, position, bytes) => WriteKeepsView(disk, disk', k, position, bytes);
    }
  }

  lemma WriteKeepsView(disk: Image, disk': Image, k: seq<byte>, position: nat, bytes: seq<byte>)
    requires Consistent(disk) && WriteCall(disk, disk', k, position, bytes)
    ensures Formatted(disk') && View(disk') == View(disk)
  {
    WriteFound(disk, k);
    WriteKeeps(disk, disk', IndexOf(Entries(disk), k) + 2, position, bytes);
  }

  lemma CreateKeepsInode(v: Layout, v': Layout, k: seq<byte>, h: nat, inode: Inode, key: seq<byte>)
    requires v.Shaped() && Created(v, v', k, h, inode) && IndexOf(v.table, key) != -1
    ensures IndexOf(v'.table, key) == IndexOf(v.table, key) && InodeOf(v', key) == InodeOf(v, key)
  {
    IndexAfterAdd(v.table, v'.table, FreeIndex(v.table), k, h, key);
    IndexMeans(v.table, NUM_DIR_ENTRIES, key);
  }

  lemma RemoveKeepsInode(v: Layout, v': Layout, k: seq<byte>, key: seq<byte>)
    requires v.Shaped() && v.NamesDiffer() && Removed(v, v', k) && IndexOf(v.table, key) != -1 && k != key
    ensures IndexOf(v'.table, key) == IndexOf(v.table, key) && InodeOf(v', key) == InodeOf(v, key)
  {
    IndexAfterRemove(v, v'.table, k, key);
    IndexMeans(v.table, NUM_DIR_ENTRIES, k);
    IndexMeans(v.table, NUM_DIR_ENTRIES, key);
  }

  // So a handle that was opened in some state still reads what the map machine has for its name,
  // whatever was created, removed or written in between, unless its own file was removed.
  lemma {:induction false} HandleStaysGood(disks: seq<Image>, ops: seq<Op>, key: seq<byte>, n: nat)
    requires Run(disks, ops) && Consistent(disks[0]) && n <= |ops|
    requires key in Files(disks[0]) && forall i | 0 <= i < n :: ops[i] != Remove(key)
    ensures Consistent(disks[n]) && InodeFor(disks[n], key) == InodeFor(disks[0], key)
    ensures key in Files(disks[n]) && InodeFor(disks[0], key).Sound()
    ensures Files(disks[n])[key] == Content(disks[n], InodeFor(disks[0], key))
  {
    if n == 0 {
      FileAt(disks[0], View(disks[0]), key);
    } else {
      HandleStaysGood(disks, ops, key, n - 1);
      FileAt(disks[n - 1], View(disks[n - 1]), key);
      StepRefines(disks[n - 1], ops[n - 1], disks[n]);
      StepKeepsInode(disks[n - 1], ops[n - 1], disks[n], key);
    }
    NamedFile(disks[n], key);
  }

  lemma NamedFile(disk: Image, key: seq<byte>)
    requires Consistent(disk) && IndexOf(Entries(disk), key) != -1
    ensures key in Files(disk) && InodeFor(disk, key).Sound() && Files(disk)[key] == Content(disk, InodeFor(disk, key))
  {
    FileAt(disk, View(disk), key);
    EntryInRange(View(disk), key);
  }

  // Create followed by Remove restores the free map and the files.
  lemma CreateRemoveRestores(disk: Image, disk': Image, disk'': Image, key: seq<byte>, size: nat)
    requires Consistent(disk) && CanCreate(disk, key, size)
    requires DiskStep(disk, Create(key, size), disk') && DiskStep(disk', Remove(key), disk'')
    ensures Consistent(disk'') && FreeMap(disk'') == FreeMap(disk) && Files(disk'') == Files(disk)
  {
    var h, inode :| CreateStep(disk, disk', key, size, h, inode);
    CreateKeeps(disk, disk', key, size, h, inode);
    RemoveKeeps(disk', disk'', key);
    CreateThenRemove(View(disk), View(disk'), View(disk''), key, h, inode);
    AddedThenRemoved(Files(disk), key, Content(disk, inode));
  }

  lemma AddedThenRemoved(files: map<seq<byte>, seq<byte>>, key: seq<byte>, content: seq<byte>)
    requires key !in files
    ensures files[key := content] - {key} == files
  {
  }
}
