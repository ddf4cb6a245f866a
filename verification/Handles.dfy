// Open files in use while others create, remove and write files.
module Handles {
  import opened Basics
  import opened Bytes
  import opened SynchDisk
  import opened FileHeader
  import opened OpenFile
  import opened Directory
  import opened Layout
  import opened DiskView
  import opened FileSystem
  import opened Refinement

  // The file is open under its name.
  ghost predicate Opened(file: OpenFile, key: seq<byte>)
    reads file.disk, file.hdr
  {
    && file.hdr.Value().Sound()
    && Formatted(file.disk.sectors) && IndexOf(Entries(file.disk.sectors), key) != -1
    && file.hdr.Value() == InodeFor(file.disk.sectors, key)
  }

  // What WriteAt does is a step of the file system.
  lemma WrittenIsStep(disk: Image, disk': Image, key: seq<byte>, position: nat, bytes: seq<byte>)
    requires Consistent(disk) && IndexOf(Entries(disk), key) != -1 && InodeFor(disk, key).Sound()
    requires position + |bytes| <= InodeFor(disk, key).numBytes
    requires WriteStep(disk, disk', InodeFor(disk, key), position, bytes)
    ensures DiskStep(disk, Op.Write(key, position, bytes), disk')
    ensures Consistent(disk') && View(disk') == View(disk) && Entries(disk') == Entries(disk)
    ensures InodeFor(disk', key) == InodeFor(disk, key)
  {
    StepRefines(disk, Op.Write(key, position, bytes), disk');
    WriteKeepsView(disk, disk', key, position, bytes);
    assert View(disk').table == View(disk).table;
  }

  // Writing to it is a step of the file system and keeps the file open.
  method Write(file: OpenFile, ghost key: seq<byte>, from: seq<byte>, numBytes: int, position: nat)
    returns (count: nat)
    requires Consistent(file.disk.sectors) && Opened(file, key)
    requires Clip(file.hdr.numBytes, numBytes, position) <= |from|
    modifies file.disk
    ensures Consistent(file.disk.sectors) && View(file.disk.sectors) == View(old(file.disk.sectors))
    ensures Opened(file, key) && count == Clip(file.hdr.numBytes, numBytes, position)
    ensures Clipped(file.hdr.numBytes, numBytes, position, count)
    ensures if count == 0 then file.disk.sectors == old(file.disk.sectors)
            else DiskStep(old(file.disk.sectors), Op.Write(key, position, from[..count]), file.disk.sectors)
  {
    ghost var disk := file.disk.sectors;
    count := file.WriteAt(from, numBytes, position);
    if count > 0 {
      WrittenIsStep(disk, file.disk.sectors, key, position, from[..count]);
    }
  }

  // So the file system stays as it should be.
  method WriteIn(fs: FileSystem, file: OpenFile, ghost key: seq<byte>, from: seq<byte>, numBytes: int, position: nat)
    returns (count: nat)
    requires fs.Valid() && file.disk == fs.disk && Opened(file, key)
    requires Clip(file.hdr.numBytes, numBytes, position) <= |from|
    modifies fs.disk
    ensures fs.Valid() && Opened(file, key) && count == Clip(file.hdr.numBytes, numBytes, position)
  {
    count := Write(file, key, from, numBytes, position);
  }

  // Reading from it delivers what the file map has for its name.
  method Read(file: OpenFile, ghost key: seq<byte>, numBytes: int, position: nat) returns (into: seq<byte>)
    requires Consistent(file.disk.sectors) && Opened(file, key)
    ensures key in Files(file.disk.sectors)
    ensures var content := Files(file.disk.sectors)[key];
            && into == Fetched(content, position, Clip(|content|, numBytes, position))
            && Clipped(|content|, numBytes, position, |into|)
  {
    NamedFile(file.disk.sectors, key);
    into := file.ReadAt(numBytes, position);
  }

  // A step that neither removes the file nor writes to the given part of it
  predicate Spares(op: Op, key: seq<byte>, position: nat, n: nat) {
    match op
    case Create(_, _) => true
    case Remove(k) => k != key
    case Write(k, at, bytes) => k != key || at + |bytes| <= position || position + n <= at
  }

  lemma SparedStep(files: map<seq<byte>, seq<byte>>, op: Op, files': map<seq<byte>, seq<byte>>, key: seq<byte>,
                   position: nat, n: nat)
    requires FilesStep(files, op, files') && Spares(op, key, position, n)
    requires key in files && position + n <= |files[key]|
    ensures key in files' && |files'[key]| == |files[key]|
    ensures files'[key][position..position + n] == files[key][position..position + n]
  {
  }

  ghost predicate Has(files: map<seq<byte>, seq<byte>>, key: seq<byte>, position: nat, bytes: seq<byte>) {
    && key in files && position + |bytes| <= |files[key]|
    && files[key][position..position + |bytes|] == bytes
  }

  lemma {:induction false} StaysInFiles(files: seq<map<seq<byte>, seq<byte>>>, ops: seq<Op>, key: seq<byte>,
                                        position: nat, bytes: seq<byte>, n: nat)
    requires 1 <= n <= |ops| < |files| && ops[0] == Op.Write(key, position, bytes)
    requires forall i | 0 <= i < n :: FilesStep(files[i], ops[i], files[i + 1])
    requires forall i | 1 <= i < n :: Spares(ops[i], key, position, |bytes|)
    ensures Has(files[n], key, position, bytes)
  {
    assert FilesStep(files[n - 1], ops[n - 1], files[n - 1 + 1]);
    if n > 1 {
      StaysInFiles(files, ops, key, position, bytes, n - 1);
      SparedStep(files[n - 1], ops[n - 1], files[n], key, position, |bytes|);
    }
  }

  ghost function FilesOf(disk: Image): map<seq<byte>, seq<byte>> {
    if Formatted(disk) then Files(disk) else map[]
  }

  lemma StepOfFiles(disks: seq<Image>, ops: seq<Op>, i: nat)
    requires Run(disks, ops) && Consistent(disks[0]) && i < |ops|
    ensures FilesStep(FilesOf(disks[i]), ops[i], FilesOf(disks[i + 1]))
  {
    ConsistentThroughout(disks, ops, i);
    StepRefines(disks[i], ops[i], disks[i + 1]);
  }

  lemma StepsOfFiles(disks: seq<Image>, ops: seq<Op>)
    requires Run(disks, ops) && Consistent(disks[0])
    ensures forall i | 0 <= i < |ops| :: FilesStep(FilesOf(disks[i]), ops[i], FilesOf(disks[i + 1]))
  {
    forall i | 0 <= i < |ops| {
      StepOfFiles(disks, ops, i);
    }
  }

  // The run of the map machine that a run on the disk is
  lemma RunOfFiles(disks: seq<Image>, ops: seq<Op>) returns (files: seq<map<seq<byte>, seq<byte>>>)
    requires |disks| == |ops| + 1
    requires forall i | 0 <= i < |ops| :: FilesStep(FilesOf(disks[i]), ops[i], FilesOf(disks[i + 1]))
    ensures |files| == |disks| && forall i | 0 <= i < |disks| :: files[i] == FilesOf(disks[i])
    ensures forall i | 0 <= i < |ops| :: FilesStep(files[i], ops[i], files[i + 1])
  {
    files := seq(|disks|, i requires 0 <= i < |disks| => FilesOf(disks[i]));
  }

  // Bytes that were written to a file are there, whatever is created, removed and written, until the
  // file is removed or they are overwritten.
  lemma WrittenStays(disks: seq<Image>, ops: seq<Op>, key: seq<byte>, position: nat, bytes: seq<byte>, n: nat)
    requires Run(disks, ops) && Consistent(disks[0]) && 1 <= n <= |ops| && ops[0] == Op.Write(key, position, bytes)
    requires forall i | 1 <= i < n :: Spares(ops[i], key, position, |bytes|)
    ensures Consistent(disks[n]) && Has(Files(disks[n]), key, position, bytes)
  {
    StepsOfFiles(disks, ops);
    var files := RunOfFiles(disks, ops);
    ConsistentThroughout(disks, ops, n);
    StaysInFiles(files, ops, key, position, bytes, n);
  }

  lemma WrittenFile(disk: Image, key: seq<byte>, position: nat, bytes: seq<byte>, disk': Image)
    requires Consistent(disk) && DiskStep(disk, Op.Write(key, position, bytes), disk')
    ensures key in Files(disk) && IndexOf(Entries(disk), key) != -1
    ensures InodeFor(disk, key).Sound() && position + |bytes| <= InodeFor(disk, key).numBytes
  {
    NamedFile(disk, key);
  }

  // So ReadAt through a handle that was open all the time returns them.
  lemma ReadBack(disks: seq<Image>, ops: seq<Op>, key: seq<byte>, position: nat, bytes: seq<byte>, n: nat)
    requires Run(disks, ops) && Consistent(disks[0]) && 1 <= n <= |ops| && ops[0] == Op.Write(key, position, bytes)
    requires forall i | 1 <= i < n :: Spares(ops[i], key, position, |bytes|)
    ensures IndexOf(Entries(disks[0]), key) != -1 && InodeFor(disks[0], key).Sound()
    ensures position + |bytes| <= InodeFor(disks[0], key).numBytes
    ensures Fetched(Content(disks[n], InodeFor(disks[0], key)), position, |bytes|) == bytes
  {
    WrittenFile(disks[0], key, position, bytes, disks[0 + 1]);
    assert forall i | 0 <= i < n :: ops[i] != Op.Remove(key);
    HandleStaysGood(disks, ops, key, n);
    WrittenStays(disks, ops, key, position, bytes, n);
  }
}
