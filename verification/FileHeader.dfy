// filesys/filehdr.cc: the header of a file, one sector holding the file's length and the
// table of its data sectors.
module FileHeader {
  import opened Bytes
  import opened SynchDisk
  import opened BitMap

  const NUM_DIRECT := 30
  const MAX_FILE_SIZE := NUM_DIRECT * SECTOR_SIZE

  // What a header says, whether on a sector or in an object.
  type Table = t: seq<int32> | |t| == NUM_DIRECT witness seq(NUM_DIRECT, _ => 0)

  datatype Inode = Inode(numBytes: int32, numSectors: int32, dataSectors: Table) {
    // What Allocate sets up: enough distinct sectors of the disk for the file's bytes.
    ghost predicate Sound() {
      && 0 <= numBytes <= MAX_FILE_SIZE
      && numBytes <= numSectors * SECTOR_SIZE < numBytes + SECTOR_SIZE
      && OnDisk(dataSectors[..numSectors])
      && Distinct(dataSectors[..numSectors])
    }

    ghost function Data(): seq<int32> {
      if 0 <= numSectors <= NUM_DIRECT then dataSectors[..numSectors] else []
    }
  }

  function Encode(inode: Inode): Sector
  {
    IntsBytes([inode.numBytes, inode.numSectors] + inode.dataSectors)
  }

  function Decode(s: Sector): Inode
  {
    var fields := BytesInts(s, NUM_DIRECT + 2);
    Inode(fields[0], fields[1], fields[2..])
  }

  lemma HeaderRoundTrip(inode: Inode)
    ensures Decode(Encode(inode)) == inode
  {
    IntsRoundTrip([inode.numBytes, inode.numSectors] + inode.dataSectors);
  }

  ghost predicate OnDisk(sectors: seq<int32>) {
    forall i | 0 <= i < |sectors| :: 0 <= sectors[i] < NUM_SECTORS
  }

  ghost predicate Distinct(sectors: seq<int32>) {
    sectors != [] ==> sectors[|sectors| - 1] !in sectors[..|sectors| - 1] && Distinct(sectors[..|sectors| - 1])
  }

  ghost predicate Apart(a: seq<int32>, b: seq<int32>) {
    forall i, j | 0 <= i < |a| && 0 <= j < |b| :: a[i] != b[j]
  }

  lemma {:induction false} DistinctSplit(a: seq<int32>, b: seq<int32>)
    requires Distinct(a + b)
    ensures Distinct(a) && Distinct(b) && Apart(a, b)
  {
    if b == [] {
      assert a + b == a;
    } else {
      var n := |b| - 1;
      var prefix := (a + b)[..|a| + n];
      assert prefix == a + b[..n];
      DistinctSplit(a, b[..n]);
      assert forall i | 0 <= i < |a| :: prefix[i] == a[i];
      assert forall i | 0 <= i < n :: prefix[|a| + i] == b[..n][i] == b[i];
    }
  }

  lemma {:induction false} DistinctAt(xs: seq<int32>, i: nat)
    requires Distinct(xs) && i < |xs|
    ensures xs[i] !in xs[..i]
  {
    var n := |xs| - 1;
    if i < n {
      DistinctAt(xs[..n], i);
      assert xs[..n][..i] == xs[..i];
    }
  }

  // What the listed sectors hold, one after the other.
  ghost function Gather(disk: Image, sectors: seq<int32>): (bytes: seq<byte>)
    requires OnDisk(sectors)
    ensures |bytes| == |sectors| * SECTOR_SIZE
  {
    if sectors == [] then []
    else Gather(disk, sectors[..|sectors| - 1]) + disk[sectors[|sectors| - 1]]
  }

  // The disk after the bytes of a buffer have been stored over the listed sectors, in order.
  ghost function Scatter(disk: Image, sectors: seq<int32>, bytes: seq<byte>): (disk': Image)
    requires OnDisk(sectors) && |bytes| == |sectors| * SECTOR_SIZE
  {
    if sectors == [] then disk
    else
      var n := |sectors| - 1;
      Scatter(disk, sectors[..n], bytes[..n * SECTOR_SIZE])[sectors[n] := bytes[n * SECTOR_SIZE..]]
  }

  // Both grow with the run of sectors they range over.
  lemma RunStep(disk: Image, data: seq<int32>, first: nat, i: nat)
    requires OnDisk(data) && first <= i < |data|
    ensures Gather(disk, data[first..i + 1]) == Gather(disk, data[first..i]) + disk[data[i]]
  {
    assert data[first..i + 1][..i - first] == data[first..i];
  }

  lemma ScatterStep(disk: Image, data: seq<int32>, first: nat, i: nat, bytes: seq<byte>)
    requires OnDisk(data) && first <= i < |data| && (i + 1 - first) * SECTOR_SIZE <= |bytes|
    ensures Scatter(disk, data[first..i + 1], bytes[..(i + 1 - first) * SECTOR_SIZE])
         == Scatter(disk, data[first..i], bytes[..(i - first) * SECTOR_SIZE])
                   [data[i] := bytes[(i - first) * SECTOR_SIZE..(i + 1 - first) * SECTOR_SIZE]]
  {
    var at, run := (i - first) * SECTOR_SIZE, data[first..i + 1];
    assert run[..i - first] == data[first..i];
    assert bytes[..at + SECTOR_SIZE][..at] == bytes[..at] &&
           bytes[..at + SECTOR_SIZE][at..] == bytes[at..at + SECTOR_SIZE];
  }

  lemma {:induction false} GatherAppend(disk: Image, a: seq<int32>, b: seq<int32>)
    requires OnDisk(a) && OnDisk(b)
    ensures Gather(disk, a + b) == Gather(disk, a) + Gather(disk, b)
  {
    if b == [] {
      assert a + b == a;
    } else {
      var n := |b| - 1;
      assert (a + b)[..|a| + n] == a + b[..n];
      GatherAppend(disk, a, b[..n]);
    }
  }

  lemma {:induction false} GatherFrame(disk: Image, disk': Image, sectors: seq<int32>)
    requires OnDisk(sectors)
    requires forall s | s in sectors :: disk'[s] == disk[s]
    ensures Gather(disk', sectors) == Gather(disk, sectors)
  {
    if sectors != [] {
      GatherFrame(disk, disk', sectors[..|sectors| - 1]);
    }
  }

  lemma {:induction false} ScatterFrame(disk: Image, sectors: seq<int32>, bytes: seq<byte>, s: nat)
    requires OnDisk(sectors) && |bytes| == |sectors| * SECTOR_SIZE
    requires s < NUM_SECTORS && s !in sectors
    ensures Scatter(disk, sectors, bytes)[s] == disk[s]
  {
    if sectors != [] {
      var n := |sectors| - 1;
      ScatterFrame(disk, sectors[..n], bytes[..n * SECTOR_SIZE], s);
    }
  }

  // Storing over distinct sectors and reading them back returns what was stored.
  lemma {:induction false} GatherScatter(disk: Image, sectors: seq<int32>, bytes: seq<byte>)
    requires OnDisk(sectors) && Distinct(sectors) && |bytes| == |sectors| * SECTOR_SIZE
    ensures Gather(Scatter(disk, sectors, bytes), sectors) == bytes
  {
    if sectors != [] {
      var n := |sectors| - 1;
      var before := Scatter(disk, sectors[..n], bytes[..n * SECTOR_SIZE]);
      GatherScatter(disk, sectors[..n], bytes[..n * SECTOR_SIZE]);
      GatherFrame(before, Scatter(disk, sectors, bytes), sectors[..n]);
    }
  }

  // The logical content of a file: what its data sectors hold, up to its length.
  ghost function Content(disk: Image, inode: Inode): (bytes: seq<byte>)
    requires inode.Sound()
    ensures |bytes| == inode.numBytes
  {
    Gather(disk, inode.Data())[..inode.numBytes]
  }

  // The sector that ByteToSector names holds the byte at the offset.
  lemma {:induction false} GatherAt(disk: Image, sectors: seq<int32>, k: nat)
    requires OnDisk(sectors) && k < |sectors| * SECTOR_SIZE
    ensures Gather(disk, sectors)[k] == disk[sectors[k / SECTOR_SIZE]][k % SECTOR_SIZE]
  {
    var n := |sectors| - 1;
    if k < n * SECTOR_SIZE {
      GatherAt(disk, sectors[..n], k);
    }
  }

  lemma ByteInSector(disk: Image, inode: Inode, offset: nat)
    requires inode.Sound() && offset < inode.numBytes
    ensures 0 <= inode.dataSectors[offset / SECTOR_SIZE] < NUM_SECTORS
    ensures Content(disk, inode)[offset] == disk[inode.dataSectors[offset / SECTOR_SIZE]][offset % SECTOR_SIZE]
  {
    GatherAt(disk, inode.Data(), offset);
  }

  // Content depends on nothing but the file's own data sectors.
  lemma ContentFrame(disk: Image, disk': Image, inode: Inode)
    requires inode.Sound()
    requires forall s | s in inode.Data() :: disk[s] == disk'[s]
    ensures Content(disk, inode) == Content(disk', inode)
  {
    GatherFrame(disk, disk', inode.Data());
  }

  // The bits after those of xs have been set, and whether first-fit allocation takes xs, in
  // that order, from the clear bits.
  ghost function Taken(bits: seq<bool>, xs: seq<int32>): (after: seq<bool>)
    requires |bits| == NUM_SECTORS && OnDisk(xs)
    ensures |after| == |bits|
  {
    if xs == [] then bits
    else Taken(bits, xs[..|xs| - 1])[xs[|xs| - 1] := true]
  }

  ghost predicate FirstFit(bits: seq<bool>, xs: seq<int32>)
    requires |bits| == NUM_SECTORS && OnDisk(xs)
  {
    xs != [] ==>
      && FirstFit(bits, xs[..|xs| - 1])
      && FirstClear(Taken(bits, xs[..|xs| - 1]), xs[|xs| - 1])
  }

  lemma {:induction false} TakenBits(bits: seq<bool>, xs: seq<int32>, i: nat)
    requires |bits| == NUM_SECTORS && OnDisk(xs) && i < NUM_SECTORS
    ensures Taken(bits, xs)[i] == (bits[i] || i in xs)
  {
    if xs != [] {
      TakenBits(bits, xs[..|xs| - 1], i);
      assert xs == xs[..|xs| - 1] + [xs[|xs| - 1]];
    }
  }

  // First fit takes distinct sectors, all of them free before.
  lemma {:induction false} FirstFitFresh(bits: seq<bool>, xs: seq<int32>)
    requires |bits| == NUM_SECTORS && OnDisk(xs) && FirstFit(bits, xs)
    ensures Distinct(xs) && forall x | x in xs :: !bits[x]
  {
    if xs != [] {
      var n := |xs| - 1;
      FirstFitFresh(bits, xs[..n]);
      TakenBits(bits, xs[..n], xs[n]);
      assert forall j | 0 <= j < n :: xs[..n][j] == xs[j];
    }
  }

  // It takes the lowest of the free ones, in ascending order.
  lemma {:induction false} LowestFirst(bits: seq<bool>, xs: seq<int32>, i: nat, b: nat)
    requires |bits| == NUM_SECTORS && OnDisk(xs) && FirstFit(bits, xs)
    requires i < |xs| && b < xs[i] && !bits[b]
    ensures b in xs[..i]
  {
    var n := |xs| - 1;
    if i < n {
      LowestFirst(bits, xs[..n], i, b);
      assert xs[..n][..i] == xs[..i];
    } else {
      TakenBits(bits, xs[..n], b);
    }
  }

  lemma FirstFitAscending(bits: seq<bool>, xs: seq<int32>, i: nat, j: nat)
    requires |bits| == NUM_SECTORS && OnDisk(xs) && FirstFit(bits, xs) && i < j < |xs|
    ensures xs[i] < xs[j]
  {
    FirstFitFresh(bits, xs);
    DistinctAt(xs, j);
    assert xs[..j][i] == xs[i];
    if xs[j] < xs[i] {
      LowestFirst(bits, xs, i, xs[j]);
    }
  }

  lemma FirstFitStep(bits: seq<bool>, xs: seq<int32>, x: int32)
    requires |bits| == NUM_SECTORS && OnDisk(xs) && FirstFit(bits, xs)
    requires 0 <= x && FirstClear(Taken(bits, xs), x)
    ensures OnDisk(xs + [x]) && FirstFit(bits, xs + [x])
    ensures Taken(bits, xs + [x]) == Taken(bits, xs)[x := true]
    ensures CountClear(Taken(bits, xs + [x])) == CountClear(Taken(bits, xs)) - 1
  {
    assert (xs + [x])[..|xs|] == xs;
    CountClearUpdate(Taken(bits, xs), x, true);
  }

  // The bits after those of xs have been cleared.
  ghost function Freed(bits: seq<bool>, xs: seq<int32>): (after: seq<bool>)
    requires |bits| == NUM_SECTORS && OnDisk(xs)
    ensures |after| == |bits|
  {
    if xs == [] then bits
    else Freed(bits, xs[..|xs| - 1])[xs[|xs| - 1] := false]
  }

  lemma {:induction false} FreedBits(bits: seq<bool>, xs: seq<int32>, i: nat)
    requires |bits| == NUM_SECTORS && OnDisk(xs) && i < NUM_SECTORS
    ensures Freed(bits, xs)[i] == (bits[i] && i !in xs)
  {
    if xs != [] {
      FreedBits(bits, xs[..|xs| - 1], i);
      assert xs == xs[..|xs| - 1] + [xs[|xs| - 1]];
    }
  }

  lemma SectorsNeeded(fileSize: nat)
    requires fileSize <= MAX_FILE_SIZE
    ensures var n := DivRoundUp(fileSize, SECTOR_SIZE);
            n <= NUM_DIRECT && fileSize <= n * SECTOR_SIZE < fileSize + SECTOR_SIZE
  {
  }

  lemma PrefixAfterUpdate(table: Table, i: nat, sector: int32)
    requires i < NUM_DIRECT
    ensures table[i := sector][..i + 1] == table[..i] + [sector]
  {
  }

  class FileHeader {
    var numBytes: int32
    var numSectors: int32
    var dataSectors: Table

    // A new header is not initialised; it holds whatever was in memory.
    constructor () {
    }

    function Value(): Inode
      reads this
    {
      Inode(numBytes, numSectors, dataSectors)
    }

    method Allocate(freeMap: BitMap, fileSize: int32) returns (ok: bool)
      requires freeMap.Valid() && freeMap.numBits == NUM_SECTORS
      requires 0 <= fileSize <= MAX_FILE_SIZE
      modifies this, freeMap.storage
      ensures ok <==> DivRoundUp(fileSize, SECTOR_SIZE) <= CountClear(old(freeMap.Bits()))
      ensures !ok ==> freeMap.Bits() == old(freeMap.Bits())
      ensures ok ==> Value().Sound() && numBytes == fileSize
      ensures ok ==> FirstFit(old(freeMap.Bits()), Value().Data())
      ensures ok ==> freeMap.Bits() == Taken(old(freeMap.Bits()), Value().Data())
    {
      numBytes := fileSize;
      numSectors := DivRoundUp(fileSize, SECTOR_SIZE);
      SectorsNeeded(fileSize);
      ghost var needed := DivRoundUp(fileSize, SECTOR_SIZE);
      var available := freeMap.NumClear();
      if available < numSectors {
        return false;
      }
      ghost var bits := freeMap.Bits();
      for i := 0 to numSectors
        invariant numBytes == fileSize && numSectors == needed
        invariant CountClear(freeMap.Bits()) + i == available
        invariant OnDisk(dataSectors[..i])
        invariant FirstFit(bits, dataSectors[..i]) && freeMap.Bits() == Taken(bits, dataSectors[..i])
      {
        AllocateOne(freeMap, i, bits);
      }
      FirstFitFresh(bits, dataSectors[..numSectors]);
      return true;
    }

    // The next data sector, where there is a clear one
    method AllocateOne(freeMap: BitMap, i: nat, ghost bits: seq<bool>)
      requires freeMap.Valid() && freeMap.numBits == NUM_SECTORS && CountClear(freeMap.Bits()) > 0
      requires i < NUM_DIRECT && |bits| == NUM_SECTORS && OnDisk(dataSectors[..i])
      requires FirstFit(bits, dataSectors[..i]) && freeMap.Bits() == Taken(bits, dataSectors[..i])
      modifies this`dataSectors, freeMap.storage
      ensures OnDisk(dataSectors[..i + 1]) && FirstFit(bits, dataSectors[..i + 1])
      ensures freeMap.Bits() == Taken(bits, dataSectors[..i + 1])
      ensures CountClear(freeMap.Bits()) == CountClear(old(freeMap.Bits())) - 1
    {
      var sector := freeMap.Find();
      FirstFitStep(bits, dataSectors[..i], sector);
      PrefixAfterUpdate(dataSectors, i, sector);
      dataSectors := dataSectors[i := sector];
    }

    method Deallocate(freeMap: BitMap)
      requires freeMap.Valid() && freeMap.numBits == NUM_SECTORS
      requires Value().Sound() && forall s | s in Value().Data() :: freeMap.Bits()[s]
      modifies freeMap.storage
      ensures freeMap.Bits() == Freed(old(freeMap.Bits()), Value().Data())
    {
      ghost var bits, data := freeMap.Bits(), Value().Data();
      for i := 0 to numSectors
        invariant freeMap.Bits() == Freed(bits, data[..i])
      {
        DistinctAt(data, i);
        FreedBits(bits, data[..i], data[i]);
        var marked := freeMap.Test(dataSectors[i]);
        assert marked; // what the ASSERT asks for
        freeMap.Clear(dataSectors[i]);
        assert data[..i + 1] == data[..i] + [data[i]];
      }
      assert data[..numSectors] == data;
    }

    method FetchFrom(disk: SynchDisk, sector: int)
      requires 0 <= sector < NUM_SECTORS
      modifies this
      ensures Value() == Decode(disk.sectors[sector])
    {
      var raw := disk.ReadSector(sector);
      var inode := Decode(raw);
      numBytes, numSectors, dataSectors := inode.numBytes, inode.numSectors, inode.dataSectors;
    }

    method WriteBack(disk: SynchDisk, sector: int)
      requires 0 <= sector < NUM_SECTORS
      modifies disk
      ensures disk.sectors == old(disk.sectors)[sector := Encode(Value())]
    {
      disk.WriteSector(sector, Encode(Value()));
    }

    method ByteToSector(offset: int) returns (sector: int)
      requires 0 <= offset < MAX_FILE_SIZE
      ensures sector == Value().dataSectors[offset / SECTOR_SIZE]
    {
      sector := dataSectors[offset / SECTOR_SIZE];
    }

    method FileLength() returns (length: int)
      ensures length == Value().numBytes
    {
      length := numBytes;
    }
  }
}
