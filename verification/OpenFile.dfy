// filesys/openfile.cc: byte-granular reading and writing of an open file on top of whole
// sectors.
module OpenFile {
  import opened Bytes
  import opened SynchDisk
  import opened FileHeader

  // How many of the requested bytes lie inside the file.
  function Clip(length: nat, numBytes: int, position: nat): nat {
    if numBytes <= 0 || position >= length then 0
    else if position + numBytes > length then length - position
    else numBytes
  }

  // What that means: nothing for an empty request or from the end on, else all that is asked for or
  // all that there is.
  ghost predicate Clipped(length: int, numBytes: int, position: nat, count: nat) {
    if numBytes <= 0 || position >= length then count == 0
    else count <= numBytes && position + count <= length && (count == numBytes || position + count == length)
  }

  // The bytes that a read of count bytes delivers; a read that starts past the end delivers none.
  function Fetched(content: seq<byte>, position: nat, count: nat): (r: seq<byte>)
    requires count == 0 || position + count <= |content|
    ensures |r| == count
  {
    if count == 0 then [] else content[position..position + count]
  }

  // A stretch of the file that lies within a run of its sectors is a stretch of what the run
  // holds.
  lemma ContentInRun(disk: Image, inode: Inode, first: nat, last: nat, position: nat, n: nat)
    requires inode.Sound() && first <= last <= inode.numSectors && n > 0
    requires first * SECTOR_SIZE <= position
    requires position + n <= inode.numBytes && position + n <= last * SECTOR_SIZE
    ensures Gather(disk, inode.Data()[first..last])[position - first * SECTOR_SIZE..position - first * SECTOR_SIZE + n]
         == Fetched(Content(disk, inode), position, n)
  {
    RunInFile(disk, inode.Data(), inode.numBytes, first, last, position, n);
  }

  lemma RunInFile(disk: Image, data: seq<int32>, length: nat, first: nat, last: nat, position: nat, n: nat)
    requires OnDisk(data) && first <= last <= |data| && first * SECTOR_SIZE <= position
    requires position + n <= length <= |data| * SECTOR_SIZE && position + n <= last * SECTOR_SIZE
    ensures Gather(disk, data[first..last])[position - first * SECTOR_SIZE..position - first * SECTOR_SIZE + n]
         == Gather(disk, data)[..length][position..position + n]
  {
    Pieces(data, first, last);
    GatheredMiddle(disk, data[..first], data[first..last], data[last..], length, position, n);
  }

  lemma Pieces(data: seq<int32>, first: nat, last: nat)
    requires first <= last <= |data|
    ensures data == data[..first] + data[first..last] + data[last..]
  {
  }

  lemma GatheredMiddle(disk: Image, a: seq<int32>, b: seq<int32>, c: seq<int32>, length: nat, position: nat, n: nat)
    requires OnDisk(a) && OnDisk(b) && OnDisk(c) && |a| * SECTOR_SIZE <= position
    requires position + n <= length <= |a + b + c| * SECTOR_SIZE && position + n <= (|a| + |b|) * SECTOR_SIZE
    ensures Gather(disk, b)[position - |a| * SECTOR_SIZE..position - |a| * SECTOR_SIZE + n]
         == Gather(disk, a + b + c)[..length][position..position + n]
  {
    SplitGather(disk, a, b, c);
    Middle(Gather(disk, a), Gather(disk, b), Gather(disk, c), length, position, n);
  }

  lemma Middle(a: seq<byte>, b: seq<byte>, c: seq<byte>, length: nat, position: nat, n: nat)
    requires |a| <= position && position + n <= length <= |a + b + c| && position + n <= |a| + |b|
    ensures b[position - |a|..position - |a| + n] == (a + b + c)[..length][position..position + n]
  {
  }

  lemma SplitGather(disk: Image, a: seq<int32>, b: seq<int32>, c: seq<int32>)
    requires OnDisk(a) && OnDisk(b) && OnDisk(c)
    ensures Gather(disk, a + b + c) == Gather(disk, a) + Gather(disk, b) + Gather(disk, c)
  {
    GatherAppend(disk, a + b, c);
    GatherAppend(disk, a, b);
  }

  // Storing a buffer over a run of the file's sectors overwrites exactly the bytes the caller
  // asked for, if the buffer holds them in the middle and the file's old bytes at its ends.
  lemma ContentWritten(disk: Image, inode: Inode, first: nat, last: nat, buf: seq<byte>, position: nat,
                       bytes: seq<byte>)
    requires inode.Sound() && first <= last <= inode.numSectors
    requires |buf| == (last - first) * SECTOR_SIZE && position + |bytes| <= inode.numBytes
    requires first * SECTOR_SIZE <= position && position + |bytes| <= last * SECTOR_SIZE
    requires Holds(buf, first * SECTOR_SIZE, Splice(Content(disk, inode), position, bytes))
    ensures Content(Scatter(disk, inode.Data()[first..last], buf), inode) ==
            Splice(Content(disk, inode), position, bytes)
  {
    var a, b, c := inode.Data()[..first], inode.Data()[first..last], inode.Data()[last..];
    Pieces(inode.Data(), first, last);
    RunStored(disk, a, b, c, buf);
    SplitGather(disk, a, b, c);
    MiddleReplaced(Gather(disk, a), Gather(disk, b), Gather(disk, c), buf, inode.numBytes, position, bytes);
  }

  lemma OutsideKept(disk: Image, inode: Inode, first: nat, last: nat, buf: seq<byte>)
    requires inode.Sound() && first <= last <= inode.numSectors && |buf| == (last - first) * SECTOR_SIZE
    ensures forall s | 0 <= s < NUM_SECTORS && s !in inode.Data() ::
              Scatter(disk, inode.Data()[first..last], buf)[s] == disk[s]
  {
    forall s | 0 <= s < NUM_SECTORS && s !in inode.Data()
      ensures Scatter(disk, inode.Data()[first..last], buf)[s] == disk[s]
    {
      ScatterFrame(disk, inode.Data()[first..last], buf, s);
    }
  }

  lemma RunStored(disk: Image, a: seq<int32>, b: seq<int32>, c: seq<int32>, buf: seq<byte>)
    requires OnDisk(a) && OnDisk(b) && OnDisk(c) && Distinct(a + b + c) && |buf| == |b| * SECTOR_SIZE
    ensures Gather(Scatter(disk, b, buf), a + b + c) == Gather(disk, a) + buf + Gather(disk, c)
  {
    DistinctSplit(a + b, c);
    DistinctSplit(a, b);
    OthersKept(disk, a, b, buf);
    SuffixApart(a, b, c);
    OthersKept(disk, c, b, buf);
    GatherScatter(disk, b, buf);
    SplitGather(Scatter(disk, b, buf), a, b, c);
  }

  lemma SuffixApart(a: seq<int32>, b: seq<int32>, c: seq<int32>)
    requires Apart(a + b, c)
    ensures Apart(c, b)
  {
    assert forall i | 0 <= i < |b| :: (a + b)[|a| + i] == b[i];
  }

  lemma OthersKept(disk: Image, a: seq<int32>, b: seq<int32>, buf: seq<byte>)
    requires OnDisk(a) && OnDisk(b) && Apart(a, b) && |buf| == |b| * SECTOR_SIZE
    ensures Gather(Scatter(disk, b, buf), a) == Gather(disk, a)
  {
    forall s | s in a
      ensures Scatter(disk, b, buf)[s] == disk[s]
    {
      ScatterFrame(disk, b, buf, s);
    }
    GatherFrame(disk, Scatter(disk, b, buf), a);
  }

  lemma MiddleReplaced(a: seq<byte>, b: seq<byte>, c: seq<byte>, buf: seq<byte>,
                       length: nat, position: nat, bytes: seq<byte>)
    requires |buf| == |b| && length <= |a + b + c|
    requires |a| <= position && position + |bytes| <= length && position + |bytes| <= |a| + |b|
    requires Holds(buf, |a|, Splice((a + b + c)[..length], position, bytes))
    ensures (a + buf + c)[..length] == Splice((a + b + c)[..length], position, bytes)
  {
    var got, want := (a + buf + c)[..length], Splice((a + b + c)[..length], position, bytes);
    forall k | 0 <= k < length
      ensures got[k] == want[k]
    {
      if |a| <= k < |a| + |b| {
        assert got[k] == buf[k - |a|];
      }
    }
  }

  // The buffer holds the file's bytes from base on, as far as the file reaches.
  ghost predicate Holds(buf: seq<byte>, base: nat, content: seq<byte>) {
    forall k {:trigger buf[k]} | 0 <= k < |buf| && base + k < |content| :: buf[k] == content[base + k]
  }

  ghost function SectorOf(content: seq<byte>, from: nat): (r: seq<byte>)
    requires from <= |content|
    ensures |r| <= SECTOR_SIZE
  {
    Fetched(content, from, Clip(|content|, SECTOR_SIZE, from))
  }

  // The buffer that WriteAt stores: a first sector that is not aligned is read, then a last sector
  // that is not, unless it is the first and has been read; then the caller's bytes are copied in.
  ghost function WithHead(buf: seq<byte>, content: seq<byte>, first: nat, position: nat): (r: seq<byte>)
    requires SECTOR_SIZE <= |buf| && first * SECTOR_SIZE <= |content|
    ensures |r| == |buf|
  {
    if position != first * SECTOR_SIZE then Splice(buf, 0, SectorOf(content, first * SECTOR_SIZE)) else buf
  }

  ghost function WithTail(buf: seq<byte>, content: seq<byte>, first: nat, last: nat, position: nat,
                          end: nat): (r: seq<byte>)
    requires first <= last && |buf| == (1 + last - first) * SECTOR_SIZE && last * SECTOR_SIZE <= |content|
    ensures |r| == |buf|
  {
    if end != (last + 1) * SECTOR_SIZE && (first != last || position == first * SECTOR_SIZE)
    then Splice(buf, (last - first) * SECTOR_SIZE, SectorOf(content, last * SECTOR_SIZE)) else buf
  }

  // It holds what the file is to hold, as far as the file reaches.
  lemma AssembledByte(ends: seq<byte>, buf: seq<byte>, content: seq<byte>, first: nat, last: nat, position: nat,
                      bytes: seq<byte>, k: nat)
    requires first <= last && |buf| == |ends| == (1 + last - first) * SECTOR_SIZE
    requires first * SECTOR_SIZE <= position < first * SECTOR_SIZE + SECTOR_SIZE
    requires last * SECTOR_SIZE < position + |bytes| <= last * SECTOR_SIZE + SECTOR_SIZE &&
             position + |bytes| <= |content|
    requires ends == WithTail(WithHead(buf, content, first, position), content, first, last, position,
             position + |bytes|)
    requires k < |buf| && first * SECTOR_SIZE + k < |content|
    ensures Splice(ends, position - first * SECTOR_SIZE, bytes)[k] ==
            Splice(content, position, bytes)[first * SECTOR_SIZE + k]
  {
    if first * SECTOR_SIZE + k < position || position + |bytes| <= first * SECTOR_SIZE + k {
      EndByte(ends, buf, content, first, last, position, position + |bytes|, k);
    }
    SplicedByte(ends, first * SECTOR_SIZE, content, position, bytes, k);
  }

  lemma EndByte(ends: seq<byte>, buf: seq<byte>, content: seq<byte>, first: nat, last: nat, position: nat, end: nat,
                k: nat)
    requires first <= last && |buf| == |ends| == (1 + last - first) * SECTOR_SIZE && k < |ends| &&
             first * SECTOR_SIZE + k < |content|
    requires first * SECTOR_SIZE <= position < first * SECTOR_SIZE + SECTOR_SIZE &&
             last * SECTOR_SIZE < end <= |content|
    requires ends == WithTail(WithHead(buf, content, first, position), content, first, last, position, end)
    requires first * SECTOR_SIZE + k < position || end <= first * SECTOR_SIZE + k
    ensures ends[k] == content[first * SECTOR_SIZE + k]
  {
    if first * SECTOR_SIZE + k < position {
      LeftByte(buf, content, first, last, position, end, k);
    } else {
      RightByte(buf, content, first, last, position, end, k);
    }
  }

  lemma SplicedByte(ends: seq<byte>, base: nat, content: seq<byte>, position: nat, bytes: seq<byte>, k: nat)
    requires base <= position && position - base + |bytes| <= |ends| && position + |bytes| <= |content|
    requires k < |ends| && base + k < |content|
    requires base + k < position || position + |bytes| <= base + k ==> ends[k] == content[base + k]
    ensures Splice(ends, position - base, bytes)[k] == Splice(content, position, bytes)[base + k]
  {
  }

  lemma LeftByte(buf: seq<byte>, content: seq<byte>, first: nat, last: nat, position: nat, end: nat, k: nat)
    requires first <= last && |buf| == (1 + last - first) * SECTOR_SIZE && last * SECTOR_SIZE <= |content|
    requires position < first * SECTOR_SIZE + SECTOR_SIZE && first * SECTOR_SIZE + k < position &&
             first * SECTOR_SIZE + k < |content|
    ensures WithTail(WithHead(buf, content, first, position), content, first, last, position, end)[k]
         == content[first * SECTOR_SIZE + k]
  {
    assert WithHead(buf, content, first, position)[k] == content[first * SECTOR_SIZE + k];
  }

  lemma RightByte(buf: seq<byte>, content: seq<byte>, first: nat, last: nat, position: nat, end: nat, k: nat)
    requires first <= last && |buf| == (1 + last - first) * SECTOR_SIZE && last * SECTOR_SIZE <= |content|
    requires last * SECTOR_SIZE < end <= first * SECTOR_SIZE + k < |content| && k < |buf| &&
             first * SECTOR_SIZE <= position
    ensures WithTail(WithHead(buf, content, first, position), content, first, last, position, end)[k]
         == content[first * SECTOR_SIZE + k]
  {
    if first == last && position != first * SECTOR_SIZE {
      assert WithHead(buf, content, first, position)[k] == content[first * SECTOR_SIZE + k];
    }
  }

  // The sectors that a request starts and ends in.
  method Span(position: nat, count: nat) returns (firstSector: nat, lastSector: nat)
    requires 0 < count
    ensures firstSector * SECTOR_SIZE <= position < firstSector * SECTOR_SIZE + SECTOR_SIZE
    ensures lastSector * SECTOR_SIZE < position + count <= lastSector * SECTOR_SIZE + SECTOR_SIZE &&
            firstSector <= lastSector
  {
    firstSector := position / SECTOR_SIZE;
    lastSector := (position + count - 1) / SECTOR_SIZE;
  }

  // new char[n], with whatever the memory held.
  method Uninitialized(n: nat) returns (buf: seq<byte>)
    ensures |buf| == n
  {
    var memory := new byte[n];
    buf := memory[..];
  }

  class OpenFile {
    const hdr: FileHeader
    const disk: SynchDisk
    var seekPosition: int

    ghost predicate Valid()
      reads hdr
    {
      hdr.Value().Sound()
    }

    ghost function Bytes(): seq<byte>
      requires Valid()
      reads hdr, disk
    {
      Content(disk.sectors, hdr.Value())
    }

    constructor (disk: SynchDisk, sector: int)
      requires 0 <= sector < NUM_SECTORS
      ensures this.disk == disk && fresh(hdr)
      ensures hdr.Value() == Decode(disk.sectors[sector]) && seekPosition == 0
    {
      this.disk := disk;
      hdr := new FileHeader();
      seekPosition := 0;
      new;
      hdr.FetchFrom(disk, sector);
    }

    method Seek(position: int)
      modifies this
      ensures seekPosition == position
    {
      seekPosition := position;
    }

    method Read(numBytes: int) returns (into: seq<byte>)
      requires Valid() && seekPosition >= 0
      modifies this
      ensures into == Fetched(Bytes(), old(seekPosition), Clip(hdr.numBytes, numBytes, old(seekPosition)))
      ensures Clipped(|Bytes()|, numBytes, old(seekPosition), |into|)
      ensures seekPosition == old(seekPosition) + |into|
    {
      into := ReadAt(numBytes, seekPosition);
      seekPosition := seekPosition + |into|;
    }

    method Write(from: seq<byte>, numBytes: int) returns (result: nat)
      requires Valid() && seekPosition >= 0
      requires Clip(hdr.numBytes, numBytes, seekPosition) <= |from|
      modifies this, disk
      ensures result == Clip(hdr.numBytes, numBytes, old(seekPosition))
      ensures Clipped(|old(Bytes())|, numBytes, old(seekPosition), result)
      ensures Valid()
      ensures Bytes() == if result == 0 then old(Bytes()) else Splice(old(Bytes()), old(seekPosition), from[..result])
      ensures forall s | 0 <= s < NUM_SECTORS && s !in hdr.Value().Data() :: disk.sectors[s] == old(disk.sectors)[s]
      ensures seekPosition == old(seekPosition) + result
    {
      result := WriteAt(from, numBytes, seekPosition);
      seekPosition := seekPosition + result;
    }

    // The bytes read are the result; their number is what the source returns.
    method ReadAt(numBytes: int, position: nat) returns (into: seq<byte>)
      requires Valid()
      ensures into == Fetched(Bytes(), position, Clip(hdr.numBytes, numBytes, position))
      ensures Clipped(|Bytes()|, numBytes, position, |into|)
      ensures into != [] ==> into == Bytes()[position..position + |into|]
    {
      var fileLength := hdr.FileLength();
      if numBytes <= 0 || position >= fileLength {
        return [];
      }
      var count := if position + numBytes > fileLength then fileLength - position else numBytes;
      into := ReadSpan(position, count);
    }

    // The part of ReadAt that reads something: whole sectors, of which a part is delivered
    method ReadSpan(position: nat, count: nat) returns (into: seq<byte>)
      requires Valid() && 0 < count && position + count <= hdr.numBytes
      ensures into == Fetched(Bytes(), position, count)
    {
      var firstSector, lastSector := Span(position, count);
      var buf := ReadSectors(firstSector, lastSector);
      into := CopyPart(buf, firstSector, lastSector, position, count);
    }

    method CopyPart(buf: seq<byte>, firstSector: nat, lastSector: nat, position: nat,
                    count: nat) returns (into: seq<byte>)
      requires Valid() && firstSector <= lastSector < hdr.numSectors && 0 < count
      requires buf == Gather(disk.sectors, hdr.Value().Data()[firstSector..lastSector + 1])
      requires firstSector * SECTOR_SIZE <= position && position + count <= lastSector * SECTOR_SIZE + SECTOR_SIZE
      requires position + count <= hdr.numBytes
      ensures into == Fetched(Bytes(), position, count)
    {
      ContentInRun(disk.sectors, hdr.Value(), firstSector, lastSector + 1, position, count);
      into := buf[position - firstSector * SECTOR_SIZE..position - firstSector * SECTOR_SIZE + count];
    }

    method WriteAt(from: seq<byte>, numBytes: int, position: nat) returns (count: nat)
      requires Valid()
      requires Clip(hdr.numBytes, numBytes, position) <= |from|
      modifies disk
      ensures count == Clip(hdr.numBytes, numBytes, position)
      ensures Valid() && Bytes() == if count == 0 then old(Bytes()) else Splice(old(Bytes()), position, from[..count])
      ensures forall s | 0 <= s < NUM_SECTORS && s !in hdr.Value().Data() :: disk.sectors[s] == old(disk.sectors)[s]
      ensures count == 0 ==> disk.sectors == old(disk.sectors)
      ensures Clipped(|old(Bytes())|, numBytes, position, count)
      ensures count > 0 ==> Bytes() == old(Bytes()[..position] + from[..count] + Bytes()[position + count..])
    {
      var fileLength := hdr.FileLength();
      if numBytes <= 0 || position >= fileLength {
        return 0;
      }
      count := if position + numBytes > fileLength then fileLength - position else numBytes;
      SpliceParts(Bytes(), position, from[..count]);
      WriteSpan(from[..count], position);
    }

    // The part of WriteAt that stores something
    method WriteSpan(bytes: seq<byte>, position: nat)
      requires Valid() && 0 < |bytes| && position + |bytes| <= hdr.numBytes
      modifies disk
      ensures Bytes() == Splice(old(Bytes()), position, bytes)
      ensures forall s | 0 <= s < NUM_SECTORS && s !in hdr.Value().Data() :: disk.sectors[s] == old(disk.sectors)[s]
    {
      var firstSector, lastSector := Span(position, |bytes|);
      var buf := Assemble(bytes, position, firstSector, lastSector);
      // the modified sectors go back to the disk
      WriteSectors(firstSector, lastSector, buf);
      OutsideKept(old(disk.sectors), hdr.Value(), firstSector, lastSector + 1, buf);
      ContentWritten(old(disk.sectors), hdr.Value(), firstSector, lastSector + 1, buf, position, bytes);
    }

    method SectorAt(i: nat) returns (sector: int)
      requires Valid() && i < hdr.numSectors
      ensures sector == hdr.Value().Data()[i] && 0 <= sector < NUM_SECTORS
    {
      sector := hdr.ByteToSector(i * SECTOR_SIZE);
    }

    // The loop of ReadAt: the sectors from firstSector to lastSector, in order.
    method ReadSectors(firstSector: nat, lastSector: nat) returns (buf: seq<byte>)
      requires Valid() && firstSector <= lastSector < hdr.numSectors
      ensures buf == Gather(disk.sectors, hdr.Value().Data()[firstSector..lastSector + 1])
    {
      ghost var data := hdr.Value().Data();
      buf := [];
      for i := firstSector to lastSector + 1
        invariant buf == Gather(disk.sectors, data[firstSector..i])
      {
        var sector := SectorAt(i);
        var bytes := disk.ReadSector(sector);
        RunStep(disk.sectors, data, firstSector, i);
        buf := buf + bytes;
      }
    }

    // The loop of WriteAt: the buffer goes to those sectors, in order.
    method WriteSectors(firstSector: nat, lastSector: nat, buf: seq<byte>)
      requires Valid() && firstSector <= lastSector < hdr.numSectors
      requires |buf| == (1 + lastSector - firstSector) * SECTOR_SIZE
      modifies disk
      ensures disk.sectors == Scatter(old(disk.sectors), hdr.Value().Data()[firstSector..lastSector + 1], buf)
    {
      ghost var data := hdr.Value().Data();
      for i := firstSector to lastSector + 1
        invariant disk.sectors == Scatter(old(disk.sectors), data[firstSector..i],
                  buf[..(i - firstSector) * SECTOR_SIZE])
      {
        var sector := SectorAt(i);
        ScatterStep(old(disk.sectors), data, firstSector, i, buf);
        disk.WriteSector(sector, buf[(i - firstSector) * SECTOR_SIZE..(i + 1 - firstSector) * SECTOR_SIZE]);
      }
      assert buf[..|buf|] == buf;
    }

    // The buffer that WriteAt stores.
    method Assemble(bytes: seq<byte>, position: nat, firstSector: nat, lastSector: nat) returns (buf: seq<byte>)
      requires Valid()
      requires 0 < |bytes| && position + |bytes| <= hdr.numBytes
      requires firstSector * SECTOR_SIZE <= position < firstSector * SECTOR_SIZE + SECTOR_SIZE
      requires lastSector * SECTOR_SIZE < position + |bytes| <= lastSector * SECTOR_SIZE + SECTOR_SIZE
      ensures |buf| == (1 + lastSector - firstSector) * SECTOR_SIZE
      ensures Holds(buf, firstSector * SECTOR_SIZE, Splice(Bytes(), position, bytes))
    {
      buf := Uninitialized((1 + lastSector - firstSector) * SECTOR_SIZE);
      ghost var garbage, content := buf, Bytes();
      var firstAligned := position == firstSector * SECTOR_SIZE;
      var lastAligned := position + |bytes| == (lastSector + 1) * SECTOR_SIZE;
      if !firstAligned {
        var head := ReadAt(SECTOR_SIZE, firstSector * SECTOR_SIZE);
        buf := Splice(buf, 0, head);
      }
      assert buf == WithHead(garbage, content, firstSector, position);
      if !lastAligned && (firstSector != lastSector || firstAligned) {
        var tail := ReadAt(SECTOR_SIZE, lastSector * SECTOR_SIZE);
        buf := Splice(buf, (lastSector - firstSector) * SECTOR_SIZE, tail);
      }
      ghost var ends, end := buf, position + |bytes|;
      assert ends == WithTail(WithHead(garbage, content, firstSector, position), content, firstSector, lastSector,
             position, end);
      buf := Splice(buf, position - firstSector * SECTOR_SIZE, bytes);
      forall k | 0 <= k < |buf| && firstSector * SECTOR_SIZE + k < |content|
        ensures buf[k] == Splice(content, position, bytes)[firstSector * SECTOR_SIZE + k]
      {
        AssembledByte(ends, garbage, content, firstSector, lastSector, position, bytes, k);
      }
    }
  }
}
