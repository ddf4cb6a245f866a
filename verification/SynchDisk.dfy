// The disk seen through the synchronous interface that the file system uses
// (filesys/synchdisk.cc over machine/disk.cc): whole sectors, one at a time.
module SynchDisk {
  import opened Bytes

  const NUM_SECTORS := 1024
  const SECTOR_SIZE := 128

  type Sector = s: seq<byte> | |s| == SECTOR_SIZE witness seq(SECTOR_SIZE, _ => 0)
  type Image = d: seq<Sector> | |d| == NUM_SECTORS witness seq<Sector>(NUM_SECTORS, _ => BLANK)

  const BLANK: Sector := seq(SECTOR_SIZE, _ => 0)

  class SynchDisk {
    var sectors: Image

    constructor (initial: Image)
      ensures sectors == initial
    {
      sectors := initial;
    }

    method ReadSector(sectorNumber: int) returns (data: Sector)
      requires 0 <= sectorNumber < NUM_SECTORS
      ensures data == sectors[sectorNumber]
    {
      data := sectors[sectorNumber];
    }

    method WriteSector(sectorNumber: int, data: Sector)
      requires 0 <= sectorNumber < NUM_SECTORS
      modifies this
      ensures sectors == old(sectors)[sectorNumber := data]
    {
      sectors := sectors[sectorNumber := data];
    }
  }
}
