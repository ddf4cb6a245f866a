// The disk object that the file system works on is the disk that the many threads of DiskProtocol
// see: the requests of any run, in the order of the lock, do to the object what they did in the run.
module DiskObject {
  import opened Bytes
  import opened SynchDisk
  import opened DiskProtocol

  // Make the requests one after the other; a write delivers its own data.
  method Perform(disk: SynchDisk, log: seq<Request<Sector>>) returns (buffers: seq<Sector>)
    requires forall i | 0 <= i < |log| :: log[i].sector < NUM_SECTORS
    modifies disk
    ensures disk.sectors == Replay(old(disk.sectors), log) && |buffers| == |log|
    ensures forall i | 0 <= i < |log| && log[i].Read? ::
              buffers[i] == Replay(old(disk.sectors), log[..i])[log[i].sector]
  {
    buffers := [];
    for i := 0 to |log|
      invariant disk.sectors == Replay(old(disk.sectors), log[..i]) && |buffers| == i
      invariant forall j | 0 <= j < i && log[j].Read? ::
                  buffers[j] == Replay(old(disk.sectors), log[..j])[log[j].sector]
    {
      assert log[..i + 1][..i] == log[..i];
      match log[i] {
        case Read(sector) =>
          var data := disk.ReadSector(sector);
          buffers := buffers + [data];
        case Write(sector, data) =>
          disk.WriteSector(sector, data);
          buffers := buffers + [data];
      }
    }
    assert log[..|log|] == log;
  }

  // A run of many threads, replayed on the object
  method ReplayRun(disk: SynchDisk, ghost states: seq<State<Sector>>, ghost steps: seq<Step<Sector>>,
                   log: seq<Request<Sector>>) returns (buffers: seq<Sector>)
    requires Run(states, steps, disk.sectors) && log == states[|steps|].log
    modifies disk
    ensures disk.sectors == states[|steps|].sectors && |buffers| == |log|
    ensures forall t | At(states[|steps|], t).Leaving? ::
              var id := At(states[|steps|], t).id;
              id < |log| && (log[id].Read? ==> buffers[id] == At(states[|steps|], t).buffer)
  {
    RunKeeps(states, steps, disk.sectors, |steps|);
    ghost var initial := disk.sectors;
    buffers := Perform(disk, log);
    forall t {
      RunReplays(states, steps, initial, |steps|, t);
    }
    RunReplays(states, steps, initial, |steps|, 0);
  }
}
