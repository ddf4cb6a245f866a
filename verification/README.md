# Verified model of the Nachos kernel

This project models the parts of Nachos in which the hard arguments lie, and proves what they are
for. `dafny verify dfyconfig.toml` checks all of it.

**The file system.** The free map and the directory are files on the disk that they describe.
`BitMap`, `FileHeader`, `OpenFile` and `Directory` follow the source class by class, from bits in
words and raw directory entries up to unaligned byte access over whole sectors. `Layout` says who
owns which sector; `DiskView` reads that off the bytes of a disk image and says how creating,
removing and writing change it; `Accounting` counts sectors; `FileSystem` has the operations
themselves; `Refinement` shows that every run, started from a format, is a run of a map from names
to byte sequences, and `Handles` follows open files through such runs.

**Threads.** `List` is the linked list with its sort keys. With interrupts off a primitive runs
without a break up to a context switch, so `Kernel` and `Synch` have each such stretch of
`Semaphore`, `Lock`, `Condition`, `Yield`, `Sleep` and `Finish` as one step, `Threads` has the runs
(any interleaving of threads, of interrupt handlers that call `V`, and of idling), and `ReadyQueue`
what they make of the ready list. Four modules say what the steps and runs amount to without the
fields, lists and keys by which they are defined: `Sleeping` who falls asleep and who is woken,
`Holding` where each thread goes on and which locks it has, `SemaphoreCounts` the value of a
semaphore from the `P`s and `V`s of the run, `Priorities` who gets the CPU from priorities and times.
`ThreadLists` has the scheduler's and the queues' linked lists
together in one heap, and `Primitives` the statements themselves, as methods that make each step on
those lists. `SynchList`, `Mailbox`, `Whale`, `Join` and `DiskProtocol` are the monitors built on
them, statement by statement, with the lock's owner explicit; what a lock and a condition give them
is what `Threads` proves of those. `DiskObject` connects `DiskProtocol` with the disk that the file
system sees. `PostOffice` has the machines on a network.

**The machine.** `Interrupt` is simulated time, `Disk` the latency of the disk, `Mult` the 64-bit
product, `Instruction`, `Machine` and `Processor` the execution of one instruction, `Translate`
address translation and memory access. `Execution`, `Arithmetic` and `Encoding` say what one
instruction amounts to, from its word and the old registers: where control goes, what a register and
memory hold after it, bit by bit, and which faults there are. `Frames` and `AddrSpaces` are the allocation of physical
pages and the runs of address spaces.

## How to read it

- The lists, queues and maps that the source changes in place are fields of classes here, and the
  methods that change them are proved equal to functions of the old values. In the step machines the
  lists of threads and of pending interrupts are sequences updated by `InsertSorted`; `List` proves
  that the linked list does exactly that, and `Primitives` that the kernel on linked lists makes the
  steps of the machine.
- `Consistent` (on disk images) and the `Inv` of each step machine are what every step keeps.
  Each machine has a `Run` predicate and a lemma by induction over it.
- Where the code and its comments differ, the code is followed: `OR` takes `rs` for both operands,
  `SRL` and `SRLV` shift signed numbers, a finished `Receive` does not signal senders, `Finish`
  waits without signalling if the joiner came first.
- A handler of an interrupt is arbitrary: it may schedule any later interrupts and ask for a switch.
  The network may lose any packet. Timer interrupts are yields at any point of a thread's own code.

## Assumptions

- Fields that the source leaves uninitialised start as zero or false: the counters and flags of
  `Mailbox` and `Whale`, `joinAlreadyCalled`, `usedPagesTotal`. Thread priorities are arbitrary and
  may change at any time. Buffers, headers, directory entries and bitmap words that are allocated
  without initialisation hold arbitrary values.
- Machine words are 32 bits and wrap; file positions and sizes stay in range, and so does the clock,
  as the source asserts. The host stores words with the least significant byte first.
- A directory entry takes 20 bytes, with three bytes of padding after the flag and two at the end,
  which are written as zero.
- `Create` is called with a size between 0 and the largest file size, which the code does not check.
- Semaphores, locks and conditions exist from the start of a run and are not destroyed.
- Setting up an address space writes to the frames of that space only. The code that loads the
  program is left out: `AddrSpace::Read` (userprog/addrspace.cc:219-231) uses an uninitialised local
  in place of its argument, so that nothing can be said of where it writes.

## Model

| member | source | states |
|---|---|---|
| `BitMap.BitMap.constructor` | userprog/bitmap.cc:20-27 | a new map has every bit clear, although its words start out with whatever memory held |
| `BitMap.BitMap.Mark` | userprog/bitmap.cc:47-51 | sets exactly one bit of the sequence of bits that the words stand for; no neighbour in the same word changes |
| `BitMap.BitMap.Clear` | userprog/bitmap.cc:61-65 | clears exactly one bit, likewise |
| `BitMap.BitMap.Test` | userprog/bitmap.cc:75-83 | tells whether that bit is set |
| `BitMap.BitMap.Find` | userprog/bitmap.cc:95-103 | marks and returns the first clear bit; -1 exactly if none is clear, and then nothing changes |
| `BitMap.BitMap.NumClear` | userprog/bitmap.cc:112-119 | the number of clear bits |
| `BitMap.BitsOfUpdate` | userprog/bitmap.cc:47-65 | the word operations (or with a shifted one, and with its complement) are single-bit updates of the bit sequence, for every position in every word |
| `BitMapFile.FetchFrom` | userprog/bitmap.cc:149-152 | the bits become those that the file's bytes encode |
| `BitMapFile.WriteBack` | userprog/bitmap.cc:162-165 | the file's bytes encode the bits, and nothing outside the file's data sectors changes |
| `Bytes.WordsRoundTrip` | userprog/bitmap.cc:149-165 | an array of words survives being written as bytes and read back |
| `FileHeader.HeaderRoundTrip` | filesys/filehdr.cc:78-94 | a header survives being written to its sector and fetched again |
| `FileHeader.FileHeader.Allocate` | filesys/filehdr.cc:42-52 | succeeds exactly if ceil(size/128) sectors are clear; then the file has that many distinct sectors, taken first-fit, and exactly they are newly marked; otherwise the map is unchanged |
| `FileHeader.FileHeader.Deallocate` | filesys/filehdr.cc:62-68 | clears exactly the file's sectors; the ASSERT that each is marked holds up to the last one, which needs them distinct |
| `FileHeader.FirstFitFresh` | filesys/filehdr.cc:42-52 | the sectors that first fit hands out are distinct and were all free |
| `FileHeader.LowestFirst` | userprog/bitmap.cc:95-103 | every free sector below one that is handed out has been handed out before it |
| `FileHeader.FirstFitAscending` | userprog/bitmap.cc:95-103 | so a file's sectors are the lowest free ones, in ascending order |
| `FileHeader.FileHeader.FetchFrom` | filesys/filehdr.cc:78-81 | the header becomes what its sector encodes |
| `FileHeader.FileHeader.WriteBack` | filesys/filehdr.cc:91-94 | the sector encodes the header; no other sector changes |
| `FileHeader.ByteInSector` | filesys/filehdr.cc:107-110 | the data sector that ByteToSector names for an offset holds the byte at that offset of the file |
| `FileHeader.GatherScatter` | filesys/openfile.cc:176-183 | bytes stored over distinct sectors are read back from them unchanged |
| `FileHeader.ContentFrame` | filesys/openfile.cc:117-144 | what a file holds depends on its own data sectors only |
| `OpenFile.OpenFile.ReadAt` | filesys/openfile.cc:117-144 | delivers exactly the bytes of the file from position on, for every alignment of both ends: nothing for an empty request or a start at the end or past it, else all that is asked for or all that there is up to the end |
| `OpenFile.OpenFile.WriteAt` | filesys/openfile.cc:147-186 | replaces exactly the bytes [position, position + n) of the file's content by the first n of the buffer, for every alignment of both ends, where n is 0 for an empty request or a start at the end or past it, else all that is asked for or all that there is room for; no sector outside the file's data changes |
| `OpenFile.OpenFile.Read` | filesys/openfile.cc:75-80 | as ReadAt from the seek position, with as many bytes, and the position advances by those delivered |
| `OpenFile.OpenFile.Write` | filesys/openfile.cc:83-88 | as WriteAt at the seek position, with as many bytes, and the position advances by those written |
| `OpenFile.OpenFile.Assemble` | filesys/openfile.cc:164-179 | the buffer that is written back holds the new bytes in the middle and the file's old bytes at unaligned ends, also when both ends lie in one sector |
| `OpenFile.ContentWritten` | filesys/openfile.cc:147-186 | storing such a buffer over a run of sectors is a splice of the file's content |
| `Directory.StrncmpComparesKeys` | filesys/directory.cc:91-97 | two names match under strncmp exactly if their first 9 characters agree up to a NUL |
| `Directory.KeyIs` | filesys/directory.cc:91-97 | what two names agree in is the part of a name up to its first NUL, cut at 9 characters |
| `Directory.StrncpyKeepsKey` | filesys/directory.cc:130-143 | the copy of a name in an entry is found under the same key, whatever the buffer held |
| `Directory.TableRoundTrip` | filesys/directory.cc:64-80 | the table survives being written as raw entries of 20 bytes and read back |
| `Directory.IndexMeans` | filesys/directory.cc:91-97 | the index found for a name is the first in-use entry with it, and -1 exactly if there is none |
| `Directory.Directory.FindIndex` | filesys/directory.cc:91-97 | the search loop computes that index |
| `Directory.Directory.Find` | filesys/directory.cc:109-116 | the header sector listed for the name, or -1 |
| `Directory.Directory.Add` | filesys/directory.cc:130-143 | succeeds exactly if the name is new and an entry is free; then only the first free entry changes and is found under the name; otherwise nothing changes |
| `Directory.Directory.Remove` | filesys/directory.cc:154-162 | frees exactly the entry the name finds; fails, changing nothing, exactly if there is none |
| `Directory.Directory.FetchFrom` | filesys/directory.cc:64-67 | the table becomes what the file's bytes encode |
| `Directory.Directory.WriteBack` | filesys/directory.cc:77-80 | the file's bytes encode the table; nothing outside its data sectors changes |
| `Layout.CreatedOwned` | filesys/filesys.cc:175-215 | creating a file keeps ownership: no sector belongs to two files and the free map marks exactly the sectors that belong to one |
| `Layout.RemovedOwned` | filesys/filesys.cc:258-288 | so does removing one |
| `Layout.OwnedIsMarked` | filesys/filehdr.cc:62-68 | every sector of a listed file is marked, so that the ASSERT in Deallocate never fires in a consistent file system |
| `Layout.CreatedTakesFree` | filesys/filesys.cc:191-205 | header and data of a new file take sectors that no file owned, and the header none of the data's |
| `DiskView.CreateKeeps` | filesys/filesys.cc:175-215 | after Create the bytes on the disk describe a consistent file system again, whose files are the old ones and the new one |
| `DiskView.RemoveKeeps` | filesys/filesys.cc:258-288 | after Remove they describe a consistent file system with exactly that file gone |
| `DiskView.WriteKeeps` | filesys/openfile.cc:147-186 | a write through a handle splices that file's content and leaves every other file, all headers, the free map and the directory as they were |
| `DiskView.WriteIsolated` | filesys/openfile.cc:147-186 | header and content of every other live file survive a write |
| `Accounting.SectorsConserved` | filesys/filesys.cc:80-288 | in a consistent file system every one of the 1024 sectors is either clear or used by exactly one file |
| `Accounting.CreateCondition` | filesys/filesys.cc:175-215 | what Create finds in the free map and the directory amounts to: the name is new, fewer than 10 files exist, and the files leave room for 1 + ceil(size/128) sectors |
| `FileSystem.FileSystem.Format` | filesys/filesys.cc:80-131 | whatever the disk held, it now holds a consistent file system without files, with all but five sectors clear; both ASSERTs on Allocate hold |
| `FileSystem.FileSystem.Mount` | filesys/filesys.cc:137-142 | opens the two system files of a consistent disk |
| `FileSystem.FileSystem.Create` | filesys/filesys.cc:175-215 | succeeds exactly if the name is new, an entry is free and enough sectors are clear; then the disk makes a create step; on failure the disk is unchanged, although map, directory and header in memory were not |
| `FileSystem.FileSystem.Open` | filesys/filesys.cc:228-241 | returns a handle, which reads what the file map has for the name, exactly if the name is listed |
| `FileSystem.FileSystem.Remove` | filesys/filesys.cc:258-288 | succeeds exactly if the name is listed; then the disk makes a remove step, else it is unchanged |
| `FileSystem.CreateFlushed` | filesys/filesys.cc:199-208 | the three flushes of Create, one of them over the directory and one over the free map that describe the disk, add up to one create step |
| `FileSystem.RemoveFlushed` | filesys/filesys.cc:280-286 | the two flushes of Remove add up to one remove step |
| `Refinement.StepRefines` | filesys/filesys.cc:175-288 | each step on the disk is a step of a map from names to byte sequences that knows nothing of sectors; success depends on that map alone |
| `Refinement.RunRefines` | filesys/filesys.cc:80-288 | every state of every run of creations, removals and writes is consistent, and the run is one of the map |
| `Refinement.HandleStaysGood` | filesys/openfile.cc:30-35 | a handle opened in any state of a run goes on reading what the map has for its name, through all creations, writes and removals of other files, unless its own file is removed |
| `Handles.Write` | filesys/openfile.cc:147-186 | WriteAt on an open file is a write step of the file system: it stays consistent, the file stays open, and with an empty range nothing at all changes |
| `Handles.WriteIn` | filesys/openfile.cc:147-186 | so the FileSystem object, whose two files are open all the time, keeps its invariant |
| `Handles.Read` | filesys/openfile.cc:117-144 | ReadAt on an open file delivers what the file map has for its name |
| `Handles.WrittenStays` | filesys/openfile.cc:147-186 | what was written to a file is in the map of every later state of the run, until its file is removed or the range overwritten |
| `Handles.ReadBack` | filesys/openfile.cc:117-186 | so reading the range through a handle that was open at the write returns the written bytes, whatever was created, removed and written in between |
| `Refinement.CreateRemoveRestores` | filesys/filesys.cc:175-288 | Create followed by Remove restores the free map and the files |
| `List.List.SortedInsert` | threads/list.cc:179-202 | the linked list refines a sequence; the element goes in front of the first one with a larger key, or to the end, also in a list that is not sorted |
| `List.List.SortedRemove` | threads/list.cc:218-237 | takes off the first element, if any, and tells its key; first and last stay right when the list empties |
| `List.List.Append` | threads/list.cc:77-88 | appends to the sequence |
| `List.List.Prepend` | threads/list.cc:103-114 | prepends to the sequence |
| `List.List.Remove` | threads/list.cc:125-128 | takes off the first element, if any |
| `List.List.IsEmpty` | threads/list.cc:155-161 | tells whether the sequence is empty |
| `List.InsertKeepsSorted` | threads/list.cc:179-202 | insertion keeps a sorted list sorted, keeps all elements, and puts the new one behind all with the same key |
| `List.ServesNext` | threads/scheduler.cc:54-74 | removing the front of a list filled by SortedInsert serves the earliest arrival among the smallest keys, and leaves the list of the other arrivals |
| `List.ListIsStableQueue` | threads/scheduler.cc:54-74 | so in every use of such a list, however insertions and removals alternate: highest priority first, first come first served among equals |
| `Kernel.WakePlaces` | threads/scheduler.cc:54-60 | moving the head of a wait queue to the ready list keeps every thread in exactly one place |
| `Kernel.BlockPlaces` | threads/thread.cc:281-295 | so does putting the current thread to sleep on a queue |
| `Kernel.DispatchPlaces` | threads/scheduler.cc:91-135 | so does switching to the head of the ready list, which then runs alone |
| `Synch.SemaphorePKeeps` | threads/synch.cc:65-77 | P keeps the invariant of all runs: places, no lost wakeups, locks and their holders, and books of Ps and Vs that balance; what the value is in a run is in `SemaphoreCounts.ValueCounts` |
| `Synch.SemaphoreVKeeps` | threads/synch.cc:88-98 | so does V, from a thread or from an interrupt handler |
| `Synch.LockAcquireKeeps` | threads/synch.cc:121-136 | so does Acquire, at its start or on waking up, also when another thread has taken the lock in between |
| `Synch.LockReleaseKeeps` | threads/synch.cc:138-155 | so does Release, also inside Wait when the caller is already on the condition's queue |
| `Synch.ConditionWaitKeeps` | threads/synch.cc:178-189 | so does Wait, with or without the lock held |
| `Synch.WakeAllKeeps` | threads/synch.cc:220-231 | so does Broadcast, which leaves nobody on the condition's queue |
| `Synch.ThreadYieldKeeps` | threads/thread.cc:244-259 | so does Yield, which takes the next thread off the ready list before it puts the current one on |
| `Synch.ThreadFinishKeeps` | threads/thread.cc:164-174 | so does the end of a thread that nobody joins |
| `Threads.StepKeeps` | threads/synch.cc:65-231 | every step of every thread, every interrupt and the end of idling keep the invariant |
| `Threads.RunKeeps` | threads/synch.cc:65-231 | the invariant holds in every reachable state |
| `Threads.OnePlace` | threads/scheduler.cc:54-135 | each thread is in exactly one place (new, current, once on the ready list, once on one wait queue, finished), the one that its status names |
| `Threads.MutualExclusion` | threads/synch.cc:121-155 | no two threads ever count the same lock among those they have acquired and not released |
| `Threads.ReturnsHolding` | threads/synch.cc:121-189 | Acquire, whether it sleeps or not, and Wait after it has slept, return to their caller only when it owns the lock |
| `Threads.NobodyStranded` | threads/synch.cc:65-155 | when nothing can run, a semaphore with sleepers is at zero and a lock with sleepers is taken: no wakeup was lost |
| `Threads.HighestPriorityNext` | threads/thread.cc:244-259 | the thread switched to is the one under the smallest key on the ready list, and Yield picks that one, never the caller; what this means for priorities is in `Priorities` |
| `ReadyQueue.EarliestOfHighestNext` | threads/scheduler.cc:54-74 | in every state of every run the ready list is that of the threads that have become ready and were not taken, and the next one is the earliest of those under the smallest key |
| `Priorities.NextComesFirst` | threads/scheduler.cc:54-74 | in every state of every run the thread that Yield or the idle loop would give the CPU to had, when it became ready, a priority at least that of every other ready thread, and is the earliest among equals |
| `Priorities.SwitchTakesFirst` | threads/thread.cc:243-295 | in every run, whenever the CPU is given to a thread, by whatever step, it comes before all that are left ready in this order, but for the one that has just yielded |
| `Priorities.HighestPriorityRuns` | threads/scheduler.cc:54-135 | in a run in which no priority is changed, the next thread has a priority at least that of every ready thread |
| `Priorities.WokenComesFirst` | threads/synch.cc:65-231 | in every run, a thread that is woken from the queue of a semaphore, lock or condition had, when it fell asleep, a priority at least that of each thread that sleeps on there, and is the earliest among equals |
| `SemaphoreCounts.ValueCounts` | threads/synch.cc:65-98 | in every run the value of a semaphore is its initial one, plus the steps that were a V of a thread or a handler, minus the steps in which a thread came out of P |
| `Sleeping.WakesOne` | threads/synch.cc:88-231 | V, Release and Signal, and Wait for its lock, wake exactly one of the threads asleep on the queue, if there are any |
| `Sleeping.WakesAll` | threads/synch.cc:220-231 | Broadcast wakes all of them |
| `Sleeping.OthersSleepOn` | threads/synch.cc:65-231 | nobody else is woken by any step, and nobody falls asleep but the current thread: in P at value zero, in Acquire and at the end of Wait if the lock is taken, in Wait if it has the lock |
| `Sleeping.KeepsCpu` | threads/thread.cc:243-295 | a thread that neither sleeps, yields nor finishes keeps the CPU |
| `Sleeping.ThreadSteps` | threads/thread.cc:164-259 | a forked thread is ready, a yielding one is ready again if another was, a finished one is blocked and on no queue |
| `Holding.SleepsIffTaken` | threads/synch.cc:121-136 | a thread that asks for a lock sleeps exactly if some thread has it |
| `Holding.MindsAfter` | threads/synch.cc:65-231 | after every step, where each thread goes on and which locks it has: the current thread is past its call, or asleep in it; it has the lock that it asked for without sleeping, and no longer the one that it released or waits with; no other thread changes |
| `Holding.NeverIdles` | threads/thread.cc:281-295 | the CPU never idles while a thread is ready, but for an idle CPU that an interrupt has just given one to |
| `ThreadLists.ThreadLists.constructor` | threads/scheduler.cc:29-33 | the ready list and all queues are empty linked lists, no two of them the same |
| `ThreadLists.ThreadLists.Insert` | threads/list.cc:179-202 | inserting into one of the linked lists changes what it holds by InsertSorted, and no other list |
| `ThreadLists.ThreadLists.Remove` | threads/list.cc:125-128 | taking a thread off one of them changes no other list |
| `Primitives.System.constructor` | threads/scheduler.cc:29-33 | a new system is in a state in which a run may start |
| `Primitives.System.Do` | threads/synch.cc:65-231 | the statements of every primitive, of Yield, Finish, Fork, the scheduler and V from a handler, on linked lists, make the step of Threads on what the lists hold; so all that is proved of steps and runs, in `Sleeping`, `Holding`, `SemaphoreCounts` and `Priorities` too, holds of them |
| `Primitives.System.Wait` | threads/synch.cc:178-189 | likewise for Wait up to its Sleep; that the thread is marked blocked only after the lock is released makes no difference |
| `Primitives.System.Broadcast` | threads/synch.cc:220-231 | likewise for the loop of Broadcast |
| `SynchList.StepKeeps` | threads/synchlist.cc:54-82 | each statement of Append and Remove keeps: one owner of the lock; what was put is what was taken, then what is there, in order; while a remover sleeps there are no more elements than removers on their way and signals about to be given |
| `SynchList.RunKeeps` | threads/synchlist.cc:54-82 | these hold in every reachable state, under any interleaving and with barging |
| `SynchList.NobodyStranded` | threads/synchlist.cc:71-82 | if all threads are outside or asleep and some remover sleeps, the list is empty |
| `Mailbox.StepKeeps` | threads/synch.cc:249-281 | each statement of Send and Receive keeps: the messages received, and the buffered one, are the messages sent, in order; every message has a Receive that has begun |
| `Mailbox.RunKeeps` | threads/synch.cc:249-281 | in every run messages come out in the order they went in, and completed Sends never exceed Receives begun |
| `Mailbox.ReceiverNeverStuck` | threads/synch.cc:249-281 | no receiver sleeps on when nothing happens any more and a message is there |
| `Mailbox.SendersServedInRun` | threads/synch.cc:249-281 | if at most one thread is in Receive at a time, then whenever the buffer is empty and a receiver has begun, a sleeping sender has another on its way or a signal to come |
| `Mailbox.SenderStuckIffOverlap` | threads/synch.cc:265-281 | that a sender sleeps for ever although it could go ahead can happen exactly if more than one thread may be in Receive at a time: with two, Receive clears the buffer without a signal to the senders; with one, in no run |
| `Whale.StepKeeps` | threads/synch.cc:301-379 | each statement of Male, Female and Matchmaker keeps the books: waiting counters equal arrivals minus rounds, departures equal rounds plus the present flag, and somebody is present only when all roles wait |
| `Whale.RunKeeps` | threads/synch.cc:301-379 | the books are right in every reachable state |
| `Whale.LeaveInThrees` | threads/synch.cc:301-379 | departures of any two roles differ by one at most, and exceed the arrivals of no role |
| `Join.StepKeeps` | threads/thread.cc:164-223 | each statement of Join and Finish keeps the list of pairs of positions that occur |
| `Join.Handshake` | threads/thread.cc:164-223 | Join does not return before the joinee has entered Finish; the joinee does not get past its last Wait before the joiner has woken from its own |
| `Join.CompletesIffJoineeFirst` | threads/thread.cc:178-183 | where nothing can move any more, both have finished exactly if the joinee got the lock first; otherwise both sleep for ever |
| `Join.JoinerFirstDeadlocks` | threads/thread.cc:178-183 | a run in which the joiner comes first and both end up asleep |
| `Join.RunKeeps` | threads/thread.cc:164-223 | every run keeps the handshake and ends after 22 steps at most |
| `DiskProtocol.StepKeeps` | filesys/synchdisk.cc:73-109 | each statement and each interrupt keep: one owner; at most one request under way, the owner's; the semaphore counts its completion; the sectors hold what the requests in lock order left |
| `DiskProtocol.RunKeeps` | filesys/synchdisk.cc:73-109 | these hold in every reachable state |
| `DiskProtocol.NeverAskedTwice` | machine/disk.cc:118-155 | ASSERT(!active) never fires |
| `DiskProtocol.LeavesWithOwnData` | filesys/synchdisk.cc:73-97 | ReadSector and WriteSector return only after the interrupt of their own request, and a read returns what the last write to the sector, in lock order, put there |
| `DiskProtocol.RunReplays` | filesys/synchdisk.cc:73-109 | in every run the sectors are those of a disk that carries out the requests one by one in the order of the lock, and a reader has what that disk delivers in its turn |
| `DiskObject.ReplayRun` | filesys/synchdisk.cc:73-97 | the disk object of the file system, given the requests of any run in that order, ends with the same sectors and delivers the same data |
| `PostOffice.StepKeeps` | network/post.cc:231-300 | sends, lost packets, polls, the postal worker and receivers keep: the semaphore counts the packet in the inbox, no empty packet moves, each machine's stream is a subsequence of what was sent to it |
| `PostOffice.RunKeeps` | network/post.cc:231-300 | these hold in every reachable state of any number of machines |
| `PostOffice.InboxHolds` | machine/network.cc:67-145 | a packet in the inbox stays there, whatever happens on any machine, until the worker takes that packet |
| `PostOffice.NeverEmpty` | network/post.cc:231-270 | PostalDelivery never receives an empty packet |
| `PostOffice.MailInOrder` | network/post.cc:231-300 | the mail from one sender in one mailbox, taken out or still there, is a subsequence, in order, of what that sender sent to it |
| `Mult.Mult` | machine/mipssim.cc:636-692 | hi and lo hold the exact 64-bit product for all operands, signed or unsigned, including -2^31 and the early end of the loop |
| `Mult.MultiplyWords` | machine/mipssim.cc:659-677 | the loop with carry and arithmetic shift computes the sum of shifted multiplicands that the bits of the multiplier call for |
| `Mult.ShiftAddIsProduct` | machine/mipssim.cc:659-677 | that sum is the product |
| `Instruction.EffectIgnores` | machine/mipssim.cc:130-551 | what an instruction does depends only on the registers it is listed as reading |
| `Instruction.EffectWrites` | machine/mipssim.cc:130-551 | it writes at once only the general register it is listed as writing |
| `Instruction.AbortsIfUnaligned` | machine/mipssim.cc:280-532 | the ASSERTs of lwl, lwr, swl and swr fail exactly for addresses that are not those of words; no other instruction fails one |
| `Machine.FaultChangesNothingElse` | machine/machine.cc:102-112 | an exception leaves PC, NextPC, memory and general registers as they were, except that the pending load retires |
| `Machine.RetryIsTransparent` | machine/mipssim.cc:94-565 | fault, repair of the mapping and retry end in the registers and memory of an execution without the fault, also in a branch delay slot, if the instruction neither reads nor writes the target of the pending load |
| `Machine.RetryIffSetAlike` | machine/mipssim.cc:94-582 | for every instruction that sets a register a retry ends like the execution without the fault exactly if it computes the same value with the pending load done, or, writing the register with the pending load, exactly the value that is loaded |
| `Processor.Processor.OneInstruction` | machine/mipssim.cc:94-565 | the in-place execution on the register, memory and translation arrays has exactly the outcome `Machine.Execute`, if no ASSERT fails; what that outcome is, `Execution` and `Arithmetic` say |
| `Execution.ControlFlow` | machine/mipssim.cc:118-564 | a completed instruction moves the program counters on by one place; the next one is the target of a jump or of a branch whose condition holds of the old registers, and the following instruction otherwise |
| `Execution.AfterDelaySlot` | machine/mipssim.cc:558-564 | so after the instruction in the delay slot control is at the target |
| `Execution.JumpTargetIs` | machine/mipssim.cc:219-223 | the target of J and JAL is the word named, in the 2^28 bytes of the instruction behind the delay slot |
| `Execution.RegistersAfter` | machine/mipssim.cc:551-582 | a completed instruction retires the pending load, puts the old NextPC + 4 into the link register of a call, puts what it sets into its register, and keeps every other one |
| `Execution.LoadCompletes` | machine/mipssim.cc:231-341 | a completed load notes its register and the number that the bytes at its address stand for, sign- or zero-extended for its width, or merged by LWR with what the register will hold |
| `Execution.LoadDelivers` | machine/mipssim.cc:558-582 | the next instruction that completes leaves that number in the register, whatever it is |
| `Execution.StoreCompletes` | machine/mipssim.cc:383-532 | a completed store leaves the bytes of its register at its address, least significant first, and every other byte of memory as it was |
| `Execution.MemoryKept` | machine/mipssim.cc:94-565 | no other completed instruction changes memory |
| `Execution.AddressIsSum` | machine/mipssim.cc:231-475 | the address is the sum of register and offset, modulo 2^32 |
| `Execution.AccessFaults` | machine/mipssim.cc:231-475 | a load or store raises an exception exactly if its address does not translate, the one that the entries call for, and the bad address is noted |
| `Execution.FetchFaults` | machine/mipssim.cc:94-118 | so does the fetch, at the program counter |
| `Execution.OverflowExact` | machine/mipssim.cc:125-465 | ADD, ADDI and SUB trap exactly if the result is out of range, and are exact else |
| `Execution.DivisionExact` | machine/mipssim.cc:195-217 | quotient and remainder make up the dividend, the remainder is smaller than the divisor and has the sign of the dividend |
| `Execution.HiLoSet` | machine/mipssim.cc:195-369 | what any completed instruction leaves in HI and LO: products, quotients and remainders, moves, else the old values |
| `Arithmetic.ResultAfter` | machine/mipssim.cc:125-545 | what every other completed instruction that computes leaves in its register: sums up to a multiple of 2^32, comparisons, each of the 32 bits of a logical operation or shift |
| `Encoding.DecodeInverted` | machine/mipssim.cc:589-626 | decoding loses nothing: a word that stands for an instruction is the encoding of the one it is decoded to |
| `Processor.Processor.DelayedLoad` | machine/mipssim.cc:576-582 | the pending load is done, the next one noted, register 0 is zero |
| `Processor.Processor.RaiseException` | machine/machine.cc:102-110 | the bad address is noted and the pending load done before the kernel is entered |
| `Processor.Processor.Translate` | machine/translate.cc:193-261 | the physical address or the exception, for page table and TLB; use and dirty bits change only in the entry used; the final ASSERT on the address holds |
| `Processor.Processor.ReadMem` | machine/translate.cc:92-127 | delivers the value, or raises the translation's exception |
| `Processor.Processor.WriteMem` | machine/translate.cc:143-175 | stores the bytes and nothing else, or raises the translation's exception |
| `Translate.WithinFrame` | machine/translate.cc:193-261 | an access that translates stays within its page frame, so within memory |
| `Translate.TranslatesThrough` | machine/translate.cc:193-261 | an access translates exactly through a valid entry for its page that is not read-only if it writes, and then to the same offset in the entry's frame |
| `Translate.ExceptionsMean` | machine/translate.cc:193-261 | each exception arises exactly under its own condition on the address and the entries |
| `Translate.ReadMeans` | machine/translate.cc:92-127 | a read delivers the bytes of memory at the translated address, the first one counting least, and marks only the entry used |
| `Translate.WriteMeans` | machine/translate.cc:143-175 | a write changes exactly the bytes at the translated address, and marks only the entry used, as used and dirty |
| `Translate.ReadWritten` | machine/translate.cc:92-175 | a read through the same mapping returns what was written, cut to its size |
| `Translate.WritesAreIsolated` | machine/translate.cc:143-175 | a write through one mapping changes no read through another that shares no frame with it |
| `Frames.MemoryManager.AllocPage` | userprog/memorymanager.cc:26-39 | hands out a page that was free and marks it; -1 exactly if none is free, and exactly then the lock is still held on return; the count of used pages stays right |
| `Frames.MemoryManager.FreePage` | userprog/memorymanager.cc:45-53 | exactly that page becomes free; the count of used pages stays right exactly if it was in use |
| `Frames.MemoryManager.PageIsAllocated` | userprog/memorymanager.cc:58-66 | tells whether the page is marked |
| `Frames.MemoryManager.GetAvailable` | userprog/memorymanager.cc:72-79 | free and used pages add up to all pages |
| `Frames.AddrSpace.Initialize` | userprog/addrspace.cc:93-110 | succeeds exactly if enough pages are available; then no AllocPage fails, the frames were free, are distinct and are marked, and the lock is free again |
| `Frames.AddrSpace.Destroy` | userprog/addrspace.cc:239-244 | exactly the frames of the space become free; the count stays right if they were in use, each once |
| `Frames.GrantedWereFree` | userprog/addrspace.cc:93-110 | frames handed out one after the other are distinct and were free |
| `AddrSpaces.StepKeeps` | userprog/addrspace.cc:93-110 | creating and destroying spaces and accessing memory keep: frame tables are injective and pairwise disjoint, and the map marks exactly the frames in use |
| `AddrSpaces.RunKeeps` | userprog/addrspace.cc:93-110 | this holds in every reachable state |
| `AddrSpaces.DestroyedWereMarked` | userprog/addrspace.cc:239-244 | the pages that a destroyed space frees were marked, each once |
| `AddrSpaces.Isolation` | machine/translate.cc:92-175 | whatever one space does, every other live space reads the same values as before |
| `Interrupt.Interrupt.Schedule` | machine/interrupt.cc:272-287 | the interrupt is filed by its time, which is later than now, so that no more are due than before; it is noted as scheduled |
| `Interrupt.Interrupt.CheckIfDue` | machine/interrupt.cc:303-349 | fires the first pending interrupt, and no other, exactly if it is due, or made due by advancing the clock, and is not a lone timer of an idle machine; else puts it back; whatever was pending, or has been scheduled by the handler, is then pending or has been delivered, each as often as before |
| `Interrupt.PutBack` | machine/interrupt.cc:313-324 | taking the first interrupt off and putting it back loses none, keeps the list sorted and changes nothing that is due |
| `Interrupt.Interrupt.OneTick` | machine/interrupt.cc:152-186 | the drain loop ends, because handlers schedule only later interrupts, and leaves nothing due; ticks are accounted for; no interrupt is lost, delivered twice or made up |
| `Interrupt.Interrupt.DeliverAll` | machine/interrupt.cc:175-176 | the loop ends and leaves nothing due, or the lone timer of an idle machine; no interrupt is lost, delivered twice or made up |
| `Interrupt.Interrupt.Idle` | machine/interrupt.cc:218-241 | halts exactly if nothing but a timer is pending, with all that was pending; otherwise the clock is at the first pending interrupt, which is delivered, with all else that is due; the time passed counts as idle; none is lost |
| `Interrupt.Interrupt.SetLevel` | machine/interrupt.cc:116-128 | only turning interrupts on takes a tick, and then nothing due is left and none is lost |
| `Interrupt.DeliveredInOrder` | machine/interrupt.cc:303-349 | handlers run in nondecreasing time order and never before their time; every method keeps this |
| `Interrupt.DeliveredOnce` | machine/interrupt.cc:272-349 | over any sequence of calls an interrupt that is scheduled once is pending exactly until it is delivered, and delivered at most once; every method keeps the books that this follows from |
| `Interrupt.NothingMadeUp` | machine/interrupt.cc:272-349 | what is delivered has been scheduled |
| `Disk.LatencyBounds` | machine/disk.cc:235-255 | latency is at least one sector time and at most a full seek, a full turn and two sectors |
| `Disk.CompletesAfterPass` | machine/disk.cc:182-255 | an unbuffered request completes exactly on the boundary at which the requested sector has passed the head for the first time after the seek |
| `Disk.BufferedIffPassed` | machine/disk.cc:243-251 | a read is served from the track buffer exactly if its sector has passed the head since the buffer was started |
| `Disk.LatencyMeans` | machine/disk.cc:182-255 | the latency from tracks and sectors alone: one sector time for a read on the track of the last request whose sector has begun to pass since the buffer was started; any other request ends when its sector has passed the head for the first time after the tracks in between have been crossed |
| `Disk.SeekTimeMeans` | machine/disk.cc:182-196 | a seek takes 500 ticks for each track between the two sectors |
| `Disk.BufferNeverSlower` | machine/disk.cc:235-255 | the track buffer never makes a read slower |
| `Disk.Disk.ComputeLatency` | machine/disk.cc:235-255 | the method computes the latency that these lemmas are about |
| `Disk.Disk.UpdateLast` | machine/disk.cc:264-273 | the track buffer restarts at the next boundary exactly if the head moves |
| `Disk.Disk.ReadRequest` | machine/disk.cc:118-135 | an idle disk delivers the sector and completes within the bounds after the latency; until then the start of the buffer may lie ahead |
| `Disk.Disk.WriteRequest` | machine/disk.cc:138-155 | likewise with exactly that sector changed |
| `Disk.Disk.HandleInterrupt` | machine/disk.cc:164-168 | on an idle disk the start of the buffer is a multiple of the rotation time and not in the future |

## Left out

- OpenFile.OpenFile.ReadAt: a buffer is the sequence of bytes delivered, so that writing through a caller's pointer, and what lies beyond the delivered bytes, is not captured; the position is not negative.
- OpenFile.OpenFile.WriteAt: the caller's buffer is a sequence of bytes; the position is not negative.
- Frames.MemoryManager.AllocPage: the manager's lock is a flag; waiting for it is in `Threads`.
- FileHeader.FileHeader.Allocate: for sizes from 0 up to the largest only; beyond it the source writes past its table of sectors.
- FileSystem.FileSystem.Create: for sizes from 0 up to the largest only, likewise.
- Processor.Processor.OneInstruction: LWL, LWR, SWL and SWR are modelled for aligned addresses, to which the source restricts them by ASSERT; an exception ends at the call of the kernel's handler.
- Machine.RetryIsTransparent: states the condition as sufficient; RetryIffSetAlike has the exact one for instructions that set a register. For loads, stores and branches that read the target it would say no more than that both executions access and reach the same addresses with the same values.
- Mailbox.RunKeeps: order and counts; who is woken is in ReceiverNeverStuck and SenderStuckIffOverlap, which say that nobody is left asleep when nothing happens any more, not that the scheduler is fair.
- Whale.LeaveInThrees: safety only; no claim that a waiting whale leaves.
- Kernel.DispatchPlaces: the switch of stacks and registers, the overflow check and the deletion of a finished thread are not modelled.
- Thread::Finish of a joinable thread after its last Release, which sleeps with interrupts on.
- Interrupt.Interrupt.OneTick: the yield that a handler asked for is returned to the caller instead of carried out; the delayed load of the machine on an interrupt is not modelled.
- PostOffice.StepKeeps: the sender's lock and its wait for the next send are one step, in the order of the lock; opening sockets and padding packets are not modelled.
- Mailboxes of the network: waiting in Get is in SynchList; here it takes what is there.
- Concurrent calls into the file system and crashes in the middle of an operation, which the source excludes.
- AddrSpaces.Isolation: for setting up a space, assumes that loading the program writes to the frames of that space only, as under Assumptions.
- The console, the timer device, system calls and the exception handler, statistics, printing and debugging, the command line.
- Host facilities: UNIX files, sockets, random numbers and the switch between stacks.
