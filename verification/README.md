# style9-os, modelled in Dafny

This project models the parts of the style9-os kernel whose correctness is argued in
comments, and proves those arguments. Each module takes one component: what it does is
written as functions, or as classes and loops where the kernel changes things in place,
and what it promises is proved for every input or for every run.

A concurrent protocol is a `State`, a total `Step(state, action)` and `Run` over any
sequence of actions. What the code does under one lock, or with one atomic instruction,
is one action; an action that does not fit the state changes nothing, so a theorem about
`Run` is a theorem about every interleaving. Hardware, the clock, the scheduler's choice
and failures of the layer below arrive as parameters of actions.

| module | component |
|---|---|
| `Calendar` | the real-time clock's date arithmetic (dev/rtc.c) |
| `CheckpointPath` | the `/.xid` checkpoint paths, read and printed (fs/fs.c) |
| `PathResolve` | path resolution and the working directory (kern/darwin.c) |
| `RecordLocks` | POSIX record locks (kern/darwin.c) |
| `Readiness` | the wait behind select, poll and F_SETLKW (kern/darwin.c) |
| `Pipe`, `PipeRuns` | pipes: the ring in place, and every run of threads around it (kern/darwin.c) |
| `IrqRing` | the interrupt-to-thread rings of keyboard, serial port and mouse (dev/kbd.c, dev/uart.c, dev/mouse.c) |
| `Mutex` | the sleeping mutex and its intrusive list (kern/mutex.c) |
| `BlockCache` | the block cache: fetches outside the lock, one write at a time (fs/bio.c) |
| `OpenTable`, `FileHolds` | open files against unlink and rename, cached lengths, appends (fs/fs.c) |
| `HeapBytes`, `Heap`, `HeapRuns` | the kernel heap at byte level (kern/kmem.c) |
| `Terminal`, `Sequences`, `Console` | the VGA terminal, its escape sequences from the bytes typed, and the batched cursor (dev/tty.c) |
| `CStrings`, `Options` | what several of these share |

## Where the code and its promise part

Each of these is proved: the exact condition, and an input or a run at which it fails.

- A clock reading survives the trip to epoch seconds and back exactly when its day exists in its month and its second is at most 59 (`Calendar.RoundTrip`); 31 February and second 60 pass the decoder and come back changed (`Calendar.LostTimes`).
- A CSI parameter is documented as clamped to 9999, but the clamp comes after a 16-bit multiply: 65537 becomes 1 (`Terminal.ClampComesTooLate`). It is right at every digit exactly when no prefix spells 65536 to 75534 (`Terminal.ParametersExactly`), and right at the final byte exactly when that holds or enough digits follow to reach the clamp again (`Terminal.ParameterExactly`). The terminal follows the code.
- A pipe write interrupted at a full ring answers EINTR even when part of it is already in the ring, and a read whose copy-out fails has already taken the bytes; every other answer tells the caller how much moved (`PipeRuns.HonestExactly`, `PipeRuns.InterruptedWriteExists`, `PipeRuns.FaultedReadExists`).
- The lock table is meant for 256 entries. From a table within the limit it is passed exactly by an unlock inside one entry of a full table (`RecordLocks.TableBound`); repeated, such unlocks have no bound (`RecordLocks.UnlocksGrowWithoutBound`), and at 2^32 entries the count wraps and grants pass again (`RecordLocks.CountWraps`).
- A block write the device fails part-way, and a write that goes round the cache, leave it wrong exactly when a buffer, or for the second a fetch in flight, still has the old bytes of a sector the device took (`BlockCache.AbortedWrite`, `BlockCache.BypassingWrite`); one run shows both (`BlockCache.CoherenceLost`).
- A handle adopts the volume's generation even when its size lookup fails. A handle of that generation is then wrong exactly when its last refresh failed after the length had moved (`FileHolds.WrongLengthsExactly`); an append through it lands on another handle's bytes or past a gap (`FileHolds.AppendExactly`, `FileHolds.LostAppend`).

## Model

| member | source | states |
|---|---|---|
| `Calendar.CivilInvertsDayNumber` | dev/rtc.c:163-232 | every valid date comes back from its day number |
| `Calendar.DayNumberInvertsCivil` | dev/rtc.c:193-232 | every day number, of either sign, lands on a real date with that number |
| `Calendar.SuccessorIsNextNumber` | dev/rtc.c:163-191 | the Gregorian successor of a date has the next day number, over month ends and leap years |
| `Calendar.DayNumberCountsSuccessors` | dev/rtc.c:163-191 | the closed formula equals counting successors one day at a time from 1970-01-01, in both directions |
| `Calendar.RoundTrip` | dev/rtc.c:163-232 | a decoded time survives to epoch seconds and back if and only if its day exists and its second is not 60 |
| `Calendar.LostTimes` | dev/rtc.c:163-232 | 31 February 2023 comes back as 3 March, 23:59:60 as the next midnight |
| `Calendar.ProperRoundTrip` | dev/rtc.c:163-232 | every proper date-time of years 0 to 65535 round-trips |
| `Calendar.EpochRoundTrip` | dev/rtc.c:193-232 | an epoch second round-trips if and only if its year fits the 16-bit field, under truncating division |
| `CheckpointPath.ViewParse` | fs/fs.c:260-292 | the loops over the path compute the reference reading of it, and the 64-bit accumulator never wraps |
| `CheckpointPath.ParseUnder` | fs/fs.c:274-277 | after the name: the directory itself, or the number that follows the slashes |
| `CheckpointPath.ParseNumber` | fs/fs.c:278-291 | the digit loop reads the number and the remainder, refusing what would wrap |
| `CheckpointPath.ViewName` | fs/fs.c:322-337 | the digits written backwards and reversed are the decimal spelling, cut to the buffer and terminated, and nothing past the buffer changes |
| `CheckpointPath.DecimalReadsBack` | fs/fs.c:322-337 | the decimal spelling of any number reads back as it |
| `CheckpointPath.SpelledIsRead` | fs/fs.c:260-292 | every spelling of a checkpoint path is read as that checkpoint and remainder |
| `CheckpointPath.ReadIsSpelled` | fs/fs.c:260-292 | whatever is read as a checkpoint is spelled as one |
| `CheckpointPath.CheckpointIffSpelled` | fs/fs.c:260-292 | a path names checkpoint and remainder if and only if some spelling of them is the path |
| `CheckpointPath.LiveIffElsewhere` | fs/fs.c:260-272 | a path is about the live volume if and only if its first component is not `.xid` |
| `CheckpointPath.DirectoryIffAlone` | fs/fs.c:274-277 | a path names the checkpoint directory if and only if nothing but slashes follows that component |
| `CheckpointPath.PrintThenRead` | fs/fs.c:260-337 | printing then reading is the identity up to 18446744073709551609 and a refusal above |
| `PathResolve.Resolved` | kern/darwin.c:2497-2561 | succeeds if and only if every path on the way fits the buffer, then holds the components folded over a stack, and never writes past the capacity |
| `PathResolve.TakeComponent` | kern/darwin.c:2520-2554 | one pass of the loop applies exactly the next component to the path in the buffer |
| `PathResolve.Push` | kern/darwin.c:2545-2553 | one component is appended if and only if it and the terminator fit |
| `PathResolve.Pop` | kern/darwin.c:2535-2544 | dot-dot drops the last component, and is a no-op at the root |
| `PathResolve.Begin` | kern/darwin.c:2507-2517 | an absolute path starts at the root, any other at the working directory |
| `PathResolve.ResolveNormal` | kern/darwin.c:2497-2561 | the result is the root or slash-separated components, none empty, dot or dot-dot |
| `PathResolve.ResolveIdempotent` | kern/darwin.c:2497-2561 | resolving a result again, from any directory, changes nothing |
| `PathResolve.ResolveComposes` | kern/darwin.c:2497-2561 | resolving a/b is resolving b from where a leads |
| `PathResolve.ComponentsExactly` | kern/darwin.c:2520-2554 | after any path, dot leads nowhere else, a name one level down, dot-dot back up from it, and dot-dot at the root nowhere |
| `PathResolve.StartsExactly` | kern/darwin.c:2507-2517 | an absolute path leads to the same place from every working directory, a name one level below it, the empty path to it |
| `PathResolve.FitsExactly` | kern/darwin.c:2497-2561 | the buffer suffices if and only if every path on the way, written out, leaves room for its terminator |
| `PathResolve.RenderInjective` | kern/darwin.c:2497-2561 | normalised paths that read the same are the same |
| `PathResolve.FitsAtEnd` | kern/darwin.c:2497-2561 | a resolution that fits all the way ends in a path that fits |
| `PathResolve.WorkingDirectoryStaysNormal` | kern/darwin.c:3511-3528 | no run of chdir calls leaves a working directory that is not normalised or does not fit |
| `PathResolve.Task.constructor` | kern/task.c:128 | a task starts at the root |
| `PathResolve.Task.ChangeDirectory` | kern/darwin.c:3511-3528 | a chdir succeeds if and only if the path fits all the way and leads to the root or a directory; then it stores the resolved path, else it changes nothing |
| `RecordLocks.ApplyMeaning` | kern/darwin.c:1916-1972 | read as a map from file, owner and byte, a request changes exactly the bytes asked for and no other byte, owner or file |
| `RecordLocks.ApplyWellFormed` | kern/darwin.c:1916-1972 | one owner's ranges stay non-empty and disjoint, with no wrap at either end of the 64-bit range |
| `RecordLocks.OneSplit` | kern/darwin.c:1939-1949 | one request never needs a second split, so the one spare entry suffices |
| `RecordLocks.ConflictMeaning` | kern/darwin.c:1893-1907 | the scan finds a blocker if and only if another owner holds some asked-for byte incompatibly |
| `RecordLocks.TryExactly` | kern/darwin.c:1989-2018 | a lock is blocked if and only if some asked-for byte is held against it, refused for want of entries if and only if nothing is and the 32-bit count plus two exceeds 256, and granted otherwise; an unlock is always granted; only a grant changes the table |
| `RecordLocks.GrantKeepsExclusion` | kern/darwin.c:1989-2018 | a grant where nothing conflicts keeps every byte exclusive |
| `RecordLocks.ExclusionOverRuns` | kern/darwin.c:1989-2047 | over every run of requests, closes and exits, no two owners hold one byte with either a write lock |
| `RecordLocks.TableBound` | kern/darwin.c:1989-2018 | from at most 256 entries the limit is passed if and only if an unlock splits an entry of a full table; any unlock adds one entry if and only if it splits one; a grant had room if and only if the 32-bit count had not wrapped, and then leaves at most 256 |
| `RecordLocks.UnlocksGrowWithoutBound` | kern/darwin.c:1939-1949 | one lock on a whole file and n one-byte unlocks leave n + 1 entries, for every n the byte range has room for |
| `RecordLocks.CountWraps` | kern/darwin.c:1947 | a run after which 2^32 entries are counted as none and the next lock is let in |
| `RecordLocks.Count` | kern/darwin.c:1868 | the count equals the entries if and only if there are fewer than 2^32 |
| `RecordLocks.UnblockingIsNews` | kern/darwin.c:1916-1972 | a request that lets a blocked one through always reports a change, so waiters are told |
| `RecordLocks.DropMeaning` | kern/darwin.c:2020-2047 | a close or exit takes exactly that owner's locks on that file, or on all |
| `RecordLocks.LockTable.Conflict` | kern/darwin.c:1893-1907 | returns the first blocker in list order, none if and only if nothing blocks |
| `RecordLocks.LockTable.Apply` | kern/darwin.c:1916-1972 | entry by entry, as the kernel's loop goes, the list becomes the specified one and the 32-bit count follows it; the two-splits assertion is never wrong |
| `RecordLocks.LockTable.TrySet` | kern/darwin.c:1989-2018 | in place: the outcome, the table and the news of a set or unlock, refusals included, as `TryExactly` has them |
| `RecordLocks.LockTable.Release` | kern/darwin.c:2020-2047 | the list without the owner's entries, news if and only if any went |
| `Readiness.NoLostReadiness` | kern/darwin.c:1783-1826 | over every interleaving, nobody sleeps while one of their descriptors is ready unless a producer still owes its bump or wake |
| `Readiness.StepKeeps` | kern/darwin.c:1649-1657 | every step of producers and waiters keeps the relation of generation, scan and owed wakes |
| `Readiness.AnswersWereReady` | kern/darwin.c:1783-1826 | over every run, a descriptor answered was asked about in that call and was ready at the moment the call looked at it |
| `Readiness.SleepersLookedFirst` | kern/darwin.c:1783-1826 | over every run, whoever sleeps had read the generation that still stood when it parked, and then looked at every descriptor asked about and found each not ready |
| `Readiness.MovesExactly` | kern/darwin.c:1783-1826 | a scan answers if and only if the descriptor it looks at is ready; a park sleeps if and only if all were looked at, the generation stands and no wake is noted; only a full scan gives up; nobody else is touched |
| `Readiness.TurnsExactly` | kern/darwin.c:1783-1826 | each round starts from the generation that stands and with everything still to look at |
| `Readiness.ProducersExactly` | kern/darwin.c:1649-1657 | what is ready, the generation and each producer's duty after any step |
| `Readiness.WakesExactly` | kern/darwin.c:1649-1657 | an owed wake gets every sleeper going and no one else; a stray one its sleeper, or leaves a note |
| `Pipe.Shared.constructor` | kern/darwin.c:361-376 | a fresh pipe is empty with one reader and one writer |
| `Pipe.Shared.CopyOut` | kern/darwin.c:449-456 | the loop over wrapping positions takes exactly the oldest bytes, in order |
| `Pipe.Shared.CopyIn` | kern/darwin.c:557-562 | the loop over wrapping positions appends exactly the bytes, in order, over no byte still unread |
| `Pipe.Shared.Read` | kern/darwin.c:446-484 | one locked pass: bytes first, then end of stream, then signal, then sleep |
| `Pipe.Shared.Write` | kern/darwin.c:521-563 | one locked pass: no readers first, then a full ring, then as much as fits |
| `Pipe.Shared.Release` | kern/darwin.c:378-393 | one reference of one end less, and dead if and only if none of either is left |
| `Pipe.WindowExtend` | kern/darwin.c:557-562 | writing the slot after the contents extends them and disturbs none |
| `Pipe.WindowSkip` | kern/darwin.c:449-456 | moving the read position leaves the rest of the contents |
| `PipeRuns.StepKeeps` | kern/darwin.c:378-573 | every step of any thread keeps the stream, the order, the counts and the owed wakeups |
| `PipeRuns.StreamOverRuns` | kern/darwin.c:434-573 | over every interleaving, bytes taken then bytes in the ring are the bytes accepted, at most 4096 wait, and each thread's writes went in, and its reads came out, in the order of its calls |
| `PipeRuns.CallsMatchRequests` | kern/darwin.c:434-573 | over every run, a thread's calls, finished and not, are exactly the requests it made, in order, each with the length or the bytes it asked with |
| `PipeRuns.ReadsStayWithinTheirLength` | kern/darwin.c:434-486 | over every run, no read is given more bytes than it asked for, and its answer is their number, a failed copy-out, or an end or interruption with none |
| `PipeRuns.ReadPassExactly` | kern/darwin.c:446-484 | a pass of a read takes exactly the oldest bytes, as many as are asked for, fit the 512-byte buffer and are there; with none it ends at end of stream, or on a signal, or sleeps |
| `PipeRuns.WritePassExactly` | kern/darwin.c:521-563 | a pass of a write puts exactly the next bytes of its chunk, as many as there is room for, behind what is there; without readers it ends, and at a full ring it ends on a signal or sleeps |
| `PipeRuns.WriteGoesOn` | kern/darwin.c:494-520 | the next chunk is the next 512 bytes of the caller's buffer or what is left; a copy-in that fails ends the write with what moved, or EFAULT; a write of which all is in is answered its length |
| `PipeRuns.DescriptorsExactly` | kern/darwin.c:2623-2719 | dup and fork give exactly one more descriptor of the same end; a close takes exactly the one named and owes both sides their wakeup, or frees the pipe with the last |
| `PipeRuns.WakeupExactly` | kern/darwin.c:434-573 | a wakeup owed gets every sleeper of its side going and nobody else |
| `PipeRuns.StrayExactly` | kern/darwin.c:434-573 | a wake from elsewhere gets its thread going and changes nothing else |
| `PipeRuns.LifetimeOverRuns` | kern/darwin.c:378-407 | the counts are the live descriptors of each end across dup, fork and close, the pipe is freed once, with the last, and never under a call |
| `PipeRuns.NoUnderflow` | kern/darwin.c:385-391 | neither underflow assertion of the drop can fire |
| `PipeRuns.WakeIsOwed` | kern/darwin.c:434-573 | a sleeping reader or writer that could go on has a wakeup still owed to it |
| `PipeRuns.NobodySleepsForNothing` | kern/darwin.c:434-573 | once all wakeups are made, readers sleep only on an empty ring with a writer left, writers only on a full one with a reader left, and never both |
| `PipeRuns.EofExactly` | kern/darwin.c:466-469 | a read answers end of stream if and only if the ring is empty and no write descriptor lives |
| `PipeRuns.EndOfStreamIsFinal` | kern/darwin.c:466-469 | after that no run brings another byte, and the readers have had all that were accepted |
| `PipeRuns.BrokenPipeIsFinal` | kern/darwin.c:522-534 | with the last reader gone nothing is ever accepted or taken again |
| `PipeRuns.ReadinessIsAnnounced` | kern/darwin.c:1721-1740 | whichever step makes a pipe descriptor ready leaves its thread owing the readiness news |
| `PipeRuns.HonestExactly` | kern/darwin.c:434-573 | a call ending in a locked pass tells how much it moved if and only if it is neither a failed copy-out nor a partial write interrupted at a full ring |
| `PipeRuns.HonestOtherwise` | kern/darwin.c:494-573 | every other way a call ends tells how much it moved |
| `PipeRuns.InterruptedWriteExists` | kern/darwin.c:535-545 | a run from a fresh pipe in which a write is answered EINTR with 4096 bytes accepted |
| `PipeRuns.FaultedReadExists` | kern/darwin.c:447-464 | a run from a fresh pipe in which a read is answered EFAULT with its byte gone from the ring |
| `IrqRing.RefinesFifo` | dev/kbd.c:305-333 | over every interleaving and any number of 32-bit index wraps, the ring is a bounded FIFO: none lost, invented or reordered |
| `IrqRing.CallsAnswerTheStream` | dev/kbd.c:335-399 | over every run, what entered the ring is what arrived while the handler was idle and there was room, and the calls answered, one each and in order, exactly what was taken out, each the item it has just taken |
| `IrqRing.LookExactly` | dev/kbd.c:123-138 | a look goes on to read if and only if something was accepted and not taken |
| `IrqRing.NoLostWake` | dev/kbd.c:335-399 | the consumer never sleeps on a non-empty ring unless its wake is posted or the handler is on its way to post it |
| `IrqRing.QuietSleepIsArmed` | dev/kbd.c:335-399 | a consumer asleep with all quiet has an empty ring and its name where the next push finds it |
| `IrqRing.WakesAreEarned` | dev/kbd.c:305-399 | over every run, each wake delivered or on its way was earned by a handler that took the consumer's name, each name taken had been put there, each park cut short had a wake that found the consumer awake, and each time round had its mark |
| `IrqRing.ProduceTurns` | dev/kbd.c:305-333 | the handler wakes if and only if it found a name, and which shared words its steps write |
| `IrqRing.GetTurns` | dev/kbd.c:335-399 | the consumer parks if and only if the pending flag is clear and sleeps if and only if no wake is noted; an item found on the recheck is returned only after its name is out of the slot; and which shared words its steps write |
| `IrqRing.DropsOnlyWhenFull` | dev/kbd.c:305-318 | an arrival is refused if and only if the ring is full |
| `IrqRing.StoreMissesLiveSlots` | dev/kbd.c:305-318 | the handler never writes a slot between tail and head |
| `IrqRing.ContentsAreTheBacklog` | dev/uart.c:145-161 | the ring holds exactly what was accepted and not taken |
| `IrqRing.FillLevel` | dev/uart.c:224-237 | unsigned subtraction of the wrapped indices is the fill level |
| `IrqRing.RingSizes` | dev/kbd.c:29-33 | the keyboard's 128, the serial port's 256 and the mouse's 32 slots are sizes the argument covers |
| `IrqRing.FeedingParses` | dev/mouse.c:412-426 | feeding bytes one by one queues exactly the packets of the reference reading |
| `IrqRing.PacketsAreInTheStream` | dev/mouse.c:412-446 | every queued packet is three consecutive bytes of the stream, the first with bit 3 set |
| `IrqRing.StartsExactly` | dev/mouse.c:412-446 | a packet may start with a byte if and only if bit 3 of it is set |
| `Mutex.MutualExclusion` | kern/mutex.c:97-147 | over every run, no two threads hold a mutex, and the depth count is the number held |
| `Mutex.UnlockNeverPanics` | kern/mutex.c:182-211 | neither assertion of unlock can fire for a mutex the caller locked |
| `Mutex.NobodyStranded` | kern/mutex.c:167-211 | a free mutex with waiters always has a thread woken, or popped with its wake still due, on its way to the guard; the list has no duplicates |
| `Mutex.LockExactly` | kern/mutex.c:97-180 | a lock takes a mutex nobody holds, past any waiters, and else queues last and parks; a trylock takes exactly a mutex nobody holds, and else changes nothing: it never queues and never parks |
| `Mutex.RetakeExactly` | kern/mutex.c:97-147 | after a park the thread leaves the list from wherever it is, the others keeping their order, and takes the mutex or queues last again |
| `Mutex.UnlockExactly` | kern/mutex.c:182-211 | an unlock frees the mutex, takes the first waiter off the list and goes on to wake that one |
| `Mutex.WakeExactly` | kern/mutex.c:182-211 | the wake gets its thread going if it sleeps, is noted if not, and touches no other |
| `Mutex.StepKeeps` | kern/mutex.c:97-211 | every step, spurious wakes included, keeps owners, list and owed wakes in order |
| `Mutex.WaitList.Push` | kern/mutex.c:35-45 | the waiter is linked last and the tail is right |
| `Mutex.WaitList.Pop` | kern/mutex.c:47-60 | the first waiter is unlinked, the tail right when the list empties |
| `Mutex.WaitList.Find` | kern/mutex.c:66-84 | the walk finds the waiter's place or its absence |
| `Mutex.WaitList.Unbind` | kern/mutex.c:66-84 | the waiter is cut out of the middle or the ends, links and tail right |
| `BlockCache.CoherentOverRuns` | fs/bio.c:108-311 | over every interleaving of fetches and one write at a time, no page has two buffers and every valid buffer equals the disk on every sector the write in progress has not reached |
| `BlockCache.AtomicSectors` | fs/bio.c:248-311 | the cache refines a disk whose sectors change one at a time, each from before the write to after it and never back |
| `BlockCache.ReadsAreCurrent` | fs/bio.c:201-246 | at most the sectors asked for are returned, in order, and each is, at some moment of that call, the one with all completed writes applied, or also the one in flight |
| `BlockCache.ReadsFailOnlyOnErrors` | fs/bio.c:201-246 | over every run, a read is for the sectors its caller asked for, and one that failed had the device fail a fetch of its own since it started |
| `BlockCache.ReadStartsExactly` | fs/bio.c:201-215 | a read starts with nothing gained and the sectors asked for, and touches no buffer |
| `BlockCache.LookupExactly` | fs/bio.c:108-175 | a lookup that finds its page valid gains exactly the run of asked-for sectors there, one that finds it in flight or no buffer to spare changes nothing, and any other claims a buffer not in flight for the page |
| `BlockCache.FetchSectorExactly` | fs/bio.c:174-177 | a fetch reads the sectors of its page in order, each as the disk has it then, and touches nothing else |
| `BlockCache.FetchEndExactly` | fs/bio.c:179-199 | a failed fetch forgets the page and fails its reader, a stale one is dropped and the reader looks again, any other publishes the page and gains exactly the run of asked-for sectors there |
| `BlockCache.WriteStartsExactly` | fs/bio.c:248-276 | a write starts if none is in progress; one refused before its first sector changes no sector |
| `BlockCache.WriteSectorExactly` | fs/bio.c:248-276 | the sectors of a write go down in order, each changing that sector of the disk and no other |
| `BlockCache.WriteEndExactly` | fs/bio.c:277-311 | a write ends if and only if all its sectors are down, with the disk as they left it |
| `BlockCache.UsesAreRecorded` | fs/bio.c:133-199 | over every run, a hit and a page fetched each leave their buffer the most recently used of all |
| `BlockCache.StepKeeps` | fs/bio.c:108-311 | every step keeps the cache's invariant and moves no sector's value the wrong way |
| `BlockCache.PatchAllEffect` | fs/bio.c:277-311 | the nested run loops patch or mark stale exactly the buffers the write touches, sector by sector |
| `BlockCache.VictimMeaning` | fs/bio.c:140-151 | the victim is a free buffer if there is one, else the least recently used not in flight, and none only if all are |
| `BlockCache.AbortedWrite` | fs/bio.c:248-276 | a write that fails part-way leaves the cache wrong if and only if some buffer has, or will publish, the old bytes of a sector the device took |
| `BlockCache.BypassingWrite` | fs/bio.c:322-334 | a write round the cache and a later invalidation, readers running between, leave it wrong if and only if a fetch in flight, not marked stale, had read a sector before it changed |
| `BlockCache.CoherenceLost` | fs/bio.c:248-334 | a run of five steps after which both go wrong |
| `BlockCache.Cache.FindPage` | fs/bio.c:115-138 | the scan finds the page's buffer, valid or in flight, or its absence |
| `BlockCache.Cache.ChooseVictim` | fs/bio.c:140-151 | the scan picks the specified victim |
| `BlockCache.Cache.PatchPage` | fs/bio.c:286-307 | one page's part of a write, applied or marked stale in place |
| `BlockCache.Cache.MakeAgree` | fs/bio.c:277-311 | the loop over pages is the specified patch of all of them |
| `OpenTable.HoldMeaning` | fs/fs.c:93-117 | one more hold on this file and no other change; refused if and only if the file has no row and none is free |
| `OpenTable.ReleaseMeaning` | fs/fs.c:523-581 | one hold less, the mark gone with the last, no other change |
| `OpenTable.MarkMeaning` | fs/fs.c:848-897 | a held file is marked nameless and nothing else changes |
| `OpenTable.Table.Find` | fs/fs.c:77-86 | the scan finds the first live row of the file, or none |
| `OpenTable.Table.Acquire` | fs/fs.c:93-117 | the rows after a hold, or a refusal that changes none |
| `OpenTable.Table.Drop` | fs/fs.c:544-574 | the rows after a close, whether the file was found, and whether a reap is due |
| `FileHolds.StepKeeps` | fs/fs.c:423-1105 | every operation keeps counts, names, lifetimes and lengths in order |
| `FileHolds.FilesOutliveTheirNames` | fs/fs.c:505-581 | over every run, one row a file, its count the counted handles; a held file is there and marked exactly when nameless; a file with neither name nor holder is one whose reap failed |
| `FileHolds.LastCloseReaps` | fs/fs.c:523-581 | a close takes the file if and only if it was the last hold on a nameless file and the reap went through, and never finds its row missing |
| `FileHolds.UnlinkExactly` | fs/fs.c:848-897 | an unlink takes the name, and the file if and only if nothing holds it |
| `FileHolds.RenameExactly` | fs/fs.c:1043-1105 | the destination names the source's file, the source name is gone and every other name is as it was; a file that lost the name stays, bytes and all, if and only if held or the reap fails, and every other file stays; onto itself, or refused, nothing changes |
| `FileHolds.CreateExactly` | fs/fs.c:800-835 | a create adds exactly the name and an empty file, and nothing if the name is taken |
| `FileHolds.OpenExactly` | fs/fs.c:423-492 | an open gives a handle on the named file at its true length and one more hold, and is refused, with nothing changed, if there is no such file or no row for it |
| `FileHolds.ShareExactly` | fs/fs.c:505-516 | a shared handle is a copy with a hold of its own; one on a checkpoint needs none |
| `FileHolds.ChangesMoveTheGeneration` | fs/fs.c:124-146 | every change of a name or a file moves the generation on, so other handles look again, and what is done through a handle leaves it up to date and the others as they were |
| `FileHolds.HeldBytesStay` | fs/fs.c:423-1105 | while a handle is open its file and bytes stay, whatever is unlinked, renamed over, closed or created |
| `FileHolds.RefreshExactly` | fs/fs.c:124-146 | a refresh leaves a handle of the volume's generation, wrong if and only if the lookup it needed failed on a moved length, or it was wrong and needed none |
| `FileHolds.WrongLengthsExactly` | fs/fs.c:124-146 | over every run, lookups failing or not, a handle of the volume's generation carries the wrong length if and only if its last refresh failed after the length had moved from the one it knew |
| `FileHolds.CachedLengthsAreTrue` | fs/fs.c:124-146 | over every run whose lookups go through, such a handle carries the file's true length |
| `FileHolds.WriteLandsExactly` | fs/fs.c:630-694 | a write lands where it says in the file as it is now, with zeros in a gap, if and only if it does not end past the file's end but within the length its handle goes by; then that part is lost |
| `FileHolds.FailedWriteKeeps` | fs/fs.c:630-694 | a write that fails before it grows or puts changes nothing, and one that fails later changes no byte outside its range |
| `FileHolds.TruncateLandsExactly` | fs/fs.c:725-759 | a truncation leaves the length asked for, old bytes kept and new ones zero, if and only if the file is on the side of it the handle takes it to be on |
| `FileHolds.AppendExactly` | fs/fs.c:644-647 | an append lands exactly at the end if and only if its handle goes by the right length |
| `FileHolds.AppendsConcatenate` | fs/fs.c:630-694 | any interleaving of such appends leaves the file followed by the chunks in lock order |
| `FileHolds.LostAppend` | fs/fs.c:124-146 | a run from an empty volume in which an append after a failed lookup replaces another handle's bytes |
| `HeapBytes.LiveReadsBack` | kern/kmem.c:145-150 | bucket, magic and size read back from the header bytes just written |
| `HeapBytes.FreeReadsBack` | kern/kmem.c:212-219 | the link reads back from the bytes laid over the header |
| `HeapBytes.MagicIsHighHalf` | kern/kmem.c:188-190 | the magic field of any chunk is the high half of the link over it |
| `Heap.Memory.Paint` | kern/kmem.c:382-394 | exactly the bytes of the range get the pattern |
| `Heap.Memory.Verify` | kern/kmem.c:396-421 | passes if and only if every byte has the pattern, else gives the first that has not |
| `Heap.Memory.Store` | kern/kmem.c:147-150 | a little-endian store of any width changes exactly its bytes |
| `Heap.Memory.FindBucket` | kern/kmem.c:278-288 | the smallest bucket the request fits |
| `Heap.Memory.RefillBucket` | kern/kmem.c:295-320 | the page's chunks, poisoned and linked in order onto the freelist |
| `Heap.Memory.Alloc` | kern/kmem.c:104-156 | the bytes, heads and answer of an allocation, panics included |
| `Heap.Memory.AllocLarge` | kern/kmem.c:326-355 | the header of a run of pages, or NULL |
| `Heap.Memory.Free` | kern/kmem.c:177-222 | the bytes and heads after a free, or the panic, with nothing changed before it |
| `HeapRuns.StepKeeps` | kern/kmem.c:104-222 | every call, and every store outside headers and links, keeps chunks disjoint, headers readable, a run's page count included, and each freelist exactly its bucket's free chunks |
| `HeapRuns.PayloadsNeverMeet` | kern/kmem.c:104-156 | over every run, live payloads are in memory and meet neither each other nor a free chunk |
| `HeapRuns.AllocAnswers` | kern/kmem.c:104-156 | an address answered is a payload of the size asked for that nobody had, and NULL is answered if and only if nothing was asked, too many pages were, or neither freelist nor page allocator has anything |
| `HeapRuns.NoFalseAlarm` | kern/kmem.c:177-222 | a client that stores only into live payloads and frees each once never causes a panic |
| `HeapRuns.OverrunIsCaught` | kern/kmem.c:396-421 | freeing a live chunk panics if and only if some red-zone byte changed |
| `HeapRuns.UseAfterFreeIsCaught` | kern/kmem.c:445-469 | an allocation panics if and only if its freelist has a chunk and a byte past the link of the first one changed; one that refills never does |
| `HeapRuns.DoubleFreeIsCaught` | kern/kmem.c:188-190 | a second free of a chunk on a freelist always fails the magic check, links being below 4 GiB |
| `HeapRuns.SecondFreeExactly` | kern/kmem.c:188-190 | for any bytes at all, a free passes the magic check if and only if the high half of the link spells the magic |
| `HeapRuns.LargeRunsReturn` | kern/kmem.c:326-378 | over every run, a run of pages is the shortest that holds its payload, and its header gives kfree its start and exactly the number of pages it took |
| `HeapRuns.LargeFreedOnce` | kern/kmem.c:357-378 | freeing a run of pages clears its magic and stores nothing else, so a second free before the pages are used again is caught |
| `HeapRuns.DamageStays` | kern/kmem.c:396-469 | a chunk with a broken pattern byte is never handed out or taken back by any run that does not repair it |
| `HeapRuns.HeldBytesStay` | kern/kmem.c:104-222 | a byte of a live chunk keeps its value through every run that neither stores to it nor frees the chunk |
| `Terminal.PutAll` | dev/tty.c:614-733 | for every byte stream the cursor stays on screen, an armed wrap, live or saved, is in the last column, margins stay ordered, parameters stay eight and at most 9999, and every cell access is in range |
| `Terminal.PlainOutputStaysInRegion` | dev/tty.c:1564-1598 | output without escapes that starts in the scrolling region never changes a row outside it |
| `Terminal.TextOnOneRow` | dev/tty.c:679-733 | text that fits its row is shown there cell by cell, and filling the last column only arms the wrap |
| `Terminal.LineCostsOneRow` | dev/tty.c:679-733 | a line of up to 80 characters and a newline cost exactly one row |
| `Terminal.RestoreReturns` | dev/tty.c:1076-1094 | whatever comes between a save and a restore, place, colour and armed wrap come back |
| `Terminal.EraseDisplayByPlace` | dev/tty.c:1005-1028 | erase in display blanks exactly the cells on the stated side of the cursor |
| `Terminal.EraseLineByPlace` | dev/tty.c:1030-1049 | erase in line does so within the cursor's row only |
| `Terminal.ScrollByPlace` | dev/tty.c:1564-1582 | a scroll moves the region's rows up by one, blanks the last and leaves the others |
| `Terminal.ParametersExactly` | dev/tty.c:642-655 | a parameter is its digits' value clamped at 9999, at every digit, if and only if no prefix spells 65536 to 75534 |
| `Terminal.ParameterExactly` | dev/tty.c:642-655 | the value a final byte uses is the digits' value clamped at 9999 if and only if no prefix wrapped, or enough digits followed to reach the clamp again |
| `Terminal.DigitExactly` | dev/tty.c:650-655 | one more digit is right if and only if the value does not wrap into the clamp's range |
| `Terminal.ClampComesTooLate` | dev/tty.c:650-655 | 65537 leaves 1 |
| `Terminal.TypedDigits` | dev/tty.c:642-655 | the digits typed for a parameter leave exactly that value in the next slot and touch no other |
| `Sequences.CursorPosition` | dev/tty.c:980-986 | byte by byte, ESC [ row ; column H or f puts the cursor where the parameters say, which is where the digits do unless they wrap, 0 or nothing as 1 and too much as the last, and changes no cell |
| `Sequences.CursorMoves` | dev/tty.c:988-1003 | byte by byte, finals A, B, C and D move the cursor up, down, right and left by the number typed unless it wraps, 0 or nothing as 1, as far as the edge, and change nothing else |
| `Sequences.MarginsSet` | dev/tty.c:1055-1074 | byte by byte, final r sets the margins to the rows typed, a number left out being the screen's edge and an empty or inverted region the whole screen, and sends the cursor to the top left |
| `Sequences.Erases` | dev/tty.c:1005-1049 | byte by byte, finals J and K blank exactly the cells the number typed says, of the screen or the row |
| `Sequences.ColourSet` | dev/tty.c:1051-1053 | byte by byte, final m sets the colour and nothing else: an owed wrap stays owed |
| `Sequences.SaveRestoreExactly` | dev/tty.c:1076-1100 | byte by byte, s keeps the cursor, u puts back the one kept if any, and an unknown final does nothing |
| `Sequences.CursorShown` | dev/tty.c:948-957 | byte by byte, of the private sequences only 25 with h or l does anything: it shows or hides the cursor |
| `Sequences.ResetExactly` | dev/tty.c:633-639 | byte by byte, ESC c blanks the screen in the default colour, homes the cursor and forgets the saved one; margins stay |
| `Sequences.UnknownBytes` | dev/tty.c:640-675 | an unknown escape, an unknown byte inside a sequence and a digit of a ninth parameter change nothing |
| `Sequences.TabStops` | dev/tty.c:698-710 | a tab goes to the next multiple of 8, or to the last column owing a wrap |
| `Sequences.ControlsExactly` | dev/tty.c:694-716 | a backspace steps left and blanks the cell it lands on, a carriage return goes to the first column, and no other control byte does anything |
| `Sequences.NewlineExactly` | dev/tty.c:689-693 | a newline goes to the first column of the next row, scrolling the region exactly on its last row |
| `Console.CursorFollows` | dev/tty.c:367-432 | over any bytes and nested batches, outside a batch the hardware cursor is at row * 80 + column |
| `Console.OneProgramPerBatch` | dev/tty.c:413-432 | an outermost batch programs the cursor once if it ended elsewhere, else not at all |
| `Console.WroteBatch` | dev/tty.c:1544-1553 | a write does to the terminal what its bytes do, and to the cursor what one batch does |
| `Console.Screen.constructor` | dev/tty.c:285-313 | the initial screen and cursor are in order |
| `Console.Screen.EraseRange` | dev/tty.c:599-612 | exactly the cells of the range, clamped to the screen, become blank |
| `Console.Screen.Scroll` | dev/tty.c:1564-1582 | the two loops scroll the region |
| `Console.Screen.Feed` | dev/tty.c:1590-1598 | a line feed scrolls on the bottom margin and otherwise steps down to the last row |
| `Console.Screen.GroundByte` | dev/tty.c:679-733 | in place, one byte in the ground state has exactly its specified effect on cells, cursor and parser |
| `Console.Screen.DispatchByte` | dev/tty.c:938-1100 | in place, every final byte moves, erases, colours, saves or sets margins as specified, and of the private ones only the cursor's visibility does anything |
| `Console.Screen.CsiByte` | dev/tty.c:642-675 | in place, digits, separators, the private mark and finals drive the parser as specified, beyond eight parameters ignored |
| `Console.Screen.Sync` | dev/tty.c:367-386 | programs the cursor outside a batch, defers inside one, and forgets a deferral when the cursor is back |
| `Console.Screen.Putc` | dev/tty.c:338-357 | one byte through parser and screen, then one sync, a reset's own sync making no difference |
| `Console.Screen.BatchEnd` | dev/tty.c:422-432 | only the outermost close programs the cursor, and only if it is behind |
| `Console.Screen.Write` | dev/tty.c:1544-1553 | the screen after a write is the one its bytes make, in one batch |

## Left out

- APFS and FAT internals: the volume is a map of names and a map of files whose edits happen or change nothing; directories and hard links are not in it.
- Scheduler and thread internals: a wake makes a sleeper runnable, a park drops its lock and sleeps in one move, a thread never retires inside a park.
- Device input and output, interrupt setup, deadlines and the wall clock; the disk is a map of sectors.
- x86 store buffering: exchanges and atomic accesses are single steps in one order.
- Conversion of `struct flock` offsets to absolute ranges, and a NULL path pointer.
- Signal frames, exec, exit, zombies, Mach calls, the console line discipline and its input ring.
- Colour: SGR and palette matching (the attribute an SGR sets is an input), the copies sent to serial port and debug port, and the console lock.
- fs/fs_txn.c, kprintf, loaders, the shell, self-tests and statistics counters.
- Large-run bookkeeping and `kmem_cached_pages`: counters only.
- RecordLocks.LockTable.Apply: the list is a sequence the method rebuilds, not linked entries, and memory for entries does not run out.
- Readiness.NoLostReadiness: the 64-bit generation is unbounded.
- BlockCache.VictimMeaning: use stamps are unbounded.
- Mutex.NobodyStranded: parks that end in thread retirement are not modelled.
- PipeRuns.StepKeeps: a descriptor belongs to one thread, as tasks here have one; two threads of one task sharing a descriptor are not modelled.
- FileHolds.StepKeeps: the operations are on values, not in place, except for the table of open files; generations, sizes and offsets are unbounded, where callers keep offset plus length within 64 bits.
- HeapRuns.StepKeeps: requests are those whose size plus 16 does not wrap, memory is at most 4 GiB, pages come from an allocator that hands out each once, and a free names NULL or a chunk of the heap.
- BlockCache.BypassingWrite: the write round the cache is the only one in progress; a cached write at the same time is not modelled.
