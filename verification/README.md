# Verified models of nx

nx is a small x86-64 kernel with its boot loader and libraries. This project
models the parts of it that are hardest to get right and proves what they
promise. `dafny verify dfyconfig.toml` checks all of it.

**Decompression.** `InflateSpec` says what a DEFLATE stream means, read off RFC
1951: bits by position, symbols by their canonical code words (`Huffman`).
`TinfTree`, `FixedCodes` and `Tinflate` are tinflate, proved to compute exactly
that on every input, to terminate and to stay within its buffers. `Miniz` and
`MinizDecode` are the two-level tables of miniz, proved to find the same symbol
as the definition and so the same as tinflate. `Deflate` is RFC 1951 from the
writer's side, and `RoundTrip` shows that whatever can be written so is read
back. `Checksums` has both implementations each of Adler-32 and CRC-32.

**Heap.** `ChunkStacks` is the state machine of any number of threads on the
lock-free lists, a step at a time; `ChunkProgress` is what single operations on
them come to, whatever the other threads do. `HeapMemory`, `Heap` and
`HeapAllocator` are the allocator on top of them, with the bytes it keeps in
front of every pointer.

**Page tables.** `PageTables` has physical memory as frames of 512 entries and
the walk of the processor, and `PageAccess` what the entries of a walk together
allow. `VirtMap` reaches every table through its address in a recursive slot, as
the kernel does, and is proved to refine an update of the abstract map from
pages to entries. `TempMapper` does so for another process.

**Scheduler.** `SchedState` is the scheduler of one processor as a state
machine, `SchedRuns` proves what holds over every run, `SchedOrder` who goes
before whom and when the clock takes the processor away, and `SchedFair` how
long a ready thread can be passed over. `Scheduler` is the code, proved to make
exactly those transitions.

**Extents and tickets.** `Extents` is the page-extent allocator. `Tickets` is
shared memory by ticket: reference counts, the steps in which a ticket is
released, and the frames behind it.

Some things the code or its comments promise do not hold. Each is stated with a
case where it fails and the exact condition under which it holds:

- Giving back a range of pages just below a free extent moves that extent down
  without making it larger, so as many pages are lost (`Extents.Conserves`,
  `Extents.RoundTripLoses`).
- A thread that is terminated while it is blocked stays in the list of blocked
  threads when it is destroyed, and that is the only way an entry comes to
  dangle (`SchedRuns.Dangling`, `SchedRuns.DanglingRun`).
- A process that has collected a ticket several times and released it fewer
  times drops too many references when it dies (`Tickets.DieCounts`,
  `Tickets.FreedTooSoonRun`).
- Between the two steps of the last release a ticket can be found though its
  memory is gone (`Tickets.CollectCounts`, `Tickets.CollectedTooLate`).
- Two processes that touch a new page of a ticket at the same time can end up
  with different frames (`SharedPages.AddKeeps`).
- A dynamic block may announce up to 32 distance codes in RFC 1951, the last two
  without meaning; tinflate refuses more than 30. `InflateSpec` follows it, so a
  DEFLATE stream here is one without such a block.
- The comment on `expandBucket` says that left-over space goes to chunks from 64
  bytes down; the loop starts at 48 bytes, and so does the model.
- The final test for overflow in `tinf_uncompress` can never be what fails: a
  block that succeeds has read nothing past the end.

## Model

| member | source | states |
|---|---|---|
| `Huffman.PrefixFree` | libs/tinflate/tinflate.c:112-176 | no code word of a canonical code is a prefix of another, so a bit string begins with at most one |
| `Huffman.CompleteCovers` | libs/tinflate/tinflate.c:228-262 | of a complete code, every string of fifteen bits begins with some code word |
| `Huffman.WordOfNumber` | libs/tinflate/tinflate.c:228-262 | the numbers from the first code of a length on, one for each code of that length, are exactly the codes in symbol order |
| `Huffman.KraftEquality` | libs/tinflate/tinflate.c:136-165 | counting down the codes left over at each length comes to zero exactly when the Kraft sum is one |
| `InflateSpec.CodeAtUnique` | libs/tinflate/tinflate.c:228-262 | at most one symbol's code word stands at a position of a stream |
| `TinfTree.Tree.CountLengths` | libs/tinflate/tinflate.c:119-134 | the counts are the numbers of codes of each length, and the largest symbol with a code is found |
| `TinfTree.Tree.Offsets` | libs/tinflate/tinflate.c:136-165 | the code is accepted as far as no length has more codes than are left, and the offsets are where each length starts in the sorted order |
| `TinfTree.Tree.Distribute` | libs/tinflate/tinflate.c:167-173 | every symbol with a code is put at its rank in the order of length, then symbol |
| `TinfTree.Tree.Build` | libs/tinflate/tinflate.c:112-176 | a set of lengths is accepted if and only if its Kraft sum is one, it has no code, or it has one code of length one; the tree then holds the canonical code, with a second code added to a single one |
| `TinfTree.EffectiveOfSingle` | libs/tinflate/tinflate.c:157-173 | a single code is completed by one for the symbol just above every symbol, which the callers tell apart |
| `FixedCodes.BuildFixedTrees` | libs/tinflate/tinflate.c:69-109 | the trees written out by hand hold the canonical codes of the fixed lengths of section 3.2.6 of RFC 1951 |
| `FixedCodes.FixedAccepted` | libs/tinflate/tinflate.c:69-109 | the fixed lengths are complete codes that tree building would accept |
| `Tinflate.TinfData.Refill` | libs/tinflate/tinflate.c:180-195 | refilling by bytes leaves the position in the bit stream alone, gives as many bits as asked for and at most seven more |
| `Tinflate.TinfData.GetBits` | libs/tinflate/tinflate.c:198-219 | the next n bits, lowest first, of the input continued with zeros; overflow is set exactly when the position is past the end; otherwise the byte pointer is at the next byte boundary |
| `Tinflate.TinfData.GetBitsBase` | libs/tinflate/tinflate.c:222-225 | the base plus the next n bits, with no bit consumed for n = 0 |
| `Tinflate.TinfData.DecodeSymbol` | libs/tinflate/tinflate.c:228-262 | the symbol returned is the one whose canonical code word stands at the position, and exactly that word is consumed; at most fifteen bits are looked at |
| `Tinflate.LengthTable` | libs/tinflate/tinflate.c:396-406 | the tables of length bases and extra bits agree with the rule of section 3.2.5 of RFC 1951 |
| `Tinflate.DistTable` | libs/tinflate/tinflate.c:409-419 | and so do those of distances |
| `Tinflate.ClcTable` | libs/tinflate/tinflate.c:271-274 | the order of the code length code is the inverse of the places of section 3.2.7 |
| `Tinflate.TinfData.ReadClcLengths` | libs/tinflate/tinflate.c:302-312 | the lengths of the code length code as the stream gives them |
| `Tinflate.TinfData.DecodeRun` | libs/tinflate/tinflate.c:328-365 | one symbol of the code length sequence has the effect RFC 1951 gives it, or is refused exactly when that has none |
| `Tinflate.TinfData.DecodeLengths` | libs/tinflate/tinflate.c:327-366 | all code lengths of a dynamic block, or an error exactly when the stream does not give them |
| `Tinflate.TinfData.DecodeTrees` | libs/tinflate/tinflate.c:265-387 | both dynamic trees hold the codes of section 3.2.7, or the block is refused exactly when the stream has no such codes |
| `Tinflate.TinfData.CopyMatch` | libs/tinflate/tinflate.c:475-479 | a match that overlaps itself comes out as the last bytes repeated periodically; nothing else of the output changes |
| `Tinflate.TinfData.InflateMatch` | libs/tinflate/tinflate.c:446-479 | a length and distance pair is decoded, checked against output and room, and copied as the reference says |
| `Tinflate.TinfData.InflateBlockData` | libs/tinflate/tinflate.c:392-482 | terminates on every input; the output is extended by the data of the block as defined on the bit stream, or the error says which of stream and room is at fault |
| `Tinflate.TinfData.InflateUncompressedBlock` | libs/tinflate/tinflate.c:485-524 | a stored block is taken from the next byte boundary with its length checked against its complement |
| `Tinflate.TinfData.InflateDynamicBlock` | libs/tinflate/tinflate.c:537-548 | a dynamic block is decoded as the reference does |
| `Tinflate.TinfData.InflateBlocks` | libs/tinflate/tinflate.c:576-608 | all blocks up to the final one, decoded as the reference does, with termination; after success no bit past the end has been read |
| `Tinflate.Uncompress` | libs/tinflate/tinflate.c:559-618 | for every input: success if and only if the input is a DEFLATE stream whose data fits, the output is then exactly that data, a data error only if it is no such stream, and no byte beyond the given length is written |
| `RoundTrip.RepeatCounts` | libs/tinflate/tinflate.c:334-357 | symbol 16 stands for the counts 3 to 6, 17 for 3 to 10 and 18 for 11 to 138, each count with one value of its extra bits |
| `RoundTrip.LengthSymbols` | libs/tinflate/tinflate.c:396-406 | every length from 3 to 258 is one symbol with one value of its extra bits, but for 258, which has symbol 285 and the last value of symbol 284 |
| `RoundTrip.DistSymbols` | libs/tinflate/tinflate.c:409-419 | every distance from 1 to 32768 is exactly one symbol with one value of its extra bits |
| `RoundTrip.RunsRead` | libs/tinflate/tinflate.c:327-366 | code lengths written in any way as single lengths, repeats of the last and runs of zeros are read back as those lengths |
| `RoundTrip.HeaderReads` | libs/tinflate/tinflate.c:265-387 | the head of a dynamic block, with any code for the code lengths and any number of its lengths sent, gives back the two codes it was written for |
| `RoundTrip.RepeatedIsCopy` | libs/tinflate/tinflate.c:475-479 | the periodic copy the decoders are held to is repeating one byte after the other |
| `RoundTrip.ItemsRead` | libs/tinflate/tinflate.c:392-482 | literals and matches written one after the other with any two codes are read back as what they stand for, and the block ends behind them |
| `RoundTrip.RawReads` | libs/tinflate/tinflate.c:485-524 | a stored block is read back whatever the padding in front of it |
| `RoundTrip.InflateStream` | libs/tinflate/tinflate.c:559-618 | every stream of stored, fixed and dynamic blocks that can be written, of any number of blocks, literals, matches and runs, inflates to exactly the data it was written for |
| `RoundTrip.ReservedRefused` | libs/tinflate/tinflate.c:587-603 | a block of type 3 is refused |
| `RoundTrip.ComplementRefused` | libs/tinflate/tinflate.c:493-502 | so is a stored block whose second length is not the complement of the first |
| `RoundTrip.FarMatchRefused` | libs/tinflate/tinflate.c:462-468 | a match that reaches back beyond the start of the data |
| `RoundTrip.NoSymbolRefused` | libs/tinflate/tinflate.c:444-447 | a literal symbol above 285 |
| `RoundTrip.NoDistanceRefused` | libs/tinflate/tinflate.c:455-460 | a distance symbol above 29 |
| `RoundTrip.RunRefused` | libs/tinflate/tinflate.c:334-361 | a run that repeats nothing or goes past the lengths announced |
| `RoundTrip.CountsRefused` | libs/tinflate/tinflate.c:280-300 | more than 286 literal or 30 distance codes |
| `RoundTrip.CodesRefused` | libs/tinflate/tinflate.c:314-384 | and codes that are over-subscribed or incomplete, or have no end of block |
| `RoundTrip.InflateWritten` | libs/tinflate/tinflate.c:527-534 | any data at all can be written, as literals with the fixed codes, and inflates to itself |
| `RoundTrip.InflateDynamic` | libs/tinflate/tinflate.c:537-548 | and so it can in a dynamic block with a code of its own |
| `Miniz.NodeBound` | libs/miniz/miniz.c:330-365 | the overflow tree of a complete code of up to 288 symbols needs at most 287 nodes, so it stays within its array |
| `Miniz.HuffTable.ReverseCode` | libs/miniz/miniz.c:328-333 | the code with its bits in reading order |
| `Miniz.HuffTable.FillShort` | libs/miniz/miniz.c:334-343 | a short code is found at exactly the ten-bit indices that begin with it |
| `Miniz.HuffTable.InsertLong` | libs/miniz/miniz.c:344-364 | a long code is entered below its first ten bits without disturbing any code entered before |
| `Miniz.HuffTable.FirstCodes` | libs/miniz/miniz.c:313-321 | the first code of each length as section 3.2.2 of RFC 1951 gives it, and a total that is 65536 exactly for a complete code |
| `Miniz.HuffTable.Build` | libs/miniz/miniz.c:304-365 | a code of several symbols is refused if and only if it is not complete; otherwise every code word leads to its symbol through lookup and tree |
| `Miniz.HuffTable.LookUp` | libs/miniz/miniz.c:158-170 | whatever bits follow, the two-level table gives the one symbol whose code word they begin with and that word's length, and stays within its arrays |
| `MinizDecode.Input.FillSlowly` | libs/miniz/miniz.c:109-132 | bytes are added one at a time until a code word is complete, and none after that |
| `MinizDecode.Input.HuffDecode` | libs/miniz/miniz.c:140-172 | the decoded symbol is the one RFC 1951 defines at the position, which is also what the tinflate decoder returns; exactly its bits are consumed and near the end no byte is read that it does not need |
| `ChunkStacks.StepRefines` | kernel/source/mm/_heap_impl.h:247-276 | every single step of any thread on the compare-and-swap lists keeps the invariant and is a push, a pop or nothing on abstract stacks |
| `ChunkStacks.RunRefines` | kernel/source/mm/_heap_impl.h:247-276 | so does every run of any number of threads in any interleaving, with the two words of a head read separately |
| `ChunkStacks.RunConserves` | kernel/source/mm/_heap_impl.h:247-276 | no chunk is lost and none comes into being |
| `ChunkStacks.NeverTwice` | kernel/source/mm/_heap_impl.h:247-276 | in every reachable state a chunk is in one list once or in the hands of one thread, never both and never two |
| `ChunkStacks.SuccessMeansUnchanged` | kernel/source/mm/_heap_impl.h:257-262 | when the swap of a pop succeeds, the next pointer read before is still the one in memory |
| `ChunkStacks.CounterCounts` | kernel/source/mm/_heap_impl.h:257-276 | over every run the counter of a list grows by exactly the number of operations on it that took effect |
| `ChunkStacks.FailureMeansProgress` | kernel/source/mm/_heap_impl.h:260-275 | when a swap is about to fail, some other thread has completed an operation on that list since this thread began to read it |
| `ChunkStacks.NullMeansEmpty` | kernel/source/mm/_heap_impl.h:254-255 | a pop sees a null head exactly when the list is empty at that moment |
| `ChunkProgress.EmptyOnlyIfEmpty` | kernel/source/mm/_heap_impl.h:247-263 | over every run, a pop ends with nothing only if the list was empty at some moment since that pop began |
| `ChunkProgress.PopNotOvertaken` | kernel/source/mm/_heap_impl.h:247-263 | over every run in which no other thread swaps the head of the list meanwhile, a pop that takes its steps gets the top of the list, or nothing exactly if the list is empty |
| `ChunkProgress.PushNotOvertaken` | kernel/source/mm/_heap_impl.h:265-276 | and a push that does leaves its chunk on top of the list, with the rest below it |
| `HeapMemory.PtrFits` | kernel/source/mm/_heap_impl.h:297-306 | the pointer is aligned, the two words and the offset byte fit in front of it, the bytes asked for end within the block, and the offset is between 1 and 255 |
| `HeapMemory.OffsetByte` | kernel/source/mm/_heap_impl.h:297-306 | the offset fits into its byte unless the alignment is 256 and the words end on a multiple of 256, which a block at a multiple of 128 rules out |
| `HeapMemory.TotalIsLeast` | kernel/source/mm/_heap_impl.h:339-344 | the size worked out for a request is the least that is enough wherever the block starts |
| `HeapMemory.PagesEnough` | kernel/source/mm/_heap_impl.h:367-368 | the number of pages is more than enough for a size, by at most one page |
| `Heap.LiveApart` | kernel/source/mm/_heap_impl.h:309-417 | two live allocations do not overlap, and neither reaches into the block of the other |
| `HeapAllocator.SpareEnough` | kernel/source/mm/_heap_impl.h:217-221 | the assertion on spare chunks holds for every bucket but that of 24 bytes, and for that one if and only if 85 are left over |
| `HeapAllocator.Allocator.constructor` | kernel/source/mm/_heap_impl.h:510-606 | the heap starts with sixteen pages cut into disjoint chunks, at least one in each bucket, and counters that are right |
| `HeapAllocator.Allocator.PlanInitial` | kernel/source/mm/_heap_impl.h:523-554 | the sixteen pages are used up without remainder |
| `HeapAllocator.Allocator.GetFittingBucket` | kernel/source/mm/_heap_impl.h:281-292 | the smallest bucket that fits, or none |
| `HeapAllocator.Allocator.PlanExpansion` | kernel/source/mm/_heap_impl.h:192-215 | two pages give as many chunks of the size asked for as fit, one more of each of the three smallest sizes unless what remains is too small for it, and nothing else |
| `HeapAllocator.Allocator.ExpandBucket` | kernel/source/mm/_heap_impl.h:176-243 | an expansion makes disjoint new chunks and adds all that two pages hold to the bucket; every chunk comes from a spare record, of which a page is made only if too few are left; lists, counters and live allocations stay right |
| `HeapAllocator.Allocator.Allocate` | kernel/source/mm/_heap_impl.h:309-417 | for any alignment up to 16 or of 32 to 256: a pointer that is a multiple of 16 and of the alignment, if that is a power of two, to memory no live allocation has, filled with 0x55 and marked with the caller, and no byte of any other allocation changed; the used list has one chunk for each live small allocation and the byte count is the sum over live allocations |
| `HeapAllocator.Allocator.Deallocate` | kernel/source/mm/_heap_impl.h:421-497 | the block, the bucket and the number of pages are recovered from the bytes in front of the pointer; the used list is not empty; a chunk is filled with 0xAA and goes to the front of the bucket it came from; no other allocation changes |
| `HeapAllocator.Allocator.Write` | kernel/source/mm/_heap_impl.h:326-336 | an owner writing its own bytes leaves every allocation's bookkeeping intact |
| `PageTables.WindowShows` | kernel/source/mm/virtmap.cpp:40-71 | through a recursive slot the hardware walk of each table address ends at the table its indices choose |
| `PageTables.IndexOfParts` | kernel/source/mm/virtmap.cpp:28-36 | the four indices of an address put together from four indices are those |
| `PageTables.SetLeaf` | kernel/source/mm/virtmap.cpp:308-310 | writing an entry of a last-level table changes the translation of that page and of no other, if tables are not shared |
| `PageTables.LinkPte` | kernel/source/mm/virtmap.cpp:268-305 | linking a fresh, cleared table in changes the translation of no page |
| `VirtMap.PageAlignParts` | kernel/include/defs.h:237-244 | aligning an entry made of a frame and flags gives the frame back |
| `PageTables.WalkIs` | kernel/source/mm/virtmap.cpp:28-36 | the walk of the processor ends where the entry of the page leads to |
| `VirtMap.Mmu.MapInternal` | kernel/source/mm/virtmap.cpp:236-314 | mapping succeeds exactly outside the window slots, for no user page in the higher half, with frames for the missing tables and nothing mapped there unless it may be overwritten; then the walk of every address in the page ends at what was asked for and every other walk as before; and with all four entries of the walk asked, the page is for user code, for writing or for execution exactly if its flags say so, given tables that were missing or let it through, every other page is as before, and no page of the higher half becomes one for user code |
| `PageAccess.LinkEntryAt` | kernel/source/mm/virtmap.cpp:272-306 | linking a cleared table changes one entry of the whole tree and no other |
| `PageAccess.MappedAllows` | kernel/source/mm/virtmap.cpp:247-253 | a page mapped through new tables, or ones that let it through, allows exactly what its own entry does |
| `PageAccess.OthersAllow` | kernel/source/mm/virtmap.cpp:247-253 | and what any other page allows does not change |
| `VirtMap.Mmu.GetPageFlags` | kernel/source/mm/virtmap.cpp:405-438 | the flags of the page in the map, zero if a table is missing |
| `VirtMap.Mmu.GetPhysAddr` | kernel/source/mm/virtmap.cpp:506-542 | the frame of a page in the map, or the abort if there is none |
| `VirtMap.Mmu.IsMapped` | kernel/source/mm/virtmap.cpp:544-576 | true if and only if every page of the range is present in the map |
| `VirtMap.Mmu.UnmapPage` | kernel/source/mm/virtmap.cpp:453-502 | a present entry is cleared, a lazy one loses its mark and keeps every other bit, and no other walk changes; it aborts exactly when it should |
| `VirtMap.Mmu.UnmapAddress` | kernel/source/mm/virtmap.cpp:440-504 | exactly the pages of the range are unmapped, on the entries and on the walks of the processor |
| `TempMapper.Enter` | kernel/source/mm/virtmap.cpp:191-204 | with slot 509 of both roots set, for the kernel alone and for writing, the window shows the tables of the other process, and no page of either process has changed |
| `TempMapper.Leave` | kernel/source/mm/virtmap.cpp:206-217 | both slots are empty again and no page of either process has changed |
| `TempMapper.MapInto` | kernel/source/mm/virtmap.cpp:236-314 | mapping into another process, from opening the window to closing it with a scratch page each: success exactly with frames for every table needed; the walks of the page asked for end at its entry, every other walk of both processes as before, what the pages of the other process allow is as for a mapping of its own, and both slots are left empty |
| `SchedRuns.BestIsFirst` | kernel/source/scheduler/switch.cpp:27-47 | the search finds the first ready thread that no ready thread beats |
| `SchedOrder.SwitchInOrder` | kernel/source/scheduler/priority.cpp:25-30 | over all that contend, none is passed over for one of its kind that last ran with it and is boosted less, that is boosted alike and has waited less by 9, 8 or 7 microseconds, nor for one of a lower kind that has not waited 400, 450 or 900 milliseconds; one that has waited longer is not passed over for a higher kind that has just run |
| `SchedOrder.NotifiedGoesFirst` | kernel/source/scheduler/scheduler.cpp:231-282 | a thread just notified is not passed over for a rival of its kind boosted no more than it was, unless that has waited longer by what a boost is worth: almost 162, 120 or 84 milliseconds |
| `SchedOrder.BoostsAdd` | kernel/source/scheduler/priority.cpp:32-35 | boosts add up |
| `SchedOrder.TickHandsOut` | kernel/source/scheduler/switch.cpp:208-238 | a tick hands the processor out exactly if no lock is held and it was asked to, a sleeper is due or it is the fourth of the slice |
| `SchedOrder.FourTicks` | kernel/source/scheduler/switch.cpp:208-238 | without a lock, one of any four ticks does |
| `SchedOrder.NoTickSwitches` | kernel/source/scheduler/switch.cpp:228-230 | while a lock is held, no number of ticks does |
| `SchedRuns.ApplyValid` | kernel/source/scheduler/scheduler.cpp:120-327 | every operation keeps the invariant of the scheduler: only the current thread is running, blocked threads are listed once, threads about to exit are queued for destruction or destroyed, no priority is from the future |
| `SchedRuns.OnlyCurrentRuns` | kernel/source/scheduler/switch.cpp:50-114 | in every reachable state only the current thread is marked running, and after a switch it is |
| `SchedRuns.ExitIsFinal` | kernel/source/scheduler/scheduler.cpp:120-210 | over every run, a thread about to exit stays so and never becomes current again |
| `SchedRuns.NoEarlyWake` | kernel/source/scheduler/switch.cpp:270-302 | over every run, a sleeping thread is not let go before its time |
| `SchedRuns.SleepLasts` | kernel/source/scheduler/scheduler.cpp:313-327 | so nanosleep lasts at least as long as asked, whatever runs in between |
| `SchedRuns.NoSpuriousWake` | kernel/source/scheduler/scheduler.cpp:213-229 | over every run in which its condition is not notified, a blocked thread stays blocked or is terminated |
| `SchedRuns.NoLateWake` | kernel/source/scheduler/switch.cpp:208-239 | after every tick no thread is asleep whose time has come |
| `SchedRuns.NotifyOneWakesFirst` | kernel/source/scheduler/scheduler.cpp:231-277 | notifyOne wakes the waiter that is first in the queue, if there is one, and touches no other thread |
| `SchedRuns.NotifyAllWakesAll` | kernel/source/scheduler/scheduler.cpp:231-282 | notifyAll wakes exactly the threads waiting on the condition |
| `SchedRuns.Dangling` | kernel/source/scheduler/scheduler.cpp:165-184 | over every run: the destroyed threads still listed as blocked are exactly those that were terminated while blocked, so none ever dangles if no terminate was, and once the destroyer has caught up none does if and only if no terminate was |
| `SchedRuns.CaughtNobody` | kernel/source/scheduler/scheduler.cpp:165-184 | no terminate was so exactly if each found its thread out of the list of blocked threads |
| `SchedRuns.DanglesForGood` | kernel/source/scheduler/scheduler.cpp:31-52 | an entry that dangles does so in every later state |
| `SchedRuns.DanglingRun` | kernel/source/scheduler/scheduler.cpp:213-229 | a run from the start of the scheduler that gets there |
| `SchedFair.Outlasted` | kernel/source/scheduler/priority.cpp:25-30 | a thread that has waited long enough beats every thread that has run since |
| `SchedFair.NotTwice` | kernel/source/scheduler/switch.cpp:27-47 | while such a thread is passed over, no other thread is chosen twice |
| `SchedFair.GetsItsTurn` | kernel/source/scheduler/switch.cpp:50-80 | of any run with as many decisions as there are threads to choose from, those listed at the start and those added on the way, a thread that had waited long enough is chosen in one; for mixed priorities until its wait has doubled |
| `SchedFair.NormalGetsItsTurn` | kernel/source/scheduler/switch.cpp:50-80 | with threads of normal priority and boosts up to b, 8000 * (b + 1) ns of waiting are enough for that, without any limit |
| `Scheduler.Scheduler.GetNextThread` | kernel/source/scheduler/switch.cpp:27-47 | the thread with the greatest effective priority, the first of equals, or the idle thread if none is ready; in terms of kind, wait and boost, no ready thread goes before it, and of those recorded alike it is the first |
| `Scheduler.Scheduler.FindAndSwitch` | kernel/source/scheduler/switch.cpp:50-114 | the processor goes to the contending thread of greatest effective priority, before which none goes by kind, wait and boost, or to the idle one; its wait starts anew, the thread that had it goes from running to stopped, and no other thread changes |
| `Scheduler.Scheduler.WakeUpThreads` | kernel/source/scheduler/switch.cpp:270-302 | taking woken threads off the array while walking it wakes exactly the due sleepers, keeps the order of the rest and tells whether there were any |
| `Scheduler.Scheduler.Tick` | kernel/source/scheduler/switch.cpp:208-239 | a tick of the state machine, asking for a switch exactly when something woke, one was asked for or the slice is over, and no lock is held |
| `Scheduler.Scheduler.TickHandler` | kernel/source/arch/x86_64/scheduler/switch.s:76-118 | a tick and the switch it asks for |
| `Scheduler.Scheduler.Block` | kernel/source/scheduler/scheduler.cpp:213-229 | the caller, not listed before, is at the end of the blocked threads, waits on the condition and is no longer current; only the thread that gets the processor changes besides |
| `Scheduler.Scheduler.NanoSleep` | kernel/source/scheduler/scheduler.cpp:313-327 | the same, asleep until the time asked for |
| `Scheduler.Scheduler.Notify` | kernel/source/scheduler/scheduler.cpp:231-282 | one walk over the array that wakes the first or all of the waiters as the state machine says |
| `Scheduler.Scheduler.Terminate` | kernel/source/scheduler/scheduler.cpp:120-184 | the thread is queued and, unless it is the idle one, marked for exit and not current; no other thread changes but one that gets the processor |
| `Scheduler.Scheduler.DestroyNext` | kernel/source/scheduler/scheduler.cpp:36-48 | the head of the queue is destroyed and out of the list of threads, and every other thread is as before |
| `Extents.State.Allocate` | kernel/include/extmm.h:118-160 | the pages come from the bottom of the first extent that is large enough and accepted, and it fails exactly if there is none; exactly those pages stop being free, and none of them was handed out |
| `Extents.State.AllocateSpecific` | kernel/include/extmm.h:162-203 | succeeds if and only if one extent holds the range; exactly those pages stop being free; an empty extent is left behind exactly when the range was a whole extent |
| `Extents.State.Deallocate` | kernel/include/extmm.h:205-239 | exactly which pages are free afterwards: those that were and those of the range, less, if the range is met by an extent that starts where it ends, as many pages from the size of that extent on; extents stay disjoint from each other and from what is handed out; the double free abort exactly on its condition |
| `Extents.Conserves` | kernel/include/extmm.h:216-221 | no page is lost if and only if the range was empty or is not met by an extent that starts where it ends; the pages given back are all free again if and only if it is not met so or by an extent at least as large |
| `Extents.RoundTripLoses` | kernel/include/extmm.h:130-151 | taking pages from the bottom of an extent and giving them back at once restores the free pages if an earlier extent ends where it starts, and otherwise loses exactly as many from the top of the extent |
| `Extents.State.CheckConsistency` | kernel/include/extmm.h:254-297 | true if and only if no extent is empty and no two share a page |
| `Adler.NoOverflow` | libs/tinflate/adler32.c:33-34 | the sums of a block of up to 5552 bytes fit into 32 bits |
| `Adler.BlockLimit` | libs/tinflate/adler32.c:33-34 | 5552 is the largest block for which the bound allows that |
| `Adler.KnownValue` | libs/tinflate/adler32.c:36-95 | the Adler-32 of the letters abc is 0x024D0127 |
| `Adler.TinfAdler32` | libs/tinflate/adler32.c:36-95 | reducing once a block, with 32-bit sums, gives the Adler-32 that reduces at every byte |
| `Adler.MinizAdler32` | libs/miniz/miniz.c:614-635 | so does the decompressor's version, starting from the sum of an earlier call and with the odd part of a block |
| `Adler.OverTwo` | libs/miniz/miniz.c:618-635 | the sum carried from one piece to the next is that of both pieces together |
| `Adler.NoticesByte` | libs/tinflate/adler32.c:36-95 | a single changed byte always changes the Adler-32 |
| `Crc.TableStep` | libs/tinflate/crc32.c:33-38 | one look into the table is four bits of division by the polynomial |
| `Crc.KnownValue` | libs/tinflate/crc32.c:33-57 | the CRC-32 of the letters abc is 0x352441C2 |
| `Crc.TinfCrc32` | libs/tinflate/crc32.c:40-57 | the nibble loop computes the CRC-32 defined bit by bit, for every buffer |
| `Crc.LoaderCrc32` | efx/source/efx_main.cpp:95-114 | and so does the boot loader's, which adds the byte half by half |
| `Crc.NoticesByte` | libs/tinflate/crc32.c:40-57 | a single changed byte always changes the CRC-32 |
| `Tickets.CollectCounts` | kernel/source/ipc/memticket.cpp:99-148 | collecting keeps the count right if and only if the memory has not gone while the ticket can still be found |
| `Tickets.CollectAgrees` | kernel/source/ipc/memticket.cpp:99-148 | collecting keeps the list of every process in agreement with what it holds |
| `Tickets.RemovedIsGone` | kernel/source/ipc/memticket.cpp:257-261 | a ticket that has been removed cannot be collected any more |
| `Tickets.ReleaseCounts` | kernel/source/ipc/memticket.cpp:198-255 | a release keeps the count right, and frees the memory if and only if it was the last collection |
| `Tickets.ReleaseAgrees` | kernel/source/ipc/memticket.cpp:230-237 | a release leaves a process's list in agreement with what it holds if and only if it released its last collection |
| `Tickets.DieCounts` | kernel/source/ipc/memticket.cpp:266-297 | after the death of a process the count is the number of collections of live processes if and only if its list agreed or nobody else holds the ticket |
| `Tickets.FreedTooSoon` | kernel/source/ipc/memticket.cpp:266-297 | otherwise, with enough entries, memory is freed that others hold |
| `Tickets.FreedTooSoonRun` | kernel/source/ipc/memticket.cpp:266-297 | a run that gets there: collect twice, release once, and die |
| `Tickets.CollectedTooLate` | kernel/source/ipc/memticket.cpp:249-261 | a ticket can be collected between the two steps of its last release |
| `Tickets.RunCounts` | kernel/source/ipc/memticket.cpp:57-66 | over every run without those two cases the count is the number of collections and nothing is freed that is held |
| `Tickets.MemoryTicket.CollectTicket` | kernel/source/ipc/memticket.cpp:99-148 | one collection more, or none if the ticket is gone; the count is right afterwards if and only if the ticket was not one freed and not yet removed |
| `Tickets.MemoryTicket.ReleaseTicket` | kernel/source/ipc/memticket.cpp:212-254 | the first locked step: exactly the collection named goes, the memory with it exactly if it was the last, and the ticket can still be found |
| `Tickets.MemoryTicket.RemoveTicket` | kernel/source/ipc/memticket.cpp:257-261 | the second locked step takes the ticket away |
| `Tickets.MemoryTicket.ReleaseWhole` | kernel/source/ipc/memticket.cpp:198-262 | both with nothing in between: memory and ticket go exactly with the last collection |
| `Tickets.MemoryTicket.CleanupProcess` | kernel/source/ipc/memticket.cpp:266-297 | a reference is dropped for every entry in the list of the process, until the ticket is gone, and the table of collections is left as it is |
| `SharedPages.AddKeeps` | kernel/source/mm/vmregion.cpp:271-289 | adding a page keeps all collectors on the same frame if and only if no other has mapped it since this one looked |
| `SharedPages.OverlappingFaults` | kernel/source/mm/page_fault.cpp:67-96 | two overlapping faults on one page end with different frames |
| `SharedPages.SharedRegion.HandleFault` | kernel/source/mm/page_fault.cpp:67-96 | a fault that is not interrupted gives the frame every collector has for that page |
| `TicketMemory.StepInv` | kernel/source/mm/vmregion.cpp:446-460 | every step keeps mappings within live collections and on the frames of the ticket, one frame a page |
| `TicketMemory.FaultMaps` | kernel/source/mm/page_fault.cpp:67-96 | a fault leaves the page mapped, to the frame it had if it had one, and changes nothing else |
| `TicketMemory.StaysMapped` | kernel/source/mm/page_fault.cpp:67-96 | over every run a page once touched stays mapped to its frame until its collection is released or its process dies |
| `TicketMemory.MappingLasts` | kernel/source/ipc/memticket.cpp:198-255 | a step takes away the mappings of the collection released, or of the process that dies, and of no other |
| `TicketMemory.Shared` | kernel/source/ipc/memticket.cpp:57-148 | in every reachable state collections see the same frame for a page, the count is right, and frames are returned exactly when the memory is freed, with nothing mapping them |

## Left out

- Miniz.HuffTable.Build: a code with a single symbol that is not complete, which the original accepts, is excluded by the precondition.
- MinizDecode.Input.HuffDecode: one call over one buffer; the coroutine that resumes in the middle of a symbol, the wrapping output buffer and the loop that decodes two symbols at once are not modelled.
- VirtMap.Mmu.MapInternal: TLB invalidation, large pages and the list of tracked frames are not modelled; frames come from a given list.
- VirtMap.Mmu.UnmapPage: a page in slot 509 is covered while that slot is empty, as it is outside `TempMapper`; the original does not test for the slot being in use.
- VirtMap.Mmu.UnmapAddress: the same for a range of pages.
- TempMapper.MapInto: the page must not lie in tables the two processes share, so mapping a kernel page for another process is not covered; the lock on slot 509 is not modelled.
- HeapAllocator.Allocator.Allocate: one operation at a time, as a whole; sizes that overflow 64 bits together with their overhead are excluded by the precondition, and rounding up is stated as arithmetic rather than with a mask.
- HeapAllocator.Allocator.ExpandBucket: a chunk record is its memory field; where the records lie in memory is not modelled.
- Scheduler.Scheduler.Terminate: terminating a whole process is the same for each of its threads and is not modelled separately; neither are registers, stacks and the FPU.
- Scheduler.Scheduler.Notify: the scheduler is taken to have started; before that the original returns at once.
- SchedFair.GetsItsTurn: holds for given bounds on boosts; interrupts and signals may boost a thread without limit. Counters are unbounded numbers, not 64-bit words.
- Extents.State.Deallocate: addresses are counted in pages; the records of extents and where they come from are not modelled.
- Tickets.DieCounts: the count is compared with the collections of live processes; the original leaves those of a dead process in the ticket's table for good, and a later process at the same address would find them.
- The mapping loops over several pages (`mapAddress`, `mapCOW`, `mapLazy`), which repeat `map_internal`.
- The copy-on-write path for pages that are present, and the bookkeeping of regions that shrink.
- Condition variables, semaphores and wait queues: checking and blocking are separate steps there.
- The fixed-size heap, the user-space heap, the file system, devices, the loaders, system calls and the user programs.
