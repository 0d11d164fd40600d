# Verified models of three flash translation layers

The repository holds firmware for the OpenSSD platform. This project models its three most involved flash translation
layers in Dafny and proves that the interface that each offers to the host does not notice what goes on below it.

**Greedy page mapping** (`OpenSSD/1.1.0/ftl_greedy`; modules `PlainDisk`, `Greedy*`). A bank of flash blocks, where a
page is programmed once after an erase, with the page map, the counts of valid pages and the lists of names. The class
`GreedyFtl.Ftl` has the commands of the host, the format and garbage collection. It refines a flat array of sectors.

**FASTer hybrid mapping** (`OpenSSD/1.1.0/ftl_faster`; modules `Faster*`, `FreeRing`). Data blocks, a sequential log
block, random log blocks with second-chance bits, an isolation area and a ring of free blocks. All merges and garbage
collection keep every page, the invariant, and the set of blocks. The code contains assertions that can fail; the model
stops there, with `ok` false. Every method states the exact condition for `ok` on the state before the call, and what it
makes of the state, as a function (`FasterAfter`). `FasterRuns` has whole runs as functions of the commands.
`FasterPace` says when such a run merges, and `FasterChances` where pages go, without naming those functions' cases.
`FasterByTurns` follows a run of a small FTL (`FasterSmall`) write by write; `FasterEarly` and `FasterFull` lead on from
there to states in which it fails.

**TrustedSSD** (`OpenSSD/1.0.6/ftl_tssd`). Four parts:

- Page locks and threads (`Lock*`, `PageLock`, `ReadSegments`). `PageLock` is the table in DRAM. `LockProtocol` is a
  state machine: the events are arrivals, turns of threads in the passes of the scheduler, and what threads do past
  LOCK_PHASE. `LockTheorems` states what holds over every run.
- Scheduler, flash banks and SATA tasks (`Scheduler`, `BankRules`, `FlashBanks`, `FlashCopy`, `SataManager`).
- The page mapping table (`Pmt*`, `VpnAllocator`). A cache with least-recently-used eviction and a merge buffer, the
  directory, loads and flushes under way, and flash. Together they refine one flat table.
- The write buffer (`Wb*`, `WriteBuffer`). Slots and shared buffers with sector masks. They refine a map from page and
  sector to owner and content.

Code that updates tables in place is a class whose methods are proved against predicates and functions on a value of
its whole state (`Snap()`, `st`, `entries`, `table`); the lemmas about that value are in modules of their own. Sizes such
as pages per block are parameters, so the theorems hold for all of them. `HasSpare` and `Stocked` are assumptions on
them: more room than logical pages, and blocks that are left in each bank.

## Model

| member | source | states |
|---|---|---|
| GreedyFtl.Ftl.Serve | OpenSSD/1.1.0/ftl_greedy/ftl.c:317-403 | Any sequence of reads and writes is answered as by a flat array of sectors: each sector as last written, all ones if never written, through any number of garbage collections. |
| GreedyFtl.Ftl.constructor | OpenSSD/1.1.0/ftl_greedy/ftl.c:259-300 | After the format every sector reads as all ones. |
| GreedyFtl.Ftl.Format | OpenSSD/1.1.0/ftl_greedy/ftl.c:722-837 | The state after the format satisfies the invariant, whatever was on the bank before; which blocks are bad is a parameter. |
| GreedyFtl.Ftl.FtlRead | OpenSSD/1.1.0/ftl_greedy/ftl.c:317-376 | The sectors read are those of the flat disk at that address, across any number of pages. |
| GreedyFtl.Ftl.FtlWrite | OpenSSD/1.1.0/ftl_greedy/ftl.c:377-403 | Exactly the sectors of the request change on the flat disk, across any number of pages. |
| GreedyFtl.Ftl.WritePage | OpenSSD/1.1.0/ftl_greedy/ftl.c:404-515 | Exactly the sectors written change in the page; the holes to their left and right keep the old content. |
| GreedyFtl.Ftl.AssignNewWriteVpn | OpenSSD/1.1.0/ftl_greedy/ftl.c:552-602 | The page returned is the next one of the active block; or, if that is full, page 0 of the first data block above; or, if none but the reserve is left, the first page that a collection leaves free in the old reserve. It is erased, and no content changes. |
| GreedyFtl.Ftl.GarbageCollection | OpenSSD/1.1.0/ftl_greedy/ftl.c:616-698 | A block with the fewest valid pages of all becomes the new reserve, erased; the old reserve has as many pages as that block had valid ones, and is written on right behind them. No other block of flash changes, and no logical page. |
| GreedyFtl.Ftl.VictimBlock | OpenSSD/1.1.0/ftl_greedy/ftl.c:704-721 | The victim has the least count of valid pages of all blocks, it is a data block, and it has room to spare. |
| GreedyFtl.Ftl.NextVblock | OpenSSD/1.1.0/ftl_greedy/ftl.c:586-591 | The upward search for the next data block returns the first one and never runs off the end of the bank. |
| GreedyFtl.Ftl.CopyPage | OpenSSD/1.1.0/ftl_greedy/ftl.c:645-682 | One round of the copy loop, which reads and writes one and the same list of names: only newest copies move, and no name that is still to be read is overwritten. |
| GreedyGc.CollectionIsInvisible | OpenSSD/1.1.0/ftl_greedy/ftl.c:645-698 | The copies, the erase of the victim and the new counts keep every logical page and the invariant. |
| GreedyGc.VictimHasRoom | OpenSSD/1.1.0/ftl_greedy/ftl.c:704-721 | Pigeonhole over the counts: with fewer logical pages than the data blocks but one can hold, the least count leaves room in its block. |
| GreedyGc.CopyCount | OpenSSD/1.1.0/ftl_greedy/ftl.c:645-690 | The number of pages copied is the count of the victim, so the count that is moved with them is right. |
| GreedyWrite.WriteKeepsInv | OpenSSD/1.1.0/ftl_greedy/ftl.c:498-515 | The updates of a page write keep the map injective, the counts exact and the lists complete, and change one logical page. |
| GreedyWrite.PointerIsNotNull | OpenSSD/1.1.0/ftl_greedy/ftl.c:523-529 | The page that is mapped is never vpn 0, which stands for a page that was never written. |
| GreedyWrite.NextBlockExists | OpenSSD/1.1.0/ftl_greedy/ftl.c:580-591 | While another free block is counted, there is an erased data block above the active one. |
| GreedyWrite.AllClosedAtGc | OpenSSD/1.1.0/ftl_greedy/ftl.c:577-585 | When garbage is collected every data block is closed, so the victim has its list of names. |
| GreedyFormat.FormattedIsBlank | OpenSSD/1.1.0/ftl_greedy/ftl.c:722-837 | A freshly formatted bank satisfies the invariant and every page reads as all ones. |
| PlainDisk.AnswersInOrder | OpenSSD/1.1.0/ftl_greedy/ftl.c:317-403 | What a flat array answers to a sequence of commands: the answer of a read comes after those of the reads before it, and has in each sector what the last write before it has left there. |
| PlainDisk.FlatOverlay | OpenSSD/1.1.0/ftl_greedy/ftl.c:377-403 | Writing within one page is writing the flat disk at that place. |
| FasterFtl.Ftl.Serve | OpenSSD/1.1.0/ftl_faster/ftl.c:829-1072 | Any sequence of page writes and reads, with the full merges at the moments at which the code makes them: each read returns, and in the end each page holds, what was last written. The run comes to the end if and only if every command is accepted, and the tables are then those of the run. |
| FasterFtl.Ftl.Write | OpenSSD/1.1.0/ftl_faster/ftl.c:905-1072 | Exactly the sectors written change, also by the merge that may be due. It succeeds if and only if the random log area can be given room, when the page goes there, and a full merge can be made, when one is due; the tables, the stream and the merge interval afterwards. |
| FasterFtl.Ftl.MergeIfDue | OpenSSD/1.1.0/ftl_faster/ftl.c:1033-1048 | A full merge is made exactly when nearly all isolation blocks are in use, or when some are and enough writes to the random log area have been counted, and never in a write that has collected or merged. |
| FasterPace.MergesAtInterval | OpenSSD/1.1.0/ftl_faster/ftl.c:1039-1046 | Of successive writes to the random log area that do not collect, with some isolation blocks in use but not nearly all and the interval v, the first 2v - 1 leave the isolation area as it is, and the last of 2v is followed by a full merge that goes on to another victim page; then the count begins again. |
| FasterPace.OthersCountNothing | OpenSSD/1.1.0/ftl_faster/ftl.c:1033-1048 | Writes of a stream, writes that collect, and writes with hardly any or nearly all isolation blocks in use leave the count alone; of them, only those that do not collect with nearly all in use are followed by a full merge. |
| FasterPace.TunesAtPeriod | OpenSSD/1.1.0/ftl_faster/ftl.c:1049-1066 | Over a whole period of writes: the interval stays until the last one. Then it grows by one if one isolation block is in use; if more are, it becomes one less than its base exactly if a merge has been forced since it was last shortened. |
| FasterPace.SixthIsDetected | OpenSSD/1.1.0/ftl_faster/ftl.c:1274-1296 | Of pages written in order, the first five go to the random log area, and with the sixth a stream is detected. |
| FasterFtl.Ftl.Tune | OpenSSD/1.1.0/ftl_faster/ftl.c:1049-1066 | How the interval is adjusted to the free isolation blocks. |
| FasterFtl.Ftl.ReadPage | OpenSSD/1.1.0/ftl_faster/ftl.c:829-881 | The page read is the content that the tables resolve to. |
| FasterFtl.Ftl.ChooseLog | OpenSSD/1.1.0/ftl_faster/ftl.c:1274-1296 | Which of the three ways a page is written, from the stream that has been seen so far; the very first write, if it is to page 0, starts a stream. |
| FasterFtl.Ftl.StartStream | OpenSSD/1.1.0/ftl_faster/ftl.c:1168-1249 | A new stream takes over the sequential log block; no content changes, and the page asked for is next there. |
| FasterFtl.Ftl.SwitchMerge | OpenSSD/1.1.0/ftl_faster/ftl.c:1367-1419 | No page changes, the invariant holds, and the same blocks are in the tables as before. |
| FasterFtl.Ftl.PartialMerge | OpenSSD/1.1.0/ftl_faster/ftl.c:1423-1498 | No page changes, the invariant holds, the same blocks are in the tables; exactly the entries of the rest of the data block leave the log area. |
| FasterFtl.Ftl.FullMerge | OpenSSD/1.1.0/ftl_faster/ftl.c:1501-1621 | No page changes, the invariant holds, the same blocks are in the tables. It succeeds if and only if the page after the victim page is not the page for names and not in the block that is being written; the tables afterwards. |
| FasterFtl.Ftl.FindVictim | OpenSSD/1.1.0/ftl_faster/ftl.c:1501-1549 | The search finds the first page of the block that is still valid, or frees the block when there is none. |
| FasterFtl.Ftl.GarbageCollection | OpenSSD/1.1.0/ftl_faster/ftl.c:1625-1798 | No page changes. Either the victim block is passed over, and all its pages get their second chance, or it is freed, if and only if the isolation area has room for its cold pages. |
| FasterChances.CollectionSorts | OpenSSD/1.1.0/ftl_faster/ftl.c:1637-1770 | Where each page goes in a collection: if the victim is all valid and none of its pages has had its second chance, they all get it where they are. Otherwise a page stays in the block, with its second chance, if fewer than half of the block are valid or it has not had it before; and goes to the isolation area if it has. Pages of other blocks stay. |
| FasterChances.SecondIsLast | OpenSSD/1.1.0/ftl_faster/ftl.c:1700-1760 | A page that is valid in two collections of its block goes to the isolation area in the second one, if half of the block is valid then. |
| FasterChances.MergeTakes | OpenSSD/1.1.0/ftl_faster/ftl.c:1501-1621 | A full merge is of the data block of the first valid page from the victim page on, and takes all pages of it out of the log area, wherever they are, except those that the early return leaves; no other page moves. |
| FasterChances.MergeGivesBack | OpenSSD/1.1.0/ftl_faster/ftl.c:1530-1549 | If there is no valid page from the victim page on, the block is given back and no page moves. |
| FasterFtl.Ftl.CountValid | OpenSSD/1.1.0/ftl_faster/ftl.c:1637-1666 | The list keeps exactly the names of valid pages, and the counts are those of the valid and of the cold pages of the block. |
| FasterFtl.Ftl.CollectUntilFree | OpenSSD/1.1.0/ftl_faster/ftl.c:1135-1137 | The loop ends, with a free block, if and only if a victim that is not passed over is reached whose cold pages have room. |
| FasterFtl.Ftl.AssignRwPage | OpenSSD/1.1.0/ftl_faster/ftl.c:1117-1160 | The page returned is an erased page of the random log area; it fails only where the collection does. |
| FasterFtl.Ftl.GetFreeVbn | OpenSSD/1.1.0/ftl_faster/ftl.c:1799-1807 | The oldest block of the free ring is taken; it is erased, as the invariant says of the whole ring. |
| FasterFtl.Ftl.EraseAndFree | OpenSSD/1.1.0/ftl_faster/ftl.c:1808-1818 | The block is erased and goes to the end of the ring. |
| FreeRing.Ring.GetFreeVbn | OpenSSD/1.1.0/ftl_faster/ftl.c:1799-1807 | The ring with its two positions and its count is a queue: the oldest block comes out. |
| FreeRing.Ring.RetFreeVbn | OpenSSD/1.1.0/ftl_faster/ftl.c:1808-1818 | And a block goes in behind the newest. |
| FasterMerge.FullMergeKeeps | OpenSSD/1.1.0/ftl_faster/ftl.c:1566-1621 | Rebuilding a data block in a free block keeps every page, the invariant and the set of blocks. |
| FasterMerge.SwitchMergeKeeps | OpenSSD/1.1.0/ftl_faster/ftl.c:1400-1419 | So does exchanging the sequential log block with its data block. |
| FasterMerge.ReplaceKeepsBlocks | OpenSSD/1.1.0/ftl_faster/ftl.c:1407-1416 | No block is lost, and none is in the tables twice. |
| FasterGc.GcKeeps | OpenSSD/1.1.0/ftl_faster/ftl.c:1770-1798 | So does the exchange that ends a garbage collection, after any number of moves within the random log area and to the isolation area. |
| FasterGc.ClearingBranchIsDead | OpenSSD/1.1.0/ftl_faster/ftl.c:1664-1690 | The branch that clears second-chance bits of a block without valid pages is never taken: only valid pages are counted as having one. |
| FasterGc.NamesLead | OpenSSD/1.1.0/ftl_faster/ftl.c:1891-1910 | The names in the last page of a victim block lead to all its valid pages. |
| FasterIsol.FreeVictimKeeps | OpenSSD/1.1.0/ftl_faster/ftl.c:1600-1621 | Giving back a block of the isolation area changes no content when none of its pages is valid. |
| FasterIsol.RoomForOne | OpenSSD/1.1.0/ftl_faster/ftl.c:1722-1770 | The next page of the isolation area can be written exactly if there is room for one page. |
| FasterIsol.NoRoom | OpenSSD/1.1.0/ftl_faster/ftl.c:1737-1760 | There is no room for m pages exactly if they do not fit in the block that is being written and either the next block is the victim, which is asserted not to be, or all blocks have been written and none has ever been merged; never both. In the second case the count of free blocks is 0 afterwards. |
| FasterIsol.RoomAfterAppend | OpenSSD/1.1.0/ftl_faster/ftl.c:1722-1770 | Writing it takes up the room of one page. |
| FasterWrite.WriteResolves | OpenSSD/1.1.0/ftl_faster/ftl.c:1009-1023 | A page write changes the content of exactly that page. |
| FasterDisk.LastWriteWins | OpenSSD/1.1.0/ftl_faster/ftl.c:882-1072 | What the specification of a run says of a sector is the last write to it. |
| FasterDisk.AnswersInOrder | OpenSSD/1.1.0/ftl_faster/ftl.c:829-881 | The answer of a read comes after those of the reads before it, and is what the commands before it have written. |
| FasterDisk.NeverWritten | OpenSSD/1.1.0/ftl_faster/ftl.c:829-881 | A sector that no command has written reads as all ones. |
| FasterRuns.NoMergeAnyMore | OpenSSD/1.1.0/ftl_faster/ftl.c:1557-1559 | After a full merge that returned early, a run goes on only as long as no full merge is due. |
| FasterSteps.MergeFailsWhenStuck | OpenSSD/1.1.0/ftl_faster/ftl.c:1501-1530 | With an isolation block in use, an assertion fails in full_merge if and only if the victim page is the last one of its block that is not for names: the block that is being written is never in the way. |
| FasterAfter.StuckByEarlyReturn | OpenSSD/1.1.0/ftl_faster/ftl.c:1557-1559 | A full merge leaves the victim page there if and only if it returns early at that page. |
| FasterByTurns.ReachesTurn | OpenSSD/1.1.0/ftl_faster/ftl.c:882-1072 | The tables, the flash, the stream and the merge interval after each write from the sixth to the twentieth: two pages are written by turns, every write collects, and a page goes to the isolation area each time. |
| FasterEarly.EarlyReturnHappens | OpenSSD/1.1.0/ftl_faster/ftl.c:1553-1559 | A run from the format, of one-sector writes, in which a full merge is due and returns early, and the victim page is stuck. |
| FasterEarly.NoMergeAfterIt | OpenSSD/1.1.0/ftl_faster/ftl.c:1501-1530 | Whatever is written after that, a write with which a full merge is due is not accepted. |
| FasterFull.LastPageOverflows | OpenSSD/1.1.0/ftl_faster/ftl.c:1737-1769 | A state in which the assertions hold and the next page to write in the isolation area holds a page. |
| FasterFull.Overflows | OpenSSD/1.1.0/ftl_faster/ftl.c:1737-1769 | A run from the format leads to that state, and the next write is not accepted. |
| LockRules.GrantIsStrongest | OpenSSD/1.0.6/ftl_tssd/page_lock.c:64-116 | The lookup in the table grants the strongest lock, up to what is asked for or held, that the documented matrix allows beside the locks of the others. |
| LockRules.GrantKeepsExclusive | OpenSSD/1.0.6/ftl_tssd/page_lock.c:91-116 | At most one owner intends to write or writes, a writer is alone, and a lock that is held is not lowered. |
| LockRules.AnswerNamesLockHeld | OpenSSD/1.0.6/ftl_tssd/page_lock.h:57-60 | The answer is the lock held afterwards, except if and only if the owner reads and another intends to write. |
| LockRules.ReaderIsToldNothing | OpenSSD/1.0.6/ftl_tssd/page_lock.h:57-60 | An instance of that exception. |
| LockWords.UnpackAfterSet | OpenSSD/1.0.6/ftl_tssd/page_lock.c:35-40 | Setting the two bits of one owner in a word leaves those of the others alone. |
| PageLock.PageLocks.Lock | OpenSSD/1.0.6/ftl_tssd/page_lock.c:91-116 | The grant is the strongest compatible lock, and the table changes by exactly that grant. |
| PageLock.PageLocks.Unlock | OpenSSD/1.0.6/ftl_tssd/page_lock.c:120-137 | Exactly that lock goes, the slot too when nobody else has the page, and the signal is set. |
| LockTable.SlotIsFree | OpenSSD/1.0.6/ftl_tssd/page_lock.c:47-54 | The assertion on the number of locks: an owner within its limit finds a free slot, as long as every slot has an owner. |
| LockTable.GrantIsOk | OpenSSD/1.0.6/ftl_tssd/page_lock.c:91-116 | A lock asked for within the limit keeps every slot with an owner. |
| LockTable.ReleaseIsSafe | OpenSSD/1.0.6/ftl_tssd/page_lock.c:120-137 | A release takes away one lock and leaves all others as they are. |
| LockTable.LockingIs | OpenSSD/1.0.6/ftl_tssd/ftl_write_thread.c:101-115 | Calls of page_lock for several pages, one after the other and in any order, give each the strongest lock that the others let it have, and keep the table in order. |
| LockTable.UnlockingIs | OpenSSD/1.0.6/ftl_tssd/ftl_write_thread.c:248-270 | Calls of page_unlock for all of them leave the owner no lock there, the others theirs, and the table in order. |
| LockTable.WhatLeaks | OpenSSD/1.0.6/ftl_tssd/page_lock.c:91-116 | A slot without an owner comes about exactly by asking for the null lock on a page that nobody has locked. |
| LockTable.LeakedStays | OpenSSD/1.0.6/ftl_tssd/page_lock.c:120-137 | page_unlock gives no such slot back. |
| LockTable.QueriesTakeAll | OpenSSD/1.0.6/ftl_tssd/page_lock.c:47-54 | As many such queries as there are slots take all of them, and the assertion fails for the next page. |
| LockTheorems.RunKeepsInv | OpenSSD/1.0.6/ftl_tssd/scheduler.c:43-86 | The invariant of threads, locks, captured pages and lookups holds in every state of every run. |
| LockTheorems.NoWakeupIsLost | OpenSSD/1.0.6/ftl_tssd/scheduler.c:43-86 | When a pass ends, every thread that sleeps in LOCK_PHASE is blocked by a lock of a thread that arrived before it, though all signals are cleared then. |
| LockTheorems.NoDeadlock | OpenSSD/1.0.6/ftl_tssd/ftl_write_thread.c:101-115 | If any thread sleeps in LOCK_PHASE, one of them waits for a thread that is past it. |
| LockTheorems.GrantedIffFree | OpenSSD/1.0.6/ftl_tssd/ftl_write_thread.c:101-115 | At its turn a thread gets all its locks if and only if no thread ahead of it is in the way. |
| LockTheorems.RunIsSerial | OpenSSD/1.0.6/ftl_tssd/ftl_write_thread.c:120-281 | Whatever the interleaving, each sub-page reads like the commits applied one after the other to a blank disk. |
| LockTheorems.StepWrites | OpenSSD/1.0.6/ftl_tssd/ftl_write_thread.c:222-281 | A commit lays the buffered sectors over the content of that moment, though the old sectors were fetched many steps before; nothing else changes content. |
| LockTheorems.LastCommitWins | OpenSSD/1.0.6/ftl_tssd/ftl_write_thread.c:178-245 | Sector by sector, in every run: the host reads what the last writer that brought the sector has committed, also where a later writer of the same sub-page has copied it from the old page. |
| LockTheorems.NeverCommitted | OpenSSD/1.0.6/ftl_tssd/ftl_write_thread.c:178-245 | A sector that no writer has committed reads as all ones. |
| LockTheorems.ServedInOrder | OpenSSD/1.0.6/ftl_tssd/ftl_write_thread.c:101-245 | Commits of one page, and commits and lookups of it, happen in the order in which their threads arrived. |
| LockTheorems.LockedPagesStay | OpenSSD/1.0.6/ftl_tssd/ftl_write_thread.c:120-153 | While a thread has its locks, no other thread changes where its pages are. |
| LockTheorems.ReaderReads | OpenSSD/1.0.6/ftl_tssd/ftl_read_thread.c:88-218 | What a reader gets from flash, however late, is the content of its page at the moment of its lookup. |
| LockTheorems.ReadsInOrder | OpenSSD/1.0.6/ftl_tssd/ftl_read_thread.c:88-218 | And that is what the writers that arrived before the reader leave there, all of them and no others, whatever the threads do in the meantime. |
| LockTheorems.ReaderGetsLast | OpenSSD/1.0.6/ftl_tssd/ftl_read_thread.c:88-218 | A reader gets in each sector what the last writer that arrived before it and brought the sector has committed, whoever else commits, and however much later. |
| LockTheorems.ReaderGetsBlank | OpenSSD/1.0.6/ftl_tssd/ftl_read_thread.c:88-218 | And all ones where none of them has brought the sector. |
| ReadSegments.Reader.MakeSegments | OpenSSD/1.0.6/ftl_tssd/ftl_read_thread.c:92-130 | There is one segment for each flash page with wanted sectors, with the wanted sectors of all its sub-pages. |
| ReadSegments.WantedOnce | OpenSSD/1.0.6/ftl_tssd/ftl_read_thread.c:92-130 | Each wanted sector is in exactly one segment, that of the flash page of its sub-page. |
| Scheduler.Threads.Schedule | OpenSSD/1.0.6/ftl_tssd/scheduler.c:43-86 | Each thread of the list has one turn, in order; it runs exactly if it is awake or has one of the signals set by then; the threads that stop leave the list, and no others. |
| Scheduler.Threads.Enqueue | OpenSSD/1.0.6/ftl_tssd/scheduler.c:93-100 | The new thread is the last of the list. |
| Scheduler.Threads.Remove | OpenSSD/1.0.6/ftl_tssd/scheduler.c:22-27 | Exactly that thread leaves the linked list, and its slot is free again. |
| Scheduler.KeptKeepsOrder | OpenSSD/1.0.6/ftl_tssd/scheduler.c:43-86 | Of two threads that stay, the one that arrived first is still served first. |
| Scheduler.SignalWakes | OpenSSD/1.0.6/ftl_tssd/pmt_thread.c:98 | A thread that sleeps on a signal runs in the pass in which a thread before it sets the signal. |
| Scheduler.FirstStays | OpenSSD/1.0.6/ftl_tssd/ftl.c:91-94 | The PMT thread, which is enqueued first and does not stop, stays before all others; so nobody waits in vain for SIG_PMT_LOADED. |
| FlashBanks.Banks.Pass | OpenSSD/1.0.6/ftl_tssd/fla.c:47-63 | In a pass, each thread sees every one of its commands that has ended since the last pass, in whatever order the threads run, and also if the bank is used again in that pass. |
| FlashBanks.Banks.UpdateBankState | OpenSSD/1.0.6/ftl_tssd/fla.c:47-63 | A bank is complete in this pass exactly if its command has ended since the last one; the signals are those of the banks that are not executing. |
| FlashBanks.Banks.GetIdleBank | OpenSSD/1.0.6/ftl_tssd/fla.c:81-97 | The first idle bank after the one returned last, if there is one. |
| FlashBanks.Banks.Issue | OpenSSD/1.0.6/ftl_tssd/fla.c:99-124 | A command goes only to an idle bank, and the bank has one command. |
| BankRules.OthersUnharmed | OpenSSD/1.0.6/ftl_tssd/fla.c:28-31 | A command on an idle bank is no concern of the other threads, even of one that has yet to see that bank complete. |
| BankRules.NothingToSee | OpenSSD/1.0.6/ftl_tssd/scheduler.c:43-60 | A sleeping thread that no signal wakes has no command that has completed. |
| FlashCopy.CopySectors | OpenSSD/1.0.6/ftl_tssd/fla.c:126-144 | The scan for runs of sectors copies exactly those of the mask. |
| SataManager.Tasks.Finish | OpenSSD/1.0.6/ftl_tssd/sata_manager.c:59-99 | Whatever the order in which tasks finish, exactly the buffers of the leading finished tasks are released. |
| SataManager.Tasks.CanAccept | OpenSSD/1.0.6/ftl_tssd/sata_manager.c:25-43 | A task is accepted only if the window and the buffers have room for it. |
| SataManager.OwnBuffers | OpenSSD/1.0.6/ftl_tssd/sata_manager.c:6-23 | Tasks of one window have different buffers. |
| PmtThread.Pmt.GetVp | OpenSSD/1.0.6/ftl_tssd/pmt.c:31-40 | The word read of a loaded page is that of one flat table, through any loads, evictions, revoked evictions and flushes. |
| PmtThread.Pmt.UpdateVp | OpenSSD/1.0.6/ftl_tssd/pmt.c:42-52 | Exactly that word of the flat table changes. |
| PmtThread.Pmt.Turn | OpenSSD/1.0.6/ftl_tssd/pmt_thread.c:66-220 | In a turn the loads whose commands have ended are over, and the requests are served in order, from the one that was left: each is for a page that is in the cache then, and if it was not there before, it is loaded at once if it has never been written, or else its bank, which was loading nothing, is loading it. Other pages leave only a full cache. At the end no request is left, or the next one has to wait: because its bank is busy, or because the cache and the merge buffer are full and all banks are busy. It may sleep on only if none of the commands that it waits for has ended. The flat table does not change. |
| PmtServices.LoadEnds | OpenSSD/1.0.6/ftl_tssd/pmt_thread.c:73-99 | A page whose bank has ended its command is loaded in that turn, and SIG_PMT_LOADED is set. |
| PmtThread.Pmt.ReadyIsLoaded | OpenSSD/1.0.6/ftl_tssd/pmt_thread.c:73-99 | A page is loaded exactly if it is in the cache and no bank is loading it; each page that is being loaded has one bank. |
| PmtThread.Pmt.ProcessRequest | OpenSSD/1.0.6/ftl_tssd/pmt_thread.c:120-209 | One request: it is served, or has to wait for the reason given. |
| PmtThread.Pmt.UpdateBankState | OpenSSD/1.0.6/ftl_tssd/fla.c:47-63 | The end of any of the commands under way does not change the flat table. |
| PmtThread.Pmt.Request | OpenSSD/1.0.6/ftl_tssd/pmt.c:20-29 | A page that is not in the cache is queued, and the thread woken up. |
| PmtThread.Pmt.Fix | OpenSSD/1.0.6/ftl_tssd/pmt.c:54-58 | The page has one user more, the thread; it is one of the pages of that thread. |
| PmtThread.Pmt.Unfix | OpenSSD/1.0.6/ftl_tssd/pmt.c:60-64 | One of the pages of the thread has one user less. |
| PmtThread.Pmt.UsersLeaveRoom | OpenSSD/1.0.6/ftl_tssd/pmt_cache.c:257-287 | What the assertions in pmt_cache_evict take for granted holds throughout: Valid says which thread has fixed what, Fix and Unfix keep that, and the cache is made with a page for each sub-page that the threads write, for each load and for one merge. |
| PmtThread.Pmt.OtherCommand | OpenSSD/1.0.6/ftl_tssd/pmt_thread.c:66-220 | A command of another thread on an idle bank does not change the flat table. |
| PmtCache.Cache.GetPage | OpenSSD/1.0.6/ftl_tssd/pmt_cache.c:87-109 | With its shortcut it finds the slot of the page, if there is one, and makes the page the most recently used one; an evicted page leaves the merge buffer. |
| PmtCache.Cache.Put | OpenSSD/1.0.6/ftl_tssd/pmt_cache.c:150-164 | A free slot is taken for the page, which is loading. |
| PmtCache.Cache.Fix | OpenSSD/1.0.6/ftl_tssd/pmt_cache.c:181-195 | A page with a user is fixed. |
| PmtCache.Cache.Unfix | OpenSSD/1.0.6/ftl_tssd/pmt_cache.c:197-207 | Without its last user it is normal, and the most recently used one. |
| PmtCache.Cache.Evict | OpenSSD/1.0.6/ftl_tssd/pmt_cache.c:257-287 | A cache that is not full stays as it is. Otherwise one page is dropped or the merge buffer is full: a page that is dropped is clean, those that are merged are dirty and have been used even less recently, all of them less recently than the pages that stay, and no fixed or loading page is touched. |
| PmtCache.Cache.RevokeEviction | OpenSSD/1.0.6/ftl_tssd/pmt_cache.c:241-255 | An evicted page that is used again leaves the merge buffer and nothing else changes. |
| PmtCache.Cache.Flush | OpenSSD/1.0.6/ftl_tssd/pmt_cache.c:289-309 | Exactly the pages of the merge buffer leave the cache, with their contents and numbers. |
| PmtCache.Cache.HandleTimestampOverflow | OpenSSD/1.0.6/ftl_tssd/pmt_cache.c:46-75 | The normal stamps become their ranks, special stamps stay, and the clock is above all of them. |
| PmtStamps.RenumberingKeepsOrder | OpenSSD/1.0.6/ftl_tssd/pmt_cache.c:46-75 | The renumbering keeps the order of any two pages, so that the same page is the least recently used one. |
| PmtTable.EvictSameTable | OpenSSD/1.0.6/ftl_tssd/pmt_cache.c:257-287 | Eviction loses nothing of the table. |
| PmtTable.FlushSameTable | OpenSSD/1.0.6/ftl_tssd/pmt_thread.c:130-175 | Nor does a flush, whose pages are under way to flash. |
| PmtTable.OneVpChanges | OpenSSD/1.0.6/ftl_tssd/pmt.c:42-52 | Updating the vp of one sub-page leaves those of all other sub-pages alone. |
| PmtRing.RequestRing.Pop | OpenSSD/1.0.6/ftl_tssd/pmt_thread.c:29-37 | The oldest request, if there is one. |
| PmtRing.RequestRing.Enqueue | OpenSSD/1.0.6/ftl_tssd/pmt_thread.c:39-49 | The new request is the last. |
| PmtUsers.FixedAreFew | OpenSSD/1.0.6/ftl_tssd/ftl_write_thread.c:120-153 | There are at most as many fixed pages as threads have sub-pages. |
| VpnAllocator.Allocator.Allocate | OpenSSD/1.0.6/ftl_tssd/gc.c:57-70 | A page that has never been handed out, in no bad block; pages of a block go out in ascending order, and another block is opened only when the last one is used up. |
| WriteBuffer.Buffers.Push | OpenSSD/1.0.6/ftl_tssd/write_buffer.c:327-435 | The sectors become the user's; other users lose the sub-pages that they are in, and nothing else changes. They stay in the buffer in which the user has the page if there is room, and otherwise go, with what he has of the page, to the first buffer from the head on that has. While the buffer is not full there is always a slot and a buffer. |
| WriteBuffer.Buffers.Pull | OpenSSD/1.0.6/ftl_tssd/write_buffer.c:282-325 | Exactly the user's own sectors, and zeros where other users have sub-pages. |
| WriteBuffer.Buffers.DropPage | OpenSSD/1.0.6/ftl_tssd/write_buffer.c:442-452 | That page is gone from the buffer, and nothing else. |
| WriteBuffer.Buffers.Flush | OpenSSD/1.0.6/ftl_tssd/write_buffer.c:454-513 | The page returned is that of the fullest buffer, of the head if that is one of them; exactly its slots go, and the head moves on to the next buffer exactly if it was the head. Each valid sector of the page is what was buffered there for the page named for its sub-page; exactly that is gone, and there is a clean buffer and a free slot. |
| WriteBuffer.Buffers.Store | OpenSSD/1.0.6/ftl_tssd/ftl_write_thread.c:58-93 | A partial write is always stored. The fullest buffer is flushed first, with what Flush says, if and only if the write buffer is full. |
| WriteBuffer.Buffers.AllocateBufferFor | OpenSSD/1.0.6/ftl_tssd/write_buffer.c:209-238 | A buffer that is clean, or is the user's and has the sectors free. |
| WriteBuffer.Buffers.FirstFor | OpenSSD/1.0.6/ftl_tssd/write_buffer.c:209-238 | It is the first such buffer from the head on, and there is one while a buffer is clean. |
| WriteBuffer.Buffers.FindFullest | OpenSSD/1.0.6/ftl_tssd/write_buffer.c:149-161 | No buffer has more sectors, and the head has priority among those with as many. |
| WriteBuffer.FullIsUsed | OpenSSD/1.0.6/ftl_tssd/write_buffer.c:437-440 | A full write buffer has something to flush. |
| WbTheorems.PullReturnsPush | OpenSSD/1.0.6/ftl_tssd/write_buffer.c:282-435 | A user reads back what he has pushed. |
| WbTheorems.OthersPullZeros | OpenSSD/1.0.6/ftl_tssd/write_buffer.c:282-435 | Another user gets zeros in all the sub-pages of the push. |
| WbTheorems.PushLeavesOthers | OpenSSD/1.0.6/ftl_tssd/write_buffer.c:327-435 | Other pages, and sub-pages that the push does not touch, are as they were. |

## Findings

Where the code does not do what it, or its documentation, says. The model follows the code.

- `full_merge` (`OpenSSD/1.1.0/ftl_faster/ftl.c:1557-1559`) returns early if its partial merge has moved the victim page
  away. On the last page before the one for names this skips the step that ends the block. `FasterAfter.ReturnsEarly` is
  the exact condition on the state before (`FasterAfter.StuckByEarlyReturn`). An assertion fails in every full merge from
  then on (`FasterRuns.NoMergeAnyMore`), and in no other one (`FasterSteps.MergeFailsWhenStuck`). It happens at the
  last of eighteen writes from the format, with eight isolation blocks, the least number that the code can be compiled
  with, and three pages to a block: `FasterEarly.EarlyReturnHappens`, `FasterEarly.NoMergeAfterIt`.
- The isolation area can overflow: a page is written where one has been written. `FasterIsol.NoRoom` has the exact
  condition, and separates it from the case in which an assertion fails. The assertions of the code hold when it happens
  (`isol_free_blk_cnt` is 1 then), and the one on that count fails at the page after. The reason is that the progressive
  merge is left out in every write that collects, so that the isolation blocks are used up by writes that all collect.
  It happens at the last of twenty-one writes from the format, nearly all of them of two pages by turns:
  `FasterFull.LastPageOverflows`, `FasterFull.Overflows`. The model stops there; no run that `Serve` accepts overflows.
- The branch of `garbage_collection` that clears second-chance bits of a block without valid pages is dead:
  `FasterGc.ClearingBranchIsDead`.
- `page_lock.h:57-60` says that a page may be locked again by its owner. A reader that does so while another owner
  intends to write is told that it has no lock, though it keeps it. `LockRules.AnswerNamesLockHeld` shows that this is
  the only case, and `LockRules.ReaderIsToldNothing` that it exists.
- `page_lock.h` also offers the null lock as a query. On a page that nobody has locked it takes a slot that no unlock
  gives back. `LockTable.WhatLeaks` has the exact condition, `LockTable.LeakedStays` and `LockTable.QueriesTakeAll` the
  consequences. The threads never ask for the null lock, and then a slot is always free: `LockTable.GrantIsOk`,
  `LockTable.SlotIsFree`.

## Left out

- More than one bank in the greedy FTL: in the other banks the first page is a placeholder whose name in the list is 0,
  which can be taken for logical page 0 (`OpenSSD/1.1.0/ftl_greedy/ftl.c:574, 599, 833`).
- Power-off recovery, format marks and the logging of metadata, in all three.
- Bad blocks that appear at run time. Those found at the format are parameters.
- The DAC, dummy and tutorial FTLs are not modelled.
- Registers, interrupts, SATA and UART; read and write of the controller are method parameters or sector sequences.
- FasterFtl.Ftl.Serve: one bank, and commands within one page; `ftl_write` splits requests as the greedy one does. At
  least three isolation blocks: with RESERV_ISOL_BLK (two) or fewer, the code merges blocks that have never been written,
  and counts more free ones than there are. Explicit wear leveling is a stub in the code.
- FasterFtl.Ftl.Tune: the counts do not wrap around at 32 bits.
- The hash table of FASTer is a map; its source is not part of this model.
- WriteBuffer.Buffers.Flush: the owner is known only through the ghost result, since the guard of its assignment is
  misspelt (`OpenSSD/1.0.6/ftl_tssd/write_buffer.c:469`).
- PmtCache.Cache.Evict: a page that has been modified is dirty, but it is not said that a clean page has its bit cleared,
  since `bit_array_clear` shifts by the whole index (`OpenSSD/1.0.6/ftl_tssd/bit_array.h:20`).
- SataManager.Tasks.Finish: task numbers do not wrap around at 32 bits.
- Sector masks are finite sets of sectors and not 64-bit words; the owner words of page locks are bit vectors.
- Managed buffers: that a buffer is free is a flag, and running out of buffers is not modelled.
- Access control: `pmt_authenticate` and `pmt_authorize`.
- The phases of read and write threads are the events of a state machine and not methods; the bank commands behind them
  are in `FlashBanks`, and the PMT accesses in `PmtThread`, each with its own invariant.
- FlashBanks.Banks.Pass: the handlers between the phases are not modelled; which commands a thread issues in its phases
  is a parameter.
