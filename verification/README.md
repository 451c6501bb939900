# A verified model of a small arm64 kernel

The kernel is a bare-metal arm64 system for two Raspberry Pi boards. This project models, in
Dafny, its page-table builder and walkers, its scheduler with fork and preemption, the page
allocator and memset they stand on, and its integer formatter and scanner. It proves what each
operation does and what holds over every run.

`dafny verify dfyconfig.toml` checks everything.

## How it is organised

Page tables:

- `Bits.dfy`: the 64-bit machine operations as arithmetic.
- `PgTable.dfy`: the index, boundary and descriptor macros, each proved equal to plain arithmetic.
- `Translation.dfy`: what the Arm MMU computes (section D5.3, "VMSAv8-64 translation table format
  descriptors", of the Arm Architecture Reference Manual DDI 0487, 4 KB granule, 48-bit
  addresses), and the well-formed trees: every table is named by the path that leads to it, so no
  two entries share one, and all of them are distinct aligned pages.
- `TreeUpdate.dfy`: how one store changes the walk of every address.
- `MapSpec.dfy`, `MapSteps.dfy`: a mapping request, and what one builder step may do to
  translations, tables, free pages and memory (`Step`).
- `Mmu.dfy`: the nested loops of the builder, each proved to be a `Step`.
- `StrayStores.dfy`, `Shortage.dfy`: what the walk of every address makes of stores that hit a
  table by mistake, and of a table that no page is left for.
- `MapTheorems.dfy`: what a whole call means. `Boot.dfy`: the three boot mappings.
- `Walk.dfy` (module `Walkers`): the software walkers and the permission update of a leaf.
- `PageAlloc.dfy`, `Memset.dfy`: pages, and clearing them.

Scheduler:

- `SchedModel.dfy`: the scheduler's state as values, one function per operation, and the laws
  over every run (bounded waiting, fork counting, and when a pick finds nobody).
- `List.dfy`, `TaskRing.dfy`: the two linked lists on the heap, and what an interrupt sees of an
  insertion that is only partly done.
- `Sched.dfy`: the scheduler and fork on the heap. `View` reads the heap as a model state, and the
  contract of each method says which function of `SchedModel.dfy` it computes on that state.
  `Seen` is what the forward links alone show, also halfway through an insertion.
- `ForkRuns.dfy`: what a fork that is interrupted after each of its stores amounts to.
- `Preempt.dfy`: interrupts, preemption and switches as a state machine with one step for each
  write of `preempt_count`, the interrupt mask or the current task. `PreemptRuns.dfy`: why a
  preemption happens, over whole runs.
- `Context.dfy`: `cpu_switch_to` and the interrupt frame on registers and memory, and what a task
  finds when it runs again.

Printing: `Printk.dfy`.

## Conditions the code depends on

These are results, not conveniences. Each names when the code does what it is for, and where that
fails a lemma or method gives what happens instead.

- A page for every table the builder adds. `early_pgtable_alloc` does not look at the 0 that
  `get_free_page` returns, so one table more can be had at address 0: `CreatePgdMapping` is proved
  with that page counted among those it can take (`Takeable`). `HangNothing` is the step that
  finds none left, and gives the walk of every address after it. With a table at address 0
  already, exactly the addresses below that table lose their translation. With the directory as
  the next page all do, and at most the addresses that take its own entry at every level are
  mapped again, to the directory.
- A section where pages must be stored. `PteLoopOnTable`: on a table the pages of an
  `alloc_init_pte` call are mapped. `PteLoopOnSection`: on a section they go into the section's own
  first page. If no table lies there no translation changes. If one does, the addresses translated
  through the overwritten entries go on from the pages asked for, and no others change.
  `PteLoopMapsIff`: unless the way to the pages is itself overwritten, they take effect if and only
  if the entry is a table. `PageIntoSection` is a run of the harmless kind, and `PageAtLowMemory`
  a boot followed by a request for a page at `LOW_MEMORY`, which a section maps. If the first table
  lies there, everything below 1 GB goes on from that page; if the directory does, everything
  below 512 GB; and otherwise nothing changes.
- A directory outside the next pages of the allocator. Nothing marks the image used in `mem_map`,
  and the linker script puts the directory behind the text. `paging_init` takes exactly
  `BootPages` pages (four, or five for a text that ends inside a later 2 MB slot), and builds the
  boot map when it can (`PagingInit`). With `first` pages taken before, it can if and only if the
  directory is not one of as many pages from there on (`BootRoomIff`). With the interrupt
  controller driver, which is the default, `irq_domain_add` has taken one (`TakeNextPage`), so
  `first` is 1; without it 0. `DirectoryLast` is the boot with the directory as the last page
  needed: the identity map is complete, and then nothing is translated any more. With the
  directory as an earlier page all translations are lost at that moment (`HangNothing`, and
  `DirectoryOverItself` for the first). The first table page lies in the text if and only if the
  text ends above it (`FirstTablePage`).
- `mem_map` outside the pages taken. It lies in the image behind the directory, and here it is kept
  apart from memory. Clearing a page that holds some of its bytes frees no page if and only if
  those are the bytes of other pages that are free anyway (`MapClearedIff`).
- An init record outside the pages that forks take. The linker script puts it into the data of the
  image, which is free for the allocator too. Over any run a page is handed to a task if and only
  if fewer free pages come before it than forks succeed (`PageTakenIff`).
- `walk_pgtable` takes an entry at address 0 for a null pointer. It agrees with the hardware walk
  if and only if no entry on the path lies there (`WalkPgtable`), which needs a table at address 0
  (`NullNeedsZeroTable`).
- `walk_pud` computes every boundary from `start`, so its loop ends if and only if the range lies
  in one 1 GB slot (`PudLoopEndsIff`). A dump of the first 2 GB does not end
  (`TwoGigabytesNeverEnd`). The dump is proved on ranges all of whose 512 GB pieces do.
- `__memset` fills exactly its range if and only if `Exact` holds (`FillsExactlyIff`): for an
  aligned start, a count of 0 or more than 16. From 1 to 16 it writes nothing
  (`ShortFillWritesNothing`). All callers modelled here meet it (`CallersExact`).
- A '-' is not counted against the field width, so `number` keeps to the width if and only if it
  does not pad a negative number (`TextLength`); -1 in five columns takes six (`MinusOneIsWide`).
- `pick_next_task_nop` on an empty queue returns a pointer it never set. A run reaches that if and
  only if init, with nothing queued, calls the scheduler or is ticked to the end of its slice, or
  ticked with the request already set (`EmptyPickIff`, and over runs `UnforkedRunsIff`). From
  boot, 24 ticks before the first successful fork are harmless and the 25th is not (`BootTicks`).
  Once a task is queued every run can happen (`QueuedRuns`).
- `do_fork` runs with interrupts on. From its store to `total_forks` on, an interrupted and resumed
  fork is the child linked and queued at one point (`PublishResumed`, `ForkAtQueue`), with the
  slice it was given if and only if no reset came between the two publishing stores
  (`SliceKeptIff`). A tick of the parent after its slice was halved is one before the fork if and
  only if that slice was 0, or even and not about to end (`TickInsideForkIff`).

## Model

| member | source | states |
|---|---|---|
| PgTable.PageMask | include/page.h:13 | PAGE_MASK drops exactly the low 12 bits |
| PgTable.PageAlign | include/page.h:17 | PAGE_ALIGN is the next multiple of 4096, and 0 above the last page, as for an unsigned long |
| PgTable.PgdIndex | arch/arm64/include/asm/pgtable.h:11-14 | the PGD index is the number of the 512 GB slot, modulo 512 |
| PgTable.PudIndex | arch/arm64/include/asm/pgtable.h:46-47 | the PUD index is the number of the 1 GB slot, modulo 512 |
| PgTable.PmdIndex | arch/arm64/include/asm/pgtable.h:54-55 | the PMD index is the number of the 2 MB slot, modulo 512 |
| PgTable.PteIndex | arch/arm64/include/asm/pgtable.h:64-65 | the PTE index is the page number, modulo 512 |
| PgTable.PageDescriptor | arch/arm64/include/asm/pgtable.h:67 | a page descriptor is the page address plus the attributes, with no field disturbed |
| PgTable.SectionDescriptor | arch/arm64/include/asm/pgtable.h:57-105 | a section descriptor is the 2 MB address plus the attributes with bit 1 cleared |
| PgTable.WritableWord | arch/arm64/include/asm/pgtable.h:96-123 | pte_mkyoung then pte_mkwrite sets AF and DBM, clears the read-only bit, and keeps the address field and every other bit |
| PgTable.WritableBit | arch/arm64/include/asm/pgtable.h:96-123 | the same for each of the 64 bits: 10 and 51 set, 7 clear, every other one kept |
| Translation.ResolvePlace | arch/arm64/mach-rpi/dump_pgtable.c:266-294 | on a well-formed tree the hardware walk stops at the deepest table on the address's path, at the entry the address selects |
| Translation.Resolve | arch/arm64/mach-rpi/mmu.c:111-129 | so the leaf of an address is read from that entry, or there is none |
| TreeUpdate.SetLeaf | arch/arm64/include/asm/pgtable.h:83-94 | storing one leaf keeps the tree well formed and changes the walk of exactly the addresses in that entry's slot |
| TreeUpdate.SetTable | arch/arm64/mach-rpi/mmu.c:36-40 | hanging a cleared page below an empty entry keeps the tree well formed and every address's leaf |
| TreeUpdate.SameTablesSameTree | arch/arm64/mach-rpi/mmu.c:19-25 | writes outside the tree's tables change no translation |
| StrayStores.OverwrittenWalk | arch/arm64/mach-rpi/mmu.c:42-46 | stores over some entries of one table change the walk of exactly the addresses translated through them, which go on from the new entry |
| StrayStores.RoundWalk | arch/arm64/mach-rpi/mmu.c:36-40 | from a page whose only entry points back to it the walk ends, unless the address takes that entry at every level |
| PageAlloc.PageAllocator.GetFreePage | mm/page_alloc.c:27-36 | takes the lowest free page and marks exactly it used, or returns 0 and changes nothing |
| PageAlloc.PageAllocator.FreePage | mm/page_alloc.c:38-41 | frees exactly that page |
| PageAlloc.PageNumbers | mm/page_alloc.c:27-41 | page i is the i-th 4 KB from 0x400000 on, and there are 131072 |
| PageAlloc.MapClearedIff | mm/page_alloc.c:5-36 | clearing a page just taken that holds bytes of mem_map leaves the free pages as they are if and only if those bytes are of other pages that are free |
| MapSpec.ComposeEffect | arch/arm64/mach-rpi/mmu.c:73-83 | two adjoining builder steps are one: translations, tables added, tables replaced and words written add up |
| MapSpec.ComposePages | arch/arm64/mach-rpi/mmu.c:73-83 | and so do the pages taken |
| MapSpec.Room | arch/arm64/mach-rpi/mmu.c:36-40 | after the first part the pages left suffice for the rest |
| MapSteps.PageStep | arch/arm64/mach-rpi/mmu.c:43-46 | one page store maps exactly its page, in a table already in the tree, and writes nothing if the entry was the same |
| MapSteps.SectionStep | arch/arm64/mach-rpi/mmu.c:49-54 | one section store maps exactly its 2 MB slot, whatever table hung there before |
| MapSteps.TableStep | arch/arm64/mach-rpi/mmu.c:36-40 | adding a table takes one free page, changes no translation and writes only that page and its parent entry |
| MapSteps.TableThere | arch/arm64/mach-rpi/mmu.c:36-42 | a non-empty entry already leads to the table, and nothing happens |
| Mmu.PageTables.ClearPage | arch/arm64/mach-rpi/mmu.c:19-25 | all 512 words of the page are 0, and no other word changed |
| Mmu.PageTables.EarlyPgtableAlloc | arch/arm64/mach-rpi/mmu.c:19-25 | the lowest free page, now used and cleared; or page 0, cleared, when none is free |
| Mmu.PageTables.HangTable | arch/arm64/mach-rpi/mmu.c:36-40 | the page is cleared and the entry points to it, whether a page was free or the table ends up at address 0 |
| Mmu.PageTables.Populate | arch/arm64/mach-rpi/mmu.c:36-40 | after it the entry leads to the table of its slot, found or new, and translations are as before |
| Mmu.PageTables.NewTable | arch/arm64/mach-rpi/mmu.c:36-40 | the same when the entry was empty: exactly one page is taken, the lowest free one, or address 0 when none is free and no table lies there |
| Mmu.PageTables.SetPte | arch/arm64/include/asm/pgtable.h:90-94 | one page is mapped as requested and nothing else changes |
| Mmu.PageTables.AllocInitPte | arch/arm64/mach-rpi/mmu.c:27-47 | maps exactly its part of a 2 MB slot by pages, adding at most the slot's table |
| Mmu.PageTables.PmdSetSection | arch/arm64/mach-rpi/mmu.c:49-54 | maps exactly one 2 MB slot |
| Mmu.PageTables.MapSlot | arch/arm64/mach-rpi/mmu.c:74-82 | by section or by pages, one piece is mapped as requested |
| Mmu.PageTables.AllocInitPmd | arch/arm64/mach-rpi/mmu.c:56-84 | maps exactly its part of a 1 GB slot, with one table per 2 MB slot mapped by pages |
| Mmu.PageTables.AllocInitPud | arch/arm64/mach-rpi/mmu.c:86-109 | maps exactly its part of a 512 GB slot |
| Mmu.PageTables.CreatePgdMapping | arch/arm64/mach-rpi/mmu.c:111-129 | the whole call, with as many pages to take as tables are missing (address 0 being the last of them): the tree stays well formed with tables in used distinct pages, every address of the page range has the requested leaf, every other address its old one, every word written lies in a table that was reachable or a page the call took, the pages taken are exactly the tables that were missing, the first by first fit, and a repetition changes nothing |
| Shortage.ZeroTableLost | arch/arm64/mach-rpi/mmu.c:19-40 | a second table at address 0: exactly the addresses below the first lose their translation |
| Shortage.DirectoryCleared | arch/arm64/mach-rpi/mmu.c:19-40 | the directory taken as a table below an entry elsewhere: no address is translated |
| Shortage.DirectoryRound | arch/arm64/mach-rpi/mmu.c:19-40 | the directory taken as a table below its own entry i: only addresses that take entry i at every level are translated, to the directory |
| Shortage.HangNothing | arch/arm64/mach-rpi/mmu.c:36-40 | the step of the builder when no page can be taken, and the leaf of every address after it |
| Mmu.SectionChoice | arch/arm64/mach-rpi/mmu.c:76-78 | the alignment test picks a section exactly when the slot is covered whole, input and output are 2 MB aligned and blocks are allowed |
| Mmu.RequestOk | arch/arm64/mach-rpi/mmu.c:117-122 | the smallest page range around the arguments, mapped from the page of phys on with the prot and flags given |
| Mmu.PmdCut | arch/arm64/include/asm/pgtable.h:26-29 | pmd_addr_end gives a non-empty piece inside one 2 MB slot that ends at its boundary or at the end |
| Mmu.PudCut | arch/arm64/include/asm/pgtable.h:21-24 | the same for 1 GB |
| Mmu.PgdCut | arch/arm64/include/asm/pgtable.h:16-19 | the same for 512 GB |
| Mmu.PmdPiece | arch/arm64/mach-rpi/mmu.c:73-83 | consecutive pieces of the PMD loop: the next begins at the boundary, and its index is one more, so the entry pointer keeps step |
| Mmu.PudPiece | arch/arm64/mach-rpi/mmu.c:103-107 | the same for the PUD loop |
| Mmu.PgdPiece | arch/arm64/mach-rpi/mmu.c:124-128 | the same for the PGD loop |
| MapTheorems.WantDecodes | arch/arm64/mach-rpi/mmu.c:42-54 | page or section, the descriptor written decodes to the requested address and attributes |
| MapTheorems.CallTranslates | arch/arm64/mach-rpi/mmu.c:111-129 | every address of the range translates to itself plus the offset with the attributes of prot, and every other address exactly as before |
| MapTheorems.CallByPages | arch/arm64/mach-rpi/mmu.c:73-129 | the call in terms of its arguments: exactly the pages it touches are mapped, each to the page of phys as far on with the bits of prot, by a section exactly where all 512 pages of a slot are touched, the addresses agree modulo 2 MB and flag bit 0 is clear |
| MapTheorems.DisjointCallsCommute | arch/arm64/mach-rpi/mmu.c:111-129 | calls on disjoint ranges give the same translations in either order |
| MapTheorems.CallAgain | arch/arm64/mach-rpi/mmu.c:36-40 | repeating a call takes no page and leaves memory identical |
| MapTheorems.MapTwice | arch/arm64/mach-rpi/mmu.c:111-129 | a second call is possible wherever the first was, and leaves memory, tables and free pages identical |
| MapTheorems.CallBudget | arch/arm64/mach-rpi/mmu.c:66-83 | with input and output equal modulo 2 MB and blocks allowed a call takes at most one page per 512 GB slot and per 1 GB slot it touches, and two more |
| MapTheorems.PteLoopOnTable | arch/arm64/mach-rpi/mmu.c:36-46 | on a table pointer the pages of the call are mapped, and every other address keeps its leaf |
| MapTheorems.StoresIntoTable | arch/arm64/mach-rpi/mmu.c:42-46 | page descriptors stored over entries of a reachable table: through a last-level table they map the pages, above it they take the pages for tables, and no other address changes |
| MapTheorems.PteLoopOnSection | arch/arm64/mach-rpi/mmu.c:36-46 | on a section the call overwrites what lies in the section's first page: a table there changes as `StoresIntoTable` says, and without one every address keeps its translation |
| MapTheorems.PteLoopMapsIff | arch/arm64/mach-rpi/mmu.c:27-47 | unless they overwrite an entry on the way to their own addresses, the pages of a call on an entry that is not empty take effect if and only if the entry is a table and not a section |
| MapTheorems.StorePtes | arch/arm64/mach-rpi/mmu.c:33-46 | alloc_init_pte on an entry that is not empty: its stores, n page descriptors from the entry's address on |
| MapTheorems.MapOnePage | arch/arm64/mach-rpi/mmu.c:111-129 | __create_pgd_mapping of one page where no entry on the way is empty: nothing is allocated, and one descriptor is stored |
| MapTheorems.PageIntoSection | arch/arm64/mach-rpi/mmu.c:27-54 | a 2 MB section whose memory holds no table, and then a call for one page inside it sent elsewhere: no translation changes, and the descriptor lands in the section's memory |
| Boot.CreateIdentityMapping | arch/arm64/mach-rpi/mmu.c:131-151 | text, then the rest of memory, mapped to themselves with the attributes whose bits `BootMapBits` gives, nothing else, taking exactly the tables of the text that were missing |
| Boot.CreateMmioMapping | arch/arm64/mach-rpi/mmu.c:153-159 | adds the device window and nothing else, taking its level-2 table if that was missing |
| Boot.PagingInit | arch/arm64/mach-rpi/mmu.c:216-220 | for every image size and both boards, when as many pages as the image needs can be taken: exactly the boot map, everything else unmapped, exactly that many pages taken, and the first table where first fit puts it. Bit by bit: text read-only and executable at EL1 without DBM, the rest of memory and the device window writable and not executable, AttrIndx 4, 4 and 0, so no address is both writable and executable at EL1 |
| Boot.BootMapBits | arch/arm64/include/asm/pgtable_prot.h:18-29 | the bits of the three attribute constants at every address of the boot map, and that no address is writable and executable at EL1 |
| Boot.BootRoomIff | arch/arm64/kernel/linker.ld:34-36 | with the pages from `first` on free, the pages `PagingInit` asks for can be taken if and only if the directory is not one of as many pages from `first` on |
| Boot.TakeNextPage | kernel/irq.c:125-136 | a page taken before the boot is the next one, and the free pages then begin behind it |
| Boot.TakesDirectoryIff | mm/page_alloc.c:27-36 | the page handed out is the directory if and only if no free page lies below it |
| Boot.DirectoryOverItself | arch/arm64/mach-rpi/mmu.c:36-40 | the directory handed out as its own first table: only the addresses that take entry 0 at every level are mapped, to the directory |
| Boot.DirectoryLast | arch/arm64/mach-rpi/mmu.c:131-159 | a whole boot with the directory as the last page needed: the identity map is complete, then the device table unmaps every address and its sections land in the directory |
| Boot.PageAtLowMemory | arch/arm64/mach-rpi/mmu.c:27-46 | a boot, and then a page requested at LOW_MEMORY: what is translated through the table at LOW_MEMORY, if the first table or the directory lies there, goes on from that page and is lost if it is empty, and no other translation changes |
| Boot.FirstTablePage | mm/page_alloc.c:5-36 | the first table page is the first free one; it lies in the kernel's text, cleared over it, if and only if the text ends above it |
| Boot.UnmappedRange | arch/arm64/mach-rpi/mmu.c:131-159 | a mapping of a range outside the map so far meets no section where it needs pages |
| Boot.MappingExtends | arch/arm64/mach-rpi/mmu.c:138-158 | one boot mapping adds its identity range to what was mapped |
| Walkers.WalkPgtable | arch/arm64/mach-rpi/dump_pgtable.c:266-294 | NULL exactly when the MMU faults or an entry on the path lies at address 0, and otherwise the entry where the hardware walk stops |
| Walkers.NullNeedsZeroTable | arch/arm64/mach-rpi/dump_pgtable.c:275-291 | without a table at address 0 no entry lies there |
| Walkers.Dump.WalkPte | arch/arm64/mach-rpi/dump_pgtable.c:184-192 | the calls of print_pgtable tile the range; the value of each is what the MMU finds there, and its level where the MMU stops |
| Walkers.Dump.WalkPmd | arch/arm64/mach-rpi/dump_pgtable.c:194-212 | the same over 2 MB pieces |
| Walkers.Dump.WalkPud | arch/arm64/mach-rpi/dump_pgtable.c:214-232 | the same inside one 1 GB slot |
| Walkers.Dump.WalkPgd | arch/arm64/mach-rpi/dump_pgtable.c:234-254 | over the whole dump the calls of print_pgtable tile the range in order, without gap or overlap, and each agrees with the MMU on value and on the level where its walk ends |
| Walkers.StopsAtDeepest | arch/arm64/mach-rpi/dump_pgtable.c:184-254 | the MMU stops at the deepest table on the address's path |
| Walkers.PudLoopEndsIff | arch/arm64/mach-rpi/dump_pgtable.c:220-231 | the PUD loop ends if and only if the range lies in one 1 GB slot |
| Walkers.TwoGigabytesNeverEnd | arch/arm64/mach-rpi/dump_pgtable.c:220-231 | a dump of the first 2 GB stays at its first boundary, whatever the number of turns |
| Walkers.MakeLeafWritable | arch/arm64/mach-rpi/dump_pgtable.c:296-312 | the leaf of the address is replaced for exactly the addresses it covers, and the tree stays well formed |
| Walkers.WritableTranslates | arch/arm64/include/asm/pgtable.h:96-123 | the new leaf has the old output address, and permissions changed by AF, DBM and the read-only bit only |
| Memset.Ram.Memset1Bytes | lib/string.c:24-31 | fills exactly its range |
| Memset.Ram.Memset16Bytes | lib/string.c:33-48 | the store loop fills count bytes, 16 at a time |
| Memset.Ram.DataWord | lib/string.c:59-63 | the data word is the byte repeated eight times |
| Memset.Ram.Memset | lib/string.c:50-89 | which bytes are written, for any start and count: exactly those of `Touched` |
| Memset.FillsExactlyIff | lib/string.c:66-86 | these are the bytes of the range if and only if `Exact` holds |
| Memset.TouchedCases | lib/string.c:66-86 | which bytes are written in each of the four cases: the leading start mod 16 only, when at most 16 more are asked for; all; from 2 GB on all but the tail, which goes 4 GB too low; and almost 4 GB when fewer than the leading bytes are asked for |
| Memset.ShortFillWritesNothing | lib/string.c:66-86 | from an aligned start a fill of at most 16 bytes writes nothing |
| Memset.CallersExact | kernel/fork.c:45-47 | the page-table and fork callers meet that condition |
| Memset.ClearedPage | arch/arm64/mach-rpi/mmu.c:19-25 | so a fresh table page reads as 512 zero words, and no byte outside it changes |
| Memset.ClearedWords | arch/arm64/mach-rpi/mmu.c:19-25 | memset on bytes is the clearing of words the page-table builder relies on |
| Memset.Ram.MemsetBody | lib/string.c:66-89 | the 16-byte blocks and the bytes after them, from the point where the start is aligned |
| SchedModel.FirstMax | kernel/sched_nop.c:52-62 | the position chosen holds the maximum and is the first that does |
| SchedModel.PickIsBest | kernel/sched_nop.c:43-72 | one reset is always enough, and the task picked is the first in queue order of greatest counter, which is positive |
| SchedModel.TickKeeps | kernel/sched_nop.c:21-28 | a tick keeps counters within a full slice and the rest of the invariant |
| SchedModel.ResetKeeps | kernel/sched_nop.c:35-43 | so does a reset |
| SchedModel.ForkKeeps | kernel/fork.c:92-102 | so does a fork |
| SchedModel.ScheduledKeeps | kernel/sched.c:88-98 | so does a call of the scheduler, and the next task is queued |
| SchedModel.ScheduledMeans | kernel/sched.c:85-98 | field by field: prev leaves the queue if it asked to sleep, its request is cleared and no other changes, counters change only by a reset, and the next task is the first of greatest, positive counter |
| SchedModel.RestFromBoot | kernel/sched.c:93-95 | after any run from boot no task has need_resched set, every task is ready with preempt_count 0 and its own priority, and a tick reaches the picker if and only if the running counter is at most 1 |
| SchedModel.TickPicksIff | arch/arm64/kernel/entry.S:265-268 | a tick reaches the picker if and only if it ends the slice |
| SchedModel.AfterMeans | kernel/sched_nop.c:21-72 | one event in plain terms: a tick that leaves slice takes one from it and nothing else; a tick that does not, or a call of the scheduler, runs the first of greatest slice, after a reset if no queued task has any |
| SchedModel.WithoutKeeps | kernel/sched_nop.c:9-13 | leaving the queue removes that task and no other, and keeps the order free of duplicates |
| SchedModel.TickSum | kernel/sched_nop.c:21-28 | a tick of a queued task takes exactly one from the slices in the queue, or nothing if it had none; a tick of init takes nothing |
| SchedModel.ForkSum | kernel/fork.c:94-95 | parent and child together have the parent's old slice, so a queued parent's fork keeps the sum and init's adds the child's half |
| SchedModel.ResetIffSpent | kernel/sched_nop.c:64-67 | a reset happens if and only if no queued task has slice left |
| SchedModel.WaitStep | kernel/sched_nop.c:45-72 | while a task with slice waits, under init or a queued task, no event resets counters or finds the queue empty, each tick lowers the bound and a fork raises it by at most one |
| SchedModel.BoundedWaiting | kernel/sched_nop.c:21-72 | over every run, init running or not, a task with slice left is picked before any reset and before more ticks pass than the other tasks have slice, plus one per fork and one |
| SchedModel.WaitAtMost | kernel/sched_nop.c:35-43 | the bound as a number: at most 27 ticks for each other queued task, 25 for init, one for each fork and one |
| SchedModel.ForksOverRun | kernel/fork.c:74-104 | over every run the k-th successful fork returns the k-th next pid, adds one task and takes one page; at most 127 succeed |
| SchedModel.ForksFromBoot | init/main.c:183-191 | from boot, where init forks, the k-th successful fork returns pid k |
| SchedModel.PageTakenIff | kernel/fork.c:79-81 | over every run a free page is handed to a task if and only if fewer free pages come before it than forks succeed |
| SchedModel.NeverBackToInit | kernel/sched_nop.c:53-62 | once a task was picked init never runs again |
| SchedModel.EmptyPickIff | kernel/sched_nop.c:45-72 | an event picks from an empty queue if and only if init runs with nothing queued and calls the scheduler, ends its slice, or is ticked with the request already set |
| SchedModel.QueuedRuns | kernel/sched_nop.c:45-72 | from a state with a queued task no run ever picks from an empty queue |
| SchedModel.UnforkedRunsIff | kernel/sched_nop.c:21-72 | before a fork succeeds a run avoids that pick if and only if it does not call the scheduler and has fewer ticks than init has slice |
| SchedModel.BootTicks | include/sched.h:72-83 | from boot, n ticks avoid it if and only if n is below a full slice |
| List.InitListHead | include/list.h:18-22 | an empty ring |
| List.ListAddWrites | include/list.h:24-31 | after any prefix of the four stores the forward links are exactly the old list or exactly the new one, and after all four it is a ring |
| List.ListAddStore | include/list.h:24-31 | each of the four stores on its own, from the state the ones before it left |
| List.ListAdd | include/list.h:33-36 | the node is first in the ring, all others as before |
| List.ListUnlink | include/list.h:44-49 | the ring without the node, in both directions |
| List.ListDel | include/list.h:51-56 | the same, and the node's own links are dead |
| List.ListForEach | include/list.h:66-67 | the loop ends and visits exactly the ring's nodes in order, using forward links only |
| List.ListAddInterrupted | include/list.h:24-31 | so a traversal after any prefix of an insertion sees exactly the old or exactly the new list |
| TaskRing.SetLinksWrites | kernel/fork.c:13-19 | after any prefix of the four stores of SET_LINKS the forward ring is exactly the old or exactly the new one |
| TaskRing.SetLinksStore | kernel/fork.c:13-19 | each of the four stores on its own, from the state the ones before it left |
| TaskRing.ForEachTask | include/sched.h:85-86 | for_each_task ends and visits every task but init in fork order |
| TaskRing.SetLinksInterrupted | kernel/fork.c:13-19 | so an interrupt inside SET_LINKS sees exactly the old or exactly the new tasks |
| Sched.Scheduler.constructor | kernel/sched.c:147-154 | the initial records form a valid state: init alone, not queued, nothing forked, with slice 25, priority 20, count 0 and no request |
| Sched.Scheduler.EnqueueTask | kernel/sched_nop.c:15-19 | the ring represents the queue with the task in front, and nr_running is its length |
| Sched.Scheduler.DequeueTask | kernel/sched_nop.c:9-13 | the ring represents the queue without the task, the rest in order, and nr_running is its length |
| Sched.Scheduler.WakeUpProcess | kernel/sched.c:140-145 | the task is runnable (state 0) and first in the queue, and nothing else changed |
| Sched.Scheduler.TaskTick | kernel/sched_nop.c:21-28 | refines the model's tick, on whatever the forward links show: one off the counter, and at 1 or below it becomes 0 and need_resched is set |
| Sched.Scheduler.TickHandlePeriodic | kernel/sched.c:39-43 | the same between complete operations, and the state stays valid |
| Sched.Scheduler.ResetCounters | kernel/sched_nop.c:35-43 | every task but init gets a full slice and no other field changes |
| Sched.Scheduler.ResetScore | kernel/sched_nop.c:35-43 | refines the model's reset, also on lists that an insertion has only partly changed |
| Sched.Scheduler.Scan | kernel/sched_nop.c:53-62 | the scan returns the first entry of greatest counter, and that counter |
| Sched.Scheduler.BestTask | kernel/sched_nop.c:52-62 | the same for the tasks that the run queue's forward links show |
| Sched.Scheduler.PickNextTask | kernel/sched_nop.c:45-72 | terminates with at most one reset and refines the model's pick, on whatever the forward links of both lists show: the first in queue order of the greatest counter, which is positive, after a full slice of 25 plus priority for all but init if no queued task had any left |
| Sched.Scheduler.Pick | kernel/sched_nop.c:45-72 | the same between complete operations, and the state stays valid |
| Sched.Scheduler.PickDuringEnqueue | kernel/sched_nop.c:15-19 | a pick, with its reset, after any prefix of the stores of enqueue_task is the pick on the old queue or on the new one |
| Sched.Scheduler.PickDuringLink | kernel/fork.c:13-19 | a pick, with its reset, after any prefix of the stores of SET_LINKS sees exactly the old tasks or exactly the new |
| Sched.Scheduler.RunOnLists | kernel/sched_nop.c:21-72 | on lists that stay half done, every run of ticks and calls of the scheduler is that run of the model they show |
| Sched.Scheduler.RunDuringEnqueue | kernel/sched_nop.c:15-19 | a task preempted for good after any prefix of the stores of enqueue_task: the run that follows is one on the old queue or on the new one |
| Sched.Scheduler.RunDuringLink | kernel/fork.c:13-19 | the same for SET_LINKS, on the old tasks or on the new |
| Sched.Scheduler.PublishResumed | kernel/fork.c:99-102 | do_fork from total_forks on, with a run of ticks and calls of the scheduler after each of its twelve stores: the state is valid at the end, and it is the model with the task added at the fifth store, queued at the eleventh, and the runs between |
| ForkRuns.WithRun | kernel/sched_nop.c:21-72 | a run on lists that show a linked task not yet queued is the run without it, but that a reset fills its slice |
| ForkRuns.ForkAtQueue | kernel/fork.c:99-102 | such an interrupted fork equals runs, then the child linked and queued at the store that publishes it in the queue, then runs |
| ForkRuns.SliceKeptIff | kernel/sched_nop.c:35-43 | the child then has the slice it was given if and only if no reset came between its two publishing stores, or that slice was full |
| ForkRuns.ForkInParts | kernel/fork.c:79-102 | a whole fork is the page taken and the slice halved, then the child linked and queued |
| ForkRuns.TickInsideForkIff | kernel/fork.c:94-95 | a tick of the parent after the halving gives the same as before the fork if and only if its slice was 0, or even and not about to end |
| Sched.Scheduler.ReadyToLink | kernel/fork.c:100-101 | every state between complete operations is one the last two results about SET_LINKS start from |
| Sched.Scheduler.Schedule | kernel/sched.c:85-98 | refines the model's scheduling step; prev has no request left, it left the queue if it asked to sleep and nobody else did, counters changed only by a reset, and the task returned is the first of greatest, positive counter |
| Sched.Scheduler.FindEmptyTask | kernel/fork.c:21-31 | the first free place of g_task is the number of tasks, or -1 when all 128 are taken |
| Sched.Scheduler.CopyThread | kernel/fork.c:40-66 | fails exactly for a user thread with a misaligned stack, and otherwise sets the child's registers and context |
| Sched.Scheduler.SplitSlice | kernel/fork.c:92-98 | the child gets half of the parent's slice, rounded up, and the parent keeps the rest; the child asks for nothing, has count 0 and priority 2 |
| Sched.Scheduler.LinkTask | kernel/fork.c:100-101 | g_task and the task ring gain exactly the child, last, and stay consistent |
| Sched.Scheduler.TakePage | kernel/fork.c:79-81 | the child's page is the lowest free one and no other task's |
| Sched.Scheduler.GiveBack | kernel/fork.c:108-109 | a failed fork gives its page back |
| Sched.Scheduler.ForkOnPage | kernel/fork.c:83-109 | from the page on: either the child is complete and queued, or only the page is given back |
| Sched.Scheduler.DoFork | kernel/fork.c:74-112 | all or nothing: fails exactly without a page, with 128 tasks, or for a user thread whose stack is not 16-byte aligned, and then allocator, g_task, ring, queue and counters are as before; otherwise it returns its ordinal as pid, the new state is the model's fork, and the child is in g_task, first in the queue, ready, with count 0, no request, priority 2, half the slice, and the registers of `RegsMean` |
| Sched.ForkMeans | kernel/fork.c:79-104 | a fork field by field: the lowest free page goes, the child is ready with count 0, no request and priority 2, and the slice is split |
| Sched.RegsMean | kernel/fork.c:40-66 | a user child has x0 0, the stack given, if one is, as its sp, and every other register the parent's; a kernel thread has its function in x19, its argument in x20 and all else 0; both start at ret_from_fork with sp 320 bytes below the end of the page |
| Sched.GoodStackMeans | kernel/fork.c:49-59 | the stack is refused exactly for a user thread not aligned to 16 bytes |
| Sched.Scheduler.Perform | arch/arm64/kernel/entry.S:255-276 | one event on the heap (a tick and the check after it, a fork, a call of the scheduler) is that event of the model, and the task it names runs next |
| Sched.Scheduler.RunEvents | kernel/sched_nop.c:9-72 | every run of events on the heap, init or a queued task running, is that run of the model, and tasks already there stay where they are |
| Sched.RunFromBoot | init/main.c:183-191 | a whole run from the initial records: it is the model's run from boot, with one task for each successful fork, numbered in fork order |
| Sched.FirstMaxUnique | kernel/sched_nop.c:56-61 | the strict comparison of the scan keeps the first of equals |
| Sched.ForkOutcome | kernel/fork.c:79-111 | taking a page and giving it back is the identity, and a page in hand with a free place is a fork that can succeed |
| Preempt.StepKeeps | kernel/sched.c:117-138 | every step keeps the nesting of interrupts and preemptions, preempt_count equal to what the open activities added, and the mask equal to what the innermost one set |
| Preempt.RunKeeps | arch/arm64/kernel/entry.S:255-276 | so does every run |
| Preempt.FreshGround | arch/arm64/kernel/entry.S:265-268 | interruptible code with preempt_count 0 has no interrupt and no preemption below it |
| Preempt.ScheduleGround | kernel/sched.c:117-138 | past preempt_disable, schedule and preempt_schedule_irq hold exactly 1 |
| Preempt.Depth | arch/arm64/kernel/entry.S:255-276 | no stack nests more than two interrupts and one preemption |
| Preempt.DepthReached | kernel/sched.c:117-138 | both bounds are reached: a run from boot with an interrupt in the window of preempt_schedule_irq |
| Preempt.PreemptSafety | kernel/sched.c:76-145 | over every run with interrupts at any time: __schedule is entered with preempt_count 1 and preempt_schedule_irq with 0, a switched-out task that has run holds 1, one that never ran holds 0, and stacks nest at most two interrupts and one preemption |
| Preempt.PickUninterrupted | kernel/sched.c:85-114 | no interrupt is taken between the disable in __schedule and schedule_tail |
| Preempt.LowerFramesKept | arch/arm64/kernel/entry.S:255-276 | whatever runs above them, the lower activities of a stack stay as they are |
| Preempt.InterruptTransparent | kernel/irq.c:172-177 | after an interrupt, with whatever nested or was scheduled inside it, the interrupted code has its own activities, its preempt_count and its interrupts on |
| PreemptRuns.FlagMeans | kernel/sched_nop.c:21-28 | after any run from boot need_resched of a thread is set if and only if a tick ended its slice and it has not picked since |
| PreemptRuns.PreemptionAsked | arch/arm64/kernel/entry.S:265-268 | over every run from boot: a thread inside a preemption that has not picked yet has need_resched set, by a tick after its last pick |
| PreemptRuns.PreemptedIff | arch/arm64/kernel/entry.S:265-271 | the check at the end of el1_irq, after any run from boot: it calls the scheduler if and only if the thread was asked to give way and its own code was interrupted, outside any other interrupt and any preempt-disabled part; otherwise the interrupted code goes on |
| PreemptRuns.QuietRun | arch/arm64/kernel/entry.S:265-268 | a run in which no slice ends sets no flag and preempts nobody |
| PreemptRuns.PreemptionsPaid | kernel/sched.c:93-95 | over every run from boot a thread is preempted at most once for each of its ticks that ended a slice |
| PreemptRuns.OpenUntilPick | kernel/sched.c:117-145 | whatever else runs, schedule or preempt_schedule_irq does not return before its thread has picked |
| PreemptRuns.MaskTable | kernel/sched.c:76-138 | the interrupt mask at every point, after any run from boot |
| PreemptRuns.CountTable | include/sched.h:128-134 | preempt_count after any run from boot: 256 inside a handler and 1 from preempt_disable to preempt_enable |
| PreemptRuns.ScheduleInFull | kernel/sched.c:117-123 | one call of schedule, with preempt_count and mask at every write |
| PreemptRuns.PreemptionInFull | kernel/sched.c:125-145 | one preemption from the check to the interrupted code, with preempt_count, flag and mask at every write |
| Context.StoreThenRead | arch/arm64/kernel/entry.S:322-343 | words stored from an address are the words read back from it |
| Context.Cpu.SaveCallee | arch/arm64/kernel/entry.S:322-332 | prev's record holds x19 to x29, sp and lr, and no other word changed |
| Context.Cpu.LoadCallee | arch/arm64/kernel/entry.S:334-343 | x19 to x29 come from next's record from byte 16 on, sp from 104 and lr from 112, and control goes to that lr |
| Context.Cpu.CpuSwitchTo | arch/arm64/kernel/entry.S:322-343 | both halves together: the caller's x19 to x29, sp and lr are at bytes 16 to 112 of prev's record, next's are loaded as they were there before, x0 still names prev |
| Context.SwitchOn | arch/arm64/kernel/entry.S:322-343 | cpu_switch_to run on the machine of the current task is the switch step of the runs below |
| Context.Cpu.KernelContextSave | arch/arm64/kernel/entry.S:30-67 | sp goes down by 320, and the 34 words of the frame are x0 to x30, the old sp at 248, the return address at 256 and the saved state at 264 |
| Context.Cpu.KernelContextRes | arch/arm64/kernel/entry.S:69-99 | x0 to x30, pc and state come from the frame and sp is above it |
| Context.Cpu.Interrupted | arch/arm64/kernel/entry.S:255-271 | around a handler that may change every register, the interrupted code keeps all of them, its sp and its state |
| Context.SwitchRecords | arch/arm64/kernel/entry.S:322-332 | a switch writes the record of the task that leaves and no other task's |
| Context.CurrentMeans | arch/arm64/include/asm/current.h:8-11 | current is the stack pointer rounded down to 4 KB |
| Context.StepKeeps | arch/arm64/include/asm/current.h:8-11 | each task's stack pointer, live or saved, stays on its own page, so masking it names the task |
| Context.TraceKeeps | arch/arm64/include/asm/current.h:8-11 | over every run of computing, forking and switching |
| Context.RecordKept | arch/arm64/kernel/entry.S:322-343 | while a task is not running its saved context does not change |
| Context.ResumesExactly | arch/arm64/kernel/entry.S:322-343 | a task that runs again finds each of x19 to x30 and sp as when it left, continues at its lr, with x0 naming the task that left for it, and itself as current |
| Context.NewThreadStarts | kernel/fork.c:52-63 | a new kernel thread first runs at ret_from_fork on its own stack with its function in x19 and the argument in x20 |
| Printk.DoDiv | lib/printk.c:32-38 | num becomes the quotient and the result is the remainder: num = quotient * base + rem with rem below base |
| Printk.DividesOnce | lib/printk.c:32-38 | no other pair of numbers is a quotient and remainder |
| Printk.DigitsValue | lib/printk.c:88-93 | the digits denote the number, in every base |
| Printk.DigitsShape | lib/printk.c:56-93 | at least one and at most 64 digits, no leading zero, "0" for 0 |
| Printk.Convert | lib/printk.c:88-93 | tmp holds the digits from the least significant and never overflows |
| Printk.TakeSign | lib/printk.c:70-86 | the sign, the magnitude (2^63 for the least long) and the width left |
| Printk.TextLength | lib/printk.c:73-122 | the length of the field in terms of width, precision, sign and prefix, and when it keeps to the width |
| Printk.MinusOneIsWide | lib/printk.c:70-76 | -1 in a field of width 5 takes six characters |
| Printk.TextDenotes | lib/printk.c:53-124 | sign and digits denote the number, signed or not, in every base and for every precision |
| Printk.DigitTable | lib/printk.c:59-63 | the 36 digit characters, lower case for SMALL and upper case otherwise, and their values |
| Printk.DigitsCase | lib/printk.c:62-93 | every digit printed is 0 to 9 or a letter below the base, of the case asked for |
| Printk.SignMeans | lib/printk.c:69-80 | the sign is "-", or "+" for PLUS, or " " for SPACE, of signed numbers only |
| Printk.PrefixMeans | lib/printk.c:103-110 | the prefix is "0" in octal, "0x" or "0X" in hexadecimal, of SPECIAL only |
| Printk.BodyMeans | lib/printk.c:94-119 | the digits, behind as many zeros as the precision is longer |
| Printk.TextSides | lib/printk.c:97-121 | with neither LEFT nor ZEROPAD the field ends with sign, prefix and digits behind spaces only; with LEFT it begins with them and spaces follow; with ZEROPAD alone it begins with sign and prefix, ends with the digits, and zeros lie between |
| Printk.FortyTwo | lib/printk.c:97-121 | 42 in five columns: three spaces in front, three behind with LEFT, three zeros with ZEROPAD |
| Printk.Output.Fill | lib/printk.c:97-98 | a padding loop writes max(size, 0) characters and leaves size negative |
| Printk.Output.Zeros | lib/printk.c:116-117 | the precision loop |
| Printk.Output.PutBackward | lib/printk.c:118-119 | the digits come out most significant first |
| Printk.PutField | lib/printk.c:97-121 | the padding loops around sign, prefix and digits write the layout that `TextSides` describes, and exactly one of them pads |
| Printk.Number | lib/printk.c:53-124 | for a base from 2 to 36 the field, as `TextSides`, `TextLength` and `TextDenotes` describe it, is appended to the buffer and nothing else is written; otherwise nothing is |
| Printk.ScanNumber | lib/printk.c:40-51 | consumes exactly the digits and returns their decimal value, without overflow if it fits an int |
| Printk.RoundTrip | lib/printk.c:40-124 | a plain decimal field of a non-negative int is read back as that int, whatever follows it |
| Printk.PrintThenScan | lib/printk.c:40-124 | the same for the two routines run one after the other on a buffer |

## Left out

- CreatePgdMapping: asks for as many pages as tables are missing and for no section where pages go; `HangNothing` and `PteLoopOnSection` give the step that meets either, and what the rest of such a call does is not followed.
- PagingInit: keeps `mem_map` apart from memory; an image whose `mem_map` lies in the pages taken is not followed further than `MapClearedIff`.
- The rest of a boot after a page before the last turned out to be the directory: it reads memory that the model leaves open.
- TLB and cache maintenance, barriers, system registers, `cpu_init` and `enable_mmu`: device I/O; the model's translation is that of a coherent walk.
- Hierarchical attributes in table descriptors, access checks and the access flag fault: the builder sets none, and a translation here is an address and attribute bits.
- Dumps across a 1 GB boundary: the loop does not end there, as `PudLoopEndsIff` states.
- The printed form of a dump line (units, names, attribute strings): a line is its range, level and value.
- The RAM bound of the allocator's last pages: pages are stated as the allocator numbers them, some above TOTAL_MEMORY.
- list_entry arithmetic and the poison values of `list_del`: a node carries a reference to its record, and dead links are null.
- `list_add_tail`, `list_empty`, `nr_switches` and `rq->curr`: the scheduler decides nothing with them.
- Sleeping tasks that are not on the queue, and waking a queued task: the code assumes neither happens, and both are preconditions.
- BoundedWaiting: does not model tasks that leave the queue, and its ticks arrive at preempt_count 0; a tick inside a preempt-disabled window requests the reschedule only at the next check.
- RunFromBoot: its events are whole operations. For an interrupted fork `PublishResumed` and `ForkAtQueue` cover every store from total_forks on, `RunDuringEnqueue` and `RunDuringLink` a fork that never goes on, as init's does once another task was picked (`NeverBackToInit`). Stores before that are to a record nobody sees, but for the parent's slice (`TickInsideForkIff`).
- TakePage: compares the child's page with those of forked tasks; init's record is not in a page of its own, and `PageTakenIff` says when a fork is given the page it lies in.
- Context.Cpu.Interrupted: that the handler gives back the frame it was handed is a premise, since a handler may be any code; Preempt.dfy shows what may run inside it.
- Context.StepKeeps: that a computing task keeps its stack pointer on its own page, as a stack of one page demands, is part of what a computing step is.
- Context.TraceKeeps: the same.
- The EL0 return path, system calls and user threads: Preempt.dfy and Context.dfy treat kernel threads.
- SIMD registers and the debug messages of `schedule_debug`: the latter's condition is proved never to hold.
- Int overflow of width and precision in `number`: they are unbounded integers here.
- `myprintf`, the log buffer, UART, timer, interrupt controller, traps and start-up code: device I/O, varargs or table lookups.
