# tvisor: verified core

tvisor is a small AArch64 hypervisor. This project models the parts of it whose correctness is a
whole-run property and proves those properties for every input, every interleaving and every run.

- **EL2 stage-1 tables** (`Bits`, `Descriptor`, `PageTree`, `Stage1*`, `TableSet`). The builder, the
  walker and the one-page replacement, at the level of 64-bit descriptor words in an arena of
  512-entry pages. `Stage1` gives each operation as a function on table sets and `TableSet` runs the
  same operations in place on an array. `PageTree` is the three-level tree behind the words;
  `Stage1Refinement` shows that a walk of the words is a lookup in that tree, and the theorems about
  `map` and `replace_data_page` are about what the walker answers, for every address. Words are
  natural numbers and the bit operators are recursive functions on them, so that descriptor
  encoding, decoding and address arithmetic are one theory.
- **Mapping-update protocol** (`TlbUpdate`, `TlbSafety`, `TlbTheorems`, `TlbSolo`, `TlbProgress`). Gate, epoch,
  member mask, phase and per-CPU acknowledgements as a step system: one atomic access is one step,
  the steps of four CPUs interleave freely, and the scratch leaf with every CPU's cached copy of it
  is part of the state.
- **Management channel** (`Management`, `ManagementTheorems`, `ManagementProgress`). The one-slot request
  channel as a step system with any number of senders, one taker, and reply and request objects that may
  be dropped.
- **Physical memory** (`Regions`, `FixedList`, `MemoryMap`, `UsableRam`, `PageBitmap`,
  `PageAllocator`, `AllocatorSetup`, `IdentityMap`, `Stacks`). Region normalization, usable RAM, the
  bitmap allocator, identity mapping around exclusions, and stack allocation with rollback, as
  classes and loops that edit their storage in place.
- **Guest memory** (`Stage2Encoding`, `Stage2`, `VmMemory`, `VmCtl`). Stage-2 descriptors, tables kept
  in pages taken from the allocator, ownership, and teardown.
- **Secondary CPU startup** (`SecondaryBoot`, `SecondarySafety`, `SecondaryOutcome`,
  `SecondaryProgress`). The one-shot release procedure, the mailboxes and the boot gate as a step
  system in which every firmware operation may fail and entrants may arrive at any time.

Three places where an expected property has a limit are stated as results, each with an input that
fails and the exact condition.

- `map_identity_regions_excluding` ignores an exclusion whose end cannot be rounded up to a page.
  Exclusions that it keeps are always respected. After a success all are, exactly if every page of a
  region that meets only ignored exclusions was translated before; otherwise each such page is mapped
  to itself (`IdentityMaps.KeptAreSpared`, `IdentityMaps.SparedIff`, both part of the contract of
  `IdentityMaps.MapIdentityRegionsExcluding`). `IdentityMaps.IgnoredExclusion` maps an excluded page.
- `synced[id] <= quiet[id]` can fail because `check` reads the member mask and the epoch one after
  the other. `TlbProgress.OvertakesIff`: whenever no update is under way, a call of `synchronized` can
  break the order exactly if a member other than CPU 0 names an epoch still to come.
  `TlbTheorems.AcknowledgementOrder` proves the order for every run without such a call, and
  `TlbProgress.SyncedAheadOfQuiet` is a run in which it fails.
- `count_pages` subtracts a rounded-up start from a rounded-down end without a check.
  `AllocatorSetup.CountPages` has an outcome for that underflow and says exactly when it occurs.
  `AllocatorSetup.OrderedIff` puts it in terms of the region: it starts inside a page and ends in the
  same page. `AllocatorSetup.CountUnderflows` is such a region.

## Model

| member | source | states |
|---|---|---|
| `Descriptor.LeafRoundTrip` | tvisor_util/el2_stage1_translation.rs:494-519 | Every field of a leaf descriptor, at every level and for every attribute, reads back as it was written, at the bits and with the codes the architecture gives it; the address field returns the output address and no other bit is set. |
| `Descriptor.TableRoundTrip` | tvisor_util/el2_stage1_translation.rs:418-429 | A table descriptor is valid, is a table, and returns the address it was made from. |
| `Descriptor.LeafIsNotTable` | tvisor_util/el2_stage1_translation.rs:404-435 | No leaf descriptor at any level equals a table descriptor. |
| `Descriptor.AndOutputMask` | tvisor_util/el2_stage1_translation.rs:490-492 | The output mask keeps the bits from the leaf size up to bit 47. |
| `Stage1.IndexFor` | tvisor_util/el2_stage1_translation.rs:471-479 | Shift and mask compute the 9-bit table index of the address at that level. |
| `Stage1.AlignedFor` | tvisor_util/el2_stage1_translation.rs:467-469 | The bit test holds exactly when both addresses are multiples of the leaf size. |
| `Stage1.ValidatedMapping` | tvisor_util/el2_stage1_translation.rs:380-402 | Validation succeeds exactly for nonempty page-aligned requests inside both address spaces. |
| `Stage1Refinement.WalkIsLookup` | tvisor_util/el2_stage1_translation.rs:286-323 | On every valid table set the walker answers every address with the lookup in the page tree. |
| `Stage1Map.DescendCorrect` | tvisor_util/el2_stage1_translation.rs:404-435 | Descending creates missing tables without changing any translation, ends at the page the address reaches, and adds at most one page per missing level. |
| `Stage1Map.MapLeafCorrect` | tvisor_util/el2_stage1_translation.rs:404-435 | One leaf, successful or not, changes only its own block, never an existing translation, and keeps the tree; it succeeds only if it fits, conflicts only if it does not, and runs out only when the arena is full. |
| `Stage1Map.MapFromCorrect` | tvisor_util/el2_stage1_translation.rs:265-284 | The greedy loop has exactly the requested effect; on failure a part of it, with the reason. |
| `Stage1Theorems.MapTheorem` | tvisor_util/el2_stage1_translation.rs:265-323 | After `map`, whatever its outcome: no translation changed, every new one was asked for, and on success every address of the range walks to its requested address and attributes. |
| `Stage1Theorems.MapRejectsConflict` | tvisor_util/el2_stage1_translation.rs:404-435 | A request that covers an address already translated to something else fails. |
| `Stage1Theorems.RunTheorem` | tvisor_util/el2_stage1_translation.rs:206-284 | Over any run of requests, failed ones included, the tables stay valid, translations are never altered, and each one that appears was requested. |
| `Stage1Theorems.NewTheorem` | tvisor_util/el2_stage1_translation.rs:206-251 | A table set is made exactly of a nonempty, page-aligned arena that lies inside an address space of 32 to 48 bits; it is valid and translates nothing, whatever its arena held. |
| `Stage1Theorems.WalkTotal` | tvisor_util/el2_stage1_translation.rs:286-323 | On a valid table set the walker never reports corruption. |
| `Stage1Theorems.TablesFormTree` | tvisor_util/el2_stage1_translation.rs:437-464 | Every used page but the root is referenced by exactly one entry, and nothing references the root. |
| `Stage1Budget.BudgetTheorem` | tvisor_util/el2_stage1_translation.rs:265-284 | A request whose virtual and physical addresses agree below 1 GiB, such as an identity mapping, takes at most two level-2 and two level-3 pages, whatever its size and outcome. |
| `Stage1Blocks.LargestLeaves` | tvisor_util/el2_stage1_translation.rs:265-284 | After a success every address of the range is translated by the largest leaf possible: the one of the least level whose block around the address lies inside the range and is equally aligned in both address spaces. |
| `Stage1Blocks.MapOutcome` | tvisor_util/el2_stage1_translation.rs:265-284 | A valid request succeeds only if each of these leaves fits into the tables as they were, reports a conflict only if one does not, and exhaustion only with a full arena. |
| `Stage1Blocks.MapSucceedsIff` | tvisor_util/el2_stage1_translation.rs:265-284 | Every valid request succeeds exactly when each of its leaves fits into the tables as they were and the arena has at least as many free pages as there are distinct tables missing above these leaves; then it takes exactly that many. |
| `Stage1Blocks.FourPagesSuffice` | tvisor_util/el2_stage1_translation.rs:265-284 | If the addresses agree below 1 GiB, four free pages are always enough. |
| `Stage1Blocks.UnmappedFits` | tvisor_util/el2_stage1_translation.rs:404-435 | Every leaf fits if nothing in the range is translated and no table hangs where a block leaf would go. |
| `Stage1Blocks.FirstMapSucceeds` | tvisor_util/el2_stage1_translation.rs:206-284 | In a new table set of five pages every valid request whose addresses agree below 1 GiB succeeds. |
| `Stage1Replace.LocateCorrect` | tvisor_util/el2_stage1_translation.rs:337-372 | The checks before the first store succeed exactly when the address is mapped by the expected page leaf. |
| `Stage1Replace.ReplaceTheorem` | tvisor_util/el2_stage1_translation.rs:330-378 | The replacement changes nothing unless allowed; otherwise only that page changes, to unmapped if the first synchronization failed and, if not, to the new page as normal, writable, non-executable memory; no table is taken. |
| `Stage1Replace.MapThenReplace` | tvisor_util/el2_stage1_translation.rs:265-378 | A data page that `map` has put in place can be replaced by any other valid backing, and translates to it afterwards. |
| `Stage1Replace.BeforeFreeze` | tvisor_util/startup_resources.rs:20-90 | Until a freeze is accepted, over any run, exactly the edits take effect: scratch replacements and rejected freezes change nothing; an accepted freeze freezes. |
| `Stage1Replace.FreezeTheorem` | tvisor_util/startup_resources.rs:20-90 | After the freeze, over any run, every address outside the scratch page keeps its translation and no table page is taken. |
| `Stage1Replace.ScratchTheorem` | tvisor_util/startup_resources.rs:66-90 | After the freeze an allowed scratch replacement takes effect, and can be taken back. |
| `TableSets.TableSet.Create` | tvisor_util/el2_stage1_translation.rs:206-251 | In place: the constructor's checks in order, the cleared root, and an untouched arena on error. |
| `TableSets.TableSet.AllocatePage` | tvisor_util/el2_stage1_translation.rs:437-445 | In place: the next arena page is cleared and handed out, or the arena is exhausted. |
| `TableSets.TableSet.MapLeaf` | tvisor_util/el2_stage1_translation.rs:404-435 | In place: the loop over levels equals the specified leaf insertion, on every path. |
| `TableSets.TableSet.Map` | tvisor_util/el2_stage1_translation.rs:265-284 | In place: the chunk loop equals the specified mapping, on every path. |
| `TableSets.TableSet.Walk` | tvisor_util/el2_stage1_translation.rs:286-323 | The level loop equals the specified walk. |
| `TableSets.TableSet.ReplaceDataPage` | tvisor_util/el2_stage1_translation.rs:330-378 | In place: break, synchronize, make, synchronize equals the specified replacement. |
| `TlbSafety.StepInv` | tvisor_util/tlb_update.rs:65-216 | Every atomic step of every CPU keeps the protocol invariant. |
| `TlbSafety.Stable` | tvisor_util/tlb_update.rs:107-216 | What a CPU has learned in the middle of an operation survives every step of the others. |
| `TlbTheorems.EveryRun` | tvisor_util/tlb_update.rs:38-216 | Every state of every run satisfies the invariant the promises rest on. |
| `TlbTheorems.WriteAuthority` | tvisor_util/tlb_update.rs:159-171 | From the moment `may_write(e)` holds until the replacement is done, the epoch is `e`, every member is quiet at exactly `e`, the gate is 1 and nobody holds a membership change. |
| `TlbTheorems.UpdateIsExclusive` | tvisor_util/tlb_update.rs:65-106 | In Quiescing, Replacing or Synchronizing the gate is 1, no lifecycle change is held, and no step changes epoch or members. |
| `TlbTheorems.MembershipAssertion` | tvisor_util/tlb_update.rs:65-75 | The assertion in `finish_membership_change` never fires after a successful try. |
| `TlbTheorems.AcknowledgementOrder` | tvisor_util/tlb_update.rs:123-187 | `quiet`, `synced` and `requested` never exceed the epoch, `quiet` never exceeds `requested`, and `synced` never exceeds `quiet` unless a member other than CPU 0 named an epoch still to come. |
| `TlbTheorems.RetiredAt` | tvisor_util/tlb_update.rs:207-212 | `reusable(e)` implies that every member of epoch `e` has synchronized at it. |
| `TlbTheorems.CopiesAt` | tvisor_util/el2_stage1_translation.rs:373-377 | Once an epoch is retired, a cached copy of a backing that was replaced in it means that a later replacement put that backing back. |
| `TlbTheorems.ReuseTheorem` | tvisor_util/tlb_update.rs:181-212 | For the rest of any run after `reusable(e)` answered yes every member of `e` has synchronized at it, no CPU caches a backing replaced in `e` unless a later replacement put it back, and until a later epoch begins every cached copy is the current leaf. |
| `TlbTheorems.FailedForever` | tvisor_util/tlb_update.rs:213-216 | A failed protocol stays failed for the rest of any run. |
| `TlbSolo.WaitFree` | tvisor_util/tlb_update.rs:38-216 | However the other CPUs interleave, every call returns after at most 22 accesses of its own. |
| `TlbSolo.SoloTheorem` | tvisor_util/tlb_update.rs:38-216 | Left alone, every operation leaves exactly the words of its sequential specification, on success and on refusal; in particular `reusable(e)` answers yes if and only if `e` is the present epoch, is not 0, is complete and every member has synchronized at it, an allowed replacement is carried out, a membership change is taken if and only if the gate is open and nothing failed, and `fail` fails. |
| `TlbProgress.Do` | tvisor_util/tlb_update.rs:38-216 | From every state some run of that CPU alone does exactly this. |
| `TlbProgress.Progress` | tvisor_util/tlb_update.rs:76-206 | Left alone, an update with any member set completes, from every open state with idle members. |
| `TlbProgress.ReusableAfter` | tvisor_util/tlb_update.rs:188-212 | After such an update every idle CPU that asks is told yes by `reusable` of its epoch. |
| `TlbProgress.OvertakesIff` | tvisor_util/tlb_update.rs:107-187 | In every reachable state at rest without early calls so far: some continuation of a call of `synchronized(e)` that makes no early call gets `synced` ahead of `quiet`, exactly if the caller is a member, not CPU 0, and `e` is above the epoch and below 2^64. |
| `TlbProgress.SyncedAheadOfQuiet` | tvisor_util/tlb_update.rs:107-187 | Some run gets `synced` ahead of `quiet`. |
| `Management.StepInv` | tvisor_util/management.rs:56-157 | Every step of every sender, the taker, every reply and every request keeps the channel invariant. |
| `ManagementTheorems.EveryRun` | tvisor_util/management.rs:56-157 | In every run `retired <= acknowledged <= taken <= sequence <= retired + 1`; each request carries the operation and argument of its submission; each consumed reply is the one acknowledged for it; the operation code always decodes; and the writer lock is held exactly while a sender, and only one, is inside the locked section of `submit`. |
| `ManagementTheorems.ExactlyOnce` | tvisor_util/management.rs:83-108 | No run hands a submission out twice, and one that was handed out is never handed out again. |
| `ManagementTheorems.DroppedPendingBlocks` | tvisor_util/management.rs:54-77 | Without polling its reply, an outstanding submission blocks every later one, forever. |
| `ManagementTheorems.DroppedRequestBlocks` | tvisor_util/management.rs:148-157 | A request that is never acknowledged leaves its submission unanswered and the channel blocked, forever. |
| `ManagementProgress.SubmitAlone` | tvisor_util/management.rs:56-77 | Left alone, `submit` is refused without a trace exactly if the lock is taken, the slot is in use or the counter is at its end; otherwise the message is in the slot under the next sequence number and the lock is open again. |
| `ManagementProgress.TakeAlone` | tvisor_util/management.rs:83-108 | Left alone, `take` hands out the next submission with its message if there is one, and does nothing if not. |
| `ManagementProgress.AcknowledgeAlone` | tvisor_util/management.rs:148-157 | Left alone, `acknowledge` leaves both parts of the reply and the sequence number of its request. |
| `ManagementProgress.ResultAlone` | tvisor_util/management.rs:125-140 | Left alone, `try_result` does nothing before the acknowledgement and consumes the reply and frees the slot after it. |
| `ManagementProgress.Progress` | tvisor_util/management.rs:56-157 | From every channel that satisfies the invariant, with no sender or dispatcher inside an operation and nothing on its way, an undisturbed submission of any message, answered with any reply, is taken with that message, acknowledged and consumed with that reply, and leads back to such a channel. |
| `ManagementProgress.ManySucceed` | tvisor_util/management.rs:56-157 | So after every run that left nobody inside an operation and nothing on its way any sequence of submissions succeeds, up to the end of the counter. |
| `Regions.FromBounds` | tvisor_util/system_info.rs:123-132 | A region exists exactly for increasing bounds and contains exactly the addresses between them. |
| `Regions.OverlapIsShared` | tvisor_util/system_info.rs:155-157 | The overlap test holds exactly when the regions share an address. |
| `Regions.AlignUp` | tvisor_util/page.rs:17-25 | The least multiple of the page size at or above the value, unless that overflows. |
| `Regions.PageAddress` | tvisor_util/page.rs:31-33 | The greatest multiple of the page size at or below the value. |
| `Regions.NormalFormUnique` | tvisor_util/memory_map.rs:34-50 | Two normalized lists that cover the same addresses are equal. |
| `FixedLists.FixedList.Push` | tvisor_util/system_info.rs:228-236 | Appends, or leaves a full list as it was. |
| `FixedLists.FixedList.Insert` | tvisor_util/system_info.rs:238-252 | The shifting loop inserts at the index; a full list or bad index changes nothing. |
| `FixedLists.FixedList.Remove` | tvisor_util/system_info.rs:254-266 | The shifting loop takes out exactly the entry at the index. |
| `FixedLists.FixedList.Clear` | tvisor_util/system_info.rs:221-226 | Leaves the empty list. |
| `MemoryMaps.MergeRegions` | tvisor_util/memory_map.rs:114-126 | The merge of touching regions contains exactly the addresses of both. |
| `MemoryMaps.Absorb` | tvisor_util/memory_map.rs:142-153 | Folding successors into a grown entry restores the normal form and keeps the coverage. |
| `MemoryMaps.InsertSortedMerged` | tvisor_util/memory_map.rs:128-181 | On success the list is normalized and covers exactly the old addresses and the region; it fails exactly when full with nothing to merge with, and then changes nothing. |
| `MemoryMaps.OrderIndependence` | tvisor_util/memory_map.rs:128-181 | Any two successful insertion orders of the same regions leave the identical list. |
| `UsableRam.PiecesFromCorrect` | tvisor_util/memory_map.rs:183-219 | The pieces left by the cursor are normalized and cover exactly the RAM region minus the reservations. |
| `UsableRam.AllPiecesCorrect` | tvisor_util/memory_map.rs:80-98 | Over all RAM regions: exactly RAM minus reservations, normalized, in at most as many pieces as there are RAM regions and reservations together. |
| `UsableRam.SubtractAll` | tvisor_util/memory_map.rs:183-219 | Appends exactly those pieces, and fails exactly when they do not fit. |
| `UsableRam.MemoryMap.InsertRam` | tvisor_util/memory_map.rs:68-70 | Fails exactly when the RAM list is full and no entry touches the region, changing nothing; otherwise the list grows by exactly the region. |
| `UsableRam.MemoryMap.InsertReserved` | tvisor_util/memory_map.rs:72-74 | The same for reservations. |
| `UsableRam.MemoryMap.InsertMmio` | tvisor_util/memory_map.rs:76-78 | The same for device windows. |
| `UsableRam.MemoryMap.Finalize` | tvisor_util/memory_map.rs:80-98 | Fails exactly when RAM overlaps MMIO, changing nothing; otherwise usable RAM is exactly RAM minus reservations, normalized; never a capacity error. |
| `PageBitmaps.MaskIsShift` | tvisor_util/page_allocator.rs:363-374 | Bit `k` of a byte is the one that `1 << k` selects. |
| `PageBitmaps.BitWritten` | tvisor_util/page_allocator.rs:363-374 | Writing a bit of a byte sets that bit and no other. |
| `PageBitmaps.PageBitmap.SetBit` | tvisor_util/page_allocator.rs:116-127 | Adds or removes exactly one index, and keeps the cached count equal to the number of set bits. |
| `PageBitmaps.PageBitmap.Clear` | tvisor_util/page_allocator.rs:111-114 | Leaves the empty set with count zero. |
| `PageAllocators.PagesOfBytes` | tvisor_util/page_allocator.rs:248-267 | Rounding inward keeps exactly the pages all of whose bytes lie in the region. |
| `PageAllocators.PageAllocator.FindRun` | tvisor_util/page_allocator.rs:195-212 | The scan finds the lowest run of unused pages, or there is none. |
| `PageAllocators.PageAllocator.AllocateContiguous` | tvisor_util/page_allocator.rs:191-213 | Succeeds exactly when a run exists, returns the lowest, marks exactly its pages, and changes nothing on failure. |
| `PageAllocators.PageAllocator.AllocateHigh` | tvisor_util/page_allocator.rs:181-189 | Succeeds exactly when a page is unused, and takes the highest. |
| `PageAllocators.PageAllocator.AllocateIn` | tvisor_util/page_allocator.rs:215-233 | Succeeds exactly when the region wholly contains an unused page, and takes the lowest. |
| `PageAllocators.PageAllocator.FreePage` | tvisor_util/page_allocator.rs:235-245 | Frees exactly a page in use; every other case is its own error and changes nothing. |
| `PageAllocators.PageAllocator.FreeSpan` | tvisor_util/page_allocator.rs:235-245 | Freeing a run of pages in use one by one never fails and frees exactly them. |
| `PageAllocators.PageAllocator.Release` | tvisor_util/page_allocator.rs:248-267 | Exactly the whole pages of the region become unused, and the count is how many were in use. |
| `PageAllocators.PageAllocator.State` | tvisor_util/page_allocator.rs:269-281 | The state of the page by the two bitmaps, or why the address names none. |
| `PageAllocators.PageAllocator.GetStats` | tvisor_util/page_allocator.rs:283-290 | Reserved, in-use and unused pages add up to the RAM pages and are the sizes of the three sets; the subtraction underflows exactly when more pages are managed than there are RAM pages. |
| `AllocatorSetup.CountPages` | tvisor_util/page_allocator.rs:344-361 | The page total of the list; or, decided by the first region that stops the loop, exactly which error or that the subtraction underflows. |
| `AllocatorSetup.StopsOnce` | tvisor_util/page_allocator.rs:344-361 | At most one region stops the loop, in one way, and then the list is not counted to its end. |
| `AllocatorSetup.OrderedIff` | tvisor_util/page_allocator.rs:349-358 | The rounded bounds of a region are out of order exactly when its start can be rounded up, lies inside a page, and its end lies in the same page. |
| `AllocatorSetup.CountUnderflows` | tvisor_util/page_allocator.rs:356-358 | The region at 0x1100 of 0x100 bytes makes the subtraction underflow. |
| `AllocatorSetup.TotalIsSize` | tvisor_util/page_allocator.rs:344-361 | For a normalized list the total is the number of distinct whole pages. |
| `AllocatorSetup.MarkManaged` | tvisor_util/page_allocator.rs:292-309 | Adds exactly the whole pages of the region, and fails exactly outside the aperture. |
| `AllocatorSetup.Create` | tvisor_util/page_allocator.rs:131-155 | For all lists: managed pages are those of the allocatable list, in use are those not initially unused; it succeeds exactly under the listed conditions and underflows exactly when the count does. |
| `AllocatorSetup.UsablePages` | tvisor_util/memory_map.rs:80-98 | Pages of usable RAM are exactly those of which every byte is RAM and none is reserved; none touches a device window, and there are at most as many as RAM pages. |
| `AllocatorSetup.FromMemoryMap` | src/mm.rs:302-310 | From a finalized map: exactly when it succeeds or underflows; then the managed pages are exactly the wholly usable ones, all are free, none touches a reservation or MMIO, and the accounts balance. |
| `AllocatorSetup.RunOps` | tvisor_util/page_allocator.rs:176-290 | Over any run of allocations, frees and releases: each hands out managed pages that were not in use exactly if fitting ones exist, or gives back exactly those named, and the accounts balance after every operation. |
| `AllocatorSetup.HandedOnce` | tvisor_util/page_allocator.rs:176-267 | Between two operations of a run that hand out the same page, one gave it back. |
| `AllocatorSetup.TakeOver` | src/mm.rs:287-330 | Exactly when takeover succeeds or underflows; from then on, whatever is asked, no page that touches a reservation or MMIO is ever handed out and the accounts balance. |
| `IdentityMaps.MapMore` | src/mm.rs:660-679 | Mapping one more stretch keeps everything mapped before and adds only that stretch. |
| `IdentityMaps.NextExclusion` | src/mm.rs:715-725 | The relevant exclusion that starts first, or there is none. |
| `IdentityMaps.MapIdentity` | src/mm.rs:660-679 | Rejects unaligned or empty ranges, otherwise maps the range to itself. |
| `IdentityMaps.MapRegion` | src/mm.rs:708-738 | The cursor loop terminates and maps exactly the pages of the region that no exclusion touches. |
| `IdentityMaps.MapIdentityRegionsExcluding` | src/mm.rs:701-740 | On success exactly the pages inside a region and touched by no kept exclusion are identity-mapped and every other translation is as before; on failure a part of them; what this means for each exclusion; and a region without obstacles is one request. |
| `IdentityMaps.InsideIsWholePages` | src/mm.rs:709-711 | Rounding a region inward keeps exactly its whole pages. |
| `IdentityMaps.ExcludesIsMeets` | src/mm.rs:716-721 | A page is skipped exactly when it meets an exclusion that ends at least one page below 2^64. |
| `IdentityMaps.WantedPage` | src/mm.rs:701-740 | A page is to be mapped exactly when some region holds all of it and no kept exclusion meets it. |
| `IdentityMaps.KeptAreSpared` | src/mm.rs:715-721 | Whatever the outcome, an untranslated page that meets a kept exclusion stays untranslated. |
| `IdentityMaps.SparedIff` | src/mm.rs:701-740 | After a success every page that meets only ignored exclusions walks to itself, and all exclusions are respected exactly if those pages were translated before. |
| `IdentityMaps.IgnoredExclusion` | src/mm.rs:716-721 | An exclusion running into the last page is ignored: in every new table set with five pages the page it excludes ends up mapped to itself. |
| `Stacks.LayoutOf` | tvisor_util/pcpu.rs:182-198 | A layout exists exactly for an aligned base whose top does not overflow: one guard page, then the stack. |
| `Stacks.Rollback` | tvisor_util/pcpu.rs:275-281 | Undoing a partial allocation never fails and restores the pages in use. |
| `Stacks.LowestIsBest` | tvisor_util/page_allocator.rs:191-213 | Taking the lowest run never reduces how many further stacks fit: one more fits before exactly when it fits after. |
| `Stacks.SecondariesAre` | tvisor_util/pcpu.rs:248-283 | The CPUs that get a stack are exactly the enabled ones other than CPU 0. |
| `Stacks.AllocateSecondaryStacks` | tvisor_util/pcpu.rs:248-283 | Succeeds exactly when every enabled secondary has an id and that many disjoint stacks fit, in whatever way, into the free pages; says which error otherwise and then leaves the allocator as before; on success each has its own stack and guard on formerly free pages, pairwise disjoint, and exactly these became in use. |
| `Stage2Encoding.PageRoundTrip` | tvisor_util/guest_stage2_translation.rs:111-137 | Every field of a stage-2 page descriptor reads back as it was written, at the bits and with the codes the architecture gives it, and no other bit is set. |
| `Stage2Encoding.PageInjective` | tvisor_util/guest_stage2_translation.rs:111-137 | Equal descriptors have the same frame, type, access and execute permission. |
| `Stage2Encoding.TableEntryTests` | src/vmctl.rs:508-520 | A stage-2 table entry is valid, is a table, and returns its address. |
| `Stage2.LinkCorrect` | src/vmctl.rs:505-535 | Linking a fresh zeroed page changes no translation and lets the walk go one level deeper. |
| `Stage2.PutCorrect` | src/vmctl.rs:537-551 | Writing a page entry translates exactly that page and changes nothing else. |
| `VmControl.VmCtl.AllocTablePage` | src/vmctl.rs:697-716 | One more zeroed table page within the budget, without changing a translation, or nothing. |
| `VmControl.VmCtl.NextTable` | src/vmctl.rs:503-535 | The next table is followed or created without changing a translation; a block entry is a conflict. |
| `VmControl.VmCtl.MapL3Page` | src/vmctl.rs:487-551 | On success exactly the page maps to the descriptor; a valid entry never changes, it agrees or is a conflict; on failure no translation changes. |
| `VmControl.VmCtl.MapRange` | src/vmctl.rs:477-484 | The page loop has exactly the requested effect, on failure a part of it, and never changes a valid entry. |
| `VmControl.VmCtl.MapUsage` | src/vmctl.rs:445-485 | Maps exactly the memory allocated for the usage after the range checks; succeeds only if every page was free or mapped so already, conflicts only if not, and exhausts only when no table page is to be had; keeps isolation. |
| `VmControl.VmCtl.MapExternalDevice` | src/vmctl.rs:404-443 | Maps exactly the device range as Device-nGnRE, readable, writable and never executable after its checks, with the same exact outcomes; keeps isolation. |
| `VmControl.VmCtl.ValidateIpaRange` | src/vmctl.rs:580-602 | Accepts exactly the nonempty guest ranges with an aligned start that end at or below 2^39 and overlap no existing one. |
| `VmControl.VmCtl.Alloc` | src/vmctl.rs:604-695 | Succeeds exactly when the usage is new, the range acceptable, the budget kept and a run of pages free; then adds one fitting entry; on failure nothing changes. |
| `VmMemory.OwnedSize` | src/vmctl.rs:576-578 | The number of distinct pages a VM owns is the sum the source keeps: no page is held twice. |
| `VmMemory.OwnsSnoc` | src/vmctl.rs:604-695 | A new entry on free pages keeps ownership, separation and the budget, and the pages of others. |
| `VmMemory.OwnsGrown` | src/vmctl.rs:697-716 | So does a new table page. |
| `VmControl.VmCtl.ReleaseAll` | src/vmctl.rs:744-769 | Every page is freed exactly once without error, leaving exactly the pages of others in use. |
| `VmControl.RamIsOwned` | src/vmctl.rs:604-716 | A page of guest memory is owned by the VM and is none of its table pages. |
| `VmControl.RunOps` | src/vmctl.rs:404-716 | After any run of operations, successful or failing, every page that the stage-2 tables map as normal memory is owned by this VM and is none of its tables; everything mapped at all is guest memory or lies in a device window that was asked for; every window that was mapped is there; and the pages of others are untouched. |
| `VmControl.ConfinedIff` | src/vmctl.rs:404-443 | If all device windows were mapped, then nothing that is mapped lies in a given set of pages, guest memory aside, exactly when no device window does. |
| `VmControl.RunGuest` | src/guest.rs:418-438 | After any run of operations teardown leaves exactly the pages in use that were before, so the counts compared by the teardown assertion are equal. |
| `SecondarySafety.StepInv` | src/secondary.rs:420-680 | Every step of CPU 0 and of every entrant keeps the startup invariant. |
| `SecondarySafety.ReleaseDiscipline` | tvisor_util/startup_publication.rs:138-196 | In every run each store to a release cell comes right after a zero read, the Starting transition, a barrier, a second zero read and its attempted bit, after all publication; and no cell is stored twice. |
| `SecondarySafety.Authorization` | tvisor_util/secondary_boot.rs:93-193 | An authorized guest means that exactly the required set was attempted and that every member had its cell stored, was afterwards seen parked in this boot's generation and without failures, and still carries that generation. |
| `SecondarySafety.OneEntrant` | tvisor_util/secondary_mailbox.rs:161-172 | In every run at most one entrant holds the claim of a CPU, only after its Starting transition, and the CPU is parked, online or failed only if one had it. |
| `SecondarySafety.EntrantsBalance` | tvisor_util/secondary_mailbox.rs:161-172 | No entrant is lost: each that passed the check has still to try the claim or tried it, the first to try won it, and the winner holds it, parked or failed. |
| `SecondarySafety.CellHistory` | tvisor_util/startup_publication.rs:138-196 | In every run a cell changes only by its recorded store, from zero to the entry address. |
| `SecondarySafety.AuthorizedCells` | src/smp.rs:112-135 | At authorization every required CPU is listed, every listed cell was zero at the start, also of CPUs that are not started, and exactly the cells of the required CPUs hold the entry address. |
| `SecondarySafety.TerminalForever` | tvisor_util/secondary_boot.rs:65-92 | Once boot ended, no late arrival and no second attempt changes the outcome, the attempted set or any cell. |
| `SecondaryOutcome.Outcomes` | tvisor_util/secondary_boot.rs:65-92 | In every run that ended: PreparationFailed exactly if boot ended before any release; otherwise WaitFailed exactly if CPU 0 met with a fatal report, a timeout, a failed CPU or a bad checkpoint, cell or attempted set, ReleaseFailed exactly if an operation or check of a release failed, and Ready exactly if nothing went wrong. |
| `SecondaryOutcome.GivesUpIff` | src/secondary.rs:420-680 | CPU 0 gives up at a step exactly if it meets there with a fatal report, a wait that ran out, an operation that failed, a mailbox in another state than needed, a cell that does not hold zero before and the entry address after its release, or a wrong attempted set. |
| `SecondaryOutcome.FatalEndsBoot` | src/secondary.rs:634-665 | After CPU 0 has seen a fatal report no cell is stored and no CPU attempted for the rest of any run, and boot ends in WaitFailed. |
| `SecondaryProgress.SucceedsIff` | src/secondary.rs:420-665 | Some run authorizes the guest with a given required set and generation exactly if the set is nonempty and listed, the generation is not zero and every listed release cell, CPU 0 included where it is listed, reads zero at the start. |

## Left out

- Assembly, system registers, cache and TLB instructions, and weak memory: a synchronization is a broadcast flush, a firmware operation is a step that may fail, and atomic accesses are sequentially consistent.
- Device Tree parsing and building, the GIC and UART drivers, the heap wrapper, the MMIO ring, Linux image layout and platform tables: plumbing or straight-line code.
- `pending`, `all_quiet`, `all_synced` and `completed_count`: read-only observers that no other operation uses.
- Cache-line rounding and cleaning of published ranges: one publication step in the startup model.
- Validation of startup identities, resources and mapped stacks: one precondition that may fail in the startup model.
- Shared release cells: the source rejects a secondary that shares its cell, so each CPU has its own in the model.
- Poll counts and counter arithmetic of the startup wait: a poll may time out at any step.
- The live device-tree page check after the allocator is built: a read-only loop.
- Aligned region construction with other alignments than a page: no caller in the model.
- AllocatorSetup.CountPages: the underflow is an outcome of its own; whether the build then stops or wraps is not modelled.
- Stacks.AllocateSecondaryStacks: returns the stacks as a sequence, because the source's list has room for every CPU of a topology.
- Contents of guest RAM: only table pages have contents in the model.
