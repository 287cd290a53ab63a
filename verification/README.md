# Verification of the kernel's core

A Dafny model of the parts of this bare-metal AArch64 kernel whose correctness is not local, with proofs of
what they promise. `dafny verify dfyconfig.toml` checks the whole project.

| files | what they model |
|---|---|
| `Bits`, `Ram`, `Sequences`, `DoublyLinked` | powers of two and bit operations, physical memory as words, intrusive lists |
| `Regions`, `Gaps`, `MemoryMap`, `Pages` | what memory there is, the runs nobody reserved, the entry table packed into reserved pages |
| `Blocks`, `FreeLists`, `Frames`, `Counting` | the buddy allocator: block structure, lists threaded through free pages, split, merge and seeding |
| `Slabs`, `Cache` | slab pages with their in-page slot chains, and the per-class partial lists in the entry table |
| `Accounts`, `Heap` | the composition, and a ghost map of what clients hold |
| `Levels`, `Descriptors`, `Trees`, `RangeSteps`, `Leaves`, `Costs`, `Plans`, `Mmu`, `ZeroPage` | the translation-table builder over pages of that heap, when it succeeds and at what cost |
| `Hardware` | what the processor makes of those tables: the walk and the descriptor fields of section D8 of the Arm Architecture Reference Manual, by the bits of the words |
| `RingBuffers`, `Tasks`, `Scheduling`, `Input`, `Locks`, `Sleeping`, `Refinement` | tasks, the scheduler, the wait queue, serial input, all of them as one system of steps, and that the methods do what the steps say |
| `Switching`, `Stacks` | the context switch and the forged first frame, on the stacks tasks really have |
| `Blobs`, `DeviceTree`, `Dtb` | the flattened device tree walker, against an encoder written from section 5.4 of the Devicetree Specification v0.4 |
| `Monitor`, `Numerals`, `Writings`, `Meanings`, `Zhemon` | the monitor's line parser, the grammar it accepts, what lines can mean, and where their stores land |
| `Time` | the heartbeat's deadlines and sleeping |

**Memory is explicit.** `Ram.Memory` is one sequence of 64-bit words. Free-list links are words of free pages,
entries are words of the table's pages, slot chains are half-words of slab pages, descriptors are words of
pages handed out by the heap and saved registers are words of stacks handed out by the heap. So "links live
in free pages" and "no operation writes a live object" are statements about that sequence.

**The buddy allocator's ghost state** is an `Owner`: for every managed page, the block it belongs to. The
blocks always partition the managed pages; the free lists hold exactly the free blocks; the entry table is
trusted only about block heads and unmanaged pages. Everything the source reads from an entry is proved to be
one of those, so stale entries inside merged blocks, left behind by `free`, are never believed.

**Main results.** A run of `alloc_layout` and `free_layout` calls of any length refuses a request exactly when nothing
in the heap as it is then can serve it, and one that ends with nothing live restores exactly the free blocks of
initialisation (`Heap.Heap.Session`, `Heap.Heap.NothingLiveRestores`); live memory is aligned, disjoint, reads back
as its owner last wrote it and is never written by the allocator (`LiveIsIsolated`, `KeepsData` in every contract),
and neither is anything outside the heap's own pages and table; allocation fails exactly when no aligned run is free
(`Frames.Frames.Alloc`); `map_range` overrides translation pointwise with the coarsest leaves and at most two new
tables of each level below the root, and, where the heap has no page zero, succeeds exactly when nothing is in the
range's way and a page is free for each table it needs (`Mmu.Table.MapRange`); a plan is realised exactly and without
rewriting a leaf (`Mmu.Table.Apply`); the processor, walking the finished tables bit by bit, finds every part of the
kernel's image usable just as its contents ask and the stack's guard not mapped (`Mmu.Init`, `Hardware.WalksAgree`);
no wakeup and no byte is lost in any interleaving (`Sleeping.Safety`), a reschedule that was asked for comes before
any task's next step (`Sleeping.AskedIsPicked`) and a ready task is chosen within three timer interrupts
(`Sleeping.ReadyRunsSoon`), which the scheduler's methods refine (`Refinement`); registers survive any interleaving of
work, switches, births and reapings of tasks (`Switching.ContextPreserved`, `Switching.FirstResume`), on the stacks
that `init` and `spawn` make (`Stacks.InitInRun`, `Stacks.SpawnInRun`); walking an encoded device tree inverts the
encoding (`DeviceTree.WalkInverts`, `Dtb.FindCompatible`); the monitor accepts exactly the lines of a grammar, however
spaced and in whichever case, and reads back the commands written (`Writings.AcceptsWritings`,
`Writings.WrittenIsRead`); and a sleep is never short exactly under the condition of `Time.SleepExact`.

## Where the code and its promises differ

The model does what the code does. These are the places where a promise holds only under a condition, which is
proved to be exact, or where the documentation and the code disagree.

- A no-op token inside a node's property list hides the properties behind it: `Properties::next` stops there,
  although section 5.4 of the Devicetree Specification v0.4 has readers skip such tokens.
  `DeviceTree.GapHidesProperty` is an input; `DeviceTree.LookupExact` says when the answer is right all the same.
- `is_compatible("")` finds the empty name on every well-formed `compatible` list, because the list ends in a NUL
  (`Dtb.CompatibleIsMember`).
- `sleep` promises at least the duration. That is so for every duration exactly when the heartbeat rate divides
  the counter's frequency and, when it starts, no deadline is overdue by part of an interval, or when the rate is
  above the frequency and no sleep ends (`Time.SleepExact`). Otherwise some sleep ends early however punctual the
  handlers are: by any amount, as durations grow, if the rate does not divide (`Time.RateCutsShort`), and by less
  than an interval if it does (`Time.ShortByLessThanInterval`).
- `rearm` gets past the counter if and only if the rate is at most the counter's frequency
  (`Time.RearmReturns`): above it `init` computes an interval of zero, and only then (`Time.ZeroInterval`).
- Lock guards dropped with the outermost one first unmask interrupts while another lock is still held:
  `Locks.OuterFirst` is such a run. `Locks.DropOrderly` says exactly which drops do that, and `Locks.RunOrderly` which
  runs contain one.
- A descriptor survives the trip through memory exactly when its fields fit (`Descriptors.DescriptorRoundTrip`).
  An address that is not page-aligned or has bits above 47 loses them, and `AttrIndex::Other` of 0, 1 or more than
  7 comes back as something else; `Descriptors.LostInMemory` has an input of either kind. What the kernel's own
  templates ask for is not lost (`Hardware.TemplatesAllow`).
- An address that stands before a command starting with `.`, `:` or `R` reads as the address for that command, so
  an examine of one address there has no line of its own. A command list is what some line means exactly when it is
  well paired (`Meanings.Expressible`); no line means an examine and then a run (`Meanings.ExamineThenRun`).
- A colon before a command that is not a store is accepted and changes nothing: `: R` is a run. The grammar of
  `Writings` allows just that.
- Two regions count as overlapping not only when they share an address, but also when an empty one lies strictly
  inside the other (`Plans.ClashMeans`).
- A `reg` property read with no address cells and no size cells has an entry of nothing at every index, past its end
  and even when it is empty (`Dtb.NoCellsAnyEntry`). With any cells at all there is none past the end
  (`Dtb.RegRoundTrip`), and with more than two of either there is none anywhere (`Dtb.WideCellsNoEntry`).
- `Table::new` also refuses a page at address zero, and does not give it back: it fails exactly when the heap has no
  page or the next one is page zero (`Mmu.Table.New`), which without page zero is exactly when the heap has none.
  `ZeroPage.RefusesFreePage` makes a heap in which page zero is the one free page, and is refused.
- `Pages::new` fails when the first run that is long enough starts at page zero, even if a later one would do:
  `Pages.HomeRefused` is such a memory, and `Pages.HomeUnlessAtZero` says that this is the only case.

## Model

| member | source | states |
|---|---|---|
| Bits.XorIsBuddy | src/mm/pfn.rs:39-41 | for a 2^k-aligned page, the exclusive-or with 2^k is the other half of the enclosing pair: p + 2^k or p - 2^k, as p is or is not 2^(k+1)-aligned |
| Bits.TrailingZerosIsAlignment | src/mm/pfn.rs:30-32 | `trailing_zeros` is the largest order a page number is aligned to |
| Bits.BlocksNest | src/mm/frames/mod.rs:73-98 | two aligned power-of-two blocks that meet are nested |
| Bits.OrIsSum | src/arch/aarch64/mmu/mod.rs:259-267 | OR with an offset below an address's alignment is addition |
| Regions.ClipIsTouch | src/mm/region.rs:34-45 | on the arena's whole pages, rounding a region outward claims exactly the pages some byte of it touches |
| Gaps.ContainingFacts | src/mm/gaps.rs:47-55 | nothing is found only when no taken range covers the page; what is found is the end of one that does |
| Gaps.NextBaseFacts | src/mm/gaps.rs:57-65 | the nearest base above a page: no taken range starts in between, and one starts there |
| Gaps.Gaps.Next | src/mm/gaps.rs:15-36 | terminates; yields the next maximal run of open pages and skips none, or nothing when every open page has been produced |
| Gaps.AllRuns | src/mm/gaps.rs:10-37 | for any taken regions, sorted or not, overlapping, unaligned or outside: ascending, non-adjacent maximal runs whose union is exactly the arena's whole pages that no taken region touches |
| Gaps.RunIsListed | src/mm/gaps.rs:10-37 | every maximal run is among those yielded |
| Gaps.FirstFitFound | src/mm/pages.rs:101-102 | searching the runs in order finds the lowest one that is long enough, and it is unique |
| MemoryMap.MemoryMap.New | src/mm/map.rs:18-30 | fails exactly when no page boundary lies in the memory, ends included; otherwise the arena has the same whole pages as the memory reported |
| MemoryMap.MemoryMap.Reserve | src/mm/map.rs:36-43 | appends a region, and fails exactly when sixteen are reserved |
| MemoryMap.MemoryMap.Unreserved | src/mm/map.rs:49-51 | the exact runs nobody reserved |
| Pages.EntryRoundTrip | src/mm/pages.rs:166-205 | every entry whose fields fit their bits is read back as written |
| Pages.ZeroEntry | src/mm/pages.rs:111-113 | a zeroed table claims no page is free |
| Pages.RequiredIsLeast | src/mm/pages.rs:151-153 | the pages the table takes are the fewest that have a word for every entry |
| Pages.Pages.New | src/mm/pages.rs:93-122 | succeeds exactly when the arena is not empty, an index can name every page, the lowest run with eight bytes for every page is not at page zero and a reservation is left; the table is zeroed and starts that run, what is reserved is the least multiple of a page that holds it, in pages that were open, and nothing outside open pages is written |
| Pages.HomeUnlessAtZero | src/mm/pages.rs:93-122 | when some run other than at page zero is long enough, the table finds a home exactly when no run at page zero is |
| Pages.HomeRefused | src/mm/pages.rs:93-122 | a memory whose table would fit, but finds no home |
| Pages.Pages.Write | src/mm/pages.rs:147-149 | one word changes: the entry of that page |
| DoublyLinked.PushFamily | src/mm/frames/lists.rs:47-72 | rewriting links as a push does prepends the node to its list and leaves every other list alone |
| DoublyLinked.UnlinkFamily | src/mm/frames/lists.rs:82-108 | rewriting links as an unlink does removes just that node, from anywhere in its list, and keeps the order of the rest and every other list |
| FreeLists.LinkRoundTrip | src/mm/frames/lists.rs:112-133 | links of addressable pages survive encoding; the end mark collides with none |
| FreeLists.FreeLists.Push | src/mm/frames/lists.rs:47-72 | heads and in-page links represent the same duplicate-free sequences with the page prepended to one, the page count stays the weighted sum of lengths, and only listed pages are written |
| FreeLists.FreeLists.Pop | src/mm/frames/lists.rs:74-80 | removes and returns the head, or changes nothing on an empty list |
| FreeLists.FreeLists.Unlink | src/mm/frames/lists.rs:82-108 | removes any member in place, preserving order |
| FreeLists.FreeLists.CountBlocks | src/mm/frames/lists.rs:35-45 | following the links terminates and visits as many pages as the list has |
| FreeLists.PageCountUpdate | src/mm/frames/lists.rs:47-108 | changing one list changes the weighted page count by 2^k per member |
| Blocks.BuddyHeads | src/mm/frames/mod.rs:73-91 | the page the merge loop looks at heads a block no larger than the one being freed, or is unmanaged: it is never inside another block, so no stale entry is read |
| Frames.BuddyEntryIsTrue | src/mm/frames/mod.rs:76-92 | the buddy's entry, read whether or not it is out of date, says `free` at this order exactly when the buddy is on that order's list |
| Blocks.AlignedPageHeads | src/mm/frames/mod.rs:73-91 | a page aligned to at least its block's order heads that block |
| Blocks.FreeRunIsOneBlock | src/mm/frames/mod.rs:43-62 | in a fully merged partition an aligned run of 2^k free pages lies in one free block of order k or more |
| Blocks.FreeRunIffFreeBlock | src/mm/frames/mod.rs:43-62 | some free block is large enough exactly when some aligned run of 2^k pages is free |
| Blocks.FreeBlocksDetermined | src/mm/frames/mod.rs:64-115 | two fully merged partitions with the same free pages have the same free blocks |
| Blocks.SplitKeeps | src/mm/frames/mod.rs:48-51 | splitting keeps alignment, partition and full merging |
| Blocks.AbsorbKeeps | src/mm/frames/mod.rs:92-95 | absorbing a free buddy keeps alignment, partition and full merging |
| Frames.Frames.Alloc | src/mm/frames/mod.rs:43-62 | fails exactly when no aligned run of 2^order managed pages is free; otherwise exactly one such run, free before, is handed out, starting at the first page of the first list that is not empty, which is the lower end of a smallest free block that holds it; the rest of that block is free, every other block is as it was, and nothing is written but free pages, their entries and the block's own entry |
| Frames.Frames.Free | src/mm/frames/mod.rs:64-99 | exactly the block's pages become free, every handed-out block is as it was, no two buddies are free afterwards, and only free pages and their entries are written; no check it panics on fails |
| Frames.Frames.Seed | src/mm/frames/mod.rs:101-115 | the managed pages are exactly the open ones, all free, already fully merged across every run |
| Frames.Frames.SeedRun | src/mm/frames/mod.rs:103-113 | the greedy cut of one run covers it exactly and leaves no two buddies free |
| Frames.Frames.New | src/mm/frames/mod.rs:27-37 | the same of the allocator as built, with the table and all reserved memory untouched |
| Frames.LargestFit | src/mm/frames/mod.rs:106-109 | the order chosen is the largest that is aligned and fits |
| Frames.LowerBuddyIsNotFree | src/mm/frames/mod.rs:101-115 | had the lower buddy of a greedily cut block been free, the cut before it would have taken both |
| Frames.EmptyMeansNone | src/mm/frames/mod.rs:44-46 | empty lists from an order up mean no aligned run of that order is free |
| Counting.PageCountIsFreePages | src/mm/frames/lists.rs:25-27 | the count kept beside the lists is the number of free pages |
| Slabs.ClassOfFacts | src/mm/slab/mod.rs:30-43 | the smallest class that holds the size and keeps the alignment; none exactly when either exceeds 2048 |
| Slabs.SlotPlace | src/mm/slab/mod.rs:112-121 | a slot is a word-aligned piece of its own page |
| Slabs.SlotsFill | src/mm/slab/mod.rs:83-98 | the slots of a slab fill its page |
| Slabs.SlotsApart | src/mm/slab/mod.rs:83-98 | different slots do not overlap |
| Slabs.SlotOfAddr | src/mm/slab/mod.rs:153-165 | the index `free` computes from an address is the slot's, and its alignment check passes |
| Slabs.SlabPage.LinkSlots | src/mm/slab/mod.rs:83-98 | chains every slot of the page once, in order, and writes nothing else |
| Slabs.SlabPage.Init | src/mm/slab/mod.rs:62-81 | the page becomes a slab with every slot free and no links; an unknown class changes nothing |
| Slabs.SlabPage.Alloc | src/mm/slab/mod.rs:100-135 | of a slab with a free slot, hands out the head of the chain and leaves a chain of the rest; nothing, and nothing is written, when every slot is in use or the page is not a slab |
| Slabs.SlabPage.Free | src/mm/slab/mod.rs:137-186 | a slot of the page that is not on the chain goes to its head; none of the checks fails, and only its own word and the page's entry are written |
| Slabs.SlabPage.SetNext | src/mm/slab/mod.rs:220-244 | only this page's next link changes; a page that is not a slab is left alone |
| Slabs.SlabPage.SetPrev | src/mm/slab/mod.rs:246-270 | only this page's previous link changes; a page that is not a slab is left alone |
| Slabs.SlabPage.LinksOf | src/mm/slab/mod.rs:200-218 | the neighbours on the partial list, as the packed entry holds them, where they are slabs; none for a page that is not |
| Slabs.SlabPage.IsFull | src/mm/slab/mod.rs:272-278 | true exactly for a slab with no slot free |
| Slabs.SlabPage.IsEmpty | src/mm/slab/mod.rs:280-286 | true exactly for a slab with no slot in use |
| Cache.Cache.Push | src/mm/slab/cache.rs:61-72 | prepends a slab page to its class's list in the entry table; every slab stays in order and no word outside the table changes |
| Cache.Cache.Unlink | src/mm/slab/cache.rs:74-94 | takes a slab page off its list from anywhere, keeping the order of the rest |
| Cache.Cache.Alloc | src/mm/slab/cache.rs:18-41 | fails exactly when the class's list is empty and no page is free; otherwise one free slot is handed out, each list still holds exactly the slabs of its class with a free slot, every slab has a slot in use, and nothing but free or newly taken pages is written outside the table |
| Cache.Cache.Free | src/mm/slab/cache.rs:43-59 | the slot joins its page's chain, or the page, if it was the last in use, goes back to the buddy allocator; the slab invariants hold again and only the slot's first word is written of memory still in use |
| Cache.SlabEditsKeepFrames | src/mm/slab/cache.rs:18-59 | nothing the slabs write is visible to the buddy allocator |
| Cache.QuietKeepsWorld | src/mm/slab/cache.rs:27-30 | nothing the buddy allocator writes is visible to the slabs |
| Accounts.OrderIsLeast | src/mm/heap.rs:50-61 | the order chosen is the least whose block holds the size and keeps the alignment |
| Accounts.LiveApart | src/mm/heap.rs:50-61 | two live allocations share no word |
| Accounts.SlabAllocAccounted | src/mm/heap.rs:50-61 | after a slot is handed out the live map still names exactly the slots in use and the blocks handed out |
| Heap.Heap.Init | src/mm/heap.rs:33-48 | succeeds exactly when the table finds a home or the heap already has its memory; a second call changes nothing; afterwards the table starts the lowest run long enough and has the fewest pages that hold it, and exactly the pages left open are managed and all are free; no word outside pages open beforehand is written |
| Heap.Heap.AllocLayout | src/mm/heap.rs:50-61 | fails exactly when no slab of the class has a free slot and no page is free, or no aligned run is large enough, and then changes nothing; otherwise a fresh address with the layout's alignment becomes live, no word of any live allocation differs nor any outside the managed pages and the table, a free slot is used before a page is taken, and a block is the first that fits of a smallest size |
| Heap.Heap.FreeLayout | src/mm/heap.rs:63-75 | any live allocation may be returned: the check of layout against entry holds whatever stale entries there are, only that allocation stops being live, and no word of another differs, nor any outside the managed pages and the table |
| Heap.Heap.Store | src/mm/heap.rs:124-135 | a client may write any word of what it holds without breaking the allocator |
| Heap.Heap.LiveIsIsolated | src/mm/heap.rs:50-75 | every word of a live allocation is in a page the heap was given, outside the table, in no other allocation; the address is aligned and the words hold the size |
| Heap.Heap.NothingLiveRestores | src/mm/heap.rs:33-85 | with nothing live every class list is empty, there are no slabs, the free blocks are those of initialisation and every managed page is counted free |
| Heap.Heap.Serve | src/mm/heap.rs:50-75 | the same of one request, return or write |
| Heap.Heap.Session | src/mm/heap.rs:33-85 | for any script of requests, returns and writes: a request is refused exactly when the heap as it is then cannot serve it, and then nothing changes; no return is refused; at every point what the client holds is exactly what is live; every word of it reads as it was last written; nothing outside the heap changes; and ending with nothing held restores the heap |
| Levels.SizeIsShift | src/arch/aarch64/mmu/level.rs:21-38 | slot sizes are the shifted ones, and a table spans one slot of the level above |
| Levels.SlotsTile | src/arch/aarch64/mmu/level.rs:26-42 | a table's slots tile its span: each address is in exactly the slot `slot_of` names |
| Descriptors.DescriptorRoundTrip | src/arch/aarch64/mmu/descriptor.rs:111-139 | a descriptor is read back as written exactly when its fields fit |
| Descriptors.LostInMemory | src/arch/aarch64/mmu/descriptor.rs:111-139 | an unaligned address and a reserved attribute index that come back as something else |
| Descriptors.ReadFits | src/arch/aarch64/mmu/descriptor.rs:111-125 | every word reads as a descriptor that fits |
| Hardware.WrittenBits | src/arch/aarch64/mmu/descriptor.rs:127-139 | the word of any descriptor has each field where section D8.3 puts it: kind in bits 1:0, attribute index 4:2, NS 5, user access 6, read-only 7, shareability 9:8, AF 10, nG 11, address 47:12, contiguous 52, PXN 53, UXN 54, and zeroes elsewhere |
| Hardware.ReadBits | src/arch/aarch64/mmu/descriptor.rs:111-125 | what is read from any word are the fields at those places |
| Hardware.WalksAgree | src/arch/aarch64/mmu/mod.rs:256-271 | in a tree, the processor's walk, by bits 38:30, 29:21 and 20:12 of the address and the bits of each word, ends where the kernel's does, at a leaf of the same level, fields and output address, or finds nothing where it finds nothing |
| Hardware.OutputIsSame | src/arch/aarch64/mmu/mod.rs:259-267 | OR with the offset outputs the address that the leaf's own address bits and the rest of the virtual address make |
| Hardware.TemplatesAllow | src/arch/aarch64/mmu/descriptor.rs:38-109 | by its bits, each of the kernel's templates allows exactly its use: code is run and not written, read-only data is neither, data is written and not run, devices are of the device type, and user mode reaches nothing |
| Trees.NoSharing | src/arch/aarch64/mmu/mod.rs:175-200 | no table is reached through two slots |
| Trees.WalkFrame | src/arch/aarch64/mmu/mod.rs:256-271 | a walk depends only on slots that contain the address |
| Trees.LeafTranslates | src/arch/aarch64/mmu/mod.rs:223-231 | one leaf translates its slot to itself and changes no other address, in a tree that stays a tree |
| Trees.ChildTranslates | src/arch/aarch64/mmu/mod.rs:182-195 | linking an empty table where a slot was empty changes no translation |
| RangeSteps.FullStep | src/arch/aarch64/mmu/mod.rs:216-231 | the loop's invariant survives a slot the range fills |
| RangeSteps.CallStep | src/arch/aarch64/mmu/mod.rs:232-249 | and a slot handed to the level below |
| RangeSteps.CallStop | src/arch/aarch64/mmu/mod.rs:238-246 | an error below leaves every address either as before or fully mapped |
| RangeSteps.CoarsestInChunk | src/arch/aarch64/mmu/mod.rs:212-249 | cutting a range at slot edges does not change which level is coarsest for an address |
| RangeSteps.ClearBlameless | src/arch/aarch64/mmu/mod.rs:203-253 | on a page-aligned range with nothing mapped and no table of its own, the only error is running out of memory |
| RangeSteps.BlamedIsUnmappable | src/arch/aarch64/mmu/mod.rs:203-253 | an error that blames the range names an end off a page, a table for addresses of the range alone, or a leaf too coarse for it |
| Leaves.WalkThrough | src/arch/aarch64/mmu/mod.rs:256-271 | every table is on the way of every walk to its addresses |
| Leaves.ClearKeepsLeaves | src/arch/aarch64/mmu/mod.rs:216-231 | writing only slots that meet a range in which nothing is mapped rewrites no leaf |
| Costs.MappedIsMappable | src/arch/aarch64/mmu/mod.rs:203-253 | what has been mapped had none of these in its way, although leaves may be overwritten by leaves |
| Costs.StillCoarse | src/arch/aarch64/mmu/mod.rs:175-200 | no block gives way to a table: what one maps stays mapped at that level or a coarser one |
| Costs.MappedCost | src/arch/aarch64/mmu/mod.rs:203-253 | it took exactly one table for each place across an end of the range, at each finer level, that had none |
| Costs.LackingIsFewer | src/arch/aarch64/mmu/mod.rs:175-200 | and while one of those is missing fewer have been made |
| Costs.EmptySlotLacks | src/arch/aarch64/mmu/mod.rs:182-195 | an empty slot that the range covers in part is missing one |
| Mmu.Table.New | src/arch/aarch64/mmu/mod.rs:75-86 | fails exactly when the heap has no page or the next one is at address zero, which this call then hands out and nobody holds; where page zero is not managed, exactly when the heap cannot serve a page; otherwise that next page, zeroed, which was nobody's |
| ZeroPage.OnlyPageZero | src/mm/heap.rs:33-48 | a memory, and reservations in it, that leave a heap just page zero, free |
| ZeroPage.RefusesFreePage | src/arch/aarch64/mmu/mod.rs:75-86 | there a table is refused, and the page stays allocated with nobody holding it |
| Mmu.Table.ChildTable | src/arch/aarch64/mmu/mod.rs:175-200 | finds the table below the slot or makes one, linked in a tree that stays a tree; fails on a block, or, exactly when the slot is empty and a new table is refused, for memory, in either case without changing any table |
| Mmu.NoneLeft | src/arch/aarch64/mmu/mod.rs:75-86 | running out of memory, where page zero is not managed, means that the heap has no page to give |
| Mmu.Table.MapRange | src/arch/aarch64/mmu/mod.rs:203-253 | terminates; where page zero is not managed, succeeds exactly when nothing is in the way of the range and a page is free for each table it needs that is not there (else, short of memory, exactly when nothing is in the way); on success the region translates to itself with the template's attributes, in the leaf words the processor finds as in the kernel's own reading of them, each address at the coarsest level whose slot the region covers, and everything else as before; on any error every address translates as before or as asked, outside the region as before; an error names something that was in the way beforehand, and running out of memory leaves a needed table missing |
| Mmu.Table.IdentityMap | src/arch/aarch64/mmu/mod.rs:94-101 | the same from the root, success condition included, at a cost, whatever the size, of at most two tables of level 2 and two of level 3 |
| Mmu.TwoPerLevel | src/arch/aarch64/mmu/mod.rs:203-253 | a new table lies across one of the range's two ends, and a tree has only one table of a level across an address |
| Mmu.Table.TranslateAt | src/arch/aarch64/mmu/mod.rs:256-271 | agrees with the walk that all of these results are stated with |
| Mmu.Table.Apply | src/arch/aarch64/mmu/mod.rs:115-149 | on success every templated address translates to itself as its template says, every other whole arena page as the fill says, and nothing else changes; two clashing lines are found before anything is written, exactly when there are such lines; if nothing was mapped there before and regions are made of pages, the only mapping error is running out of memory and no leaf that was there is rewritten |
| Mmu.Table.DoJob | src/arch/aarch64/mmu/mod.rs:130-146 | each range mapped on the way through a plan overwrites no leaf present when it starts, those of earlier ranges included |
| Mmu.FirstClash | src/arch/aarch64/mmu/mod.rs:122-128 | finds the first clashing pair in the source's order, and none exactly when no two lines clash |
| Plans.ClashMeans | src/arch/aarch64/mmu/mod.rs:122-128 | two regions clash exactly when they share an address or an empty one lies strictly inside the other |
| Mmu.Init | src/arch/aarch64/mmu/mod.rs:274-327 | on success, by the bits of the words the processor's walk finds: text is run and not written, read-only data and the device tree are neither, data and stack are written and not run, the rest of memory is both, pages below memory are devices, all of it at its own address and none of it for user mode, and nothing else is translated, the stack's guard in memory included; no table exactly when a new one is refused, otherwise an overlap exactly when two of the six parts clash, and with parts made of pages only memory can run out |
| RingBuffers.RingBuffer.Push | src/lib/ring_buffer.rs:22-30 | appends to the queue, or drops the value when 256 are queued |
| RingBuffers.RingBuffer.Pop | src/lib/ring_buffer.rs:32-40 | removes the oldest value, or finds the queue empty |
| Tasks.NewTask | src/kernel/task.rs:65-75 | fails exactly when the heap cannot serve the stack; otherwise a stack of its own, disjoint from all live memory, with at its top a frame that holds the trampoline and the entry point; no live word differs, nor any outside the heap |
| Scheduling.Scheduler.Prune | src/kernel/sched/mod.rs:39-48 | every slot of a dead task that is not running is emptied and every other slot is as it was; exactly the stacks of the dead go back to the heap |
| Scheduling.Scheduler.NextIdx | src/kernel/sched/mod.rs:50-62 | of the ready slots that are not idle the one least far ahead of the running one, cyclically, the running one being furthest; none exactly when there is none |
| Scheduling.NextIsNearest | src/kernel/sched/mod.rs:50-62 | the first found on the way round is the one least far ahead |
| Scheduling.Scheduler.FreeId | src/kernel/sched/mod.rs:64-66 | the lowest empty slot, if any |
| Scheduling.Scheduler.Spawn | src/kernel/sched/mod.rs:74-86 | one new ready task in the lowest empty slot with that slot's number as id and a forged frame on a stack of its own; runs out of ids exactly when the table is full, and of memory exactly when it is not and the heap cannot serve the stack; stacks stay disjoint |
| Scheduling.Scheduler.Init | src/kernel/sched/mod.rs:88-93 | fails exactly when the heap cannot serve the idle task's stack; otherwise the boot task runs, idle is ready on a stack nobody held, with the idle entry and the trampoline in the frame at its top, every other slot is empty, and only that stack has become live |
| Scheduling.Scheduler.Tick | src/kernel/sched/mod.rs:99-105 | asks for a reschedule and charges the running task one tick |
| Scheduling.Scheduler.Pick | src/kernel/sched/mod.rs:131-149 | dead tasks other than the running one are gone, every other slot is as it was, and the ready task least far ahead is current, or idle when none is ready; `current` stays an occupied slot, slot i holds id i, idle stays ready, and no live word differs |
| Scheduling.Scheduler.Preempt | src/kernel/sched/mod.rs:115-123 | takes the flag; schedules if it was set, and otherwise changes nothing else |
| Scheduling.Scheduler.MarkDead | src/kernel/sched/mod.rs:157-161 | the running task, and no other, becomes dead |
| Scheduling.TurnComesNearer | src/kernel/sched/mod.rs:50-62 | each choice is a waiting ready task or brings its turn strictly nearer |
| Scheduling.WaitQueue.Prepare | src/kernel/sched/wait.rs:17-27 | the running task is on the queue and blocked |
| Scheduling.WaitQueue.Finish | src/kernel/sched/wait.rs:29-39 | it is off the queue and ready |
| Scheduling.WaitQueue.WakeAll | src/kernel/sched/wait.rs:41-59 | every waiter is ready, the queue is empty, and a reschedule is asked for if there was one |
| Input.Input.TryGetc | src/tty/input.rs:25-43 | one pass: the oldest byte, with the caller ready and off the queue; or none, with the caller blocked and on it |
| Input.Input.PushCharacter | src/tty/input.rs:45-48 | the byte is queued unless 256 are, and every waiter is ready |
| Sleeping.StepKeepsInv | src/kernel/sched/mod.rs:115-168 | every step of tasks, interrupts and scheduler keeps the invariant: table, positions, mask, queue bits, bytes and wakeups |
| Sleeping.Safety | src/tty/input.rs:25-48 | in every run from `sched::init` no `unwrap` fails and `task_exit` never returns; slot i holds id i, `current` is occupied and idle is ready; bytes stored are delivered once each in order; a queue bit is set exactly when that task is blocked; with a byte buffered and no push under way no task off the processor is blocked |
| Sleeping.ReapSpares | src/kernel/sched/mod.rs:39-48 | reaping empties only slots of dead tasks and never the one whose stack the processor is on |
| Sleeping.Fair | src/kernel/sched/mod.rs:131-154 | a ready non-idle task stays ready and is chosen by one of the next three (`TASKS_COUNT - 1`) calls of `schedule` |
| Sleeping.AskedIsPicked | src/kernel/irq.rs:62-81 | once the timer or a wakeup has asked for a reschedule, nothing but the rest of that interrupt happens before `schedule` is called: no step of any task's own code, no other interrupt |
| Sleeping.TickIsPicked | src/kernel/irq.rs:62-81 | a timer interrupt sets the flag, charges the task, leaves and calls `schedule`, in this order |
| Sleeping.UnaskedReturns | src/kernel/sched/mod.rs:115-123 | an interrupt after which nobody asked returns to the code it came upon, unmasked |
| Sleeping.TicksArePicked | src/kernel/sched/mod.rs:99-123 | in any run every timer interrupt has its own call of `schedule`, but perhaps the one being handled |
| Sleeping.ReadyRunsSoon | src/kernel/sched/mod.rs:99-154 | so a ready task other than idle is chosen before three (`TASKS_COUNT - 1`) timer interrupts have been handled |
| Sleeping.SleeperIsReady | src/tty/input.rs:25-43 | a task asleep in `getc` while a byte is buffered and no push is under way is ready |
| Sleeping.Progress | src/kernel/sched/mod.rs:115-168 | no reachable state is stuck |
| Refinement.PrepareRefines | src/kernel/sched/wait.rs:17-27 | what `prepare` does to table and queue is the step of that name |
| Refinement.CheckRefines | src/tty/input.rs:25-43 | a check takes the oldest byte or finds none |
| Refinement.FinishRefines | src/kernel/sched/wait.rs:29-39 | what `finish` does is the step of that name |
| Refinement.StoreRefines | src/lib/ring_buffer.rs:22-30 | a stored byte goes last, or is dropped when 256 are queued |
| Refinement.WakeAllRefines | src/kernel/sched/wait.rs:41-59 | every waiter ready, the queue empty, the flag set if there was one: the step of that name |
| Refinement.TickRefines | src/kernel/sched/mod.rs:99-105 | the flag and the charge are two steps, one after the other |
| Refinement.PreemptRefines | src/kernel/sched/mod.rs:115-123 | the flag is cleared, and `schedule` entered exactly if it was set |
| Refinement.PickRefines | src/kernel/sched/mod.rs:131-149 | the step removes the same dead tasks and makes the same task current as the method |
| Refinement.DieRefines | src/kernel/sched/mod.rs:157-161 | the running task is dead and nothing else differs |
| Refinement.SpawnRefines | src/kernel/sched/mod.rs:74-86 | the step puts the new task in the first empty slot, as the method does |
| Locks.SpinLock.Lock | src/lib/lock.rs:48-72 | takes a free lock with interrupts masked and remembers the mask; gives up exactly when it is taken |
| Locks.SpinLock.TryLock | src/lib/lock.rs:33-46 | takes a free lock, or leaves lock and mask as they were |
| Locks.SpinLock.Release | src/lib/lock.rs:75-81 | frees the lock and restores the remembered mask |
| Locks.DropOrderly | src/lib/lock.rs:75-81 | interrupts stay masked while locks are held exactly unless a guard that found them unmasked is dropped before others |
| Locks.OuterFirst | src/lib/lock.rs:75-81 | a run that leaves interrupts on with a lock held |
| Locks.RunOrderly | src/lib/lock.rs:33-81 | over any run of takes and drops interrupts are masked whenever a lock is held exactly if each guard dropped was not the outermost of several, or had found them masked |
| Locks.RunCalls | src/lib/lock.rs:33-81 | over any run of `lock`, `try_lock` and drops of several locks: it stops exactly at the first `lock` of a lock that is held; until then the guards held and the mask are what the calls say, exactly the locks with a guard are taken, each by one, and no lock is held with interrupts on if every drop was safe |
| Locks.ServedIsAfter | src/lib/lock.rs:33-81 | the mask and the guards of any calls are those of the guards they take and drop |
| Locks.NestedRestores | src/lib/lock.rs:48-81 | any number of guards dropped newest first restore the mask |
| Switching.Core.Switch | src/arch/aarch64/switch.s:22-58 | the caller's registers are in a frame on its stack at the recorded pointer, and registers, stack pointer and return address come from the other's frame: the machine makes the switch of all the runs below |
| Switching.SwitchPaysOwed | src/arch/aarch64/switch.s:22-58 | a switch gives the task it enters what it is owed, and leaves every other task, the one it left included, with what it is owed saved in its own stack |
| Switching.RunKeepsSound | src/arch/aarch64/switch.s:22-58 | over any run of work, switches, births and reapings every task that is not running has what it is owed saved in its own stack |
| Switching.ContextPreserved | src/arch/aarch64/switch.s:22-58 | in any run, where the running task may write any memory but other tasks' stacks, a task that switches away and is next switched to finds the x19-x30, d8-d15 and sp it left with |
| Switching.SoundCanSwitch | src/arch/aarch64/switch.s:22-58 | in a sound machine, with room for a frame, a switch to any other task may be made |
| Switching.FirstResume | src/arch/aarch64/context.rs:50-64 | a task born at any time enters the trampoline with its entry point in x19 and an empty stack, however late it is first switched to |
| Switching.BornParked | src/arch/aarch64/context.rs:50-64 | a new task's forged frame, on a stack wherever there is room, is what that first resume needs |
| Stacks.StacksLaid | src/kernel/task.rs:65-75 | the stacks of the scheduler's tasks are pieces of memory that do not overlap, the boot stack included |
| Stacks.SpawnIsBirth | src/kernel/sched/mod.rs:74-86 | what `spawn` does to memory is a birth in the runs of the switch, and leaves the table's stacks as that run has them |
| Stacks.SpawnInRun | src/kernel/sched/mod.rs:74-86 | so a call of `spawn` in the middle of a run is a step of it |
| Stacks.InitInRun | src/kernel/sched/mod.rs:88-93 | and the call of `init` is the first birth of a run, of the idle task, whose first resume is then the trampoline with the idle entry |
| Blobs.U32RoundTrip | src/platform/dtb/cursor.rs:14-18 | a big-endian cell is read back as encoded |
| Blobs.BytesOfU32 | src/platform/dtb/cursor.rs:14-18 | the first byte of a cell is its most significant |
| Blobs.Cursor.CString | src/platform/dtb/cursor.rs:26-31 | the bytes up to the first NUL, which is passed over; nothing, unmoved, when there is none |
| Blobs.Cursor.ReadU32 | src/platform/dtb/cursor.rs:14-18 | the next cell, or nothing, unmoved, when four bytes are not left |
| DeviceTree.TokenBytes | src/platform/dtb/structure.rs:37-81 | the tokens are encoded as section 5.4.1 of the Devicetree Specification v0.4 has them, byte by byte |
| DeviceTree.WalkTree | src/platform/dtb/structure.rs:37-81 | walking a tree's tokens meets its nodes and comes out where it went in, at the same depth |
| DeviceTree.WalkInverts | src/platform/dtb/structure.rs:37-98 | for every tree, the walk of its encoding visits the nodes in preorder at their depths, and every lookup there answers from the node's own list |
| DeviceTree.LookupExact | src/platform/dtb/structure.rs:95-98 | a lookup is right exactly when no property of that name is first met behind a no-op |
| DeviceTree.GapHidesProperty | src/platform/dtb/structure.rs:160-181 | a list in which it is |
| DeviceTree.LookupFinds | src/platform/dtb/structure.rs:95-98 | a property before any no-op and any other of its name is found, with its value |
| Dtb.Nodes.Next | src/platform/dtb/structure.rs:37-81 | terminates on every blob; on encoded tokens, the next node at its depth |
| Dtb.Properties.Next | src/platform/dtb/structure.rs:160-181 | the next property with its name from the strings block, or nothing at anything else |
| Dtb.FindProperty | src/platform/dtb/structure.rs:95-98 | the first property of that name, before any no-op |
| Dtb.FindCompatible | src/platform/dtb/mod.rs:49-69 | on the block of any tree, the first child of the root in preorder that names itself compatible, with a handle that looks up its own properties; none exactly when there is none |
| Dtb.CompatibleIsMember | src/platform/dtb/structure.rs:106-113 | on a list of NUL-terminated names, membership, or the empty name |
| Dtb.ReadCells | src/platform/dtb/structure.rs:196-209 | up to two cells as one big-endian number; nothing for more, or for too few bytes |
| Dtb.RegionOf | src/platform/dtb/structure.rs:116-124 | the entry at an index of the `reg` property |
| Dtb.RegRoundTrip | src/platform/dtb/structure.rs:116-124 | entry i of an encoded `reg` is the i-th pair, for any cell counts its numbers fit; past the end there is none if and only if there are any cells |
| Dtb.NoCellsAnyEntry | src/platform/dtb/structure.rs:116-124 | without cells every property has every entry |
| Dtb.WideCellsNoEntry | src/platform/dtb/structure.rs:196-209 | with more than two cells of either kind there is no entry |
| Dtb.CellsOf | src/platform/dtb/structure.rs:137-148 | the declared cell counts, or 2 and 1 when missing or too short |
| Dtb.DeclaredCount | src/platform/dtb/structure.rs:137-148 | a big-endian cell declares its number; without one, or with fewer than four bytes, the default is the count |
| Dtb.CellsComeBack | src/platform/dtb/structure.rs:137-148 | counts declared in a node's list under their names come back as declared |
| Dtb.PropertyNames | src/platform/dtb/structure.rs:106-148 | the names looked up are `reg`, `compatible`, `#address-cells` and `#size-cells` |
| Monitor.StepShrinks | src/zhemon/parser.rs:51-96 | every pass shrinks twice the bytes ahead plus one in set mode, although the retry moves back |
| Monitor.OneMoreDigit | src/zhemon/parser.rs:163-196 | a digit appended to fewer than sixteen still fits 64 bits |
| Monitor.Parser.ParseHexNumber | src/zhemon/parser.rs:163-196 | the number its digits denote; too long or no digits leave the cursor where it was |
| Monitor.Parser.ParseSetCommand | src/zhemon/parser.rs:79-96 | one byte to store, or back out of set mode over what was read, or an error if there has been no byte |
| Monitor.Parser.ParseAddressCommand | src/zhemon/parser.rs:98-110 | an address to set if an instruction follows, else one to examine |
| Monitor.Parser.ParseInstruction | src/zhemon/parser.rs:133-160 | the command, mode change or error an instruction character stands for |
| Monitor.Parser.ParseNext | src/zhemon/parser.rs:51-77 | terminates on every line; the next command, the end, or the error |
| Monitor.Parser.Validate | src/zhemon/parser.rs:45-49 | succeeds exactly when the whole line reads without error |
| Numerals.DigitIsSign | src/zhemon/parser.rs:199-207 | a byte is a digit of a given value exactly when it is that sign, in either case |
| Numerals.NumeralReads | src/zhemon/parser.rs:163-196 | a numeral of any number of digits in any mixture of cases, that no digit follows, reads as the number written, or as too long from the first digit too many |
| Numerals.NumeralFound | src/zhemon/parser.rs:163-196 | and whatever reads as a number is such a numeral |
| Writings.WrittenIsRead | src/zhemon/parser.rs:51-196 | any command list, written with any spaces, colons, digits and cases the grammar allows, is read back, each address labelled by what follows it |
| Writings.ReadIsWritten | src/zhemon/parser.rs:51-196 | from any state of the parser, what is left of a line and reads without error is a writing of the commands read |
| Writings.AcceptsWritings | src/zhemon/parser.rs:45-49 | a line reads without error exactly when it is a writing of some commands |
| Meanings.RoundTrip | src/zhemon/parser.rs:51-196 | a writing of a list means the list itself exactly when the list is well paired |
| Meanings.ReadPairs | src/zhemon/parser.rs:51-196 | whatever line is read from whatever state, in what it means an address to examine is followed by nothing or another address, and an address to set by a command that is not one |
| Meanings.Expressible | src/zhemon/parser.rs:51-196 | some line reads without error as a command list exactly when it is well paired |
| Meanings.ExamineThenRun | src/zhemon/parser.rs:98-110 | no line means an examine of one address and then a run |
| Meanings.ErrorsPoint | src/zhemon/parser.rs:51-196 | every error of every line points at what is wrong: just behind a byte that is no sign, space or instruction, at the first digit too many, at the end of a line with a bare colon, or at what is no address after a dot |
| Zhemon.Zhemon.HandleLine | src/zhemon/mod.rs:70-87 | carries out exactly the commands before the end of the line or its error |
| Zhemon.StoresFollow | src/zhemon/mod.rs:138-141 | n stores land at n consecutive addresses and change nothing else |
| Zhemon.StoresAfter | src/zhemon/mod.rs:90-141 | after whatever went before, stores that follow an address to set land from it on, and stores that follow an examine from the address after the last one examined, and nowhere else |
| Zhemon.LineStores | src/zhemon/mod.rs:70-141 | any writing of an address and n bytes stores them at a to a + n - 1 |
| Time.TicksAreCeiling | src/kernel/time.rs:34-39 | whole seconds exactly plus the rounded fraction is the exact ceiling of the duration in ticks |
| Time.Timer.Rearm | src/arch/aarch64/timer.rs:53-63 | for any interval, zero included, and any time each pass takes: steps the deadline and returns at the first pass that gets past the counter, or is still at it and has written nothing |
| Time.FirstPastFacts | src/arch/aarch64/timer.rs:53-63 | the new deadline is after the counter and a whole number of intervals after the old one, with none skipped that had not passed |
| Time.FiresIsRearm | src/arch/aarch64/timer.rs:53-63 | a step of the clock at a passed deadline is exactly a return of `rearm` after passes of some lengths |
| Time.RearmReturns | src/arch/aarch64/timer.rs:53-63 | from a passed deadline it gets past the counter if and only if the rate is at most the frequency: then with any passes that are more than the counts to catch up on, and otherwise with none |
| Time.ZeroInterval | src/kernel/time.rs:14-15 | `init` computes an interval of zero exactly for a rate above the counter's frequency |
| Time.IntervalIsLongest | src/kernel/time.rs:14-15 | the interval is the longest with which there are at least as many beats to a second as asked for |
| Time.Timer.HandleInterrupt | src/kernel/time.rs:25-31 | a re-armed deadline and one more tick, exactly if `rearm` returns |
| Time.Timer.Wait | src/kernel/time.rs:59-68 | a wait is over with one more tick exactly when the deadline has passed and the handler returns |
| Time.Timer.Sleep | src/kernel/time.rs:59-68 | wakes exactly when the heartbeat has advanced enough, for any interval, after at least that many whole intervals if it began on the beat; no wait starts once it has, and if it never does every wait was used |
| Time.RunPaced | src/arch/aarch64/timer.rs:53-63 | however late handlers run, ticks never outpace deadlines |
| Time.DeadlinesCongruent | src/arch/aarch64/timer.rs:53-63 | every deadline stays congruent to the first modulo the interval |
| Time.SleepLongEnough | src/kernel/time.rs:59-68 | on the beat, with a rate that divides the frequency, no sleep of any duration ends early in any run |
| Time.RateCutsShort | src/kernel/time.rs:14-23 | with a rate that does not divide it, from every clock some sleep is short by more than any given number of counts |
| Time.OverdueCutsShort | src/kernel/time.rs:59-68 | so does a deadline overdue by part of an interval |
| Time.ShortByLessThanInterval | src/kernel/time.rs:59-68 | with a rate that does, no sleep is short by an interval |
| Time.NoSleepEnds | src/kernel/time.rs:59-68 | with an interval of zero no sleep ends |
| Time.SleepExact | src/kernel/time.rs:59-68 | for every rate, no sleep from a clock ends early exactly when the rate is above the frequency, and none ends at all, or divides it and the clock is on the beat |

## Left out

- Byte-granular memory: a client's stores are whole 64-bit words and slot links are the low half of a word, so a write of part of a word of live data is seen as a write of the word.
- In-place arrays inside `FreeLists`, `Cache` and `MemoryMap` are fields of type `seq` that methods reassign; aliasing of those arrays cannot occur in the source and is not modelled.
- Bit packing is written as sums of masked fields, which occupy disjoint bits; the wait queue's atomic bit set is a set of slot numbers.
- Panics are preconditions, `false` or `None` results: a caller that frees what it does not hold is excluded, because `Slab::free` only notices an immediate double free.
- Addresses, durations and store ranges that overflow 64 bits, device trees nested deeper than 32 bits count, and addresses of 2^39 and above in the translation tables, where `slot_of` masks instead of checking.
- Several processors, weak memory ordering and contention on a lock: one processor, one step at a time, interrupts between any two steps at which they are not masked.
- The handler's own instructions other than reads of the counter take no time of their own; each read takes any time.
- Stacks and the heap in the step system of `Sleeping`: that each task's stack is its own live allocation is kept by the methods of `Scheduling.Scheduler`, and used in `Stacks`.
- Hardware.LeafAt: restrictions that a table's descriptor can put on everything below it, in bits 63 to 59, are not taken into account; the kernel writes them as zero (`Hardware.WrittenBits`).
- Mmu.Table.MapRange: where the heap manages page zero, the exact number of pages needed is not stated, because one more page is lost to the refusal.
- Registers as hardware sees them: the GIC, the UART, power control, exception reporting, `vectors.s`, enabling the MMU, barriers and TLB maintenance.
- Boot before `sched::init`, linker symbols and board discovery: image regions and the blob are inputs. The blob's header, `is_memory` and interrupt properties are not walked.
- Console echo, line editing, carets in error reports, the layout of a range examine, `ps`, every `Display` and the demo tasks: user interface.
- The monitor's `R` command: it jumps to arbitrary code, so only its parsing is modelled.
