# The PCI configuration manager, verified

A Dafny model of the QNX PCI server (`src/hardware/pci/server.c`) with proofs of what it promises.
`dafny verify dfyconfig.toml` checks everything.

What the server does, and where it is modelled:

* **Bus enumeration.** Bridges are numbered depth first and kept in a linked tree of bus structures.
  `find_bus` walks one path of that tree without turning back, so it is only right if the tree carries
  exact intervals of bus numbers, also half-way through the scan. `BusTree`, `BusAlloc`, `BusScan`,
  `BusNumbering`, `BusInvariant`, `BusTheorems` and `BusColdStart` say and prove this on values;
  `BusServer` is the same scan on linked objects, changed in place, and computes exactly the values.
* **Resource names.** `BusNames`: the strings that name the pools of the resource database.
* **Allocation.** `Sorting`, `Registers` and `Carving`: adding up, sorting and carving base registers.
  `Resources`: taking chunks from the database and giving them back. `DeviceResources` and
  `DeviceTheorems`: the record of one device. `RoundTrip`: releasing undoes attaching.
  `AllocatorLimits`: where the promises end.
* **Attach and detach.** `Attachment`: the two calls. `AttachInvariant` and `AttachRuns`: what holds in
  every run of any number of clients and devices. `AttachCourses`: what still holds when attaches fail
  half-way and chunks stay behind. `LockAccounting` and `DeviceTable`: the counters.
* **Bridge apertures.** `Apertures`: rounding, slices, widening. `ApertureShares`: who gets a slice, and
  whether the chunk is long enough. `ApertureNesting`: who gets an aperture, and whether it contains
  those behind it. `ApertureServer`: the loops on linked objects. `ColdApertures`: the same after a bus
  scan, from the class codes of the machine. `ColdWindows`: from the scan to the addresses of devices.
  `BridgeWindows`: the window registers.
* **Configuration space.** `ConfigSpace` and `ConfigAccess`: bytes and words over 32-bit registers.
  `BarSizing`: probing the size of a base register.
* **Device list.** `DeviceList`: indices and searches.

Methods are proved equal to functions, and the results are lemmas about those functions, so they hold
of the loops and the linked structures. Automatic induction is switched off on every lemma: each proof is
the one that is written there.

Where the code falls short of what its names and comments suggest, the model follows the code, and lemmas
give the exact condition or the input:

* a chunk granted at address 0 is never freed (`AttachThenRelease`);
* the 256th lock leaves a device unheld (`AttachHoldsIff`);
* joining a caller that only looks gives no addresses (`AttachAssignsIff`);
* exhausted memory on bus 0 reports success and hands out an address twice (`ExhaustionIsSilent`,
  `ExhaustedMemoryOverlaps`);
* mixed I/O registers may be misaligned (`IoSumAlignsIff`, `MixedPortsMayBeMisaligned`);
* a bridge listed before its parent takes the slice of the parent (`EveryoneServedIff`);
* a bridge with the class code of the host bridge stops the widening and gets no aperture, while bridges
  behind it do (`AllNestIff`, `ColdStartNestsIff`, `MislabelledSticksOut`);
* a bridge header that is not of the bridge class is listed without a number and takes a slice for bus 0
  that nobody added up (`AllNumberedIff`, `ChunkHoldsIff`, `UnnumberedEntryOverflows`);
* with all 256 bus numbers taken the slice of bus 255 is not added up (`LastBusIs`,
  `UncountedBusOverflows`);
* a 64-bit register of 4 GB or more may be given the default size (`Size64Iff`), and a ROM register with
  reserved bits that read as ones gets a wrong one (`SizeRomIff`);
* word accesses that start inside a register lose their last word (`WriteLosesIff`), and an unaligned
  access of the full count runs past the buffer of 256 bytes (`OverrunIff`).

Assumptions:

* The build is little-endian and not `__X86__`; `unsigned long` has 32 bits.
* The resource database is known by its contract only: what it grants is aligned, inside the requested
  range, and clear of the live chunks of the same name (`Resources.Sound`). Any policy that meets it is
  allowed, a different one at each call, and other programs may change the database between calls.
* `map_addr` is the identity. `find_bus` on a scanned machine is an exact lookup, as proved in
  `BusColdStart.FindBusThroughoutScan`; `Resources.Host` and `Apertures.Lookup` use it as such.
* A cold start has one host bridge, no CardBus bridges, no bus numbers set by firmware and at most 256
  buses; functions that are absent read as all ones. Bus 0 may come with windows and requirements of
  any size, bridges start without apertures.
* Clients send the count of a configuration call as 16 bits (`ConfigAccess.Count`).
* In the runs of `AttachRuns` devices are not persistent, firmware has enabled no register, the
  registers of a device ask for less than 4 GB per area, their sizes are powers of two (16 bytes and up
  for memory, 2048 for the ROM), and the attaches that succeed are granted chunks, not at address 0, and
  are not the 256th lock. Each restriction is the exact condition of a lemma or an admission below.
  `AttachCourses` does without the last three: there attaches may also fail half-way, and only those are
  left out for which a memory request on bus 0 finds every page exhausted. The results on live chunks,
  counters and device tables (`ChunksNeverOverlap`, `LocksBalance`, `SlotZeroIsFree`) are about all
  courses of events, whatever the calls return.

## Model

| member | source | states |
|---|---|---|
| `BusTree.Find` | src/hardware/pci/server.c:615-670 | the single-path walk terminates on every acyclic `next`/`peer` structure and only returns a node that carries the number |
| `BusTree.FindIsExhaustive` | src/hardware/pci/server.c:615-670 | on a tree with exact or open intervals the walk finds a number if and only if some node carries it |
| `BusAlloc.AddNodeShape` | src/hardware/pci/server.c:514-608 | linking a new bus leaves one tree: the old nodes plus the new one, each reachable once, no cycle |
| `BusAlloc.AddNodeKeepsOrder` | src/hardware/pci/server.c:541-578 | peer lists stay sorted by secondary number after the first |
| `BusAlloc.AddNodeKeepsKids` | src/hardware/pci/server.c:541-578 | the first child stays first and each child list gains at most the new node |
| `BusAlloc.AddNodeBelow` | src/hardware/pci/server.c:514-608 | no old bus changes place in the tree |
| `BusAlloc.AllocKeepsAheadIff` | src/hardware/pci/server.c:581-605 | one call keeps every secondary number below `lastbus` exactly when the requested number is not 255, and is listed or is not `lastbus + 1` |
| `BusAlloc.FreshNumberIsUnused` | src/hardware/pci/server.c:581-605 | over any sequence of such calls the number for the next unnumbered bridge is unused |
| `BusAlloc.SkippedNumberCollides` | src/hardware/pci/server.c:581-605 | an unlisted bridge with `lastbus + 1` makes the next fresh number collide |
| `BusNumbering.IntervalIsSubtree` | src/hardware/pci/server.c:1594-1668 | with nested intervals, being below a bus is the same as having a number in its interval |
| `BusNumbering.CoreIsSearchable` | src/hardware/pci/server.c:615-670 | the half-scanned tree, with open subordinates on the current path, is one on which the walk is right |
| `BusNumbering.FindDuringScan` | src/hardware/pci/server.c:615-670 | at any point of a scan bus `b` is found exactly if it has been numbered, and it is the node numbered `b` |
| `BusInvariant.EnterKeepsCold` | src/hardware/pci/server.c:2323-2365 | entering a bridge gives it a fresh number and a place in list, tree and registers, and keeps the scan invariant |
| `BusInvariant.LeaveKeepsCold` | src/hardware/pci/server.c:1594-1668 | settling a bridge makes its interval exact and keeps the scan invariant one level up |
| `BusTheorems.ScanFollowsPlan` | src/hardware/pci/server.c:2279-2385 | the recursive scan terminates without error on every finite tree of bridges with at most 256 buses, in depth-first order, and every state on the way is invariant |
| `BusColdStart.NumbersAreDepthFirst` | src/hardware/pci/server.c:2279-2385 | bus `i` lies behind the i-th bridge in depth-first order and is linked below the bus that bridge sits on |
| `BusColdStart.IntervalsAreExact` | src/hardware/pci/server.c:2279-2385 | after the scan [secondary, subordinate] is exactly the set of buses behind the bridge |
| `BusColdStart.IntervalsNestOrPart` | src/hardware/pci/server.c:2279-2385 | two intervals nest or are disjoint, according to the tree |
| `BusColdStart.FindBusThroughoutScan` | src/hardware/pci/server.c:615-670 | at every state of the whole scan the lookup agrees with an exhaustive search |
| `BusColdStart.CyclesReachTheirBus` | src/hardware/pci/server.c:1407-1411 | the bus number registers claim a cycle for bus `b` exactly on the way to bus `b` |
| `BusColdStart.RegistersMatchMap` | src/hardware/pci/server.c:1594-1668 | after the scan the registers hold the numbers of the bus structures |
| `BusColdStart.ParentsAreListedFirst` | src/hardware/pci/server.c:2323-2351 | every numbered bridge is listed after its parent bridge, with its final numbers |
| `BusColdStart.EntryNumberedIff` | src/hardware/pci/server.c:2517-2605 | an entry is numbered exactly when it is not on bus 0 or its function is of the bridge class |
| `BusColdStart.AllNumberedIff` | src/hardware/pci/server.c:2517-2605 | after the scan every listed entry has a number exactly when all bridge headers on bus 0 belong to functions of the bridge class |
| `BusColdStart.NextNumberIsUnusedIff` | src/hardware/pci/server.c:581-605 | the 8-bit counter names an unused bus exactly while there are fewer than 256 |
| `BusServer.Server.FindBus` | src/hardware/pci/server.c:615-670 | the pointer walk returns the node that the walk on the abstract tree returns |
| `BusServer.Server.StepBus` | src/hardware/pci/server.c:615-670 | one round of the pointer walk leads to the structure from which the abstract walk goes on |
| `BusServer.Server.AllocBus` | src/hardware/pci/server.c:514-608 | the linked structures after the call are those of the abstract allocation, and only the new one is added |
| `BusServer.Server.LinkBus` | src/hardware/pci/server.c:541-578 | insertion in the sorted peer list, on pointers |
| `BusServer.Server.ConfigureBridge` | src/hardware/pci/server.c:1373-1411 | bus structure and bus number registers after one bridge |
| `BusServer.Server.WidenAncestors` | src/hardware/pci/server.c:1654-1667 | the loop over `prev` changes exactly the subordinates of the ancestors |
| `BusServer.Server.TraverseBack` | src/hardware/pci/server.c:1594-1668 | settling on pointers, registers and the bridge list |
| `BusServer.Server.PickBridge` | src/hardware/pci/server.c:2323-2351 | number and list entry of a bridge function |
| `BusServer.Server.SetupPci2PciBridges` | src/hardware/pci/server.c:2279-2385 | the recursive scan with nested loops computes the abstract scan, so all results on it hold of the linked structures |
| `BusServer.Server.ScanFromColdStart` | src/hardware/pci/server.c:2393-2450 | the same from the host bridge on |
| `BusNames.NameIsInjective` | src/hardware/pci/server.c:678-726 | two pool names are equal exactly when space, bus and prefetch are equal |
| `BusNames.IndicesFitIff` | src/hardware/pci/server.c:678-726 | the index array of ten holds the walk exactly for buses at most ten bridges deep |
| `BusNames.NoBufferIsOverrun` | src/hardware/pci/server.c:678-726 | for such buses neither the index array nor the 100-byte buffer is overrun |
| `BusNames.MakeName` | src/hardware/pci/server.c:678-726 | the string built by the loops is the name the results above are about |
| `Sorting.SwapRemovesInversion` | src/hardware/pci/server.c:3289-3306 | every swap removes exactly one inversion, so the sort terminates |
| `Sorting.SortedVersionIsUnique` | src/hardware/pci/server.c:3289-3306 | there is only one stable sorting |
| `Sorting.SameOrderIsPermutation` | src/hardware/pci/server.c:3289-3306 | nothing is lost or invented, and equal elements keep their order |
| `Sorting.BubbleSort` | src/hardware/pci/server.c:3289-3306 | the in-place sort returns that stable sorting, entries kept whole |
| `Sorting.SortPages` | src/hardware/pci/server.c:790-811 | memory pages ascending by length, a permutation of what was there |
| `Registers.W32Step` | src/hardware/pci/server.c:3205-3245 | summing in 32-bit variables gives the sum modulo 2^32 |
| `Carving.GatherTotals` | src/hardware/pci/server.c:3205-3245 | with no register enabled the sums are the exact totals modulo 2^32, and the alignments the largest registers, as far as those have 32 bits |
| `Carving.NeedOfPermutation` | src/hardware/pci/server.c:3289-3306 | what the registers need does not depend on their order |
| `Carving.CarvePlaces` | src/hardware/pci/server.c:3309-3343 | each register is placed where the registers before it in its area end, flag bits kept; the others are not touched |
| `Carving.CarvedInside` | src/hardware/pci/server.c:3309-3343 | every register placed lies inside what its area needs, from the start of the chunk |
| `Carving.CarvedApart` | src/hardware/pci/server.c:3309-3343 | no two registers placed in one area overlap |
| `Carving.CarvedAligned` | src/hardware/pci/server.c:3289-3343 | with powers of two in descending order a register is naturally aligned exactly when the chunk starts at a multiple of it |
| `AllocatorLimits.ChunkHoldsAllIff` | src/hardware/pci/server.c:3205-3245 | the chunk is large enough exactly when the registers add up to less than 4 GB |
| `AllocatorLimits.IoAlignedIff` | src/hardware/pci/server.c:3247-3258 | an I/O register is naturally aligned exactly when its chunk starts at a multiple of it |
| `AllocatorLimits.IoSumAlignsIff` | src/hardware/pci/server.c:3247-3258 | every start the database may grant aligns an I/O register exactly when the I/O sum is a multiple of it |
| `AllocatorLimits.MixedPortsMayBeMisaligned` | src/hardware/pci/server.c:3247-3258 | 512 and 256 bytes of I/O: a database that keeps its contract, and the attach after which the larger register is not naturally aligned |
| `Resources.AllocGrants` | src/hardware/pci/server.c:956-1059 | a granted chunk is aligned as requested, lies in the window of its bus or in a page of the machine, and is clear of every live chunk of its pool |
| `Resources.ExhaustionIsSilent` | src/hardware/pci/server.c:977-1017 | memory on bus 0 is never refused: the call succeeds without a chunk exactly when every page has refused |
| `AllocatorLimits.ExhaustedMemoryOverlaps` | src/hardware/pci/server.c:977-1017 | and what it then uses was never granted: two attaches that end up at the same address |
| `Resources.FreedIsGranted` | src/hardware/pci/server.c:1067-1126 | freeing the register that a grant was merged into, flag bits and all, leaves the live chunks as they were before the grant |
| `Resources.GrantKeepsApart` | src/hardware/pci/server.c:956-1059 | a grant keeps the live chunks of each pool disjoint |
| `Resources.ResourceDb.AllocResource` | src/hardware/pci/server.c:956-1059 | the loop over pages makes the requests in order and stops at the first grant |
| `Resources.ResourceDb.FreeResource` | src/hardware/pci/server.c:1067-1126 | exactly the recomputed chunk is returned; the flag bits stay |
| `DeviceResources.SlotsInRange` | src/hardware/pci/server.c:3205-3245 | `reg_idx` never exceeds seven and each entry names one of the seven registers |
| `DeviceResources.Device.GatherRegisters` | src/hardware/pci/server.c:3200-3245 | the gathering loops compute the specified sums and entries |
| `DeviceResources.Device.AddupResources` | src/hardware/pci/server.c:3167-3345 | device and database after the call: claims in the order I/O, memory, prefetch, then sorting and carving |
| `DeviceResources.Device.ReleaseResources` | src/hardware/pci/server.c:3760-3793 | device and database after the call |
| `DeviceTheorems.AllGathered` | src/hardware/pci/server.c:3205-3245 | exactly the registers selected by the flags are gathered |
| `DeviceTheorems.MemClaimAligned` | src/hardware/pci/server.c:3260-3287 | a memory chunk starts at a multiple of every register that goes into it |
| `DeviceTheorems.AddupPlaces` | src/hardware/pci/server.c:3200-3344 | an attach that is granted everything: one new chunk per area asked for, inside its window and clear of everything live; every selected register without an address inside its chunk, none of them overlapping, memory naturally aligned; the others untouched |
| `RoundTrip.ReleaseEmpties` | src/hardware/pci/server.c:3760-3793 | release frees exactly the chunks of the device and leaves every register with its flag bits only |
| `RoundTrip.AttachThenRelease` | src/hardware/pci/server.c:3247-3287 | attach then release restores registers and holdings, and the live chunks exactly when none was granted at address 0 |
| `Attachment.AttachDevice` | src/hardware/pci/server.c:3352-3754 | device, database and client after an attach without a handle: EBUSY rules, manager flag, sharing, lock counts, device table |
| `Attachment.DetachDevice` | src/hardware/pci/server.c:3813-3857 | device, database and client after a detach |
| `AttachInvariant.QuietAddup` | src/hardware/pci/server.c:3205-3245 | looking, or joining a holder, claims and assigns nothing |
| `AttachInvariant.FirstAddup` | src/hardware/pci/server.c:3247-3343 | the first attach leaves registers and chunks in order, and what is new belongs to the device |
| `AttachInvariant.AttachKeeps` | src/hardware/pci/server.c:3352-3754 | an attach keeps the device in order and moves chunks only between it and the free space |
| `AttachInvariant.DetachKeeps` | src/hardware/pci/server.c:3813-3857 | a detach does the same |
| `AttachRuns.NextKeeps` | src/hardware/pci/server.c:3352-3876 | every attach, detach and close, and whatever other programs do, keeps the whole world in order |
| `AttachRuns.ChunksNeverOverlap` | src/hardware/pci/server.c:3352-3876 | whatever the calls return, the live chunks of one pool are pairwise disjoint as long as the database keeps its contract |
| `AttachRuns.OwnedAreLive` | src/hardware/pci/server.c:3352-3876 | in every run every chunk of a device is live |
| `AttachRuns.AssignedAreOwned` | src/hardware/pci/server.c:3352-3876 | in every run an assigned register belongs to a held device, lies in a live chunk of it and in the window of its bus, and memory is naturally aligned |
| `AttachRuns.RegistersNeverOverlap` | src/hardware/pci/server.c:3352-3876 | in every run two assigned registers in one pool never overlap, in one device or in two |
| `AttachRuns.ReleasedMeansRestored` | src/hardware/pci/server.c:3760-3876 | in every run a device nobody holds has no chunk, and its registers are as the hardware first presented them |
| `AttachRuns.NextConserves` | src/hardware/pci/server.c:3352-3876 | attach, detach and close neither take nor leave a chunk that belongs to nobody |
| `AttachRuns.NextShaped` | src/hardware/pci/server.c:3352-3876 | whatever a call returns, devices keep seven registers and clients twenty slots that name existing devices |
| `AttachRuns.EverythingComesBack` | src/hardware/pci/server.c:3352-3876 | when everybody has let go the set of live chunks is the initial one |
| `AttachCourses.AttachFits` | src/hardware/pci/server.c:3352-3754 | an attach, granted or refused half-way, takes no chunk away, and every register and holding lies in a chunk granted to the device |
| `AttachCourses.DetachFits` | src/hardware/pci/server.c:3813-3857 | a detach gives back chunks of its own device only |
| `AttachCourses.NextSteady` | src/hardware/pci/server.c:3352-3876 | every attach, detach and close, and other programs, keep registers, holdings and granted chunks in step |
| `AttachCourses.AssignedAreHeld` | src/hardware/pci/server.c:3352-3876 | in such a course an assigned register lies in a live chunk that was granted to its device and not given back |
| `AttachCourses.RegistersStayApart` | src/hardware/pci/server.c:3352-3876 | two assigned registers in one pool never overlap, in one device or in two, even after attaches that fail half-way, are granted address 0 or make the lock counter wrap around |
| `LockAccounting.AttachCounts` | src/hardware/pci/server.c:3689-3740 | an attach that succeeds adds one lock to the client, or none if a manager is first, and as many to the device modulo 256; one that fails adds none |
| `LockAccounting.AttachBalancesIff` | src/hardware/pci/server.c:3689-3740 | an attach that fails keeps the difference of the two totals; one that succeeds keeps it exactly when this is not the 256th lock, or a manager is first and no lock is counted |
| `LockAccounting.DetachBalancesIff` | src/hardware/pci/server.c:3821-3840 | a detach keeps the difference of the two totals exactly when the device has no lock or the client has one |
| `LockAccounting.LocksBalance` | src/hardware/pci/server.c:3813-3876 | whatever the calls return, the two totals keep their difference as long as only holders let go and no attach that is not busy asks for a 256th lock |
| `LockAccounting.AttachHoldsIff` | src/hardware/pci/server.c:3689-3740 | after a successful attach the device is held exactly when a manager held it or attaches now, or this was not the 256th lock |
| `LockAccounting.AttachAssignsIff` | src/hardware/pci/server.c:3476-3513 | after a successful attach a selected register has an address exactly when this was the first attach or it had one: joining a caller that only looks assigns nothing |
| `DeviceTable.PutRecords` | src/hardware/pci/server.c:3716-3730 | the loop records a device exactly when it or a free slot is in the rest of the table, and loses no other |
| `DeviceTable.RecordsDevice` | src/hardware/pci/server.c:3716-3730 | with the shortcut for slot 0 as without it, the first slot that is free or holds the device is written, and no other; the device is recorded exactly when there is one |
| `DeviceTable.ForgetCounts` | src/hardware/pci/server.c:3846-3852 | forgetting frees every slot of the device and lowers the counter by exactly as many |
| `DeviceTable.SlotZeroIsFree` | src/hardware/pci/server.c:3716-3730 | whatever the calls return, the counter covers the occupied slots, so slot 0 is never overwritten in use |
| `DeviceTable.CloseEmpties` | src/hardware/pci/server.c:4294-4310 | closing leaves no slot occupied |
| `DeviceTable.OcbFree` | src/hardware/pci/server.c:4294-4310 | the close loop on objects is the abstract one |
| `Apertures.RoundingGrowsIff` | src/hardware/pci/server.c:4149-4193 | a rounded requirement is whole granules, less than one more, and not smaller exactly without a wrap at 2^64 |
| `Apertures.ApertureIsHull` | src/hardware/pci/server.c:3882-4112 | slices follow each other without gaps; an aperture runs from the first to the last slice that reaches its bridge, from which no bridge with the class of the host bridge separates it; bus 0 and those bridges stay as they were |
| `Apertures.HullContainsIff` | src/hardware/pci/server.c:3882-4112 | an aperture contains all those slices exactly unless the first was at address 0 and another follows |
| `Apertures.AperturesNest` | src/hardware/pci/server.c:3882-4112 | an aperture contains those of the bridges behind it that no bridge with the class of the host bridge separates from it |
| `ApertureShares.ServedIff` | src/hardware/pci/server.c:3882-4112 | a listed bus gets a slice of its own exactly when it wants one and no slice has reached it; bus 0 and bridges with the class of the host bridge, which none reaches, get one each time |
| `ApertureShares.EveryoneServedIff` | src/hardware/pci/server.c:3882-4112 | every bus that wants a slice gets exactly one for each time it is listed, in list order, exactly when of the bridges that want one none is listed after one whose slice reaches it; otherwise there are too few slices |
| `ApertureShares.OneSliceEach` | src/hardware/pci/server.c:3882-4112 | if only numbered bridges want slices, and those with the class of the host bridge are listed once, none gets two, however they are listed |
| `Apertures.SlicesApart` | src/hardware/pci/server.c:3882-4112 | no two slices overlap |
| `ApertureShares.SlicesStayInChunk` | src/hardware/pci/server.c:4149-4193 | then none runs past a chunk of the length that the rounding pass adds up, unless that sum wraps around |
| `ApertureShares.ChunkHoldsIff` | src/hardware/pci/server.c:4149-4193 | with ancestors first the chunk holds every slice exactly when what the listed buses want, bus 0 included, is no more than that sum |
| `ApertureShares.UnnumberedEntryOverflows` | src/hardware/pci/server.c:4149-4193 | an entry without a number and bus 0 wanting a megabyte: the slice of the only bridge lies wholly behind the chunk |
| `ApertureShares.UncountedBusOverflows` | src/hardware/pci/server.c:4149-4193 | with the counter at 255, bus 255 wanting a megabyte: its slice lies wholly behind the chunk |
| `Apertures.ApertureCoversIff` | src/hardware/pci/server.c:3882-4112 | an aperture covers exactly the slices handed out between the first and the last that reach its bridge, a sibling's included |
| `ApertureShares.ChildFirstStarvesParent` | src/hardware/pci/server.c:3897-3949 | listed before its parent, a bridge takes the slice of the parent |
| `ApertureNesting.ApertureSetIff` | src/hardware/pci/server.c:3882-4112 | a bridge ends up with an aperture exactly when a listed bus that wants a slice reaches it |
| `ApertureNesting.AllNestIff` | src/hardware/pci/server.c:3882-4112 | every aperture contains those of all bridges behind it exactly when no listed bridge that wants a slice and has another class lies behind one with the class of the host bridge |
| `ApertureNesting.HostClassHidesAperture` | src/hardware/pci/server.c:4066-4097 | two bridges that are both given a slice: the one with the class of the host bridge has no aperture, the one behind it has one |
| `ApertureServer.RoundRequirements` | src/hardware/pci/server.c:4149-4193 | the in-place pass rounds exactly the buses 1 to `lastbus - 1` and returns the 64-bit total |
| `ApertureServer.WidenUp` | src/hardware/pci/server.c:3919-3949 | the loop over `prev` widens exactly the bridges above, up to the first with the class of the host bridge |
| `ApertureServer.SetupApertures` | src/hardware/pci/server.c:3882-4112 | the loops on linked structures compute the layout the results above are about |
| `ColdApertures.ColdStartListsAncestorsFirst` | src/hardware/pci/server.c:2323-2351 | the list that a cold start leaves has ancestors first, and every number in it is known |
| `ColdApertures.ColdStartServesEveryone` | src/hardware/pci/server.c:2323-2351 | so after a cold start every listed bus that wants a slice gets exactly one of its own |
| `ColdApertures.ColdStartAperturesNest` | src/hardware/pci/server.c:3882-4112 | after a cold start every aperture contains those of all bridges behind it, whatever the buses want, if no bridge of another class sits behind one with the class of the host bridge |
| `ColdApertures.ColdStartNestsIff` | src/hardware/pci/server.c:3882-4112 | and only if: that condition on the class codes of the machine is exact |
| `ColdApertures.MislabelledSticksOut` | src/hardware/pci/server.c:2415-2421 | a machine with a type 1 function that has the class of the host bridge: an aperture behind it that it does not contain |
| `ColdApertures.LastBusIs` | src/hardware/pci/server.c:2684-2695 | after the scan `lastbus` is the number of buses, and 255 when all 256 numbers are taken |
| `ColdApertures.ColdStartSlicesStayInChunk` | src/hardware/pci/server.c:4149-4193 | after a cold start no slice runs past the chunk, if bus 0 wants none or all bridge headers on bus 0 belong to functions of the bridge class, and, with all 256 numbers taken, if bus 255 wants none |
| `ColdWindows.AssignedInsideApertures` | src/hardware/pci/server.c:956-1059 | in every run after a cold start, an address assigned on a bus whose aperture is not empty lies inside the apertures of all bridges on the way to it, under the same condition on class codes |
| `BridgeWindows.IoRoundTripIff` | src/hardware/pci/server.c:1218-1265 | an I/O window reads back as written exactly when it is whole 4 KB units within 64 KB, or for 32-bit windows within what the sign extension keeps |
| `BridgeWindows.MemRoundTripIff` | src/hardware/pci/server.c:1272-1306 | a memory window reads back exactly when it is whole megabytes below 4 GB |
| `BridgeWindows.PrefRoundTripIff` | src/hardware/pci/server.c:1313-1364 | a prefetchable window likewise, without the limit when it is 64-bit |
| `BridgeWindows.WritingKeepsType` | src/hardware/pci/server.c:1218-1364 | the read-only type bits survive, so a bridge can be configured again |
| `BridgeWindows.Bridge.Windows` | src/hardware/pci/server.c:1420-1481 | the three windows as `configure_bridge` decodes them |
| `BridgeWindows.ConfigureAndRead` | src/hardware/pci/server.c:1218-1481 | the three round trips on the registers, step by step |
| `ConfigSpace.UnitsOfRegister` | src/hardware/pci/server.c:224-256 | splitting a register into bytes or words undoes putting it together |
| `ConfigSpace.ReadIsExact` | src/hardware/pci/server.c:191-256 | when the span fits the registers fetched, a read returns exactly the addressed bytes or words |
| `ConfigSpace.ReadIsExactIff` | src/hardware/pci/server.c:191-256 | the result does not depend on stale buffer contents exactly when the span fits |
| `ConfigSpace.WriteIsExact` | src/hardware/pci/server.c:295-376 | when it fits, a write changes exactly the addressed bytes or words and no other |
| `ConfigSpace.WriteLosesIff` | src/hardware/pci/server.c:295-376 | the last unit of a write is lost exactly when the span does not fit |
| `ConfigSpace.WriteThenRead` | src/hardware/pci/server.c:191-376 | reading what was written gives it back |
| `ConfigSpace.FitsMeans` | src/hardware/pci/server.c:191-256 | bytes fit by the arithmetic of the call; words fit from a register boundary on or in odd numbers |
| `ConfigAccess.Function.ReadConfig` | src/hardware/pci/server.c:191-256 | status in every case, when the copy would run past the buffer, and otherwise the buffer of the caller after the call |
| `ConfigAccess.Function.WriteConfig` | src/hardware/pci/server.c:295-376 | status in every case, when the copy would run past the buffer, and otherwise the registers after the read-modify-write |
| `ConfigAccess.Function.OverrunIff` | src/hardware/pci/server.c:191-376 | a byte or word call runs past its buffer of 256 bytes exactly when it passes the checks, the registers answer, and offset in the register plus count exceed 256 bytes |
| `ConfigAccess.Function.FittingNeverOverruns` | src/hardware/pci/server.c:191-376 | a stretch that fits the registers fetched never does |
| `ConfigAccess.Function.OverrunHappens` | src/hardware/pci/server.c:295-376 | 256 bytes from offset 1, and 128 words from offset 2, do |
| `ConfigAccess.Function.ReadConfig32` | src/hardware/pci/server.c:263-287 | at most 64 registers, up to the first that does not answer |
| `ConfigAccess.Function.WriteConfig32` | src/hardware/pci/server.c:383-406 | registers up to the first that does not answer |
| `ConfigAccess.Function.ReadGivesUnits` | src/hardware/pci/server.c:191-256 | the buffer holds the addressed stretch of the flat map |
| `ConfigAccess.Function.WriteChangesUnits` | src/hardware/pci/server.c:295-376 | the flat map changes in the addressed stretch only |
| `BarSizing.BaseRegister.Size` | src/hardware/pci/server.c:1769-1830 | the size computed by the probing sequence, and the register left as it was |
| `BarSizing.Size32` | src/hardware/pci/server.c:1769-1830 | 32-bit I/O and memory registers give their size, whatever they hold |
| `BarSizing.SizeRomIff` | src/hardware/pci/server.c:1769-1830 | an expansion ROM register, whose enable bit is writable, gives its size exactly when its reserved bits 4 to 10 read as zero, whatever it holds |
| `BarSizing.SizeIo16` | src/hardware/pci/server.c:1769-1830 | so do I/O registers that decode 16 bits |
| `BarSizing.Size64Iff` | src/hardware/pci/server.c:1769-1830 | a 64-bit register gives its size exactly unless it is 4 GB or more and its upper half holds all the ones it can; then it gives the default |
| `BarSizing.Size40Iff` | src/hardware/pci/server.c:1769-1830 | the same for a device that decodes 40 bits |
| `BarSizing.SizeOfHardWired` | src/hardware/pci/server.c:1769-1830 | a register wired to an address gives the default size |
| `BarSizing.SizeOfUnimplemented` | src/hardware/pci/server.c:1769-1830 | a register that is not there gives 0 |
| `DeviceList.Devices.Append` | src/hardware/pci/server.c:2070-2082 | the index of a new device is the number of earlier devices with its ids, modulo 256 |
| `DeviceList.Devices.SearchVendDev` | src/hardware/pci/server.c:2881-2893 | returns the idx-th device with the ids, the only one there is, and nothing exactly when there are too few or idx is 256 or more |
| `DeviceList.Devices.SearchClass` | src/hardware/pci/server.c:2837-2855 | returns the idx-th device of the class, the only one there is, and nothing exactly when there are too few |
| `DeviceList.IndexOfNth` | src/hardware/pci/server.c:2070-2082 | each of the first 256 devices with the ids carries its position as its index |

## Left out

- Carving.GatherTotals: says nothing of registers enabled by firmware, which are skipped together with registers after them that hold an address, nor of the alignment when a register has 4 GB or more.
- Attachment.AttachDevice: the errors EIO and ENXIO after the resources are claimed, the register writes and the search for the device are not modelled.
- BridgeWindows.Bridge.Windows: windows that `check_range` rejects, which the source then zeroes, are taken to be accepted.
- Attachment.DetachDevice: the registers written on release are not modelled.
- ConfigAccess.Function.ReadConfig: stops before a copy that would run past the buffer; what the overrun does to memory is not modelled.
- ConfigAccess.Function.WriteConfig: stops before a copy that would run past the buffer, as above.
- QNX plumbing: `main`, message dispatch, signals, logging, loading of driver libraries: no algorithm.
- CardBus bridges and devices: their numbering and single base register are branches of their own.
- IRQ allocation, power management, capability lists, bandwidth bookkeeping: many branches, no deep invariant.
- Attach with a handle, and the search by which attach finds its device: the device number is a parameter.
- Attaches that fail half-way: the functions model what they leave behind, and the results on chunks, registers, counters and tables cover them; that everything is given back is not true of them, because manager flag and chunks are then left without a holder.
- Attaches for which a memory request on bus 0 falls through every page: left out of the courses, because `AllocatorLimits.ExhaustedMemoryOverlaps` shows that registers overlap after them.
- Persistent devices and registers enabled by firmware: modelled in the functions, excluded from the runs and courses.
- The configuration registers written by attach and release, and the Command register everywhere.
- Rescanning and removal of devices; the list of devices only grows here.
- The cache of the last device, which `pciex_check` consults: the verdict on the device is a parameter.
- Errors of `reserve_resource`, `check_range` and of register writes while bridges are configured: taken to succeed.
- Apertures set by firmware: the bridges start without apertures. The windows of bus 0 are arbitrary.
- More than 256 buses: the 8-bit counter wraps around, as `BusColdStart.NextNumberIsUnusedIff` says.
- Searches with partial masks and by vendor alone.
- A backend that answers reads of a register but not writes.
- Addresses beyond 2^64: start plus length of a chunk is not wrapped.
- Allocation at start-up for registers enabled by firmware (`alloc_resource`), and the requirement sums that `scan_windows` adds to a bus: requirements are inputs.
- `Sorting.BubbleSort` is one generic method for the two sorts in the source, which differ in the key only.
- The loops of `ApertureServer` look a bus up by exhaustive search; `BusServer.Server.FindBus` is the walk, and `BusColdStart.FindBusThroughoutScan` says that both find the same.
- `Apertures.Setup` is one model for the three aperture functions, which differ in fields and granule only.
- ROM registers whose reserved bits 4 to 10 read as ones: the code takes them for an address; the runs start without addresses.
