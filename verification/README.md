# SlimVM: the nested page table, TLB shootdown, VM entry and shutdown, proved

SlimVM is a Linux kernel module that runs a process in guest mode over a nested page table: EPT on Intel, NPT on AMD.
The table is a lazily filled cache of the host process's page table.  Vcpus run in a loop that races with
invalidations, CPU migration and shutdown.  This project models that core in Dafny and proves what it is for:

> Whenever a vcpu executes guest code, every translation it can use gives the frame that the host page table holds at
> that moment (`EndToEnd.GuestsSeeTheHost` for VMX, `SvmEndToEnd.GuestsSeeTheHost` for SVM).

`dafny verify dfyconfig.toml` checks everything.

## How the parts fit

| files | part of the system | form |
|---|---|---|
| `Regions` | memory regions and address translation of mm.c, the 2M endpoint test | loops and pure functions |
| `EptTree`, `EptWalk`, `EptFlat`, `EptClear` | the four-level tree, its meaning as a flat map of leaves, the two clear passes | values |
| `Ept`, `EptRun` | the table of ept.c: look-up, install, clear, teardown, page counters, free pages; whole runs | class updated in place |
| `Notifier`, `NotifierRuns` | the mmu-notifier sequence/count protocol, and runs that show its limits | steps of unboundedly many threads |
| `EptProtocol` | the table of ept.c taken through whole runs of that protocol | class updated in place |
| `VmxEntry`, `Residency`, `Shootdown`, `Handshake` | the entry path of a VMX vcpu, its VMCS, the remote flush, and what passes between the two | steps, one for each shared access |
| `UpperCache` | table pages given back while directory entries are cached, and when they come back | steps over those of `VmxEntry` |
| `SvmVmcb`, `SvmEntry`, `SvmFlush`, `SvmRuns`, `SvmHost` | ASIDs and VMCB clean bits of svm.c, its entry path and the remote flush of npt.c; what holds of their steps; the objects over whole runs | class updated in place, and steps |
| `CacheLink`, `EndToEnd`, `SvmEndToEnd` | notifier protocol and remote flush together, with the translations CPUs have cached | products of the machines |
| `MsrTable`, `MsrSwitch` | the shared-MSR tables and lazy switching of vmx.c | class updated in place, and a reference machine |
| `Lifecycle`, `VcpuTable` | the vcpu table, shutdown and sync | steps, and class updated in place |
| `NptClear`, `NptProtocol`, `NptTeardown` | the clear of npt.c that gives up the lock, its place in the protocol, and teardown against callbacks | class updated in place, and steps |

Step machines follow one pattern: `Enabled` and `Apply` (or `Next`) give the steps, `Inv` the invariant, `AnyStep` that
every step keeps it, `RunInv` that it holds in every state of every run.  A thread's private fields change through a
function `After`, so that most of the proof is about one record and one action.

## What is assumed

- Memory is sequentially consistent; every access to shared state is one step, and what happens under one lock is one
  step unless the code gives the lock up.
- Regions are disjoint, do not wrap, lie below 2^48 and have host and guest addresses equal modulo 2M
  (`EptFlat.Regular`); a 2M-aligned block that passes the 2M test is a straight line (`EptRun.Solid`).  Counting pages
  across range clears, and saying when a clear is total, needs in addition that no 2M guest block is shared by two
  regions (`EptFlat.OneRegionPerBlock`).  The code tests none of these.  What fails without them, and when:
  `GpaRoundTripIff` and `HvaRoundTripIff` for overlaps, `HugeConsistentMissesGap`, `HugeConsistentLinear` and
  `SolidIff` for gaps, `HugeLeafExact` for alignment, `SharedBlockLosesLeaf` and `LostIff` for shared blocks.
- The host replaces or removes a present page only between the return of a covering start callback and its end, and
  the clear of that start was total (`StartIff` says exactly when it is, `StraddleHappens` that it need not be).  It
  may map an absent page, or make one writable, at any time.  A page reported as a mapped transparent huge page lies in
  a 2M-aligned host block mapped to 512 frames from an aligned head, all with the same rights.
- At most one thread runs a given vcpu, and in the entry machines a vcpu leaves the table only between launches; for
  release by ioctl the code does not see to that, and `TakeIff` says what follows.  A CPU takes an IPI only with
  interrupts on, or where the exit path answers it.
- mmu_notifier_unregister returns without waiting for callbacks that are already running, as npt.c:1048-1056 itself
  takes it; `HoldsWithoutRoot` depends on that.
- Host code changes shared MSRs only between sched_out and sched_in; the guest changes MSR_KERNEL_GS_BASE only, by
  SWAPGS.
- CPUID reports at least one ASID.  TLBs start with any contents.

Where code and comment disagree the model follows the code: the comment at ept.c:395-400 says the 2M test only passes
inside a single region, and `HugeConsistentMissesGap` gives regions for which it passes over a hole.

## Model

| member | source | states |
|---|---|---|
| `EndToEnd.GuestsSeeTheHost` | ept.c:811-857 | In every run of VMX vcpus, faults, invalidations and flushes, with the host mapping absent pages and adding write rights at any time: whenever a vcpu executes guest code, every translation cached on its CPU gives the frame the host page table holds at that moment, for writing only where the host may write (raw frames aside), and none is for a page of an invalidation whose start callback has returned |
| `SvmEndToEnd.GuestsSeeTheHost` | npt.c:843-904 | The same on SVM, where a CPU keeps translations of several vcpus and a flush is of one ASID: every translation the running guest can hit is its own and gives the host's present frame, and none is for a page of an invalidation whose start callback has returned |
| `EndToEnd.FillStep` | ept.c:192-227 | A fill on VMX keeps the link between cached translations, open ranges and the host |
| `EndToEnd.FlushStep` | ept.c:811-830 | So does the beginning of the flush of a start callback, which is later than every translation cached then |
| `EndToEnd.CpuStep` | vmx.c:2544-2643 | So does every step of a vcpu or of a flush |
| `EndToEnd.MmuStep` | ept.c:811-857 | So does every step of a fault, an invalidation or the host |
| `EndToEnd.LostOnlyByFlush` | vmx.c:2486-2494 | No step but a flush or a destroy on a CPU takes a cached translation from it |
| `SvmEndToEnd.CpuStep` | svm.c:2319-2400 | Every step of an SVM vcpu, with VMRUN dropping one ASID, all of them or none, keeps the link between cached translations and the host |
| `SvmEndToEnd.FillStep` | svm.c:1818-1942 | So does a fill under the ASID that VMRUN found |
| `SvmEndToEnd.FlushStep` | npt.c:843-865 | So does the beginning of the flush of a start callback |
| `SvmEndToEnd.MmuStep` | npt.c:843-904 | So does every step of a fault, an invalidation or the host |
| `CacheLink.ChangeOutdates` | ept.c:826-829 | When the host replaces or removes a page, every cached translation either agrees with the new table or is older than a flush that has returned |
| `CacheLink.WalkOk` | ept.c:537-608 | A walk that ends in a leaf gives the host's present frame and never touches a range whose leaves are cleared |
| `CacheLink.MoveEntry` | ept.c:811-857 | No step of the notifier protocol leaves a cached translation that is neither right nor outdated, nor one filled in under an invalidation after its flush began |
| `CacheLink.BeginEntry` | ept.c:826-829 | A flush that begins after the clear covers every translation of the range cached until then |
| `CacheLink.Seen` | ept.c:811-857 | A translation that no finished flush is later than gives the host's present frame and is for no page of an invalidation whose start has returned |
| `Notifier.LeavesCoherent` | ept.c:379-393 | In every state of every run each leaf maps its page to the frame and kind the host holds for it now, lets the guest read and execute, and write only where the host may (raw frames aside), and no leaf lies in a range between the return of its start and its end |
| `Notifier.WalksAgree` | ept.c:537-608 | The same for the hardware walk of any radix tree that holds those leaves, with the rights of all levels together: what it finds for a page is the host's frame, of the host's kind, which the guest may read and execute, and write only where the host may (raw frames aside); a page is write-back memory, and dirty only if it may be written to; nothing is found in a range between the return of its start and its end |
| `Notifier.NoMismatch` | ept.c:573-596 | The frame-mismatch warning is unreachable: a 4K leaf that a fault meets has the frame and kind of the pinned page, and a 2M leaf that a 2M install meets has the frame of the compound head |
| `Notifier.StartIff` | ept.c:811-830 | The code's start callback leaves its range empty exactly when no 2M leaf that starts in the range contains the range's end |
| `Notifier.StraddlingLeafGoesStale` | ept.c:749-768 | When such a leaf exists it outlives the start, and any change of the host page at its base makes it stale |
| `Notifier.FaultInstalls` | ept.c:537-608 | A fault on the real table takes one of the install steps of the protocol, and retries exactly when the protocol says so |
| `Notifier.StillCurrent` | ept.c:379-393 | A page that passes mmu_notifier_retry is still the host's page, and no invalidation is open |
| `Notifier.AnyStep` | ept.c:811-857 | Every step keeps the invariant behind LeavesCoherent |
| `Notifier.WideInstall` | ept.c:573-587 | Installing a 2M leaf for a mapped transparent huge page keeps it |
| `Notifier.HostStep` | ept.c:811-857 | Replacing or removing a host page inside a cleared open range keeps it |
| `Notifier.GrowStep` | ept.c:500-523 | So does mapping an absent page, or making one writable, at any time and with no notifier call |
| `NotifierRuns.StraddleHappens` | ept.c:749-768 | A run from the empty table, over one 4M region and a transparent huge page, that ends with a 2M leaf which outlives the start of an invalidation of its first page and is stale once that page is removed |
| `NotifierRuns.RightsIff` | ept.c:340-377 | Over every run: each leaf the guest may write to covers pages the host may write to, in all states, exactly when no write fault mapped a raw frame the host could not write to |
| `NotifierRuns.RightsStep` | ept.c:340-377 | No other step of any thread or of the host breaks that |
| `NotifierRuns.RawWriteHappens` | ept.c:340-377 | A run in which such a fault does happen: ept_follow_pfn takes no notice of the right to write |
| `EptProtocol.Drive` | ept.c:537-857 | The table of ept.c itself over any sequence of faults (read the sequence, pin from the host table, install), starts, ends, page drops and host changes, with views and protocol states determined by the events but for want of memory: for as long as the kernel keeps to its side each event is a step of the notifier protocol, the leaves agree with the host page table and none is in a range under invalidation, and both counters are right at the end, with no assumption on the kinds of pages |
| `EptProtocol.DrivenMoves` | ept.c:537-857 | That holds of every sequence of views that the effects of the operations allow, up to the first event the kernel does not allow |
| `EptProtocol.TableMoves` | ept.c:537-857 | What one operation does to the table is what the protocol does next |
| `EptProtocol.TableCounts` | ept.c:589-598 | Under the protocol every operation keeps the counters: an overwritten leaf is of the same kind, and a table given back holds none |
| `EptProtocol.MovesKeep` | ept.c:811-857 | Every event of the protocol keeps its invariant |
| `Shootdown.NoStaleTranslation` | ept.c:150-190 | Once a flush has returned, and for ever after, no vcpu executes guest code on a CPU holding a translation cached before the call; for any number of flushes and vcpus, with migration, vcpus on the flusher's own CPU or on none, vcpus not yet published, and a failed mask allocation |
| `Shootdown.EpochIsNew` | ept.c:150-158 | The time that separates old from new translations is later than everything cached when the flush starts |
| `Shootdown.KickPair` | ept.c:166-176 | The vcpu a flush leaves behind is not past its last look at the requests, has a clean CPU, or its CPU gets the IPI |
| `Shootdown.AckPair` | ept.c:180-184 | A CPU answers the IPI only when no vcpu is inside the guest there |
| `Shootdown.OwnInside` | vmx.c:2593-2602 | A vcpu that was asked gets past the last look only over a clean CPU |
| `Shootdown.OwnWillFlush` | vmx.c:2486-2494 | A vcpu that was asked keeps its flush due until it has flushed the CPU it enters on, through migration too |
| `Shootdown.AnyStep` | ept.c:150-190 | Every step of every thread keeps the invariant behind NoStaleTranslation |
| `Handshake.KickStops` | vmx.h:160-190 | A vcpu in guest mode that a flush kicks does not get past the look at its mode before it has gone round and set the mode again |
| `Handshake.CheckModeIff` | vmx.c:2593-2602 | That look succeeds exactly when no flush has kicked the vcpu since it set its mode |
| `Handshake.RequestIff` | vmx.c:2486-2494 | The request bit is set exactly when the vcpu was asked since it last took the bit |
| `Handshake.LooksSee` | vmx.c:2486-2494 | Each look at the requests passes exactly when it was not |
| `Handshake.MaskIff` | ept.c:150-184 | During the scan the mask is exactly the CPUs on which the flush found a vcpu not outside guest mode, or every other CPU if there is no mask |
| `Handshake.AllAnswer` | ept.c:180-184 | A flush does not return before every CPU it sent the IPI to has answered |
| `Handshake.ModeIsPlace` | vmx.c:2544-2643 | A vcpu is in guest mode, or told to leave it, exactly from the mode change to the exit |
| `Handshake.ModeStays` | vmx.c:2593-2672 | Outside of that its mode is what creation, the ioctl, the exit or the entry given up has left |
| `Handshake.PlaceIff` | vmx.c:2544-2643 | The thread gives the CPU up, is loaded, ready or in the guest exactly after the actions that say so |
| `Handshake.FlushesOwn` | vmx.c:1683-1695 | A flush and a destroy leave no translation on their own CPU, and nothing else takes any away |
| `UpperCache.WalksOwnTables` | ept.c:318-338 | In every run of faults that make tables, invalidations that give them back, flushes and vcpus: whenever a vcpu executes guest code, a directory entry cached on its CPU is the tree's own, or the page it points at is in no table of the tree and the start callback that gave it back has not returned |
| `UpperCache.NewTableIsUnknown` | ept.c:570-583 | When a page comes into the tree, whatever it was before, no running guest has a cached entry that points at it |
| `UpperCache.MakeStep` | ept.c:570-583 | Making a table keeps the invariant behind these, because mmu_notifier_retry lets no fault through while an invalidation is open |
| `UpperCache.GiveBackStep` | ept.c:318-338 | So does giving one back inside a start callback, before its flush |
| `UpperCache.FlushStep` | ept.c:823-829 | So does the beginning of that flush, which covers everything its callback gave back |
| `Residency.ActiveWhereNamed` | vmx.c:807-837 | A VMCS is active on at most one CPU, and that is vcpu->cpu at every moment but the one between VMPTRLD and the write of vcpu->cpu |
| `Residency.LoadsAreLegal` | vmx.c:797-837 | VMPTRLD is only done to a VMCS active nowhere else, VMCLEAR only where it is active, and the WARN_ON of the helper never fires |
| `Residency.LocalIsCurrent` | vmx.c:807-837 | vmx_local_vcpu on c names v only while v is being loaded there or its VMCS is current there and vcpu->cpu is c |
| `Residency.EntersRight` | vmx.c:2593-2641 | At every VM entry the vcpu's own VMCS is current on its CPU, and VMLAUNCH or VMRESUME is chosen as the launch state demands |
| `Residency.NoDangling` | vmx.c:1683-1695 | After destroy no per-CPU pointer names the vcpu and its VMCS is active and current nowhere |
| `Residency.AnyStep` | vmx.c:797-837 | Every step of load, migration, NMI handling, entry, exit and destroy keeps the invariant behind these |
| `Residency.AfterOk` | vmx.c:2544-2643 | The fields of one vcpu stay consistent under every action of its thread |
| `SvmFlush.NoStaleHit` | npt.c:180-220 | Once npt_flush_remote_tlbs has returned, and for ever after, no guest hits a translation cached before the call, nor one that another vcpu cached; the flush of one ASID at the next VMRUN is enough, for any number of flushes and vcpus, with migration, exhausted ASIDs, vcpus on the flusher's own CPU or on none, a request that comes between the last look and VMRUN, and a failed mask allocation |
| `SvmFlush.EpochIsNew` | npt.c:180-190 | The time that separates old from new translations is later than everything cached when the flush starts |
| `SvmFlush.KickPair` | npt.c:196-208 | The vcpu a flush leaves behind is not past its last look at the requests, has nothing old or a flush set, or its CPU gets the IPI |
| `SvmFlush.AckPair` | npt.c:211-214 | A CPU answers the IPI only when no vcpu is inside the guest there |
| `SvmFlush.RunFresh` | svm.c:1826-1830 | VMRUN leaves nothing old under the vcpu's ASID if a flush was set or there was nothing old before, also when it gives out a new ASID or starts a generation |
| `SvmFlush.OwnWill` | svm.c:2293-2304 | A vcpu that was asked keeps its flush due through processing, aborted entries and migration |
| `SvmFlush.OwnInside` | svm.c:2364-2373 | A vcpu that was asked gets past the last look only with nothing old or a flush set |
| `SvmFlush.AnyFlushStep` | npt.c:180-220 | Every step of every thread keeps the invariant behind NoStaleHit |
| `SvmRuns.KickStops` | svm.h:144-157 | A vcpu in guest mode that a flush kicks does not get past the look at its mode before it has gone round and set the mode again |
| `SvmRuns.CheckModeIff` | svm.c:2364-2373 | That look succeeds exactly when no flush has kicked the vcpu since it set its mode |
| `SvmRuns.RequestIff` | svm.h:128-149 | The request bit is set exactly when a flush has asked since the vcpu last took the bit |
| `SvmRuns.LooksSee` | svm.c:2293-2304 | Each look at the requests passes exactly when it was not |
| `SvmRuns.MaskIff` | npt.c:180-214 | During the scan the mask is exactly the CPUs on which the flush found a vcpu not outside guest mode, or every other CPU if there is no mask |
| `SvmRuns.AllAnswer` | npt.c:210-214 | A flush does not return before every CPU it sent the IPI to has answered |
| `SvmRuns.ModeIsPlace` | svm.c:2364-2399 | A vcpu is in guest mode, or told to leave it, exactly from the mode change to the exit |
| `SvmRuns.ModeStays` | svm.c:2364-2399 | Outside of that its mode is what creation, the ioctl, the exit or the entry given up has left |
| `SvmRuns.PlaceIff` | svm.c:2319-2400 | The thread gives the CPU up, is loaded, ready or in the guest exactly after the actions that say so |
| `SvmRuns.AsidKept` | svm.c:1694-1695 | A VMRUN of a vcpu of the CPU's present generation leaves its ASID and generation, the flush that is set and the CPU's data as they were |
| `SvmRuns.AsidGiven` | svm.c:1704-1705 | Another gets the CPU's next ASID while there is one |
| `SvmRuns.GenerationIff` | svm.c:1697-1702 | A CPU starts a generation exactly when a vcpu needs an ASID and none is left; it then gives out its first, and the TLB is empty after VMRUN |
| `SvmRuns.RunKeeps` | svm.c:1823-1830 | Otherwise VMRUN drops exactly the translations of its own ASID if a flush is set, and none if not |
| `SvmRuns.RunFinds` | svm.c:1176-1200 | What VMRUN finds after the host's last change of the VMCB: the intercept set or clear, V_IRQ with top priority, vector 0 and its intercept or neither of them, nothing else changed, and the CR2 the vcpu had |
| `SvmRuns.CleanSince` | svm.c:1938-1940 | From an exit until the host changes the VMCB or the vcpu moves, exactly the interrupt group and CR2 are dirty, and a flush is set exactly when one was asked for |
| `SvmEntry.NoForeignHit` | svm.c:1690-1706 | No guest hits a translation filled by another vcpu, whatever the TLBs held at the start |
| `SvmEntry.NewAsidIsUnused` | svm.c:1690-1706 | A VMRUN that gives the vcpu a new ASID finds no translation at all under it |
| `SvmEntry.EffectiveState` | svm.c:204-244 | Whenever a guest runs, the state VMRUN found is the VMCB in memory, although the CPU may use its own copy of every group marked clean |
| `SvmEntry.LiveAsids` | svm.c:1748-1754 | Vcpus of a CPU's present generation have different ASIDs, all at least min_asid, and at most max_asid exactly when min_asid <= max_asid |
| `SvmEntry.AtRun` | svm.c:1823-1830 | At VMRUN the ASID in effect is the vcpu's own, of the CPU's present generation, and no other live vcpu's |
| `SvmEntry.RunHits` | svm.c:1690-1706 | What TLB_CONTROL leaves under that ASID is the vcpu's own, and nothing if a flush was set or the ASID is new |
| `SvmEntry.EffectiveIsMemory` | svm.h:28-46 | VMRUN works with memory exactly when every group it takes from the CPU's copy is the same there |
| `SvmEntry.DirtyKeeps` | svm.c:204-244 | Marking a group dirty as it changes keeps the clean groups right |
| `SvmEntry.VintrClean` | svm.c:1176-1200 | So do both V_IRQ changes |
| `SvmEntry.ExitSlot` | svm.c:1938-1940 | After VMRUN every group marked clean is in the CPU's copy as in memory |
| `SvmEntry.AnyStep` | svm.c:2319-2400 | Every load, intercept change, request, entry, exit, eviction and flush step keeps the invariant behind these |
| `SvmHost.Host.Drive` | svm.c:2319-2400 | The objects, from boot on and over any run, end as the run does, so that all of the above holds of them; in particular vcpus that share a CPU and its present generation have different ASIDs |
| `SvmHost.Host.Act` | svm.c:1818-1942 | One action of a thread changes the data of its vcpu and, at VMRUN, of its CPU as the run says, and nothing else |
| `SvmHost.Do` | svm.c:204-244 | Loading, intercept and V_IRQ changes, setting TLB_CONTROL and the epilogue, each on the vcpu's object, are those actions of the run |
| `SvmHost.Host.constructor` | svm.c:1748-1754 | After svm_cpu_init on every CPU the objects are a start state of the runs |
| `SvmHost.BootedIsInit` | svm.c:1748-1754 | Whatever CPUID returns (at least one ASID), the allocators start exhausted in generation 1, which is where all runs begin |
| `SvmHost.GuestAsids` | svm.c:1748-1754 | From boot on, a running guest has an ASID of at least 1 and above those SEV keeps, and below the number CPUID gives exactly when SEV leaves any |
| `SvmVmcb.SvmVcpu.UpdateAsid` | svm.c:1690-1706 | The allocator of a run, in place: AsidKept, AsidGiven and GenerationIff say what it does |
| `SvmVmcb.SvmVcpu.BeforeRun` | svm.c:1823-1830 | The VMCB that VMRUN gets holds the vcpu's ASID, with its group dirty if that is new; AtRun and RunHits prove what follows |
| `MsrSwitch.LazyIsEager` | vmx.c:2604-2665 | Over all runs: each entry finds every shared MSR at its guest value, each time the thread gives up the CPU the MSRs are what they were when it got it, and the tables never differ from those of switching everything every time |
| `MsrSwitch.WriteIsSeen` | vmx.c:2334-2354 | What the guest wrote to an MSR is in the hardware at its next entry |
| `MsrSwitch.GuestSeesItsOwn` | vmx.c:2604-2665 | An entry finds every MSR as the guest left it at its last exit, but for what it has asked to be written since |
| `MsrSwitch.ExitLeaves` | vmx.c:2648-2665 | After an exit the host finds its own values everywhere, but after a VMCALL, an EPT violation or an external interrupt the guest's in all but MSR_EFER and MSR_KERNEL_GS_BASE |
| `MsrSwitch.EnterStep` | vmx.c:2604-2637 | An entry puts the guest's values in, although after short exits it writes two MSRs only and skips equal ones |
| `MsrSwitch.ExitStep` | vmx.c:2648-2665 | An exit keeps the lazy and the eager thread related |
| `MsrSwitch.OutStep` | vmx.c:893-903 | sched_out gives the CPU back as it was |
| `MsrSwitch.InStep` | vmx.c:878-890 | sched_in saves what the CPU holds |
| `MsrSwitch.Drive` | vmx.c:2604-2665 | The code run over any events ends as the lazy machine does, with the tables of eager switching over the same events; in the guest and away from the CPU the hardware is that of eager switching, and a thread that is away has left the CPU as it found it |
| `MsrSwitch.EnterGuest` | vmx.c:2604-2637 | All shared MSRs after a sched_in or a full exit, two after a short exit; EnterStep proves that is enough |
| `MsrSwitch.ExitGuest` | vmx.c:2648-2665 | The swapped base is saved; two MSRs go back after a short exit, else all; ExitStep proves that is enough |
| `MsrSwitch.SchedIn` | vmx.c:1697-1715 | The host table takes what the new CPU holds, and the next entry is a full one |
| `MsrTable.Vcpu.constructor` | vmx.c:1369-1401 | Whatever set of MSRs the CPU has, exactly the shared ones among them are tracked, with the boot values on both sides |
| `MsrTable.Vcpu.SetupMsr` | vmx.c:1290-1329 | Every kept index points at its MSR, for every set of MSRs, although it is noted before the entry moves |
| `MsrTable.LastMoves` | vmx.c:1319-1326 | Only MSR_PLATFORM_INFO moves, and only past MSR_MISC_FEATURES_ENABLES |
| `MsrTable.OnlyPlace` | vmx.c:108-113 | A shared MSR is at its place in the table and nowhere else, or the CPU does not have it |
| `MsrTable.Vcpu.FindMsrIndex` | vmx.c:333-342 | The index of the MSR, or that it is not there |
| `MsrTable.Vcpu.MoveMsrUp` | vmx.c:355-366 | Both tables swap the same two rows |
| `MsrTable.Vcpu.LoadHostMsrs` | vmx.c:434-445 | All shared MSRs that differ go back to the host, if the guest's were loaded |
| `MsrTable.Vcpu.LoadGuestMsrs` | vmx.c:461-469 | All shared MSRs that differ go to the guest |
| `MsrTable.Vcpu.LoadHostMsr` | vmx.c:420-432 | One MSR goes back, unless both values are equal |
| `MsrTable.Vcpu.LoadGuestMsr` | vmx.c:447-459 | One MSR goes in, unless both values are equal |
| `MsrTable.Vcpu.SaveHostMsrs` | vmx.c:482-499 | The host table takes the hardware's values |
| `MsrTable.Vcpu.SaveGuestMsr` | vmx.c:471-480 | One guest value is taken from the hardware |
| `MsrTable.Vcpu.HandleMsrWrite` | vmx.c:2334-2354 | The written value is the MSR's guest value after it and nothing else changes; a tracked MSR is always found |
| `Lifecycle.SyncedIsQuiet` | instance.c:145-161 | After shutdown and sync every listed vcpu is outside, none is in launch unless it was taken out of the table while it was, none can enter, and it stays so |
| `Lifecycle.TakeIff` | vcpu.c:65-81 | A release can destroy its vcpu in launch, in some continuation, exactly when the vcpu's mode was not OUTSIDE_ROOT_MODE as it left the table |
| `Lifecycle.RunningDestroyed` | core.c:104-122 | And that does happen: a run from the start in which SLIMVM_RELEASE_VCPU takes out a vcpu that is in the guest, and may destroy it there |
| `Lifecycle.ReleaseAfterSync` | instance.c:145-161 | What instance_release takes out after its sync is never destroyed in launch |
| `Lifecycle.StaysOut` | vcpu.c:65-81 | A vcpu that was outside when it was taken stays outside on every path |
| `Lifecycle.AtMostOneMore` | vmx.c:212-219 | Once its own shutdown flag is set, or the instance's, no two entries of a vcpu into the guest follow in any run |
| `Lifecycle.FlagIff` | vmx.c:909-930 | A vcpu's flag is set exactly when shutdown_all_vcpus has found it in the table |
| `Lifecycle.InstanceFlagIff` | vmx.c:930-940 | The instance's flag is set exactly when its step has come |
| `Lifecycle.EntersIff` | vmx.c:212-219 | From the top of the loop a vcpu gets into the guest by looking at both flags exactly when neither is set |
| `Lifecycle.PlaceIff` | vmx.c:2756-2768 | Its thread leaves the loop exactly when it sees a flag, is stopped or is done, and goes round exactly when sent round or back from the guest with no flag |
| `Lifecycle.OthersLeave` | core.c:42-67 | Nothing else moves it, but slimvm_enter that puts it at the top |
| `Lifecycle.ReleaseIff` | instance.c:145-161 | Flagging and sync can be carried through from every state, and the sync waits exactly for the listed vcpus to be outside |
| `Lifecycle.NumbersUnique` | vcpu.c:12-63 | Two vcpus that are listed or being created never share a number, and its bit is set |
| `Lifecycle.ClaimsLowest` | vcpu.c:12-28 | The number a creation claims is the lowest that is free |
| `Lifecycle.BitsCount` | vcpu.c:12-63 | The set bits are exactly the listed vcpus and the numbers claimed in creation, failing ones included, and as many |
| `Lifecycle.DestroyedOnce` | vcpu.c:65-81 | No two steps of a run destroy the same vcpu, and none destroys one that is in the table |
| `Lifecycle.AnyStep` | vmx.c:909-968 | Every interleaved step of creation, release, entry, shutdown and sync keeps the invariant behind these |
| `Lifecycle.AfterOk` | vmx.c:2756-2768 | Every turn of the launch loop keeps a vcpu outside launch unless it is in the table or was taken out of it while running |
| `VcpuTable.Instance.AllocateVcpuNo` | vcpu.c:12-28 | The lowest free number is claimed, or there is none |
| `VcpuTable.Instance.FreeVcpuNo` | vcpu.c:30-36 | The number's bit is cleared and no other |
| `VcpuTable.Instance.Alloc` | vcpu.c:38-63 | A vcpu is listed under the lowest free number; a failure leaves nothing behind |
| `VcpuTable.Instance.Release` | vcpu.c:65-81 | The vcpu leaves the table and gives its number back; an empty slot is left alone |
| `VcpuTable.Instance.AllocThenRelease` | vcpu.c:38-81 | Releasing what was allocated restores the bitmap and the table |
| `NptClear.Npt.ClearPageTable` | npt.c:729-789 | With the lock given up the pass ends as an uninterrupted one, less what was cleared in the windows; its pauses are exactly the 1G boundaries inside the range, in turn, with at most 2^18 turns between any two; it stops early only when a window took the root; entered without a root it walks page 0 exactly when a page of a region comes before the first boundary |
| `NptClear.Npt.RangeStart` | npt.c:843-865 | The same for both passes of the callback: with the root there and left there, the clear that never gives up the lock, less the windows; the root is there at the end exactly when it was at the start and every window kept it; entered without it, exactly when page 0 is walked |
| `NptClear.StretchBound` | npt.c:780-787 | The longest stretch of the log bounds every stretch of turns with no pause in it |
| `NptClear.WindowsLeaveNothing` | npt.c:729-789 | Where the uninterrupted clear leaves nothing in the range, neither does this one |
| `NptProtocol.StartWithWindows` | npt.c:729-789 | Whatever other threads do between its turns, a start callback is Begin, a Sweep for each turn and one for the second pass; it leaves what the uninterrupted clear leaves less what the others removed, and is then Swept exactly when they have removed every 2M leaf that starts in the range and contains its end |
| `NptProtocol.OthersRemove` | npt.c:408-422 | While the invalidation is open, no step of any other thread adds a leaf or ends it |
| `NptClear.Npt.Window` | npt.c:408-422 | While a callback is open nothing is added in a window, since every fault retries; each start raises the count, each end lowers it and raises the sequence; the root is left exactly when no event of the window zeroes it |
| `NptClear.Npt.SetNpte` | npt.c:533-604 | A leaf goes in only if no invalidation is open, none has ended since the fault began, no 2M leaf is in the way of a 4K one and there is memory for the directories; it is a 2M leaf exactly for a huge page in a block that passes the 2M test and has no 4K table |
| `NptClear.Npt.ClearPageDirectory` | npt.c:814-841 | The second pass, skipped without a root |
| `NptClear.PdpeEnd` | npt.c:722-727 | The next 1G boundary or the end, also where the boundary wraps |
| `NptClear.StaysInGig` | npt.c:757-780 | The cursor never steps over a 1G boundary |
| `NptClear.CursorLess` | npt.c:780-787 | Removing leaves in a window and going on gives what the pass gives without them |
| `NptTeardown.NoneInsideWhenFreed` | npt.c:1037-1060 | When the tables are freed, and ever after, no callback is between its get and its put |
| `NptTeardown.ResumedHasRoot` | npt.c:780-787 | A callback that goes on after a pause holds the lock with the root still there |
| `NptTeardown.RootIff` | npt.c:843-865 | For as long as a callback holds the lock since its first acquire, the root is there exactly when it was not zeroed between its npt_mmu_get and that acquire |
| `NptTeardown.PausedComesBack` | npt.c:780-787 | Whenever a callback that gave the lock up holds it again, it has looked at the root since, and the root is there |
| `NptTeardown.ResumeIff` | npt.c:780-787 | After a pause it goes on exactly when the root is there, and else gives up |
| `NptTeardown.FreeIff` | npt.c:1053-1059 | The tables can be freed exactly when the root is zeroed and no callback is inside |
| `NptTeardown.HoldsWithoutRoot` | npt.c:1037-1060 | And it can be zeroed there: get, unregister, zero the root, acquire is a run |
| `NptTeardown.AnyStep` | npt.c:160-168 | npt_mmu_users counts the callbacks inside |
| `EptRun.Run` | ept.c:537-857 | Over any run of faults, invalidations and page drops the tree keeps its shape, every table page is in the tree once or free once, each operation does exactly what Effect says, want of memory left open, and both page counters count the leaves if each operation meets Counts |
| `EptRun.RunAndFree` | ept.c:241-306 | After any run teardown gives every table page back, each once |
| `EptRun.OneOp` | ept.c:616-857 | One operation does exactly that: a fault that is not stopped by a pin error or a retry installs the one leaf of the right size, unless a directory is missing and memory has run out or a 2M leaf is in the way of a 4K one; a start clears its range and gives back the tables of whole blocks; a page drop removes one leaf and bumps the sequence if there is a leaf or a table.  The counters stay right exactly when Counts holds |
| `EptRun.Violation` | ept.c:616-632 | The fault among these |
| `EptRun.ConsistentIsLine` | ept.c:401-413 | A block that passes the 2M test is mapped page by page in a straight line |
| `EptRun.SolidIff` | ept.c:395-413 | For regions of at least 2M, every block that passes the 2M test is a straight line exactly when none of them has a gap |
| `EptRun.SharedBlockLosesLeaf` | ept.c:318-338 | Two regions in one guest block: an invalidation of the first gives back the shared 4K table with a leaf of the other, outside the range, that stays counted |
| `Ept.Table.constructor` | ept.c:940-952 | An empty table: one root page, no leaf |
| `Ept.Table.LookupGpa` | ept.c:192-227 | A creating lookup changes no translation, even when it fails midway; what it finds is the slot of the page; it fails only for want of memory |
| `Ept.Table.LookupHva` | ept.c:229-239 | The same from a host address, and EINVAL exactly outside the regions |
| `Ept.Table.SetEpte` | ept.c:537-608 | Retries exactly when an invalidation is open or has ended since; else installs one leaf of the right size and nothing else, or gives up on a 2M leaf met by a 4K fault or for want of memory; the leaf is readable and executable, writable after a write fault, write-back or of the raw frame's type, with A and D set as the fault and the CPU have it; the counters stay right exactly when an overwritten 4K leaf is of the same kind |
| `Ept.MadeLeaf` | ept.c:117-140 | The entry a fault builds lets the guest read and execute, and write after a write fault, with the memory type, A, D and kind its page calls for, and the compound head's frame under a 2M leaf |
| `Ept.Table.MappingLevel` | ept.c:415-428 | 2M exactly when the block passes the test and has no 4K table |
| `Ept.Table.InvalidatePage` | ept.c:642-673 | Drops the one leaf over the host page and nothing else, and makes running faults retry exactly when a 2M leaf or a 4K table is there |
| `Ept.Table.ClearPageTable` | ept.c:737-779 | The first pass is Pass1 on the leaves, and keeps the counters |
| `Ept.Table.ClearPageDirectory` | ept.c:781-809 | The second pass is Pass2 on the leaves; the counters stay right exactly when no table it gives back holds a counted leaf |
| `Ept.Table.ClearDir` | ept.c:318-338 | Drops the 2M leaf or the whole 4K table of a block and gives the table page back |
| `Ept.Table.RangeStart` | ept.c:811-830 | Both passes, with the count raised; the counters stay right exactly under NoneLost, which one region per block gives |
| `Ept.Table.RangeEnd` | ept.c:842-857 | The sequence goes up and the count down |
| `Ept.Table.FreeEpt` | ept.c:290-306 | Every page of the tree is given back exactly once, none is outstanding |
| `Ept.Table.FreePudRange` | ept.c:274-288 | The same for the pages below one root entry |
| `Ept.Table.FreePmdRange` | ept.c:253-272 | The same for the pages below one upper directory |
| `Ept.Table.Unmap` | ept.c:308-316 | Removes the leaf in the slot and keeps the counters |
| `Ept.Table.WriteEntry` | ept.c:589-598 | An install through the slot changes only that page or block; the counters stay right exactly when an overwritten 4K leaf is of the same kind |
| `Ept.LostIff` | ept.c:318-338 | The second pass changes the number of counted 4K leaves exactly when a table it gives back holds one |
| `EptFlat.ClearedExactly` | ept.c:737-809 | The two passes remove exactly the 4K leaves in the range and the 2M leaves that meet it, except one that starts in the range and contains its end |
| `EptFlat.ClearTotalIff` | ept.c:749-768 | Nothing of the range is left exactly when no 2M leaf that starts in it contains its end |
| `EptFlat.DroppedTableInRange` | ept.c:781-809 | A table the second pass gives back holds only pages of the range |
| `EptClear.DroppedTablesEmpty` | ept.c:318-338 | With one region per block the second pass gives back only tables the first has emptied |
| `EptClear.StepAny` | ept.c:749-778 | One turn of the first loop, for any leaf over the cursor |
| `EptClear.DirStep` | ept.c:797-808 | One turn of the second loop |
| `EptWalk.WalkIsFlat` | ept.c:192-227 | The four-level walk (section 28.2.2 of the Intel SDM, volume 3C), rights of all levels together, of a well-shaped tree is a look-up in the flat map of leaves, for every page: no directory takes a right away |
| `EptWalk.DistinctSlots` | ept.c:192-227 | Two pages share a slot only if one 2M leaf covers both |
| `EptWalk.LeavesExclusive` | ept.c:573-598 | No page has a 4K leaf and a 2M leaf over it |
| `EptWalk.PutSmallAbs` | ept.c:589-598 | Writing a 4K slot changes one page of the flat map |
| `EptWalk.PutHugeAbs` | ept.c:589-598 | Writing a directory slot changes one block |
| `EptWalk.AddAbs` | ept.c:201-212 | A new directory page changes no translation |
| `EptWalk.DropAbs` | ept.c:318-338 | Giving a 4K table back removes the pages of its block |
| `EptWalk.IdxIsSlot` | ept.c:144-145 | The shift-and-mask index is the digit of the page number in base 512 |
| `EptTree.AddTree` | ept.c:192-227 | A new directory page keeps the tree shape |
| `EptTree.DropTree` | ept.c:318-338 | So does giving a 4K table back |
| `EptTree.PutLeaf` | ept.c:589-598 | So does writing a leaf |
| `Regions.CheckMemRegion` | mm.c:23-43 | Accepts exactly page-aligned regions whose guest end does not wrap |
| `Regions.HvaToGpa` | mm.c:45-61 | The address in the first region that has it, or the sentinel if none does |
| `Regions.GpaToHva` | mm.c:63-79 | The same for guest addresses |
| `Regions.GpaRoundTrip` | mm.c:45-79 | For disjoint regions every mapped guest address comes back, and is never the sentinel |
| `Regions.HvaRoundTrip` | mm.c:45-79 | The same for host addresses |
| `Regions.OverlapBreaksRoundTrip` | mm.c:23-79 | Two regions that pass the check and share host addresses, and a guest address that does not come back |
| `Regions.GpaRoundTripIff` | mm.c:45-79 | Every mapped guest address comes back exactly when no two regions share a host address |
| `Regions.HvaRoundTripIff` | mm.c:45-79 | Every mapped host address comes back exactly when no two regions share a guest address |
| `Regions.HugeConsistentLinear` | ept.c:401-413 | For regions of at least 2M, a block that passes the endpoint test is linear exactly when it has no gap |
| `Regions.StraightIff` | ept.c:401-413 | For every address of a straight 2M block the test passes exactly when the line goes on to the next boundary |
| `Regions.HugeConsistentMissesGap` | ept.c:395-413 | The test alone does not put the block in one region: blocks with a hole pass it |
| `Regions.HugeLeafExact` | ept.c:573-587 | A 2M leaf gives the 512 frames that 4K leaves would exactly when the host block is 2M-aligned too |

## Left out

- Notifier.Swept: a start callback counts as returned only once its range is empty, because host pages that change
  under a surviving 2M leaf do go stale; `StartIff`, `StraddlingLeafGoesStale` and `StraddleHappens` give the exact
  condition and a run.
- NptClear.Npt: works on the flat map of leaves, because the tree of npt.c is that of ept.c; its page counters and its
  free loop are not modelled.
- NptClear.Npt.SetNpte: whether the block has a 4K table, and whether an allocation fails, are parameters, because this
  class has leaves and no tree.
- Table pages that ept_clear_dir gives back are with the kernel's allocator before the flush; what the kernel does with
  them until then is not modelled, nor are cached directory entries on SVM.
- The forced release of an instance without sync.
- Wrap-around of mmu_notifier_seq, of the ASID generation and of 32-bit ASIDs beyond what CPUID can report.
- x86-TSO reordering; walks and fills that are not atomic.
- What the processor does with accessed and dirty bits and memory types; young and change_pte callbacks.
- Reference counts of host pages and how a page is pinned: the result of pinning is a parameter.
- XCR0 switching, bounce and NMI delivery, interrupt windows, the IPIs of kick and shutdown.
- Syscall dispatch, fork, exit and signal handling, debugging, seccomp evaluation.
- Field encodings, inline assembly, register copying and dumps, MSR bitmap and VMX control setup: these are fixed
  constants and straight-line copies that no run of the protocols above depends on.
- Failure paths of instance and vcpu creation beyond giving the number back, reclaim of leaked instances, sysctl and
  proc output, module setup.
