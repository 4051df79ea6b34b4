# NexusVM: a verified model of the hypervisor's software core

NexusVM is a hypervisor in C. This project models the parts of it whose correctness does not
depend on hardware, and proves what they promise over all inputs and all runs.

| file | what it models |
|---|---|
| `Common.dfy` | integer ranges, the option type and removal from a sequence, shared by the others |
| `Ept.dfy` | the four-level extended page table, range mapping and address translation |
| `Scheduler.dfy` | vCPU selection, virtual time, fairness and starvation on CPU 0, on the linked run queue |
| `FifoScheduling.dfy` | who comes back, and who never does, when vCPUs are selected by deadline |
| `LoadBalance.dfy` | one load-balancing call, its potential, and repeated rounds |
| `ConcurrentBalance.dfy` | any number of concurrent load-balancing callers at lock granularity |
| `IntrusiveList.dfy` | the circular list macros on heap nodes |
| `Migration.dfy` | dirty bitmap, pre-copy, stop-and-copy |
| `Lifecycle.dfy` | VM states, vCPU flags and run queue membership |
| `VmList.dfy` | the linked list of VMs and its identifiers |
| `Crc32.dfy`, `Folds.dfy` | the table-driven CRC-32 and the algebra behind it |
| `MemMove.dfy` | the overlap-safe copy |

Each stateful component has a class or heap methods in the shape of the C code, proved equal to a
function on values; the results over whole runs are lemmas about those functions.

## How the C code is read

- Page tables: physical memory is one map from frame number to a table of 512 entries, shared by all
  VMs, so entries may alias. Entries are records; the C bit-fields add up to more than 64 bits and
  their layout is not modelled. Shifts are 64-bit. A table page is named by its frame number and
  frame 0 is the null pointer. The page allocator is the list of frames it will return, all below
  2^40, distinct and unused. `(frame << 12) | offset` is written as a sum, since the two have no bit
  in common.
- Scheduler: `SCHED_TICK_NS * 1024` is taken in 64 bits (as C `int` it overflows). Virtual time wraps
  at 2^64. Nothing in the code writes `rq->current`; `Schedule` leaves it alone and the driver of a
  run stores what is returned. What happens without that store is `UnstoredStarves`. The search for
  the vCPU of a chosen entity is the identity, since every queued entity belongs to a live vCPU. On
  an empty queue the code reads the policy of the list head; both selections then return nothing, so
  the model returns nothing.
- Load balancing: counts and the guard are 32-bit; `~0U + 2` wraps to one on a single CPU.
- Migration: each call is one step and a guest write is followed by its tracking call. `NoLostPage` and
  `FlushAgrees` are about a guest that does not write inside stop-and-copy. The code does not enforce
  that, since `vm_pause` refuses a VM in state MIGRATING; `FlushRace` is about the guest that goes on
  writing, with one iteration of the copy loop as a step. Page versions stand at the places
  where the code says a page would be copied. Counters other than the bitmap are unbounded.
- Life cycle: set-up of a vCPU, and the allocations of `vm_create`, succeed or fail as an input says.
  A node linked twice is an entity that occurs twice in the queues; on the heap this corrupts the
  list (`IntrusiveList.AddTailAgain`). Removing an entity that no queue links leaves the queues alone;
  on the heap that is so exactly while its old neighbours are still adjacent (`IntrusiveList.DelAgain`).

## Properties that fail as one would first state them

- Fairness is lost when a 64-bit virtual time wraps: `Scheduler.FairThroughoutIff` gives the exact
  condition for a run, `Scheduler.CallFairIff` for a call, and `Scheduler.WrapLosesFairness` a run of
  two default vCPUs, from zero, that gets there.
- A vCPU that joins starts at virtual time zero. All runs after the join are fair exactly if nobody was
  more than a step beyond the slice and the vCPU on the CPU was not beyond it: `Scheduler.JoinFairIff`.
  `Scheduler.JoinUnfair` reaches a join that is unfair at once, and one that is unfair a call later.
- Selection by deadline starves. Among FIFO and round-robin vCPUs, one that is off the CPU comes back
  exactly if no FIFO vCPU has a deadline below ~0 or it holds the least one itself:
  `FifoScheduling.ComesBackIff`. A new FIFO vCPU has deadline 0, and `FifoScheduling.DefaultFifoStarves`
  is the smallest case.
- Without a store to `current` all entities but one starve for ever: `Scheduler.UnstoredStarves`.
- `vm_start`, `vm_reset` and `vm_destroy` accept a PAUSED VM although its vCPUs are still queued:
  `Lifecycle.QueuesKeptIff` shows that exactly these calls break queue membership, and
  `Lifecycle.StartPausedTwice` is a run that does.
- Load is counted in 32 bits, so "more than two longer" decides a migration only below that range:
  `LoadBalance.MovesCounts` is the decision for every length, `LoadBalance.LongQueueIgnored` a queue of
  2^32 entities that is left alone.
- Stop-and-copy loses a page if the guest writes it after the copy loop has passed it, and only then:
  `Migration.FlushRace`; `Migration.LateWriteLost` is such a run.
- `vm_ept_map` does not map every range as asked. It ignores that the two page offsets may differ,
  counts pages from the size alone, so that a range that starts inside a page may end beyond the last
  mapped page, and cuts guest addresses to 48 bits and host addresses to 52. `Ept.FreshRangeCorrectIff`
  gives the exact condition for a range not mapped before, `Ept.RangeCorrectIff` for any earlier
  contents, both for every address and size; `Ept.RangeCounterexamples` has an input for each failure
  of a short range, and `Ept.HugeRangeIgnored` the sizes for which nothing is mapped at all.
- VM identifiers repeat after the 32-bit counter comes round: `VmList.IdentifierRepeats` is such a run
  from the empty list, and `VmList.RunUniqueIff` the exact condition for runs of any length.

## Model

| member | source | states |
|---|---|---|
| `Ept.PathIsPageNumber` | src/hypervisor/mmu/ept.c:14-17 | two guest addresses have the same four table indices exactly when they agree on bits 47:12 |
| `Ept.WalkTables` | src/hypervisor/mmu/ept.c:236-282 | under the kept invariant a successful walk reaches, by present entries, a table page whose recorded place is the root and the indices walked |
| `Ept.LeafUnshared` | src/hypervisor/mmu/ept.c:118-168 | no sharing: if the leaf pages that two walks read are one page and one slot, the walks started at the same root and the same page number |
| `Ept.WriteMisses` | src/hypervisor/mmu/ept.c:202-207 | writing a leaf slot leaves every walk to another slot, in this VM or another, unchanged |
| `Ept.EnsureChildInv` | src/hypervisor/mmu/ept.c:118-168 | allocating a level keeps the ownership invariant, keeps all places and present entries, and links the slot to an empty page of its own by a present, writable, write-back entry |
| `Ept.EnsureChildWalk` | src/hypervisor/mmu/ept.c:179-200 | allocating a level changes the result of no walk |
| `Ept.GrowCorrect` | src/hypervisor/mmu/ept.c:176-204 | after the three allocation steps the upper entries lead from the root to the leaf table of the address, and nothing visible has changed |
| `Ept.DescendMissing` | src/hypervisor/mmu/ept.c:118-168 | a level is allocated exactly when it is missing, so free pages less missing levels stay constant on the way down |
| `Ept.LeafWriteHits` | src/hypervisor/mmu/ept.c:202-207 | after the leaf write a lookup of the address finds the entry if it is present and nothing otherwise |
| `Ept.MapEntryRefines` | src/hypervisor/mmu/ept.c:170-210 | with exactly as many free pages as levels are missing, ept_map updates a plain map from page number to entry: exactly that page of that VM changes, and one page is used for each missing level |
| `Ept.ClearWalk` | src/hypervisor/mmu/ept.c:79-84 | clearing one root changes no lookup under another root |
| `Ept.StepRefines` | src/hypervisor/mmu/ept.c:60-210 | every call (new root, map, clear) keeps the invariant and has its one-page effect on every lookup |
| `Ept.RunRefines` | src/hypervisor/mmu/ept.c:170-282 | after any run of calls a lookup returns what the last call that touched the page left there, read off the history backwards |
| `Ept.FreshRootRun` | src/hypervisor/mmu/ept.c:60-84 | from a fresh root a lookup returns exactly the last present entry mapped since the last clear, and nothing otherwise |
| `Ept.RangeAllowed` | src/hypervisor/hypervisor.c:671-690 | three table pages for each mapped page are always enough, and the invariant holds after the range |
| `Ept.RangeHistory` | src/hypervisor/hypervisor.c:671-690 | the calls of a range of at most 2^36 pages leave exactly the covered pages mapped, in order, going round at 2^48 on the guest side and at 2^52 on the host side |
| `Ept.RangeTranslates` | src/hypervisor/hypervisor.c:663-693 | after a range mapping each covered address translates page by page in 48 and 52 bits, and every other address, in every VM, translates as before |
| `Ept.RangeEntry` | src/hypervisor/hypervisor.c:676-684 | the entry of a covered page is present, of memory type 6, writable if and only if write was asked for, has the executable bit set if and only if execution was not, and holds the low 40 bits of its frame number |
| `Ept.RangeByte` | src/hypervisor/hypervisor.c:671-690 | after a range mapping byte k is mapped as asked if and only if its page was counted, the page offsets agree and its host address is below 2^52, or its page was not counted and it was so mapped before |
| `Ept.RangeCorrectIff` | src/hypervisor/hypervisor.c:663-693 | for every size the whole range is mapped as asked if and only if it spans at most 2^48 bytes of pages, the page offsets agree, the host addresses of counted pages are below 2^52 and the bytes beyond the counted pages were so mapped before |
| `Ept.FreshRangeCorrectIff` | src/hypervisor/hypervisor.c:663-693 | for every size a range not mapped before is mapped as asked if and only if the page offsets agree, the counted pages reach its end and both sides have address bits for it |
| `Ept.TooLong` | src/hypervisor/hypervisor.c:671-690 | of two bytes 2^48 apart at most one is ever translated as asked |
| `Ept.HugeRangeIgnored` | src/hypervisor/hypervisor.c:671-674 | the page count wraps to zero exactly for sizes above 2^64 - 4096, and the call then changes nothing |
| `Ept.RangeCounterexamples` | src/hypervisor/hypervisor.c:671-674 | on a new VM: two bytes at 0xFFF leave the second unmapped, one byte from 0 to 1 is mapped to 0, and one byte from 0 to 2^52 is not mapped there |
| `Ept.AlignedRange` | src/hypervisor/hypervisor.c:663-693 | page-aligned ranges translate byte for byte |
| `Ept.PageTables.constructor` | src/hypervisor/mmu/ept.c:86-105 | empty memory satisfies the invariant |
| `Ept.PageTables.AllocPage` | src/hypervisor/mmu/ept.c:86-105 | a page that was in no table before, nonzero and below 2^40, every entry empty, everything else unchanged |
| `Ept.PageTables.AllocRoot` | src/hypervisor/mmu/ept.c:60-70 | a fresh root in the specified state |
| `Ept.PageTables.ClearRoot` | src/hypervisor/mmu/ept.c:79-84 | the specified clear, and nothing for a null root |
| `Ept.PageTables.EnsureTable` | src/hypervisor/mmu/ept.c:118-168 | the child table of a slot, allocated exactly when the slot is absent |
| `Ept.PageTables.EnsureTables` | src/hypervisor/mmu/ept.c:176-200 | the three levels above the leaf in turn, given as many free pages as levels are missing |
| `Ept.PageTables.EptMap` | src/hypervisor/mmu/ept.c:170-210 | the specified mapping in place, given as many free pages as levels are missing; the invariant kept; INVALID_PARAM with no change for a null root |
| `Ept.PageTables.EptLookup` | src/hypervisor/mmu/ept.c:236-282 | OK with the walked entry, NOT_FOUND exactly when the walk finds none, INVALID_PARAM for a null root |
| `Ept.PageTables.EptTranslate` | src/hypervisor/mmu/ept.c:284-304 | the translation of the walked entry, with the same error cases |
| `Ept.PageTables.GpaToHpa` | src/hypervisor/hypervisor.c:711-728 | the same translation as ept_translate, and the invalid address exactly where there is none |
| `Ept.PageTables.VmEptMap` | src/hypervisor/hypervisor.c:663-693 | the whole range mapped as specified, for any size and with 64-bit wrap-around |
| `Scheduler.LeastIsFirst` | src/hypervisor/sched/scheduler.c:155-164 | the scan returns the earliest-queued holder of the least key, and nothing exactly when all keys are ~0 |
| `Scheduler.PickByPolicy` | src/hypervisor/sched/scheduler.c:214-231 | behind a FIFO or RR head the first earliest-deadline FIFO entity is chosen if there is one, otherwise the least vruntime |
| `Scheduler.WithoutIsDel` | src/hypervisor/sched/scheduler.c:279-280 | removal by identity is removal of one position |
| `Scheduler.StepValid` | src/hypervisor/sched/scheduler.c:248-365 | every call keeps each entity queued exactly once |
| `Scheduler.CallMeans` | src/hypervisor/sched/scheduler.c:248-301 | with a current entity a call adds 10 ms and 10240000000 / weight to its two times modulo 2^64, keeps it in place and returns it if and only if its vCPU runs and the sum is below 100000000, and otherwise moves it to the back and selects after that; without one nothing moves |
| `Scheduler.StoppedGoesBack` | src/hypervisor/sched/scheduler.c:271-280 | a current vCPU that was stopped goes to the back and, by virtual time, is returned again only if its virtual time is strictly the least |
| `Scheduler.MovesMeans` | src/hypervisor/sched/scheduler.c:303-335 | yield and wake move one entity to the back and to the front and nothing else changes |
| `Scheduler.SettersMean` | src/hypervisor/sched/scheduler.c:361-365 | a policy change, and a change of the running flag, touch one field of one entity |
| `Scheduler.PriorityMeans` | src/hypervisor/sched/scheduler.c:337-359 | after a priority change the next tick advances virtual time by 2.5, 5, 10 or 20 million for REALTIME, HIGH, NORMAL and LOW, nothing else changes, and a higher priority advances at most half as fast |
| `Scheduler.StepSize` | src/hypervisor/sched/scheduler.c:344-358 | with every weight a priority can give, a tick advances virtual time by between K/4096 and K/512 |
| `Scheduler.PickIsLeast` | src/hypervisor/sched/scheduler.c:151-166 | a selection by virtual time (the head's policy says so, or no FIFO entity has a deadline below ~0) has the least vruntime, and nothing is picked only when all stand at ~0 |
| `Scheduler.TickFair` | src/hypervisor/sched/scheduler.c:264-269 | a tick that does not wrap keeps every pair within one step of each other |
| `Scheduler.CallFair` | src/hypervisor/sched/scheduler.c:248-301 | a call that goes by virtual time and whose tick does not wrap keeps the fairness invariant, and returns nobody only when all stand at ~0 |
| `Scheduler.StepFair` | src/hypervisor/sched/scheduler.c:248-365 | every call (schedule, yield, wake, priority, policy, running flag) keeps the fairness invariant, a schedule call as long as it goes by virtual time and its tick does not wrap |
| `Scheduler.RunFair` | src/hypervisor/sched/scheduler.c:248-365 | on every run in which no tick wraps and calls go by virtual time, for any two entities vruntime(a) <= max(vruntime(b), 100 ms) + K/512 |
| `Scheduler.NoFifoByVruntimes` | src/hypervisor/sched/scheduler.c:214-231 | calls go by virtual time on every run that starts with no FIFO entity that has a deadline below ~0 and makes none FIFO |
| `Scheduler.FairThroughoutIff` | src/hypervisor/sched/scheduler.c:248-365 | a run whose calls go by virtual time is fair at every point if and only if none of its ticks wraps or there is one entity |
| `Scheduler.HeadroomNoWraps` | src/hypervisor/sched/scheduler.c:268-269 | if all calls of a run would fit below 2^64 at the largest step, no tick of it wraps |
| `Scheduler.StepGranular` | src/hypervisor/sched/scheduler.c:264-269 | every call keeps all virtual times multiples of 32 |
| `Scheduler.SomebodyRuns` | src/hypervisor/sched/scheduler.c:151-166 | in a fair state at multiples of 32 a call that goes by virtual time and does not wrap leaves somebody on the CPU |
| `Scheduler.NoStarvation` | src/hypervisor/sched/scheduler.c:248-301 | every entity comes back: the calls that pass it over, counted also from the moment it is preempted, number at most the slack of the others, plus a largest step for each if it was on the CPU, divided by K/4096, whatever else happens in between |
| `Scheduler.FreshFair` | src/hypervisor/sched/scheduler.c:97-112 | entities that have not run are in a fair state, at multiples of 32 |
| `Scheduler.CallFairIff` | src/hypervisor/sched/scheduler.c:268-269 | a call keeps fairness if and only if the tick does not wrap or there is one entity |
| `Scheduler.WrapLosesFairness` | src/hypervisor/sched/scheduler.c:268-269 | two default vCPUs at zero reach, after 2 * 1844674407370 + 1 calls, a fair state at the top of the 64-bit range that the next call makes unfair |
| `Scheduler.AddFairIff` | src/hypervisor/sched/scheduler.c:97-116 | the fairness invariant survives a vCPU joining at virtual time zero if and only if nobody is more than a step beyond the slice and the entity on the CPU is not beyond it |
| `Scheduler.JoinFairIff` | src/hypervisor/sched/scheduler.c:97-116 | every run after the join (no tick wraps, calls go by virtual time) is fair at every point if and only if that condition held before it |
| `Scheduler.FreshMeets` | src/hypervisor/sched/scheduler.c:248-301 | two default vCPUs at zero stand level at any number of ticks from the slice to the end of the 64-bit range after twice as many calls and one |
| `Scheduler.JoinUnfair` | src/hypervisor/sched/scheduler.c:97-116 | two default vCPUs after 25 calls: a third joins fairly and the next call is unfair; after 27 calls the join itself is |
| `FifoScheduling.FifoStarves` | src/hypervisor/sched/scheduler.c:214-301 | while some FIFO entity has a deadline, an entity of a FIFO and RR queue without the least one that is off the CPU is never returned, on any run that changes no policy |
| `FifoScheduling.FifoRules` | src/hypervisor/sched/scheduler.c:214-301 | with nobody or a least deadline on the CPU every call returns a FIFO entity of least deadline |
| `FifoScheduling.LeastComesBack` | src/hypervisor/sched/scheduler.c:214-301 | an entity of least deadline is passed over by at most one stint of calls for each other holder ahead of it, counted also from its preemption, while nobody overtakes it by a wake or it yields |
| `FifoScheduling.ComesBackIff` | src/hypervisor/sched/scheduler.c:214-301 | on runs with enough calls an entity off the CPU comes back if and only if no FIFO entity has a deadline below ~0 or it holds the least one |
| `FifoScheduling.DefaultFifoStarves` | src/hypervisor/sched/scheduler.c:361-365 | of two default vCPUs, one made FIFO and one made RR, the second is never returned |
| `Scheduler.UnstoredStarves` | src/hypervisor/sched/scheduler.c:257-300 | with current never stored every call returns the same entity |
| `Scheduler.RunQueue.constructor` | src/hypervisor/sched/scheduler.c:50-60 | an empty linked run queue |
| `Scheduler.RunQueue.AddVcpu` | src/hypervisor/sched/scheduler.c:97-116 | a CFS entity of normal priority, weight 1024 and zero times appended to the linked queue; the links stay well formed |
| `Scheduler.RunQueue.CfsPickNext` | src/hypervisor/sched/scheduler.c:151-166 | the traversal of the links computes the specified least-vruntime choice |
| `Scheduler.RunQueue.FifoPickNext` | src/hypervisor/sched/scheduler.c:214-231 | the traversal of the links computes the specified earliest-deadline choice with its fallback |
| `Scheduler.RunQueue.Reschedule` | src/hypervisor/sched/scheduler.c:248-301 | the relinked queue, the new times and the returned entity are the specified ones, which Scheduler.CallMeans gives in numbers, and the links stay well formed |
| `Scheduler.RunQueue.YieldTo` | src/hypervisor/sched/scheduler.c:303-317 | delete and append on the links move the entity to the back of the queue |
| `Scheduler.RunQueue.WakeUp` | src/hypervisor/sched/scheduler.c:319-335 | delete and add on the links move the entity to the front of the queue |
| `Scheduler.RunQueue.ChangePriority` | src/hypervisor/sched/scheduler.c:337-359 | priority and one of the weights 4096, 2048, 1024, 512 as specified |
| `Scheduler.RunQueue.ChangePolicy` | src/hypervisor/sched/scheduler.c:361-365 | the policy changes as specified and the links stay well formed |
| `LoadBalance.TargetLeast` | src/hypervisor/sched/scheduler.c:382-400 | with two CPUs or more the target is the first least loaded other CPU |
| `LoadBalance.MovesMeans` | src/hypervisor/sched/scheduler.c:410-411 | a call migrates if and only if the source is more than two longer than the target |
| `LoadBalance.MovesCounts` | src/hypervisor/sched/scheduler.c:378-411 | for queues of any length the target is the first least count modulo 2^32 among the others and the guard compares with it plus two modulo 2^32; where all others count ~0U, or there are none, CPU 0 is the target and more than one is asked for |
| `LoadBalance.LongQueueIgnored` | src/hypervisor/sched/scheduler.c:389-411 | a queue of 2^32 entities counts as empty and nothing is moved off it |
| `LoadBalance.BalanceConserves` | src/hypervisor/sched/scheduler.c:410-429 | no call loses, duplicates or invents an entity, on any number of CPUs |
| `LoadBalance.MoveProgress` | src/hypervisor/sched/scheduler.c:410-423 | a migration takes the head to the target's tail, lowers the sum of squared lengths by at least four and does not reverse the imbalance |
| `LoadBalance.OneCpuRotates` | src/hypervisor/sched/scheduler.c:378-422 | on one CPU the wrapped guard makes the call rotate a queue of two or more |
| `LoadBalance.QuietIsBalanced` | src/hypervisor/sched/scheduler.c:410-411 | no call migrates if and only if all lengths are within two of each other |
| `LoadBalance.RoundsConverge` | src/hypervisor/sched/scheduler.c:371-430 | rounds over all CPUs reach and keep lengths within two of each other after a quarter of the potential, with the same entities |
| `LoadBalance.RunQueues.CountLoad` | src/hypervisor/sched/scheduler.c:389-393 | the loop counts the queue in 32 bits |
| `LoadBalance.RunQueues.SchedulerLoadBalance` | src/hypervisor/sched/scheduler.c:371-430 | the call leaves exactly the specified queues |
| `ConcurrentBalance.StepConserves` | src/hypervisor/sched/scheduler.c:402-428 | every step of every caller conserves the entities in queues and hands |
| `ConcurrentBalance.StepInv` | src/hypervisor/sched/scheduler.c:382-428 | every step keeps locks and positions in agreement |
| `ConcurrentBalance.EveryInterleaving` | src/hypervisor/sched/scheduler.c:371-430 | at every point of every interleaving each entity is in one queue or one hand, no caller holds two locks, no lock has two holders |
| `ConcurrentBalance.NoDeadlock` | src/utils/log.c:44-57 | unless all callers are done, one of them can step |
| `ConcurrentBalance.RunBounded` | src/hypervisor/sched/scheduler.c:371-430 | a run has at most 2 n + 8 steps for each caller on n CPUs |
| `ConcurrentBalance.QuiescentConserves` | src/hypervisor/sched/scheduler.c:371-430 | when all are done the queues hold exactly the original entities |
| `ConcurrentBalance.AloneIsBalance` | src/hypervisor/sched/scheduler.c:371-430 | a caller that runs undisturbed leaves exactly the queues of the sequential call |
| `IntrusiveList.Node.constructor` | src/utils/log.h:63-67 | a new head is an empty list |
| `IntrusiveList.Add` | src/utils/log.h:79-85 | push at the front, touching only the node, the head and its old first neighbour |
| `IntrusiveList.AddTail` | src/utils/log.h:87-93 | push at the back, touching only the node, the head and its old last neighbour |
| `IntrusiveList.Del` | src/utils/log.h:95-99 | removes one position without knowing the head, touching only its two neighbours |
| `IntrusiveList.Empty` | src/utils/log.h:101-101 | true exactly on the empty list |
| `IntrusiveList.Count` | src/utils/log.h:72-73 | the traversal visits each element once and ends |
| `IntrusiveList.MoveToTail` | src/hypervisor/sched/scheduler.c:278-280 | delete and append on one list rotate the element to the back |
| `IntrusiveList.MoveToFront` | src/hypervisor/sched/scheduler.c:330-332 | delete and add on one list bring the element to the front |
| `IntrusiveList.MoveAcross` | src/hypervisor/sched/scheduler.c:412-422 | delete from one list and append to another keep both well formed |
| `IntrusiveList.AddTailAgain` | src/utils/log.h:87-93 | appending a linked element again cuts the forward traversal off behind it, and makes the last element its own successor |
| `IntrusiveList.DelAgain` | src/utils/log.h:95-99 | deleting an unlinked element again loses what has come between its old neighbours, and leaves the list alone exactly while they are adjacent |
| `IntrusiveList.ListsDisjointOrSame` | src/utils/log.h:55-101 | two lists that share a node have the same nodes, so other lists are untouched |
| `Migration.SetBits` | src/hypervisor/migration/migration.c:78-78 | setting a bit changes that bit only |
| `Migration.ClearBits` | src/hypervisor/migration/migration.c:184-184 | clearing a bit changes that bit only |
| `Migration.BitMeans` | src/hypervisor/migration/migration.c:78-78 | page i is bit i % 64 of word i / 64, from the low end |
| `Migration.BeginInv` | src/hypervisor/migration/migration.c:65-81 | a new session satisfies the invariant whatever the destination holds |
| `Migration.BeginMeans` | src/hypervisor/migration/migration.c:54-81 | a new session is INITIATED, at iteration 0 with nothing transferred and all pages dirty |
| `Migration.CopyFromEffect` | src/hypervisor/migration/migration.c:177-188 | a round copies the dirty pages in index order up to ten thousand, updates exactly those, and keeps the invariant |
| `Migration.PrecopyInv` | src/hypervisor/migration/migration.c:159-211 | a round lowers the count by min(count, 10000) and stops if and only if fewer than 100 are left or the limit is passed |
| `Migration.WriteInv` | src/hypervisor/migration/migration.c:261-275 | a tracked write keeps the invariant and adds at most one dirty page |
| `Migration.FlushAgrees` | src/hypervisor/migration/migration.c:230-252 | after stop-and-copy all pages agree and the pages sent are the total plus the clean-to-dirty transitions |
| `Migration.FlushRace` | src/hypervisor/migration/migration.c:230-238 | with guest writes interleaved in any way, when the copy loop is done a page differs if and only if it was written after the loop had passed it, and it is then marked |
| `Migration.PassesFlush` | src/hypervisor/migration/migration.c:230-238 | without writes the interleaved loop is the stop-and-copy loop |
| `Migration.LateWriteLost` | src/hypervisor/migration/migration.c:230-238 | one page copied and then written differs at the end |
| `Migration.NoLostPage` | src/hypervisor/migration/migration.c:159-275 | on every run a page that differs is marked, the cached count is the number of set bits, transferred + dirty = total + transitions, and stop-and-copy brings all pages together |
| `Migration.PrecopyBounded` | src/hypervisor/migration/migration.c:190-208 | whatever the guest dirties the session is in stop-and-copy after max_convergence_iterations + 1 rounds |
| `Migration.PrecopyFromStart` | src/hypervisor/migration/migration.c:159-211 | a round after any run from a new session copies min(dirty, 10000) pages, is counted from zero, and ends in stop-and-copy if and only if fewer than 100 pages are left or the rounds exceed the limit, and in pre-copy otherwise |
| `Migration.SilentRounds` | src/hypervisor/migration/migration.c:159-211 | k rounds without writes leave max(0, total - 10000 k) dirty pages, with the phase that follows |
| `Migration.PrecopyConverges` | src/hypervisor/migration/migration.c:177-208 | a guest that dirties at most r < 10000 pages a round leaves fewer than 100 after total / (10000 - r) rounds |
| `Migration.MigrationSession.constructor` | src/hypervisor/migration/migration.c:60-83 | exactly the bits below the page count are set; iteration and transferred pages are zero, the phase is INITIATED, the limit is the configured one |
| `Migration.MigrationSession.TrackDirtyPage` | src/hypervisor/migration/migration.c:261-275 | the specified marking; out-of-range pages change nothing; no bit beyond the last page is ever set |
| `Migration.MigrationSession.CopyDirtyPages` | src/hypervisor/migration/migration.c:173-188 | the word-wise loop does the specified copy |
| `Migration.MigrationSession.PrecopyPhase` | src/hypervisor/migration/migration.c:159-211 | the whole round as specified |
| `Migration.MigrationSession.FlushDirtyPages` | src/hypervisor/migration/migration.c:230-238 | the final loop as specified, with no bit cleared |
| `Migration.MigrationSession.StopAndCopyPhase` | src/hypervisor/migration/migration.c:213-255 | the phase and result follow whether the VM state could be sent |
| `Lifecycle.UnlinkFirst` | src/hypervisor/hypervisor.c:461-464 | undoing the first of a series of enqueues is as if it had not happened |
| `Lifecycle.StartAllOrNothing` | src/hypervisor/hypervisor.c:436-472 | a start of a stopped VM either runs and queues every vCPU, or restores the queues exactly and leaves none running; it succeeds if and only if no set-up fails |
| `Lifecycle.StartPlaces` | src/hypervisor/sched/scheduler.c:89-115 | after a start of a stopped VM that succeeds each queue c is what it was followed, in increasing order, by exactly the vCPUs i of that VM with i modulo the number of CPUs equal to c |
| `Lifecycle.StartByState` | src/hypervisor/hypervisor.c:436-472 | vm_start does nothing to a RUNNING VM, is refused for a dropped one, succeeds for a PAUSED one, succeeds if and only if the VM is RUNNING afterwards, and leaves the queues alone when it fails |
| `Lifecycle.StopMeans` | src/hypervisor/hypervisor.c:474-495 | vm_stop is refused, with no change, unless RUNNING; otherwise the VM is SHUTDOWN, none of its vCPUs runs, set-ups and other VMs are unchanged, and each queue loses exactly its vCPUs and keeps the order of the rest |
| `Lifecycle.PauseMeans` | src/hypervisor/hypervisor.c:497-520 | vm_pause is refused, with no change, unless RUNNING; otherwise the VM is PAUSED, no vCPU runs and the queues are unchanged |
| `Lifecycle.ResumeMeans` | src/hypervisor/hypervisor.c:522-545 | vm_resume is refused, with no change, unless PAUSED; otherwise the VM is RUNNING, exactly the vCPUs that were set up run and the queues are unchanged |
| `Lifecycle.ResetMeans` | src/hypervisor/hypervisor.c:547-579 | after vm_reset, from every state, the VM is SHUTDOWN, none of its vCPUs runs, set-ups and other VMs are unchanged, and its vCPUs are off the queues if it was RUNNING |
| `Lifecycle.DestroyMeans` | src/hypervisor/hypervisor.c:378-396 | vm_destroy drops the VM from every state, takes its vCPUs off the queues if it was RUNNING and leaves the queues alone otherwise |
| `Lifecycle.DestroyUnlinks` | src/hypervisor/hypervisor.c:390-396 | whatever the flags of a VM that is not RUNNING, vm_destroy unlinks once each exactly those of its vCPUs that are marked running |
| `Lifecycle.CreateMeans` | src/hypervisor/hypervisor.c:345-368 | a new VM is INITIALIZED with the asked number of vCPUs, neither set up nor running, on no queue |
| `Lifecycle.StepFlags` | src/hypervisor/hypervisor.c:378-579 | every operation, failed starts included, keeps the vCPU flags right for the VM's state |
| `Lifecycle.RunFlags` | src/hypervisor/hypervisor.c:378-579 | on every run a RUNNING VM has all vCPUs initialized and running and every other VM has none running |
| `Lifecycle.StopQueues` | src/hypervisor/hypervisor.c:474-495 | stopping a VM takes exactly its vCPUs off the queues |
| `Lifecycle.StartQueues` | src/hypervisor/hypervisor.c:436-472 | starting a stopped VM keeps queue membership exact |
| `Lifecycle.StartPausedBreaks` | src/hypervisor/hypervisor.c:447-449 | starting a PAUSED VM links its vCPUs a second time |
| `Lifecycle.StartPausedTwice` | src/hypervisor/hypervisor.c:436-520 | from the empty table: create, start, pause, start leaves the vCPU in its queue twice |
| `Lifecycle.QueuesKeptIff` | src/hypervisor/hypervisor.c:378-579 | an operation keeps queue membership exact if and only if it is not a start, reset or destroy of a PAUSED VM with vCPUs |
| `Lifecycle.RunQueuesOk` | src/hypervisor/hypervisor.c:436-545 | on every run where PAUSED VMs are only resumed, each vCPU of a RUNNING or PAUSED VM is queued exactly once and nothing else is |
| `Lifecycle.VmTable.constructor` | src/hypervisor/hypervisor.c:201-204 | the empty table satisfies all invariants |
| `Lifecycle.VmTable.VcpuStart` | src/hypervisor/hypervisor.c:832-867 | fails exactly for a vCPU that is neither running nor set up and whose set-up fails; a vCPU that was not running is marked set up and running and appended to the queue of CPU i modulo the number of CPUs |
| `Lifecycle.VmTable.VcpuStop` | src/hypervisor/hypervisor.c:869-881 | the vCPU is marked not running and, if queued, taken off the queues once; every other vCPU, VM and queue entry is unchanged |
| `Lifecycle.VmTable.StopFirst` | src/hypervisor/hypervisor.c:461-464 | the stop loop as specified |
| `Lifecycle.VmTable.VmStart` | src/hypervisor/hypervisor.c:436-472 | the start loop with rollback as specified, for every VM state; Lifecycle.StartPlaces and Lifecycle.StartByState say what that is |
| `Lifecycle.VmTable.VmStop` | src/hypervisor/hypervisor.c:474-495 | as specified, refused unless RUNNING |
| `Lifecycle.VmTable.VmPause` | src/hypervisor/hypervisor.c:497-520 | all vCPUs marked not running, queues untouched, refused unless RUNNING |
| `Lifecycle.VmTable.VmResume` | src/hypervisor/hypervisor.c:522-545 | initialized vCPUs marked running, queues untouched, refused unless PAUSED |
| `Lifecycle.VmTable.VmReset` | src/hypervisor/hypervisor.c:547-579 | stops a RUNNING VM and ends in SHUTDOWN from any state, as Lifecycle.ResetMeans states |
| `Lifecycle.VmTable.VmDestroy` | src/hypervisor/hypervisor.c:378-396 | stops what still runs and drops the VM |
| `VmList.LinkFront` | src/hypervisor/hypervisor.c:361-366 | the new VM becomes the first of a well-formed list |
| `VmList.UnlinkNode` | src/hypervisor/hypervisor.c:412-420 | removes one VM from any position, head included |
| `VmList.Registry.constructor` | src/hypervisor/hypervisor.c:201-204 | an empty list with next identifier one |
| `VmList.Registry.VmCreate` | src/hypervisor/hypervisor.c:275-376 | success pushes a fresh VM with the next identifier; each kind of failure leaves the list alone and consumes an identifier or not |
| `VmList.Registry.VmDestroy` | src/hypervisor/hypervisor.c:412-421 | list, counter and identifiers after the removal |
| `VmList.Registry.VmGetById` | src/hypervisor/hypervisor.c:585-595 | null exactly when no live VM has the identifier, otherwise the first in list order, which is the only one while identifiers are distinct |
| `VmList.Registry.Shutdown` | src/hypervisor/hypervisor.c:224-231 | every VM is destroyed once, in order, and the list is empty |
| `VmList.RunFresh` | src/hypervisor/hypervisor.c:291-291 | on every run that takes fewer identifiers than the counter has left, live identifiers are distinct and below the next one; failed first allocations and destroys take none |
| `VmList.RunUniqueIff` | src/hypervisor/hypervisor.c:291-291 | after a run of any length live identifiers are distinct if and only if no two live VMs were issued a multiple of 2^32 apart |
| `VmList.YoungUnique` | src/hypervisor/hypervisor.c:291-291 | on runs of any length identifiers are distinct while every live VM is among the last 2^32 issued |
| `VmList.IdentifierRepeats` | src/hypervisor/hypervisor.c:291-291 | from the empty list one VM, 2^32 - 1 creates that fail late and one more VM leave two live VMs with identifier 1 |
| `Crc32.TableEntry` | src/utils/log.c:68-133 | each of the 256 table entries is eight division steps of its index |
| `Crc32.ByteStep` | src/utils/log.c:141-141 | eight division steps are one table lookup and a shift |
| `Crc32.ComputeCrc` | src/utils/log.c:135-145 | the loop computes the bit-by-bit checksum of section 8 of RFC 1952 for every byte string, and the register started at all ones over the string and the result, low byte first, ends in 0xDEBB20E3 |
| `Crc32.ResidueIff` | src/utils/log.c:135-145 | over a string and four bytes the register started at 0xFFFFFFFF ends in 0xDEBB20E3 if and only if the four bytes are the checksum, low byte first |
| `Crc32.CheckValue` | src/utils/log.c:135-145 | the checksum of the digits 1 to 9 is 0xCBF43926 |
| `Crc32.ZeroByteValue` | src/utils/log.c:135-145 | the checksum of one zero byte is 0xD202EF8D |
| `Crc32.CrcAffine` | src/utils/log.c:135-145 | crc(a) ^ crc(b) ^ crc(c) = crc(a ^ b ^ c) for strings of one length |
| `Crc32.RegisterIsFeed` | src/utils/log.c:140-142 | the byte-wise register equals the division of the message bits one at a time |
| `Crc32.WindowVanishes` | src/utils/log.c:140-142 | up to 32 bits empty the register only if it held those very bits |
| `Crc32.BurstDetected` | src/utils/log.c:135-145 | messages that differ only inside 32 consecutive bits have different checksums |
| `Crc32.FourBytesDetected` | src/utils/log.c:135-145 | strings that differ only inside four consecutive bytes have different checksums |
| `MemMove.Move` | src/utils/log.c:227-244 | for every overlap the array holds the specified contents |
| `MemMove.MovedBytes` | src/utils/log.c:227-244 | the destination holds the original source bytes and every other byte is unchanged |

## Left out

- Scheduler.RunFair: the bound on virtual times is stated for calls that select by virtual time; a call that selects by deadline does not look at it.
- FifoScheduling.ComesBackIff: stated for queues of FIFO and RR entities, where every selection starts by deadline; behind a head of another policy selection is by virtual time.
- Lifecycle.VmTable.VcpuStop: the queues hold entities and no stale links, so a stop of an entity that was unlinked before is modelled as leaving them alone; IntrusiveList.DelAgain says when the second list_del does so.
- Scheduler.NoStarvation: stated for a fixed set of entities; a vCPU that joins or leaves is not part of a run.
- scheduler_remove_vcpu on the linked run queue of Scheduler; the list_del it makes is IntrusiveList.Del, and its effect on membership is in Lifecycle.
- LoadBalance.MoveProgress: queue lengths are below 2^32 - 3, where the 32-bit counts are exact; concurrent callers decide on stale counts and the potential is not claimed for them.
- Migration.PrecopyBounded: the transfer and iteration counters do not wrap at 2^64.
- Ept.MapEntryRefines: allocations succeed; on failure the code goes on through a null table pointer.
- Lifecycle.VmTable.VcpuStart: the scheduling entity can always be allocated; the code ignores the result of scheduler_add_vcpu.
- Lifecycle.VmTable.VmReset: registers and the page-table clear of a cold reset are not part of the life-cycle state.
- Large pages and unmapping: ept_map_2mb stores a frame in other units than translation reads, lookup ignores 1 GB entries and ept_unmap clears nothing; only 4 KB entries are modelled.
- EPT memory types, permissions and accessed/dirty bits: stubs or set by hardware.
- Migration's and checkpointing's own writes to the VM state: they set RUNNING without looking at vCPUs and are not life-cycle steps.
- migration_serialize_vm_state and migration_deserialize_vm_state: not modelled.
- Checkpoint files, the migration transport, logging, command-line parsing: input and output.
- find_next_bit, strncpy and the other string functions: not modelled.
- VMX, SVM, nested virtualization, device emulation and assembly: hardware semantics.
- The spinlock's inner spinning loop: a caller that wants a taken lock simply cannot step.
