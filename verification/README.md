# A verified model of the kernel's hardest parts

This is a Dafny model of an L4-family microkernel with capabilities and of two of its build tools, and proofs about it.
`dafny verify dfyconfig.toml` checks all of it. It covers:

- the **capability derivation tree** (`cdt.c`): an AA tree of capability table entries, ordered by a multi-level
  comparator and changed in place by insertion, removal, moving, updating and swapping. The class `Cdt` performs
  every step on linked entries in memory and is proved to follow the steps on tree values in `AATree`. On it rest the
  finality test, which looks at two neighbours only, and the searches for children and for caps.
- **recursive deletion and revocation** (`cnode.c`): CNodes and threads are taken apart through zombies, which are moved
  home, count down an object's slots, and may sit in one another. Termination, every assertion of the source, and what
  a deletion leaves behind are proved on the tree in memory.
- the **scheduler** (`thread.c`, `tcb.c`): ready queues as doubly linked lists with a two-level priority bitmap, the
  scheduler action, priorities, domains and their clock; invariants over all runs of kernel entries, with one domain and
  with several; whose turn it is among threads of one priority, and who preempts whom.
- **synchronous and asynchronous IPC** (`endpoint.c`, `asyncendpoint.c`, `syscall.c`): endpoint queues linked through the
  threads, replies and reply capabilities, badges, faults, cancelling, binding, stopping and restarting threads.
  `KernelEntries` puts whole entries together: every system call, fault, preempted deletion and interrupt comes down to a
  series of scheduler steps read off the state it finds, so that any series of events is one of the runs the scheduler's
  theorems are about. What an entry leaves of thread states, waiting queues, replies, faults, badges and bindings is said
  by a smaller machine (`EntryMeaning`), which knows no links and no scheduler; `EntryLaws` proves of it what the
  entries of different threads come to together.
- **boot memory** (`boot.c`): best-fit allocation from the free regions in 32-bit arithmetic, and cutting regions into
  untyped objects.
- the **profiler's hash table** (`profiler.c`): double hashing in a table of prime size.
- **tagged unions** of the bit field generator (`bitfield_gen.py`): which declarations it accepts, and what the generated
  tag readers return.
- the **parser generator** (`yacc.py`): FIRST, FOLLOW, the nullable symbols, and `digraph`, the transitive closure through
  strongly connected components.

## How it is laid out

Code that changes things in place is a class with the source's fields, and its methods are proved to take the state to a
function of the old state (`AATree` for `Cdt`, `SchedulerState` for `Scheduler`, `IpcState` for `Ipc`). The theorems are
about these functions. Memory is a map from addresses to entries; links are addresses, 0 is NULL.

| files | what they hold |
|---|---|
| `Basics` | powers of two, minima, sizes of finite sets |
| `AATree`, `AASearch` | the tree and its steps as values; where a slot sits in it |
| `CapOrder` | capabilities, the comparators, the tests for one object, children in the order |
| `CdtMemory`, `CdtLemmas`, `Cdt` | entries in memory, what the operations do to them, the operations |
| `DeletionState`, `Shelter`, `RevokeSupport` | what deletion keeps, what it leaves alone, and when a cap outlives its own revocation |
| `Deletion`, `DeletionExamples` | deletion and revocation run on the tree, and two states from which they end unexpectedly |
| `LinkedQueue`, `PriorityBitmap`, `ReadyQueues` | linked queues, the bitmap, both together |
| `SchedulerState`, `SchedulerRuns`, `DomainRuns`, `DomainClock`, `Scheduler` | the scheduler's steps, its runs with one domain and with several, the domain clock, the code |
| `IpcState`, `IpcSteps`, `Ipc` | queues and replies, what one step does to all invariants at once, the code |
| `RoundRobin`, `Preemption` | turns among threads of one priority; who runs after a wake-up or a change of priority |
| `EntrySteps`, `KernelEntries` | the steps an event comes down to, and whole kernel entries |
| `EntryMeaning`, `EntryFaces`, `EntryLaws` | what an event leaves, why the code does so, and what follows: messages, badges, faults and replies meet in either order, and what is undone leaves no trace |
| `Untypeds`, `BootAlloc` | boot memory |
| `Profiler` | probing and the table |
| `TagClasses`, `TagEquality` | tagged unions and the two tag readers |
| `Digraph`, `GrammarSets` | the parser generator |

Constants are those of the x86 build without IOMMU: 16-byte entries, six slots in a thread block, 5-bit depth
and level fields, and addresses of 32 bits, so at most 2^28 entries.
Bit maps, badges and tag words are sets of bit positions.

## What was found

Each of these is a lemma or a contract, named in brackets.

- With several domains, `possibleSwitchTo` does nothing for a thread of the current domain: such a thread, woken at rest,
  can run but is neither current nor queued after `schedule()` (`SleeperLost`). A run keeps track of all threads exactly
  when every thread it wakes is in another domain or tracked already (`RunTracks`).
- The initial thread is in domain 0 whatever domain the schedule begins with; the boot state is at rest exactly when it
  begins with domain 0 (`Scheduler.constructor`).
- `cdtFindTypedInRange` looks at one slot only, the greatest up to the top of the region. It never sees a badged cap to an
  endpoint in the region's last sixteen bytes, so revoking the untyped cap leaves such caps behind when the unbadged ones
  are gone (`FindableIsSeen`, `CdtFindTypedInRange`); and with no typed cap up to the top of the region it can return an
  untyped cap, the region's own included.
- Revoking an untyped cap can lose that cap. If its slot ends empty, `cdtFindChild` is asked about a null cap and the source
  calls `fail("Unknown cap type")` (`CteRevoke`, outcome `Halted`); in the first slot of a CNode or TCB, that object's zombie
  may be there instead, and revocation ends. Where every CNode and TCB has a cap, the cap is left only if it belongs to a set of slots that holds itself up: the
  searches can return none of its caps and no cap to an object its slots lie in, and where such a slot is the object's first
  one the set holds a cap to the object (`LeftIsSupported`). Such a set is left alone, preempted or not, unless an object it
  depends on can be taken apart from its first slot (`CteRevoke`), so the condition is exact where objects lie whole and no
  object outside the region has a cap to one inside in its first slot (`SupportIsSecure`). A cap in an object made from its
  own region is then never supported (`OwnObjectLost`; `RevokeFromWithin` is an input); in a CNode below the region that
  holds a cap to itself it is secure (`RootCNodeSecures`).
- A copy derived at the last depth the field holds gets its parent's depth and is no child of it (`DerivedCopyIsChild`).
- Deleting a CNode whose only cap sits in its own last slot, the first one being empty, leaves its zombie in the first slot:
  as many slots are in use afterwards as before, and only the weight that also counts unsettled containers falls
  (`LastSlotSelfHeld`, `AsideLighter`; `DeleteFromWithin` is an input).
- `capsEqual` does not tell a CNode's cap from its zombie, so `cdtUpdate` turns one into the other in place, which is
  right, as both take the same place in the order (`CdtUpdate`).
- The generated equality reader tests class masks against the unshifted tag. It is right for an accepted tag exactly when
  that tag selects its own width unshifted and belongs to no other class (`EqualsAgreesExactly`); with all tag fields at
  bit 0 this always holds (`EqualsAgrees`), elsewhere it need not (`EqualsDisagreesOffZero`).
- `digraph` appends in place to the lists `FP` gives out. It is right for every order of the nodes exactly when nodes given
  the same list have the same closure (`RightForAllOrders`). The first call site makes a new list for every node; the
  second passes lists that its first run shared among a component, and on such lists it can go wrong
  (`SharedListGrows`). For one particular order of the nodes it may still come out right.
- FOLLOW also takes in what productions of nonterminals the start symbol does not reach put after a nonterminal. It is right
  for words derived from the start symbol exactly if these add nothing (`FollowFromStartExact`), and wrong for S -> a,
  N -> S b (`UnreachedAdds`).
- `profiler_record_sample(0)` loses its sample (`RecordSample`). Counts wrap at 2^32: listing and drops add up to the calls
  exactly if no address was counted that often (`AllAccounted`, `Accounted`), and one address sampled 2^32 times is listed
  with nothing (`CountWraps`).
- `restart` queues a thread that it may also switch to; `schedule()` takes it out again (`RestartKeeps`).
- The cap `decodeSetPriority` puts on priorities is exactly what keeps the scheduler at rest (`PriorityCap`). The idle
  thread has priority 0 and can go on running while a thread of priority 0 is queued, which rest allows.
- `decodeBindAEP` does not ask whether the endpoint is bound already; exactly then binding leaves a thread whose endpoint
  names another one (`BindKeeps`).
- Cutting up a region at boot loses the blocks that find no room in the boot info frame without failing
  (`ProvideUntypedCap`, `GivenOut`).

## Model

| member | source | states |
|---|---|---|
| AATree.InsertListing | kernel/src/kernel/cdt.c:847-885 | insertion puts the new slot at the one place in the in-order listing the order allows and moves nothing else |
| AATree.InsertAA | kernel/src/kernel/cdt.c:847-885 | insertion keeps the level rules, and the root rises by at most one level |
| AATree.RemoveListing | kernel/src/kernel/cdt.c:887-950 | removal drops exactly the target from the listing and moves nothing else |
| AATree.RemoveAA | kernel/src/kernel/cdt.c:887-977 | removal and rebalancing keep the level rules, and the root falls by at most one level |
| AATree.RebalanceListing | kernel/src/kernel/cdt.c:952-977 | the skews and splits after a removal keep the listing |
| CdtTree.Cdt.AaSkew | kernel/src/kernel/cdt.c:1047-1074 | on linked entries in memory: the rotation of the tree value, changing only links and levels of that tree |
| CdtTree.Cdt.AaSplit | kernel/src/kernel/cdt.c:1004-1045 | the same for the other rotation, which also lifts the new root; the lifted level fits its five bits, as asserted |
| CdtMemory.LevelFits | kernel/src/kernel/cdt.c:1032-1036 | why it does: over the slots a 32-bit memory has room for no level needs more |
| CdtTree.Cdt.AaDecLevel | kernel/src/kernel/cdt.c:979-1002 | the same for lowering a node and, if needed, its right child |
| CdtTree.Cdt.AaRebalance | kernel/src/kernel/cdt.c:952-977 | the same for one lowering, up to three skews and two splits in the order of the source |
| CdtTree.Cdt.AaInsert | kernel/src/kernel/cdt.c:847-885 | memory afterwards holds the tree with the slot inserted; no cap, no depth and no other slot changes |
| CdtTree.Cdt.AaRemove | kernel/src/kernel/cdt.c:887-916 | memory afterwards holds the tree without the target, also while the target stands swapped in for another |
| CdtTree.Cdt.AaRemoveNode | kernel/src/kernel/cdt.c:918-950 | the root is replaced by its predecessor or successor, whose slot takes over the links and level of the removed one |
| CdtTree.Cdt.TreeInsert | kernel/src/kernel/cdt.c:647-651 | the global tree stays a sorted AA tree and gains exactly the new slot |
| CdtTree.Cdt.TreeRemove | kernel/src/kernel/cdt.c:671-677 | the global tree stays a sorted AA tree and loses exactly the slot, for every position of it |
| CdtTree.Cdt.CdtInsert | kernel/src/kernel/cdt.c:653-669 | the tree gains the slot with the depth derived from its parent, saturating at the last depth the field holds |
| CdtTree.Cdt.InsertNewCap | kernel/src/object/cnode.c:671-676 | an empty slot holds the cap and is in the tree; no other slot changes its cap or depth |
| CdtTree.Cdt.CdtRemove | kernel/src/kernel/cdt.c:671-677 | the slot leaves the tree and its node is zeroed; nothing else changes its cap or depth |
| CdtTree.Cdt.CdtMove | kernel/src/kernel/cdt.c:679-690 | the new slot takes the place and depth of the old one |
| CdtTree.Cdt.CdtUpdate | kernel/src/kernel/cdt.c:692-703 | the slot gets the new cap and its place in the order, whether or not the tree had to change |
| CdtTree.Cdt.CdtSwap | kernel/src/kernel/cdt.c:705-740 | two slots exchange caps and depths, either of them possibly empty, and the tree stays valid |
| CdtTree.Cdt.AaParent | kernel/src/kernel/cdt.c:766-786 | the parent in the tree, found by searching from the root with the comparator |
| CdtTree.Cdt.AaTraverseForward | kernel/src/kernel/cdt.c:810-831 | the next slot of the in-order listing of the whole tree, or none after the last |
| CdtTree.Cdt.AaTraverseBackward | kernel/src/kernel/cdt.c:788-808 | the previous slot of the listing, or none before the first |
| CdtTree.Cdt.CdtIsFinal | kernel/src/kernel/cdt.c:453-470 | looking at two neighbours decides whether any slot of the whole tree names the same object |
| CdtLemmas.FinalByNeighbours | kernel/src/kernel/cdt.c:457-460 | why that is enough: the caps for one object stand next to each other in the order |
| CdtTree.Cdt.AaFindFromBelow | kernel/src/kernel/cdt.c:558-580 | the greatest slot the comparator puts below the hypothetical one, or none |
| CdtTree.Cdt.CdtFindChildByOrder | kernel/src/kernel/cdt.c:589-612 | the greatest child in derivation order, and none only when no slot is a child |
| CdtTree.Cdt.CdtFindTypedInRange | kernel/src/kernel/cdt.c:615-631 | the greatest slot up to the top of the region, if all bytes of its object lie in the region; where every typed object with a byte in the region lies there whole, it is typed exactly when some findable typed slot names one |
| CapOrder.FindableIsSeen | kernel/src/kernel/cdt.c:619-624 | of the typed caps to objects in a region the search sees all but the badged caps to an endpoint in the last sixteen bytes |
| CapOrder.RegionIsBytes | kernel/src/object/objecttype.c:309-325 | an untyped cap names a region the object belongs to exactly when every byte of the object is a byte of the region |
| CdtTree.Cdt.CdtFindChild | kernel/src/kernel/cdt.c:634-645 | finds something as long as a child by order or a findable typed cap to an object in the region is left |
| CdtTree.Cdt.CdtFindAtDepth | kernel/src/kernel/cdt.c:407-436 | a slot equal to the given cap in everything but its address, and none only when there is none |
| CdtLemmas.DerivedCopyIsChild | kernel/src/kernel/cdt.c:653-669 | a copy of the same cap is found as a child exactly when the depth field was not saturated |
| CapOrder.CompSlotIsKeyOrder | kernel/src/kernel/cdt.c:291-332 | the nested comparators are one lexicographic order, under each of the four tie-breaks |
| CapOrder.CompSlotTotal | kernel/src/kernel/cdt.c:47-64 | compSlot is antisymmetric, transitive, and equal only for the same slot with an equal cap |
| CapOrder.SameObjectIsStretch | kernel/src/object/objecttype.c:309-407 | naming the same object means standing in one stretch of the order |
| CapOrder.ChildMeaning | kernel/src/kernel/cdt.c:473-531 | outside untyped memory, children by order are exactly the deeper or badged caps of the object and the handlers under interrupt control |
| CapOrder.UntypedChildMeaning | kernel/src/kernel/cdt.c:473-531 | within untyped memory they are the caps to parts of the region, and to the same region at greater depth |
| CapOrder.ChildNotLast | kernel/src/kernel/cdt.c:473-531 | a child by order is no zombie and never the last cap of its object |
| CapOrder.ZombieRoundTrip | kernel/include/object/structures.h:88-124 | packing slot count and object address in one word loses neither |
| CapOrder.ZombieCountDown | kernel/include/object/structures.h:126-132 | writing a lower count leaves the address and the kind alone |
| DeletionState.NewZombie | kernel/src/object/objecttype.c:148-188 | what finaliseCap leaves of the last cap of a CNode or thread: a zombie of the same object and kind that counts all its slots |
| DeletionState.ToZombie | kernel/src/object/objecttype.c:148-188 | turning the last cap of a CNode or thread into a zombie keeps the invariant of deletion |
| DeletionState.SettleZombie | kernel/src/object/cnode.c:607-621 | moving a zombie into the first slot of its own object keeps the invariant and makes the first measure smaller |
| DeletionState.CountDown | kernel/src/object/cnode.c:594-600 | lowering a zombie whose last counted slot is empty keeps the invariant and its place in the order |
| DeletionState.Emptied | kernel/src/object/cnode.c:468-478 | emptying a slot keeps the invariant; a zombie goes only when the rest of its object is empty |
| Deletion.DroppedObjectIsEmpty | kernel/src/object/cnode.c:481-494 | when a container's last cap may be dropped, every other slot of its object is empty |
| Deletion.AfterEndSlot | kernel/src/object/cnode.c:585-605 | what reduceZombie finds after deleting the end slot: the three cases its assertions expect, and no others |
| Deletion.CSpace.EmptySlot | kernel/src/object/cnode.c:468-478 | the slot is emptied, nothing else changes, and an empty zombie's object counts as reclaimed |
| Deletion.CSpace.CapSwapForDelete | kernel/src/object/cnode.c:413-425 | the two caps change places, or nothing happens for one and the same slot |
| Deletion.CSpace.CteDelete | kernel/src/object/cnode.c:452-465 | terminates; whatever slots and objects keep clear of what is taken apart are left alone, preempted or not, and no object loses its last cap without being reclaimed; unless preempted, an exposed slot ends empty, another one empty or with a zombie of itself, and every other slot is as it was, emptied or with its own object's zombie; the weight falls with every slot emptied |
| Deletion.CourseElsewhere | kernel/src/object/cnode.c:573-582 | deleting the end slot of a zombie's object touches nothing that deleting the zombie's own slot may not touch |
| Shelter.DropSpares | kernel/src/object/cnode.c:468-494 | dropping a cap leaves every guarded slot alone and every guarded object with a cap |
| Shelter.SettleSpares | kernel/src/object/cnode.c:607-621 | so does moving a zombie home, since no guarded slot is the home of a zombie found elsewhere |
| Deletion.LastSlotSelfHeld | kernel/src/object/cnode.c:560-624 | a CNode's only cap in its own last slot, the first one empty, is a state from which deletion moves the zombie to the first slot and stops |
| Deletion.AsideLighter | kernel/src/object/cnode.c:607-621 | as many slots are in use after that as before; the weight is lower |
| DeletionExamples.DeleteFromWithin | kernel/src/object/cnode.c:452-465 | such a state, and what deleting the cap leaves of it unless preempted |
| DeletionExamples.SelfCapsHeld | kernel/src/object/cnode.c:607-621 | one slot is in use there before and after, and the weight is lower |
| Deletion.CSpace.FinaliseSlot | kernel/src/object/cnode.c:504-557 | terminates; on success what is left of the cap may be dropped, and otherwise it is preempted or a zombie of itself |
| Deletion.CSpace.ReduceZombie | kernel/src/object/cnode.c:560-624 | every assertion and `fail` of the source is unreachable, and each call makes the measure smaller or is preempted |
| Deletion.CSpace.CteRevoke | kernel/src/object/cnode.c:428-449 | terminates for every cap, each round making the state lighter; caps whose children are found by order lose exactly these and nothing else changes; for untyped memory secure slots keep their caps, preempted or not, every other one ends as it was, emptied or with its own object's zombie, it halts exactly if the cap revoked is gone from a slot that is no object's first one, the cap is left only if it was supported, and exactly then where no object outside the region comes between; if it is left and objects lie whole, no findable typed cap to an object with its bytes in the region is |
| RevokeSupport.LeftIsSupported | kernel/src/object/cnode.c:428-449 | whatever the run, an untyped cap left in its slot without children belongs to a set of slots that supported itself from the start |
| RevokeSupport.UndividedStays | kernel/src/object/cnode.c:428-449 | deleting makes no cap to a new object, so typed objects go on lying whole in the region |
| RevokeSupport.FoundExpendable | kernel/src/kernel/cdt.c:615-645 | what the search of the region returns is no secure slot, names no object such slots depend on, and lies in the first slot of one only if a cap to it is secure |
| RevokeSupport.SupportIsSecure | kernel/src/object/cnode.c:428-449 | where objects lie whole and no object outside the region has a cap to one inside in its first slot, what may be left is exactly what is secure |
| RevokeSupport.OwnObjectLost | kernel/src/object/cnode.c:428-449 | the cap to untyped memory is not supported in an object made from that memory |
| RevokeSupport.RootCNodeSecures | kernel/src/object/cnode.c:428-449 | it is secure in a CNode below that memory which also holds a cap to itself |
| DeletionExamples.RevokeFromWithin | kernel/src/object/cnode.c:428-449 | a state, untyped memory whose cap lies in a CNode made from it, from which revoking is preempted or halts |
| LinkedQueue.Appended | kernel/src/object/tcb.c:82-110 | linking at the end holds the old queue followed by the thread |
| LinkedQueue.Pushed | kernel/src/object/tcb.c:51-79 | linking at the head holds the thread followed by the old queue |
| LinkedQueue.Removed | kernel/src/object/tcb.c:113-145 | unlinking any member holds the rest in order, and both its links are null exactly when it was alone |
| PriorityBitmap.AddKeeps | kernel/src/object/tcb.c:27-35 | both bitmap levels keep marking exactly the non-empty priorities when one is added |
| PriorityBitmap.RemoveKeeps | kernel/src/object/tcb.c:37-47 | the same when one is removed, the upper bit going only with the last lower one |
| PriorityBitmap.HighestIsHighest | kernel/src/kernel/thread.c:314-339 | the first level is zero exactly when the domain has nothing ready, and otherwise the two highest bits name the highest priority that has |
| ReadyQueues.ReadyQueues.SchedEnqueue | kernel/src/object/tcb.c:51-79 | the thread goes to the head of the queue of its domain and priority unless it is queued, with links and bitmaps in step |
| ReadyQueues.ReadyQueues.SchedAppend | kernel/src/object/tcb.c:82-110 | the same to the end of the queue |
| ReadyQueues.ReadyQueues.SchedDequeue | kernel/src/object/tcb.c:113-145 | the thread leaves its queue if it is queued, with links and bitmaps in step |
| ReadyQueues.ReadyQueues.HeadOfHighest | kernel/src/kernel/thread.c:319-336 | two bit scans and a table lookup find the head of the highest non-empty priority of the domain, or nothing |
| Scheduler.Scheduler.constructor | kernel/src/kernel/boot.c:323-412 | the boot state is at rest exactly when the schedule begins with domain 0, and no thread is lost |
| Scheduler.Scheduler.PossibleSwitchTo | kernel/src/kernel/thread.c:383-411 | the new state is the specified one: with one domain by priority, with several by domain |
| Scheduler.Scheduler.SetPriority | kernel/src/kernel/thread.c:370-380 | the thread is refiled under the new priority and, if runnable, rescheduled |
| Scheduler.Scheduler.SetDomain | kernel/src/kernel/thread.c:357-367 | the same for the domain |
| Scheduler.Scheduler.TimerTick | kernel/src/kernel/thread.c:443-462 | time slice and domain time count down, and what runs out makes the scheduler choose anew |
| Scheduler.Scheduler.NextDomain | kernel/src/kernel/thread.c:277-286 | the next entry of the domain schedule, after the last the first, with its length |
| Scheduler.Scheduler.ChooseThread | kernel/src/kernel/thread.c:314-339 | the chosen thread leaves its queue and becomes current, or the idle thread does |
| Scheduler.Scheduler.Schedule | kernel/src/kernel/thread.c:289-311 | the three cases of the scheduler action, with the domain switch where it is due |
| Scheduler.Scheduler.ActivateThread | kernel/src/kernel/thread.c:68-91 | a restarting current thread runs; the other states stay |
| SchedulerRuns.ScheduleRests | kernel/src/kernel/thread.c:289-311 | with one domain schedule() leaves every runnable thread current or queued, and nobody queued above the current one |
| SchedulerRuns.RunRests | kernel/src/kernel/thread.c:289-311 | over all runs of kernel entries with one domain the scheduler is at rest after every entry |
| SchedulerRuns.StepKeeps | kernel/src/kernel/thread.c:357-471 | every step the kernel takes between entry and schedule() keeps the scheduler's invariant |
| SchedulerRuns.RestartKeeps | kernel/src/kernel/thread.c:106-115 | so does restart, which queues the thread and may also switch to it |
| RoundRobin.TurnPasses | kernel/src/kernel/thread.c:443-462 | with one domain, a thread whose slice runs out or that yields goes behind the others of its priority, and the first of them runs; no other queue changes |
| RoundRobin.TurnReturns | kernel/src/kernel/thread.c:443-462 | with nobody behind it, it runs again |
| RoundRobin.SliceCounts | kernel/src/kernel/thread.c:443-462 | a tick within the slice counts it down and changes nothing else |
| RoundRobin.RunsInTurn | kernel/src/kernel/thread.c:289-339 | over any ticks and yields the ready threads of the highest priority run in turn: the one so many places on as turns were given up |
| RoundRobin.EverybodyRuns | kernel/src/kernel/thread.c:289-339 | so n of them each get a turn in n entries that give one up |
| RoundRobin.TurnsKeepComing | kernel/src/kernel/thread.c:443-462 | of ticks alone no more than a time slice passes between two turns |
| Preemption.WakeDecides | kernel/src/kernel/thread.c:383-411 | with one domain a woken thread runs at once exactly when its priority is higher, or the same where that is asked for; the current thread then waits at the head of its queue, and otherwise the woken one does |
| Preemption.RestartDecides | kernel/src/kernel/thread.c:106-115 | so for a thread that is restarted, where equals do not take over |
| Preemption.TwoWoken | kernel/src/kernel/thread.c:383-411 | of two woken above the current thread the higher runs, and the first of equals; the other one is next in its queue |
| Preemption.PriorityMoves | kernel/src/kernel/thread.c:370-380 | another ready thread given a priority no higher than the current one goes to the head of its new queue; the current thread runs on |
| Preemption.OwnPriorityMoves | kernel/src/kernel/thread.c:370-380 | a thread that lowers its own priority runs on exactly when no ready thread has a higher one |
| DomainRuns.RunOrders | kernel/src/kernel/thread.c:277-339 | over all runs with any number of domains the scheduler's state is in order after every entry |
| DomainRuns.ActivateRests | kernel/src/kernel/thread.c:68-91 | the thread to run is never blocked |
| DomainRuns.SleeperLost | kernel/src/kernel/thread.c:388-395 | at rest with several domains, a thread of the current domain that is woken is runnable, not current and not queued after schedule() |
| DomainRuns.StepTracks | kernel/src/kernel/thread.c:357-471 | a step keeps track of all threads exactly when every thread it wakes is in another domain or tracked already |
| DomainRuns.RunTracks | kernel/src/kernel/thread.c:383-411 | a whole run keeps track of all threads exactly when every one of its steps does so by that test |
| DomainClock.TickCountsDown | kernel/src/kernel/thread.c:456-461 | the tick never takes the remaining domain time below zero |
| DomainClock.StepLeavesClock | kernel/src/kernel/thread.c:443-462 | no step but the tick touches the domain clock |
| DomainClock.RunKeepsTime | kernel/src/kernel/thread.c:277-311 | after every entry domain, table index and remaining time are those of the number of ticks so far, round the schedule |
| DomainClock.BootIsOnTime | kernel/src/kernel/boot.c:338-412 | the boot state is on time with no tick taken |
| IpcState.ConsistentMeans | kernel/src/object/endpoint.c:40-200 | an object is idle exactly when its queue is empty, and otherwise holds exactly the threads blocked on it in its state |
| IpcState.Bijection | kernel/src/object/tcb.c:196-226 | reply slots and reply caps pair up one to one |
| Ipc.Ipc.TcbEPAppend | kernel/src/object/tcb.c:148-161 | the thread is linked in behind the end of an endpoint queue |
| Ipc.Ipc.TcbEPDequeue | kernel/src/object/tcb.c:164-180 | the thread is linked out of an endpoint queue |
| Ipc.Ipc.SendIPC | kernel/src/object/endpoint.c:40-106 | the whole new state of queues, scheduler, reply links, blocking information and badge registers, by state of the endpoint, blocking, call and grant |
| Ipc.Ipc.ReceiveIPC | kernel/src/object/endpoint.c:114-200 | the same for receiving: a badge held by the bound endpoint first, then the first sender, then waiting; a thread that blocks is last in the queue and its flag says whether it may be handed reply caps |
| Ipc.Ipc.IpcCancel | kernel/src/object/endpoint.c:227-279 | the thread waits for nothing and is owed no reply, and its endpoint goes idle with its last waiter |
| Ipc.Ipc.CancelAll | kernel/src/object/endpoint.c:282-306 | every waiting thread is restarted and queued, and the endpoint is idle |
| Ipc.Ipc.EpCancelBadgedSends | kernel/src/object/endpoint.c:309-351 | of the senders exactly those with the badge are restarted, and the rest keep their order |
| Ipc.Ipc.SendAsyncIPC | kernel/src/object/asyncendpoint.c:50-112 | the badge goes to the first waiter, wakes the bound thread, or joins the badges held; it counts as passed on exactly when a badge register is written |
| Ipc.Ipc.ReceiveAsyncIPC | kernel/src/object/asyncendpoint.c:115-154 | the badges held are taken, or the thread waits or polls |
| Ipc.Ipc.CompleteAsyncIPC | kernel/src/object/asyncendpoint.c:198-209 | the badges held go to the thread and count as passed on, and the endpoint is idle |
| Ipc.Ipc.BindAsyncEndpoint | kernel/src/object/asyncendpoint.c:224-228 | both sides are written, unchecked |
| Ipc.Ipc.UnbindAsyncEndpoint | kernel/src/object/asyncendpoint.c:212-221 | both sides of the thread's binding are cleared |
| IpcState.BindKeeps | kernel/src/object/tcb.c:789-823 | binding an unbound thread keeps the two sides in agreement exactly when the endpoint is not bound |
| IpcState.UnbindKeeps | kernel/src/object/asyncendpoint.c:212-221 | unbinding always keeps them in agreement |
| Ipc.Ipc.SendFaultIPC | kernel/src/kernel/faulthandler.c:30-66 | the fault is recorded and sent to the handler as a blocking message that wants a reply |
| Ipc.Ipc.HandleDoubleFault | kernel/src/kernel/faulthandler.c:105-119 | a thread without a handler stops |
| Ipc.Ipc.SetupCallerCap | kernel/src/object/tcb.c:196-214 | the sender waits for a reply and the receiver's caller slot holds the cap for it; both slots were free, as the source asserts |
| Ipc.Ipc.DeleteCallerCap | kernel/src/object/tcb.c:217-226 | the caller slot is empty and its caller is owed nothing |
| Ipc.Ipc.MoveReplyCap | kernel/src/object/cnode.c:396-410 | the reply cap moves to another slot, from a caller slot or a CNode slot, and its thread records that slot |
| Ipc.Ipc.DoReplyTransfer | kernel/src/kernel/thread.c:135-160 | the receiver is blocked on its reply, as asserted, and is resumed with an empty badge register, restarted or left inactive; the reply is used up |
| Ipc.Ipc.HandleReply | kernel/src/api/syscall.c:281-313 | the reply in the caller slot is used up; nobody replies to itself, as asserted |
| Ipc.Ipc.HandleWait | kernel/src/api/syscall.c:316-367 | an unused reply is given up, then the state is that of receiveIPC, with the same flag for a thread that blocks |
| Ipc.Ipc.Suspend | kernel/src/kernel/thread.c:94-103 | the thread is inactive, waits nowhere and has no reply cap at either end |
| Ipc.Ipc.RestartThread | kernel/src/kernel/thread.c:106-115 | a blocked thread waits nowhere, is queued, may be switched to, and has its reply slot set up |
| Ipc.Ipc.FinaliseThread | kernel/src/object/objecttype.c:162-188 | the thread is unbound and stopped, and its reply slot is emptied |
| Ipc.Ipc.FinaliseAsyncEndpoint | kernel/src/object/objecttype.c:110-123 | the endpoint is unbound and its waiters are restarted |
| Ipc.Ipc.Schedule | kernel/src/kernel/thread.c:289-311 | schedule() keeps all IPC invariants for any number of domains and ends at rest |
| Ipc.Ipc.ActivateThread | kernel/src/kernel/thread.c:68-91 | so does activateThread, and the current thread is running or idle |
| Ipc.Ipc.TimerTick | kernel/src/kernel/thread.c:443-462 | so does the tick |
| Ipc.Ipc.HandleYield | kernel/src/api/syscall.c:370-375 | so does yield |
| Ipc.Ipc.SetPriority | kernel/src/object/tcb.c:587-617 | so does setPriority under the cap of decodeSetPriority |
| Ipc.Ipc.SetDomain | kernel/src/object/tcb.c:745-791 | so does setDomain |
| IpcSteps.RestEngages | kernel/src/api/syscall.c:207-278 | at rest a running current thread is in no queue and no switch target, which is what the next entry relies on |
| EntrySteps.BadgeDone | kernel/src/object/asyncendpoint.c:50-112 | the scheduler state after a badge is sent is the one its listed steps lead to, each step allowed where it is taken |
| EntrySteps.SendDone | kernel/src/object/endpoint.c:40-106 | the same for sending |
| EntrySteps.ReceiveDone | kernel/src/object/endpoint.c:114-200 | the same for receiving |
| EntrySteps.Answers | kernel/src/api/syscall.c:281-313 | the same for replying through any slot, and the thread that replies is still at work afterwards |
| EntrySteps.SuspendDone | kernel/src/kernel/thread.c:94-103 | the same for suspending |
| EntrySteps.RestartDone | kernel/src/kernel/thread.c:106-115 | the same for restarting |
| EntrySteps.TicksAtMostOnce | kernel/src/api/syscall.c:378-443 | an entry takes at most one tick, and takes it last |
| KernelEntries.Kernel.FinaliseAll | kernel/src/object/objecttype.c:90-211 | finalising the objects a deletion comes across, one after another, comes down to the steps read off the state it starts in, and leaves of threads, endpoints, replies and bindings what the deletion of those objects means |
| KernelEntries.Kernel.ReplyBySlot | kernel/src/object/objecttype.c:660-672 | invoking a reply cap saved in a CNode slot comes down to the steps of a reply, and leaves what `AfterEvent` has for it |
| KernelEntries.Kernel.PerformElsewhere | kernel/src/object/cnode.c:335-410 | saving the caller's reply cap, moving a saved one, and binding leave the scheduler alone and change nothing but the reply links or the bindings |
| KernelEntries.Kernel.HandleInvocation | kernel/src/api/syscall.c:207-278 | an invocation comes down to the steps read off the state it finds, between the caller's restart mark and its return to running, and leaves what `AfterEvent` has for it |
| KernelEntries.Kernel.HandlePreempted | kernel/src/api/syscall.c:382-391 | so does a preempted deletion with the interrupt that is handled before schedule() |
| KernelEntries.Kernel.HandleFault | kernel/src/kernel/faulthandler.c:19-28 | so does a fault, with a handler or without |
| KernelEntries.Kernel.HandleSyscall | kernel/src/api/syscall.c:378-443 | every system call and fault leaves of thread states, waiting queues, endpoints, replies, faults, badges and bindings exactly what `AfterEvent` says, all steps allowed and all invariants kept; a wait on an asynchronous endpoint without badges leaves the thread blocked and last in its queue, a poll leaves states and queues alone and clears the badge register |
| EntryLaws.WaitBlocksPollDoesNot | kernel/src/api/syscall.c:340-359 | a wait that finds no badge leaves the thread blocked and last in the queue; a poll leaves states and queues alone, and the badge register empty |
| EntryLaws.SignalMeetsWait | kernel/src/object/asyncendpoint.c:50-154 | a badge and a thread that waits for it come together whichever is first, and nothing else is left changed |
| EntryLaws.ToldInTurn | kernel/src/object/asyncendpoint.c:50-154 | of two waiters the first is told, and the other one waits as if alone |
| EntryLaws.BadgesJoin | kernel/src/object/asyncendpoint.c:50-154 | badges that find nobody are held together, and the next wait or poll takes them all |
| EntryLaws.SignalMeetsBoundReceive | kernel/src/object/asyncendpoint.c:71-86 | a thread that receives from an endpoint gets the badges of its bound asynchronous endpoint, whichever is first, and waits nowhere |
| EntryLaws.ReceiveBlocks | kernel/src/object/endpoint.c:127-146 | a receive that finds nothing leaves the thread blocked and last in the queue, its reply given up, and the flag for reply caps as given |
| EntryLaws.AskMeetsReceive | kernel/src/object/endpoint.c:40-200 | a call or fault and a receive that meet on an idle endpoint leave the reply cap in the caller slot exactly when the one may grant and the other may be granted, whichever came first; the caller waits for its reply then and stops otherwise |
| EntryLaws.AskAndReply | kernel/src/kernel/thread.c:135-160 | the reply leaves the threads, the endpoint and the replies of a call as they were, and the thread of a fault restarting or stopped |
| EntryLaws.SendMeetsReceive | kernel/src/object/endpoint.c:40-200 | a plain message and a receive leave both running and nothing owed, in either order |
| EntryLaws.UnheardIsLost | kernel/src/object/endpoint.c:44-71 | a message that may not block and finds no receiver changes nothing |
| EntryLaws.DoubleFaultStops | kernel/src/kernel/faulthandler.c:105-119 | a fault without a handler stops the thread and changes nothing else |
| EntryLaws.BadWaitFaults | kernel/src/api/syscall.c:316-367 | a wait on nothing, or on an asynchronous endpoint bound to another thread, is a fault |
| EntryLaws.ReplyThenWait | kernel/src/api/syscall.c:411-414 | replying and waiting in one call is the one after the other |
| EntryLaws.SavedReply | kernel/src/object/cnode.c:396-410 | a reply saved, moved and then used does what replying at once does |
| EntryLaws.SuspendUndoesWait | kernel/src/kernel/thread.c:94-103 | suspending a waiting thread leaves queue and endpoint as before it waited |
| EntryLaws.SuspendLeavesNothing | kernel/src/kernel/thread.c:94-103 | a suspended thread is in no queue, holds no reply and is owed none |
| EntryLaws.ResumeRestarts | kernel/src/kernel/thread.c:106-115 | restarting changes nothing for a thread that can run, and leaves any other one restarting, in no queue, owed no reply, with a master reply cap |
| EntryLaws.CancelSorts | kernel/src/object/endpoint.c:309-351 | exactly the senders with the badge are restarted and leave the queue |
| EntryLaws.CancelKeepsOrder | kernel/src/object/endpoint.c:309-351 | who stays keeps those before and behind it that stay |
| EntryLaws.CancelsOwnBadge | kernel/src/object/endpoint.c:309-351 | a waiting sender is restarted by cancelling the badge it sends, as if it had never sent, and by no other |
| EntryLaws.DeleteFreesWaiters | kernel/src/object/objecttype.c:90-126 | everybody who waits for a deleted endpoint is restarted and nobody else; it is idle and unbound |
| EntryLaws.DeletesInParts | kernel/src/object/objecttype.c:90-211 | finalising objects in two goes is finalising them in one |
| EntryLaws.DeleteThread | kernel/src/object/objecttype.c:162-188 | deleting a thread is suspending it, and unbinding it, and taking its master reply cap |
| EntryLaws.PreemptedDeletes | kernel/src/api/syscall.c:382-391 | a preempted deletion has done what deleting the objects so far does, but for its caller, and the interrupt comes on top |
| EntryLaws.PriorityGiven | kernel/src/object/tcb.c:587-617 | a thread may give at most its own priority, and only the priority changes |
| EntryLaws.DomainGiven | kernel/src/object/tcb.c:745-791 | the same for domains that exist |
| EntryLaws.BindAndUnbind | kernel/src/object/tcb.c:789-823 | a bound thread or an awaited endpoint is refused; otherwise both sides name each other, and unbinding leaves no trace if the endpoint was free |
| KernelEntries.Kernel.HandleInterrupt | kernel/src/api/syscall.c:40-58 | so does every interrupt, and it leaves the badge where `AfterEvent` says |
| KernelEntries.Kernel.Enter | kernel/src/api/syscall.c:437-443 | one entry is exactly one entry of a scheduler run, and leaves all invariants, rest, and what `AfterEvent` says; with one domain a thread that yields or whose slice runs out goes behind the ready threads of its priority, and the first of them runs |
| KernelEntries.Kernel.Run | kernel/src/api/syscall.c:378-443 | any series of events is a run of allowed entries; its ticks move the domain clock; with several domains it keeps track of all threads exactly when every step is guarded; all invariants hold after it |
| KernelEntries.Kernel.Everywhere | kernel/src/api/syscall.c:378-443 | hence between entries replies pair up, queues hold exactly their waiters, no badge is lost, and the current thread can run; with one domain nobody ready outranks it or is forgotten |
| KernelEntries.Kernel.BadgesExact | kernel/src/object/asyncendpoint.c:42-112 | badges sent are badges passed on and badges held |
| BootAlloc.Boot.InsertRegion | kernel/src/kernel/boot.c:29-44 | the region goes to the first empty entry, or nothing changes and it fails |
| BootAlloc.Boot.AllocRegion | kernel/src/kernel/boot.c:53-117 | of all aligned blocks of the size in all free regions it takes one that leaves the least behind on one side, and then on the other: in the first region of equals, the last block; what is left of the region goes back, and it fails only when there is no block |
| BootAlloc.PlacementFound | kernel/src/kernel/boot.c:70-82 | in 32-bit arithmetic with wrap-around, a region is found to fit exactly when it contains an aligned block of the size |
| BootAlloc.PlacementTightest | kernel/src/kernel/boot.c:64-82 | no aligned block of the region leaves less on its smaller or, the same there, on its larger side than the end the code picks, and of equals that is the last |
| BootAlloc.FailsOnlyWithoutBlock | kernel/src/kernel/boot.c:53-117 | the allocation fails only when no free region contains such a block |
| BootAlloc.AllocationFrees | kernel/src/kernel/boot.c:104-117 | whatever block is taken: it was free and is not any more; every other free byte stays free unless reported lost |
| BootAlloc.AllocationConserves | kernel/src/kernel/boot.c:104-117 | free bytes before are free bytes after, the block and the bytes lost |
| BootAlloc.AllocationKeeps | kernel/src/kernel/boot.c:104-117 | regions stay proper and disjoint |
| Untypeds.RootCNode.ProvideUntypedCap | kernel/src/kernel/boot.c:414-434 | a cap and its boot info entry, nothing and no failure once the boot info is full, or failure when slots run out |
| Untypeds.RootCNode.CreateUntypedsForRegion | kernel/src/kernel/boot.c:453-493 | the region is tiled by at most 64 aligned blocks, provided in order as far as the boot info has room; fails only when slots run out before that |
| Untypeds.TileCovers | kernel/src/kernel/boot.c:453-493 | a tiling covers exactly the region, each address once |
| Untypeds.GivenOut | kernel/src/kernel/boot.c:425-432 | with room for some blocks only, an address is given out exactly when it lies below the first block left out |
| Profiler.Profiler.Reset | kernel/src/machine/profiler.c:94-102 | no sample is listed |
| Profiler.Profiler.RecordSample | kernel/src/machine/profiler.c:136-181 | the sample is counted under its address, or dropped exactly when it is new and the table three quarters full; address zero changes no listed count |
| Profiler.Profiler.Find | kernel/src/machine/profiler.c:148-160 | the search ends, at the entry of the address or at an empty slot |
| Probing.ProbesDiffer | kernel/src/machine/profiler.c:148-160 | with a prime table size the probe sequence visits every slot |
| Probing.TableSizeIsPrime | kernel/include/machine/profiler.h:26-33 | the table size is prime and greater than the step |
| Profiler.AllAccounted | kernel/src/machine/profiler.c:136-181 | the listing adds up to the samples counted if and only if no address was counted 2^32 times |
| Profiler.Profiler.Accounted | kernel/src/machine/profiler.c:136-181 | so with the drops it adds up to all calls exactly then |
| Profiler.CountWraps | kernel/src/machine/profiler.c:148-160 | 2^32 samples of one address leave a table that lists none of them and reports no drop |
| TagClasses.TaggedUnion.MakeClasses | kernel/tools/bitfield_gen.py:1987-2100 | accepts exactly the declarations that give a sane layout |
| TagClasses.SaneExactly | kernel/tools/bitfield_gen.py:1987-2100 | what its checks are for: of nested masks within their fields they accept exactly those that leave every width a value of its own |
| TagClasses.TaggedUnion.AssertValueInClass | kernel/tools/bitfield_gen.py:1941-1978 | accepts exactly the values that belong to the class of their width |
| TagClasses.TaggedUnion.Resolve | kernel/tools/bitfield_gen.py:1215-1250 | succeeds exactly when the layout is sane and every element's tag sits and belongs where its width says |
| TagClasses.ReaderReturnsTag | kernel/tools/bitfield_gen.py:361-393 | the generated tag reader returns every accepted tag from every word that carries it |
| TagClasses.WidthsDisjoint | kernel/tools/bitfield_gen.py:1941-1978 | no word carries accepted tags of two widths |
| TagClasses.WriteThenRead | kernel/tools/bitfield_gen.py:412-421 | a tag that is written is read back |
| TagClasses.ResolvedTagsRead | kernel/tools/bitfield_gen.py:1215-1250 | in a union that resolved, every element's tag is read back |
| TagEquality.EqualsAgreesExactly | kernel/tools/bitfield_gen.py:378-393 | for an accepted tag the equality reader agrees with the tag reader on every word if and only if the unshifted tag selects its own width and belongs to no other class |
| TagEquality.EqualsAgrees | kernel/tools/bitfield_gen.py:361-393 | with tag fields at bit 0 it always does |
| TagEquality.EqualsDisagreesOffZero | kernel/tools/bitfield_gen.py:361-393 | a layout and a word on which it denies a tag that is there |
| Digraph.Traversal.Digraph | kernel/tools/yacc.py:1901-1909 | every list holds exactly the union of the initial lists of the nodes reached, if nodes given the same list have the same closure; roots keep their own list in any case |
| Digraph.Traversal.Traverse | kernel/tools/yacc.py:1911-1931 | the node is finished, or waits on the stack for one further down with its segment covered |
| Digraph.SegmentShares | kernel/tools/yacc.py:1926-1931 | what is popped together is one component: all its members have the root's closure, and the root's list holds it |
| Digraph.RightForAllOrders | kernel/tools/yacc.py:1901-1931 | digraph is right for every order of the nodes if and only if nodes given the same list have the same closure |
| Digraph.SharedListGrows | kernel/tools/yacc.py:2306-2310 | three nodes, two of them with one list as the second call site passes it, on which a list grows by what its node does not reach |
| GrammarSets.LRGrammar.FirstOfWord | kernel/tools/yacc.py:1650-1677 | FIRST of a word from the FIRST sets of its symbols |
| GrammarSets.LRGrammar.ComputeFirst | kernel/tools/yacc.py:1684-1712 | terminates with sets that are sound and closed under all productions |
| GrammarSets.FirstExact | kernel/tools/yacc.py:1650-1712 | such sets hold exactly the tokens a derived word can begin with, and `<empty>` exactly for what derives the empty word |
| GrammarSets.LRGrammar.ComputeFollow | kernel/tools/yacc.py:1721-1762 | terminates with sets that are sound and closed |
| GrammarSets.FollowExact | kernel/tools/yacc.py:1721-1762 | such sets hold exactly the tokens that can follow the nonterminal in a word derived from some nonterminal, and the end mark where it can end one derived from the start symbol |
| GrammarSets.FollowFromStartExact | kernel/tools/yacc.py:1721-1762 | they hold exactly the tokens that can follow in a word derived from the start symbol if and only if the productions of nonterminals it does not reach add nothing |
| GrammarSets.ReachedGrammarExact | kernel/tools/yacc.py:1721-1762 | so they do when it reaches every nonterminal that has a production |
| GrammarSets.UnreachedAdds | kernel/tools/yacc.py:1721-1762 | a grammar of two productions for which they do not |
| GrammarSets.LRGrammar.ComputeNullableNonterminals | kernel/tools/yacc.py:2096-2110 | terminates with a sound and closed set |
| GrammarSets.NullableExact | kernel/tools/yacc.py:2096-2110 | it holds exactly the symbols that derive the empty word, in agreement with FIRST |

## Left out

- Deletion.CSpace.CteRevoke: where an object outside the region has, in its first slot, a cap to a CNode or TCB inside, it says
  what must hold for the cap to be left and what makes sure that it is, with a gap between: whether a deletion then goes on with
  the zombie that has come home to that slot depends on the order in which the caps are found.
- Deletion.CSpace.CteDelete: preempted while exposed, it promises what is left alone, not how every other slot stands.
- Deletion.CSpace.FinaliseCap: what finaliseCap does to endpoints and threads is in `Ipc`, not in the deletion model, and
  deletedIRQHandler is not modelled.
- CdtTree.Cdt.CdtFindAtDepth: stated for a cap that agrees with the caps in the tree about what is at its address; the
  source uses it for frame and page table caps, which are not modelled.
- Untypeds.RootCNode.CreateUntypedsForRegion: excludes a region of exactly one page at kernelBase, where the source takes the
  leading zeros of zero, and regions of the kernel window that begin below kernelBase.
- Digraph.Traversal.Digraph: wants fewer nodes than MAXINT, which marks finished ones.
- Ipc.Ipc.BindAsyncEndpoint: bindings are not part of the invariant over runs, because `BindKeeps` shows they need not agree.
- Slots that hold reply caps are outside the derivation tree and the deletion model: saveCaller and cteMove can put a reply cap
  into a CNode slot, where no tree entry stands for it; reply caps are followed in `Ipc`, through every slot they are moved to.
  Exchanging the caps of two such slots (rotating a cap back to its source, capSwapForDelete) is not an event; cdtSwap takes every
  cap to be in the tree. A rotation over three slots is two moves.
- Caps to frames, page tables, I/O ports and other architecture objects, and the extra component they add to the order;
  cdtFind and cdtFindWithExtra, which search by that component.
- The contents of messages, IPC buffers, faults and registers other than the badge register; which fault it is does not matter
  to the model. The zero that the kernel's own answers to an invocation (replyFromKernel_error, replyFromKernel_success_empty)
  put into the badge register of a caller is left out.
- Capability lookup, decoding of invocations other than the checks named above, retyping, and the creation of threads: the set
  of threads is fixed.
- cteRecycle and cteDeleteOne, which add no case to the recursion.
- Preemption is an arbitrary outcome of every preemption point, and pending interrupts an arbitrary event. `KernelEntries` takes
  the objects a deletion finalises in one entry as given; which they are is the business of `Deletion`.
- Invocations that stop or resume other threads on the way (copying registers, writing registers, configuring a thread) and
  recycling are not events of their own.
- Events that name threads or objects which do not exist do nothing; the source cannot be given such caps.
- Turns among threads of one priority are proved with one domain; with several, the order in which the domains come is.
- FIRST and FOLLOW lists are sets, so the order in which they list tokens is not modelled, nor is the early return of a result
  computed before.
- The tables of LALR(1) items that `digraph` is used for, and error handling of the parser generator.
- The generator's C and Isabelle output other than the tag readers and writers, and its fields other than tags.
- The profiler without a hash table (the other build option), and profiler_list's printing.
- The ready queue array is a map from domain and priority to queues; its index arithmetic is not modelled.
- Interrupt handling before an asynchronous endpoint is told, and multiprocessor builds.
