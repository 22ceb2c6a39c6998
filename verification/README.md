# Dthreads, its assignment solver, its dedup benchmark and its allocator

A Dafny model of the deterministic-threads runtime in `src/include`, of the Hungarian method in
`eval/tests/ferret/assign.c`, and of the compressor in `eval/tests/dedup`.  `dafny verify dfyconfig.toml` checks all
of it.

## What is modelled

**Commits.**  `Pages`, `Bitmap` and `Persist` work on the source's own arrays: pages as bytes in flat areas, versions, user
counts, 16-bit twin slots, and the area of twin pages with its overlapping version words.  `TwinCommit` says on values
what a fault and a commit do, and states the invariant that makes one shared twin per page serve all writers that have
yet to commit.  `Machine` lets any number of threads run any program against this: a program is a function from a thread's
own state, the memory it sees and whatever else threads share to its next action.  `Memory` says what programs read back
of what they write, `Slots` how long the twin slots last, and `Determinism` compares runs.

**Fence, token, phases.**  `Fence` has a step for every region of `waitFence` under the lock and for every look of its
unlocked spins, with threads joining and quitting in between.  `Phases` adds the two fences of each synchronisation, the
token and the ring, and `Progress` shows that phases end.  `Runtime` runs `Phases` and `Machine` together: the phases and
turns that the commit protocol takes for granted are derived from the counters of the fence.  `Runs` holds what is true
of runs of any such system.

**Locks, lists, queues.**  `Mutex` has a lock's entry, and `mutex_lock` as a series of accesses to it; `Locks` interleaves
them on top of `Phases`.  `Ring` is the intrusive circular list with its pointers, `Determ` the condition, barrier and
join queues on it, and `Conserve` the same operations on sequences, with the question of where each thread is.

**Calls.**  `Kernel` says what the calls of `xrun.h` do step by step with fence, token, queues and locks; whom a call wakes
and whether a lock is refused come from queues and locks, which are part of the state.  `Calls` says what each call comes
to, `Exclusion` who holds which lock, `Lapse` where that fails, and `KernelRuns` proves programs of such calls deterministic
through the whole runtime.

**Assignment solver.**  `Munkres` follows the steps of `as_solve` on matrices, with `float` as `real`.

**Dedup.**  `BinHeap`, `SearchTree`, `Pending` and `Reorder` are the writer's reordering; `Writer`, `FileFormat` and `Encoder`
make the file; `Grammar` says which files can be read; `Decoder` reads them in four stages over circular buffers; `Dedup`
puts both ends together.

**Heap.**  `Kingsley` has the size classes, `Heaps` the layered allocator in one memory that also holds headers and free lists.

`Counting`, `Bytes` and `Division` are about finite sets, bytes and arithmetic.

## What is assumed

- Synchronisation objects are initialised while one thread runs; only the master spawns, before the fence starts, and
  `startFence` sees `_currthreads == 0`; a barrier counts all working threads; only held locks are unlocked; only a parent
  joins its child.
- Programs store within the protected pages.  Globals and heap are one range of pages.
- No serial phase needs more than 3070 twin slots.  `TwinCommit.OverrunIff` says exactly when a commit does,
  `Slots.RoomIff` when a run does, and `Slots.ModestHasRoom` that 3070 uncommitted pages at the beginning of a serial phase
  are never too many.  `Bitmap.SafeSlots` says why: from there on version words run into twin pages, although
  `xbitmap::get` would hand out slots up to 81918.
- Determinism of programs asks that in no parallel phase the thread that alone has used a lock and another thread both call
  `mutex_lock` for it (`KernelRuns.Uncontended`).  Any number of other threads may.  It is asked of one run only, and
  then holds for all: how often newcomers overwrite each other's counts does not matter.  Where it is broken, whether the
  owner gets its lock at once depends on who goes first: see `Locks.OwnerRace` and `Locks.FastPathIff`.
- Programs call `cond_wait` with the token, as it asserts, and `barrier_wait` without; without the token they unlock only
  locks that they hold.  Steps that break this are not modelled.
- zlib and SHA-1 are functions.  The round trip asks that unzip undoes zip on the chunks, that their digests differ, and that
  the chunks fit the decoder's buffers, which hold one item less than they have places and are not checked.

## Findings

- `lock_isowner` counts a second user without the token.  Whether the owner then gets its lock at once depends on who goes
  first (`Locks.OwnerRace`), exactly when some other thread calls `mutex_lock` for it in the phase (`Locks.FastPathIff`).
- `total_users` may fall (`Locks.UsersMayDecrease`), exactly when three or more threads besides the owner call
  `mutex_lock` in one phase (`Locks.UsersFallIff`), but never from two or more back to one (`Locks.OwnershipEnds`).
- `cond_wait` ignores whether it gets its lock back.  Two threads may then hold one lock (`Lapse.TwoHold`); locks stay in
  order exactly when it does get it (`Exclusion.RetakeIff`).
- Version words overlap twin pages beyond slot 3070 (`Bitmap.SafeSlots`), long before the allocator's own limit.

## Model

| member | source | states |
|---|---|---|
| Pages.WritePageDiffs | src/include/xpersist.h:494-542 | the word-wise diff changes exactly the bytes of the page where the local copy differs from the twin, and nothing outside it |
| Pages.WritePageDiffsMasked | src/include/xpersist.h:507-527 | the same for the masked 16-byte stores of the SSE path |
| Pages.CommitWord | src/include/xpersist.h:494-500 | the bytes of one word that differ from the twin are merged |
| Pages.CopyIsOverlay | src/include/xpersist.h:831-834 | why memcpy is right for a page that is still at its base: copying equals merging the changed bytes |
| Pages.OverlaysCommute | src/include/xpersist.h:503-542 | merges of byte-disjoint changes commute |
| TwinCommit.CommitPageEffect | src/include/xpersist.h:737-862 | with the twin invariant, one turn of the commit loop merges exactly the bytes changed since the fault, whichever branch runs |
| TwinCommit.CommitPageKeeps | src/include/xpersist.h:737-862 | one turn keeps the twin invariant of every page and thread |
| TwinCommit.OverrunIff | src/include/xpersist.h:545-567 | a commit runs out of slots if and only if, beforehand, fewer are free than there are pages to commit with another uncommitted writer and no twin |
| TwinCommit.CommitCorrect | src/include/xpersist.h:720-865 | a whole commit by the token holder, if there is room by OverrunIff: shared pages get exactly its changed bytes, each committed page one version more, and the invariant stays |
| TwinCommit.HolderAsserts | src/include/xpersist.h:816-838 | the assertions bitmapIndex != 0 never fail for the token holder, if there is room for its twins |
| TwinCommit.RoomTwice | src/include/xpersist.h:720-865 | room for the twins of two commits, counted before the first, is room for each |
| TwinCommit.FaultCorrect | src/include/xpersist.h:422-480 | a fault by the holder, or by anybody while the page has no twin, keeps the invariant |
| TwinCommit.StoreCorrect | src/include/xpersist.h:422-480 | later writes to a page that is dirty already keep the invariant |
| TwinCommit.PassToken | src/include/determ.h:398-421 | the token may pass once its holder has nothing uncommitted |
| TwinCommit.AllCommitted | src/include/determ.h:372-380 | when everybody has committed every page has no twin and no users, so the slots may be handed out afresh |
| TwinCommit.DisjointCommitsCommute | src/include/xpersist.h:720-865 | two writers with byte-disjoint changes may commit in either order |
| TwinCommit.LaterCommitWins | src/include/xpersist.h:720-865 | where two writers changed one byte, the byte of the later committer stays |
| Bitmap.SafeSlots | src/include/xbitmap.h:58-104 | setting the version of a slot leaves all twin pages alone if and only if the slot is at most 3070 |
| Bitmap.VersionsApart | src/include/xbitmap.h:102-109 | version words of different slots do not disturb each other; a version is kept modulo 2^32 |
| Bitmap.WordRoundTrip | src/include/xbitmap.h:102-109 | a version read back is the version modulo 2^32 |
| Bitmap.XBitmap.Get | src/include/xbitmap.h:84-96 | hands out the next slot unless the last but one of INITIAL_PAGES is reached |
| Bitmap.XBitmap.SetVersion | src/include/xbitmap.h:102-104 | writes exactly the four bytes of the version word |
| Bitmap.XBitmap.GetVersion | src/include/xbitmap.h:106-109 | reads that word |
| Bitmap.XBitmap.Cleanup | src/include/xbitmap.h:112-117 | all slots are free again |
| Persist.XPersist.HandleWrite | src/include/xpersist.h:422-480 | the arrays after a write fault are Fault and Snapshot of the shared state |
| Persist.XPersist.CreateTwinPage | src/include/xpersist.h:545-567 | the twin is a copy of the shared page in a new slot, all other twins as before |
| Persist.XPersist.WritePage | src/include/xpersist.h:831-843 | the shared page becomes WriteBack of it; fails exactly when a twin is needed and absent |
| Persist.XPersist.Retire | src/include/xpersist.h:850-863 | one user less, one version more, and the twin is given up by the last user |
| Persist.XPersist.CheckAndCommit | src/include/xpersist.h:720-865 | the loop over dirty pages computes Commit on the arrays, and fails exactly when an assertion fails |
| Persist.XPersist.CommitTurn | src/include/xrun.h:657-675 | atomicEnd(false) and atomicBegin(true) by the token holder: never fails, merges exactly its changed bytes, starts afresh, keeps the invariant for all |
| Persist.XPersist.UpdateAll | src/include/xpersist.h:868-889 | private copies are dropped, the shared state is untouched |
| Machine.StepKeepsInv | src/include/xrun.h:450-562 | every step of every thread of any program keeps the twin invariant |
| Machine.RunKeepsInv | src/include/xrun.h:450-562 | the twin invariant holds in every reachable state |
| Machine.HolderCommits | src/include/xrun.h:505-512 | the token holder's commit merges its changes and leaves it clean |
| Machine.SimStep | src/include/xpersist.h:720-865 | a step of the runtime looks to programs like a step of the machine that merely merges changed bytes |
| Machine.OverrunsIff | src/include/xpersist.h:545-567 | a step of the machine runs out of slots exactly when there is no room before it |
| Machine.RunRefines | src/include/xpersist.h:720-865 | whole runs in which each commit finds room refine the merging machine: versions, user counts and twins are invisible |
| Memory.StoreTakes | src/include/xpersist.h:422-480 | a store, with the fault that may come first, changes exactly one byte of what its own thread sees, and nothing that another sees |
| Memory.FaultHides | src/include/xpersist.h:422-480 | a fault makes the page dirty, shows nobody a difference, and the same store is next |
| Memory.QuietHides | src/include/xrun.h:450-462 | what is neither store nor commit changes nobody's view |
| Memory.CommitShows | src/include/xrun.h:657-675 | when it takes the token, and at each synchronisation under it, a thread merges its changes into the share and sees the share; the others see it too, but for pages they have dirty |
| Memory.StoreLasts | src/include/xpersist.h:422-480 | a thread reads what it wrote, whatever others do and commit, until it commits or writes there again |
| Memory.StoreReachesShare | src/include/xpersist.h:811-865 | at the next commit the byte reaches the share if it differs from the page as it was at the fault, and otherwise what others committed there stays |
| Slots.StepTakes | src/include/determ.h:370-380 | the slot counter is at one in every parallel phase, and in a serial phase counts the twins of that phase |
| Slots.RoomIff | src/include/xbitmap.h:84-117 | a run never lacks a slot if and only if each of its serial phases, by itself, needs twins for at most 3070 pages |
| Slots.ModestHasRoom | src/include/xpersist.h:545-567 | in a serial phase no page takes a second twin: at most 3070 uncommitted pages at its beginning are enough |
| Slots.FewPagesRefine | src/include/xpersist.h:720-865 | with at most 3070 pages every run of every program refines the merging machine, and never runs out of slots |
| Determinism.PhaseDeterminism | src/include/xpersist.h:422-480 | two complete interleavings of one parallel phase, from states that are the same to its threads, end in states that are the same to them, if in one of the two no step is a race; `KernelRuns.StepSeen` shows what that means for pages and locks |
| Determinism.RunsAgree | src/include/determ.h:387-421 | two runs, one without races, that stop at the same fence exit end in alike states |
| Determinism.SharedMemoryAgrees | src/include/determ.h:317-396 | between serial phases shared pages, versions and ring depend only on program, start and number of phases, if one of the two runs is without races |
| Fence.StepCorrect | src/include/determ.h:219-385 | every region of waitFence, on the spinning and on the blocking path, keeps the invariant and is a step, or no step, of one abstract cyclic barrier |
| Fence.ArriveCorrect | src/include/determ.h:343-368 | an arrival under the lock is an arrival at the abstract barrier; the last one opens it and leaves |
| Fence.LeaveCorrect | src/include/determ.h:370-383 | a departure is a departure; the last one closes the barrier |
| Fence.IncrCorrect | src/include/determ.h:232-234 | a thread may join while others are inside |
| Fence.DecrCorrect | src/include/determ.h:238-248 | a thread that quits opens the barrier if all others are inside |
| Fence.DecrOpens | src/include/determ.h:238-248 | when a thread quits the arrival phase ends exactly if somebody remains and all who do are inside |
| Fence.WaysToWait | src/include/determ.h:326-363 | who has to wait spins if all threads have a core, and blocks otherwise |
| Fence.StartCorrect | src/include/determ.h:219-229 | startFence with nobody inside adds the children as members |
| Fence.RoundSafety | src/include/determ.h:317-385 | nobody has left a round that a counted thread has not arrived in, and nobody is a round ahead |
| Fence.NoMissedPhase | src/include/determ.h:326-368 | until a waiting thread moves on itself, nobody ends the phase it waits for |
| Fence.RunKeepsInv | src/include/determ.h:219-385 | the invariant in every reachable state |
| Phases.PhaseSeparation | src/include/xrun.h:456-562 | while a thread holds the token nobody is in user code and nobody else holds it |
| Phases.FencesInStep | src/include/xrun.h:450-462 | nobody is inside the fence before a serial phase while somebody is inside the one after it |
| Phases.SyncKeepsInv | src/include/xrun.h:450-462 | calling waitFence keeps the phase invariant |
| Phases.InFenceKeepsInv | src/include/determ.h:317-385 | every later region of waitFence keeps it |
| Phases.GetTokenKeepsInv | src/include/determ.h:387-396 | taking the token keeps it |
| Phases.PutTokenKeepsInv | src/include/determ.h:398-421 | passing the token keeps it |
| Phases.SleepKeepsInv | src/include/determ.h:755-786 | cond_wait and barrier_wait, which leave ring and fence, keep it |
| Phases.WakeKeepsInv | src/include/determ.h:822-901 | signal and broadcast, which put sleepers behind the token, keep it |
| Phases.GatherKeepsInv | src/include/determ.h:992-1008 | the last thread of a full barrier, which frees all others, keeps it |
| Progress.StepFalls | src/include/xrun.h:450-654 | every step but a wake-up brings the end of the phase nearer |
| Progress.PhaseEnds | src/include/xrun.h:450-654 | a phase without wake-ups is over after at most eight steps per thread, however they interleave: no waiting loop of fence or token goes on for ever |
| Progress.NeverStuck | src/include/xrun.h:450-654 | while a thread is in the ring some thread can go on, and none need be woken for that: no deadlock in fence and token |
| Progress.PhaseTurns | src/include/determ.h:317-421 | so longer runs without wake-ups have left the phase |
| Phases.RunSeparation | src/include/xrun.h:450-654 | phase separation in every reachable state |
| Runtime.StepCorrect | src/include/xrun.h:450-675 | a step of fence, token and program together keeps the joint invariant, and its memory part is a step the commit protocol allows |
| Runtime.RunIsMachineRun | src/include/xrun.h:450-675 | whatever the interleaving of regions, spins, token steps and actions, memory goes through a run of the commit machine |
| Runtime.ActionsHappen | src/include/xrun.h:450-675 | nothing a program does is lost between fence and memory: each action in user code or with the token is a step of the memory |
| Runtime.ArrivalsHappen | src/include/determ.h:343-368 | a synchronisation becomes a step of the memory exactly when its thread arrives at the fence before the serial phase, and no other region is one |
| Runtime.MemoryIsDeterministic | src/include/xrun.h:450-675 | determinism of fence, token, commits and program together: shared pages between serial phases depend on program, initial state and phase number only, whatever the second run does, if the first is without races |
| Runtime.CommitsAlone | src/include/xrun.h:450-675 | whenever shared pages change, the writer is first in the ring and no thread is in user code |
| Runtime.Begins | src/include/determ.h:219-229 | startFence by a lone master makes a state that all this holds from, for any children, pages and programs |
| Runtime.LastArrival | src/include/determ.h:343-368 | the last arrival at the fence is that of the last thread that memory waits for |
| Mutex.LockEntry.constructor | src/include/determ.h:617-629 | a new lock has no users, and whatever budget was there |
| Mutex.OwnerSteps | src/include/determ.h:642-664 | the accesses of mutex_lock up to its decision, undisturbed, are lock_isowner: they add the same user, and owners and single threads, and only they, go on without the token |
| Mutex.AcquireSteps | src/include/determ.h:678-717 | the accesses after that, undisturbed, are lock_acquire with ownership and budget |
| Mutex.LockEntry.TryAcquire | src/include/determ.h:678-717 | the fields after lock_acquire, and its result, are those of Acquire, which AcquireSteps, TakenUntilReleased and BudgetRefuses are about |
| Mutex.TakenUntilReleased | src/include/determ.h:719-722 | a lock that has been taken refuses everybody and stays as it is until lock_release; then it refuses nobody but an owner without budget |
| Mutex.BudgetRefuses | src/include/determ.h:698-714 | a sole owner is refused its k-th re-acquisition iff k is a multiple of 10 and others work; it stays the owner, and nobody else is |
| Locks.StepKeepsInv | src/include/determ.h:642-722 | every single access to a lock keeps the invariant |
| Locks.OneAcquires | src/include/xrun.h:474-533 | no two threads are in lock_acquire of one lock, with or without the token |
| Locks.ComesOutHolding | src/include/xrun.h:495-533 | a thread comes out of mutex_lock only by getting the lock, which nobody held |
| Locks.UnlockReleases | src/include/determ.h:719-722 | after an unlock nobody holds the lock, and it is not marked as taken |
| Locks.MutualExclusion | src/include/xrun.h:474-562 | in every run of locks and unlocks at most one thread is between acquire and release of a lock |
| Locks.OwnershipEnds | src/include/determ.h:642-664 | once two threads have used a lock nobody is its owner again |
| Locks.UsersMayDecrease | src/include/determ.h:657-659 | a concrete run in which total_users falls from 3 to 2, by a lost update |
| Locks.UsersFallIff | src/include/determ.h:651-661 | total_users of an owned lock falls in some interleaving of a parallel phase, arrivals at the fence included, if and only if at least three threads other than the owner call mutex_lock for it in the phase |
| Locks.OwnerRace | src/include/xrun.h:495-502 | a concrete pair of interleavings of one phase: the owner gets its lock at once in one and not in the other |
| Locks.FastPathIff | src/include/xrun.h:495-502 | in a parallel phase, arrivals at the fence included, all interleavings agree on whether the owner finds itself the owner if and only if no other thread calls mutex_lock for its lock |
| KernelRuns.StepSeen | src/include/xrun.h:474-533 | a step of a parallel phase, accesses to locks included, changes nothing that another thread of the phase ever asks about, and to its own thread it is nothing yet or the step it expected |
| KernelRuns.NewcomerSeen | src/include/determ.h:642-664 | a thread that counts itself in for a lock of another makes the lock one of several users and goes for the token, whatever numbers it and further newcomers read and write in between |
| KernelRuns.StepKeepsInv | src/include/xrun.h:474-654 | every step of every program of mutex_lock, mutex_unlock, cond_wait, cond_signal, cond_broadcast and barrier_wait keeps twins, queues and locks in order, races for ownership included |
| KernelRuns.TurnWakes | src/include/determ.h:822-901 | cond_signal and cond_broadcast find asleep whom they wake, the longest waiter or all, and the ring is the active list again |
| KernelRuns.TurnGathers | src/include/determ.h:992-1008 | the last thread at a barrier finds all others asleep there |
| KernelRuns.ClaimsGovern | src/include/xrun.h:495-502 | alike states stay alike through parallel and serial phases, if in one of two runs each lock is, in each parallel phase, called for by newcomers only or by its owner only; numbers of users beyond one do not matter |
| KernelRuns.ClaimsIff | src/include/xrun.h:495-502 | a run can be divided so if and only if in none of its parallel phases a lock is called for both by the thread that alone has used it and by another |
| KernelRuns.ProgramsAreDeterministic | src/include/xrun.h:450-654 | determinism of programs with locks (taken with the token, by ownership, or by a single thread), conditions and barriers, through the whole runtime: pages, versions, ring and queues between serial phases depend on program, initial state and phase number only, if in some run so far no lock was called for in one parallel phase both by the thread that alone had used it and by another |
| KernelRuns.RunConserves | src/include/determ.h:755-1031 | in every reachable state of the whole runtime the ring is the active list, _maxthreads counts it, and each thread is in the ring or in one queue |
| KernelRuns.Begins | src/include/determ.h:219-229 | such runs can begin with any threads, pages, locks, conditions and barriers |
| Exclusion.LocksAlone | src/include/xrun.h:495-533 | a thread comes out of mutex_lock only when nobody was between lock and unlock of that lock, and the lock is then marked as taken; one that is refused stays in |
| Exclusion.LocksAsAWhole | src/include/xrun.h:493-502 | mutex_lock, undisturbed, through fence, token and memory: owners and single threads get lock_acquire as a whole without the token, anybody else is counted in by lock_isowner and goes for the token |
| Exclusion.TokenLock | src/include/xrun.h:503-533 | with the token the lock is had exactly if lock_acquire says so; a thread that is refused passes the token and asks again in its next turn |
| Exclusion.UnlockFrees | src/include/determ.h:719-722 | after mutex_unlock, and when a thread goes to sleep in cond_wait, the lock is not taken |
| Exclusion.TokenHolds | src/include/xrun.h:487-491 | whoever has the token in user code holds some lock |
| Exclusion.TokenTillUnlocked | src/include/xrun.h:535-562 | a thread with the token passes it at mutex_unlock exactly when it holds no further lock |
| Exclusion.StepKeeps | src/include/xrun.h:474-562 | every step of every program keeps at most one holder for each lock, marked as taken exactly while somebody holds it or is about to, and _lock_count the number of locks held, if only held locks are unlocked and cond_wait gets its lock back |
| Exclusion.RetakeIff | src/include/determ.h:815-816 | that order survives the end of cond_wait if and only if the lock_acquire there, whose result is ignored, succeeds |
| Exclusion.ProgramsExclude | src/include/xrun.h:474-562 | mutual exclusion of programs, in every reachable state of the whole runtime, under the same condition |
| Lapse.TwoHold | src/include/determ.h:791-816 | a concrete program of two threads, and a run in which locks are used as they should, after which both are between mutex_lock and mutex_unlock of one lock: the first keeps it in a cond_wait on another lock, the second is refused it at the end of its own cond_wait and goes on |
| Calls.SignalWakes | src/include/determ.h:822-901 | cond_signal wakes the longest waiter and cond_broadcast all, in order, behind the caller, which commits; nothing else moves |
| Calls.WaitSleeps | src/include/determ.h:755-786 | cond_wait commits, frees the lock, and goes from the ring to the end of the list of its condition |
| Calls.BarrierWaits | src/include/determ.h:974-1031 | barrier_wait commits; the last thread puts all others before itself and the parallel phase begins, any other goes to the end of the list of its barrier |
| Calls.HandingPasses | src/include/determ.h:398-421 | after the last unlock, or a signal that waited for the token, the token goes to the next thread, and the holder to the end of the ring |
| Calls.LockCalls | src/include/xrun.h:474-562 | mutex_lock counts up, mutex_unlock down, and neither commits by itself |
| Calls.CallsWait | src/include/xrun.h:570-654 | without the token cond_signal, cond_broadcast and barrier_wait go to the fence first, and are made with the token |
| Ring.InsertTail | src/include/list.h:82-103 | appends to the circular list |
| Ring.InsertHead | src/include/list.h:107-122 | inserts behind the entry pointed to |
| Ring.RemoveEntry | src/include/list.h:137-158 | removes the entry from the ring and moves the head pointer off it |
| Ring.RemoveHeadEntry | src/include/list.h:179-188 | takes the first entry, or none |
| Ring.MoveWholeList | src/include/list.h:53-79 | splices a whole list behind an entry and empties it |
| Ring.Rotated | src/include/list.h:137-158 | a ring may be read from any of its entries |
| Determ.Determ.constructor | src/include/determ.h:425-431 | one working thread, holding the token |
| Determ.Determ.RegisterThread | src/include/determ.h:436-461 | a child goes to the end of the list |
| Determ.Determ.PutToken | src/include/determ.h:398-421 | the ring turns by one |
| Determ.Determ.DecrFence | src/include/determ.h:238-248 | counter and phase flag after one thread less are those of Fence.DecrFence, for every fence state they belong to |
| Determ.Determ.CondWait | src/include/determ.h:755-786 | the holder goes from the ring to the end of the condition list, the token to the next, and counter and phase flag are those of a fence that the holder quits |
| Determ.Determ.CondSignal | src/include/determ.h:822-860 | the longest waiter goes behind the token |
| Determ.Determ.CondBroadcast | src/include/determ.h:862-901 | all waiters go behind the token in order, all marked ready |
| Determ.Determ.BarrierWait | src/include/determ.h:974-1031 | the last thread puts all others before itself; any other leaves the ring for the barrier list, and counter and phase flag are those of a fence that it quits |
| Determ.Determ.Join | src/include/determ.h:497-534 | the holder leaves the ring and the fence iff the other thread has not exited; counter and phase flag are then those of a fence that it quits |
| Determ.Determ.Deregister | src/include/determ.h:570-615 | the exiting holder leaves the ring and the fence, with counter and phase flag of a fence that it quits, and a parent that waits for it gets the token |
| Determ.Determ.Awaken | src/include/determ.h:539-549 | a woken joiner is counted again |
| Determ.CondSteps | src/include/determ.h:755-901 | what CondWait, CondSignal and CondBroadcast promise of lists and counter is a step of Conserve |
| Determ.BarrierSteps | src/include/determ.h:974-1031 | the same of BarrierWait |
| Determ.OtherSteps | src/include/determ.h:398-549 | the same of PutToken, Join and Awaken |
| Determ.ExitSteps | src/include/determ.h:570-615 | the same of Deregister |
| Conserve.ExactlyOne | src/include/determ.h:497-615 | each live thread is in exactly one of ring, one condition list, one barrier list, or a join |
| Conserve.StepKeepsInv | src/include/determ.h:497-1031 | every operation keeps that, and that waiters, threads, _maxthreads and _alivethreads are right, and that nobody waits for an exited thread |
| Conserve.StartInv | src/include/determ.h:425-461 | with all threads in the ring and empty queues the invariant holds |
| Conserve.RunConserves | src/include/determ.h:497-1031 | conservation and the counters in every reachable state |
| Conserve.SignalsReverse | src/include/determ.h:822-860 | k successive signals put the k longest waiters behind the token in reverse order |
| Conserve.WakeOrders | src/include/determ.h:822-901 | a broadcast and as many signals wake the same threads, in opposite orders |
| Munkres.Solve | eval/tests/ferret/assign.c:49-185 | for every n and every cost matrix: terminates, M is the permutation matrix of an assignment, and its cost, which is returned, is a lower bound of all |
| Munkres.Optimal | eval/tests/ferret/assign.c:58-73 | an assignment on zeros of reduced costs is cheapest |
| Munkres.Duality | eval/tests/ferret/assign.c:58-73 | the cost of any assignment is its reduced cost plus the potentials |
| Munkres.PermutedSum | eval/tests/ferret/assign.c:179-183 | a sum over columns may be taken in the order of an assignment |
| Munkres.SubtractRowMinima | eval/tests/ferret/assign.c:61-66 | reduced costs stay non-negative |
| Munkres.SubtractColumnMinima | eval/tests/ferret/assign.c:68-73 | reduced costs stay non-negative |
| Munkres.StarZeros | eval/tests/ferret/assign.c:82-95 | the first stars are independent and on zeros |
| Munkres.CoverStarColumns | eval/tests/ferret/assign.c:98-110 | covers the columns of stars and counts them |
| Munkres.PrimeUncoveredZero | eval/tests/ferret/assign.c:115-126 | a prime is put on an uncovered zero, if there is one |
| Munkres.CoverRow | eval/tests/ferret/assign.c:128-130 | the prime's row is covered and its star's column uncovered; the invariant stays |
| Munkres.FlipPath | eval/tests/ferret/assign.c:137-147 | the alternating path ends, always finds its prime (the assertion holds), and visits primes in reverse order of creation |
| Munkres.Augment | eval/tests/ferret/assign.c:149-157 | flipping the path gives independent stars, one more than before |
| Munkres.ExtendPath | eval/tests/ferret/assign.c:138-147 | the next star of the path is in a row not visited before |
| Munkres.ShiftPotentials | eval/tests/ferret/assign.c:162-173 | step 5 keeps reduced costs non-negative and stars and primes on zeros, and brings an uncovered zero nearer |
| Munkres.RunSteps | eval/tests/ferret/assign.c:98-174 | the jumps between the steps terminate, with a star in every row |
| Munkres.SumMarked | eval/tests/ferret/assign.c:179-183 | the result is the cost of the starred assignment |
| BinHeap.PriorityQueue.Insert | eval/tests/dedup/binheap.c:53-80 | adds the element, keeps the heap order |
| BinHeap.PriorityQueue.DeleteMin | eval/tests/dedup/binheap.c:83-111 | takes out a least element, keeps the heap order |
| BinHeap.PriorityQueue.FindMin | eval/tests/dedup/binheap.c:114-121 | a least element, or null when empty |
| BinHeap.RootIsMin | eval/tests/dedup/binheap.c:114-121 | the first element of a heap is its least |
| BinHeap.PercolateUp | eval/tests/dedup/binheap.c:75-77 | one turn of the loop in Insert keeps the order but for the moving element |
| BinHeap.PercolateDown | eval/tests/dedup/binheap.c:97-107 | one turn of the loop in DeleteMin keeps the order but for the moving element |
| SearchTree.TreeFind | eval/tests/dedup/tree.c:30-42 | finds exactly the ids that are there |
| SearchTree.TreeFindMin | eval/tests/dedup/tree.c:44-55 | finds the least id, or null |
| SearchTree.TreeInsert | eval/tests/dedup/tree.c:67-92 | adds the element unless its id is there; keeps the order |
| SearchTree.TreeDelete | eval/tests/dedup/tree.c:94-128 | removes exactly this id; keeps the order, with two children too |
| Pending.Put | eval/tests/dedup/encoder.c:993-1018 | a block out of turn goes to the heap of its anchor, in a new heap if need be |
| Pending.First | eval/tests/dedup/encoder.c:931-936 | the least anchor and its least chunk |
| Pending.Remove | eval/tests/dedup/encoder.c:976-991 | takes that chunk out, and an emptied heap out of the tree |
| Reorder.SendBlock | eval/tests/dedup/encoder.c:811-1104 | for every arrival order of complete items: each block written once, by anchor and chunk, numbered 0, 1, 2, ...; the tree ends empty |
| Reorder.Drain | eval/tests/dedup/encoder.c:931-993 | blocks that have become next are written, and afterwards the next one does not wait |
| Reorder.OneOrder | eval/tests/dedup/encoder.c:857-1018 | there is only one file order |
| Reorder.SameFile | eval/tests/dedup/encoder.c:857-1018 | so the order written does not depend on the order of arrival |
| Writer.OutputFile.WriteFile | eval/tests/dedup/encoder.c:67-83 | one record: type, number, length, content |
| Writer.OutputFile.Write | eval/tests/dedup/encoder.c:881-913 | data the first time, the digest afterwards |
| Bytes.RoundTrip | eval/tests/dedup/decoder.c:336-346 | a number read back from its bytes is the number, if it fits |
| FileFormat.WriterMakesFile | eval/tests/dedup/encoder.c:881-929 | from a cache of compressed chunks the writer makes exactly FileOf |
| FileFormat.ParseRecord | eval/tests/dedup/decoder.c:332-395 | a record is read back as written |
| FileFormat.ParseFile | eval/tests/dedup/decoder.c:306-419 | the whole file is read back as header and numbered parts |
| FileFormat.StoredOnce | eval/tests/dedup/encoder.c:881-929 | deduplication: the data of each digest is in the file once, at its first chunk, and every later chunk has the digest alone |
| Grammar.AcceptedIff | eval/tests/dedup/decoder.c:306-419 | any file is read to its end if and only if it is made of headers with the check word, complete records and meaningless bytes up to the end byte; and what is handed on is what they hold |
| Encoder.Segment | eval/tests/dedup/encoder.c:452-523 | the segments are non-empty, at most 60 KB, and concatenate to the coarse chunk |
| Encoder.Process | eval/tests/dedup/encoder.c:221-319 | every digest in the cache comes with the data of a chunk that has it |
| Encoder.Pipeline | eval/tests/dedup/encoder.c:550-682 | items for all places with the right digests; the chunks concatenate to the input |
| Encoder.Encode | eval/tests/dedup/encoder.c:1117-1324 | the file is FileOf the chunks of the input |
| Decoder.CircularBuffer.Put | eval/tests/dedup/decoder.c:76-79 | a queue, up to one item less than its places |
| Decoder.CircularBuffer.Take | eval/tests/dedup/decoder.c:102-104 | first in, first out |
| Decoder.RecvBlock | eval/tests/dedup/decoder.c:306-419 | sorts what Parse finds by type, for any file; not ok exactly for broken ones |
| Decoder.Decompress | eval/tests/dedup/decoder.c:93-149 | all data parts unzipped, and in the cache by digest |
| Decoder.CheckCache | eval/tests/dedup/decoder.c:51-88 | all digests replaced by what the cache has |
| Decoder.ListInsert | eval/tests/dedup/decoder.c:151-174 | keeps the list sorted, with the new node in its place |
| Decoder.Flush | eval/tests/dedup/decoder.c:224-239 | writes what has become next from the list |
| Decoder.Reassemble | eval/tests/dedup/decoder.c:180-300 | whatever the order of the chunks after the header, the file is their concatenation |
| Decoder.DigestFound | eval/tests/dedup/decoder.c:51-88 | every digest in a file written by Encode is found, with the right chunk |
| Decoder.GatheredIsPermuted | eval/tests/dedup/decoder.c:427-440 | the parts that reach the last stage are each chunk once |
| Decoder.Decode | eval/tests/dedup/decoder.c:427-440 | decoding FileOf gives the concatenation of the chunks |
| Dedup.RoundTrip | eval/tests/dedup/decoder.c:427-440 | decoding what Encode wrote gives the input |
| Kingsley.Size2Class | src/include/heaplayers/kingsleyheap.h:65-101 | the least class large enough |
| Kingsley.ClassIsUnique | src/include/heaplayers/kingsleyheap.h:65-106 | there is only one such class |
| Kingsley.ClassOfItsSize | src/include/heaplayers/kingsleyheap.h:104-106 | the two functions are inverse on class sizes |
| Kingsley.ClassInRange | src/include/heaplayers/segheap.h:316-322 | sizes up to the last class have a class below NUMBINS |
| Heaps.PPHeap.PageMalloc | src/include/xheap.h:89-134 | whole fresh pages, or the program ends |
| Heaps.PPHeap.Reserve | src/include/heaplayers/zoneheap.h:64-101 | room in the current arena, or in a new one whose size and place are given; which of them, and where, does not change by it |
| Heaps.SideBySide | src/include/heaplayers/zoneheap.h:104-120 | while the arena suffices, requests succeed and lie side by side |
| Heaps.NewChunk | src/include/heaplayers/zoneheap.h:75-101 | when the arena does not suffice, a request succeeds exactly if there are pages for a chunk, or for itself if larger, and leaves exactly the rest of the chunk |
| Heaps.ChunkServes | src/include/heaplayers/zoneheap.h:64-101 | a chunk serves as many requests of a size as fit, side by side, without another page, and the next one needs another arena |
| Heaps.PPHeap.SourceMalloc | src/include/warpheap.h:53-77 | a new object with its header, overlapping nothing, where ZoneMalloc says; arena and pages left as it says |
| Heaps.PPHeap.SegMalloc | src/include/heaplayers/segheap.h:313-331 | the first freed object of the class of the size, with the arena untouched, or else a new one where ZoneMalloc says |
| Heaps.PPHeap.Malloc | src/include/warpheap.h:159-166 | an aligned object of the least class for the size and 16, live from now on and not live before; the first of the bin, or new where ZoneMalloc says, exactly when there is room; all live contents as before |
| Heaps.PPHeap.Free | src/include/warpheap.h:168-175 | the object goes to the bin of exactly its size in the freeing heap; very large ones are lost; all live contents as before |
| Heaps.PPHeap.PutIntoBin | src/include/heaplayers/util/sllist.h:77-80 | the free list links through the freed object |
| Heaps.PPHeap.TakeFromBin | src/include/heaplayers/util/sllist.h:55-62 | the first of the free list |
| Heaps.PPHeap.Store | src/include/warpheap.h:53-77 | writing inside a live object harms no header and no free list |
| Heaps.PPHeap.LiveApart | src/include/warpheap.h:53-96 | live objects with their headers do not overlap, across all heaps |
| Heaps.PPHeap.OneBin | src/include/heaplayers/segheap.h:333-357 | an object is in one bin only, and the bin has exactly its size |
| Heaps.Carved | src/include/heaplayers/zoneheap.h:105-120 | carving an object from an arena keeps everything apart |
| Heaps.WriteInside | src/include/warpheap.h:53-96 | a word inside an object in no list may be written |

## Left out

- `mmap`, `mprotect`, signals, `clone`, `madvise` and file backing: a fault is a step that copies the page, and dropping a private copy makes the shared page visible again.
- `LAZY_COMMIT`, the `update == true` branch of `checkandcommit`, and `cancel`, `kill`, `sig_wait`, nested spawning.
- Phase separation across `join` and exit: a woken joiner is counted late, so only conservation is claimed for them.
- Exclusion.ProgramsExclude: a `cond_wait` that does not get its lock back ends what is claimed; `Exclusion.RetakeIff` says when.
- Versions are unbounded: the comparison of an `int` with an `unsigned long` after 2^31 commits of a page is not modelled.
- User counts are unbounded: there are fewer threads than 2^16.
- Persist.XPersist.CheckAndCommit: says nothing once the twin slots are used up, because twins are overwritten then.
- Persist.XPersist.CreateTwinPage: likewise, beyond slot 3070.
- Machine.StepKeepsInv: says nothing of twins once slots have run out.
- Machine.RunKeepsInv: likewise.
- KernelRuns.ProgramsAreDeterministic: `cond_wait` releases its lock when it passes the token, where the source does so just after, so that the next thread may still find it taken; nor does a spurious wake-up release it again.
- KernelRuns.TurnGathers: the last thread at a barrier is alone in the ring, since barriers count all working threads; waiting at the real barrier and its clean-up of the twin slots are the end of the serial phase.
- Persist.XPersist.HandleWrite: the dirty list is a map by page number, not the multimap's nodes; its order, by page number, is that of the loop.
- Phases.RunSeparation: barriers of all working threads only, since others leave threads in user code.
- Determ.Determ.CondWait: ends where the thread begins to wait; `lock_release` and waking up are in `Kernel`, `Phases` and `Conserve`.
- Determ.Determ.BarrierWait: `xbitmap::cleanup` is in `Machine`, where a phase ends.
- Determ.Determ.Join: ends where the thread begins to wait; being put back and waking up are Deregister and Awaken.
- Determ.Determ.RegisterThread: while the token is still at the head of the list, as it is before the fence starts.
- Munkres.Solve: `float` is `real`, without rounding; `MAXFLOAT` is a positive parameter, and no cost is assumed to be below it.
- The parallel dedup pipeline, whose `chunks_per_anchor` is read before it is final; `DataProcess`; `COMPRESS_NONE` and `COMPRESS_BZIP2`.
- Reorder.SendBlock: items for all places, so that the final loop over what is left has nothing to do.
- Pending.Put: one block for each place, as complete items have.
- Decoder.CheckCache: digests that are in the cache; for any other the source waits for ever.
- Decoder.ListInsert: each number once, as files from the writer have.
- Decoder.Reassemble: the header first and then each chunk once; the branch for chunks before the header is not modelled.
- Decoder.Decode: files of the form that the writer makes; `Decoder.RecvBlock` takes any file.
- SearchTree.TreeFindMin: `pmin` is never set to a node anywhere, so its shortcut is not modelled.
- The hash table is a map.  `rabinseg` is a function that returns a length between one and what it is shown.
- Decoder.RecvBlock: files with fewer parts than a buffer has places, as nobody checks for room; the messages about numbers out of sequence are not modelled.
- Encoder.Segment: the branch for a remainder after the loop is never taken and does nothing here.
- Heaps.PPHeap.Malloc: sizes are unbounded, so a size so close to 2^64 that rounding it up wraps around is not modelled; out of memory is reported, where the program would end.
- Heaps.PPHeap.Free: the loop to a smaller class never runs, since sizes are exact; `memoryHeld`, `realloc`, `calloc` and the list of past arenas are not modelled.
- The Sparc variant of `size2Class`.
- Profiling, ferret's other parts, blackscholes, canneal, the Mersenne Twister and the other Heap Layers.
