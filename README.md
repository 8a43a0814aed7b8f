# Upcall dispatch of a capability, modelled in Dafny

This project models the upcall core of a GHC runtime variant with lightweight
concurrency (`rts/Upcalls.c`, `rts/Upcalls.h`). A capability runs deferred
work, called upcalls, on its own reused upcall thread. Examples are resuming
a thread blocked on a black hole, switching to the next thread, and running a
finalizer. The model covers:

- the bounded upcall queue: a work-stealing deque of closure pointers
  (`UpcallQueue = WSDeque`, `Upcall = StgClosure*`), kept in a circular
  buffer of 2^k slots with `top`/`bottom` counters and the mask
  `moduloSize = 2^k - 1`;
- the dual-purpose `cap->upcall_thread` slot. It holds the idle upcall
  thread when an ordinary thread is active, or nothing before the upcall
  thread is created. It holds the saved original
  thread, possibly none, while the upcall thread is active;
- the thread records (`is_upcall_thread`, `what_next`, `why_blocked`,
  `finalizer`, `_link`, the saved closures and an abstract stack);
- the swap state machine `prepareUpcallThread` / `restoreCurrentThreadIfNecessary`,
  the predicate `pendingUpcalls`, the three upcall builders, and the garbage
  collector's root walk `traverseUpcallQueue`.

Files and modules:

- `closures.dfy` (`Closures`): closure terms `Named | App | IntLit`, built by
  `RtsApply`/`RtsMkInt`.
- `threads.dfy` (`Threads`): `Tso` records. END_TSO_QUEUE is `None`
  (`options.dfy`).
- `upcall_builders.dfy` (`UpcallBuilders`): the builders. `Classify` reads back
  what a built upcall asks the lightweight scheduler to do.
- `ring_index.dfy` (`RingIndex`): `& modMask` as a bitwise AND on naturals.
  It proves that masking with 2^k - 1 is reduction modulo 2^k. It also proves
  that fewer than 2^k consecutive counters pick distinct slots. These proofs
  hold for any power-of-two capacity.
- `upcall_spec.dfy` (`UpcallSpec`): the swap machine as functions on
  `CapState(queue, slot, threads)`, with the lemmas about whole episodes.
- `capability.dfy` (`Upcalls`): the class `Capability`, whose fields the methods
  update in place. `PrepareUpcallThread`, `PrimeUpcallThread` and
  `RestoreCurrentThreadIfNecessary` are proved to end in the state that
  `UpcallSpec.Prepare`, `UpcallSpec.Dispatch` and `UpcallSpec.Restore` give.
  The queue methods `AddUpcall`, `PopUpcallQueue` and `TraverseUpcallQueue`,
  and `InitUpcallThreadOnCapability`, are specified directly on the queued
  upcalls `Contents()`, the buffer `elements` and the fields they change.

Decisions taken where the sources leave room:

- `popWSDeque` lives in rts/WSDeque.c, which this model does not cover. It is modelled at the owner's end
  (the newest upcall), as GHC's work-stealing deque pops. No FIFO order is
  claimed: nothing in rts/Upcalls.c or rts/Upcalls.h fixes the order, and the owner's pop of
  a work-stealing deque is LIFO.
- `pendingUpcalls`'s header comment (rts/Upcalls.h:38-40) counts the case
  "the slot holds the saved thread". The saved thread may be END_TSO_QUEUE
  (rts/Upcalls.c:127-129), and then the code (rts/Upcalls.c:188) answers
  false. The model follows the code: a slot holding nothing is not pending.
- `restoreCurrentThreadIfNecessary` takes a thread handle, not an optional
  one: rts/Upcalls.c:137 reads `current_thread->is_upcall_thread` without
  testing for END_TSO_QUEUE first, so its callers must pass a real thread.
- `restoreCurrentThreadIfNecessary`'s header comment (rts/Upcalls.h:46-48)
  omits the completion test. The code (rts/Upcalls.c:137-138) swaps only when
  `what_next == ThreadComplete`, and the model follows the code.
- The `ASSERT` at rts/Upcalls.c:105 (`what_next != ThreadKilled`) already
  follows from the test at line 100. The model proves it as an assertion.
- The `ASSERT`s of the builders and the one at rts/Upcalls.c:97 are
  preconditions. The one at line 97 is the thread-identity invariant
  `UpcallSpec.SlotConsistent`: the slot holds nothing or an upcall thread,
  unless the upcall thread is the active one.
- `traverseUpcallQueue` returns the sequence of slots it visited, so that its
  contract can say how often and where the visitor was called.

## Model

| member | source | states |
|---|---|---|
| `UpcallBuilders.GetResumeThreadUpcall` | rts/Upcalls.c:35-46 | requires a non-upcall thread whose resume closure is not the default placeholder; the result is a resume upcall carrying exactly that saved closure |
| `UpcallBuilders.GetSwitchToNextThreadUpcall` | rts/Upcalls.c:53-65 | requires a non-upcall thread whose switch closure is not the placeholder; the result is a switch upcall carrying that closure and the policy argument 4 |
| `UpcallBuilders.GetFinalizerUpcall` | rts/Upcalls.c:67-73 | requires a non-upcall thread; the upcall is the thread's saved finalizer, unapplied |
| `RingIndex.BitAndLowMask` | rts/Upcalls.c:174 | `i & (2^k - 1)` equals `i mod 2^k` for every counter i |
| `RingIndex.SlotIndex` | rts/Upcalls.c:167-174 | the slot a counter selects is its remainder modulo the capacity, so it lies inside the buffer |
| `RingIndex.SlotsDistinct` | rts/Upcalls.c:169-176 | counters fewer than capacity apart select different slots |
| `RingIndex.LiveAppend` | rts/Upcalls.c:30 | writing the slot after the newest entry of a non-full queue appends and leaves every live entry intact |
| `RingIndex.LiveShrink` | rts/Upcalls.h:64-67 | removing the newest entry leaves the older entries; the removed one is the slot of `bottom - 1` |
| `UpcallSpec.SwapIn` | rts/Upcalls.c:79-97 | the thread prepare proceeds with is an upcall thread, the queue is untouched, and a thread that must be primed has an upcall waiting |
| `UpcallSpec.Prepare` | rts/Upcalls.c:76-125 | returns an upcall thread; saves current in the slot unless current is the upcall thread; creates a thread exactly when current is not an upcall thread and the slot is empty; every existing thread keeps its upcall flag; when current is not the upcall thread the slot afterwards holds no upcall thread; loses and duplicates no thread |
| `UpcallSpec.PrepareReentersRunningUpcall` | rts/Upcalls.c:99-101 | re-entering a running upcall thread returns it and changes nothing |
| `UpcallSpec.PrepareResumesBlockedUpcall` | rts/Upcalls.c:83-101 | switching from an ordinary thread to an upcall thread that has not completed only swaps the slot: no pop, no record change |
| `UpcallSpec.PreparePrimesCompletedThread` | rts/Upcalls.c:103-124 | a completed upcall thread gets the newest queued upcall: that one is removed; `_link`, `what_next`, `why_blocked` and `finalizer` are reset; the stack is dirty and exactly [stop frame, call of the upcall]; other records are kept |
| `UpcallSpec.Dispatch` | rts/Upcalls.c:99-124 | a running upcall thread leaves the state unchanged; a completed one loses exactly the newest queued upcall to its record, which becomes runnable with that upcall as finalizer; the slot and every other record are kept |
| `UpcallSpec.Restore` | rts/Upcalls.c:131-148 | a finished upcall thread gets the slot's contents back (possibly none) and is parked in the slot; any other thread is returned with the slot unchanged; no thread is lost or duplicated; after a finished upcall the identity invariant holds for whichever thread runs next |
| `UpcallSpec.EpisodeRoundTrip` | rts/Upcalls.c:76-148 | for any run of the upcall to completion, restore returns exactly the thread given to prepare, which is a different thread; the upcall thread is parked in the slot; the saved original counts as pending until then; afterwards pending means the queue is non-empty |
| `UpcallSpec.FirstEpisode` | rts/Upcalls.c:76-148 | from no upcall thread and one queued upcall, assuming the created thread starts in ThreadComplete: prepare creates the thread, primes it with that upcall and empties the queue; restore returns the original and nothing is pending |
| `UpcallSpec.SecondEpisodeReusesUpcallThread` | rts/Upcalls.c:86-94 | after one episode the next prepare from an ordinary thread reuses the same upcall thread and creates none |
| `Upcalls.UpcallQueueCapacity` | rts/Upcalls.c:20-24 | the capacity 4096 is 2^12, a power of two |
| `Upcalls.Capability.Alloc` | rts/Upcalls.c:20-24 | the capability allocUpcallQueue gives: an empty queue of exactly 4096 slots and an empty slot |
| `Upcalls.Capability.constructor` | rts/Upcalls.c:20-24 | a new capability has an empty queue of 2^k slots and an empty slot |
| `Upcalls.Capability.UpcallQueueSize` | rts/Upcalls.h:59-62 | the size is the number of queued upcalls, at most the capacity, and changes nothing |
| `Upcalls.Capability.IsUpcallThread` | rts/Upcalls.h:70-73 | the answer is the thread record's flag |
| `Upcalls.Capability.PendingUpcalls` | rts/Upcalls.c:183-192 | true iff an upcall is queued, or the queue is empty and the slot holds a saved non-upcall thread (the contract at rts/Upcalls.h:38-40) |
| `Upcalls.Capability.AddUpcall` | rts/Upcalls.c:27-33 | fatal exactly when the queue is full, and then nothing is written; otherwise the upcall is appended and existing entries stay |
| `Upcalls.Capability.PopUpcallQueue` | rts/Upcalls.h:64-67 | on a non-empty queue removes and returns the newest upcall, so the size drops by one; on an empty queue returns None |
| `Upcalls.Capability.InitUpcallThreadOnCapability` | rts/Upcalls.c:86-87 | the slot receives a new handle whose record is flagged as the upcall thread |
| `Upcalls.Capability.PrimeUpcallThread` | rts/Upcalls.c:103-124 | the new state is the dispatch step of the specification applied to the old one |
| `Upcalls.Capability.PrepareUpcallThread` | rts/Upcalls.c:76-125 | the result and the new state are those of `UpcallSpec.Prepare` on the old state |
| `Upcalls.Capability.RestoreCurrentThreadIfNecessary` | rts/Upcalls.c:131-148 | the result and the new state are those of `UpcallSpec.Restore` on the old state |
| `Upcalls.Capability.TraverseUpcallQueue` | rts/Upcalls.c:152-181 | the visitor is called exactly `bottom - top` times, on slots `(top + k) & modMask`, which are pairwise distinct; only those slots change; `top`/`bottom` do not; the queue afterwards is the visitor applied to each queued upcall |

## Left out

- The `WSDeque` implementation (`newWSDeque`, `pushWSDeque`, `popWSDeque`, `dequeElements`) is not part of this model. It is replaced by the contracts above. Stealing, memory barriers, the compare-and-swap on `top` for the last element, and concurrent access by other workers are not modelled.
- `allocUpcallQueue`'s rounding of the requested size to a power of two is inside `newWSDeque`. The constructor takes the power (12 for the source's 4096).
- Counter wrap-around: `top` and `bottom` are machine words in the source. They are unbounded naturals here.
- `initUpcallThreadOnCapability` and `createThread` are not part of this model. Only the new record's upcall flag is promised. `UpcallSpec.FirstEpisode` therefore assumes the created thread starts in ThreadComplete. The thread table is given to the constructor.
- Upcalls.Capability.PrepareUpcallThread: requires a queued upcall whenever the upcall thread must be primed. The source pops without checking and would install a NULL closure. When it creates the upcall thread it requires a queued upcall even though the new record's `what_next` is not promised.
- The evacuation function `evac` and its `user` argument are a pure function from a slot's closure to its new closure. The collector's own state and stop-the-world synchronisation are not modelled.
- `debugTrace` output is left out. `barf` is the `Fatal` outcome of `AddUpcall`.
- `rts_apply`, `rts_mkInt` and `pushCallToClosure` build abstract terms and frames. Heap allocation, `sizeofW(StgStopFrame)`, `SET_HDR` and `sp` arithmetic are not modelled.
- That there is only one upcall thread per capability, and that `is_upcall_thread` never changes, are not invariants of the class. The episode lemmas assume the second one for the interval in which the upcall runs.
- The interpreter that runs the upcall thread is outside the model. The episode lemmas accept any state in which the upcall thread has completed and the slot is untouched.
- `rts/Weak.h` only declares the finalizer subsystem's entry points. It has no logic to model.
