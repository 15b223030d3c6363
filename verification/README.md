# Verification of mpi_abi_wrapper

mpi_abi_wrapper lets a program compiled against the standard MPI ABI run over an MPI implementation with an ABI of its
own. Between the two stand generated wrapper bodies, which convert every argument in and every answer out, and a few
small run-time tables. This project models those parts in Dafny and proves that they do what they are for: over every
parameter list, every interleaving of any number of threads, every table and every value.

`dafny verify dfyconfig.toml` checks all of it.

## The parts

**Staged temporaries that outlive their call.** A nonblocking or persistent collective may go on reading arrays the
wrapper has converted, so those live in a block owned by a request value, in a lock-free table. `StagedTable` (over
`StagedKeys`) has the table as one thread sees it, in place; `StagedLifetime` has every atomic step of any number of
threads posting, starting, completing and releasing, and `StagedAlone` shows that the steps of a thread nobody
interrupts are the whole calls. Under the settled discipline -- a nulled value stays out of circulation until it has
been looked up -- no block is freed while it may still be read, and all of them are freed in the end. `StagedAnyRun` has
what holds without it, and `StagedClaims` exactly how far: a claim is safe if and only if no older holder of the value
can still come to the claimed slot. `StagedReissue` has a run that is not safe, and `StagedTidy` where blocks end up.

**The body generator as a compiler.** `GenIR` gives the emitted statements a meaning in which reading an undefined
local, writing through null, indexing out of bounds, releasing what is not held or freeing a block twice is a fault.
`GenEmit` is the generator, with both its assemblers: the one for bodies that release their temporaries, and the one for
bodies that stage past their return and hand their one block (`Carving`) to the request table. `GenSpec` says, parameter
by parameter and without mention of statements, what a wrapper has to do. The proof follows the body from group to group
(`GenRows`, `GenPre`, `GenStaging`, `GenFilling`, `GenCalling`, `GenReturning`, `GenLeaving`, `GenMeaning`, and
`GenOwning` for the second assembler); `GenTheorems` has the results, and `GenEmission` the generator's loops.

**The large-count fallback** (`LargeCount`) is the second compilation of a signature, against the small-count twin: its
body refines the first's. **`Waitall`** is the hand-written reference body, over arrays, and the generated body
simulates it.

**Lock-free registries** (`ErrorRegistry`, `AutoBuffers`, `Trampolines`) are interleaved transition systems with
inductive invariants; `ErrorCodes` adds the whole calls, in place, and the round trip with the predefined codes.
`ErrorAlone`, `BufferCalls` and `TrampolineCalls` say what a call finds, run alone and in any interleaving.

**Indexes that must agree with a map** (`ReverseMap`, `Handles`, `HandleBench`), over arrays and loops, against
`Common.Assoc`, the linear search of a list of pairs. **Conversions** (`Conversions`, `StatusBlob`) are round trips
with their exact domains.

**The tools** (`OutParamAudit`, `ImplProbe`, `LayoutHash`) and the load-time probe (`ResolutionProbe`).

## What turned out not to hold

- NOTES.md section 6.3 rests freeing by request value on an inference: no two live operations share a value. A value may
  be reissued between the nulling of its handle and the release that follows, and then the pending release can free the
  block of the new operation, which is still running (`StagedReissue.ReissueFreesLiveBlock`) -- also where the older
  operation never had an entry, since every completion call looks. The exact condition is on claims: from
  some state of a run, steps without another such claim lead to the freeing of a block that is still read if and only if
  the run has claimed a slot, for an operation still to be read, to which the completion call of an older holder may
  still come -- its search not yet begun, or not past that slot, or about to lock it (`StagedClaims.CleanExactly`; for a
  single claim, `StagedClaims.SafeExactlyWhenClean`).
- The same section says the table declines a second block for a key it holds. The code takes the first free slot or
  tombstone before it meets the key, so it declines exactly when no tombstone precedes the entry
  (`StagedTable.DeclinesHeldKey`).
- The narrowing loop reads its array where MPI_IN_PLACE makes the array ignored; `GenTheorems.WrapperMeaning` has the
  exact condition under which a legal call faults, and `GenTheorems.InPlaceCallFaults` such calls. The converting loop
  reads nothing then.
- A negative length that is narrowed after the first array it sizes is answered ERR_INTERN rather than ERR_COUNT
  (`GenTheorems.NegativeLength`).
- A body that stages past its return loses its block where the request's handle collides with the reserved range, or a
  handle error is left over on the thread: it is neither freed nor kept (`GenTheorems.BlockAccounted`).
- Two overlapping releases of one scope can free another scope's block (`AutoBuffers.OverlappingReleases`): exactly
  when a slot is claimed that a release of another scope has found and not yet emptied (`AutoBuffers.CleanExactly`).
- A null function registered as an operator shares its trampoline with the next one (`Trampolines.NullSharesSlot`).
- Interpolation search never finds the key of a one-element table (`HandleBench.Sorted.InterpolationSearch`).
- The excerpt examples/mpiwrapper_convert.c treats two predefined handles of one value as a collision; handles.c keeps
  the first. `ReverseMap.Map.Build` has both.

## What is assumed

- Atomic operations are single sequentially consistent steps.
- An implementation nulls the request of a nonblocking operation only when it is complete and of a persistent one only
  when it is inactive, reads a nonblocking operation's arrays only until completion and a persistent one's until the
  request is freed (sections 6.12 and 6.13 of MPI-5.0), and shares a request value only among operations complete on
  return. `MPI_Request_get_status` answers truthfully.
- What an implementation leaves behind a pointer has the type of the object there (`GenSpec.Answers`); where it has
  written nothing through the pointer to a local, that is whatever the local held.
- The arrays a caller passes lie in memory: where a body stages past its return, their elements together can be counted
  in a size_t (`GenSpec.InMemory`).
- The compiler that `ImplProbe` asks diagnoses at least one missing name in every failing file, and none that is
  declared.

## Model

| member | source | states |
|---|---|---|
| `StagedKeys.Home` | src/mpiwrapper/staging.c:77-87 | A request handle's home slot is one of the table's, whatever its bits. |
| `StagedKeys.ProbeOrder` | src/mpiwrapper/staging.c:107-108 | The i-th probe is reached by advancing the slot modulo the table's size. |
| `StagedKeys.ProbesDiffer` | src/mpiwrapper/staging.c:107-108 | One pass over the table visits no slot twice. |
| `StagedTable.AttachAt` | src/mpiwrapper/staging.c:107-130 | An attach stops at the first slot that is free or already carries its key, and at no other. |
| `StagedTable.ReleaseAt` | src/mpiwrapper/staging.c:262-267 | A release stops at the first slot never used or carrying its key, passing tombstones and locked slots. |
| `StagedTable.RequestTable.constructor` | src/mpiwrapper/staging.c:69-75 | Static storage is the empty table: no key, no block, nothing live. |
| `StagedTable.RequestTable.Attach` | src/mpiwrapper/staging.c:94-132 | Which of the three fates an attach meets, the exact slot and block it stores, and that the other two fates change nothing; the live count stays the number of entries. |
| `StagedTable.RequestTable.Bury` | src/mpiwrapper/staging.c:270-280 | Claim, clear, tombstone: exactly this entry goes, its block is handed over once, the live count drops by one. |
| `StagedTable.RequestTable.Release` | src/mpiwrapper/staging.c:257-282 | For every request value: frees the block found under it and leaves a tombstone, or changes nothing; skipping the search when nothing is live loses no entry. |
| `StagedTable.FoundIffPresent` | src/mpiwrapper/staging.c:255-282 | In every reachable table, for every hash, a release finds an entry exactly when the table carries the key. |
| `StagedTable.OthersUndisturbed` | src/mpiwrapper/staging.c:49-50 | Tombstones and new entries neither truncate nor redirect the search for any other key. |
| `StagedTable.StaysReachable` | src/mpiwrapper/staging.c:92-132 | Attaches and releases keep every entry reachable from its home slot. |
| `StagedTable.AttachThenRelease` | src/mpiwrapper/staging.c:94-132 | A block just stored is the one a release of its request finds, even where the table already carried the key. |
| `StagedTable.FullIffNoRoom` | src/mpiwrapper/staging.c:131 | FULL is answered exactly when no slot is free and the key is absent. |
| `StagedTable.DeclinesHeldKey` | src/mpiwrapper/staging.c:112-129 | A second block for a held key is declined if and only if no tombstone precedes the entry on its probe sequence; otherwise it is stored in front of it. |
| `StagedTable.ReissueRelease` | src/mpiwrapper/staging.c:255-282 | After a key was attached twice, a release reaches the older entry if and only if no tombstone precedes it, and the newer one otherwise. |
| `StagedLifetime.ActionInv` | src/mpiwrapper/staging.c:94-282 | Every atomic step of every thread -- keep, probe, compare-and-swap, publish, count, seek, lock, take, bury, free -- preserves the ownership invariant of all blocks. |
| `StagedLifetime.StepInv` | src/mpiwrapper/staging.c:94-282 | A step that re-establishes its own operation's part of the invariant disturbs no other operation and no slot. |
| `StagedLifetime.SeekStep` | src/mpiwrapper/staging.c:262-268 | A releaser's cursor never passes, nor stops short of, the slot its operation holds. |
| `StagedLifetime.NoForeignKey` | src/mpiwrapper/staging.c:94-132 | A slot carrying an operation's request value is the slot that operation holds. |
| `StagedLifetime.RunInv` | dev/generate.py:2857-2888 | The invariant holds in every state of every settled run of posts, starts, completions, waits and frees, by any number of threads. |
| `StagedLifetime.LifetimeSafety` | dev/generate.py:2857-2888 | In settled runs no block is freed while the implementation may still read it, and none is freed twice. |
| `StagedLifetime.LifetimeComplete` | dev/generate.py:2669-2694 | In settled runs, once the completion that nulled the handle has returned, the block is freed unless a full table leaked it; no duplicate arises; keep itself drops only what nothing still reads, never a persistent operation's arrays. |
| `StagedLifetime.TableSound` | src/mpiwrapper/staging.c:49-58 | In settled runs the table never points at freed memory and no block is in two slots. |
| `StagedAnyRun.NeverFreedTwice` | src/mpiwrapper/staging.c:257-282 | In every run, settled or not, no block is freed twice, and a block in the table is in one slot and has not been freed. |
| `StagedAnyRun.SafeWhileClean` | src/mpiwrapper/staging.c:94-132 | No block is freed while it may be read in any clean run: one in which no slot is claimed, for an operation still to be read, where an older holder of its value may still come to that slot. |
| `StagedAnyRun.SettledIsClean` | src/mpiwrapper/staging.c:94-282 | Every settled run is clean. |
| `StagedClaims.SafeExactlyWhenClean` | src/mpiwrapper/staging.c:106-114 | In any state a clean run reaches, a claim is clean if and only if no clean continuation of it frees a block that is still read. |
| `StagedClaims.CleanExactly` | src/mpiwrapper/staging.c:94-282 | Any run at all is clean if and only if from none of its states clean steps lead to the freeing of a block that is still read. |
| `StagedClaims.UncleanFrees` | src/mpiwrapper/staging.c:257-282 | After an unclean claim the claimer and one older holder, with no further claim by anyone, free the claimer's block while it is read. |
| `StagedReissue.ReissueFreesLiveBlock` | src/mpiwrapper/staging.c:257-282 | There are unclean runs that free a block which is being read: in a table of any size and for any request value; the older holder need never have had an entry. |
| `StagedTidy.NothingLost` | src/mpiwrapper/staging.c:94-282 | Where no claim at all meets an older holder, nothing stored is lost: it is in the table with its own completion still to come to it, or being released by a completion of its value, or freed once -- and freed when all of that value are released. Dropped blocks are freed, and exactly the duplicate and the full ones leak. |
| `StagedTidy.SettledIsTidy` | src/mpiwrapper/staging.c:94-282 | Every settled run is such a run. |
| `StagedTidy.ForeignRelease` | src/mpiwrapper/staging.c:257-282 | In such runs it need not be the operation's own completion call that frees its block: one for a later operation of the value, which stored nothing, can. |
| `StagedAlone.KeepAlone` | src/mpiwrapper/staging.c:208-255 | The atomic steps of a poster nobody interrupts are the whole call: dropped as keep says, or the fate, the keys and the blocks of one attach. |
| `StagedAlone.ReleaseAlone` | src/mpiwrapper/staging.c:257-282 | And those of a completion call are one release. |
| `GenTheorems.WrapperMeaning` | dev/generate.py:1861-2696 | For every list of parameter classes, whichever assembler its body comes from, every implementation and every legal call: the body refuses as specified without calling, or calls once with the converted arguments and leaves the caller the converted answers, its block and the request table as specified; and it faults exactly where it reads an array the caller was free to leave out. |
| `GenTheorems.EarlyExitDefinesOuts` | dev/generate.py:2699-2824 | An exit before the call leaves every out handle null and every out integer zero, and nothing else changed. |
| `GenTheorems.ExitsReleaseTemporaries` | dev/generate.py:2530-2533 | Every exit has released every temporary of the call exactly once; the implementation is called at most once, and not at all exactly when the wrapper refuses; a body that stages nothing past its return never touches the request table. |
| `GenTheorems.BlockAccounted` | dev/generate.py:2544-2696 | Where the block of a body that stages past its return ends up, exactly: owned by the request table, lost -- also through a handle error left over on the thread -- or freed once, whatever the exit. |
| `GenTheorems.KeptIsFound` | src/mpiwrapper/staging.c:208-255 | A kept block is what a completion call finds under the request it was kept for, and the caller holds that request. |
| `GenTheorems.LentArraySurvives` | dev/generate.py:2297-2320 | Where a routine takes an array that is converted or narrowed and hands back a request: if the call succeeds and the request is incomplete, nothing that holds the array is freed by the time the body returns, neither the block nor a temporary of the body's own. |
| `GenTheorems.PersistentNeverDropped` | dev/generate.py:2332-2364 | If the routine takes an MPI_Info too, that holds of every call that succeeds, whatever the implementation says about completion. |
| `GenTheorems.CompleteIsFreed` | dev/generate.py:2332-2364 | If it does not, a request that comes back complete and can be reported has its block freed at once. |
| `GenTheorems.ClashReported` | dev/generate.py:2518-2528 | A returned handle the ABI cannot represent makes the answer ERR_INTERN, whichever out or array it comes back in. |
| `GenTheorems.StretchesApart` | dev/generate.py:2593-2649 | Inside the block every array has its own stretch, as long as its extent, in both layouts. |
| `GenTheorems.InPlaceCallFaults` | dev/generate.py:1826-1839 | Every in-place call of MPI_Alltoallv_c's fallback without send counts faults, on a communicator of any size. |
| `GenTheorems.OnlyIgnoredFaults` | dev/generate.py:1826-1853 | A legal call faults only over an array MPI_IN_PLACE makes ignored and that is narrowed. |
| `GenTheorems.FillSkipsIgnoredArray` | dev/generate.py:1841-1853 | An ignored array that is converted is not read: the implementation sees the class's null handles. |
| `GenTheorems.NegativeLength` | dev/generate.py:1926-1943 | A negative length, nothing else being wrong, is answered ERR_COUNT exactly where some check sees it, and ERR_INTERN otherwise: its first array precedes the parameter that narrows it. |
| `GenTheorems.FailureOuts` | dev/generate.py:2507-2516 | After a failed call handles are null and arrays of answers untouched; the other outs pass on what the implementation left. |
| `GenEmission.EmitBody` | dev/generate.py:1861-2696 | The imperative emission, parameter by parameter and group by group, and the choice between the assemblers, give exactly the lines whose meaning is proved. |
| `GenEmission.LentIsNotReleased` | dev/generate.py:2367-2372 | The temporary of an array is released when the body returns exactly where the routine does not lend it -- to an operation whose request it hands back -- and carved out of a block exactly where it does. |
| `GenEmission.NoAbiArgument` | dev/generate.py:4437-4449 | In the whole of an emitted body no ABI-typed parameter is in the argument list of a call; a routine that lends its arrays gets a body without temporaries of its own, every other one a body without a block. |
| `GenIR.ExecConcat` | dev/generate.py:2367-2541 | Executing two groups of lines joined is executing one after the other. |
| `GenIR.ExecJump` | dev/generate.py:2440 | A goto passes every statement but the label. |
| `GenPre.DefineOuts` | dev/generate.py:2783-2791 | The defining lines give every out its default and touch nothing else, null pointers of MPI_T included. |
| `GenPre.Refuses` | dev/generate.py:2794-2824 | A guard that fires returns its error with every out defined. |
| `GenPre.ChecksAll` | dev/generate.py:2380-2389 | All checks in order: the first value that cannot be used decides the error, and otherwise every narrowed local holds its value. |
| `GenStaging.ProbesAll` | dev/generate.py:2827-2854 | All extent queries: the first that fails returns the implementation's own error; otherwise every length is known. |
| `GenStaging.AllocsAll` | dev/generate.py:2425-2450 | All temporaries are allocated, each wanted one once, or the first failure jumps to the label with only those held. |
| `GenFilling.FillsAll` | dev/generate.py:2453-2475 | All temporaries hold the converted arrays, or the first element that does not fit jumps with VALUE_TOO_LARGE and every out defined. |
| `GenFilling.DeclarationsRun` | dev/generate.py:2380-2404 | Declarations split at the last checked one, checks and queries: refused exactly as specified, or ready to stage. |
| `GenFilling.StagingRun` | dev/generate.py:2406-2478 | Staging as a whole: out of memory, a misfit, or every temporary ready, and nothing called yet. |
| `GenCalling.ArgsImages` | dev/generate.py:1945-2274 | What the argument list passes is the specified image of the caller's arguments, one by one. |
| `GenCalling.CallRun` | dev/generate.py:2487-2500 | After the call every answer is behind the pointer that was passed, and nowhere else. |
| `GenReturning.PostsAll` | dev/generate.py:2512-2513 | Every scalar out receives its converted answer: a handle only on success, null otherwise. |
| `GenReturning.ReleasesRun` | dev/generate.py:2857-2888 | The staged blocks released are those of exactly the requests the call nulled, by their values before it. |
| `GenLeaving.CopyBacksAll` | dev/generate.py:2891-2917 | Requests are copied back even after an error, other arrays only after success, statuses only if wanted. |
| `GenLeaving.MapsAll` | dev/generate.py:2918-2922 | In-place arrays are mapped where they lie, as many elements as the call reports. |
| `GenMeaning.CallingRun` | dev/generate.py:2479-2528 | From the call to the result: every parameter holds what the specification says. |
| `GenMeaning.LabelRun` | dev/generate.py:2530-2533 | At the label every temporary still held is released, and only those. |
| `GenMeaning.AbortRun` | dev/generate.py:2440 | Every jump to the label releases what it holds and returns the error set before it. |
| `GenMeaning.StagedDoes` | dev/generate.py:2406-2541 | A body that releases its own temporaries does what the specification says, or faults where it says. |
| `GenOwning.CountedIn` | dev/generate.py:2593-2630 | Every length counts towards nstaged, also where each is added only once, and the sum does not wrap around. |
| `GenOwning.LayoutSound` | dev/generate.py:2566-2577 | Where all elements are of one type the block is counted in elements of that size. |
| `GenOwning.LiveNatural` | dev/generate.py:2598-2603 | No heap grants a block for a negative length: it is a size_t in the upper half. |
| `GenOwning.CarvesAll` | dev/generate.py:2605-2648 | Every array is carved out of the block, inside it, or the block is null and every array empty. |
| `GenOwning.BlockFillsAll` | dev/generate.py:2651-2666 | Every array is converted inside the block, or the first that does not fit gives the block back, defines the outs and refuses. |
| `GenOwning.FailureRun` | dev/generate.py:2673-2677 | After a failed call the block is given back and every out defined. |
| `GenOwning.KeepRun` | dev/generate.py:2690-2694 | Keeping leaves block, table and code as specified. |
| `GenOwning.OwningDoes` | dev/generate.py:2544-2696 | A body that stages past its return does what the specification says, or faults where it says. |
| `GenOwning.SiteRun` | dev/generate.py:1861-2696 | Either body, from entry to return. |
| `LargeCount.AssignFallback` | dev/generate.py:4366-4397 | Parameters pair with the twin's by name; there is a fallback exactly when the twin's parameters are all covered and each one can be converted. |
| `LargeCount.FallbackServes` | dev/generate.py:4199-4307 | Every class the fallback gives a parameter serves the class it had, and only a parameter the twin lacks becomes large-only. |
| `LargeCount.ServedExactly` | dev/generate.py:4199-4307 | There is a fallback exactly where every parameter the twin has can be got to it: declared and converted alike, or an integer passed alike that the twin takes as int or MPI_Aint, or an out that widens; arrays only in, and only with an extent. |
| `LargeCount.NarrowsToTwin` | src/mpiwrapper/internal.h:117-143 | What goes in and is declared differently is checked against exactly the values the twin's own type has, int or MPI_Aint; what only comes out is widened; a parameter the twin lacks is answered zero if it is an out object. |
| `LargeCount.MagnitudeFitsExactly` | src/mpiwrapper/internal.h:117-128 | The unsigned comparison of magnitudes says exactly whether a 64-bit value survives narrowing, without overflow at eight bytes. |
| `LargeCount.RefusesIffTooLarge` | dev/generate.py:1961-2013 | With lengths, queries and memory in order, the fallback refuses with VALUE_TOO_LARGE exactly when some scalar or element does not fit. |
| `LargeCount.TooLargeNeverCalls` | dev/generate.py:2453-2472 | If one value does not fit, the twin is never called and nothing stays allocated, whatever else is wrong. |
| `LargeCount.TwinReadsTheSame` | dev/generate.py:1961-1986 | Otherwise the twin reads numerically the values the large form would have read. |
| `LargeCount.TwinAnswersTheSame` | dev/generate.py:2014-2022 | The same answers leave the caller the same outs: widening loses nothing. |
| `LargeCount.LargeOnlyReportsZero` | dev/generate.py:4182-4196 | A parameter only the large form has is not passed, and its out is zero. |
| `LargeCount.FallbackRefines` | dev/generate.py:4199-4397 | The emitted fallback refines the emitted native form: it refuses with VALUE_TOO_LARGE and never calls, or calls its twin once, and with equal answers the caller gets the same code and finds the same outs. |
| `Carving.Next` | src/mpiwrapper/internal.h:168-179 | The next offset is aligned, leaves room for the array, and pads by less than the alignment; SIZE_MAX marks overflow for good. |
| `Carving.StagedNext` | src/mpiwrapper/internal.h:168-179 | The offset computed in size_t arithmetic is that one: no step wraps. |
| `Carving.Carve` | dev/generate.py:2626-2640 | The emitted chain of offsets is the layout of the block. |
| `Carving.LayoutNeverWraps` | src/mpiwrapper/internal.h:170-176 | A layout too large for the address space is never mistaken for a small one. |
| `Carving.RoomExactly` | dev/generate.py:2593-2649 | A block of one type is asked for with exactly what its elements take, and not at all exactly where no size_t says it; one of several types takes at most an alignment more per array. |
| `Carving.StretchesDisjoint` | src/mpiwrapper/internal.h:158-165 | In either layout every array has its own stretch inside the block that was asked for. |
| `Waitall.Stage` | src/mpiwrapper/staging.c:31-39 | Whatever room is answered holds the whole array, for every count; null exactly when the size overflows or the heap refuses. |
| `Waitall.Waitall` | dev/s1-reference/wrappers.c:230-302 | Over the caller's arrays, the body leaves exactly what Simulated says: the implementation sees the converted requests; the caller finds the converted answers, on error too; ignored statuses are neither staged nor written; a call not made changes nothing. |
| `Waitall.Release` | dev/s1-reference/wrappers.c:265-279 | Exactly the requests the call nulled are released, by their values before it. |
| `Waitall.ToCaller` | dev/s1-reference/wrappers.c:281-284 | All requests are written back, whatever the call answered. |
| `Waitall.GeneratedAgrees` | dev/generate.py:2367-2541 | Executing the generated body on any call -- negative counts and refused memory included -- gives what the hand-written one gives: code, what the implementation sees, blocks released, and both of the caller's arrays. |
| `Waitall.SigWellFormed` | dev/generate.py:1861-1943 | Its signature meets what the generator asks of its tables. |
| `ErrorRegistry.ActionInv` | src/mpiwrapper/errorcodes.c:90-161 | Every atomic step of every add, lookup, conversion and query preserves the registry's invariant. |
| `ErrorRegistry.SlotsIssuedOnce` | src/mpiwrapper/errorcodes.c:90-107 | In every interleaving, exactly the used slots have been issued, each once. |
| `ErrorRegistry.CounterBounded` | src/mpiwrapper/errorcodes.c:94-103 | The counter exceeds the table by at most the threads between their fetch-and-add and their clamping store. |
| `ErrorRegistry.Grows` | src/mpiwrapper/errorcodes.c:87-107 | The number of slots in use never decreases, and what was returned stays returned. |
| `ErrorRegistry.ReturnedForever` | src/mpiwrapper/errorcodes.c:104-106 | A code once returned means the same implementation code in every later state. |
| `ErrorRegistry.CallsAnswer` | src/mpiwrapper/errorcodes.c:115-161 | A conversion begun after a code was returned answers that code; a lookup begun after a registration was returned ends with that one or a newer one, and never registers the code again nor answers ERR_OTHER, which is answered only when the table is full; lastused bounds all codes returned before it began, and none that was not issued. |
| `ErrorAlone.ToAbiAlone` | src/mpiwrapper/errorcodes.c:139-161 | The steps of a lookup nobody interrupts are the whole call: the newest slot with the code, else a new one, else ERR_OTHER. |
| `ErrorAlone.AddAlone` | src/mpiwrapper/errorcodes.c:87-107 | Those of a registration take the next slot, and fail exactly when there is none. |
| `ErrorAlone.FromAbiAlone` | src/mpiwrapper/errorcodes.c:128-137 | Those of a conversion back answer the code in the slot, or ERR_OTHER. |
| `ErrorAlone.LastUsedAlone` | src/mpiwrapper/errorcodes.c:115-125 | And those of lastused the newest code, or MPI_ERR_LASTCODE. |
| `ErrorRegistry.HighBounds` | src/mpiwrapper/errorcodes.c:115-125 | The bound lastused is measured against covers every slot returned. |
| `ErrorRegistry.ZeroMatchesUnpublished` | src/mpiwrapper/errorcodes.c:82-86 | Searching for zero would match a claimed, unpublished slot, which then means something else: success has to be filtered first. |
| `ErrorCodes.Newest` | src/mpiwrapper/errorcodes.c:147-150 | The downward scan answers the highest slot holding the code. |
| `ErrorCodes.RoundTrip` | gen/mpiwrapper/constants.c:735-1001 | A code survives both conversions exactly when it is predefined, registered, or there is room; otherwise the caller gets ERR_OTHER and nothing is registered. |
| `ErrorCodes.Disjoint` | src/mpiwrapper/errorcodes.c:128-137 | Every registered slot converts back to its code and is no predefined code. |
| `ErrorCodes.RecycledNumber` | src/mpiwrapper/errorcodes.c:139-150 | A number registered again resolves to its newest registration. |
| `ErrorCodes.LastUsedBounds` | src/mpiwrapper/errorcodes.c:109-125 | lastused is at least MPI_ERR_LASTCODE, bounds every code a conversion answers, and never goes down. |
| `ErrorCodes.LastUsedAttained` | src/mpiwrapper/errorcodes.c:109-125 | It is MPI_ERR_LASTCODE for the empty registry alone, otherwise the code of the newest registration, and just what a conversion that registers answers. |
| `ErrorCodes.Unissued` | src/mpiwrapper/errorcodes.c:128-137 | A number that is no label of the switch and no registered slot becomes the implementation's MPI_ERR_OTHER. |
| `ErrorCodes.Registry.constructor` | src/mpiwrapper/errorcodes.c:87-88 | The registry starts with no codes. |
| `ErrorCodes.Registry.Add` | src/mpiwrapper/errorcodes.c:90-107 | Appends the code and answers its number, or changes nothing. |
| `ErrorCodes.Registry.LastUsed` | src/mpiwrapper/errorcodes.c:115-125 | Answers the last code issued, or MPI_ERR_LASTCODE. |
| `ErrorCodes.Registry.DynamicFrom` | src/mpiwrapper/errorcodes.c:128-137 | Answers the code registered under the number, or ERR_OTHER. |
| `ErrorCodes.Registry.Search` | src/mpiwrapper/errorcodes.c:147-150 | The loop finds the newest slot or none. |
| `ErrorCodes.Registry.DynamicTo` | src/mpiwrapper/errorcodes.c:139-161 | Finds, or else registers, or else answers ERR_OTHER. |
| `AutoBuffers.ActionInv` | src/mpiwrapper/buffers.c:81-127 | Every atomic step of every claim and release preserves the ownership invariant: in every run, in clean ones, and in those where releases of a scope do not overlap. |
| `AutoBuffers.NoDoubleFree` | src/mpiwrapper/buffers.c:115-123 | In every interleaving no block is freed twice. |
| `AutoBuffers.BlocksConserved` | src/mpiwrapper/buffers.c:81-127 | Every block is in exactly one slot, or in exactly one thread's hands, or freed once. |
| `AutoBuffers.BlockImpliesScope` | src/mpiwrapper/buffers.c:61-73 | A slot that holds a block is claimed. |
| `AutoBuffers.ReleasesOwnScope` | src/mpiwrapper/buffers.c:109-127 | In a clean run -- no slot is claimed while a release of another scope that has found it is about to take its block -- a release frees only a block claimed under its own scope. |
| `AutoBuffers.CleanExactly` | src/mpiwrapper/buffers.c:81-127 | Any run is clean if and only if from none of its states clean steps lead to a release freeing another scope's block. |
| `AutoBuffers.ApartIsClean` | src/mpiwrapper/buffers.c:109-127 | A run is clean if releases of one scope never overlap. |
| `AutoBuffers.OverlappingReleases` | src/mpiwrapper/buffers.c:112-120 | Where they do, in a table of any size, one can free another scope's block. |
| `BufferCalls.ReleaseAlone` | src/mpiwrapper/buffers.c:109-127 | A release nobody interrupts frees the block of the first slot that carries its scope and a block, gives the slot back, and answers that there is none exactly when there is none. |
| `BufferCalls.ClaimAlone` | src/mpiwrapper/buffers.c:81-107 | A claim nobody interrupts fills the first free slot, and gives up exactly when there is none. |
| `BufferCalls.Passed` | src/mpiwrapper/buffers.c:81-127 | In every run, a claim gives up only past slots each of which was claimed in some state since it began, and a release answers that there is none only past slots each of which, in some state since it began, did not carry its scope or held no block. |
| `Trampolines.ActionInv` | src/mpiwrapper/callbacks.c:107-129 | Every step of every creation, failed ones included, preserves the pool's invariant. |
| `Trampolines.DispatchForever` | src/mpiwrapper/callbacks.c:68-81 | An object's trampoline calls the function it was registered with in every later state, freed or not. |
| `Trampolines.SlotsApart` | src/mpiwrapper/hw_callbacks.c:31-51 | Distinct objects have distinct slots. |
| `Trampolines.NoSlotLost` | src/mpiwrapper/callbacks.c:107-129 | In every run a slot that is taken is that of an object or of a creation that has not ended: a failed creation gives its slot back. |
| `TrampolineCalls.AllocAlone` | src/mpiwrapper/callbacks.c:107-118 | An allocation nobody interrupts takes the first free slot, and fails exactly when there is none. |
| `TrampolineCalls.FailureGivesBack` | src/mpiwrapper/hw_callbacks.c:40-44 | A creation the implementation refuses leaves the pool as it found it. |
| `TrampolineCalls.Passed` | src/mpiwrapper/callbacks.c:107-118 | In every run the pool is reported full only past slots each of which was taken in some state since the creation began. |
| `Trampolines.NullSharesSlot` | src/mpiwrapper/callbacks.c:107-117 | A null function takes a slot without taking it: two objects then share a trampoline. |
| `Trampolines.OpPoolIndexed` | src/mpiwrapper/callbacks.c:43-59 | The trampoline at each of the 1024 positions of the expanded op pool dispatches that slot. |
| `Trampolines.ErrhandlerPoolIndexed` | src/mpiwrapper/callbacks.c:61-62 | So does each of the 256 of an error-handler pool. |
| `ReverseMap.TableSize` | dev/generate.py:3618 | The emitted size is at least 8 and 8n, and below 16n. |
| `ReverseMap.IndexInBounds` | src/mpiwrapper/internal.h:449-450 | For every key and multiplier the top bits name a slot. |
| `ReverseMap.FindIsAssoc` | src/mpiwrapper/internal.h:446-454 | A table holding the pairs answers every key, present or absent, as their list does. |
| `ReverseMap.HoldsMore` | src/mpiwrapper/handles.c:46-52 | A pair put in a free slot keeps all earlier ones. |
| `ReverseMap.HoldsAlias` | src/mpiwrapper/handles.c:35-45 | An alias leaves the first value in place, as the list's first match. |
| `ReverseMap.Map.constructor` | src/mpiwrapper/internal.h:422-428 | A table of a power of two slots. |
| `ReverseMap.Map.ShiftOf` | src/mpiwrapper/handles.c:23-24 | The loop computes 64 less the table's bits. |
| `ReverseMap.Map.Lookup` | src/mpiwrapper/internal.h:446-454 | One load and one compare answer what the table holds. |
| `ReverseMap.Map.Insert` | src/mpiwrapper/handles.c:33-52 | Stores the pair, drops an alias, or reports a collision. |
| `ReverseMap.Map.Try` | src/mpiwrapper/handles.c:28-53 | One multiplier fits exactly if it sends different keys to different slots, and, with aliases treated as collisions, keys are distinct; then the table holds all pairs, and the count is the number of pairs exactly when keys are distinct. |
| `ReverseMap.Map.Build` | src/mpiwrapper/handles.c:20-66 | It succeeds exactly when one of the 4096 multipliers it may try keeps different keys apart, and with the first that does; the map then agrees with the list on every key. With aliases treated as collisions keys have to be distinct besides (examples/mpiwrapper_convert.c:137-155). |
| `Handles.ImplRoundTrip` | src/mpiwrapper/handles.c:105-117 | An implementation handle survives exactly when it is predefined or outside the reserved range; all else is reported and becomes null. |
| `Handles.AbiRoundTrip` | gen/mpiwrapper/constants.c:52-292 | An ABI handle survives exactly when it is a canonical predefined handle, or unreserved and no predefined implementation value. |
| `Handles.CanonicalIsFirst` | src/mpiwrapper/handles.c:36-44 | The canonical label of a shared value is the ABI's first. |
| `Handles.ToAbiInjective` | src/mpiwrapper/handles.c:68-83 | No two handles convert to one unless one is reported. |
| `Handles.LackedBecomesNull` | gen/mpiwrapper/constants.c:288-291 | A reserved value this implementation lacks becomes the class null. |
| `Handles.Converter.Convert` | src/mpiwrapper/handles.c:105-117 | For every handle the map-based body answers the conversion and raises the flag exactly on a collision; a handle of all one bits is answered with what a free slot holds. |
| `Handles.Converter.TakeError` | src/mpiwrapper/handles.c:87-92 | Taking the flag answers it and clears it. |
| `Handles.InitClass` | gen/mpiwrapper/constants.c:702-724 | Initialisation fails exactly above 128 handles or where none of the 4096 multipliers keeps the class's handles apart; otherwise it yields a converter that is right for every handle. |
| `HandleBench.SortedDistinct` | dev/handle-map-bench/bench.c:119-124 | Sorting distinct keys makes them strictly ascending and loses none. |
| `HandleBench.HoldsMore` | dev/handle-map-bench/bench.c:55-61 | Filling the first free slot of a probe sequence places the key and moves nothing. |
| `HandleBench.FoundRight` | dev/handle-map-bench/bench.c:64-72 | What a probe sequence meets first decides the lookup rightly. |
| `HandleBench.Position` | dev/handle-map-bench/bench.c:149-150 | The interpolated position stays in range and meets either end exactly. |
| `HandleBench.Probing.FreeSlot` | dev/handle-map-bench/bench.c:57 | The probe loop ends at the first free slot. |
| `HandleBench.Probing.Build` | dev/handle-map-bench/bench.c:52-62 | Linear probing places every key, for fewer keys than slots. |
| `HandleBench.Probing.Lookup` | dev/handle-map-bench/bench.c:64-72 | It terminates and agrees with the list on every key. |
| `HandleBench.Perfect.Build` | dev/handle-map-bench/bench.c:87-100 | The multiplier search ends; it succeeds exactly when some multiplier before the sequence wraps around to zero separates the keys, and the table then holds every pair. |
| `HandleBench.Perfect.Lookup` | dev/handle-map-bench/bench.c:102-106 | The perfect hash agrees with the list on every key, zero included. |
| `HandleBench.Sorted.Build` | dev/handle-map-bench/bench.c:119-129 | The sorted arrays carry the list's pairs. |
| `HandleBench.Sorted.BinarySearch` | dev/handle-map-bench/bench.c:131-141 | Binary search agrees with the list on every key. |
| `HandleBench.Sorted.InterpolationSearch` | dev/handle-map-bench/bench.c:144-156 | With the position taken as an exact floor, it stays in bounds, ends, and agrees with the list on every key unless there is one key, which it never finds. |
| `OutParamAudit.InScope` | dev/check_out_params.py:88-100 | The backward loop computes the scan with a falling floor. |
| `OutParamAudit.ScanIsDominance` | dev/check_out_params.py:88-100 | On the printing of any block-structured body the scan answers exactly whether a plain assignment structurally dominates the line. |
| `OutParamAudit.Sound` | dev/check_out_params.py:88-100 | Every execution reaching a dominated line has assigned the parameter. |
| `OutParamAudit.Complete` | dev/check_out_params.py:88-100 | Where every block may be skipped, an undominated line is reached by some execution without an assignment. |
| `OutParamAudit.InScopeMeaning` | dev/check_out_params.py:88-100 | Both together, about the answer for the printed text. |
| `OutParamAudit.MissesAlwaysEntered` | dev/check_out_params.py:96-97 | An assignment in a block that is always entered is not seen: the scan errs on the safe side. |
| `OutParamAudit.Audit` | dev/check_out_params.py:109-128 | The findings are, in order, exactly the exits before the call at which an owed parameter is not in scope, one parameter at a time. |
| `ImplProbe.ProbeSource` | dev/probe_impl.py:122-156 | The line map sends each probe line to its own name and covers no other line. |
| `ImplProbe.Probe` | dev/probe_impl.py:241-259 | Any set returned is exactly the declared names; under an honest compiler no other failure is reported, and forty rounds run out only on at least forty missing probes. |
| `LayoutHash.MixInjective` | dev/layout_hash.py:41-42 | One step of FNV-1a is injective in the state and in the byte. |
| `LayoutHash.Fnv` | dev/layout_hash.py:39-43 | The loop computes the fold of the bytes. |
| `LayoutHash.OneByteShows` | dev/layout_hash.py:39-43 | Equally long texts differing in one byte never hash alike. |
| `LayoutHash.Wrap` | dev/generate.py:1700-1721 | A declaration that fits in 79 columns stays on one line. Otherwise it is broken before every argument that does not fit, and nowhere else, so that a line is wider only if it has just the thing it starts with; and its text without whitespace is the one line's. |
| `LayoutHash.BodyIndependent` | dev/layout_hash.py:30-36 | The text that is hashed does not depend on the hash already in the header. |
| `LayoutHash.EmitHeader` | dev/generate.py:3091-3115 | The header emitted in two passes names the hash of its own slot list. |
| `Conversions.PassThroughRoundTrip` | dev/generate.py:3837-3856 | With pass-through defaults an ABI value survives exactly when it is a member or no implementation value. |
| `Conversions.ImplRoundTrip` | dev/generate.py:3837-3856 | And an implementation value exactly when it is a member or no ABI value. |
| `Conversions.ConstantRoundTrip` | dev/generate.py:3852-3853 | With constant defaults only members survive, and a constant that is its own image. |
| `Conversions.Map` | dev/generate.py:3863-3880 | The emitted tests compute the mapper. |
| `Conversions.MapBit` | gen/mpiwrapper/constants.c:1056-1123 | A bit is set exactly when a member the argument touches has it. |
| `Conversions.MapDistributes` | gen/mpiwrapper/constants.c:1056-1123 | A mapper distributes over or, for any table. |
| `Conversions.MaskRoundTrip` | gen/mpiwrapper/constants.c:1056-1123 | Disjoint members on both sides: the mappers invert each other on every union of members. |
| `Conversions.MaskSurvives` | gen/mpiwrapper/constants.c:1056-1123 | Any mask survives exactly when it is the union of the members it touches. |
| `Conversions.SharedBitAnswersBoth` | gen/mpiwrapper/constants.c:1060-1062 | One mapper over two roles numbered alike answers both members for one. |
| `StatusBlob.Copy` | src/mpiwrapper/status.c:77-78 | A byte copy replaces exactly its stretch. |
| `StatusBlob.ToAbi` | src/mpiwrapper/status.c:63-107 | Both forms: the converted fields, and the private bytes in the scratch area, zero-padded, for every layout that fits. |
| `StatusBlob.FromAbi` | src/mpiwrapper/status.c:128-140 | The implementation's bytes are rebuilt, private part around the converted fields, all copies in bounds. |
| `StatusBlob.StatusRoundTrip` | src/mpiwrapper/status.c:63-140 | A status comes back with every private byte as it was, and each named field exactly where its conversion is exact. |
| `StatusBlob.RankSurvives` | src/mpiwrapper/status.c:84-85 | For ranks and tags that is: a sentinel, or no value the ABI uses for one. |
| `StatusBlob.ErrorFieldKept` | src/mpiwrapper/status.c:87-105 | A single status keeps the caller's error field, except the empty status, and the two forms differ in nothing else. |
| `StatusBlob.CopiesAreEqual` | src/mpiwrapper/status.c:14-20 | Copies of an ABI status are one status to the implementation exactly when the scratch bytes in use agree. |
| `StatusBlob.Decodes` | src/mpiwrapper/status.c:137-139 | Every int stored as four bytes reads back. |
| `ResolutionProbe.Library.Passed` | src/mpi_abi/bootstrap.c:217-234 | For every finite tree of calls the probe ends, passes exactly when no call lands in libmpi_abi, and leaves no decoy installed. |
| `ResolutionProbe.Library.Make` | src/mpi_abi/bootstrap.c:200-215 | One call of the implementation: the flag is raised exactly when some call made is captured, whichever entry point it lands on. |

## Left out

- LifetimeSafety: settled runs; StagedAnyRun.SafeWhileClean and StagedClaims.CleanExactly have exactly the safe ones.
- LifetimeComplete: settled runs, where each block is freed by its own completion; StagedTidy.NothingLost has the
  account without that, and StagedTidy.ForeignRelease why it has to do without.
- RunInv: settled runs; StagedAnyRun and StagedTidy have the invariants of the others.
- TableSound: settled runs; StagedAnyRun.NeverFreedTwice says the same of every run.
- The contents of the big tables: handles, error codes and enumeration families are any tables whose switch labels are
  distinct.
- Memory orders weaker than sequential consistency.
- Loading: dlopen, dladdr, environment variables, symbol visibility, and what happens after a refusal. For
  `ResolutionProbe`, the implementation is a finite tree of calls.
- `mpiwrapper_staged_leaked` and the diagnostic printed with it.
- In the generator: extents computed in `pre` and `reject` lines (graph constructors, clamped capacities), tool
  objects and their late declarations, the status-field accessors, returns that are not int, and the stub arm.
- In the generator: the text of the lines -- alignment, breaking, local names and their collisions. Parameters are
  named by position, and the declarations are cut at a parameter's boundary.
- In the generator: one in-place flag stands for all the arrays one buffer makes ignored, since all have its value.
- In the generator: an element of a status array is one value; `StatusBlob` has its bytes. Staged elements have more
  than one byte.
- In the generator: a routine that stages past its return has no outs but one request and the caller's own objects; the
  source stops at other handles, and declares no local for other outs.
- FallbackServes: classes of the two forms are compared by name and family, as the source compares them; the extents
  of their arrays come from the caller's entry point alone.
- Waitall: elements are values rather than bytes of handles and statuses, and the status buffer starts at zero.
- Map: masks are sets of bit positions, so `&` and `|` are intersection and union.
- InterpolationSearch: the position is an exact floor; the source rounds in double precision.
- FromAbi: in `StatusBlob`, fields are the ints of a 32-bit, least-significant-first machine, and the converted values
  have to be ints.
- InScope: a line is its indentation and whether it assigns; the regular expressions that decide the latter, and the
  splitting of the file into arms, are not modelled.
- Complete: blocks that are always entered, and alternatives that both assign, are excepted; the scan reports some of
  their lines although every execution assigns.
- Probe: diagnostics are the line numbers they point at; flags and headers are decided before the loop.
- Wrap: whitespace is the blank and the newline, and comments are not removed.
- BodyIndependent: the preamble is taken to name the struct nowhere before its opening line.
- RoundTrip: in `ErrorCodes`, errors are numbered from zero for success on both sides, as both implementations do.
- Build: in `ReverseMap`, tables have at most 2^63 slots.
- The gates of ci-scripts/check-ctest.py and ci-scripts/suite/check-tap.py: classifications by membership in fixed
  sets, which would add only easy members.
- Callbacks other than operators and error handlers, attribute copies, Fortran converters, MPI_T events, and the
  string and info routines.
- The timing harness of the benchmark and the probe programs under dev.
