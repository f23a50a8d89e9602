# Runtime Foundation: a verified model

Runtime Foundation owns one language model in one process. Several consumers hold leases on it, one
generation runs at a time, and the others wait in a queue. Before a model is loaded its header is read and
its content is identified; every setting that is changed on the way to the engine leaves a record. This
project models those parts in Dafny and proves what they promise. Nothing was executed: the source was read
and the claims below are statements about the model. `dafny verify dfyconfig.toml` checks all of it.

## The parts

**The generation slot and the leases** (`RuntimeState`, `SlotInvariants`, `SlotTheorems`, `SlotAnswers`,
`RuntimeCoreLock`). `RuntimeState` has one function for each critical section of the lifecycle lock.
`Condition.wait` gives the lock up, so an arrival runs up to its first wait and every wake-up is a step of its
own. Runs are arbitrary interleavings of arrivals, wake-ups, cancellations, timeouts, ends, loads, failed
selections and unloads. The class `RuntimeCore` has the source's fields, changes them as the source does, and
is proved to make exactly these steps. The theorems speak of all runs: the model under a running request is
pinned, admissions follow (priority, arrival), cancelled waiters are never admitted, and the queue drains.
`SlotAnswers` says exactly when each call gets which answer, and what it leaves behind.

**Streams and calls** (`StreamIterators`, `StreamEndings`, `ReservedStream`, `GenerateCalls`). A generator is
a value that is resumed or closed, and a class whose methods change it in place, with the flags that guard its
release; the adapter is an arbitrary script of events, errors and timeouts. `StreamEndings` says which event
closes a stream and why. `ReservedStream` is the machine of its three flags with one reader and any number of
closers, over any such generator. `GenerateCalls` has the two calls that return a whole answer: where their
`try` block may be left, what the caller gets, and what is saved.

**The owners of the slot** (`SlotOwners`, `SlotOwnersTheorems`). Runtime, streams and calls together: every
admission makes an owner under its ticket, and only owners call `_end`. Every admission is matched by exactly
one removal of its own entry, and the runtime's steps are a run of `RuntimeState`.

**Loaded content** (`LoadedContent`, `LoadedContentTheorems`). Loads of execution inputs with their unlocked
and locked halves, while other loads run and writers change the files. A stat signature is a version number
that is never used again.

**Stop sequences** (`StopText`, `StopTheorems`). The chunked matcher and its delta loop are proved against a
search of the whole text.

**The GGUF header** (`ByteStrings`, `Utf8`, `GgufFormat`, `GgufReader`, `GgufTheorems`, `GgufBounds`,
`GgufCuts`, `GgufHeaderReader`). An encoder after the GGUF specification (ggml `docs/gguf.md`, section "File
Structure"), the reader as a function, the reader as a class with a moving position, and the theorem that a
file is accepted exactly if it begins with the encoding of a valid header. A header that is cut off is always
refused as truncated. UTF-8 is that of RFC 3629, sections 3 and 4, and the two are proved to agree.

**Content identities** (`ContentFraming`, `ContentDigests`). The bytes that are hashed for files and
directories, a decoder that inverts them, and the loops that feed them. SHA-256 is any function to 32 bytes;
what equal digests mean is therefore stated as "equal, or these two byte strings collide".

**Settings and their evidence** (`SettingsEvidence`, `SettingsTheorems`, `LoadResolver`,
`GenerationResolver` and their theorems). The evidence constructor, and the two llama.cpp resolvers.

**Execution inputs** (`ExecutionInputs`, `ExecutionInputTheorems`, `PayloadTheorems`, `LineageTheorems`).
Parsing, validation, the canonical payload, and writing back; and for every kind of payload, exactly which JSON
is read as which value.

## What the proofs showed about the source

- "Never advanced after the close" holds of a stream, however it goes on, exactly if the close did not find a
  reader between its entry section and the generator; such a reader advances it once, and no other does
  (`ReservedStream.NeverAdvancedIffNoneEntered`, `ReservedStream.OnlyTheEnteredReaderAdvances`). A closer that
  finds `running` down can be sure (`ReservedStream.IdleCloseIsFinal`).
- The busy test in the locked half of a load cannot answer in a reachable state
  (`SlotTheorems.LoadIsNeverLifecycleBusy`).
- Releasing a shared lease always reports LOADED, also while the lifecycle is ERROR, and such a state is
  reachable (`SlotTheorems.SharedReleaseReport`, `SlotTheorems.SharedReleaseInError`).
- The visible text is independent of the chunking exactly if every stop that lies strictly inside another one
  is preceded there by a stop that is complete no later; "no stop inside another" is sufficient, not
  necessary (`StopTheorems.ChunkingIrrelevantIffShielded`).
- What has been shown after some chunks is the longest text that no continuation takes back
  (`StopTheorems.KeptIffShown`).
- A call of `generate` that is interrupted, by KeyboardInterrupt for example, saves its trace as still running;
  `generate_v3` does not (`GenerateCalls.RunningIsSavedIff`).
- A v1 stream has no closing event at all if the adapter ends without one (`StreamIterators.V1StreamShape`);
  a v3 stream fails then. A v3 stream has exactly one done event exactly if the adapter marks none of its own
  events as done (`StreamIterators.V3StreamDoneOnce`).
- Verification is skipped by path and signature, and the fingerprint does not cover paths. A skipped
  verification would have succeeded exactly if the source has the identity of the instance's last source at
  that path (`LoadedContentTheorems.SkippedMatchesIff`); a call that exchanges two paths skips both
  verifications wrongly. It never installs such an input, but it may reuse the loaded one
  (`LoadedContentTheorems.ExchangedPathsAreSkipped`).
- Settings evidence does not look at records about paths that did not change
  (`SettingsEvidence.IdleRecordsAreNotChecked`), so a record is a permission: request and records determine the
  effective value of a path exactly if its last record does not lead from the requested value to another one
  that a leaf can have (`SettingsTheorems.RecordsDetermineEffectiveIff`). The adapters' own resolvers write no
  such records, but for the observation that a template has no thinking control.
- A load request can pass every test of the llama.cpp resolver and still fail in the constructor of the
  resolved options, with a ValueError instead of an unsupported-option error. It does so exactly if the context
  exceeds the largest option, the physical batch exceeds the default batch, or half the CPUs exceed the most
  threads (`LoadResolverTheorems.ConstructorFailsIff`, `LoadResolverTheorems.DefaultsCanBeInvalid`).
- A content identity is not always stable under reading its own payload
  (`ExecutionInputTheorems.IdentityIsStableIff`); the complete SHA-256 identities of execution inputs are.
- Adapter lineages trim their texts and base bindings do not, so an adapter can only be accepted for a base
  whose identities carry no surrounding whitespace (`ExecutionInputTheorems.BaseOfAdapterIsTrimmed`).

## Model

| member | source | states |
|---|---|---|
| SlotTheorems.ModelIsPinned | runtime_foundation/core.py:926-1019 | over any run: while an admitted request runs, artifact, adapter, execution input, load identity, signatures and its lease never change, and its events stay set |
| SlotTheorems.RunningRequestPinsModel | runtime_foundation/core.py:808-884 | one step either leaves the running request with its model and lease, or ends it for good |
| SlotTheorems.GoneStaysGone | runtime_foundation/core.py:1372-1379 | over any run: a request that has left slot and queue is in neither ever after |
| SlotTheorems.LifecycleOfReachableStates | runtime_foundation/core.py:984-1019 | at most one active request; loaded iff some lease; what UNLOADED, LOADED and GENERATING each imply; LOADING and UNLOADING are never seen |
| SlotTheorems.LoadIsNeverLifecycleBusy | runtime_foundation/core.py:701-702 | the busy test of the locked half of a load never answers in a reachable state |
| SlotTheorems.EngineUnloadIsLastAndIdle | runtime_foundation/core.py:815-884 | the engine is asked to unload only for the last leaseholder with nothing active; failure changes the lifecycle alone |
| SlotTheorems.SharedReleaseReport | runtime_foundation/core.py:845-853 | releasing a shared lease reports LOADED, which is the lifecycle iff it is not ERROR |
| SlotTheorems.SharedReleaseInError | runtime_foundation/core.py:845-853 | a run after which such a release reports LOADED although the lifecycle is ERROR |
| SlotTheorems.ErrorWhileGenerating | runtime_foundation/core.py:607-613 | a run after which ERROR coexists with a loaded model and an active request |
| SlotTheorems.StrayEndBreaksLifecycle | runtime_foundation/core.py:1372-1379 | an end that does not own the slot would break the lifecycle, so callers must end once |
| SlotTheorems.AdmissionsFollowArrivals | runtime_foundation/core.py:935-979 | over any run: admissions of one priority happen in order of arrival |
| SlotTheorems.AdmissionTakesTheHead | runtime_foundation/core.py:935-979 | every admission is into a free slot, and everybody left waiting has lower priority or arrived later |
| SlotTheorems.InteractiveGoesFirst | runtime_foundation/core.py:935-979 | over any run: a background request is only admitted while no interactive one waits |
| SlotTheorems.CancelledIsNeverAdmitted | runtime_foundation/core.py:2039-2052 | over any run: a ticket cancelled in the queue is never admitted, before or after |
| SlotTheorems.NewcomerOvertakesOnlyLowerPriority | runtime_foundation/core.py:935-979 | over any run: a newcomer admitted at its arrival finds the slot free and overtakes only waiters of strictly lower priority |
| SlotTheorems.DrainStepShrinks | runtime_foundation/core.py:950-979 | every state-changing wake-up or end lowers 2*queued + active |
| SlotTheorems.DrainingTerminates | runtime_foundation/core.py:950-979 | a run of such steps is no longer than that measure |
| SlotTheorems.HeadWakeMoves | runtime_foundation/core.py:950-964 | with the slot free, the head exists and its wake-up admits it, or removes it because cancelled or unauthorized |
| SlotTheorems.BusyCanMove | runtime_foundation/core.py:950-979 | while anybody runs or waits, some end or wake-up changes the state, without any timeout |
| SlotTheorems.MaximalDrainEmptiesQueue | runtime_foundation/core.py:950-979 | a drain that cannot be continued has emptied slot and queue |
| SlotInvariants.NextKeepsInv | runtime_foundation/core.py:638-884 | every critical section keeps the invariant of holding, lifecycle, slot, queue, admission order and cancellations |
| SlotInvariants.LoadKeepsInv | runtime_foundation/core.py:638-806 | the locked half of a load, with all its failures, keeps the invariant |
| SlotInvariants.UnloadKeepsInv | runtime_foundation/core.py:808-884 | an unload, with all its failures, keeps the invariant |
| SlotInvariants.ArriveKeepsInv | runtime_foundation/core.py:984-990 | an arrival with its first pass through the waiting loop keeps the invariant |
| SlotInvariants.CancelKeepsInv | runtime_foundation/core.py:2039-2052 | marking a waiter as cancelled keeps the invariant and records its ticket |
| SlotAnswers.AuthorizedIff | runtime_foundation/core.py:886-924 | a request is authorized iff it is for the loaded artifact and execution input, and its consumer has the lease that it names, if any |
| SlotAnswers.RefusalReason | runtime_foundation/core.py:886-924 | which of the four reasons a refused request is told |
| SlotAnswers.TurnedAwayAtOnce | runtime_foundation/core.py:935-941 | an arrival is a duplicate iff it is authorized and its id runs or waits; it and a refused one change nothing |
| SlotAnswers.NewcomerWaitsOrRuns | runtime_foundation/core.py:942-979 | any other authorized newcomer runs iff nobody runs and all who wait have lower priority; otherwise it is put behind everybody and waits, unless its time is over |
| SlotAnswers.BusySlotMeansWaiting | runtime_foundation/core.py:942-979 | over any run: who finds the slot taken waits and is not turned away |
| SlotAnswers.WaiterLeavesOrRuns | runtime_foundation/core.py:951-979 | a wake-up: cancelled iff marked, refused iff no longer authorized, admitted iff the slot is free and all others have lower priority or came later; nobody else is touched |
| SlotAnswers.SecondWaitsForFirst | runtime_foundation/core.py:926-1019 | of two newcomers to an idle runtime the second waits, and runs when the first has ended |
| SlotAnswers.SomebodyWaitsAndRuns | runtime_foundation/core.py:926-1019 | a run in which somebody finds the slot taken, waits, and is admitted |
| SlotAnswers.CancelledWaiterLeaves | runtime_foundation/core.py:2040-2053 | what `cancel` finds; a marked waiter leaves at its next wake-up, whatever the clock says |
| SlotAnswers.SignalSets | runtime_foundation/core.py:1026-1027 | the events of the request that was found are set, and nothing else |
| SlotAnswers.EndFreesSlot | runtime_foundation/core.py:1372-1379 | the end of the running request frees the slot; an error that came up meanwhile stays |
| SlotAnswers.ReusedIffSame | runtime_foundation/core.py:640-700 | a loaded model is reused iff adapter, load identity and execution input, or else artifact, are those asked for; otherwise conflict without change; reuse keeps the model and all leases |
| SlotAnswers.InstalledIff | runtime_foundation/core.py:701-779 | with nothing loaded a load goes through iff contents match, memory suffices and the engine loads, and what each outcome leaves |
| SlotAnswers.UnloadIff | runtime_foundation/core.py:815-884 | exactly when an unload is refused, releases a lease, or reaches the engine, and what each outcome leaves |
| SlotAnswers.NothingToUnload | runtime_foundation/core.py:815-829 | with nothing loaded an unload leaves and reports UNLOADED |
| RuntimeCoreLock.RuntimeCore.constructor | runtime_foundation/core.py:259-312 | a new core is the initial state |
| RuntimeCoreLock.RuntimeCore.AuthorizeRequest | runtime_foundation/core.py:886-924 | the field tests give exactly the specified authorization, error by error |
| RuntimeCoreLock.RuntimeCore.QueueHead | runtime_foundation/core.py:961 | the scan of the queue returns the minimum under (rank, sequence) |
| RuntimeCoreLock.RuntimeCore.Occupy | runtime_foundation/core.py:990-1010 | the second authorization cannot fail, and the slot gets its new owner |
| RuntimeCoreLock.RuntimeCore.WakeUp | runtime_foundation/core.py:952-979 | one pass through the waiting loop makes exactly the wake transition and keeps the invariant |
| RuntimeCoreLock.RuntimeCore.Begin | runtime_foundation/core.py:926-1019 | `_begin` up to admission, refusal or its first wait makes exactly the arrival transition |
| RuntimeCoreLock.RuntimeCore.CancelRequest | runtime_foundation/core.py:2040-2053 | the locked section of `cancel` marks a waiter, or finds the active request, or nothing |
| RuntimeCoreLock.RuntimeCore.FindTimedOut | runtime_foundation/core.py:1022-1025 | the locked section of `_request_timeout` finds the active request |
| RuntimeCoreLock.RuntimeCore.SetEvents | runtime_foundation/core.py:1026-1027 | after the lock is released the events of the request that was found are set, if it is still there |
| RuntimeCoreLock.RuntimeCore.EndRequest | runtime_foundation/core.py:1372-1379 | `_end` frees the slot and restores LOADED only from GENERATING |
| RuntimeCoreLock.RuntimeCore.AdapterSelectionFailed | runtime_foundation/core.py:607-613 | a failed selection sets ERROR and keeps the invariant |
| RuntimeCoreLock.RuntimeCore.InstallModel | runtime_foundation/core.py:718-779 | an engine load installs every field, or leaves ERROR and the old fields |
| RuntimeCoreLock.RuntimeCore.LoadValidated | runtime_foundation/core.py:638-806 | the locked half of a load makes exactly the load transition |
| RuntimeCoreLock.RuntimeCore.UnloadLast | runtime_foundation/core.py:854-884 | an engine unload clears every field, or leaves ERROR and the old fields |
| RuntimeCoreLock.RuntimeCore.UnloadModel | runtime_foundation/core.py:808-884 | `unload` makes exactly the unload transition |
| SlotOwnersTheorems.SlotIsConserved | runtime_foundation/core.py:984-1019 | over any run of runtime and owners: the admitted tickets are the removed ones, each removed once, and the one that is active now |
| SlotOwnersTheorems.AdmittedIsRemovedOnce | runtime_foundation/core.py:1372-1379 | an admitted ticket has been removed as soon as its call returned, its stream was closed and left, or was read to the end |
| SlotOwnersTheorems.EndsAreAllowed | runtime_foundation/core.py:1372-1379 | every step of an owner calls `_end` at most once, and then the runtime allows it and the removed entry has that owner's ticket, although ids are used again |
| SlotOwnersTheorems.OwnerEndsItsOwnRequest | runtime_foundation/core.py:1372-1379 | in any state that keeps the invariant: the `_end` of an owner finds its own request and leaves the lifecycle right |
| SlotOwnersTheorems.OwnersRunTheRuntime | runtime_foundation/core.py:926-1019 | so the runtime under its owners makes a run of the runtime alone, and the theorems about those runs apply |
| SlotOwnersTheorems.ClosingEventFindsSlotFree | runtime_foundation/core.py:1970-1974 | the reader who gets the event that ends its stream finds its request removed |
| SlotOwnersTheorems.UnreadStreamIsReleased | runtime_foundation/core.py:2062-2069 | the release of a stream that nobody has read or closed can always go through and removes its request |
| SlotOwnersTheorems.ReleasedStreamIsNeverRead | runtime_foundation/core.py:2062-2069 | over any run: a stream that was found unread by the release is never advanced, and its request is removed when the release returns |
| SlotOwnersTheorems.ReturnedCallIsDone | runtime_foundation/core.py:1843-1848 | over any run: a call that has returned meets the requirements on a finished call and its request is removed |
| SlotOwnersTheorems.ReaderGetsThePlan | runtime_foundation/core.py:2018-2037 | over any run of runtime and owners: what a reader got begins the stream that its request calls for |
| SlotOwnersTheorems.UseKeeps | runtime_foundation/core.py:2009-2016 | a step of an owner keeps: unfinished owners are the active entries, by ticket |
| SlotOwnersTheorems.RuntimeStepKeeps | runtime_foundation/core.py:984-1019 | so does every other step of the runtime; an admission makes an owner |
| SlotOwnersTheorems.SysRunKeepsInv | runtime_foundation/core.py:926-1379 | so the invariant holds in every state of every run |
| GenerateCalls.Generation.constructor | runtime_foundation/core.py:1393-1394 | a call stands behind `_begin` with nothing released |
| GenerateCalls.Generation.Try | runtime_foundation/core.py:1798-1824 | the `try` block is left where the first of its parts raises, and the status is completed only behind the last timeout test |
| GenerateCalls.Generation.Run | runtime_foundation/core.py:1798-1848 | the answer and the saved status that the plan calls for, one trace and one `_end` whatever is raised, an interrupt included |
| GenerateCalls.DoneIffReturned | runtime_foundation/core.py:1392-1457 | the requirements on a finished call determine it |
| GenerateCalls.OkIffNothingFailed | runtime_foundation/core.py:1798-1824 | a result comes back iff no part raised and no test found the timeout |
| GenerateCalls.TimeoutIffLateError | runtime_foundation/core.py:1825-1833 | a timeout is reported iff a Foundation error left the `try` block and was a timeout or came after it |
| GenerateCalls.OtherExceptions | runtime_foundation/core.py:1834-1842 | a foreign exception becomes an engine error whatever the timer does; an interrupt passes, and only an interrupt does |
| GenerateCalls.SavedStatusIsAnswer | runtime_foundation/core.py:1423-1457 | the saved trace is completed if a result came back, cancelled or error by the code that the caller got |
| GenerateCalls.RunningIsSavedIff | runtime_foundation/core.py:1455-1457 | a trace is saved as running iff `generate` was interrupted before it had its result |
| GenerateCalls.InterruptedStatusIff | runtime_foundation/core.py:1843-1847 | a `generate_v3` is saved as abandoned iff interrupted with neither event set, and when it is saved as cancelled |
| StreamIterators.SlotIsReleasedExactlyOnce | runtime_foundation/core.py:1891-2016 | for any use of either stream, `_end` is called at most once, and once after a close at any point or after enough reads |
| StreamIterators.SoundReleasesOnce | runtime_foundation/core.py:1478-1486 | in every state that keeps the flags sound the counts of `_end` and of saved traces are 1 past the terminal point and 0 before |
| StreamIterators.FinallyNeedsItsFlag | runtime_foundation/core.py:2009-2016 | behind the terminal yield the `finally` clause does nothing, because of `terminal` or `finalized`; without the flag the slot would be freed twice |
| StreamIterators.UsesReleaseOnce | runtime_foundation/core.py:1462-1621 | any use keeps flags and counts sound, and a close or enough reads bring any suspended generator past its terminal point |
| StreamIterators.V3StreamShape | runtime_foundation/core.py:1891-2008 | a fully read v3 stream: started 0, the adapter's events unaltered, one closing event with the next number, or one more exactly if a timeout replaces an error event |
| StreamIterators.V3StreamDoneOnce | runtime_foundation/core.py:1979-1991 | exactly one event is done, the last, iff the adapter marks no passed-on event as done |
| StreamIterators.V1StreamShape | runtime_foundation/core.py:1498-1560 | a fully read v1 stream: started 0, the adapter's events numbered on, and a terminal event unless the adapter ends in silence |
| StreamEndings.ClosingEvent | runtime_foundation/core.py:1891-2008 | kind, code, done flag and text of the last event of either stream, from what ended the adapter and when the timeout was found; one error event after a failed preparation |
| StreamEndings.CompletedIffResultInTime | runtime_foundation/core.py:1911-1948 | a v3 stream says completed iff a completed event with a result came in time |
| StreamEndings.SilenceIff | runtime_foundation/core.py:1498-1557 | a v1 stream has no closing event iff its adapter ends without one and without a timeout |
| StreamIterators.TerminalEventComesAfterRelease | runtime_foundation/core.py:1970-1975 | the event after which nothing comes (v3), or that completes or fails the stream (v1), becomes visible after the release |
| StreamIterators.StoreHoldsMostRecent | runtime_foundation/core.py:1772-1777 | the trace store holds exactly the most recently saved executions, at most 256 |
| StreamIterators.Generator.constructor | runtime_foundation/core.py:1865-1869 | a new generator stands at its priming yield with nothing released |
| StreamIterators.Generator.SaveTraceAndEnd | runtime_foundation/core.py:1972-1973 | the trace is saved and the request ended, once each |
| StreamIterators.Generator.FinalizeStream | runtime_foundation/core.py:1478-1486 | `finalize()`: nothing if its flag is set |
| StreamIterators.Generator.SettleAndYield | runtime_foundation/core.py:1970-1974 | a terminal branch sets the flag, saves, ends, and yields |
| StreamIterators.Generator.RunFinally | runtime_foundation/core.py:2009-2016 | the `finally` clause: releases unless the flag is set |
| StreamIterators.Generator.HandleError | runtime_foundation/core.py:1992-2008 | the except clauses, with the timeout replacing only Foundation errors |
| StreamIterators.Generator.PullAdapter | runtime_foundation/core.py:1906-1909 | the adapter's own started events are skipped |
| StreamIterators.Generator.NextV3 | runtime_foundation/core.py:1906-1991 | the loop body of `stream_v3` as specified |
| StreamIterators.Generator.NextV1 | runtime_foundation/core.py:1498-1555 | the loop body of `stream` as specified |
| StreamIterators.Generator.Next | runtime_foundation/core.py:1891-2008 | `next` at every point where the generator can stand |
| StreamIterators.Generator.CloseNow | runtime_foundation/core.py:2009-2016 | `close` at every point: GeneratorExit at the yield, then the `finally` clause |
| ReservedStream.GeneratorIsNeverSharedOrReused | runtime_foundation/core.py:215-253 | in every reachable state at most one close is owed, running or done, and then the generator is not advanced |
| ReservedStream.ExactlyOneCloses | runtime_foundation/core.py:215-253 | once closed, exactly one party is responsible for the one close: a closer or the in-flight reader |
| ReservedStream.ClosedStreamReleasedItsSlot | runtime_foundation/core.py:230-253 | a closed stream whose callers returned has freed its slot exactly once |
| ReservedStream.ClosedStreamAdmitsNoReader | runtime_foundation/core.py:215-218 | over any run: after a close no reader gets past its entry section and the generator is not advanced, unless one was past it at the close |
| ReservedStream.OnlyTheEnteredReaderAdvances | runtime_foundation/core.py:215-242 | an advance after the close is that of the reader whom the close found past its entry section, and it is the only one |
| ReservedStream.NeverAdvancedIffNoneEntered | runtime_foundation/core.py:215-242 | no continuation advances the generator after the close iff the close found no such reader |
| ReservedStream.IdleCloseIsFinal | runtime_foundation/core.py:233-243 | a close that finds `running` down is never followed by an advance |
| ReservedStream.LateAdvanceIsPossible | runtime_foundation/core.py:215-242 | a run in which a reader admitted before the close advances the generator after it |
| ReservedStream.ReleasedStreamWasUnread | runtime_foundation/core.py:245-253 | `release_if_unconsumed` closes iff no reader started and nobody closed before |
| ReservedStream.ReaderGetsTheStream | runtime_foundation/core.py:215-228 | over any run: the reader has got the first events of its generator, each once, and all of them if the generator ended by itself |
| ReservedStream.EngineIsAskedIffRunning | runtime_foundation/core.py:233-243 | over any run: a closed stream asks the engine to stop, once, iff the close found a reader inside |
| ReservedStream.RunKeepsInv | runtime_foundation/core.py:192-253 | the flags and debts of reader and closers are consistent in every reachable state |
| ReservedStream.Flags.constructor | runtime_foundation/core.py:204-210 | the three flags of an untouched stream |
| ReservedStream.Flags.EnterNext | runtime_foundation/core.py:216-220 | the first critical section of `__next__` decides admission as the machine does |
| ReservedStream.Flags.LeaveNext | runtime_foundation/core.py:224-228 | the second one tells the reader whether it must close |
| ReservedStream.Flags.Close | runtime_foundation/core.py:233-243 | `close` decides between nothing, asking the engine to stop, and closing |
| ReservedStream.Flags.ReleaseIfUnconsumed | runtime_foundation/core.py:248-253 | the same for `release_if_unconsumed` |
| LoadedContentTheorems.LoadedInputWasVerified | runtime_foundation/core.py:520-548 | in every reachable state the call that installed the loaded execution input had verified its base and every adapter itself |
| LoadedContentTheorems.SuccessfulLoadIsVerified | runtime_foundation/core.py:638-779 | a load that succeeds, also by reuse, leaves its own fingerprint loaded and verified; an installing call is the verifier |
| LoadedContentTheorems.CurrentSignatureVouches | runtime_foundation/core.py:540-548 | as long as a file has the kept signature it has the content that its source must have |
| LoadedContentTheorems.SkippedPathWasLoaded | runtime_foundation/core.py:540-548 | a skipped path is that of some source of the instance whose signatures are used |
| LoadedContentTheorems.SkippedMatchesIff | runtime_foundation/core.py:540-548 | a skipped verification would have succeeded iff the source has the identity of the instance's last source at that path, even when that instance is gone |
| LoadedContentTheorems.SkippingIsSound | runtime_foundation/core.py:541-547 | so it would have if the call names the places of the instance, each once |
| LoadedContentTheorems.ExchangedPathsAreSkipped | runtime_foundation/core.py:541-547 | with two paths exchanged both wrong files are skipped and the call still reuses the loaded instance |
| LoadedContentTheorems.InstalledRecord | runtime_foundation/core.py:703-706 | with the owed verifications of the locked half an installing call has verified every source |
| LoadedContentTheorems.FinishKeeps | runtime_foundation/core.py:638-779 | the locked half keeps the invariant of files, pending calls and loaded record |
| LoadedContentTheorems.StatKeeps | runtime_foundation/core.py:540-548 | taking a signature, and skipping or not, keeps it |
| LoadedContentTheorems.VerifyKeeps | runtime_foundation/core.py:129-147 | a content verification, or its failure, keeps it |
| LoadedContentTheorems.BeginKeeps | runtime_foundation/core.py:523-529 | copying the loaded signatures of the same fingerprint keeps it |
| LoadedContentTheorems.StepKeeps | runtime_foundation/core.py:475-589 | so does every step, writers of the files included |
| StopText.Find | runtime_foundation/adapters/mlx.py:1436 | the leftmost occurrence of one stop, or none |
| StopText.LongestStop | runtime_foundation/adapters/mlx.py:1440 | the bound on the held-back suffix is long enough for every stop |
| StopText.FindEarliest | runtime_foundation/adapters/mlx.py:1436-1439 | the earliest start of any stop |
| StopText.StartsSomeStop | runtime_foundation/adapters/mlx.py:1443 | whether a suffix may begin a stop |
| StopText.ConsumeStopText | runtime_foundation/adapters/mlx.py:1428-1445 | one chunk: cut at the earliest stop, or the longest safe prefix and the pending suffix |
| StopText.BufferSeesEveryStop | runtime_foundation/adapters/mlx.py:1435-1445 | searching the pending suffix with the chunk finds the earliest stop of everything read so far |
| StopText.BufferHoldsBackEnough | runtime_foundation/adapters/mlx.py:1440-1444 | the suffix kept from the buffer is the one the whole text would keep |
| StopText.StreamDelta | runtime_foundation/adapters/mlx.py:1703-1718 | one step of the delta loop refines the one-shot view of all text read |
| StopText.StreamDeltas | runtime_foundation/adapters/mlx.py:1674-1727 | for every list of chunks the emitted parts join to the text before the earliest stop of the first chunk prefix that has one, or to everything; the flag is set iff the text has a stop |
| StopTheorems.VisibleHasNoStop | runtime_foundation/adapters/mlx.py:1435-1445 | no stop occurs in the visible text |
| StopTheorems.OneChunkShowsCut | runtime_foundation/adapters/mlx.py:1436-1439 | with one chunk the visible text is the text before the earliest stop |
| StopTheorems.ShownIsIrrevocable | runtime_foundation/adapters/mlx.py:1440-1445 | what is shown after a text begins the cut of every continuation |
| StopTheorems.ShownIsKept | runtime_foundation/adapters/mlx.py:1703-1727 | what has been shown after some chunks begins the visible text, whatever chunks follow |
| StopTheorems.ShownIsTight | runtime_foundation/adapters/mlx.py:1703-1727 | after any chunks some next chunk makes nothing more visible than what has been shown |
| StopTheorems.KeptIffShown | runtime_foundation/adapters/mlx.py:1703-1727 | a text begins the visible text of every continuation iff it begins what has been shown |
| StopTheorems.LongerIsRevocable | runtime_foundation/adapters/mlx.py:1440-1444 | after any chunks, whatever does not begin what has been shown is taken back by some next chunk |
| StopTheorems.EmittedIsShown | runtime_foundation/adapters/mlx.py:1703-1718 | what the delta loop has emitted is what has been shown |
| StopTheorems.ChunkingIrrelevantIffShielded | runtime_foundation/adapters/mlx.py:1435-1445 | every chunking of every text shows the text before its earliest stop iff the stops are shielded |
| StopTheorems.UnshieldedChunkingMatters | runtime_foundation/adapters/mlx.py:1435-1445 | for unshielded stops, two chunks that show something else |
| StopTheorems.NoStopInsideAnotherIsShielded | runtime_foundation/adapters/mlx.py:1435-1445 | stops none of which lies strictly inside another are shielded |
| GgufTheorems.AcceptedIsEncoded | runtime_foundation/gguf.py:165-256 | an accepted header is valid, its encoding is at the start of the file, and the reader stands exactly behind it |
| GgufTheorems.EncodedIsAccepted | runtime_foundation/gguf.py:165-256 | every valid header within the limits, followed by any bytes, is read back with the reader at its end |
| GgufTheorems.ReadTextIff | runtime_foundation/gguf.py:106-113 | a string is read iff its length-prefixed valid UTF-8 encoding is there, within the limits |
| GgufTheorems.ReadItemIff | runtime_foundation/gguf.py:126-134 | a scalar, Boolean or string is read iff its encoding is there |
| GgufTheorems.ReadValueIff | runtime_foundation/gguf.py:115-134 | a metadata value, arrays included, is read iff its encoding is there |
| GgufTheorems.ReadEntryIff | runtime_foundation/gguf.py:179-183 | a metadata entry is read iff it is encoded there and its key is new and non-empty |
| GgufTheorems.ReadTensorIff | runtime_foundation/gguf.py:211-228 | a tensor descriptor is read iff it is encoded there and its name is new and non-empty |
| GgufTheorems.ReadCountsIff | runtime_foundation/gguf.py:167-176 | magic, version and counts are read iff they are encoded there and within the limits |
| GgufTheorems.LayoutErrorIff | runtime_foundation/gguf.py:242-256 | the layout loop passes iff every tensor is aligned, inside, and fits |
| GgufBounds.PowerOfTwoTestIsExact | runtime_foundation/gguf.py:207 | `a & (a - 1) == 0` iff a is a power of two |
| GgufBounds.DataStartIsLeast | runtime_foundation/gguf.py:229 | the data section starts at the least multiple of the alignment at or after the header end |
| GgufBounds.AcceptedTensorsLieInFile | runtime_foundation/gguf.py:206-256 | alignment, data start, tensor starts and whole fixed-size tensors of an accepted header |
| GgufBounds.ReadingCost | runtime_foundation/gguf.py:94-134 | an accepted header used at most 256 MiB, stayed in the file, and cost at least 24 + 14m + 33t bytes |
| GgufBounds.AcceptedNamesAreUnique | runtime_foundation/gguf.py:178-215 | keys and names are non-empty and unique, and looking a key up gives its entry |
| GgufBounds.ASmallHeaderIsAccepted | runtime_foundation/gguf.py:165-256 | an accepted header exists: two metadata entries and one tensor in a file of 1000 bytes |
| GgufBounds.IntegersFitTheirType | runtime_foundation/gguf.py:125-134 | which scalars denote an integer: the one in the range of the type that agrees with the bytes |
| GgufBounds.AcceptedMetadata | runtime_foundation/gguf.py:185-208 | what the metadata of an accepted header says: architecture, file type, context length, and a power of two as alignment |
| GgufBounds.ProductSplits | runtime_foundation/gguf.py:251-253 | the element count is the product of the dimensions |
| GgufTheorems.LayoutErrorIsFirst | runtime_foundation/gguf.py:242-256 | a layout error speaks of the first tensor that does not fit, and tells whether it begins or ends wrongly |
| GgufBounds.TypeTables | runtime_foundation/gguf.py:28-40 | which value types have which width |
| GgufBounds.KnownPrefix | runtime_foundation/gguf.py:167-176 | the first bytes of a file, byte by byte |
| GgufCuts.CutHeaderIsTruncated | runtime_foundation/gguf.py:94-256 | an accepted file that is cut off is accepted unchanged while its header is whole, and refused as truncated otherwise |
| Utf8.ValidIffEncoded | runtime_foundation/gguf.py:110-113 | a byte string is taken for text iff it is the UTF-8 encoding of Unicode scalar values |
| Utf8.BlankIffSpaces | runtime_foundation/gguf.py:185-188 | a text is taken for blank iff it consists of white space |
| Utf8.SpacesAgree | runtime_foundation/contracts_v2.py:190-197 | texts of execution inputs are stripped of the same characters |
| GgufHeaderReader.Reader.constructor | runtime_foundation/gguf.py:85-88 | the reader starts where the handle stands |
| GgufHeaderReader.Reader.ReadBytes | runtime_foundation/gguf.py:94-100 | the limit, the truncation and the new position of one read |
| GgufHeaderReader.Reader.UnpackU32 | runtime_foundation/gguf.py:102-104 | a little-endian 32-bit integer |
| GgufHeaderReader.Reader.UnpackU64 | runtime_foundation/gguf.py:102-104 | a little-endian 64-bit integer |
| GgufHeaderReader.Reader.ReadString | runtime_foundation/gguf.py:106-113 | the string reader refines its specification, errors included |
| GgufHeaderReader.Reader.ReadScalar | runtime_foundation/gguf.py:125-134 | the scalar reader refines its specification |
| GgufHeaderReader.Reader.ReadAnyValue | runtime_foundation/gguf.py:115-134 | the array loop refines its specification |
| GgufHeaderReader.Reader.ReadMetadata | runtime_foundation/gguf.py:177-183 | the loop that fills the dictionary refines its specification |
| GgufHeaderReader.Reader.ReadDescriptors | runtime_foundation/gguf.py:209-228 | the loop over tensor descriptors refines its specification |
| GgufHeaderReader.Reader.ReadDescriptorTail | runtime_foundation/gguf.py:216-228 | dimensions, shape, type and offset of one descriptor |
| GgufHeaderReader.Reader.ReadPrefix | runtime_foundation/gguf.py:167-176 | magic, version and counts |
| GgufHeaderReader.Reader.ReadAll | runtime_foundation/gguf.py:165-256 | the whole of `_read_header` refines the specification; position and limit stay valid even on failure |
| GgufHeaderReader.ElementCount | runtime_foundation/gguf.py:251-253 | the loop computes the product of the dimensions |
| GgufHeaderReader.CheckLayout | runtime_foundation/gguf.py:242-256 | the last loop finds the first tensor that is misplaced or does not fit |
| ByteStrings.LittleRoundTrip | runtime_foundation/gguf.py:102-104 | fixed-width little-endian integers round trip |
| ByteStrings.BigRoundTrip | runtime_foundation/contracts_v2.py:124-130 | eight-byte big-endian lengths round trip |
| ContentFraming.FrameRoundTrip | runtime_foundation/contracts_v2.py:125-131 | the decoder inverts the frame of one file, whatever follows |
| ContentFraming.TreeRoundTrip | runtime_foundation/contracts_v2.py:120-132 | the decoder inverts the bytes of a tree, whatever follows |
| ContentFraming.DecodedTreeIsEncoded | runtime_foundation/contracts_v2.py:120-132 | the decoder accepts nothing else |
| ContentFraming.KnownFileStream | runtime_foundation/contracts_v2.py:109-117 | the hashed bytes of a small file |
| ContentFraming.KnownTreeBytes | runtime_foundation/contracts_v2.py:120-132 | the hashed bytes of a directory with one file |
| ContentFraming.HasStreamIff | runtime_foundation/contracts_v2.py:120-132 | a directory has a digest iff count, path lengths and sizes fit eight bytes |
| ContentFraming.EnumerationOrderIsIrrelevant | runtime_foundation/contracts_v2.py:103-106 | the hashed bytes do not depend on the order of the directory walk |
| ContentFraming.SortedIsOrdered | runtime_foundation/contracts_v2.py:105 | sorting by path bytes gives a strictly increasing listing |
| ContentFraming.OrderIsUnique | runtime_foundation/contracts_v2.py:105 | there is only one such listing, so any sort gives it |
| ContentFraming.DirectoryStreamIsInjective | runtime_foundation/contracts_v2.py:120-132 | equal hashed bytes iff equal maps from path to length and digest, even with bytes appended |
| ContentFraming.FileStreamIsInjective | runtime_foundation/contracts_v2.py:109-117 | equal hashed bytes iff equal contents |
| ContentFraming.TreeIsNeverAFile | runtime_foundation/contracts_v2.py:135-138 | no tree is hashed like any file |
| ContentFraming.EqualDirectoryDigests | runtime_foundation/contracts_v2.py:120-132 | equal directory digests mean equal trees, or the hash collides on the two streams, or on two contents of one path |
| ContentFraming.EqualFileDigests | runtime_foundation/contracts_v2.py:109-117 | equal file digests mean equal contents or an explicit collision |
| ContentFraming.EqualFileAndDirectoryDigest | runtime_foundation/contracts_v2.py:135-138 | a file and a directory with one digest are a collision |
| ContentDigests.Handle.Read | runtime_foundation/contracts_v2.py:97-99 | a read returns the next bytes, and nothing only at the end |
| ContentDigests.PRead | runtime_foundation/gguf.py:277-286 | a positional read returns some of the bytes, and nothing only past the end |
| ContentDigests.FeedContent | runtime_foundation/contracts_v2.py:97-99 | the chunk loop feeds exactly the content |
| ContentDigests.RawSha256File | runtime_foundation/contracts_v2.py:93-100 | length and raw digest of a file |
| ContentDigests.FeedLength | runtime_foundation/contracts_v2.py:113 | eight bytes, or OverflowError |
| ContentDigests.FeedFrame | runtime_foundation/contracts_v2.py:126-131 | one file of a directory feeds exactly its frame |
| ContentDigests.CompleteFileDigest | runtime_foundation/contracts_v2.py:109-117 | the file digest is the hash of the framed content |
| ContentDigests.CompleteDirectoryDigest | runtime_foundation/contracts_v2.py:120-132 | the directory digest is the hash of the framed, sorted listing |
| ContentDigests.CompleteIdentityFromFd | runtime_foundation/gguf.py:271-295 | the descriptor loop with short reads identifies the same bytes as the file digest; a shrunken file is an error |
| SettingsEvidence.CollectLeaves | runtime_foundation/contracts_v3.py:789-800 | the recursive dictionary-filling loop computes the leaves |
| SettingsEvidence.AcceptedIffExplained | runtime_foundation/contracts_v3.py:813-848 | evidence is accepted iff every path has one value or a record that states all three |
| SettingsEvidence.EffectiveFollowsFromRecords | runtime_foundation/contracts_v3.py:826-848 | an accepted effective setting is the recorded one if it changed, the requested one otherwise |
| SettingsTheorems.RecordsDetermineEffectiveIff | runtime_foundation/contracts_v3.py:826-848 | request and records determine the effective value of a path iff its record does not lead from the requested value to another possible one |
| SettingsTheorems.UnchangeableIsRequested | runtime_foundation/contracts_v3.py:826-848 | where it does not, the effective value is the requested one |
| SettingsTheorems.ChangeableIsOpen | runtime_foundation/contracts_v3.py:839-848 | where it does, two accepted evidences with that request and those records differ at the path |
| SettingsEvidence.HonestRecordsDetermineEffective | runtime_foundation/contracts_v3.py:826-848 | if no record is about an unchanged path, request and records determine all effective settings |
| SettingsEvidence.IdleRecordsAreNotChecked | runtime_foundation/contracts_v3.py:839-848 | a false record about an unchanged path is accepted |
| SettingsTheorems.ScalarLeaves | runtime_foundation/contracts_v3.py:789-797 | distinct scalar fields become one leaf each under their dotted paths |
| SettingsTheorems.DifferencesAreExact | runtime_foundation/adapters/llama_cpp.py:967-978 | a path is recorded iff its value differs, with both values |
| LoadResolverTheorems.EvidenceIsAlwaysAccepted | runtime_foundation/adapters/llama_cpp.py:967-984 | the evidence of a load resolution is never rejected and has no idle record |
| LoadResolverTheorems.DifferencesExplain | runtime_foundation/contracts_v3.py:896-907 | the listed differences explain any two load options that agree on the device |
| LoadResolverTheorems.LoadLeaves | runtime_foundation/contracts_v3.py:182-192 | the leaves of load options are the eight resolver paths and the device |
| LoadResolverTheorems.SizesAreNested | runtime_foundation/adapters/llama_cpp.py:842-863 | 1 <= ubatch <= batch <= context <= trained context |
| LoadResolverTheorems.ExplicitRequestsAreKept | runtime_foundation/adapters/llama_cpp.py:842-936 | nothing asked for is changed, except backend auto |
| LoadResolverTheorems.FillingInChangesNothing | runtime_foundation/adapters/llama_cpp.py:842-936 | asking for any of the defaults that an open setting got gives the same effective options |
| LoadResolverTheorems.EffectiveOptionsAreAFixedPoint | runtime_foundation/adapters/llama_cpp.py:829-984 | resolving the effective options again, on any CPU count, gives them back without records |
| LoadResolverTheorems.ResolvedIffSupported | runtime_foundation/adapters/llama_cpp.py:829-936 | a request is resolved iff it passes the resolver's tests and the defaults fit |
| LoadResolverTheorems.ConstructorFailsIff | runtime_foundation/adapters/llama_cpp.py:842-936 | the options constructor fails iff the resolver's tests pass and a default or the context exceeds a limit |
| LoadResolverTheorems.RefusalNamesFirstFailure | runtime_foundation/adapters/llama_cpp.py:829-936 | a refused load is told the first test that it fails |
| LoadResolverTheorems.WrittenOptionsDiffer | runtime_foundation/contracts_v3.py:182-192 | load options are written without loss |
| LoadResolverTheorems.DefaultsCanBeInvalid | runtime_foundation/adapters/llama_cpp.py:863-936 | there is such a request |
| LoadResolverTheorems.CappedBudgetIsExplained | runtime_foundation/core.py:1692-1723 | the capped budget is the smaller value and its evidence is always accepted |
| GenerationResolver.CollectRecords | runtime_foundation/adapters/llama_cpp.py:1655-1692 | the comprehension and loop append exactly the specified records |
| GenerationResolver.CollectDifferences | runtime_foundation/adapters/llama_cpp.py:1681-1692 | a loop over paths appends a record for each difference |
| GenerationResolverTheorems.EvidenceIsAlwaysAccepted | runtime_foundation/adapters/llama_cpp.py:1613-1699 | the evidence of a generation resolution is never rejected; its one idle record is there iff nothing goes to the template |
| GenerationResolverTheorems.RecordsExplain | runtime_foundation/adapters/llama_cpp.py:1655-1692 | the records explain any change of intent and sampler settings |
| GenerationResolverTheorems.EffectiveOptionsAreExplicit | runtime_foundation/adapters/llama_cpp.py:1636-1652 | every sampler setting is explicit, requests are kept, the thinking mode is decided |
| GenerationResolverTheorems.ResolvedIffSupported | runtime_foundation/adapters/llama_cpp.py:1613-1652 | exactly which generation requests are resolved, and which fail in the constructor of the options |
| GenerationResolverTheorems.RefusalNamesFirstFailure | runtime_foundation/adapters/llama_cpp.py:1613-1652 | a refused generation request is told the first test that it fails |
| GenerationResolverTheorems.WrittenOptionsDiffer | runtime_foundation/adapters/llama_cpp.py:1653-1654 | generation options are written without loss |
| GenerationResolverTheorems.FillingInChangesNothing | runtime_foundation/adapters/llama_cpp.py:1635-1652 | asking for any of the values that open settings got gives the same options and the same template arguments |
| GenerationResolverTheorems.ArgumentsSayTheIntent | runtime_foundation/adapters/llama_cpp.py:1528-1562 | the template is told exactly the resolved intent, in variables that it has |
| GenerationResolverTheorems.EffectiveOptionsAreAFixedPoint | runtime_foundation/adapters/llama_cpp.py:1613-1699 | resolving again changes nothing, whatever seed or AUTO resolution is offered |
| ExecutionInputTheorems.ValidationIsIdempotent | runtime_foundation/contracts_v2.py:731-760 | the payload of an accepted execution input is accepted again and gives the same input |
| ExecutionInputTheorems.PayloadIsReadBack | runtime_foundation/contracts_v2.py:790-798 | the same for inputs that were constructed directly |
| ExecutionInputTheorems.MakingIsIdempotent | runtime_foundation/contracts_v2.py:591-729 | the constructor applied to its own result changes nothing |
| ExecutionInputTheorems.AcceptedAdapterFits | runtime_foundation/contracts_v2.py:676-707 | an accepted adapter names this base, and for each target lora_a = [in, rank], lora_b = [rank, out] |
| ExecutionInputTheorems.AdapterFitsOneBase | runtime_foundation/contracts_v2.py:676-707 | two accepted inputs with one adapter have the same certified base, model, tokenizer, and sizes of the targeted modules |
| ExecutionInputTheorems.ManifestIsPositive | runtime_foundation/contracts_v2.py:635-656 | the manifest of an accepted base gives each module two positive sizes |
| PayloadTheorems.IdentityIff | runtime_foundation/contracts_v2.py:190-232 | exactly which JSON is read as which content identity |
| PayloadTheorems.BindingIff | runtime_foundation/contracts_v2.py:324-365 | exactly which JSON is read as which artifact binding, by locator or local path, by own id or registry identity |
| PayloadTheorems.InputIff | runtime_foundation/contracts_v2.py:732-760 | exactly which JSON is read as which execution input; a stated fingerprint must be the right one |
| LineageTheorems.TargetIff | runtime_foundation/contracts_v2.py:473-492 | exactly which JSON is read as which target base |
| LineageTheorems.LineageIff | runtime_foundation/contracts_v2.py:518-564 | exactly which JSON is read as which adapter lineage |
| LineageTheorems.LineageAgainIff | runtime_foundation/contracts_v2.py:566-580 | a written lineage is read back iff the identity of its target is |
| ExecutionInputTheorems.BaseOfAdapterIsTrimmed | runtime_foundation/contracts_v2.py:677-692 | adapters are only accepted for bases whose identities carry no surrounding whitespace |
| ExecutionInputTheorems.CanonicalIffSameExecution | runtime_foundation/contracts_v2.py:762-784 | equal canonical payloads iff equal in everything but places and other metadata |
| ExecutionInputTheorems.PlacesAreIrrelevant | runtime_foundation/contracts_v2.py:762-788 | the input moved elsewhere is accepted with the same canonical payload |
| ExecutionInputTheorems.BindingAgain | runtime_foundation/contracts_v2.py:323-365 | reading a written binding gives it back |
| ExecutionInputTheorems.IdentityIsStableIff | runtime_foundation/contracts_v2.py:190-216 | reading a written content identity gives it back iff its digest is trimmed and carries no prefix |
| ExecutionInputTheorems.CompleteIdentityIsStable | runtime_foundation/contracts_v2.py:208-211 | complete SHA-256 identities always do |
| ExecutionInputTheorems.IdentityCanChange | runtime_foundation/contracts_v2.py:196-197 | an accepted identity that changes at the next reading |
| ExecutionInputs.NormalizeShapes | runtime_foundation/contracts_v2.py:635-656 | the loop that fills the normalized manifest, with its failures |

## Left out

- The HTTP service, the client, host probing, file locks and subprocesses: plumbing without a property of its own.
- Real engines, tokenizers, templates and native logs. An adapter is an arbitrary sequence of events, ends
  and exceptions; its `identity`, `build_identity`, `cancel` and `close` are assumed not to raise, because
  the code between `_begin` and the first `try`, and the closing of adapter events, has no cleanup for that.
- Clocks and timers: a deadline is a choice in each step. `_begin`'s poll interval is a spurious wake-up.
- The window between admission and `_reserve_stream`, in which a stream is not yet registered with its
  request: a cancel or timeout that falls into it does not release the stream. Release is stated for registered
  streams. A stream that is dropped unread is closed by Python's own clean-up, which is not modelled.
- `cancel` as one call: its parts are `CancelRequest`, `SetEvents`, the engine's own `cancel`, and
  `Flags.ReleaseIfUnconsumed`, whose outcome is the difference between its last two answers.
- Interrupts (KeyboardInterrupt, SystemExit) inside a stream; in the two generate calls they are modelled.
- Traces, but for how many and which are kept, and for their status in the generate calls; `_last_error`,
  durations, metrics and result payloads.
- Normalisation of consumer names, and the error payloads of refusals; an error is known by its kind.
- `_select_adapter`, capability tables, the memory guard's arithmetic and host observations: they enter as
  answers.
- `LoadedContent`: a verification reads the whole file at one moment, and the owed verifications of the
  locked half are one step. Directory signatures are one version for the whole directory. A GGUF handle that
  stays open, and writers between verification and the engine's own reading, are not part of it.
- `_validate_claims` and the quantization table: case tables. `general.architecture` is kept as bytes, and its
  trimmed form is not returned; only whether it is blank matters here.
- Floats in GGUF metadata are kept as raw bytes, and the model keeps the value types that the dictionary
  drops. Arrays without items are accepted with any element type except a nested array, as in the source.
- The divisibility test of the first dimension by the block size: every listed type has block size 1.
- SHA-256 and `json.dumps`: the hash is a parameter, and the canonical payload is a JSON value, not text.
- File names that are not valid UTF-8, and files that change between the two passes of the file digest.
- The fast, sampled content identities.
- Settings: the status and the reason text of a record; texts of load options are taken as already trimmed
  and lower-cased, as `from_payload` leaves them; numbers that Python calls equal across types (1, 1.0, True)
  are different here. Dictionaries keep the given order, not the sorted one; it matters only for keys with dots.
- A load whose engine reports other effective options than resolved: the extra records are the engine's.
- The MLX resolvers: their defaults can be refused on a second pass, so they are no fixed points.
- Execution inputs: `str.lower` is modelled on ASCII letters; values that JSON cannot carry; legacy bindings.
- `ContentDigests.PRead`: the Windows branch with `lseek` reads the same bytes and is not modelled separately.
