# The isolated Rack host and its helper protocols, verified

This project models the protocols that let a Rack of third-party VST3 plug-ins
run outside OBS without losing audio or saved state, and proves what they
promise. It follows the code, branch by branch; where a promise does not hold
of the code, the project says exactly when it does and gives the run that
breaks it. `dafny verify dfyconfig.toml` checks everything.

## How it is built

Concurrent parts are transition systems: one step per atomic operation,
program counters per thread, any number of readers, any interleaving, timeouts
at any moment. Each has an inductive invariant, and its theorems speak of every
run from the initial state. Beside each safety theorem stands one that says what
a thread gets when nothing disturbs it, so that no protocol is safe by doing
nothing.

* `Generations` — the two generation buffers, their reader counts, the
  published index and the retirement of plug-ins. `CommandPlans` and
  `StoreRuns` tie it to the command worker: for every run of commands and loads
  from the empty Rack there is a run of the store that carries it out step by
  step, with readers stepping in between, and ends with the same slots, retired
  list, closed plug-ins and published generation. So what is proved of all runs
  of the store holds of the Rack.
* `Gate` — the announce-then-check gate, once for both of its uses: vendor
  calls against `getState`, audio reads against `stop`.
* `EditBridge` — controller edits on their way to the processor: bounded ring,
  overflow, resync cursor, counters, capture gate. `ParameterValues` — what an
  edit comes to at the processor.
* `SpscRing` — the ring itself, as a class for one thread and as interleaved
  steps of both sides.
* `PauseTokens` — pausing and resuming the DSP worker.
* `HazardBridge` — hazard slots, the slot-by-slot scan and address reuse.
* `SnapshotStore`, `RackFiles` — write-temp, rotate, replace: a crash between
  any two file operations, torn temporary files, failing operations, damage.

Sequential parts keep the form of the code: arrays shifted in place, loops,
classes with fields. Every method is proved against a function of the state
before it, and the theorems are about those functions and whole runs of them.

* `Crc32`, `StateBlob`, `SessionCodec`, `PresetCodec` — the three nested file
  formats and their checksum (CRC-32 as in section 8 of RFC 1952).
* `RackSlots`, `MissingStates` — the slot array, its commands, the store of
  missing plug-ins, loads and capture. `RackRuns`, `MissingRuns` — identities,
  ownership and preserved state over whole runs. `CommandEffects`,
  `SaveAndLoad` — what each command, load and capture does to the slots and to
  what sounds, in the slots' own fields, and which of them undo one another.
* `Loudness` — the gated loudness histogram (Annex 1 of ITU-R BS.1770-4).
* `RecoveryPolicy` — the restart back-off and the rate it allows.
* `DspBlock` — one audio block through the chain.

`Wrappers`, `Bytes` and `Counting` are shared vocabulary.

## What does not hold, and when it does

* **A failed delivery can slip through synchronization.** The failure flag is
  read before the counters, while the DSP thread counts an edit as applied
  before it raises the flag (`src/rack/rack_hosted_plugin.hpp:266-278` and
  `385-392`). `EditBridge.FailedDeliveryCanSlipThrough` gives the run from every
  fresh bridge; `EditBridge.CaptureIsFaithful` shows that once the capture gate
  has drained the flag tells the truth, so reading it there would close the gap.
* **A free identity after a load is free once.** `assign_next_dynamic_slot_id`
  takes the first gap, and the counter then runs into the identities above it.
  Identities stay distinct exactly when no loaded one is at or above the gap
  (`RackRuns.FreshnessAfterLoadIff`). The state of missing plug-ins survives
  exactly when no missing slot's identity is (`MissingRuns.MissingStateSurvivesIff`):
  otherwise the counter reaches that identity, a plug-in added in front of the
  missing slot takes its place in the prune, and the only saved state is dropped
  (`MissingRuns.CounterReachesMissing`, `MissingRuns.TwoAddsAfterALoadLoseState`).
* **Two renames do not make two copies.** Damage to the primary between two
  saves prevents the rotation (`SnapshotStore.TwoCommitsCanBeLost`); a lost
  primary is survived exactly when a rotation has completed and its copy is
  unharmed (`SnapshotStore.PreviousSurvives`).
* **A programme that gets too loud keeps its previous reading.** Once the mean of
  the accepted blocks is above 39.95 LUFS even the top bin lies below the
  relative gate (`Loudness.GatedUnlessTooLoud`); a meter that had no reading
  before still has none (`Loudness.TooLoudShowsNothing`).
* **The restart rate is bounded only while the filter stays on.** Every tick with
  the filter off forgets the back-off, so switched off between any two restarts
  it restarts its helper on every other look (`RecoveryPolicy.TogglingRestartsAtWill`).

## Model

| member | source | states |
|---|---|---|
| Bytes.LowByteFirst | src/common/state_snapshot.hpp:30-36 | a word is written low byte first |
| Crc32.ComputeCrc | src/common/state_snapshot.hpp:49-58 | the bytewise, bitwise loop computes the checksum as a fold over the bytes |
| Crc32.RegisterInjective | src/common/state_snapshot.hpp:49-58 | feeding the same bytes never merges two different registers, over any number of bytes |
| Crc32.RegisterConcat | src/common/state_snapshot.hpp:49-58 | the register after a concatenation is the register of the second part started from the first |
| Crc32.BurstDetected | src/common/state_snapshot.hpp:49-58 | two byte strings that differ only within four consecutive bytes and have the same checksum are equal |
| Crc32.CheckValue | src/common/state_snapshot.hpp:49-58 | the checksum of the nine digits is the check value published for CRC-32 |
| StateBlob.EncodeStateBlob | src/common/state_snapshot.hpp:62-89 | a state is refused exactly when it is too large; otherwise the blob is header, checksum and both parts |
| StateBlob.DecodeStateBlob | src/common/state_snapshot.hpp:91-144 | accepts exactly the blobs of encodable states, and returns the state whose blob it is |
| StateBlob.BlobInjective | src/common/state_snapshot.hpp:62-89 | different states have different blobs |
| StateBlob.BlobWords | src/common/state_snapshot.hpp:62-89 | where every word of an encoded state stands |
| SessionCodec.BodySize | src/rack/rack_session_snapshot.cpp:321-345 | eight individually valid slots always fit: the size checks never refuse |
| SessionCodec.SavableExactly | src/rack/rack_session_snapshot.cpp:89-114 | which snapshots can be saved, with every limit in numbers: no zero identity, generation or rack, one to 4096 and one to 256 bytes of text without NUL, at most 16 MiB of state a slot and eight slots of distinct identities |
| SessionCodec.SessionWords | src/rack/rack_session_snapshot.cpp:347-361 | where every word of an encoded snapshot stands |
| SessionCodec.SlotParts | src/rack/rack_session_snapshot.cpp:326-339 | where every part of an encoded slot stands |
| SessionCodec.HealthNumbers | src/rack/rack_session_snapshot.hpp:28-35 | how the format numbers the five healths |
| SessionCodec.ValidateSlotIdentity | src/rack/rack_session_snapshot.cpp:89-114 | says whether identity, path, class and their sizes are acceptable |
| SessionCodec.EncodeSession | src/rack/rack_session_snapshot.cpp:280-362 | a snapshot is refused exactly when it is not valid, by any of its checks; otherwise its one encoding is produced |
| SessionCodec.DecodeSlot | src/rack/rack_session_snapshot.cpp:416-478 | a slot is read exactly when the bytes of some valid slot stand at the offset, which moves past them |
| SessionCodec.DecodeBody | src/rack/rack_session_snapshot.cpp:413-483 | the body is accepted exactly when it is the concatenation of that many valid slots of distinct identities, with nothing behind |
| SessionCodec.DecodeSession | src/rack/rack_session_snapshot.cpp:364-487 | decode accepts only encodings (they encode back to the same bytes) and gives back every valid snapshot from its encoding |
| SessionCodec.EncodedInjective | src/rack/rack_session_snapshot.cpp:280-362 | different valid snapshots have different encodings |
| SessionCodec.SessionOfEncoded | src/rack/rack_session_snapshot.cpp:364-487 | decoding the encoding of a valid snapshot returns it |
| SessionCodec.CloseTwins | src/rack/rack_session_snapshot.cpp:393-403 | two valid encodings that agree outside one byte, or outside four consecutive bytes behind the checksum, are the same |
| SessionCodec.DamageDetected | src/rack/rack_session_snapshot.cpp:364-487 | changing any one byte of a valid encoding, or up to four consecutive bytes of the protected payload, makes decode fail |
| PresetCodec.EncodePreset | src/rack/rack_preset_library.cpp:269-317 | a preset is refused exactly when it is not valid; otherwise its one encoding, around the session encoding, is produced |
| PresetCodec.DecodePreset | src/rack/rack_preset_library.cpp:319-390 | decode accepts only encodings of valid presets and gives every valid preset back |
| PresetCodec.PresetInjective | src/rack/rack_preset_library.cpp:269-317 | different valid presets have different encodings |
| PresetCodec.PresetWords | src/rack/rack_preset_library.cpp:298-317 | where every word of an encoded preset stands, and that its session carries the preset's identity and generation one |
| PresetCodec.PresetOfEncoded | src/rack/rack_preset_library.cpp:319-390 | decoding the encoding of a valid preset returns it |
| PresetCodec.PresetDamageDetected | src/rack/rack_preset_library.cpp:319-390 | one changed byte anywhere, or four consecutive ones in the payload, makes decode fail |
| SnapshotStore.InvStep | src/rack/rack_session_snapshot.cpp:489-571 | every file operation, failed operation, crash and damage of either file keeps: the primary is the last commit or undecodable, and the rotation copy is a commit unless it was harmed itself, never older than the last but one unless the primary was harmed before |
| SnapshotStore.LoadIsLastCommit | src/rack/rack_session_snapshot.cpp:573-610 | after any run of saves, failures and crashes from leftovers of any content, an undamaged primary loads as exactly the last snapshot whose final rename completed, and nothing loads before the first |
| SnapshotStore.LoadIsSomeCommit | src/rack/rack_session_snapshot.cpp:573-610 | whichever of the two files is damaged, missing or unreadable, a load returns a committed snapshot or nothing |
| SnapshotStore.PreviousSurvives | src/rack/rack_session_snapshot.cpp:522-540 | with the primary lost, a load succeeds exactly when a rotation has completed and its copy has not been harmed since; after two commits without earlier damage one has, and the loss costs at most the last commit |
| SnapshotStore.SuccessIsDurable | src/rack/rack_session_snapshot.cpp:556-570 | on every run, at whatever step a save reports success, the snapshot it was begun with is the last commit and a load returns it |
| SnapshotStore.EverySaveReports | src/rack/rack_session_snapshot.cpp:489-571 | exactly the saves that are over, and were not cut off by a crash, have reported a result |
| SnapshotStore.UndisturbedSaveSucceeds | src/rack/rack_session_snapshot.cpp:489-571 | from every state a run can leave, a save of a valid snapshot whose file operations work commits it, reports success, and leaves the commit before it as the copy to fall back to |
| SnapshotStore.NoTemporaryLeft | src/rack/rack_session_snapshot.cpp:515-560 | a save that is over leaves no temporary file, failed renames and read-backs included, unless a delete or a write failed |
| SnapshotStore.TwoCommitsCanBeLost | src/rack/rack_session_snapshot.cpp:526-540 | for any two valid snapshots: a run with damage between two commits after which both are lost, so two renames alone are not enough |
| RackFiles.SessionSavesAreAtomic | src/rack/rack_session_snapshot.cpp:489-610 | the session file under the real codec: any run of saves leaves the last commit as what loads |
| RackFiles.PresetSavesAreAtomic | src/rack/rack_preset_library.cpp:392-528 | the same for a preset file, whose content must carry the identity of its key |
| RackFiles.FlippedBytesFallBack | src/rack/rack_session_snapshot.cpp:573-610 | after two commits without damage, flipping one stored byte of the primary or four consecutive protected ones makes a load fall back to one of the last two commits |
| Generations.InvStep | src/rack/main.cpp:411-445 | every atomic step of readers and control thread keeps reader counts, buffers, retired list and plug-in ownership consistent |
| Generations.HeldGenerationIsWholeAndOpen | src/rack/main.cpp:425-445 | in every interleaving, a reader past its second look holds one complete published generation that nothing has changed since, and no plug-in in it is closed, stale loads of the index included |
| Generations.RetiredOnlyInRecordedBuffer | src/rack/main_r3_2.cpp:436-457 | between commits a retired plug-in is reachable at most through the buffer recorded with it, and only while that buffer is not published |
| Generations.CloseIsSafe | src/rack/main_r3_2.cpp:143-155 | a plug-in the reap is about to close is in no generation a validated reader holds |
| Generations.NobodyThere | src/rack/main.cpp:411-423 | a reader count seen at zero means no validated reader of that buffer |
| Generations.EveryPluginHasOneOwner | src/rack/main_r3_2.cpp:436-498 | in every reachable state each plug-in ever opened is live, pending in one commit, retired, or closed, once |
| Generations.PublishedIsActiveLive | src/rack/main_r3_2.cpp:169-206 | between commits the published buffer is exactly the active live slots in order, although it was filled slot by slot under readers |
| CommandPlans.AcceptedIsGoodPlan | src/rack/main_r3_2.cpp:358-498 | on a store that holds what the Rack holds, every accepted command is a commit of the kind the store is proved safe for, and publishes what the store copies |
| CommandPlans.LoadIsGoodPlan | src/rack/main_r3_4.cpp:440-470 | so is every load that goes through, which hands its plug-ins over before it publishes |
| StoreRuns.CommitPath | src/rack/main_r3_2.cpp:169-206 | once the hidden buffer has no reader, the control thread's own steps carry any good commit through, whatever the other readers are doing |
| StoreRuns.ReadersKeepMirror | src/rack/main.cpp:411-445 | wherever a reader steps in, the store goes on holding what the Rack holds |
| StoreRuns.EveryRunIsAStoreRun | src/rack/main_r3_2.cpp:320-507 | for every run of commands and loads from the empty Rack, refusals, reaps and given-up commits included, a run of the store with interleaved readers that carries it out and ends with the same live slots, retired list, closed and opened plug-ins and published generation |
| Gate.ActionExcludesCallers | src/rack/rack_hosted_plugin.hpp:288-350 | while getState runs no vendor call is inside, and while destroy stops the bridge no audio read is active, for any number of callers |
| Gate.ClosedForGood | src/obs-plugin/rack_filter.cpp:200-237 | once destroy has acted no audio read ever becomes active again |
| Gate.ActsOnlyAfterZero | src/rack/rack_hosted_plugin.hpp:304-316 | the protected action starts only at a step that saw the counter at zero: a wait that times out gives it up |
| Gate.EveryWaitCanEnd | src/rack/rack_hosted_plugin.hpp:304-316 | on every run, callers that go their way let a waiting owner have its turn |
| Gate.UndisturbedCallerEnters | src/rack/rack_hosted_plugin.hpp:325-337 | a caller that finds the flag down is inside three steps later |
| Gate.ReopensAfterEveryUse | src/rack/rack_hosted_plugin.hpp:299-316 | the capture gate is down again after every capture, timed out or not |
| Gate.StaysClosed | src/obs-plugin/rack_filter.cpp:200-237 | the gate of destroy stays closed |
| Gate.LateCallersStayOutside | src/rack/rack_hosted_plugin.hpp:325-337 | while the flag is up only callers already on their way in can still raise the counter |
| EditBridge.InvDsp | src/rack/rack_hosted_plugin.hpp:216-250 | no step of the DSP thread changes what a parameter will be once everything queued is delivered, unless a delivery fails |
| EditBridge.InvControl | src/rack/rack_hosted_plugin.hpp:150-208 | no vendor edit, ring overflow, restart flag, partial resync or restart of the resync cursor leaves an announced value neither queued, nor delivered, nor still to be visited |
| EditBridge.SynchronizedConverges | src/rack/rack_hosted_plugin.hpp:256-286 | once synchronization returned true the ring and the pending changes are empty, and unless a delivery has failed the processor has, for every announced parameter, the controller's own value if it is continuous and in range, the nearest step (at most half a step away) if it is stepped, the nearer end if it is out of range |
| EditBridge.CaptureIsFaithful | src/rack/rack_hosted_plugin.hpp:288-317 | while getState runs no vendor call runs, the failure flag is up exactly if a delivery ever failed, and a clear flag means that the processor has the controller's values in that sense |
| EditBridge.FailureBlocksEveryCapture | src/rack/rack_hosted_plugin.hpp:262-270 | once the failure flag is up no synchronization that has not yet looked at it returns true, and nothing takes the flag down |
| EditBridge.FailedDeliveryCanSlipThrough | src/rack/rack_hosted_plugin.hpp:256-286 | from every fresh bridge, for every catalogued parameter and value the processor does not carry yet, a run in which synchronization returns true and getState runs although the value was never delivered |
| EditBridge.UndisturbedEditIsCaptured | src/rack/rack_hosted_plugin.hpp:216-317 | from every fresh bridge an announced edit that nothing disturbs is at the processor, as what it comes to, when getState runs |
| EditBridge.UndisturbedBlockIsProcessed | src/rack/rack_hosted_plugin.hpp:216-250 | an undisturbed block reaches the vendor's process call with or without edits before it, and a flush that finds none leaves the vendor alone |
| EditBridge.LateBlocksStayOutside | src/rack/rack_hosted_plugin.hpp:325-337 | while a capture has the gate a late block does not even reach for the counter it waits on |
| EditBridge.ResyncQueues | src/rack/rack_hosted_plugin.hpp:192-205 | while the ring has room a resync queues one catalog entry after the other with its value at the controller |
| ParameterValues.NormCarries | src/common/parameter_utils.hpp:9-18 | what the processor is given is exactly the value nearest to the controller's that the first catalog entry of the parameter allows, and only one value is nearest |
| EditBridge.EffectiveAfterPush | src/rack/rack_hosted_plugin.hpp:150-159 | a queued edit decides the final value of its parameter and of no other |
| SpscRing.Ring.Push | src/common/spsc_ring.hpp:21-30 | appends unless the ring holds its exact capacity, which leaves it unchanged |
| SpscRing.Ring.Pop | src/common/spsc_ring.hpp:32-40 | takes the oldest item, or none from an empty ring |
| SpscRing.PopsAreAPrefixOfPushes | src/common/spsc_ring.hpp:21-40 | in every interleaving of the two sides, pops return the pushed values in order and the rest, at most the capacity, is what the ring holds |
| SpscRing.NoSlotReadWhileWritten | src/common/spsc_ring.hpp:21-40 | the slot being filled is never the slot being read |
| SpscRing.RefusedExactlyWhenFullOrEmpty | src/common/spsc_ring.hpp:25-36 | a push is refused exactly when the full capacity is held at its look at tail, a pop exactly when nothing is held at its look at head |
| SpscRing.ApproximateSizeRace | src/common/spsc_ring.hpp:48-53 | loads of head and tail with any steps between give a value within the capacity, exact at the second load if head stood still and at the first if tail did |
| PauseTokens.PauseIsExclusive | src/host/main.cpp:716-776 | from the moment pause returned true until the next request, the worker makes no engine call, after any timed-out pauses and late acknowledgements |
| PauseTokens.ResumeIsTakenOver | src/host/main.cpp:729-735 | while a resume that returned true is in force the worker is not in the paused loop |
| PauseTokens.AcknowledgementIsForThisRequest | src/host/main.cpp:745-776 | a token about to be stored is neither acknowledged nor known to the worker, and its wait succeeds only on itself |
| PauseTokens.WaitIsAnswered | src/host/main.cpp:778-845 | whatever went before, any eleven steps of a live worker whose calls succeed and whose waits do not fail answer the outstanding request, and it stays answered |
| PauseTokens.WorkerHasAStep | src/host/main.cpp:778-845 | a live worker always has such a step: no state of the two tokens blocks it |
| PauseTokens.ResumedWorkerServes | src/host/main.cpp:778-845 | once a request to run is acknowledged, a live worker that is signalled serves within three of its own steps |
| PauseTokens.NoPauseIsLeftBehind | src/host/main.cpp:745-776 | whenever the control thread is free no request to pause is in force: a pause that timed out has been taken back |
| PauseTokens.FailedCallEndsTheWorker | src/host/main.cpp:778-845 | a failed engine call or wait ends the worker, which acknowledges nothing from then on |
| PauseTokens.StoppedWorkerEnds | src/host/main.cpp:778-845 | a worker told to stop takes at most eight more steps, whatever its calls return |
| HazardBridge.HeldBridgeIsAlive | src/obs-plugin/plugin.cpp:281-323 | the pointer a validated reader holds is the address of exactly one living bridge, the one that was active when it validated, during any publish, scan and reuse of addresses |
| HazardBridge.ValidatedHoldIsActive | src/obs-plugin/plugin.cpp:295-302 | a hold is granted only on the bridge active at that step, which is not retired |
| HazardBridge.AtMostEightHolders | src/obs-plugin/plugin.cpp:287-294 | slots are exclusive: however many audio threads there are, at most eight hold a bridge |
| HazardBridge.UndisturbedReaderHolds | src/obs-plugin/plugin.cpp:281-302 | on every run a thread that nobody disturbs gets the first free slot and a hold on the active bridge |
| HazardBridge.AcquireIsBounded | src/obs-plugin/plugin.cpp:281-303 | whatever publishers, scans and other threads do, a thread is through with acquiring after at most seventeen steps of its own |
| HazardBridge.NoStrayProtection | src/obs-plugin/plugin.cpp:303-316 | on every run a slot that nobody has claimed, or whose thread has given up or left, protects nothing |
| HazardBridge.LeavingFreesTheSlot | src/obs-plugin/plugin.cpp:305-323 | a holder that leaves takes its protection along and frees its slot |
| HazardBridge.PublishingReplaces | src/obs-plugin/plugin.cpp:263-279 | publishing a bridge makes it the active one and retires the one before |
| HazardBridge.DestroyingFreesTheAddress | src/obs-plugin/plugin.cpp:205-221 | a destroyed bridge gives its address back, and no other living bridge has it |
| HazardBridge.ForgottenBridgeIsReclaimed | src/obs-plugin/plugin.cpp:193-221 | the scan of a bridge that nobody knows and no slot protects never stops: after eight looks it has left the retired list for good, whatever readers, publisher and destructions do in between |
| HazardBridge.ForgottenForGood | src/obs-plugin/plugin.cpp:281-323 | on every run a bridge on its way out that no reader knows any more stays unknown until it is destroyed, also while addresses are used again |
| RackSlots.IndexOf | src/rack/main_r3_2.cpp:126-133 | the first slot with an identity, or the end |
| RackSlots.MovedToAt | src/rack/main_r3_2.cpp:401-421 | where every slot stands after a move |
| RackSlots.DynamicRack.FindSlot | src/rack/main_r3_2.cpp:126-133 | the loop finds that first position |
| RackSlots.DynamicRack.Reap | src/rack/main_r3_2.cpp:143-155 | keeps exactly the retired plug-ins whose buffer the look at their turn finds busy, in order, and closes the others |
| RackSlots.DynamicRack.Publish | src/rack/main_r3_2.cpp:169-206 | fills the next generation with the playing slots in order and switches buffers |
| RackSlots.DynamicRack.AddSlot | src/rack/main_r3_2.cpp:360-399 | shifting in place is insertion at the index; every refusal leaves slots and generation alone and closes what it opened |
| RackSlots.DynamicRack.MoveSlot | src/rack/main_r3_2.cpp:401-421 | shifting in place is taking the slot out and inserting it at the target |
| RackSlots.DynamicRack.SetSlotBypass | src/rack/main_r3_2.cpp:423-434 | changes one slot, and is refused when nothing would change or the health forbids it |
| RackSlots.DynamicRack.RemoveSlot | src/rack/main_r3_2.cpp:436-457 | closing the gap in place is removal; the plug-in is retired with the buffer published before |
| RackSlots.DynamicRack.ReplaceSlot | src/rack/main_r3_2.cpp:459-498 | the slot keeps identity, place and bypass; the plug-in before it is retired |
| RackSlots.DynamicRack.ExecuteCommand | src/rack/main_r3_2.cpp:320-507 | reap, decide, commit, and reap again after a removal, as the sequence model does |
| RackSlots.ConsecutiveIdsAreFew | src/rack/main_r3_4.cpp:343-352 | among one more consecutive identities than there are slots, one is unused |
| RackSlots.DynamicRack.AssignNextSlotId | src/rack/main_r3_4.cpp:343-352 | ends, never fails, and finds the least unused identity from the base on |
| RackSlots.DynamicRack.RetirePlugins | src/rack/main_r3_4.cpp:426-438 | every live plug-in is retired once, in order, with the buffer published before |
| MissingStates.MissingStore.Find | src/rack/main_r3_4.cpp:123-130 | the first entry of a slot |
| MissingStates.MissingStore.Put | src/rack/main_r3_4.cpp:132-148 | overwrites the entry of the slot, else takes the first free one, else refuses |
| MissingStates.MissingStore.Prune | src/rack/main_r3_4.cpp:150-159 | keeps exactly the entries whose identity is found at a slot without a plug-in |
| MissingStates.Materialize | src/rack/main_r3_4.cpp:361-424 | refuses exactly the presets that are too long or have a zero or repeated identity; never for want of room in the store or of a next identity |
| MissingStates.LoadPreset | src/rack/main_r3_4.cpp:440-470 | a load replaces slots, store and generation and retires the plug-ins before it; a refused one closes what it opened and changes nothing else |
| MissingStates.CaptureRack | src/rack/main_r3_4.cpp:302-330 | capture succeeds exactly when every plug-in gives its state and the store has that of every other slot |
| MissingStates.ServeCommand | src/rack/main_r3_4_persistent.cpp:282-297 | the store is pruned after an accepted command and before the Rack is saved |
| RackRuns.IdsDistinctWithoutLoads | src/rack/main_r3_2.cpp:376-399 | on every run of commands and refused loads from the empty Rack identities stay distinct and non-zero, also when the counter wraps |
| RackRuns.LoadGivesDistinctIds | src/rack/main_r3_4.cpp:418-422 | after a load identities are distinct and the next one is unused |
| RackRuns.FreshnessAfterLoadIff | src/rack/main_r3_4.cpp:343-352 | after any load, identities stay distinct on every later run of commands and refused loads exactly when no loaded identity is at or above the next one |
| RackRuns.CounterCollides | src/rack/main_r3_2.cpp:376-399 | for any live identity at or above the next one, the run of additions and removals that hands it out again |
| RackRuns.EveryPluginIsOwnedOnce | src/rack/main_r3_2.cpp:436-498 | on every run of commands and loads each opened plug-in is in exactly one live slot, or once in the retired list, or closed, and the published generation is the playing live slots |
| RackRuns.ActiveSlotsInOrder | src/rack/main_r3_2.cpp:169-184 | the published list is, in order and each once, the identity, plug-in and latency of exactly the slots that are not bypassed, have a plug-in and are neither missing nor quarantined |
| RackRuns.ChainIsPublished | src/rack/main_r3_2.cpp:169-184 | on every run of commands and loads what is published is that list of the slots there are |
| CommandEffects.OnlyOneIsPublished | src/rack/main_r3_2.cpp:169-184 | only one list is published so |
| CommandEffects.AddEffect | src/rack/main_r3_2.cpp:360-399 | when an addition goes through, where the new slot stands, and that its plug-in joins what sounds while nothing else changes |
| CommandEffects.BypassEffect | src/rack/main_r3_2.cpp:423-434 | when a bypass goes through; switched off, the plug-in leaves what sounds, switched on it is back at its place, and nothing else changes |
| CommandEffects.RemoveEffect | src/rack/main_r3_2.cpp:436-457 | when a removal goes through; the slot leaves the list and what sounds, and its plug-in is handed over with the buffer that was published |
| CommandEffects.ReplaceEffect | src/rack/main_r3_2.cpp:459-498 | when a replacement goes through; identity, place and bypass stay, and the new plug-in sounds exactly if the slot is not bypassed |
| CommandEffects.MoveEffect | src/rack/main_r3_2.cpp:401-421 | when a move goes through; the slot stands at its target, the others keep their order, and the same plug-ins sound |
| CommandEffects.RefusalChangesNothing | src/rack/main_r3_2.cpp:320-507 | a command that does not go through leaves slots, identities and what sounds as they were, and closes what it opened |
| CommandEffects.BypassAndBack | src/rack/main_r3_2.cpp:423-434 | a bypass and its reverse restore slots and sound |
| CommandEffects.MoveAndBack | src/rack/main_r3_2.cpp:401-421 | a move and the move back restore slots and sound |
| CommandEffects.AddAndRemove | src/rack/main_r3_2.cpp:360-457 | adding a slot and removing it restores slots and sound |
| RackRuns.AcceptedKeepsOwnership | src/rack/main_r3_2.cpp:360-498 | an accepted command keeps every plug-in owned once |
| RackRuns.LoadKeepsOwnership | src/rack/main_r3_4.cpp:440-470 | so does a load |
| MissingRuns.LoadPreserves | src/rack/main_r3_4.cpp:410-414 | a load stores, for every slot without a plug-in, exactly its own snapshot, and nothing else |
| SaveAndLoad.LoadEffect | src/rack/main_r3_4.cpp:361-470 | when a load goes through, and what every saved slot becomes: identity, plug-in asked for, bypass, health, latency; otherwise nothing changes |
| SaveAndLoad.LoadThenSave | src/rack/main_r3_4.cpp:302-330 | saving a placeholder writes back what was loaded, but for the health that says why it is not there |
| SaveAndLoad.SavedRackLoadsBack | src/rack/main_r3_4.cpp:302-470 | a saved Rack loads back slot by slot, also after its missing plug-ins have been carried through any such run, and what cannot be opened this time has its saved state in the store again |
| MissingRuns.MissingStateSurvives | src/rack/main_r3_4.cpp:302-330 | after a load none of whose missing slots has an identity at or above the next one, any run of commands and refused loads keeps one snapshot per slot without a plug-in; saving it gives back the loaded identity, path, class, bypass and state |
| MissingRuns.MissingStateSurvivesIff | src/rack/main_r3_4.cpp:343-352 | after any load, every later run of commands and refused loads saves the loaded state of every missing slot exactly when no missing slot has an identity at or above the next one |
| MissingRuns.CounterReachesMissing | src/rack/main_r3_4.cpp:150-159 | for any missing slot with an identity at or above the next one, the run of additions and removals that makes the prune drop its state |
| MissingRuns.AddLosesMissingState | src/rack/main_r3_4.cpp:150-159 | when the next identity is that of a missing slot, adding a plug-in in front makes the prune drop its only state, and nothing can be saved after |
| MissingRuns.TwoAddsAfterALoadLoseState | src/rack/main_r3_4_persistent.cpp:282-297 | such a run exists for any two snapshots with the base identity and the one two above it |
| RecoveryPolicy.RecoveryPolicy.Observe | src/common/recovery_policy.hpp:37-66 | the decision and the new state for every observation |
| RecoveryPolicy.RecoveryPolicy.RecordRestartAttempt | src/common/recovery_policy.hpp:68-75 | the delay doubles from one second to thirty |
| RecoveryPolicy.RecoveryPolicy.Reset | src/common/recovery_policy.hpp:77-82 | forgets attempts, delay and health |
| RecoveryPolicy.Supervise | src/obs-plugin/plugin.cpp:1091-1123 | the loop, ticks with the filter off included, restarts the helper at exactly the times the policy allows |
| RecoveryPolicy.OneGap | src/common/recovery_policy.hpp:31-75 | each gap between restarts is at least 4250 ms, up to the credit it uses or earns |
| RecoveryPolicy.RestartRate | src/obs-plugin/plugin.cpp:1091-1123 | after any history, while the filter stays enabled any window of T ms holds at most 1 + (T + 5750) / 4250 restarts, whatever the helper does |
| RecoveryPolicy.SilentHelperIsRestarted | src/obs-plugin/plugin.cpp:1091-1123 | after any history a helper that is gone or silent for over 2.5 s is restarted by the next look thirty seconds after the last restart, at once if there was none; one that answers never is |
| RecoveryPolicy.HealthTells | src/common/recovery_policy.hpp:37-66 | what each reported health says of the helper, the misses and the wait |
| RecoveryPolicy.BrokenHealthIsNotForgiven | src/common/recovery_policy.hpp:37-66 | only unbroken health is forgiven: one silent look puts it off for ten seconds from then on |
| RecoveryPolicy.TogglingRestartsAtWill | src/obs-plugin/plugin.cpp:1091-1097 | switched off between any two restarts the filter restarts its helper at any times two seconds apart, the pace of its loop: no such bound holds across a tick that is not enabled |
| RecoveryPolicy.RateIsSharp | src/common/recovery_policy.hpp:31-75 | for every n a run reaches the bound, with 4 n + 4 restarts in 17000 n + 7000 ms |
| DspBlock.RackDsp.RunChain | src/rack/main.cpp:600-622 | the two scratch buffers carry the chain; no slot writes the buffer it reads or the block that came in |
| DspBlock.RackDsp.ServeBlock | src/rack/main.cpp:558-635 | an Ok block went through every slot the mask leaves on, in order, each handed what the one before made, and the last one's is the output; an error names the slot that failed after all before it succeeded, and the output is exactly the input; the latency is that of the whole playing chain either way |
| DspBlock.ChainIsSlotBySlot | src/rack/main.cpp:600-622 | the chain is the blocks handed on from slot to slot, up to the end or to the first that fails |
| DspBlock.ChainComposes | src/rack/main.cpp:604-622 | running two chains one after the other is running their concatenation, failures included |
| DspBlock.BypassedSlotsVanish | src/rack/main.cpp:604-607 | bypassed slots may stand anywhere: neither output nor latency tells |
| DspBlock.LatencyComposes | src/rack/main.cpp:589-599 | latencies of chains add up |
| Loudness.CenterIsNear | src/rack/rack_broadcast_loudness.hpp:309-317 | a bin centre is within half a step of every block in the bin, below 30 LUFS |
| Loudness.HistogramGateIsNear | src/rack/rack_broadcast_loudness.hpp:339-348 | a block at least 0.05 LU above the gate is kept, one more than 0.05 LU below it is not |
| Loudness.GatingSandwich | src/rack/rack_broadcast_loudness.hpp:339-348 | for every history, the number of windows kept lies between exact gating 0.05 LU higher and 0.05 LU lower |
| Loudness.GatedUnlessTooLoud | src/rack/rack_broadcast_loudness.hpp:334-350 | for every history with an accepted window, something passes the relative gate exactly when the mean is at most 39.95 LUFS |
| Loudness.PassedAreTheLoudWindows | src/rack/rack_broadcast_loudness.hpp:285-321 | the accepted blocks of any history are exactly the windows of four sub-blocks at or above -70 LUFS, each once and in order |
| Loudness.QuietChangesNothing | src/rack/rack_broadcast_loudness.hpp:305-307 | a sub-block that ends no such window leaves the reading as it was |
| Loudness.NothingKeptChangesNothing | src/rack/rack_broadcast_loudness.hpp:349-351 | nor does one after which nothing passes the relative gate: the meter keeps its reading |
| Loudness.SilenceHasNoReading | src/rack/rack_broadcast_loudness.hpp:305-307 | a history without such a window has no reading |
| Loudness.ReadingIsLoudnessOfMean | src/rack/rack_broadcast_loudness.hpp:323-354 | the reading is the loudness, by its formula, of the mean energy of the kept windows |
| Loudness.TooLoudShowsNothing | src/rack/rack_broadcast_loudness.hpp:334-350 | four sub-blocks above 39.95 LUFS fill an accepted window none of which passes: the meter shows nothing |
| Loudness.ReadingIsGatedMean | src/rack/rack_broadcast_loudness.hpp:323-354 | whenever anything accepted so far passes the relative gate, the reading after the whole history is the mean of exactly what passes, never that of an earlier moment |
| Loudness.BinnedSplits | src/rack/rack_broadcast_loudness.hpp:325-330 | counts and energies of adjoining ranges of bins add up |
| Loudness.Meter.FinishSubblock | src/rack/rack_broadcast_loudness.hpp:285-321 | each bin holds the exact count and energy of the accepted windows of four sub-blocks in it, and the meter shows the reading of the whole history: silence and refused windows change nothing |
| Loudness.Meter.UpdateIntegratedLoudness | src/rack/rack_broadcast_loudness.hpp:323-354 | from exact bins, the loops compute the mean of exactly the blocks whose bins pass the relative gate |
| Loudness.Meter.AddFrame | src/rack/rack_broadcast_loudness.hpp:85-88 | a sub-block is finished exactly at its last frame, with the mean of its weighted squares |

## Left out

- Weak memory: every atomic operation is one sequentially consistent step, although generations and gates use acquire and release.
- The widths of counters that only grow (submitted and applied edits, DSP calls, reader counts, pause generations, millisecond clocks): they are unbounded here; slot identities, generation numbers, latency sums and encoded lengths keep their widths.
- Vendor code: a plug-in is what it does to one block, a controller any sequence of announced and unannounced changes made while messages are pumped, and the processor agrees with the controller at open on every parameter it has not left unannounced. Parameters whose controller value changed without an edit or a restart flag are excluded from the convergence claims.
- Unhandled restart flags, external component handlers, and the error strings of every failure.
- The bound of eight attempts to acquire a generation: a reader may retry without limit, and giving up is leaving the protocol; `DspBlock` covers the dry block that follows.
- The generation number that restoring a session publishes, which may equal the initial one: generation numbers grow strictly only over commands and loads.
- The order of shutdown: closing the live and retired plug-ins after the DSP thread has been joined.
- The count and identities of slots that a commit also writes to the shared audio region for the other process.
- Display names and vendors of slots, the catalog, its refresh, vendor editors and the replay of acknowledged commands.
- SnapshotStore.InvStep: assumes that a flushed write of the rotation copy reports success only if the bytes are there, because that file alone is not read back; a replacing rename is atomic; damage leaves bytes that do not decode, which `RackFiles` proves for flipped bytes.
- The derivation of preset file names, the directory of a library, and renaming and deleting presets.
- RackRuns.FreshnessAfterLoadIff: asks that enough generation numbers remain for the run that collides; without them no command is accepted at all.
- MissingRuns.MissingStateSurvivesIff: asks for the same generation numbers, for the run that loses.
- StoreRuns.EveryRunIsAStoreRun: exhibits one interleaving for each run of the Rack, with readers chosen to make every look find what the run says; the store's theorems speak of all interleavings.
- HazardBridge.HeldBridgeIsAlive: one filter and its slots; bridges of other filters share only the retired list and appear as taken addresses.
- RecoveryPolicy.RateIsSharp: a run of the policy with observations at any times; the pace of the loop, one look a second, would make the worst case slightly better.
- Loudness.Meter.FinishSubblock: over exact reals; the K-weighting filters, true peak, the published integers and rounding are not part of this model.
- DspBlock.RackDsp.ServeBlock: a plug-in writes nothing but its output buffer; breadcrumbs, progress counters and events are left out.
- The control loop of the three-slot fixture, the window, the scanner, parameter refresh and reload coordinators: linear code without state of its own.
- `win_ipc` and `win_rack_bridge` are not part of this model.
