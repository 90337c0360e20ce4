# Verified model of pulse-esp32-host

A Dafny model of the native firmware shell that installs, activates and runs WebAssembly bundles on a small device, and
proofs about it. Three connected parts are modelled.

**Crash-safe A/B activation.** A metadata block with two slots (`BundleMetadata`), sealed by a bitwise CRC-32
(`Crc32`), is kept in a two-record flash journal (`Journal`). The slot state machine (`Activation`) decides at each
boot what to run; the boot orchestration (`BootApp`) stores that decision before guest code starts. `SlotInvariant`
proves what every run of the state machine keeps. `BootProtocol` puts updates, boots and power cuts together: a run is
a list of sessions, a write may stop after any number of erased or written bytes, and the next session starts from
whatever the journal then returns; `BootSafety` proves what all such runs keep. `HostTool` is the second, independent
slot machine, which the host tool runs on a JSON file, and its exact agreement with the firmware, counters included
(`ToolCounters`, `ToolTrials`). `Decisions` says what a boot decides on any valid block. `BootEnds` and `BootReports` say
what each boot leaves on flash and in RAM and what it reports, `Installed` what the slots hold over whole runs.
`BootOutcome` says what boots start in the end, once the chosen slot has been verified, and `BootRuns` shows runs from the
factory state.

**Codecs.** CBOR heads, the recursive reader with its grammar, map look-up and the builder (`CborHead`, `CborReader`,
`CborMap`, `CborBuilder`), and look-up on every buffer (`CborLookup`); the event envelope on top of them
(`EventEnvelope`); the guest SDK's own reader (`GuestEncoding`) with its check of UTF-8 (`Utf8`). The scan of a Wasm
module for the lifecycle exports against the printer of modules (`WasmExports`) and on every byte string (`WasmScan`),
and the host tool's scan (`ToolExports`). The bundle container with its 32-bit offsets (`BundleContainer`). Streaming
SHA-256 and HMAC against definitions over whole messages (`Sha256Spec`, `Sha256`). Constants and definitions that both
sides of a round trip share are checked against published values (`KnownAnswers`, `CodecExamples`).

**Guarded effects.** The HAL's level table and the safe defaults of a profile (`GpioTable`), the safety guard and the
dispatcher (`Safety`, `GuardRuns`), the capability check and the rate limiter (`RateLimit`), also over changes of the
capability set (`RateHistory`). `Authority` puts the three together: what a set allows, and that an output changes only
under it.

## How it is modelled

- Code that updates a struct or a buffer is a class or a method with loops, proved against a function on values
  (`ensures (status, Value()) == F(old(Value()), ...)`); the theorems are lemmas about those functions.
- Machine words are integers with an explicit range (`u16`, `u32`, `u64`, `byte`). Counters wrap, 32-bit and 64-bit sums
  wrap, and signed status codes are kept as their 32-bit two's complement words. Bit operations are done on bit-vectors.
- The metadata struct is its memory image: 34 little-endian words, with the tail padding that its 64-bit counters bring;
  the journal record is 40 words. Both checksums are taken over those bytes.
- Flash: an erase sets bytes to 0xff from the front, a write puts bytes from the front, and either may stop anywhere.
- Null pointers are not modelled. Read-only input buffers are sequences, buffers that are written are arrays.
- A boot's environment (`BootEnv`) says what the outside decides: how far each write gets, whether power is lost, the
  status of reading and verifying the bundle, the payload hash of that bundle, whether the payload is found and the
  authoriser installed, and how the guest ends. The comparison of hashes is part of the model.
- Initialising the runtime, loading the module and the guest's two calls are one guest run with one status.
- Where the code and a natural reading of its documentation part, the lemmas follow the code, give the exact condition,
  and show an input or a run:
  - `SlotInvariant.InstallSound`: which slots may be overwritten without losing the slot invariant; `BootRuns.GoodSlotLost`
    overwrites the confirmed slot, and the next boot has nothing to run.
  - `BootSafety.WrapRepeatsTrial`: when the 32-bit generation counter has run out, the write before the guest's first run
    is lost; in `BootRuns.TwoTrialsAtWrap` the same candidate is started twice.
  - `BootSafety.WithoutFailRunning`: an abandoned candidate is started again under a policy that does not fail it;
    `BootRuns.TwoTrialsWithoutFail` is a run.
  - `BootOutcome.SlotReadmitted`, `ChosenSlotStarts` and `FallbackStarts`: the floor counts failed slots, so the slot that
    a boot chose is refused when another filled slot has a larger counter; in `BootRuns.FallbackRefused` the last good
    slot is refused at every boot after a rollback.
  - `HostTool.StepAgrees` and `ToolCounters.StepBooks`: the calls on which tool and firmware part.
  - `CborReader.AcceptsStandard`: the reader also accepts two-byte simple values below 32, as in `ShortSimpleAccepted`.
  - `BundleContainer.BareHeader`: a header alone parses, as in `SmallestBareHeader`.
  - `GpioTable.DefaultsSafe`, `Safety.InitSafeIff` and `SafeRunsIff`: a valid profile may have lines that contradict each
    other, or more ids than the table has slots, as in `UnsafeAfterInit` and `TooManyLines`.
  - `RateLimit.RateInASecond`: the interval is rounded down, so "at most hz calls in a second" holds exactly for rates that
    divide 1000 or exceed it; in `FourInASecond` four calls pass at three a second.

## Model

| member | source | states |
|---|---|---|
| Words.CollectExpand | firmware/components/wdc_ota/wdc_ota.c:51-60 | storing words in little-endian memory and loading them again gives the words |
| Crc32.Turn | firmware/components/wdc_bundle/wdc_bundle.c:1092-1095 | the inner loop of eight conditional xors is eight shifts of the register |
| Crc32.Update | firmware/components/wdc_bundle/wdc_bundle.c:1087-1098 | the CRC loop over a buffer is the fold of one-byte steps between two complements |
| Crc32.BurstDetected | firmware/components/wdc_ota/wdc_ota.c:38-49 | two buffers that differ only within four consecutive bytes never have the same checksum |
| KnownAnswers.CrcCheck | firmware/components/wdc_bundle/wdc_bundle.c:1087-1098 | the checksum of the digits from one to nine is the published check value cbf43926 |
| BundleMetadata.OfImage | firmware/components/wdc_bundle/wdc_bundle.c:1115-1123 | the memory image of the block determines every field |
| BundleMetadata.SealIsValid | firmware/components/wdc_bundle/wdc_bundle.c:1125-1144 | a sealed block with the right magic and version validates |
| BundleMetadata.SealIdempotent | firmware/components/wdc_bundle/wdc_bundle.c:1125-1144 | sealing twice is sealing once, and a valid block is already sealed |
| BundleMetadata.ValidIsSealed | firmware/components/wdc_bundle/wdc_bundle.c:1135-1144 | a block validates exactly when it has the right magic and version and sealing it changes nothing |
| BundleMetadata.MetadataBlock.DoSeal | firmware/components/wdc_bundle/wdc_bundle.c:1125-1133 | only the checksum field changes, to the checksum of the block with that field zeroed |
| BundleMetadata.MetadataBlock.DoMarkVerified | firmware/components/wdc_bundle/wdc_bundle.c:1146-1170 | slot verification field by field, with its refusals in order |
| Activation.DoRollback | firmware/components/wdc_activation/wdc_activation.c:73-118 | the rollback of the struct and the decision it fills in |
| Activation.DoPreparePending | firmware/components/wdc_activation/wdc_activation.c:158-189 | preparing a verified slot, with every refusal leaving the block alone |
| Activation.DoOnBoot | firmware/components/wdc_activation/wdc_activation.c:191-287 | the boot decision in each state of the active slot |
| Activation.DoConfirm | firmware/components/wdc_activation/wdc_activation.c:289-321 | confirmation of the active candidate |
| Activation.DoRecordFault | firmware/components/wdc_activation/wdc_activation.c:323-343 | a fault rolls back a pending or running candidate, and nothing else |
| SlotInvariant.RollbackFields | firmware/components/wdc_activation/wdc_activation.c:73-118 | after a rollback the failed slot is FAILED, active is the last good slot or none, the generation is one higher |
| SlotInvariant.InstallSound | firmware/components/wdc_bundle/wdc_bundle.c:1146-1170 | installing keeps the slot invariant exactly when the slot is neither active nor last good |
| SlotInvariant.BootSound | firmware/components/wdc_activation/wdc_activation.c:191-287 | every boot keeps the invariant, for any policy; the slot it runs is recorded as confirmed, or as a candidate on probation; with a last good slot it always has one to run |
| SlotInvariant.ReachableSound | firmware/components/wdc_activation/wdc_activation.c:68-343 | in every state reachable by disciplined installs, prepares, boots, confirms and faults: active is none or runnable, last good is none or confirmed, a confirmed active slot is last good, no active slot means no last good slot |
| SlotInvariant.NeverWithoutFallback | firmware/components/wdc_activation/wdc_activation.c:191-287 | once a slot has been confirmed, no later boot reports no-bundle or no-fallback |
| SlotInvariant.BootReportsChange | firmware/components/wdc_activation/wdc_activation.c:191-287 | the changed flag is set exactly when the block differs, and the generation is then exactly one higher |
| SlotInvariant.BootsConverge | firmware/components/wdc_activation/wdc_activation.c:191-287 | from any valid block, at most two of any number of boots with any policies change it |
| Decisions.DecisionTells | firmware/components/wdc_activation/wdc_activation.c:191-287 | on every valid block, sound or not, and under every policy: which slot a boot selects, that it is active afterwards, and last good if confirmed; a slot that cannot be run is failed, counted and given its reason, an attempt is counted, and nothing else changes; every field of the decision |
| Decisions.FailedTrialReturns | firmware/components/wdc_activation/wdc_activation.c:158-343 | from every valid block: preparing a candidate is undone by a fault, before or after its first boot, and by a second boot; the device is back on the slot where it stood, and only the candidate is failed |
| Journal.MadeRecord | firmware/components/wdc_ota/wdc_ota.c:62-96 | a record made from a block is valid exactly when the block has the right magic and version, and holds the sealed block |
| Journal.ValidExactly | firmware/components/wdc_ota/wdc_ota.c:79-96 | on every record image: it is accepted exactly if it frames a valid block, with the generation of that block, both checksums and all fixed words |
| Journal.TornRejected | firmware/components/wdc_ota/wdc_ota.c:79-96 | a record whose first or last byte is still erased is rejected |
| Journal.Stopped | firmware/components/wdc_ota/wdc_ota.c:270-275 | an update that stopped after any number of bytes left the sector unchanged or invalid |
| Journal.Atomic | firmware/components/wdc_ota/wdc_ota.c:241-277 | for all flash contents, blocks and interruptions: the next read returns the sealed new block or exactly the old one, and which of the two is decided by generation and completion alone |
| Journal.SelectedUntouched | firmware/components/wdc_ota/wdc_ota.c:266-275 | a write never touches the sector whose record is selected |
| Journal.WrappedWriteIsLost | firmware/components/wdc_ota/wdc_ota.c:129-135 | at the largest generation, a write whose generation wrapped to zero is not seen by the next read |
| Journal.WindowRejected | firmware/components/wdc_ota/wdc_ota.c:79-96 | a valid record altered anywhere within four consecutive bytes is rejected, also across the end of what its checksum covers |
| Journal.TrailerDamageRejected | firmware/components/wdc_ota/wdc_ota.c:79-96 | a valid record altered in any way in its checksum and commit marker is rejected |
| Journal.MetadataPartition.EraseSector | firmware/components/wdc_ota/wdc_ota.c:270-272 | an erase that runs for some bytes leaves those at 0xff and everything else as it was |
| Journal.MetadataPartition.WriteSector | firmware/components/wdc_ota/wdc_ota.c:273-275 | a write that runs for some bytes leaves that prefix of the record in the sector |
| Journal.MetadataPartition.ReadMetadata | firmware/components/wdc_ota/wdc_ota.c:223-239 | reading the partition selects the valid record with the larger generation, or the initial block |
| Journal.MetadataPartition.WriteMetadata | firmware/components/wdc_ota/wdc_ota.c:241-277 | the write, byte by byte, with its status, for every way it can be cut short |
| BootSafety.FlashRefinesCell | firmware/components/wdc_ota/wdc_ota.c:241-277 | the journal with torn writes behaves as a cell that a write replaces whole or not at all, over every list of growing writes |
| BootSafety.SessionRefinesCell | firmware/components/wdc_app/wdc_app.c:154-297 | for every flash, policy, list of edits and interruption, a session acts on flash as on that cell while the generation counter has room |
| BootSafety.RewriteIsFree | firmware/components/wdc_ota/wdc_ota.c:262-264 | writing back the block just read reports success and touches nothing |
| BootSafety.SessionSteps | firmware/components/wdc_ota/wdc_ota.c:241-277 | for every flash and every session, interrupted anywhere, the next read returns the block from before or one that follows from it by the steps of the session; nothing about the counter is assumed |
| BootSafety.AtMostOneTrial | firmware/components/wdc_app/wdc_app.c:174-284 | over every run from the factory state with installs into any slot and power cuts anywhere, a candidate's guest code starts in at most one boot after it was prepared; boots fail a running candidate, and none starts a fresh one at the last generation |
| BootRuns.TrialHappens | firmware/components/wdc_app/wdc_app.c:174-284 | the bound is reached: from the factory state there is such a run in which the candidate is started once |
| BootRuns.TwoTrialsWithoutFail | firmware/components/wdc_activation/wdc_activation.c:264-277 | the first condition is needed: from the factory state, boots that do not fail a running candidate start it twice |
| BootRuns.TwoTrialsAtWrap | firmware/components/wdc_ota/wdc_ota.c:129-135 | the second condition is needed: from the factory state, a run that reaches the last generation starts the same candidate twice, whatever the policy |
| BootOutcome.ConfirmedAfterTrial | firmware/components/wdc_activation/wdc_activation.c:191-287 | once a candidate was started on probation, every later boot, after any number of boots with power cuts anywhere, starts a slot that flash records as confirmed, or nothing |
| BootEnds.CandidateBootEnds | firmware/components/wdc_app/wdc_app.c:174-284 | for every flash with room in the counter, every policy and every interruption: what the boot of a candidate on probation leaves on flash; confirmed when its guest returned OK, failed with the status of its load or its guest, or untouched, write by write |
| BootEnds.FaultedCandidateFails | firmware/components/wdc_app/wdc_app.c:259-268 | with room in the counter and its outcome written, a candidate on probation whose guest returned a fault is failed on flash for that reason, and active is the last good slot or none |
| BootEnds.ConfirmedBootEnds | firmware/components/wdc_app/wdc_app.c:174-297 | with room in the counter, the boot of a confirmed slot stores the decision and nothing else, whatever its guest returns |
| BootEnds.ConfirmedOnlyHealthy | firmware/components/wdc_app/wdc_app.c:259-284 | over every session, on every flash: a slot that is confirmed afterwards and was not before is one whose guest was started on probation in that boot and returned OK |
| BootReports.BootTells | firmware/components/wdc_app/wdc_app.c:174-297 | on every valid block: a boot reports OK exactly when its guest was started and returned OK and every write was finished; the failure of a guest is reported as it is |
| BootReports.RefusalTold | firmware/components/wdc_app/wdc_app.c:191-284 | the status of every boot that does not get to its guest, or cannot store its outcome |
| BootReports.RamIsStored | firmware/components/wdc_app/wdc_app.c:174-297 | with room in the counter and its writes finished, a boot leaves in RAM exactly the block that the next read returns |
| BootSafety.DurableBeforeGuest | firmware/components/wdc_app/wdc_app.c:174-259 | for every flash, policy and interruption, at the moment a guest starts flash records its slot as running on probation, or as confirmed; the only exception is a fresh candidate at the last generation |
| BootSafety.FloorNeverFalls | firmware/components/wdc_security/wdc_security.c:63-100 | over every run with installs checked against the current floor, from any flash, into any slot, under any policies and with power cuts anywhere, the security floor on flash never falls |
| BootSafety.GoodSlotKept | firmware/components/wdc_activation/wdc_activation.c:191-287 | over every run that installs only outside the active and last good slots, under any policies and with power cuts anywhere, a last good slot stays confirmed on flash and the next boot selects a slot |
| BootOutcome.GoodSlotRuns | firmware/components/wdc_app/wdc_app.c:174-259 | after every such run, the slot that the next boot selects is started exactly when no other filled slot has a larger counter |
| BootSafety.FlashStaysSound | firmware/components/wdc_app/wdc_app.c:154-297 | over every such run from the factory state the block on flash keeps the slot invariant |
| BootSafety.WithoutFailRunning | firmware/components/wdc_activation/wdc_activation.c:264-277 | on every valid block, an abandoned candidate is started again exactly when the policy does not fail running candidates |
| BootSafety.WrapRepeatsTrial | firmware/components/wdc_ota/wdc_ota.c:129-135 | a candidate whose first run loses power is offered again exactly when the generation counter has reached its maximum |
| BootOutcome.SlotReadmitted | firmware/components/wdc_security/wdc_security.c:63-76 | a slot's own bundle still passes the counter check exactly when no other filled slot, even a failed one, is ahead |
| BootOutcome.ChosenSlotStarts | firmware/components/wdc_app/wdc_app.c:174-259 | on every valid block and under every policy, a boot that verifies against the floor of the block it read starts the slot it chose exactly when no other filled slot is ahead, and otherwise starts nothing |
| BootOutcome.FallbackStarts | firmware/components/wdc_app/wdc_app.c:174-259 | after a candidate was abandoned, the last good slot is started exactly when the candidate's counter is not larger |
| BootOutcome.RefusedForever | firmware/components/wdc_security/wdc_security.c:63-100 | a bundle that fell below the floor is started in no boot that verifies it, whatever sessions follow |
| BootOutcome.OtherPayloadRefused | firmware/components/wdc_app/wdc_app.c:229-235 | on every valid block: a payload with another hash than the chosen slot has on record is started in no boot |
| Installed.SlotsHoldInstalled | firmware/components/wdc_bundle/wdc_bundle.c:1146-1170 | over every run from the factory state, with power cuts anywhere: a slot on flash has version, counter and payload hash of the last accepted bundle that was installed into it and whose write landed, and is empty if there is none |
| Installed.OnlyInstalledStart | firmware/components/wdc_app/wdc_app.c:229-235 | after every such run, only a payload with the hash of the bundle last installed into its slot is started |
| Installed.InstalledStarts | firmware/components/wdc_app/wdc_app.c:229-259 | and the bundle last installed into the chosen slot passes the comparison and is started |
| BootRuns.FallbackRefused | firmware/main/shell_main.c:470-493 | from the factory state, a run that installs aside after which the last good slot is selected and refused at every boot |
| BootRuns.GoodSlotLost | firmware/components/wdc_bundle/wdc_bundle.c:1146-1170 | from the factory state, installing over the confirmed slot loses the slot invariant, and the next boot has nothing to run |
| BootApp.App.Store | firmware/components/wdc_app/wdc_app.c:52-67 | the block is written to the partition, with the status that the interruption leaves |
| BootApp.App.FailRun | firmware/components/wdc_app/wdc_app.c:121-152 | a failed run is recorded for a candidate on probation only |
| BootApp.App.RunChosen | firmware/components/wdc_app/wdc_app.c:198-268 | how far running the chosen slot gets, with the comparison of payload hashes, and what is left in RAM and on flash |
| BootApp.App.Decide | firmware/components/wdc_app/wdc_app.c:174-198 | the decision is stored when it changed the block, and a failed write ends the boot |
| BootApp.App.BootActiveSlot | firmware/components/wdc_app/wdc_app.c:154-297 | writes and guest starts happen in exactly the order of the protocol, on the real partition bytes |
| HostTool.MetaFile.Install | tools/wdc_bundle_tool.py:412-435 | the install command for a bundle that passed verification |
| HostTool.MetaFile.Activate | tools/wdc_bundle_tool.py:438-460 | the activate command on the loaded dictionary |
| HostTool.MetaFile.Boot | tools/wdc_bundle_tool.py:463-541 | the boot command and its report |
| HostTool.MetaFile.Drop | tools/wdc_bundle_tool.py:485-500 | giving up a candidate: failed state, counters, fallback search |
| HostTool.MetaFile.Confirm | tools/wdc_bundle_tool.py:544-565 | the confirm command, and what leaves the dictionary alone |
| HostTool.MetaFile.Fail | tools/wdc_bundle_tool.py:568-588 | the fail command: counters, failed state and fallback search |
| HostTool.StepAgrees | tools/wdc_bundle_tool.py:348-588 | for every call, tool and firmware keep equal active slot, last good slot and slots exactly on the calls described by `Shared` |
| HostTool.RunAgrees | tools/wdc_bundle_tool.py:412-588 | over every run of such calls the two machines hold the same slots |
| HostTool.BootAgrees | tools/wdc_bundle_tool.py:463-541 | a shared boot selects the same slot, with the same probation and the corresponding verdict |
| HostTool.SameSelection | tools/wdc_bundle_tool.py:463-541 | from the factory state, after any such run, both boot the same slot for the same reason |
| HostTool.FallbackChosen | tools/wdc_bundle_tool.py:348-359 | on every dictionary: the fallback is a confirmed slot whenever there is one, the last good slot before the others |
| ToolTrials.FailedTrialReturns | tools/wdc_bundle_tool.py:438-588 | on every dictionary: activating a verified slot is undone by the fail command, before or after its first boot, and by a second boot |
| ToolTrials.NoAttempts | tools/wdc_bundle_tool.py:483-500 | with no attempts allowed, a candidate is given up at its first boot |
| ToolTrials.FailCommand | tools/wdc_bundle_tool.py:568-588 | on every dictionary: failing a slot leaves the other slot active and last good if that is confirmed, and nothing active otherwise |
| ToolTrials.ConfirmedBoot | tools/wdc_bundle_tool.py:476-482 | booting a confirmed slot makes it last good, and is recorded only if that is new |
| ToolTrials.IdleBoot | tools/wdc_bundle_tool.py:463-541 | a boot with no slot to run chooses a confirmed one, if there is one, and changes nothing else |
| ToolCounters.StepBooks | tools/wdc_bundle_tool.py:412-588 | with installs aside, tool and firmware also keep equal generation, attempts, faults and reason exactly on the calls described by `SharedBooks`: those that the tool does not carry out on a slot where the firmware refuses |
| ToolCounters.BooksAgree | tools/wdc_bundle_tool.py:412-588 | from the factory state, after every run of such calls, slots and counters are equal |
| BigEndians.ValueOfBigEndian | firmware/components/wdc_abi/wdc_cbor.c:84-93 | the bytes put by the shift loop spell the number |
| CborHead.ShortestForm | firmware/components/wdc_abi/wdc_cbor.c:60-94 | the head written is the only shortest one among the five forms that can hold the argument (section 4.2.1 of RFC 8949) |
| CborHead.HeadReadBack | firmware/components/wdc_abi/wdc_cbor.c:167-220 | a head in any of the five forms is read back |
| CborHead.ReadIsHead | firmware/components/wdc_abi/wdc_cbor.c:167-220 | whatever is read as a head is the head of that argument in one of the forms |
| CborHead.ReadTypeValue | firmware/components/wdc_abi/wdc_cbor.c:167-220 | the reader of heads, with its bounds checks and its eight-byte loop |
| CborReader.ReadItem | firmware/components/wdc_abi/wdc_cbor.c:233-284 | the recursive reader terminates, stays in bounds, and ends after the item it read |
| CborReader.ReadsPrinted | firmware/components/wdc_abi/wdc_cbor.c:233-284 | every tree of the reader's grammar, printed anywhere in a buffer, is read as itself |
| CborReader.ParsesItem | firmware/components/wdc_abi/wdc_cbor.c:233-284 | whatever the reader accepts is a printed tree, and the reported item is that tree's |
| CborReader.ParsesPrinted | firmware/components/wdc_abi/wdc_cbor.c:233-284 | the bytes determine the tree: a printed tree is parsed as itself, and as no other |
| CborReader.AcceptsGrammar | firmware/components/wdc_abi/wdc_cbor.c:233-284 | the reader accepts exactly the untagged definite-length items with at most 32 entries per container, every simple value being admitted in two bytes |
| CborReader.AcceptsStandard | firmware/components/wdc_abi/wdc_cbor.c:233-284 | of those, the items that are well-formed by section 3 of RFC 8949 are exactly those without a two-byte simple value below 32 at any depth |
| CborReader.ShortSimpleAccepted | firmware/components/wdc_abi/wdc_cbor.c:233-284 | the bytes f8 14 are accepted and are no item of the standard |
| CodecExamples.Trees | firmware/components/wdc_abi/wdc_cbor.c:233-284 | arrays and null as in Appendix A of RFC 8949 |
| CborReader.ReadsOnlyItsBytes | firmware/components/wdc_abi/wdc_cbor.c:233-284 | the result depends on the consumed bytes only |
| CborReader.PrefixFree | firmware/components/wdc_abi/wdc_cbor.c:224-231 | no item is a proper beginning of another |
| CborMap.FindItem | firmware/components/wdc_abi/wdc_cbor.c:295-322 | the search for a key, pair by pair, with its error statuses |
| CborMap.FindsWritten | firmware/components/wdc_abi/wdc_cbor.c:295-396 | on the encoding of any list of entries, a find returns the first value under the key, or that the key is not available |
| CborMap.FindersOnWritten | firmware/components/wdc_abi/wdc_cbor.c:324-396 | on the encoding of any entries, each of the six typed finders returns the first value under the key if it reads its kind, and refuses every other kind |
| CborMap.FindsEach | firmware/components/wdc_abi/wdc_cbor.c:324-396 | with distinct keys, each of the six finders returns the value of an entry exactly if it reads its kind, and refuses it otherwise |
| CborMap.WrittenIsMap | firmware/components/wdc_abi/wdc_cbor.c:286-293 | the encoding of any list of entries passes the map check |
| CborLookup.MapCheckExact | firmware/components/wdc_abi/wdc_cbor.c:286-293 | on every buffer: the map check passes exactly on the empty buffer and on printed maps, with no byte before or after |
| CborLookup.FindsExactly | firmware/components/wdc_abi/wdc_cbor.c:295-322 | on every buffer that passes the map check: a find returns the value of the first entry whose key is the number, whatever the other keys are, or that the key is not available |
| CborLookup.FindersExactly | firmware/components/wdc_abi/wdc_cbor.c:324-396 | on every such buffer: each finder reads that value if it is of its kind, in any form of its head, and refuses everything else, null and containers included |
| CborBuilder.Builder.PutTypeValue | firmware/components/wdc_abi/wdc_cbor.c:60-94 | the shortest head is appended, or cut off where the buffer ends |
| CborBuilder.Builder.PutRaw | firmware/components/wdc_abi/wdc_cbor.c:45-58 | a payload is appended whole or not at all |
| CborBuilder.Builder.PutKeyUint | firmware/components/wdc_abi/wdc_cbor.c:106-118 | an entry with an unsigned value, and the exact contents when it does not fit |
| CborBuilder.Builder.PutKeyI32 | firmware/components/wdc_abi/wdc_cbor.c:120-128 | an entry with a signed value |
| CborBuilder.Builder.PutKeyBool | firmware/components/wdc_abi/wdc_cbor.c:130-135 | an entry with a boolean |
| CborBuilder.Builder.PutKeyBytes | firmware/components/wdc_abi/wdc_cbor.c:137-144 | an entry with bytes |
| CborBuilder.Builder.PutKeyText | firmware/components/wdc_abi/wdc_cbor.c:146-155 | an entry with text |
| CborBuilder.WriteMap | firmware/components/wdc_abi/wdc_cbor.c:96-155 | a builder driven through any list of at most 32 entries succeeds exactly when their encoding fits the buffer; the buffer then holds that encoding, passes the map check, and every finder gives back what was put |
| CodecExamples.Numbers | firmware/components/wdc_abi/wdc_cbor.c:60-128 | the integers of Appendix A of RFC 8949 are encoded as printed there |
| CodecExamples.Strings | firmware/components/wdc_abi/wdc_cbor.c:130-155 | so are the booleans, byte strings and texts |
| CodecExamples.Maps | firmware/components/wdc_abi/wdc_cbor.c:96-111 | and the maps |
| CodecExamples.SmallEnvelope | firmware/components/wdc_events/wdc_event_encode.c:6-26 | the bytes of a small event envelope |
| EventEnvelope.Encode | firmware/components/wdc_events/wdc_event_encode.c:6-26 | encoding succeeds exactly when the payload is at most 128 bytes and the buffer is large enough, and then the buffer holds the envelope |
| EventEnvelope.DecodeEncode | firmware/components/wdc_events/wdc_event_encode.c:33-61 | decoding an envelope gives the event back, with the ABI major number set to 1 |
| EventEnvelope.DecodesExactly | firmware/components/wdc_events/wdc_event_encode.c:33-61 | decoding any list of entries gives an event exactly when the entries say it and its payload is at most 128 bytes |
| EventEnvelope.RefusesExactly | firmware/components/wdc_events/wdc_event_encode.c:33-61 | everything else is refused: for its version, for a payload that is only too long, or as badly encoded |
| EventEnvelope.EnvelopeFits | firmware/components/wdc_runtime/wdc_runtime.c:556-569 | no envelope is longer than 166 bytes, so the dispatcher's buffer always suffices |
| GuestEncoding.ReadItem | guest-sdk/rust/wdc_guest/src/encoding.rs:186-249 | the guest's recursive reader, on its own reader of heads |
| GuestEncoding.FindItem | guest-sdk/rust/wdc_guest/src/encoding.rs:251-269 | the guest's search for a key |
| GuestEncoding.ReadHead | guest-sdk/rust/wdc_guest/src/encoding.rs:133-178 | the guest's own reader of heads, with its cases and its saturating bounds checks |
| GuestEncoding.HeadsAgree | guest-sdk/rust/wdc_guest/src/encoding.rs:133-178 | on every buffer and offset it reads the same head as the host's, or fails with the same status |
| GuestEncoding.ItemsAgree | guest-sdk/rust/wdc_guest/src/encoding.rs:186-249 | host and guest read the same item or both fail; only the status of an oversized string can differ |
| GuestEncoding.FindsAgree | guest-sdk/rust/wdc_guest/src/encoding.rs:251-269 | on every buffer the host finds a key exactly when the guest does, and then the same item |
| GuestEncoding.CheckedMapsAgree | guest-sdk/rust/wdc_guest/src/encoding.rs:251-269 | on a buffer that passes the host's map check the two answers are equal, absent keys included |
| GuestEncoding.TextAgrees | guest-sdk/rust/wdc_guest/src/encoding.rs:314-321 | the guest's text finder succeeds exactly when the host's does and the text is UTF-8 |
| Utf8.Utf8Exactly | guest-sdk/rust/wdc_guest/src/encoding.rs:314-321 | text passes exactly if it is the encoding of a sequence of scalar values (section 3 of RFC 3629) |
| WasmExports.ReadLeb | firmware/components/wdc_bundle/wdc_bundle.c:746-766 | the LEB128 loop keeps the low 32 bits of at most five septets |
| WasmExports.LebRoundTrip | tools/gen_r2_wasm.py:17-26 | reading undoes printing for every 32-bit number |
| WasmExports.SectionHasFunction | firmware/components/wdc_bundle/wdc_bundle.c:777-809 | the search of an export section for one function name |
| WasmExports.PayloadHasRequiredExports | firmware/components/wdc_bundle/wdc_bundle.c:811-860 | the walk over the sections, with order check and four marks |
| WasmExports.ExportSectionRead | firmware/components/wdc_bundle/wdc_bundle.c:777-809 | in a printed export section a name is found exactly when it is exported as a function |
| WasmExports.AcceptsPrinted | firmware/components/wdc_bundle/wdc_bundle.c:811-860 | a printed module is accepted exactly when its non-custom sections are in order and all four lifecycle names are function exports (sections 5.5.2 and 5.5.10 of the WebAssembly Core Specification 1.0) |
| WasmScan.AcceptsExactly | firmware/components/wdc_bundle/wdc_bundle.c:811-860 | on every byte string, numbers in any of their forms: the scan accepts exactly the header followed by sections that say their lengths and grow in number, among them export sections in which all four names are found |
| WasmScan.FindsExactly | firmware/components/wdc_bundle/wdc_bundle.c:777-809 | on every byte string: a function is found in a section exactly when, within its count, exports that end in that function stand at its start |
| CodecExamples.SmallModule | tools/gen_r2_wasm.py:17-40 | the bytes of a module that exports one function (section 5.5 of the WebAssembly Core Specification 1.0) |
| ToolExports.ToolIsStricter | tools/wdc_bundle_tool.py:33-90 | whatever the host tool's scan passes, the firmware's scan passes, on every byte string |
| ToolExports.PrintedAgree | tools/wdc_bundle_tool.py:48-90 | on every printed module with UTF-8 export names the two scans agree |
| BundleContainer.ParseHeader | firmware/components/wdc_bundle/wdc_bundle.c:338-389 | the header parser with 32-bit sums gives what unbounded sums give: no wrap goes unnoticed |
| BundleContainer.BareHeader | firmware/components/wdc_bundle/wdc_bundle.c:385-387 | a bare 120-byte header is parsed although its total is larger, and the verifier's length check refuses it |
| BundleContainer.HeaderOfPacked | firmware/components/wdc_bundle/wdc_bundle.c:385-387 | the header of a packed bundle parses on its own exactly when the whole bundle is accepted, and with the same result |
| BundleContainer.SmallestBareHeader | firmware/components/wdc_bundle/wdc_bundle.c:385-387 | 120 bytes that are parsed although they announce 122 |
| BundleContainer.Tiled | firmware/components/wdc_bundle/wdc_bundle.c:918-933 | an accepted bundle is tiled exactly by header, manifest, payload and signature |
| BundleContainer.ParsePacked | tools/wdc_bundle_tool.py:123-138 | a packed bundle is accepted exactly when its parts are lawful, and yields those parts |
| BundleContainer.CutRefused | firmware/components/wdc_bundle/wdc_bundle.c:338-389 | an accepted bundle that was cut off is refused wherever it was cut, except right behind its header |
| BundleContainer.ExtendedParses | firmware/components/wdc_bundle/wdc_bundle.c:385-387 | with bytes behind it, it is parsed as before, and refused by the length check of the verifier |
| BundleContainer.ForeignRefused | firmware/components/wdc_bundle/wdc_bundle.c:338-389 | what has another magic, version or header length is refused for that |
| BundleContainer.ToolAccepts | tools/wdc_bundle_tool.py:141-172 | the tool accepts exactly the firmware's bundles and those with empty parts or an odd signature length |
| CodecExamples.SmallHeader | tools/wdc_bundle_tool.py:123-138 | the bytes of the header of a small bundle |
| Sha256Spec.PaddingFills | firmware/components/wdc_bundle/wdc_bundle.c:230-258 | the padding fills whole blocks with fewer than 64 zeros (section 5.1.1 of FIPS 180-4) |
| Sha256Spec.PaddingTellsLength | firmware/components/wdc_bundle/wdc_bundle.c:249-257 | the padding ends in the length in bits, for every message the standard admits |
| Sha256.Transform | firmware/components/wdc_bundle/wdc_bundle.c:153-199 | schedule and rounds are the compression function (section 6.2.2 of FIPS 180-4) |
| Sha256.Context.Update | firmware/components/wdc_bundle/wdc_bundle.c:214-228 | after a message in any pieces the context holds the fold over its whole blocks and the rest |
| Sha256.Context.Final | firmware/components/wdc_bundle/wdc_bundle.c:230-269 | the result is the hash of the padded message, with one last block or two |
| Sha256.FinalShort | firmware/components/wdc_bundle/wdc_bundle.c:234-238 | with room for marker and length, the padded message is one more block |
| Sha256.FinalLong | firmware/components/wdc_bundle/wdc_bundle.c:239-246 | without room, the padded message is two more blocks |
| Sha256.Sum | firmware/components/wdc_bundle/wdc_bundle.c:271-277 | the one-shot hash |
| Sha256.HmacSha256 | firmware/components/wdc_bundle/wdc_bundle.c:279-319 | the HMAC of three parts is the HMAC of their concatenation, for short and long keys (section 2 of RFC 2104) |
| KnownAnswers.RoundConstants | firmware/components/wdc_bundle/wdc_bundle.c:137-146 | each of the 64 round constants is the first 32 bits of the fraction of the cube root of its prime (section 4.2.2 of FIPS 180-4) |
| KnownAnswers.InitialWords | firmware/components/wdc_bundle/wdc_bundle.c:201-212 | the initial words are those of the square roots of the first eight primes (section 5.3.3 of FIPS 180-4) |
| KnownAnswers.FirstRound | firmware/components/wdc_bundle/wdc_bundle.c:153-199 | the first round of the published example "abc" |
| KnownAnswers.LastRound | firmware/components/wdc_bundle/wdc_bundle.c:153-199 | its last round |
| KnownAnswers.SomeWords | firmware/components/wdc_bundle/wdc_bundle.c:153-199 | two words of its message schedule |
| KnownAnswers.FinalAddition | firmware/components/wdc_bundle/wdc_bundle.c:153-199 | its final addition, which gives the published digest |
| KnownAnswers.FirstWord | firmware/components/wdc_bundle/wdc_bundle.c:153-199 | its first word, from the bytes of the message |
| KnownAnswers.FirstBytes | firmware/components/wdc_bundle/wdc_bundle.c:230-269 | the first four bytes of its digest |
| KnownAnswers.SixtyFourRounds | firmware/components/wdc_bundle/wdc_bundle.c:153-199 | the compression is sixty-four rounds and an addition |
| KnownAnswers.PaddedBlock | firmware/components/wdc_bundle/wdc_bundle.c:230-258 | the padding of the example, byte by byte |
| KnownAnswers.HmacPads | firmware/components/wdc_bundle/wdc_bundle.c:279-319 | the inner and the outer hash are taken under bytes of 0x36 and 0x5c (section 2 of RFC 2104) |
| KnownAnswers.HmacLongKey | firmware/components/wdc_bundle/wdc_bundle.c:279-319 | a key of more than 64 bytes stands for its hash |
| GpioTable.SetWorks | firmware/components/wdc_hal/wdc_gpio_espidf.c:38-66 | a write finds a slot exactly while the ids in use and its own are at most eight; it is then read back, and no other level changes |
| GpioTable.ReadBack | firmware/components/wdc_hal/wdc_gpio_espidf.c:155-207 | a level that was set through the profile is read back through it; an id without a line has none |
| GpioTable.DefaultsWork | firmware/components/wdc_hal/wdc_gpio_espidf.c:126-148 | forcing the defaults of a valid profile stops at the first line for which no slot is left and records the lines before it; it fails exactly when the ids in use and those the lines write are more than eight |
| GpioTable.DefaultsSafe | firmware/components/wdc_hal/wdc_gpio_espidf.c:126-148 | on a table that the guard can have, outputs are safe afterwards when the recorded lines leave every output at its safe level; on an empty table exactly then |
| GpioTable.DistinctFits | firmware/components/wdc_profile/wdc_profile_static.c:128-145 | at most eight lines with different ids are always such a profile, with slots for all of them |
| GpioTable.ValidateBasic | firmware/components/wdc_profile/wdc_profile_static.c:108-165 | the validation with the loop over the GPIO lines and its status codes; the other tables are verdicts from outside |
| GpioTable.FirstBadLine | firmware/components/wdc_profile/wdc_profile_static.c:128-145 | the first bad line decides the status |
| GpioTable.ValidProfileExactly | firmware/components/wdc_profile/wdc_profile_static.c:108-165 | a profile is valid exactly when it has lines, every one with an id, a name, a resource, a pin from 0 to 48 and two levels that are bits, and the tables around them pass |
| GpioTable.TwiceContradicts | firmware/components/wdc_profile/wdc_profile_static.c:128-145 | a valid profile whose lines contradict each other |
| GpioTable.NineOverflow | firmware/components/wdc_hal/wdc_gpio_espidf.c:38-66 | valid profiles with nine ids: there is no slot for the last line, and outputs are safe all the same unless that is the output |
| GpioTable.Table.SetState | firmware/components/wdc_hal/wdc_gpio_espidf.c:48-66 | the slot search and update |
| GpioTable.Table.ApplySafeDefaults | firmware/components/wdc_hal/wdc_gpio_espidf.c:126-148 | the loop over the lines, stopping at the first failure |
| GpioTable.Table.OutputsMatch | firmware/components/wdc_hal/wdc_gpio_espidf.c:209-228 | the check loop answers whether every output with a safe level has an id and holds that level |
| Safety.StopIsSafe | firmware/components/wdc_safety/wdc_safety.c:94-247 | over every run of initialisation, authoriser changes, marking, stopping and guest calls: after initialisation, outputs are safe in every state but the running one, and stopping makes them safe; it succeeds exactly when the defaults need at most eight slots |
| Safety.RunGuarded | firmware/components/wdc_safety/wdc_safety.c:94-294 | the same as an invariant of any guarded state |
| GuardRuns.RunningExactly | firmware/components/wdc_safety/wdc_safety.c:118-247 | over every run from power-up: an app counts as running exactly if it was marked so on an initialised guard and nothing ended it since |
| GuardRuns.ReadyExactly | firmware/components/wdc_safety/wdc_safety.c:118-160 | over every run: the guard is initialised exactly if the profile is valid and some step asked for it |
| GuardRuns.AuthorizerExactly | firmware/components/wdc_safety/wdc_safety.c:144-166 | over every run: an authoriser is in place exactly if one was installed with success and not cleared since |
| Safety.SafeRunsIff | firmware/components/wdc_safety/wdc_safety.c:94-247 | for every profile: no run ever leaves an output unsafe after initialisation with no app running, exactly when the profile is invalid or its lines, as far as there are slots, leave every output at its safe level |
| Safety.CallsFrozen | firmware/components/wdc_abi/wdc_host_call.c:410-493 | unless an app is running under an authoriser, no call changes the guard, the authoriser or any output level, and no effectful call, timer and configuration writes included, is carried out |
| Safety.WriteTakesEffect | firmware/components/wdc_abi/wdc_host_call.c:248-272 | an authorised write by a running app sets the level it names and no other, exactly while there is a slot for it |
| Authority.RefusedIsNotCarriedOut | firmware/components/wdc_abi/wdc_host_call.c:431-442 | under an authoriser, what the capability check refuses or cannot decide is not carried out and changes nothing |
| Authority.WithoutAuthorizer | firmware/components/wdc_abi/wdc_host_call.c:399-429 | without an authoriser, system information and network status are answered, and nothing else |
| Authority.AllowedIsAnswered | firmware/components/wdc_abi/wdc_host_call.c:461-493 | an allowed call is answered exactly if it is one of five quiet opcodes, or one of eight effectful ones while an app is running |
| Authority.TurnedAway | firmware/components/wdc_abi/wdc_host_call.c:461-474 | every way in which a call is turned away before any capability is looked at, with its status |
| Authority.LevelOfEntries | firmware/components/wdc_abi/wdc_host_call.c:252-259 | a write request of any entries names level one or zero for a boolean, its number for an unsigned value, and no level otherwise |
| Authority.OtherWritesRefused | firmware/components/wdc_abi/wdc_host_call.c:260-266 | a write to anything but the relay and the LED, to a line that is no output, or of a level above one is refused and changes nothing |
| Authority.NamelessRefused | firmware/components/wdc_abi/wdc_host_call.c:250-257 | a write that names no id or no level is refused as badly encoded |
| Authority.LevelChangesOnlyIfGranted | firmware/components/wdc_abi/wdc_host_call.c:461-493 | an output level changes only in a write of a running app, under an authoriser, that some capability of the set grants for that output, and then to the level that the request names |
| Authority.GrantedWriteSets | firmware/components/wdc_abi/wdc_host_call.c:248-272 | a granted write within its rate sets the output to the level of its entry: for a boolean, to one exactly when it is true |
| Safety.InitSafeIff | firmware/components/wdc_safety/wdc_safety.c:118-142 | initialisation of a valid profile fails exactly when the defaults need more than eight slots; failed or not, outputs are then safe exactly when the lines that got slots leave every output at its safe level |
| Safety.UnsafeAfterInit | firmware/components/wdc_safety/wdc_safety.c:118-142 | a valid profile on which initialisation succeeds with an output that is not safe |
| Safety.TooManyLines | firmware/components/wdc_safety/wdc_safety.c:118-142 | valid profiles on which initialisation runs out of slots, with safe outputs unless the output comes last |
| Safety.SafetyGuard.DoInit | firmware/components/wdc_safety/wdc_safety.c:118-142 | initialisation on the static state |
| Safety.SafetyGuard.DoInstallAuthorizer | firmware/components/wdc_safety/wdc_safety.c:144-160 | installing the authoriser, after initialisation if that has not happened |
| Safety.SafetyGuard.DoMarkRunning | firmware/components/wdc_safety/wdc_safety.c:168-186 | an app is marked as running only after initialisation |
| Safety.SafetyGuard.DoStopApp | firmware/components/wdc_safety/wdc_safety.c:220-247 | stopping forces the outputs and changes the state even when forcing fails |
| Safety.SafetyGuard.DoEnterNoBundle | firmware/components/wdc_safety/wdc_safety.c:188-200 | entering the no-bundle state only when the outputs could be forced |
| Safety.SafetyGuard.DoGpioSet | firmware/components/wdc_abi/wdc_host_call.c:248-272 | the GPIO write with all its refusals |
| Safety.SafetyGuard.Dispatch | firmware/components/wdc_abi/wdc_host_call.c:461-493 | dispatch: checks, authorisation, then the call |
| RateLimit.SameCapability | firmware/components/wdc_caps/wdc_caps.c:466-498 | the budget spent is that of the capability that gave permission, or none when that is past the sixteenth |
| Authority.ResourceCallDecided | firmware/components/wdc_caps/wdc_caps.c:203-236 | in the terms of set and request: a call on a resource is refused unless the resource has the kind that the call needs and some capability has that kind, that resource and the operation; the first such one decides about payload and rate |
| Authority.ConfigCallDecided | firmware/components/wdc_caps/wdc_caps.c:238-275 | the same for configuration keys, with names that equal the key or cover it with ".*" |
| Authority.UnreadableRefused | firmware/components/wdc_caps/wdc_caps.c:690-755 | a request whose resource or key cannot be read is refused as badly encoded |
| Authority.OtherCallsDecided | firmware/components/wdc_caps/wdc_caps.c:663-779 | four calls need no capability; what is neither one of them nor in the tables is refused |
| Authority.AllowedIsGranted | firmware/components/wdc_caps/wdc_caps.c:203-236 | a call on a resource that is allowed was granted by a capability of the set |
| RateLimit.AllowedCallsSpaced | firmware/components/wdc_caps/wdc_caps.c:500-535 | over every run under one capability set, with a clock that does not go back, the allowed calls on a metered capability are at least its interval apart |
| RateHistory.SpacedAcrossSets | firmware/components/wdc_safety/wdc_safety.c:118-166 | over every history of calls, installed capability sets and clearings: two calls allowed on one budget are at least the later one's interval apart, unless initialisation or clearing came between |
| RateHistory.ForgettingAllowsAgain | firmware/components/wdc_safety/wdc_safety.c:162-166 | clearing lets a second call through at the same millisecond, at one call a second |
| RateLimit.WindowBound | firmware/components/wdc_caps/wdc_caps.c:500-535 | any window holds at most as many allowed calls as it has begun intervals |
| RateLimit.WindowFilled | firmware/components/wdc_caps/wdc_caps.c:500-535 | that bound is reached by some run |
| RateLimit.RateInASecond | firmware/components/wdc_caps/wdc_caps.c:500-535 | "at most the configured rate in any second" holds over all runs exactly when the rate divides 1000 or exceeds it |
| RateLimit.FourInASecond | firmware/components/wdc_caps/wdc_caps.c:514-517 | at three calls a second, a GPIO write is allowed four times within one second |
| RateLimit.Authorizer.EnforceRateLimit | firmware/components/wdc_caps/wdc_caps.c:500-535 | the limiter on its two arrays |
| RateLimit.Authorizer.AuthorizeHostCall | firmware/components/wdc_caps/wdc_caps.c:663-779 | permission, payload limit, then rate limit, for each family of opcodes |

## Left out

- The partition driver, WAMR, FreeRTOS, NVS and logging: a guest run is an outcome of the environment, flash is the byte
  model above. Reads of flash do not fail, and a write fails only by being cut short.
- The host build's in-memory journal (`wdc_ota.c:317-363`): it replaces records whole, so nothing can be torn there.
- The Ed25519 callback and every claim about cryptographic strength; the verdict of a bundle check other than its counter
  check is a status from outside.
- The JSON scanners for manifests and capabilities: the model starts from the parsed capability list.
- Policy checks of `wdc_net.c`, event and diagnostic rings, timer and config slots, name tables.
- The state kept in RAM between sessions: each session starts from what the journal returns, as `shell_main.c:470-493`
  does.
- The guest SDK's encoder, and its C header, whose reader has no 64-bit heads.
- Recursion depth of the CBOR readers: the model terminates on every input, but the stack a device has is not modelled.
- The tool's JSON file itself, its `--slot` default (taken as already resolved), and unverified installs.
- SHA-256 of a whole published message: the constants, single rounds, the padding and the output are checked, and the
  method is proved against the definition.
- Answers of dispatched calls other than their effect on outputs, and statistics such as denial counters.
- `Safety.SafetyGuard.Dispatch`: the reply buffer is not modelled, so a reply that does not fit is not told apart, and the
  size checks before authorisation give one status from outside; the effect on outputs is the same.
- `BootSafety.AtMostOneTrial`: assumes that boots use a policy that fails running candidates, and that none starts a fresh
  candidate at the last generation; `TwoTrialsWithoutFail` and `TwoTrialsAtWrap` are runs that show that each is needed.
- `BootSafety.GoodSlotKept`: assumes that installs go to a slot that is neither active nor last good; `GoodSlotLost` is a
  run that shows that this is needed.
- `BootOutcome.ChosenSlotStarts`: speaks of the production policy, which takes the counter floor from the block just read;
  under the development policy there is no floor.
- `RateLimit.AllowedCallsSpaced`: assumes a 64-bit millisecond clock more than a minute away from overflow.
- The platform branches of the HAL that touch pins, and reading inputs there.
