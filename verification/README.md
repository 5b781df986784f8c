# Foundry: recorder, codecs and schedulers, verified

A Dafny model of the parts of Foundry that keep the most state or undo the most work, with
proofs that hold for every input, every run or every reachable state. `dafny verify dfyconfig.toml`
checks the whole project.

| file | what it models |
|---|---|
| `Recorder.dfy` | the stack of account-access lists behind `startStateDiffRecording`, as functions and as the object that updates it |
| `Journal.dfy` | EVM frames over journaled storage with checkpoints, and a declarative history of a run |
| `RecorderInvariant.dfy` | the invariant tying stack, history and storage together, kept by every step |
| `StateDiff.dfy` | `getStateDiff`, `stopAndReturnStateDiff`, and the theorems about whole runs |
| `StaleKeys.dfy` | agreement of replay and storage key by key, over whole runs with repairs |
| `Rlp.dfy`, `RlpText.dfy` | RLP items, encoder, decoder, printer, JSON reader, `from_rlp` and `to_rlp` |
| `Radix.dfy`, `Numbers.dfy` | numbers in four bases with two's complement |
| `BlockProduction.dfy` | Anvil's block producer and node service |
| `LogDelivery.dfy` | `filter_logs`, the polled filter and the pushed subscription |
| `Broadcast.dfy` | nonces of broadcast transactions and EIP-7702 delegations |
| `PausedGas.dfy`, `GasSnapshots.dfy` | paused gas metering and gas snapshots |
| `JsonValue.dfy`, `JsonUpsert.dfy` | JSON upsert |
| `StructOrder.dfy`, `ReorderMeaning.dfy` | parsing JSON and text by type, struct field reordering, and when it keeps meaning |
| `LogChunks.dfy` | chunked log requests |
| `Common.dfy` | shared wrappers |

Classes update fields in place as the source does; each method is proved against a function of the
old state, the theorems are about those functions, and a method drives each class through any run
(`StateDiff.RecordRun`, `Broadcast.Drive`, `PausedGas.Drive`, `GasSnapshots.Drive`,
`BlockProduction.Drive`, `LogDelivery.Deliver`). Database lookups, the readiness of a polled task,
provider answers, splitting and reading of text and struct definitions are parameters.

## Where the code does less than one might expect

For each the exact condition is proved.

- A frame that halts (out of gas, say) is rolled back by the journal, but only a revert marks its
  recorded accesses. The same holds for the root frame, for `vm.store`, for writes of frames opened
  before recording started, and for an `SSTORE` that fails after being recorded. `StateDiff.StepExact`
  says exactly which keys each step puts out of agreement; `StateDiff.HaltLeavesWritesUnmarked` is a
  concrete run. The next recorded write of such a key restores it (`StateDiff.WriteRestores`,
  `StaleKeys.ReplayOffStale`).
- A frame already open when recording (re)started can revert to a state before the start.
  `StateDiff.ReplayFromStart` gives the exact condition under which replay from the start still
  yields the storage; `StateDiff.RewindLosesStart` is a run in which it does not.
- `to_rlp` does not accept what `from_rlp` prints once arrays nest 128 deep, because the JSON reader
  stops there (`RlpText.TextRoundTrip`, `RlpText.DeepNestingFails`).
- A negative decimal number whose word is below 2^255 does not come back (`Numbers.ShowParses`,
  `Numbers.NegativeWrapChanges`).
- `upsert_json_value` says a key cannot be just `$`, but accepts it (`JsonUpsert.RefusedKeys`);
  `k`, `.k` and `$.k` agree unless `k` itself starts with `$.` (`JsonUpsert.KeyFormsAgree`).
- The subscription returns `Pending` with notifications unread if and only if nothing is queued and a
  block that cannot be looked up comes before any log and is followed by others
  (`LogDelivery.LogsSubscription.Poll`, `LogDelivery.StalledRun`); polling on leaves unread only what
  follows such a block (`LogDelivery.Settle`).
- A delegation attached before its broadcast starts, or a create broadcast while one is pending,
  breaks the nonce sequence (`Broadcast.StepExact`, `Broadcast.EarlyDelegationCollides`,
  `Broadcast.CreateWhilePendingCollides`). For an
  authority other than the sender no nonce is ever consumed, so its authorizations are accepted if
  and only if at most one transaction carries any (`Broadcast.OtherAuthority`,
  `Broadcast.SecondCarrierCollides`).
- `retain` with `!= && !=` is right because there is never a second record; on its own it removes
  too much exactly when another record half-matches (`GasSnapshots.RetainExact`). The gas value kept
  between opcodes survives a stop. A later snapshot measures its own gas only if and only if that
  value is zero or not below the gas spent at the snapshot's first opcode; otherwise it also counts
  the difference (`GasSnapshots.SnapshotMeasures`, `GasSnapshots.SecondSnapshotCountsGap`).
- A struct given as text is read by position, so reordering its type can change its value. Where
  the text parses, it keeps its value if and only if every field finds texts that read the same at
  its old and its new position (`ReorderMeaning.ReorderExact`, `ReorderMeaning.TextSwapsFields`).
- The chunked fallback leaves out the last block of the range, which the direct request includes
  (`LogChunks.FallbackDropsLastBlock`).

## Model

| member | source | states |
|---|---|---|
| Recorder.Cheatcodes.EnterFrame | crates/cheatcodes/src/inspector.rs:1086-1129 | a frame's record opens a list of its own; nothing happens when not recording |
| Recorder.Cheatcodes.RecordStorage | crates/cheatcodes/src/inspector.rs:2590-2635 | a storage access joins the first, the trailing Resume or a new Resume record of the topmost list, if that list was opened above this depth |
| Recorder.Cheatcodes.MarkReverted | crates/cheatcodes/src/inspector.rs:1495-1502 | every record and every storage access of the list is marked, nothing else changes |
| Recorder.Cheatcodes.LeaveFrame | crates/cheatcodes/src/inspector.rs:1486-1528 | the list is popped, marked on revert, finished at its own depth, merged below or put back; never at the root |
| Recorder.Cheatcodes.RecordSelfDestruct | crates/cheatcodes/src/inspector.rs:2194-2244 | the record joins the topmost list, and is dropped when there is none |
| Recorder.Cheatcodes.RecordExt | crates/cheatcodes/src/inspector.rs:2304-2351 | the record joins the topmost list, or opens a root list |
| Recorder.Cheatcodes.StartRecording | crates/cheatcodes/src/evm.rs:926-934 | recording starts over with an empty stack |
| Recorder.Cheatcodes.StopAndReturn | crates/cheatcodes/src/evm.rs:1583-1592 | all records come out flattened in order and recording goes on from an empty stack |
| Recorder.AppendAtEnd | crates/cheatcodes/src/inspector.rs:2590-2635 | a recorded access is the last in the flattened order whichever record takes it, and is dropped exactly when the list was not opened above its depth |
| Recorder.EndFrameConserves | crates/cheatcodes/src/inspector.rs:1946-2000 | end hooks keep every record and access in order apart from flags and end-of-frame fields |
| RecorderInvariant.EntriesRevert | crates/cheatcodes/src/inspector.rs:1493-1502 | a revert marks exactly what was logged since its frame was entered |
| RecorderInvariant.GoodRollback | crates/cheatcodes/src/inspector.rs:1953-1962 | marking everything after a point makes replay agree with the checkpoint taken there |
| RecorderInvariant.StepKeepsInv | crates/cheatcodes/src/inspector.rs:2187-2353 | every operation keeps stack shape, log and storage agreement for the running state and every open checkpoint |
| RecorderInvariant.RunKeepsInv | crates/cheatcodes/src/inspector.rs:479-484 | the invariant holds after every run |
| StateDiff.RecordRun | crates/cheatcodes/src/inspector.rs:1253-1255 | the in-place recorder, driven by the hooks of any run, is in the state the run defines |
| StateDiff.ReplayIsStorage | crates/cheatcodes/src/inspector.rs:2274-2301 | at every moment, replaying unmarked writes over the baseline gives the journaled storage on every untainted key |
| StateDiff.ScopedReplay | crates/cheatcodes/src/inspector.rs:1486-1528 | in runs without halts and unseen writes since recording (re)started it gives the whole storage, from the start unless rewound behind it |
| StateDiff.ReplayFromStart | crates/cheatcodes/src/inspector.rs:1086-1129 | replay from the storage at the start is right at a key iff the key was effectively written or its baseline is its start value |
| StateDiff.RevertMarkingExact | crates/cheatcodes/src/inspector.rs:1493-1502 | the view is the log of recorded accesses in execution order, flagged iff a frame live then has since reverted |
| StateDiff.StackShape | crates/cheatcodes/src/inspector.rs:479-484 | one list per frame entered since the (re)start over at most one root list, each opening one level above its frame |
| StateDiff.StepExact | crates/cheatcodes/src/inspector.rs:1488-1502 | a step keeps an agreeing key in agreement iff it does not taint it |
| StateDiff.WriteRestores | crates/cheatcodes/src/inspector.rs:2274-2301 | a recorded write that executes puts its key back in agreement, tainted or not |
| StateDiff.HaltLeavesWritesUnmarked | crates/cheatcodes/src/inspector.rs:2711-2720 | a concrete run in which a halt leaves a rolled-back write unmarked |
| StateDiff.RewindLosesStart | crates/cheatcodes/src/evm.rs:926-934 | a concrete run in which a frame open at the start reverts behind it and replay from the start is wrong |
| StateDiff.GetRecordedStateDiffs | crates/cheatcodes/src/evm.rs:1649-1780 | the nested loops compute the fold of the flattened accesses |
| StateDiff.ListedIffWritten | crates/cheatcodes/src/evm.rs:1723-1766 | a slot is listed iff some write of it is not marked reverted |
| StateDiff.FoldSpansReplay | crates/cheatcodes/src/evm.rs:1723-1766 | an entry runs from the value before the first write to the replayed value; unlisted slots are unchanged |
| StateDiff.NetDiff | crates/cheatcodes/src/evm.rs:1649-1780 | after any run a listed slot shows baseline and current value, and every changed slot is listed |
| StateDiff.StateDiffOfRun | crates/cheatcodes/src/evm.rs:943-954 | recording a run in place and asking for the diff gives the net change of every untainted slot |
| StateDiff.ReturnedByRun | crates/cheatcodes/src/evm.rs:1583-1592 | the records returned after any run hold exactly the recorded accesses, in order and flagged, and replay to the storage on every untainted key |
| StaleKeys.ReplayOffStale | crates/cheatcodes/src/inspector.rs:2274-2301 | at every moment replay gives the storage on every key that is not stale; a recorded write ends staleness, and a revert restores what was stale at entry |
| StaleKeys.StaleExact | crates/cheatcodes/src/inspector.rs:1488-1502 | a step other than a revert makes an agreeing key stale iff it puts it out of agreement |
| StaleKeys.StaleIsTainted | crates/cheatcodes/src/inspector.rs:2274-2301 | every stale key is tainted |
| Rlp.DecodeItem | crates/cast/src/rlp_converter.rs:26-46 | the buffer-advancing loop computes the recursive decoder and terminates |
| Rlp.RoundTrip | crates/cast/src/rlp_converter.rs:17-46 | decoding an encoding followed by anything returns the item and leaves exactly what follows |
| Rlp.Canonical | crates/cast/src/rlp_converter.rs:26-46 | whatever is accepted is the encoding of the result followed by the rest |
| Rlp.AcceptsExactlyEncodings | crates/cast/src/rlp_converter.rs:26-46 | the accepted byte strings are exactly those that start with an encoding |
| Rlp.PrefixFree | crates/cast/src/rlp_converter.rs:17-24 | encodings are unique and none is a proper prefix of another |
| RlpText.Display | crates/cast/src/rlp_converter.rs:74-93 | the writer loop produces the recursive text |
| RlpText.ReadPrinted | crates/cast/src/rlp_converter.rs:74-93 | printed text followed by anything is read back if nesting is below the depth left, else is an error |
| RlpText.ItemOfJson | crates/cast/src/rlp_converter.rs:48-65 | the JSON of an item converts back to the item |
| RlpText.PrintedItemEncodes | crates/cast/src/lib.rs:1573-1578 | `to_rlp` of a printed item is its encoding iff arrays nest less than 128 deep |
| RlpText.TextRoundTrip | crates/cast/src/lib.rs:1548-1578 | `to_rlp` of what `from_rlp` prints is the hex of exactly the consumed bytes under the same condition, else an error |
| RlpText.DeepNestingFails | crates/cast/src/lib.rs:1573-1578 | 128 nested arrays do not come back |
| Radix.DigitsParse | crates/cast/src/base.rs:398-404 | the digits of a word parse to the word |
| Numbers.ShowParses | crates/cast/src/base.rs:212-227 | printing then parsing detects the base and the sign shown, and recovers the word iff base and sign are consistent with it |
| Numbers.NegativeWrapChanges | crates/cast/src/base.rs:369-396 | a negative number below the signed range is printed as `-1` and read back as another word |
| Numbers.UnsignedRoundTrip | crates/cast/src/base.rs:112-152 | every 256-bit number comes back from every base |
| Numbers.SignedRoundTrip | crates/cast/src/base.rs:369-396 | signed decimal recovers word and sign over the whole signed range |
| Numbers.BaseChangesKeepValue | crates/cast/src/base.rs:470-477 | any chain of base changes keeps the value modulo 2^256, and the sign while all are decimal |
| BlockProduction.BlockProducer.PollNext | crates/anvil/src/service.rs:148-187 | the oldest outstanding batch comes out iff its task is ready, else nothing is lost and a task is in flight; exactly one of backend and task exists |
| BlockProduction.NodeService.Drain | crates/anvil/src/service.rs:89-94 | advancing until pending loses nothing and leaves a task in flight before any backlog |
| BlockProduction.NodeService.Poll | crates/anvil/src/service.rs:82-116 | one poll keeps mined, in-flight and backlog equal to what the miner returned, never stalls, and mines all of it when tasks are ready |
| BlockProduction.Drive | crates/anvil/src/service.rs:82-187 | the same over any run of polls from a fresh node |
| LogDelivery.FilterLogs | crates/anvil/src/pubsub.rs:178-224 | the loops return the matching logs of the block with their positions as 32-bit indices |
| LogDelivery.MatchingSound | crates/anvil/src/pubsub.rs:201-223 | every log returned matches, carries its position among all logs of the block, and positions increase |
| LogDelivery.MatchingComplete | crates/anvil/src/pubsub.rs:201-223 | every matching log is returned |
| LogDelivery.LogsFilter.Poll | crates/anvil/src/filter.rs:210-220 | historic logs once, then the logs of all pending notifications |
| LogDelivery.LogsSubscription.Poll | crates/anvil/src/pubsub.rs:42-73 | the log returned, those queued and those of unread blocks are what there was; pending with notifications unread iff nothing was queued and a missing block, after none but found blocks without logs, has others behind it |
| LogDelivery.Settle | crates/anvil/src/pubsub.rs:42-73 | after any events, polling until there is no log sends out everything announced except what follows a missing block, and everything if none is missing |
| LogDelivery.StalledRun | crates/anvil/src/pubsub.rs:69-71 | two notifications of missing blocks, one poll: pending with one unread |
| LogDelivery.Deliver | crates/anvil/src/filter.rs:210-220 | under any interleaving both listeners deliver the same logs once they have read the same notifications, and the subscription ends only after everything announced before the shutdown was emitted |
| Broadcast.Script.NextNonce | crates/cheatcodes/src/script.rs:168-194 | the backward search finds the nonce after the last pending delegation, or the account's, plus one when it is the sender |
| Broadcast.Script.AttachDelegation | crates/cheatcodes/src/script.rs:99-119 | accepted iff the nonce is the expected one, without effect otherwise |
| Broadcast.Script.SignDelegation | crates/cheatcodes/src/script.rs:123-165 | signs for the authority and implementation with the given or expected nonce, attaches on request, and fails iff the nonce given to be attached is not the expected one |
| Broadcast.Script.BroadcastCall | crates/cheatcodes/src/inspector.rs:969-1083 | the transaction, its delegations and the nonces consumed; blob with delegations and static single calls refused |
| Broadcast.AcceptedIffGapFree | crates/cheatcodes/src/inspector.rs:1010-1069 | a chain accepts every nonce iff transaction and authorization nonces form one gap-free sequence |
| Broadcast.StepExact | crates/cheatcodes/src/script.rs:168-219 | a step keeps the sequence iff it is neither an early first delegation nor a create with one pending |
| Broadcast.NonceSequence | crates/cheatcodes/src/inspector.rs:1010-1069 | over every orderly run by one origin the nonces form one gap-free sequence up to the account's |
| Broadcast.EarlyDelegationCollides | crates/cheatcodes/src/script.rs:183-193 | a delegation attached before the broadcast reuses the transaction's nonce |
| Broadcast.CreateWhilePendingCollides | crates/cheatcodes/src/inspector.rs:1794-1834 | a create broadcast while a delegation is pending makes the next call reuse the delegation's nonce |
| Broadcast.OtherAuthority | crates/cheatcodes/src/inspector.rs:1041-1056 | over every run the authorizations of any other authority start over at its nonce in each transaction, and are all accepted iff at most one transaction carries any |
| Broadcast.OtherStepExact | crates/cheatcodes/src/inspector.rs:1041-1056 | a step keeps them accepted iff it is not a second transaction to carry delegations of that authority |
| Broadcast.SecondCarrierCollides | crates/cheatcodes/src/inspector.rs:1041-1056 | two transactions carry the same authorization nonce |
| Broadcast.Drive | crates/cheatcodes/src/inspector.rs:969-1083 | the in-place form, driven by cheatcodes and hooks through any run, is in the state of the run, with both nonce results |
| PausedGas.Drive | crates/cheatcodes/src/inspector.rs:1219-1283 | through any run the in-place hooks keep one frozen gas per metered frame, and every opcode run while paused starts with the gas frozen for its own frame, memory aside |
| PausedGas.FlagsExact | crates/cheatcodes/src/inspector.rs:312-326 | metering is paused iff the last cheatcode was a pause, about to reset iff the last opcode was a reset, touched iff it was ever reset or resumed from a pause |
| PausedGas.HookMetersRunningFrame | crates/cheatcodes/src/inspector.rs:2046-2058 | after the hook the frozen gas on top is the running frame's own |
| PausedGas.StepKeepsInv | crates/cheatcodes/src/inspector.rs:1219-1283 | the frozen stack is the metered frames, a suffix of the live ones, after every operation |
| PausedGas.OpcodeGas | crates/cheatcodes/src/inspector.rs:1236-1245 | the exact gas every opcode of every run starts with: frozen while paused, the whole limit right after a reset, its own otherwise |
| PausedGas.GasStandsStill | crates/cheatcodes/src/inspector.rs:2046-2058 | within one pause all opcodes of a frame start with the same gas, memory aside, whatever it calls in between |
| GasSnapshots.Drive | crates/cheatcodes/src/evm.rs:1416-1491 | starts, stops and metered opcodes carried out in place, in any order, end in the state of the run |
| GasSnapshots.Metering.StopSnapshot | crates/cheatcodes/src/evm.rs:1442-1491 | the value stored and returned, the record removed, or an error without effect |
| GasSnapshots.RunKeepsInv | crates/cheatcodes/src/evm.rs:1416-1491 | over every run there is at most one record, present iff a snapshot of its name is active and recording |
| GasSnapshots.StopExact | crates/cheatcodes/src/evm.rs:1448-1491 | a stop succeeds iff it refers to the active snapshot, and removes exactly its record |
| GasSnapshots.RetainExact | crates/cheatcodes/src/evm.rs:1473-1477 | the retain condition keeps exactly the other records iff none agrees in only one of group and name |
| GasSnapshots.SnapshotMeasures | crates/cheatcodes/src/inspector.rs:2061-2086 | for any run from start to stop, at any depths, the value stored is the sum of the rises at its own depth, its own gas iff the gas kept from before is zero or not below that of its first opcode, and within one frame the difference of the ends |
| GasSnapshots.SecondSnapshotCountsGap | crates/cheatcodes/src/inspector.rs:2070-2082 | two snapshots of 200 gas of which the second also counts the gas between them |
| JsonUpsert.KeyFormsAgree | crates/cheatcodes/src/json.rs:505-507 | `.k` and `$.k` always agree, and `k` agrees iff it does not start with `$.` |
| JsonUpsert.RefusedKeys | crates/cheatcodes/src/json.rs:708-721 | exactly which keys are refused as empty |
| JsonUpsert.Document.UpsertKey | crates/cheatcodes/src/json.rs:708-750 | the in-place walk computes the upsert, and an error leaves the document as it was |
| JsonUpsert.FailsIffBlocked | crates/cheatcodes/src/json.rs:727-746 | an upsert fails iff something on the way is present and not an object |
| JsonUpsert.ReadsBack | crates/cheatcodes/src/json.rs:737-743 | the new value is read at the path, with everything below it |
| JsonUpsert.OthersUnchanged | crates/cheatcodes/src/json.rs:727-743 | paths not through the upserted one are unchanged |
| JsonUpsert.LastWins | crates/cheatcodes/src/json.rs:737-743 | a second upsert at the same path erases the first |
| StructOrder.ReorderIdempotent | crates/cheatcodes/src/json.rs:757-799 | reordering a reordered type changes nothing |
| ReorderMeaning.MatchingReorders | crates/cheatcodes/src/json.rs:757-799 | a type whose definitions match can be reordered |
| ReorderMeaning.ReorderExact | crates/cheatcodes/src/json.rs:397-456 | parsing under the reordered type is the same up to field order, at every depth, if texts in the place of structs are stable, and where the original parses only if they are |
| ReorderMeaning.TextExact | crates/cheatcodes/src/string.rs:170-179 | the same for text: each field must find, at its old and its new position, texts that read the same |
| ReorderMeaning.ReorderKeepsMeaning | crates/cheatcodes/src/json.rs:397-456 | with structs given as objects the parse is the same whatever is done with text |
| ReorderMeaning.TextSwapsFields | crates/cheatcodes/src/json.rs:397-411 | a text of two fields defined in the other order is read with the fields swapped, the same iff both hold the same word |
| LogChunks.RangesTile | crates/cast/src/lib.rs:698-702 | the chunk ranges tile the half-open block range in order |
| LogChunks.ChunkRanges | crates/cast/src/lib.rs:698-702 | the loop computes those ranges |
| LogChunks.FetchChunk | crates/cast/src/lib.rs:711-728 | a chunk's logs, or those of its single blocks that succeed |
| LogChunks.GetLogsChunkedConcurrent | crates/cast/src/lib.rs:681-743 | the chunks' logs in order, none for an empty range |
| LogChunks.GetLogsChunked | crates/cast/src/lib.rs:664-675 | the direct request if it succeeds, else the logs of the covered blocks; if single blocks succeed, the whole range iff the direct request succeeded or the last block has no logs |
| LogChunks.ChunkedExact | crates/cast/src/lib.rs:698-743 | the result is the logs of exactly the covered blocks, in block order |
| LogChunks.FallbackDropsLastBlock | crates/cast/src/lib.rs:664-743 | if single blocks succeed the result is the range without its last block, equal to the direct answer iff that block has no logs |

## Left out

- StateDiff.GetRecordedStateDiffs: balance and nonce changes are not folded, because the source folds them without looking at `reverted` and they would only add easy members; slot decoding, labels and contract lookup are libraries.
- Hook exits that skip a push or a pop (mocked calls, intercepted creates, hook errors, `expectRevert`, `assumeNoRevert`): runs do not contain them.
- A second root call with recording still on: a run ends with its root frame.
- RlpText.ReadPrinted: objects, escape sequences and numbers other than plain unsigned integers are not read by the modelled JSON reader; printed text contains none. `from_rlp` as an integer is not modelled.
- Rlp.RoundTrip: payload lengths are taken to fit their 64-bit length fields, as they do in memory.
- The names accepted for a base on the command line, and output without a prefix, are not modelled.
- Async wakers, lock ordering, filter eviction, fee history and the header and transaction subscriptions.
- BlockProduction.NodeService.Poll: a mining task that panics ends the process and is not modelled.
- Broadcast.NonceSequence: nonces a create consumes without being broadcast, call isolation, several origins, signatures and u64 overflow of nonces are not modelled.
- PausedGas.StepKeepsInv: frames end through a stepped opcode; frames ended by another hook are not modelled.
- GasSnapshots.SnapshotMeasures: saturation of gas counters at 2^64 is not modelled.
- ReorderMeaning.TextExact: splitting a tuple's or array's text and reading a scalar's are parameters, and a text is split before the types of its parts are looked at; the ABI library that does both is not part of this model.
- LogChunks.GetLogsChunkedConcurrent: ranges without both ends are passed straight to the provider; addition past 2^64 is excluded.
- Prank, mock, `expectEmit`, file, environment, signing, RPC and command-line code.
