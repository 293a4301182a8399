# ITCH-Lab verification model

A Dafny model of the ITCH-Lab replay and dataset programs, with proofs. Each source file becomes a
module in its own form: objects updated in place become classes whose methods are proved against a
plain specification, loops stay loops with invariants, pure functions stay functions, and what the
program promises over whole runs is proved about the specification.

**The order book** (`BookModel`, `BookView`, `PriceTime`, `BookRep`, `BookOutcomes`, `BookDigest`,
`OrderBookModule`). The book keeps three structures: bid levels, ask levels and an order index whose
entries point at their FIFO node. The simple thing they speed up is a map of live orders. Every
operation keeps the representation invariant and acts on that map exactly as the map's own operation
does; a rejected message changes nothing; visible shares are conserved by the reported deltas; a
replace acts as a delete followed by an add; the top of the book and every level view are determined
by the map; the invariant check reports nothing exactly when the invariant holds; and the canonical
bytes that the digest hashes tell books apart up to attribution. The top of the book is also stated on
prices alone: bids fall from the highest resting price, asks rise from the lowest, and nothing better than a
filled slot is missing. `PriceTime` tells what one message does to the total and to the queue of every
price.

**The replay** (`ReplayModel`, `ReplayCounts`, `ReplayLog`, `ReplayStream`, `ReplayBooks`, `ReplaySnapshots`,
`RecordMeaning`, `SnapshotMeaning`, `SessionRuns`, `RoutingRuns`, `ReplayCoordinatorModule`, `ReplayRun`,
with `Session`, `InstrumentDirectoryModule`, `ErrorPolicyModule`, `Writers`). The run is a state machine over decoded frames. The coordinator
object, with its mutable books, session, directory, policy and writers, is proved to take exactly the
steps of that machine, and the whole run with its final checks to end as the machine does. Over whole
runs: the counters always reconcile; the only rejections a book can produce are the two kinds that
permissive mode may skip; every written event replays to what it recorded; each snapshot follows an
event of the same position, time and kind and is never refused once that event is accepted; and the
latest snapshot of an instrument that may trade shows its current top of book, across halts and
resumptions. `ReplayStream` tells the market and both logs from the stream alone, by folding one frame
after another with no counter, budget or refusal, and every successful run ends in exactly that market:
a frame is logged, or writes a snapshot, if and only if it passes the routing or the snapshot guard on
the frames before it. What the two files then say is stated on their bytes: in every successful run the record
of a frame holds that message's own references, quantities, prices, codes and text at their offsets, or those
of the order it acts on, and its snapshot record holds the message, the latest print, the trading state and
the best prices that the message leaves. An instrument may trade exactly when its latest action carries `T`
and the market has not closed.

**The validator** (`EventCodec`, `SnapshotCodec`, `RecordShape`, `CanonicalRecords`, `ValidatorModel`,
`DeepValidator`, `Tampering`, `Pipeline`, `Refusals`). Records are decoded independently of the writer and
applied to fresh books. A record is accepted if and only if it is the encoding of an acceptable event or
snapshot. In any accepted file, whoever wrote it, each record tells side, price, remainder and quantity of the
order that it moves, and an accepted file with one of these falsified is refused. The main results go from
source bytes to validated files. Whatever a run completes with, strict or permissive,
deep validation accepts its event file against its manifest if and only if every message that passes
the routing guard is clean: a positive quantity on trades and crosses, and printable text on actions
and attributed adds. It accepts the snapshot file if and only if no message writes a snapshot while the
latest logged trade or cross of its instrument, that message included, is one of zero shares. These
conditions are needed because the two programs disagree: the replay accepts zero-share trades and the
event writer accepts any ASCII text, while deep validation refuses a valid zero quantity, in a trade
and in the last trade of a snapshot, and unprintable text. The code is modelled as it is; `Refusals`
gives short strict runs that succeed and do not validate, one for each of the three refusals.

**Bounded streaming computations** (`Sha256`, `Sha256Example`, `FramedReader`, `Labels`, `FlowModel`,
`ExecutionFlowModule`, `ClockQueues`, `FeatureModel`, `Features`, `Join`, `Conversion`, with the meaning of
their results in `RowMeaning`, `RateMeaning` and `LabelMeaning`). Each is
proved equal to its offline definition: the hash is chunk-independent and follows sections 4 to 6 of
FIPS 180-4; framing depends only on the bytes; labels come from a buffer that never outgrows the largest
horizon; rolling sums, clock rates and execution windows equal recomputation over everything seen, with
trades broken retroactively across shared objects; feature rows are causal; a feature pass and a label
pass over the same snapshots always join; and partitioned files keep every record in order although at
most 32 writers are open. The definitions themselves are tied to plain statements: the standard's worked
digest, order-flow imbalance as net buying interest that telescopes while prices hold, clock rates as
cardinalities of event sets, labels as inequalities on two mids, and joined rows as exactly the kept pairs.

Integers are unbounded in Dafny, so every machine width is a subset type and every checked operation is
written out (`Types`). Sums that the Python code keeps in floats are kept in `real`.

## Model

| member | source | states |
|---|---|---|
| Types.CheckedAdd | cpp/include/itchlab/core/types.hpp:52-65 | the sum exactly when it fits 64 bits |
| Types.SubtractUndoesAdd | cpp/include/itchlab/core/types.hpp:52-81 | checked addition and subtraction undo each other, and a subtraction is refused exactly when no sum gives its operand |
| Encoding.BigEndianRoundTrip | cpp/src/book/order_book.cpp:30-49 | reading back the appended big-endian bytes gives the value, for every value that fits the width |
| Encoding.LittleEndianRoundTrip | cpp/src/output/binary_encode.cpp:17-27 | reading back the little-endian bytes gives the value, for every value that fits the width |
| Encoding.EncodeLittleEndian | cpp/src/output/binary_encode.cpp:17-54 | overwrites exactly the addressed range in place, or nothing when the range is outside the buffer |
| Encoding.EncodePaddedAscii | cpp/src/output/binary_encode.cpp:67-79 | writes the padded text in place when it is ASCII and fits, otherwise leaves the buffer alone |
| Counting.CountTotal | cpp/src/replay/replay_coordinator.cpp:79-91 | the sum of all counts in any iteration order, or nothing when it overflows |
| BookModel.RejectionIsSkippable | cpp/src/book/order_book.cpp:92-516 | a rejected message changes nothing; a routed message later than every live order can only be rejected for its reference or its quantity |
| BookModel.ApplyEnteredBefore | cpp/src/book/order_book.cpp:92-516 | after any message every live order entered at or before it |
| BookModel.ApplyConserves | cpp/src/book/order_book.cpp:92-516 | the change of all visible shares is what the delta reports |
| BookModel.RunConserves | cpp/src/book/order_book.cpp:82-516 | over any run the visible shares equal the initial ones plus the sum of reported changes |
| BookModel.ReplaceIsDeleteThenAdd | cpp/src/book/order_book.cpp:290-516 | with distinct references a replace succeeds exactly when a delete followed by an add with the same side and attribution does, and leaves the same orders |
| BookView.IsQueueUnique | cpp/src/book/order_book.cpp:544-572 | the queue of a price is determined by the live orders: all of them, once, by priority |
| BookView.Ranked | cpp/src/book/order_book.cpp:518-542 | lists each of the given prices once; in which order is BookView.RankedByPrice |
| BookView.RankedByPrice | cpp/include/itchlab/book/order_book.hpp:125-126 | place i holds the price that exactly the earlier places beat, higher prices for bids and lower ones for asks |
| BookView.BestFirstUnique | cpp/src/book/order_book.cpp:518-542 | only one best-first listing of the same prices exists |
| BookView.TopIsBest | cpp/include/itchlab/book/order_book.hpp:125-126 | the top bids strictly fall from the highest resting buy price, the top asks strictly rise from the lowest resting sell price, totals are those of the resting orders, and no better price is missing above a filled slot |
| PriceTime.LevelsConserve | cpp/src/book/order_book.cpp:92-516 | an applied message changes the total at its reported side and price by what it reports, takes a replaced order from its old level, and leaves the total of every other level |
| PriceTime.TimePriority | cpp/src/book/order_book.cpp:150-516 | additions and replacements join the end of their queue, partial executions and cancels keep their place, finished orders leave the others in order, and no other queue changes |
| BookRep.LevelIsQueue | cpp/src/book/order_book.cpp:544-572 | in a sound book the FIFO of a price is exactly that price's live orders in priority order |
| BookRep.LevelSummary | cpp/src/book/order_book.cpp:111-149 | in a sound book the stored total is the sum of remainders, and the tail decides whether all orders are earlier |
| BookRep.InsertedConsistent | cpp/src/book/order_book.cpp:150-180 | linking a later order at its price keeps the three structures consistent |
| BookRep.ErasedConsistent | cpp/src/book/order_book.cpp:256-288 | unlinking an order and dropping an emptied level keeps the three structures consistent |
| BookRep.ReducedConsistent | cpp/src/book/order_book.cpp:256-288 | a partial reduction keeps the three structures consistent |
| BookOutcomes.AddOutcome | cpp/src/book/order_book.cpp:92-180 | on a sound book the stored level alone decides an add as the map does, and the updated structures hold the new map |
| BookOutcomes.EraseOutcome | cpp/src/book/order_book.cpp:192-354 | on a sound book none of the inconsistent level-3 branches can be taken, and unlinking removes exactly that order |
| BookOutcomes.ReduceOutcome | cpp/src/book/order_book.cpp:192-288 | a partial reduction never empties a level total and changes only that order's remainder |
| BookOutcomes.ReplaceOutcome | cpp/src/book/order_book.cpp:356-516 | on a sound book a replace is decided as on the map, over same level, existing, new and emptied levels |
| BookOutcomes.MovedIsEraseThenInsert | cpp/src/book/order_book.cpp:446-516 | the level moves of a replace give the same three structures as erasing the original and then inserting the replacement |
| BookOutcomes.TopSideOf | cpp/src/book/order_book.cpp:518-542 | the stored levels in ranked order are the aggregated prices of the map |
| BookOutcomes.SizeDecidesCompleteness | cpp/src/book/order_book.cpp:664-669 | once both sides are sound, comparing sizes alone decides whether an order is missing |
| BookOutcomes.ApplyIndexable | cpp/src/book/order_book.cpp:82-516 | after any message the map is again one that a sound book indexes |
| BookOutcomes.IndexableFacts | cpp/src/book/order_book.cpp:82-516 | a reachable book has positive remainders, a side on every order and a 64-bit total and queue at every price |
| BookDigest.PreimageInjective | cpp/src/book/order_book.cpp:574-601 | equal canonical bytes mean equal locate, levels, totals, references, remainders and priorities |
| BookDigest.PreimageTellsBooks | cpp/src/book/order_book.cpp:574-601 | canonical bytes are equal if and only if locate and live orders are, up to attribution |
| OrderBookModule.OrderBook.ApplyAdd | cpp/src/book/order_book.cpp:92-180 | keeps the invariant, acts on the live orders as the map does, and a rejection leaves the whole state |
| OrderBookModule.OrderBook.ApplyReduction | cpp/src/book/order_book.cpp:192-288 | the same for executions and partial cancels |
| OrderBookModule.OrderBook.ApplyDelete | cpp/src/book/order_book.cpp:290-354 | the same for deletes |
| OrderBookModule.OrderBook.ApplyReplace | cpp/src/book/order_book.cpp:356-516 | the same for replaces |
| OrderBookModule.OrderBook.Apply | cpp/src/book/order_book.cpp:82-90 | every message refines the map of live orders |
| OrderBookModule.OrderBook.TopLevels | cpp/src/book/order_book.cpp:518-542 | exactly depth slots a side: bids from the highest resting price strictly down, asks from the lowest strictly up, with summed remainders and nothing better missing, then empties |
| OrderBookModule.OrderBook.LevelView | cpp/src/book/order_book.cpp:544-572 | nothing exactly when no order rests there, otherwise the queue with remainders, priorities and attributions |
| OrderBookModule.OrderBook.Digest | cpp/src/book/order_book.cpp:574-601 | hashes the canonical bytes of the live orders, whatever the containers look like |
| OrderBookModule.OrderBook.CheckInvariants | cpp/src/book/order_book.cpp:603-671 | reports no violation if and only if the representation invariant holds |
| Sha256.ProcessBlock | cpp/src/core/sha256.cpp:54-100 | applies the block function of section 6.2.2 of FIPS 180-4 to the state in place |
| Sha256.Sha256Hasher.Update | cpp/src/core/sha256.cpp:114-146 | accepts exactly what keeps the bit length in 64 bits and absorbs the chunk, however the input was cut before |
| Sha256.Sha256Hasher.Finalise | cpp/src/core/sha256.cpp:148-179 | once, the fold of the block function over the padded concatenation of all chunks |
| Sha256.HashChunks | cpp/src/core/sha256.cpp:114-185 | any cut of the same message gives the same digest, or the same refusal |
| Sha256Example.DigestOfAbc | tests/cpp/unit/sha256_test.cpp:12-13 | the digest of "abc" is the worked example of FIPS 180-4, which decides every constant and rotation |
| FramedReader.ReadExact | cpp/src/input/framed_reader.cpp:21-39 | the requested bytes or the end or error, for every way the source delivers chunks |
| FramedReader.FramedMessageReader.Read | cpp/src/input/framed_reader.cpp:54-106 | the next frame is a function of the bytes at the offset; ends and errors repeat |
| FramedReader.ReadAll | cpp/src/replay/replay_coordinator.cpp:160-171 | the whole sequence of frames and its ending depend only on the bytes and the source's ending |
| FramedReader.FramesInPlace | cpp/src/input/framed_reader.cpp:93-105 | frames are numbered consecutively and each offset is the sum of the earlier frame sizes |
| FramedReader.ReadWritten | cpp/src/input/framed_reader.cpp:54-106 | reading length-prefixed payloads of 1 to 512 bytes returns exactly them and a clean end |
| FramedReader.EndsCleanly | cpp/src/input/framed_reader.cpp:54-106 | the stream ends cleanly if and only if it is a concatenation of legal frames and no source error follows |
| EventCodec.UnpackPack | cpp/src/output/event_writer.cpp:136-189 | flags packed into a word read back bit by bit |
| EventCodec.EncodeEventRecord | cpp/src/output/event_writer.cpp:96-189 | fills the 72 bytes of the record in place, or reports why the event is refused |
| EventCodec.DecodeRecord | cpp/src/validation/validator.cpp:1119-1241 | an accepted record names a known symbol at a valid time after its predecessor |
| EventCodec.DecodeEncoded | cpp/src/validation/validator.cpp:1119-1241 | the validator accepts an encoded event if and only if it is acceptable, and then reads back its fields |
| RecordShape.AcceptedShape | cpp/src/validation/validator.cpp:1119-1241 | every accepted record, whoever wrote it: kind, source and flag word belong together, symbol, time and order are valid, and sides, quantities, remainders, state codes and text are as its kind demands |
| CanonicalRecords.AcceptedRecordsAreCanonical | cpp/src/validation/validator.cpp:1119-1241 | a record is accepted if and only if it is the encoding of an acceptable event, so absent fields, padding and reserved bytes have one form only |
| SnapshotCodec.ValidateLevels | cpp/src/output/snapshot_writer.cpp:65-86 | accepts bids exactly when filled slots come first, have totals and strictly fall, and asks exactly when they strictly rise |
| SnapshotCodec.EncodeSnapshotRecord | cpp/src/output/snapshot_writer.cpp:88-163 | the record bytes for the depth, or the reason for the refusal |
| SnapshotCodec.ValidateSnapshotRecord | cpp/src/validation/validator.cpp:1416-1520 | the one-pass loop decides the declarative conditions on prefix, canonical slots and ladders |
| SnapshotCodec.ValidateEncoded | cpp/src/validation/validator.cpp:1416-1520 | an encoded snapshot validates if and only if it is acceptable, and its levels read back |
| SnapshotCodec.AcceptedLevels | cpp/src/validation/validator.cpp:1416-1520 | whatever the bytes of an accepted snapshot are, its bids strictly fall and its asks strictly rise |
| SnapshotCodec.WrittenLevels | cpp/src/output/snapshot_writer.cpp:65-86 | every snapshot that the writer accepts has strictly falling bids and strictly rising asks |
| CanonicalRecords.AcceptedSnapshotsAreCanonical | cpp/src/validation/validator.cpp:1416-1520 | a snapshot record is accepted if and only if it is the encoding of an acceptable snapshot |
| Session.OnlyActionsResume | cpp/src/replay/session_state.cpp:70-139 | only a trading action makes an instrument tradable, and it reports a change |
| Session.ActionDecides | cpp/src/replay/session_state.cpp:29-42 | after an accepted action its instrument is in the state of the letter, tradable exactly for T, and no other instrument changed |
| Session.ClosedForGood | cpp/src/replay/session_state.cpp:90-139 | after end of market hours nothing becomes tradable again |
| Session.SessionState.RegisterInstrument | cpp/src/replay/session_state.cpp:70-88 | a new instrument starts in the state of the current phase; a known one is left alone |
| Session.SessionState.ApplySystem | cpp/src/replay/session_state.cpp:90-120 | refuses phases that do not advance, otherwise moves every instrument as the phase demands |
| Session.SessionState.ApplyAction | cpp/src/replay/session_state.cpp:122-139 | refuses unknown instruments, closed markets and other letters; otherwise H, P, Q or T puts exactly that instrument into the halted, paused, quotation-only or trading state, and it reports whether that changed |
| InstrumentDirectoryModule.SelectedIsOneToOne | cpp/src/replay/instrument_directory.cpp:88-110 | a symbol id belongs to one locate |
| InstrumentDirectoryModule.InstrumentDirectory.Apply | cpp/src/replay/instrument_directory.cpp:35-92 | keeps the five tables in agreement, refuses contradictions unchanged and reports a requested symbol on its first locate |
| InstrumentDirectoryModule.InstrumentDirectory.SelectedByLocate | cpp/src/replay/instrument_directory.cpp:94-98 | the table lookup answers what the learned identities determine |
| InstrumentDirectoryModule.InstrumentDirectory.AllRequestedResolved | cpp/src/replay/instrument_directory.cpp:108-111 | true exactly when every requested symbol has a locate |
| InstrumentDirectoryModule.InstrumentDirectory.SelectedInstruments | cpp/src/replay/instrument_directory.cpp:123-132 | once all are resolved, one instrument for each symbol in the order of the request |
| ErrorPolicyModule.ObservedOk | cpp/src/replay/error_policy.cpp:18-35 | skips stay in budget, strict mode never skips and errors equal the sum by code |
| ErrorPolicyModule.ErrorPolicy.Observe | cpp/src/replay/error_policy.cpp:18-35 | the decision and the counters, including both overflow cases |
| ReplayModel.StepIsMarketStep | cpp/src/replay/replay_coordinator.cpp:160-703 | a frame leaves the market, advances the session, announces an instrument or makes one routed write |
| ReplayModel.StepWired | cpp/src/replay/replay_coordinator.cpp:215-290 | exactly the resolved instruments have a book, a last trade, a counter and a state |
| ReplayCounts.RunReconciled | cpp/src/replay/replay_coordinator.cpp:161-290 | at every point of every run the counters, the per-type totals and the policy reconcile |
| ReplayCounts.ReconciliationNeverFails | cpp/src/replay/replay_coordinator.cpp:712-731 | the reconciliation error at the end is unreachable |
| ReplayLog.RunKeepsLog | cpp/src/replay/replay_coordinator.cpp:399-701 | in every run each event replays to what it recorded and each live book is what its log rebuilds |
| ReplayLog.ValidatePrefix | cpp/src/validation/validator.cpp:1340-1374 | record by record, validation accepts exactly the clean prefixes and rebuilds their books |
| ReplayLog.LogReconstructsState | cpp/src/validation/validator.cpp:1301-1404 | validation of the written records succeeds if and only if every event is clean, and then each rebuilt book is the live one |
| ReplayStream.RunFollowsStream | cpp/src/replay/replay_coordinator.cpp:160-703 | whatever counters, budget and policy did, a successful run ends in the market and with the events and snapshots that its stream alone determines |
| ReplayStream.LoggedExactly | cpp/src/replay/replay_coordinator.cpp:251-331 | each frame writes one event exactly when it passes the routing guard and one snapshot exactly when it passes the snapshot guard, both told from the frames before it |
| ReplayStream.LastTradeIsLatestPrint | cpp/src/replay/replay_coordinator.cpp:573-645 | the last trade kept for an instrument is its latest logged trade or cross, or none |
| SessionRuns.TradableExactly | cpp/src/replay/session_state.cpp:90-139 | in every successful run an instrument may trade exactly when its latest logged action carries T and no system event M, E or C has come |
| SessionRuns.StateExactly | cpp/src/replay/session_state.cpp:70-139 | the state of an instrument at any point of a run: closed, what its latest action says, or before any action halted exactly when S has come, or Q before its announcement, and else pre-open |
| SessionRuns.SystemEventsInOrder | cpp/src/replay/session_state.cpp:90-120 | the system events of a successful run come in the order O, S, Q, M, E, C, each at most once |
| RoutingRuns.MessagesNameTheirInstrument | cpp/src/replay/replay_coordinator.cpp:246-296 | in a successful run every stock field names the requested symbol of its locate, or no requested symbol when the locate is not requested |
| RoutingRuns.RepeatedRecordsAgree | cpp/src/replay/instrument_directory.cpp:35-92 | two directory records of one locate in a successful run agree in every field that is kept |
| RoutingRuns.UndecodedFrames | cpp/src/replay/error_policy.cpp:18-35 | a frame that did not decode survives only in permissive mode and only for the four safe errors |
| RoutingRuns.RejectedMessages | cpp/src/replay/error_policy.cpp:18-35 | an addressed message is logged, or permissive mode skipped a book rejection for its reference or quantity |
| RecordMeaning.FrameTells | cpp/src/replay/replay_coordinator.cpp:399-701 | the record written for a frame that passes the routing guard holds the message at its offsets: references, quantity, prices, remainder, side, codes, flags and text |
| RecordMeaning.RunTells | cpp/src/replay/replay_coordinator.cpp:399-701 | in every successful run each logged frame has the next record of the file, and that record tells its message and the order it acts on |
| SnapshotMeaning.RunTellsSnapshot | cpp/src/replay/replay_coordinator.cpp:302-395 | in every successful run each frame that passes the snapshot guard has the next snapshot record, which tells the trigger, the latest print, the trading state and the best prices of the book it leaves |
| ReplayBooks.RunKeepsBooks | cpp/src/replay/replay_coordinator.cpp:467-532 | every book of a run is one that a sound order book indexes, with orders older than the next frame |
| ReplayBooks.BookRejectionIsSkippable | cpp/src/replay/replay_coordinator.cpp:467-500 | in any run a book rejection leaves the book and is of a kind that permissive mode skips while budget remains |
| ReplayBooks.RebuiltDigestsAgree | cpp/src/validation/validator.cpp:1376-1404 | with a clean log the rebuilt books have the live order counts and digest preimages |
| ReplayBooks.EventIsClean | cpp/src/replay/replay_coordinator.cpp:399-701 | the event of a logged message is clean if and only if the message is |
| ReplayBooks.LogCleanExactly | cpp/src/validation/validator.cpp:1187-1211 | the log is clean if and only if every message that passes the routing guard has positive print quantity and printable text |
| ReplayBooks.CleanFramesCleanLog | cpp/src/validation/validator.cpp:1187-1211 | a stream of clean messages writes a clean log |
| ReplaySnapshots.TopLadder | cpp/src/output/snapshot_writer.cpp:65-86 | the top of a reachable book always passes the writer's level checks |
| ReplaySnapshots.SnapshotNeverRefused | cpp/src/replay/replay_coordinator.cpp:302-395 | at every point of every run, once the event of a frame is accepted its snapshot is accepted too and both are written |
| ReplaySnapshots.SnapshotsCleanExactly | cpp/src/validation/validator.cpp:1447-1456 | the snapshots are free of zero quantities if and only if no frame writes one while the latest print of its instrument has zero shares |
| ReplaySnapshots.PositivePrintsCleanSnapshots | cpp/src/validation/validator.cpp:1447-1456 | trades and crosses with shares make every snapshot clean |
| ReplaySnapshots.RunKeepsSnapshots | cpp/src/replay/replay_coordinator.cpp:302-701 | in every run the snapshot log stays behind the event log, shaped by kind and mirroring the books |
| ReplaySnapshots.SnapshotsValidate | cpp/src/validation/validator.cpp:1416-1520 | each snapshot was triggered by its event, reads back, and its record validates if and only if the snapshot shows no zero quantity |
| ReplaySnapshots.LatestSnapshotIsCurrent | cpp/src/replay/replay_coordinator.cpp:365-395 | an instrument that may trade and has a snapshot shows its current top of book in the latest one |
| Writers.EventWriter.WriteEvent | cpp/src/output/event_writer.cpp:356-392 | appends one record in strict position and time order, or leaves the file and reports why |
| Writers.SnapshotWriter.WriteSnapshot | cpp/src/output/snapshot_writer.cpp:308-344 | the same for snapshots of the configured depth |
| ReplayCoordinatorModule.ReplayCoordinator.Emit | cpp/src/replay/replay_coordinator.cpp:297-331 | writes the event, then the snapshot of the instrument's book, as the step model does |
| ReplayCoordinatorModule.ReplayCoordinator.HandleAction | cpp/src/replay/replay_coordinator.cpp:333-397 | a trading action takes exactly its model step on the in-place state; what that step means is Session.ActionDecides and RecordMeaning.FrameTells |
| ReplayCoordinatorModule.ReplayCoordinator.HandleBook | cpp/src/replay/replay_coordinator.cpp:467-571 | a book message is applied, skipped or stops the run exactly as in the model; what its record says is RecordMeaning.FrameTells |
| ReplayCoordinatorModule.ReplayCoordinator.HandlePrint | cpp/src/replay/replay_coordinator.cpp:573-701 | trades, crosses and broken trades take exactly their model step |
| ReplayCoordinatorModule.ReplayCoordinator.HandleSystem | cpp/src/replay/replay_coordinator.cpp:203-214 | a system event takes exactly its model step |
| ReplayCoordinatorModule.ReplayCoordinator.HandleDirectory | cpp/src/replay/replay_coordinator.cpp:216-244 | a directory record takes exactly its model step, with a fresh book for a newly resolved symbol |
| ReplayCoordinatorModule.ReplayCoordinator.HandleFiltered | cpp/src/replay/replay_coordinator.cpp:246-270 | a message of another instrument takes exactly its model step |
| ReplayCoordinatorModule.ReplayCoordinator.HandleSelected | cpp/src/replay/replay_coordinator.cpp:272-296 | a message of a requested instrument takes exactly its model step |
| ReplayCoordinatorModule.ReplayCoordinator.Step | cpp/src/replay/replay_coordinator.cpp:173-214 | one frame: the coordinator's whole state is the model's next state, or both stop with the same code |
| ReplayRun.HaltPersists | cpp/src/replay/replay_coordinator.cpp:160-171 | a run that stopped on a prefix has stopped |
| ReplayRun.RunReplay | cpp/src/replay/replay_coordinator.cpp:115-757 | completes or fails exactly as the model says, with the summary of the final state and exactly the encoded events and snapshots, whose bytes RecordMeaning.RunTells and SnapshotMeaning.RunTellsSnapshot tell |
| ReplayRun.Finish | cpp/src/replay/replay_coordinator.cpp:710-757 | unresolved symbols fail the run; otherwise every instrument is summarised from its final book |
| ValidatorModel.ValidateOne | cpp/src/validation/validator.cpp:1243-1374 | one event through the codec: accepted if and only if acceptable, and its book moves as recorded |
| ValidatorModel.MessageSurvivesCodec | cpp/src/validation/validator.cpp:1243-1279 | the book message read from a decoded record is the one of the event |
| DeepValidator.ApplyReconstructed | cpp/src/validation/validator.cpp:1243-1299 | applies the decoded event to its own book only and accepts exactly a mutation that agrees with the record; what agreement means on the bytes is Tampering.AcceptedTells |
| DeepValidator.ValidateEvents | cpp/src/validation/validator.cpp:1301-1404 | accepts exactly files whose records rebuild books with the manifest's counts and digests; what every accepted record says of its order is Tampering.AcceptedFileTells |
| Tampering.AcceptedTells | cpp/src/validation/validator.cpp:1243-1299 | an accepted record carries side, price and remainder of the live order it moves, a delete its whole quantity, and moves that book alone as its bytes say |
| Tampering.AcceptedFileTells | cpp/src/validation/validator.cpp:1289-1374 | in every accepted file each record tells its order in the book that the records before it rebuild |
| Tampering.AcceptedFileOrdered | cpp/src/validation/validator.cpp:1119-1241 | positions strictly increase and times never decrease through an accepted file |
| Tampering.AcceptedInSession | cpp/src/validation/validator.cpp:1353-1365 | an accepted record is before the end of the session and carries the session flag exactly inside it |
| Tampering.TamperedFileIsRefused | cpp/src/validation/validator.cpp:1289-1404 | an accepted file is refused once one record has its side, price or remainder changed, or a delete its quantity |
| DeepValidator.ValidatesOwnOutput | cpp/src/validation/validator.cpp:1301-1404 | a completed run's own file validates against its own manifest if and only if every event is clean |
| DeepValidator.CleanStreamValidates | cpp/src/validation/validator.cpp:1301-1404 | a stream of clean messages always validates |
| DeepValidator.ValidateSnapshots | cpp/src/validation/validator.cpp:1522-1573 | accepts exactly files in which every record is sound after its predecessors |
| DeepValidator.SnapshotFileValidates | cpp/src/validation/validator.cpp:1522-1573 | a run's snapshot file validates if and only if no frame writes a snapshot while the latest print of its instrument has zero shares |
| DeepValidator.PositivePrintsValidate | cpp/src/validation/validator.cpp:1522-1573 | a stream whose trades and crosses have shares always writes a snapshot file that validates |
| Pipeline.SourceIsNumbered | cpp/src/replay/replay_coordinator.cpp:160-180 | the replay sees strictly increasing positions, however the source chunks its bytes |
| Pipeline.ReplayValidates | cpp/src/validation/validator.cpp:1301-1404 | from bytes to validated event file: accepted if and only if every message that passes the routing guard is clean |
| Pipeline.ReplaySnapshotsValidate | cpp/src/validation/validator.cpp:1522-1573 | from bytes to validated snapshot file: accepted if and only if no message writes a snapshot that shows a trade of zero shares |
| Refusals.ZeroShareTradeIsRefused | cpp/src/validation/validator.cpp:1187-1190 | a concrete strict run with a zero-share trade succeeds and its log does not validate |
| Refusals.ZeroShareTradeIsShown | cpp/src/validation/validator.cpp:1447-1456 | in a concrete strict run an add after a zero-share trade writes a snapshot that repeats it, and the snapshot file does not validate |
| Refusals.UnprintableReasonIsRefused | cpp/src/validation/validator.cpp:1204-1211 | a concrete strict run with an unprintable action reason succeeds and its log does not validate |
| Labels.LabelHorizons | python/src/itchlab_research/datasets/labels.py:31-48 | refuses unsorted, repeated or non-positive horizons, otherwise lists all of them in increasing order |
| Labels.CompleteRowsAreFinal | python/src/itchlab_research/datasets/labels.py:173-184 | no later snapshot changes a row whose horizons have passed |
| Labels.LabelPass.EmitOldest | python/src/itchlab_research/datasets/labels.py:173-184 | the oldest buffered row gets its labels by definition |
| Labels.LabelPass.Consume | python/src/itchlab_research/datasets/labels.py:236-258 | between rows the buffer is the unlabelled end and never longer than the largest horizon |
| Labels.LabelPass.Finish | python/src/itchlab_research/datasets/labels.py:260-268 | everything seen is emitted once, in order, with nulls exactly where the future is missing |
| Labels.BuildLabels | python/src/itchlab_research/datasets/labels.py:156-268 | the streamed batches are the defined labels; a faulty stream stops at its first fault with only final rows yielded |
| LabelMeaning.LabelsCompareMids | python/src/itchlab_research/datasets/labels.py:139-144 | up, down and flat are inequalities between the mids of two qualifying snapshots and the threshold, null exactly past the end |
| LabelMeaning.StreamAccepted | python/src/itchlab_research/datasets/labels.py:186-258 | a stream is accepted exactly when every row is sound and indices increase while times never decrease |
| FlowModel.ExecutedOk | python/src/itchlab_research/datasets/features.py:518-541 | a new execution keeps retraction and broken matches in agreement |
| FlowModel.TradeBrokenOk | python/src/itchlab_research/datasets/features.py:542-557 | a broken trade retracts exactly its live executions |
| FlowModel.BucketClosedOk | python/src/itchlab_research/datasets/features.py:628-642 | closing a bucket forgets exactly the matches that no window shows |
| FlowModel.WindowShowsUnbroken | python/src/itchlab_research/datasets/features.py:385-415 | both totals of a window, signed and unsigned, are the flow of its last buckets without broken trades |
| ExecutionFlowModule.ExecutionWindow.Append | python/src/itchlab_research/datasets/features.py:392-410 | slides by one bucket, keeping the totals and every contribution's list of windows |
| ExecutionFlowModule.ExecutionWindow.BreakContribution | python/src/itchlab_research/datasets/features.py:412-415 | the totals lose the contribution exactly when the window shows it |
| ExecutionFlowModule.ExecutionFlow.Execute | python/src/itchlab_research/datasets/features.py:518-541 | the shared objects follow the plain flow: pending, in its match, active unless the match is broken |
| ExecutionFlowModule.ExecutionFlow.BreakTrade | python/src/itchlab_research/datasets/features.py:542-557 | retroactive retraction in every window at once, only the first time |
| ExecutionFlowModule.ExecutionFlow.CloseBucket | python/src/itchlab_research/datasets/features.py:628-642 | all windows slide and dropped contributions leave the dictionary, in whatever order the evicted set is walked |
| ExecutionFlowModule.ExecutionFlow.TotalsMean | python/src/itchlab_research/datasets/features.py:385-415 | at every reachable state the signed and unsigned totals equal recomputation over the last buckets without broken trades |
| ExecutionFlowModule.ExecutionFlow.MatchesAreLive | python/src/itchlab_research/datasets/features.py:628-642 | a match is remembered exactly while a contribution is pending or in some window |
| ClockQueues.Prune | python/src/itchlab_research/datasets/features.py:511-516 | popping old entries leaves exactly the events after the new bound |
| ClockQueues.SinceCounts | python/src/itchlab_research/datasets/features.py:589-603 | the queue of a complete window counts all consumed events of its kind in the half-open window |
| ClockQueues.RollingSum.Append | python/src/itchlab_research/datasets/features.py:353-367 | the running total is the sum of the last values of the window |
| FeatureModel.RowsAreCausal | python/src/itchlab_research/datasets/features.py:862-883 | rows depend only on the snapshots so far and the events up to their indices |
| FeatureModel.RowsOnlyGrow | python/src/itchlab_research/datasets/features.py:862-883 | a further snapshot leaves the earlier rows as they are |
| RowMeaning.RowsShowPressure | python/src/itchlab_research/datasets/features.py:605-626 | each window of row k shows the net buying interest, the quoted quantity and the squared returns of its last tops, and the row is complete exactly when none of its values is null |
| RowMeaning.SteadyWindow | python/src/itchlab_research/datasets/features.py:611-616 | while prices hold, the imbalance of a window telescopes to the bid quantity gained minus the ask quantity gained |
| RowMeaning.MovedWindow | python/src/itchlab_research/datasets/features.py:611-616 | a bid rise adds the new quantity and a fall takes the old one, an ask fall takes the new quantity and a rise gives the old one back |
| RateMeaning.RatesCountEvents | python/src/itchlab_research/datasets/features.py:589-603 | the six clock rates of a row are the numbers of add, cancel or delete, and execution events of each side in the half-open window |
| RateMeaning.ExecutionFlowsAgainst | python/src/itchlab_research/datasets/features.py:518-541 | an execution against a resting bid is selling and one against a resting ask buying, of its whole quantity |
| Features.FeatureState.ConsumeEvent | python/src/itchlab_research/datasets/features.py:464-557 | the same errors in the same order, otherwise the state after the event |
| Features.FeatureState.ValidateSnapshot | python/src/itchlab_research/datasets/features.py:559-587 | the same errors in the same order, otherwise only the snapshot position moves |
| Features.FeatureState.AppendTransition | python/src/itchlab_research/datasets/features.py:605-626 | all rolling sums take the new transition, each by its own term; what they then say is RowMeaning.RowsShowPressure |
| Features.FeatureState.ClockRate | python/src/itchlab_research/datasets/features.py:589-603 | null before a full window has passed, otherwise the exact number of events, although queues are pruned at different moments |
| Features.FeatureState.Row | python/src/itchlab_research/datasets/features.py:695-824 | the row of a qualifying snapshot is the offline row of everything seen |
| Features.ConsumeEvents | python/src/itchlab_research/datasets/features.py:870-877 | consumes exactly the events up to the snapshot and finds its triggering event |
| Features.BuildFeatures | python/src/itchlab_research/datasets/features.py:847-890 | the streaming merge computes exactly the offline rows, or its first error; what the rows say is RowMeaning.RowsShowPressure and RateMeaning.RatesCountEvents |
| Join.PartitionMapping | python/src/itchlab_research/datasets/splits.py:47-81 | accepts exactly chronological splits and assigns each day to one, in order |
| Join.JoinRows | python/src/itchlab_research/datasets/splits.py:155-217 | the first error of the guarded join, or exactly the retained rows with reconciled counts |
| LabelMeaning.JoinAccepts | python/src/itchlab_research/datasets/splits.py:155-205 | the join accepts exactly equally long streams that pair up snapshot by snapshot on the expected day, with one of three labels wherever a row is kept |
| LabelMeaning.MismatchIsRefused | python/src/itchlab_research/datasets/splits.py:165-188 | the first pair about two different snapshots trips the leakage guard |
| LabelMeaning.RowsAreKeptPairs | python/src/itchlab_research/datasets/splits.py:190-210 | the dataset rows are the kept pairs and no others: pair k stands after exactly the kept pairs before it |
| LabelMeaning.FatesCounted | python/src/itchlab_research/datasets/splits.py:190-217 | each dropped pair is counted for its first reason, and the counts are the numbers of such pairs |
| Join.SameKeys | python/src/itchlab_research/datasets/splits.py:165-188 | feature and label passes name the same snapshots with the same ordinals |
| Join.PassesJoin | python/src/itchlab_research/datasets/splits.py:155-217 | two successful passes over the same snapshots never trip the leakage guard and retain exactly complete, labelled, sampled rows |
| Conversion.DatasetWriter.Acquire | python/src/itchlab_research/conversion/service.py:706-731 | at most 32 writers stay open, each at its partition's last part |
| Conversion.DatasetWriter.WriteBatch | python/src/itchlab_research/conversion/service.py:706-737 | every partition's parts, concatenated by number, hold its rows in order |
| Conversion.GroupBatch | python/src/itchlab_research/conversion/service.py:541-547 | groups in ascending symbol id, each the chunk's own subsequence, none missing |
| Conversion.GroupingKeepsOrder | python/src/itchlab_research/conversion/service.py:541-547 | regrouping a chunk by symbol keeps the order inside every partition |
| Conversion.ValidateParentSet | python/src/itchlab_research/conversion/service.py:428-439 | refuses repeated replays or days, different depths and unwanted degraded parents |
| Conversion.Convert | python/src/itchlab_research/conversion/service.py:663-748 | each partition's parts are exactly that day's and symbol's records in original order, whatever was evicted |
| Conversion.ValidateSortedIndices | python/src/itchlab_research/conversion/service.py:779-787 | continues across parts and accepts exactly strictly increasing indices |
| Conversion.ValidatePartition | python/src/itchlab_research/conversion/service.py:790-823 | accepts exactly a partition whose concatenated parts increase |
| Conversion.ConvertedIsSorted | python/src/itchlab_research/conversion/service.py:779-823 | with increasing parent indices and distinct days the order check accepts every partition |

## Left out

- Byte sources, gzip, files, staging, locks, publication, signals, the progress clock and cancellation: a source is its bytes with an ending, delivered in chunks of any size; a file is a growing sequence of records.
- The field-by-field ITCH payload decoder: a parameter; the replay starts from typed messages.
- Config parsing, manifest JSON, canonical JSON, date and timestamp text, command line: schema plumbing with branch-local claims.
- The fixed header and symbol dictionary of the binary files, including the record count patched in when a writer is finalised, and the rehash of a file after validation.
- Memory pools, allocation failure and exception rollback in the order book, and the texts of diagnostics.
- The intermediate book digest that a diagnostic sink may ask for with each event.
- Session.SessionState.ApplySystem: the list of global session events that the object also appends to is not kept.
- EventCodec.DecodeRecord: its own contract tells symbol, time and order; what else acceptance means is EventCodec.DecodeEncoded.
- FramedReader.ReadExact: sources deliver between one and the wanted number of bytes; the internal error for a source that breaks this is not modelled.
- The Python columns that are formulas of one snapshot only (spread, imbalance, microprice, session progress, aggressor sign), their depth-slot checks and the finiteness check; floating-point rounding.
- Parquet schemas and row groups, the catalogue documents, models, metrics and simulation.
- BookModel.ReplaceIsDeleteThenAdd: relates the operations on the map; that the in-place level moves do the same is BookOutcomes.MovedIsEraseThenInsert.
- DeepValidator.ValidateEvents: tells whether a file is accepted, not which error code a refused file reports.
- FramedReader.FramedMessageReader.Read: returns the payload as a value; that the source's span is valid only until the next call is not modelled.
- ExecutionFlowModule.ExecutionFlow.Execute: a match is a value in the dictionary rather than a second mutable object; contributions and windows are shared objects as in the source.
- Features.FeatureState.AppendTransition: the squared logarithmic return of two tops is a parameter, and sums are exact reals.
- Features.FeatureState.ClockRate: returns the number of events; the division by the window's constant length in seconds is not modelled.
- Features.FeatureState.Row: the columns that are formulas of one snapshot only, and the depth-slot checks, are not modelled.
- Features.BuildFeatures: rows are returned as one list; the split into output batches is modelled for labels only, and the check of the snapshots' depth is not modelled.
- Join.PartitionMapping: days are numbers; parsing ISO dates is not modelled.
- Join.JoinRows: the per-horizon counts of available labels are not kept.
- Conversion.Convert: symbol names of one replay are taken to be distinct, as its reader validates.
