# Verified model of the streaming runtime of datafusion-ray

This project models the core of a streaming query runtime over Arrow batches and proves properties of it in Dafny.
Checkpoint markers flow through the streams next to the record batches. Operators take a snapshot of their state at
each marker, and a failed task starts again from a completed checkpoint. The model follows the code in the places where
correctness depends on many steps together: the barrier that aligns fibres, the merge that aligns inputs, the channel
between tasks, the partitioning of rows, the snapshots with their catalogue and their upload, the replaying source, the
wire format, and the numbering of plan stages.

Objects the code updates in place are classes whose methods are proved equal to specification functions. Protocols with
concurrent parties are state machines over their atomic steps, and results about them hold for every run, that is, for
every sequence of states in which each follows from the one before by an enabled step. Batches are sequences of rows, a
database is a map, and clocks, random choices, hash functions, readiness and generated names are parameters.

## Files

- `Wrappers`, `Streams`, `Arithmetic`: shared types and facts
- `Barrier`, `BarrierRuns`: the barrier with a result, one object and all its runs
- `Fibres`, `FibreRuns`, `FibreOutputs`, `FibreMarkers`: fibres that meet at the barrier after each marker
- `Addresses`, `Generations`: where a fibre reads from, and when it has to pause
- `AlignedMerge`, `MergeRuns`: merging inputs marker by marker
- `DataChannel`, `ChannelRuns`: the channel between a sender and its readers
- `Partitioning`, `Exchange`: hash ranges, and reading a channel through them
- `CheckpointCover`, `Catalogue`: choosing stored parts, and the list of completed checkpoints
- `Files`, `Upload`: copying a directory, and uploads that may stop at any step
- `StateBackend`, `Counting`, `Source`, `Recovery`, `RecoveryLimits`, `RecoveryExact`: snapshots, counting, replay, and restarts
- `FairMerge`: polling streams in a ring with removal
- `Flight`: cutting, encoding and decoding
- `Stages`: numbering the stages of a plan

## Where the code does less than it seems to

Each of these is kept as the code has it, with a concrete input that shows it and the exact condition under which the
expected property does hold.

- A caller that completes a shared round nobody waits for loses the value it computed
  (`BarrierRuns.LoneArriverLosesValue`, `BarrierRuns.CompleterGetsValue`), so a pause can be missed
  (`FibreRuns.PauseCanBeMissed`, `FibreRuns.PauseTakesHold`).
- A channel reader can end with an error although none was sent (`ChannelRuns.CleanEndIsNotGuaranteed`,
  `ChannelRuns.ClosedExactlyInWindow`), and a sent error can go unseen (`ChannelRuns.ErrorCanBeLost`,
  `ChannelRuns.ErrorSeenExactly`).
- The search for stored parts sorts by stored index, so it misses covers stored out of order
  (`CheckpointCover.OrderMatters`, `CheckpointCover.SearchExact`). Rescaled ranges keep their hashes only for equal
  partition counts or full ranges (`CheckpointCover.RescaleKeepsHashes`).
- Addresses are accepted by the sum of their sizes, so overlapping locations can hide a gap
  (`Addresses.OverlapHidesGap`, `Addresses.SelectionExact`). An empty request is accepted even if there is no address
  for it (`Addresses.EmptyRequest`).
- A channel compares ranges by partition number, so a reader with another partition count can lose rows
  (`Exchange.OtherCountLoses`, `Exchange.ServedHashes`).
- The lookup named for the latest checkpoint returns the oldest covering one (`Catalogue.LatestIsNotNewest`,
  `Catalogue.NewestInHistory`).
- A task without partitions has the empty range. Its uploaded checkpoints cannot be found without local copies, because
  the search panics (`RecoveryExact.EmptyRangeStrands`, `RecoveryExact.RemoteRestartsExactly`,
  `Catalogue.ImproperPanics`).
- The source renumbers later iterations, but not the rest of the iteration it resumes in. Snapshots after a restart
  from a later iteration are stored under wrong numbers (`RecoveryLimits.LaterRestartBreaks`,
  `RecoveryLimits.LaterSnapshot`), and a restart from one of these gives a wrong result (`RecoveryExact.WrongResult`,
  `RecoveryExact.ExactlyOnceExactly`).
- The cap for scaling up is meant to be 2 to the power of 32; the operator used is exclusive or, which gives 34
  (`Exchange.AllCopiesServed`).
- The splitter reserves room for n + 1 pieces but can make 2n - 1 (`Flight.ReservedExceeded`, `Flight.ReservedEnough`,
  `Flight.PieceCountReached`).

## Model

| member | source | states |
|---|---|---|
| `Barrier.InnerQueueState.constructor` | src/streaming/operators/remote_source/barrier_with_result.rs:28-34 | a new barrier is an open round for the given number of participants |
| `Barrier.InnerQueueState.CreateStateQueue` | src/streaming/operators/remote_source/barrier_with_result.rs:108-124 | no queue for at most one participant, otherwise one sender below receivers, one entry per participant |
| `Barrier.InnerQueueState.PopQueueInner` | src/streaming/operators/remote_source/barrier_with_result.rs:65-106 | the three outcomes of popping: run alone, wait on a receiver, or run as the sender and answer all receivers handed out; the queue is never empty, so the panic for a missing state is unreachable |
| `Barrier.InnerQueueState.ComputeResult` | src/streaming/operators/remote_source/barrier_with_result.rs:36-43 | one arrival is the abstract step `Arrive`: the first function of a round is kept, the last arrival runs it |
| `Barrier.InnerQueueState.RemoveParticipant` | src/streaming/operators/remote_source/barrier_with_result.rs:45-63 | one departure is the abstract step `Leave`: it takes the leaver's place out of the round and completes the round if it was the last one missing |
| `BarrierRuns.Preserved` | src/streaming/operators/remote_source/barrier_with_result.rs:36-106 | every arrival, departure and wake-up keeps the membership, log and result invariants |
| `BarrierRuns.NeverStuck` | src/streaming/operators/remote_source/barrier_with_result.rs:36-106 | in every reachable state the queue length is the number of live participants that have not arrived, and some participant can move |
| `BarrierRuns.OneComputationPerRound` | src/streaming/operators/remote_source/barrier_with_result.rs:36-106 | over all runs each round executes at most one function, rounds in order, and it is the function registered first in that round |
| `BarrierRuns.SameResult` | src/streaming/operators/remote_source/barrier_with_result.rs:65-106 | all calls of one round return the same value or all return an error, however participants leave, apart from a completer nobody waits for |
| `BarrierRuns.CompleterGetsValue` | src/streaming/operators/remote_source/barrier_with_result.rs:65-106 | the completing caller gets what the round's function gave, a value or its error, if somebody waits or the barrier has no queue, and otherwise the error for a dropped receiver |
| `BarrierRuns.LoneArriverLosesValue` | src/streaming/operators/remote_source/barrier_with_result.rs:45-106 | two participants, one leaves, the other arrives: the function runs and its caller gets an error |
| `Fibres.StripInsert` | src/streaming/operators/remote_source/fibres.rs:263-291 | stripping undoes inserting the instructions, and there is one check per marker |
| `Fibres.CheckAt` | src/streaming/operators/remote_source/fibres.rs:263-278 | a fibre that stands at a check has passed on exactly its stream through the marker of that check, and the check carries that marker's number |
| `FibreRuns.MoveKeeps` | src/streaming/operators/remote_source/shared_fibre_state.rs:57-116 | every move of a fibre keeps the placement, marker and pause invariants |
| `FibreRuns.ConsistentCut` | src/streaming/operators/remote_source/shared_fibre_state.rs:57-116 | for every interleaving with fibres finishing early: when a round completes, its marker is the common sequence's marker of that round, it becomes the last completed one, nobody waits on a marker, and every live fibre has delivered exactly its input through it |
| `FibreRuns.NoMismatch` | src/streaming/operators/remote_source/shared_fibre_state.rs:57-83 | the error for a different marker is unreachable when all fibres carry prefixes of one marker sequence |
| `FibreRuns.PauseHolds` | src/streaming/operators/remote_source/fibres.rs:221-261 | once a pause has stopped one fibre, every live fibre has delivered exactly its input through the last completed marker |
| `FibreRuns.PauseIsFinal` | src/streaming/operators/remote_source/fibres.rs:221-261 | after that no move delivers an item or completes a round |
| `FibreRuns.FibresNeverStuck` | src/streaming/operators/remote_source/shared_fibre_state.rs:57-116 | in every reachable state some move is possible if and only if some live fibre has not been stopped by a pause |
| `FibreRuns.PauseTakesHold` | src/streaming/operators/remote_source/shared_fibre_state.rs:57-112 | a pause decided by a round holds all live fibres if and only if the completing fibre is not alone in a shared round |
| `FibreRuns.PauseCanBeMissed` | src/streaming/operators/remote_source/shared_fibre_state.rs:57-116 | a run of two fibres, one with an empty stream, in which a round decides to pause and the remaining fibre runs on with an error |
| `FibreOutputs.OutputExactly` | src/streaming/operators/remote_source/fibres.rs:221-291 | in every state of every run: the returned calls of a fibre are those of rounds 0, 1, 2 and so on, it is stopped if and only if its last call returned a pause, and its output is exactly its input up to where it stands with one error after the marker of each check whose call returned an error |
| `FibreOutputs.ErrorsPassedOn` | src/streaming/operators/remote_source/fibres.rs:232-256 | a fibre passes on as many errors as its calls returned, and nothing but items while none did |
| `FibreMarkers.RoundsDoNotMix` | src/streaming/operators/remote_source/shared_fibre_state.rs:57-116 | for any inputs, whether their markers agree or not, all fibres that enter a round do so with the same marker |
| `FibreMarkers.RefusedExactly` | src/streaming/operators/remote_source/shared_fibre_state.rs:57-76 | for any inputs a fibre gets the error for a different marker if and only if another fibre takes part in the round at a different one; it then goes on past its check without entering the round |
| `Generations.FindCurrentGeneration` | src/streaming/operators/remote_source/utils.rs:6-28 | the search from the end returns the specified position |
| `Generations.CurrentIsLast` | src/streaming/operators/remote_source/utils.rs:6-28 | the position is that of the last generation whose relevant start conditions hold, and none is returned only if none holds |
| `Generations.CurrentMonotone` | src/streaming/operators/remote_source/utils.rs:6-28 | the position never decreases as the marker grows |
| `Generations.StartedExactly` | src/streaming/operators/remote_source/utils.rs:13-23 | a generation has started exactly from its largest start condition on the given streams on, that marker included |
| `Generations.PauseForGood` | src/streaming/operators/remote_source/shared_fibre_state.rs:118-155 | with unique ids, a pause because of a newer generation is repeated at every later marker |
| `Generations.AddressesExactly` | src/streaming/operators/remote_source/utils.rs:30-50 | the search succeeds if and only if every stream has an entry and the selection from its first one succeeds; it then returns exactly the addresses of the valid locations in these entries, each with its part of the request |
| `Generations.AddressesServe` | src/streaming/operators/remote_source/utils.rs:30-89 | a requested partition of a stream is served if and only if a valid location in the first entry for the stream has it |
| `Generations.ContinueExactly` | src/streaming/operators/remote_source/shared_fibre_state.rs:118-155 | the fibres continue if and only if their generation is the newest started one, every stream has its locations and the fibres read from exactly the addresses these offer; they pause if and only if the newest started one is another one, or these offer other addresses; anything else is an error |
| `Addresses.GetAddressesForStream` | src/streaming/operators/remote_source/utils.rs:52-89 | the loop over the locations selects the specified addresses or fails on a size mismatch |
| `Addresses.SizesCount` | src/streaming/operators/remote_source/utils.rs:76-88 | the sizes sum to at least the number of distinct partitions, with equality if and only if the parts do not overlap |
| `Addresses.SelectionExact` | src/streaming/operators/remote_source/utils.rs:52-89 | for a nonempty request, over the valid locations: without overlap success is equivalent to cover, with cover success is equivalent to no overlap, and a successful selection covers the request if and only if nothing overlaps; a result lies inside the request |
| `Addresses.AcceptedExactly` | src/streaming/operators/remote_source/utils.rs:52-89 | for every request a selection succeeds if and only if its partitions have, counted with repetition, as many valid locations as there are partitions |
| `Addresses.SelectFrom` | src/streaming/operators/remote_source/utils.rs:52-75 | every selected part comes from a location valid at the checkpoint and lies inside its range |
| `Addresses.SelectExactly` | src/streaming/operators/remote_source/utils.rs:52-75 | an address is selected if and only if a valid location has it and the part is exactly what the location and the request have in common, or stands for an unpartitioned output |
| `Addresses.SelectServes` | src/streaming/operators/remote_source/utils.rs:52-75 | a requested partition is served by the selection if and only if some valid location serves it |
| `Addresses.SelectDisjoint` | src/streaming/operators/remote_source/utils.rs:52-75 | the selected parts overlap if and only if some requested partition has two valid locations |
| `Addresses.ApartLocationsExact` | src/streaming/operators/remote_source/utils.rs:52-89 | with pairwise disjoint valid locations a request succeeds if and only if their union covers it, and then the returned parts tile it |
| `Addresses.EmptyRequest` | src/streaming/operators/remote_source/utils.rs:52-89 | an empty request never fails; it returns every valid location without partitions, and nothing at all if and only if all valid locations have partitions |
| `Addresses.OverlapHidesGap` | src/streaming/operators/remote_source/utils.rs:76-88 | for every request of even size, two locations with its first half pass the size test although nobody serves the other half |
| `AlignedMerge.MergedActionStream.constructor` | src/streaming/action_stream.rs:128-140 | the merge starts with every input unblocked and no checkpoint |
| `AlignedMerge.MergedActionStream.PollNext` | src/streaming/action_stream.rs:146-230 | one poll in any shuffled order is the specified fold over the inputs |
| `MergeRuns.PollInv` | src/streaming/action_stream.rs:146-230 | every poll keeps each input aligned with its view of the output; the end is reported only when every input is exhausted and unblocked |
| `MergeRuns.EpochsAligned` | src/streaming/action_stream.rs:146-230 | over all runs the output between two emitted markers is an order-preserving interleaving of exactly that segment of every input, the current epoch is a prefix of one, and after the end this holds for all segments |
| `MergeRuns.MarkersOnce` | src/streaming/action_stream.rs:176-222 | inputs with prefixes of one marker sequence give a prefix of it, each marker once, and at the end none is missing |
| `MergeRuns.PollProgress` | src/streaming/action_stream.rs:146-230 | if no input is pending a poll emits an item or reports the end with all inputs exhausted |
| `MergeRuns.PollExactly` | src/streaming/action_stream.rs:146-230 | what a poll returns: the first ready batch in the order; else pending if an unblocked input is not ready; else the marker met first in this round; else the end |
| `DataChannel.DataChannelState.constructor` | src/streaming/runtime/exchange_manager/data_channels.rs:95-106 | a new channel is empty, running and holds the first notification |
| `DataChannel.DataChannelState.Send` | src/streaming/runtime/exchange_manager/data_channels.rs:34-56 | appends the item, replaces the notification and closes the one it replaced |
| `DataChannel.DataChannelState.CancelWithStatus` | src/streaming/runtime/exchange_manager/data_channels.rs:58-80 | sets the status, takes the notification away and closes it |
| `ChannelRuns.ReadersComplete` | src/streaming/runtime/exchange_manager/data_channels.rs:34-177 | for every interleaving of one sender with any number of readers: each output is a prefix of what was sent, a reader that stops without a sender error has everything, the index error and the missing-notification panic are unreachable |
| `ChannelRuns.NoLostWakeup` | src/streaming/runtime/exchange_manager/data_channels.rs:113-177 | a waiting reader waits on the current notification with nothing left to read, on a closed one, or on one the sender closes in its next step |
| `ChannelRuns.DrainStep` | src/streaming/runtime/exchange_manager/data_channels.rs:113-177 | once the sender is gone every reader step is possible and decreases a bound |
| `ChannelRuns.RunsFinish` | src/streaming/runtime/exchange_manager/data_channels.rs:34-177 | every run, with a sender error or not and with the sender in any state, has a continuation in which every reader stops, holding all items unless it stops with the sender's error |
| `ChannelRuns.ClosedExactlyInWindow` | src/streaming/runtime/exchange_manager/data_channels.rs:58-177 | at its second look a reader that has everything ends with the closed error if and only if the sender took the notification since the first look, and waits for it otherwise |
| `ChannelRuns.WaitingEndsCleanly` | src/streaming/runtime/exchange_manager/data_channels.rs:34-177 | without a sender error, a reader that waited with everything read is woken only after the sender is gone, and then ends without an error |
| `ChannelRuns.CleanEndIsNotGuaranteed` | src/streaming/runtime/exchange_manager/data_channels.rs:72-177 | an empty channel whose sender is dropped can end a reader with an error |
| `ChannelRuns.ErrorSeenExactly` | src/streaming/runtime/exchange_manager/data_channels.rs:34-80 | a reader that checks the status learns of a sent error if and only if it checks between its publication and the drop |
| `ChannelRuns.ErrorCanBeLost` | src/streaming/runtime/exchange_manager/data_channels.rs:34-80 | dropping the sender replaces an error nobody has seen by an ordinary end |
| `ChannelRuns.DropNamesCheckpoint` | src/streaming/runtime/exchange_manager/data_channels.rs:34-80 | in every run the status of a dropped channel names the last marker and the number of items that were sent |
| `Partitioning.FilterByPartitionRange` | src/streaming/partitioning.rs:125-159 | the collected indices select exactly the rows whose hash is in the range, in order |
| `Partitioning.SplitTiles` | src/streaming/coordinator.rs:185-192 | for every cap and number of copies the ranges tile all partitions, sizes differ by at most one and never grow |
| `Partitioning.SplitNonempty` | src/streaming/coordinator.rs:185-192 | a copy's range is nonempty if and only if its index is below the cap |
| `Partitioning.OneRange` | src/streaming/partitioning.rs:84-87 | every hash lies in exactly one range of a tiling |
| `Partitioning.TilesConserve` | src/streaming/partitioning.rs:84-159 | ranges that tile a range select together, as a multiset, what the whole range selects |
| `Exchange.SplitRangeServed` | src/streaming/runtime/exchange_manager/data_channels.rs:230-270 | on a full-range channel each nonempty range of the split is served as asked, and an empty one is refused |
| `Exchange.AllCopiesServed` | src/streaming/coordinator.rs:185-192 | with the cap as computed, every copy can read if and only if there are at most 34 copies |
| `Exchange.ServedHashes` | src/streaming/runtime/exchange_manager/data_channels.rs:230-270 | for every request on a full-range channel: refused if and only if it starts at or after the cap, and otherwise served the hashes it asks for if and only if the partition counts agree or it asks for everything with more partitions |
| `Exchange.OtherCountLoses` | src/streaming/runtime/exchange_manager/data_channels.rs:230-270 | the first half of two partitions asked of a channel with four is served without the hash 2 |
| `Exchange.OpenPartitioned` | src/streaming/runtime/exchange_manager/data_channels.rs:247-262 | for every channel range and request: refused if and only if they have no partition number in common, and otherwise filtered by what they have in common, under the count of the channel |
| `Exchange.ReadExactly` | src/streaming/runtime/exchange_manager/data_channels.rs:113-270 | for every channel and request, in any interleaving: a stopped reader of an unpartitioned channel holds everything if it asked for no partitions and is refused otherwise; on a partitioned channel it holds all markers and, in every epoch, the rows whose partition lies in both ranges |
| `Exchange.FilteredEpoch` | src/streaming/runtime/exchange_manager/data_channels.rs:178-192 | a filtered stream keeps all markers and, per epoch, exactly the selected rows in order |
| `Exchange.ExchangeConserves` | src/streaming/runtime/exchange_manager/data_channels.rs:113-192 | n readers of one channel with the ranges of the split, in any interleaving, receive together in every epoch exactly the multiset of rows sent, each in send order, and all markers |
| `CheckpointCover.GetNonOverlappingPartitions` | src/streaming/state/checkpoint_storage.rs:218-283 | the rescaling, filtering and greedy loops compute the specified search, panics included |
| `CheckpointCover.SearchSound` | src/streaming/state/checkpoint_storage.rs:218-283 | for a nonempty search there is no panic, and a found cover consists of consecutive nonempty ranges that tile the rescaled search, each inside the rescaled stored range it names |
| `CheckpointCover.SearchExact` | src/streaming/state/checkpoint_storage.rs:245-283 | a cover is found if and only if the stored ranges cover the search and no candidate jumps ahead of those stored before it |
| `CheckpointCover.SearchComplete` | src/streaming/state/checkpoint_storage.rs:251-282 | with ascending starts a cover is found if and only if there is one |
| `CheckpointCover.OrderMatters` | src/streaming/state/checkpoint_storage.rs:249-273 | two halves stored in reverse are not found, because the sort key is the stored index |
| `CheckpointCover.PanicExactly` | src/streaming/state/checkpoint_storage.rs:229-282 | the search panics if and only if a partition count is zero or an empty search has no candidate |
| `CheckpointCover.TargetIs` | src/streaming/state/checkpoint_storage.rs:225-228 | all ranges are rescaled to the largest partition count among them |
| `CheckpointCover.RescaleIs` | src/streaming/state/checkpoint_storage.rs:229-240 | a rescaled bound is the bound times the new count over the old one, rounded down |
| `CheckpointCover.RescaleKeepsHashes` | src/streaming/state/checkpoint_storage.rs:229-240 | rescaling keeps the hashes of a range if and only if the partition count is unchanged or the range is everything |
| `CheckpointCover.SearchHashes` | src/streaming/state/checkpoint_storage.rs:229-283 | the selected ranges own exactly the hashes of the search under that same condition, and never share one |
| `Catalogue.FileSystemStateStorage.CompleteCheckpoint` | src/streaming/state/checkpoint_storage.rs:58-96 | adds the part to the first entry with the id, or a new entry at the end |
| `Catalogue.FileSystemStateStorage.GetOperatorCheckpoints` | src/streaming/state/checkpoint_storage.rs:98-133 | the first entry with the id whose parts cover the range |
| `Catalogue.FileSystemStateStorage.GetLatestOperatorCheckpoints` | src/streaming/state/checkpoint_storage.rs:135-165 | the first entry of any id whose parts cover the range |
| `Catalogue.RecordKeeps` | src/streaming/state/checkpoint_storage.rs:79-91 | one completion keeps ids unique, adds its part under its id and changes nothing under any other id |
| `Catalogue.HistoryKept` | src/streaming/state/checkpoint_storage.rs:58-96 | after every history of completions ids are unique and each id holds exactly its completed parts in order |
| `Catalogue.LookupExact` | src/streaming/state/checkpoint_storage.rs:98-133 | after every history a lookup by id searches exactly the parts completed under it |
| `Catalogue.EntryFinds` | src/streaming/state/checkpoint_storage.rs:98-133 | for a nonempty range an entry is used if and only if its parts cover the range and none jumps ahead of those stored before it |
| `Catalogue.EntryRestores` | src/streaming/state/checkpoint_storage.rs:115-127 | the ranges returned for an entry tile the rescaled range, and each comes with the directory of a stored part that contains it |
| `Catalogue.LookupRestores` | src/streaming/state/checkpoint_storage.rs:98-165 | after every history both lookups return only such parts, of those completed under the returned id |
| `Catalogue.LatestIsFirst` | src/streaming/state/checkpoint_storage.rs:135-165 | the lookup without an id returns the first covering entry, and no earlier entry covers |
| `Catalogue.BuildInOrder` | src/streaming/state/checkpoint_storage.rs:79-91 | after every history the catalogue lists the ids in the order of their first completion |
| `Catalogue.NewestInHistory` | src/streaming/state/checkpoint_storage.rs:135-165 | after every history a covering checkpoint, the newest included, is returned if and only if no id first completed before it covers the range |
| `Catalogue.LatestIsNotNewest` | src/streaming/state/checkpoint_storage.rs:135-165 | of two completions of the same range the older id is returned |
| `Catalogue.OneRangeFound` | src/streaming/state/checkpoint_storage.rs:98-127 | parts that all have the searched range: exactly the first is selected, with the whole range |
| `Catalogue.ImproperPanics` | src/streaming/state/checkpoint_storage.rs:229-282 | parts that all have the searched range: the lookup panics for an empty range or one without partitions |
| `StateBackend.NamesExactly` | src/streaming/state/state.rs:273-279 | the prefix test on directory names accepts the directories of exactly the one checkpoint |
| `StateBackend.LoadsWholeRange` | src/streaming/state/state.rs:270-293 | after every history a database is loaded remotely for a nonempty range only from one part that holds all of it |
| `StateBackend.RocksDBStateBackend.MoveToCheckpoint` | src/streaming/state/state.rs:125-191 | the database becomes the snapshot found locally first, then remotely; a failure leaves it as it was |
| `Counting.UpdatedCounts` | src/streaming/operators/count_by_key.rs:58-87 | counting batch by batch gives the counts of all rows |
| `Counting.CountsGrow` | src/streaming/operators/count_by_key.rs:58-87 | more rows always change the counts |
| `Counting.CountByKeyFunction.UpdateLocalCounts` | src/streaming/operators/count_by_key.rs:58-87 | a column adds one per value, a scalar adds one, any other column is an error and changes nothing |
| `Counting.CountByKeyFunction.Load` | src/streaming/operators/count_by_key.rs:118-144 | checkpoint 0 changes nothing; any other sets the counts to the snapshot found, or fails without a change |
| `Counting.CountByKeyFunction.OnMarker` | src/streaming/operators/count_by_key.rs:189-200 | all counts go into the database before its snapshot is taken |
| `Counting.CountByKeyFunction.Run` | src/streaming/operators/count_by_key.rs:146-223 | over a whole stream of key columns of any kind: at each marker a snapshot with the counts of exactly the keys before it, all markers passed on, an error for each column that cannot be counted, and at the end the counts of all keys |
| `Counting.CountStarFunction.OnBatch` | src/streaming/operators/count_star.rs:119-125 | the count grows by the number of rows |
| `Counting.CountStarFunction.Load` | src/streaming/operators/count_star.rs:77-100 | as above, with a missing count read as zero |
| `Counting.CountStarFunction.OnMarker` | src/streaming/operators/count_star.rs:149-156 | the count goes into the database before its snapshot is taken |
| `Counting.CountStarFunction.Run` | src/streaming/operators/count_star.rs:102-170 | the same for the count of all rows |
| `Source.MaxMarkerIs` | src/streaming/operators/source.rs:85-91 | the largest marker number, absent only without markers |
| `Source.SourceOperatorFunction.Load` | src/streaming/operators/source.rs:81-110 | sets the position the checkpoint number denotes, or fails without a change |
| `Source.SourceOperatorFunction.Run` | src/streaming/operators/source.rs:112-168 | the rest of the current iteration as it is, then the later iterations renumbered |
| `Source.WholeDistinct` | src/streaming/operators/source.rs:128-160 | with markers 1..M each once, a run from the start uses no checkpoint number twice |
| `Source.LoadInverts` | src/streaming/operators/source.rs:81-110 | checkpoint kM + j is located at marker j of iteration k |
| `Source.LocateExactly` | src/streaming/operators/source.rs:81-110 | for any items, checkpoint k times the largest marker plus j is located at the first marker j, in iteration k, and fails if and only if there is no such marker |
| `Source.ReplayExact` | src/streaming/operators/source.rs:81-168 | replaying from kM + j emits exactly the batches a run from the start emits from that marker on, and the same markers if and only if k is 0 |
| `Recovery.FindExact` | src/streaming/state/state.rs:270-293 | for every partition range, among right snapshots: a lookup finds a right one, or there is none, or it panics because the only one is uploaded and the range is empty; it never has parts to merge |
| `Recovery.StartSucceeds` | src/streaming/state/state.rs:125-191 | a restart from any checkpoint starts a task if and only if the checkpoint is 0, listed locally, or uploaded with a nonempty range |
| `Recovery.ProcessKeeps` | src/streaming/operators/count_by_key.rs:157-220 | every processed item keeps the invariant |
| `Recovery.ExactlyOnce` | src/streaming/operators/count_by_key.rs:118-220 | over any sequence of partial runs, uploads and restarts from first-iteration checkpoints, or from any checkpoint of a single iteration: every snapshot and upload under c holds the counts of everything before marker c, and every result equals that of a run without restarts |
| `Recovery.PassedCanRestart` | src/streaming/operators/count_by_key.rs:189-200 | in every run, once a task has passed a marker, a task can be started from that checkpoint for good wherever the snapshots are listed |
| `Recovery.ResultOnce` | src/streaming/operators/count_by_key.rs:201-220 | in every run a result is the counts of a task that has processed its whole stream, and between two results a task starts afresh |
| `RecoveryLimits.LaterSnapshot` | src/streaming/operators/source.rs:128-160 | the first snapshot after a restart from kM + j is right if and only if k is 0 or there are no rows |
| `RecoveryLimits.FoldStep` | src/streaming/operators/count_by_key.rs:157-220 | processing one item keeps the counts the rest of the stream leads to |
| `RecoveryLimits.LaterResult` | src/streaming/operators/source.rs:112-168 | the result of one task restarted from any right snapshot is the result without restarts |
| `RecoveryLimits.LaterRestartBreaks` | src/streaming/operators/source.rs:128-160 | one row and one marker, two iterations: after a restart from checkpoint 2 the snapshot under 1 is wrong |
| `RecoveryLimits.SecondRestart` | src/streaming/operators/source.rs:81-168 | a second restart from the misplaced snapshot counts k iterations twice; its result is right if and only if k is 0 or there are no rows |
| `RecoveryExact.NoRowsOnce` | src/streaming/operators/count_by_key.rs:118-220 | without rows every run keeps snapshots, uploads and results right, whatever checkpoints it restarts from |
| `RecoveryExact.CountsTwice` | src/streaming/operators/source.rs:81-168 | for every source with two iterations, if restarts may go beyond the first one, some run emits a result that counts the first iteration twice |
| `RecoveryExact.ExactlyOnceExactly` | src/streaming/operators/count_by_key.rs:118-220 | all results of all runs with restarts up to a limit are right, and so are all snapshots and uploads, if and only if the limit stays in the first iteration, there is a single iteration, or there are no rows |
| `RecoveryExact.WrongResult` | src/streaming/operators/source.rs:81-168 | one row and one marker, two iterations: a run that restarts from 2 and then from 1 counts three rows instead of two |
| `RecoveryExact.ResultCanFollow` | src/streaming/operators/source.rs:81-168 | every run, whatever it has restarted from, can be continued to a right result |
| `RecoveryExact.RemoteRestartsExactly` | src/streaming/state/checkpoint_storage.rs:218-283 | in all runs every uploaded checkpoint can be restarted from without local copies if and only if the partition range is nonempty |
| `RecoveryExact.EmptyRangeStrands` | src/streaming/state/checkpoint_storage.rs:218-283 | one row and one marker with the range of an unpartitioned task: a run uploads checkpoint 1 and cannot restart from it without local copies |
| `Files.CopyDirBetweenSystems` | src/streaming/state/state.rs:239-268 | the worklist copy ends, succeeds exactly if the source is a directory, the destination can be created and no file meets a folder of the same name, and then the destination holds what it held before overwritten by the whole source tree; it makes one write after the other, from the new directory to the result |
| `Files.ProgressEnds` | src/streaming/state/state.rs:250-265 | an empty worklist means that the whole tree has been copied |
| `Files.WritesUntouched` | src/streaming/state/state.rs:239-268 | after any of these writes every other directory is as it was |
| `Upload.UploadCheckpoint` | src/streaming/state/state.rs:214-237 | creates the directory, makes the single writes of the copy, and only then writes the catalogue: a completed upload ends with the last of these writes, holds the whole tree and is recorded |
| `Upload.StopsAreSteps` | src/streaming/state/state.rs:214-237 | every state an upload can be stopped in, and the one it completes in, is a step of the runs with crashes |
| `Upload.UploadsSafe` | src/streaming/state/state.rs:193-237 | over any sequence of uploads, each stopped after any of its writes or completed: every part in the catalogue has a complete copy, ids are unique and no part is lost |
| `Upload.ListedIsComplete` | src/streaming/state/checkpoint_storage.rs:98-127 | whatever the catalogue lists under an id is a complete copy |
| `FairMerge.CombinedRecordBatchStream.PollNext` | src/util.rs:344-381 | for every start and readiness: no entry is polled twice, every entry that changed or was dropped was polled, an item comes from a ready entry, pending means every entry left was polled and not ready, the end means all are exhausted, and only exhausted entries are dropped |
| `FairMerge.RemovalMoves` | src/util.rs:354-366 | after a removal the ring still marks exactly the polled entries, although the last entry moved into the gap |
| `FairMerge.RunInterleaves` | src/util.rs:344-381 | over whole runs the output is an order-preserving interleaving, and complete once the end is reported |
| `Flight.SplitBatchForGrpcResponse` | src/streaming/processor/flight_data_encoder.rs:649-673 | the cutting loop gives consecutive nonempty pieces that concatenate to the batch; each has at most its share of the limit or is a single row, and a batch with enough rows gives at least the aimed number of pieces |
| `Flight.BatchCountIs` | src/streaming/processor/flight_data_encoder.rs:659-660 | the aimed number is the smallest positive one whose total limit holds the size |
| `Flight.RowsPerBatchIs` | src/streaming/processor/flight_data_encoder.rs:659-661 | the rows per piece are the largest number of which the batch holds the aimed number of pieces, or one |
| `Flight.PieceCount` | src/streaming/processor/flight_data_encoder.rs:659-670 | at most 2n - 1 pieces for an aim of n, and at most n if n divides the rows |
| `Flight.PieceCountLeast` | src/streaming/processor/flight_data_encoder.rs:659-670 | at least the aimed number of pieces if there are as many rows |
| `Flight.PieceCountReached` | src/streaming/processor/flight_data_encoder.rs:659-670 | 2n - 1 is reached for every n |
| `Flight.ReservedEnough` | src/streaming/processor/flight_data_encoder.rs:659-662 | the room reserved for n + 1 pieces is enough if and only if n + 1 full pieces hold the rows |
| `Flight.ReservedExceeded` | src/streaming/processor/flight_data_encoder.rs:659-662 | for every aim of at least three pieces some batch needs more than n + 1 |
| `Flight.FlightDataEncoder.constructor` | src/streaming/processor/flight_data_encoder.rs:303-337 | a new encoder has the whole encoding of its stream to emit, with an error in the place of each batch that cannot be encoded |
| `Flight.FlightDataEncoder.EncodeBatch` | src/streaming/processor/flight_data_encoder.rs:384-404 | queues the schema if it was not sent, then the pieces in order, or fails with the error of the first piece that cannot be encoded |
| `Flight.FlightDataEncoder.PollNext` | src/streaming/processor/flight_data_encoder.rs:410-469 | whatever a poll emits is the head of what was left to emit; the end is reported only when nothing is left, and pending changes nothing that is left |
| `Flight.CheckedKeeps` | src/streaming/processor/flight_data_encoder.rs:396-401 | a batch that cannot be encoded cuts the stream short and changes nothing before it; the stream stays whole, with its own error, if and only if it has no such batch |
| `Flight.FirstFaultIs` | src/streaming/processor/flight_data_encoder.rs:396-401 | the error of a batch is that of its first piece that cannot be encoded |
| `Flight.MessagesWithinLimit` | src/streaming/processor/flight_data_encoder.rs:384-404 | every message with rows that the encoder emits is nonempty and has at most its share of the limit, or one row |
| `Flight.DecodeNeedsSchema` | src/streaming/processor/stream_serialization.rs:40-64 | before a schema rows are refused, and markers and errors are passed on |
| `Flight.RoundTrip` | src/streaming/processor/stream_serialization.rs:16-64 | decoding the encoding keeps the marker sequence, the rows of every epoch in order and the error, for every lossless way of cutting |
| `Flight.WireRoundTrip` | src/streaming/processor/stream_serialization.rs:16-64 | the same for what the encoder emits of a stream from its start, encoding errors included |
| `Flight.SchemaOnce` | src/streaming/processor/flight_data_encoder.rs:362-404 | exactly one schema message before every batch message, and no other |
| `Stages.OptimizePlan` | src/physical.rs:56-90 | the pass with one counter computes the specified marking |
| `Stages.MarkNumbers` | src/physical.rs:66-81 | the wrapped nodes of any subtree get consecutive numbers, children before parents |
| `Stages.MarkStages` | src/physical.rs:66-81 | every stage has one child, a repartition, a sort or a nested loop join, and every such node is the child of a stage |
| `Stages.OptimizeExact` | src/physical.rs:56-90 | erasing the stages gives the plan back, ids are 0..k each once with k the number of repartition, sort and nested loop join nodes, each id exceeds all ids below it, and below the outermost stage exactly these nodes stand directly below a stage |

## Left out

- Ray, Python and network glue, gRPC servers and clients: plumbing around the modelled parts.
- RocksDB, Arrow kernels, protobuf and JSON: a database is a map, a batch its rows, a message or file its content.
- Dictionary hydration and schema preparation in the Flight encoder, and its known-schema and metadata options.
- Widths of integers: counts, markers and partition numbers do not wrap around at 64 bits.
- Participants that are dropped without leaving, and fibres that end with an error of their own: the code marks both as not handled.
- Resuming after a pause and handing fibres over to a new generation: a fibre source can be pulled only once.
- Concurrent writers of one catalogue file, failing reads of it, and torn writes: one writer and atomic writes are modelled.
- The row limit in src/util.rs, which cuts batches like the splitter does with a fixed number of rows.
- Several fibres for one pair of stream and address: the barrier has one place per address while fibres are keyed by the pair, so the model takes the pairs to be distinct and gives each fibre one place.
- Delays, retries, logging and the texts of wrapped errors.
- StateBackend.RocksDBStateBackend.MoveToCheckpoint: does not model merging several remote parts, because the merge rests on file formats of the database; that case is an error here, and `Recovery.FindExact` shows it does not arise with one partition range.
- Upload.UploadCheckpoint: asks that nothing lies in the directory it creates, because its name is generated for this upload.
- Source.SourceOperatorFunction.Run: gives the emitted items as one sequence, because the delays between iterations do not change them.
