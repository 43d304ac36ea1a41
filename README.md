# A verified model of the pipe job-pipeline library

`pipe` guides identified items through an ordered list of steps. Each step is
retried up to its maximum number of attempts. Every item carries a job state
machine, listeners are told of each transition, and barrier steps hold a
group of items until a controller lifts them together. The repository has
three generations of this library: `src/` (the oldest), `pipecore/` and
`pipe/` (the latest). Each generation's core is modelled here on its own,
because their transition rules differ.

One Dafny module per source file:

| module | file | source |
|---|---|---|
| `Common` | common.dfy | shared `Option`/`Result`, the library's exception kinds (`Error`) and the throwables a job records (`Cause`) |
| `JobState` | job_state.dfy | pipe/src/main/java/com/udeyrishi/pipe/State.kt, the single-cause state machine |
| `CausesState` | causes_state.dfy | pipe/src/main/java/com/udeyrishi/pipe/state/State.kt, the machine whose `Failure` accumulates causes in place (also used by pipecore) |
| `LegacyState` | legacy_state.dfy | src/main/kotlin/com/udeyrishi/pipe/State.kt, the oldest machine, where several transitions throw |
| `ImmutableAfterSet` | immutable_after_set.dfy | pipe/src/main/java/com/udeyrishi/pipe/internal/util/ImmutableAfterSet.kt, the set-once property |
| `IndexMaps` | index_maps.dfy | the position maps the sort replayers scatter and gather by |
| `SortReplayer` | sort_replayer.dfy | pipe/src/main/java/com/udeyrishi/pipe/internal/util/SortReplayer.kt |
| `LegacySortReplayer` | legacy_sort_replayer.dfy | src/main/kotlin/com/udeyrishi/pipe/util/SortReplayer.kt, which matches by identity with `indexOfFirst` |
| `RankedReplayer` | ranked_replayer.dfy | the corrected replayer map (see Findings) |
| `RepositoryIndex` | repository_index.dfy | the UUID index both repositories keep beside their entry list |
| `Repository` | repository.dfy | pipe/src/main/java/com/udeyrishi/pipe/repository/InMemoryRepository.kt |
| `CoreRepository` | core_repository.dfy | pipecore/src/main/java/com/udeyrishi/pipe/repository/InMemoryRepository.kt |
| `Barrier` | barrier.dfy | pipe/src/main/java/com/udeyrishi/pipe/internal/barrier/Barrier.kt |
| `BarrierController` | barrier_controller.dfy | the controller commands and the barrier registration map |
| `ManualBarrierController` | manual_barrier.dfy | pipe/src/main/java/com/udeyrishi/pipe/internal/barrier/ManualBarrierControllerImpl.kt |
| `CountedBarrierController` | counted_barrier.dfy | pipe/src/main/java/com/udeyrishi/pipe/internal/barrier/CountedBarrierControllerImpl.kt |
| `Orchestrator` | orchestrator.dfy | pipe/src/main/java/com/udeyrishi/pipe/internal/Orchestrator.kt |
| `CoreOrchestrator` | core_orchestrator.dfy | pipecore/src/main/java/com/udeyrishi/pipe/Orchestrator.kt, with its `StateHolder` listener dispatch |

The state machines are pure functions with lemmas about the state diagram.
The in-place `Failure.onFailure` is a small class whose method is proved to
agree with the pure transition. The repositories, barriers, controllers and
orchestrators are classes with the source's fields. Their methods keep the
source's loops. Each method is proved against a specification function of
the old state, and the properties are proved about those functions.

Outside behaviour becomes parameters:
- a step is a function from the attempt index and the input to its outcome (an output, null, or an exception);
- a concurrent `interrupt()` is the index of the first interruption check that sees the flag;
- random UUIDs are a sequence of draws;
- the reply of a barrier's controller is an outcome parameter;
- the calls a controller makes on its barriers are returned as a list of commands;
- listener code is an oracle saying which callbacks throw and with what.

## Model

| member | source | states |
|---|---|---|
| JobState.FireFollowsDiagram | pipe/src/main/java/com/udeyrishi/pipe/State.kt:27-186 | every `onSuccess`/`onFailure` call that does not throw moves the job along an edge of the state diagram |
| JobState.DiagramIsImplemented | pipe/src/main/java/com/udeyrishi/pipe/State.kt:27-186 | conversely, every edge of the diagram is taken by some call, so the code and the diagram are the same relation |
| JobState.OnSuccessThrowsExactly | pipe/src/main/java/com/udeyrishi/pipe/State.kt:62-173 | `onSuccess` throws exactly for a step name given to `Attempting` or `Success`, a name other than the failed step's given to `AttemptFailed`, or any call on `Failure`; only the last throws IllegalStateException |
| JobState.StepNamePreserved | pipe/src/main/java/com/udeyrishi/pipe/State.kt:55-130 | a running state keeps its step name through a failure, a completion and a retry |
| JobState.TerminalIsClosed | pipe/src/main/java/com/udeyrishi/pipe/State.kt:136-186 | from a terminal state every sequence of calls that does not throw ends in a terminal state |
| JobState.FailureIsAbsorbing | pipe/src/main/java/com/udeyrishi/pipe/State.kt:165-180 | a failed job accepts exactly the failure calls, stays failed, and keeps the most recent cause |
| JobState.EveryStateReachable | pipe/src/main/java/com/udeyrishi/pipe/State.kt:27-186 | every state can be reached from `Scheduled` by some sequence of calls |
| JobState.OnSuccess | pipe/src/main/java/com/udeyrishi/pipe/State.kt:27-177 | a success tick that does not throw follows the state diagram; with a next step it starts attempting that step, without one it completes the job or marks the current attempt successful; it throws IllegalStateException exactly on `Failure`, and otherwise only IllegalArgumentException |
| JobState.OnFailure | pipe/src/main/java/com/udeyrishi/pipe/State.kt:42-180 | a failure tick never throws, follows the diagram and records the cause it is given; it marks the attempt failed, keeping the step, exactly when an attempt is in progress, and otherwise fails the job |
| CausesState.OnFailureRecordsCause | pipe/src/main/java/com/udeyrishi/pipe/state/State.kt:17-86 | every failed state holds at least one cause and the cause just reported is the last one; `Failure` keeps its old causes as a prefix; `AttemptFailed` fails with both causes |
| CausesState.AgreesWithLatestGeneration | pipe/src/main/java/com/udeyrishi/pipe/state/State.kt:10-90 | the list-of-causes machine and the latest generation's single-cause machine commute with keeping only the last cause, for both ticks, including which calls throw |
| CausesState.FailureWithinTwoTicks | pipe/src/main/java/com/udeyrishi/pipe/state/State.kt:17-86 | from any state at most two failure ticks reach `Failure`; from `Attempting` the same cause is recorded twice |
| CausesState.FailureAppendsInOrder | pipe/src/main/java/com/udeyrishi/pipe/state/State.kt:83-86 | failure ticks on a failed job append their causes in order |
| CausesState.FailureRecord.RecordFailure | pipe/src/main/java/com/udeyrishi/pipe/state/State.kt:83-86 | `onFailure` appends to the object's own list and returns the same object, whose value is the pure tick's result |
| CausesState.FailureRecord.RejectSuccess | pipe/src/main/java/com/udeyrishi/pipe/state/State.kt:79-81 | `onSuccess` on a failed job always throws IllegalStateException |
| CausesState.CopyIsIndependent | pipe/src/main/java/com/udeyrishi/pipe/state/State.kt:75-86 | the list from the `causes` getter is a copy: a later failure tick does not change it |
| CausesState.OnSuccess | pipe/src/main/java/com/udeyrishi/pipe/state/State.kt:10-81 | a success tick never reaches `Scheduled` or a failed state; with a next step it starts attempting that step, without one it completes the job or marks the current attempt successful; it throws IllegalStateException exactly on `Failure`, and otherwise only IllegalArgumentException |
| CausesState.OnFailure | pipe/src/main/java/com/udeyrishi/pipe/state/State.kt:17-86 | a failure tick always reaches `AttemptFailed` or `Failure`; it is `AttemptFailed` of the same step and cause exactly when an attempt is in progress, and a `Failure` holds a non-empty list of causes ending with the new cause |
| LegacyState.OnFailureThrowsExactly | src/main/kotlin/com/udeyrishi/pipe/State.kt:17-92 | in the oldest generation a failure tick throws IllegalStateException exactly from `Scheduled`, `AttemptSuccessful` and `Success`; `AttemptFailed` fails with both causes and `Failure` appends |
| LegacyState.OnSuccessThrowsExactly | src/main/kotlin/com/udeyrishi/pipe/State.kt:11-87 | a success tick throws exactly on `Failure` (IllegalStateException) or for a step name given to `Attempting`, `AttemptFailed` or `Success`; a retry is requested with no name; `Success` returns itself |
| LegacyState.AgreesWithNewerWhereDefined | src/main/kotlin/com/udeyrishi/pipe/State.kt:10-96 | wherever the oldest machine does not throw it agrees with the middle one, a retry being the middle one's tick with the failed step's name |
| LegacyState.AttemptFailuresAccumulate | src/main/kotlin/com/udeyrishi/pipe/State.kt:30-92 | from an attempt in progress, failure ticks never throw and the job ends failed with all the causes in order |
| LegacyState.FailuresAppend | src/main/kotlin/com/udeyrishi/pipe/State.kt:89-92 | failure ticks on a failed job append their causes in order |
| LegacyState.FailureRecord.RecordFailure | src/main/kotlin/com/udeyrishi/pipe/State.kt:89-92 | `onFailure` appends in place and returns the same object, agreeing with the pure tick |
| LegacyState.CopyIsIndependent | src/main/kotlin/com/udeyrishi/pipe/State.kt:81-92 | the getter's list is a copy, unchanged by later failure ticks |
| LegacyState.OnSuccess | src/main/kotlin/com/udeyrishi/pipe/State.kt:10-87 | in the oldest generation a success tick never reaches `Scheduled` or a failed state and with a next step starts attempting it; it throws IllegalStateException exactly on `Failure`, and otherwise only IllegalArgumentException |
| LegacyState.OnFailure | src/main/kotlin/com/udeyrishi/pipe/State.kt:17-92 | a failure tick throws only IllegalStateException; when it returns, it is `AttemptFailed` of the same step and cause from an attempt in progress, or a `Failure` whose causes end with the new cause |
| ImmutableAfterSet.Set | pipe/src/main/java/com/udeyrishi/pipe/internal/util/ImmutableAfterSet.kt:15-23 | an assignment throws IllegalStateException and changes nothing iff the cell was already assigned; otherwise the cell holds the value with a count of one |
| ImmutableAfterSet.FirstWriteWins | pipe/src/main/java/com/udeyrishi/pipe/internal/util/ImmutableAfterSet.kt:9-23 | after any sequence of assignments a fresh cell holds its initial value if there were none, and otherwise the first assigned value |
| ImmutableAfterSet.TakenCellIsFrozen | pipe/src/main/java/com/udeyrishi/pipe/internal/util/ImmutableAfterSet.kt:15-23 | an assigned cell ignores every later assignment |
| ImmutableAfterSet.OnlyLaterWritesThrow | pipe/src/main/java/com/udeyrishi/pipe/internal/util/ImmutableAfterSet.kt:17-19 | on a fresh cell, exactly the second and later assignments throw |
| ImmutableAfterSet.ImmutableAfterSet.SetValue | pipe/src/main/java/com/udeyrishi/pipe/internal/util/ImmutableAfterSet.kt:15-23 | the in-place `setValue` leaves the object and returns the outcome exactly as `Set` does |
| IndexMaps.ImageSize | pipe/src/main/java/com/udeyrishi/pipe/internal/util/SortReplayer.kt:38-42 | a position map has as many distinct targets as positions exactly when no two positions share a target |
| IndexMaps.InjectiveIffOnto | pipe/src/main/java/com/udeyrishi/pipe/internal/util/SortReplayer.kt:38-42 | pigeonhole: a map from n positions into n slots fills every slot exactly when it is injective, which is when the final `it!!` cannot meet a null |
| IndexMaps.ScatteredFilled | pipe/src/main/java/com/udeyrishi/pipe/internal/util/SortReplayer.kt:38-41 | after the scatter loop has run over the first k entries, a slot is filled exactly when one of them targets it |
| IndexMaps.ScatteredLastWriter | pipe/src/main/java/com/udeyrishi/pipe/internal/util/SortReplayer.kt:39-41 | a slot holds the value of the last entry that wrote it |
| IndexMaps.Unwrapped | pipe/src/main/java/com/udeyrishi/pipe/internal/util/SortReplayer.kt:42 | `map { it!! }` succeeds exactly when every slot is filled, yielding the slots' values in order, and throws NullPointerException otherwise |
| IndexMaps.ScatterAndUnwrap | pipe/src/main/java/com/udeyrishi/pipe/internal/util/SortReplayer.kt:38-42 | the replay loop (a list of nulls, one write per map entry, then `it!!`) returns exactly the unwrapped scatter of all entries |
| IndexMaps.ScatterGather | pipe/src/main/java/com/udeyrishi/pipe/internal/util/SortReplayer.kt:38-58 | for an injective map every slot is filled and slot `t[i]` holds value `i`, so reading back through the map recovers the values |
| SortReplayer.PositionMap | pipe/src/main/java/com/udeyrishi/pipe/internal/util/SortReplayer.kt:18 | `positionMapSorted` holds every sorted element and sends each to a position holding it, the last such position |
| SortReplayer.Create | pipe/src/main/java/com/udeyrishi/pipe/internal/util/SortReplayer.kt:10-27 | the constructor throws IllegalArgumentException exactly on a size mismatch or an original element missing from the sorted list; it records nothing for the same list object, and otherwise sends each original position to the last sorted position of its element |
| SortReplayer.ApplySortTransformations | pipe/src/main/java/com/udeyrishi/pipe/internal/util/SortReplayer.kt:29-43 | the forward replay checks the size, copies for the same list object, and otherwise scatters by the map and unwraps |
| SortReplayer.ReverseApply | pipe/src/main/java/com/udeyrishi/pipe/internal/util/SortReplayer.kt:45-59 | the reverse replay throws IllegalArgumentException exactly on a size mismatch and otherwise returns a list of the replayer's size |
| SortReplayer.ApplySucceedsIffInjective | pipe/src/main/java/com/udeyrishi/pipe/internal/util/SortReplayer.kt:38-42 | a forward replay of the right length succeeds exactly when the map is injective (else NullPointerException), putting value `i` at slot `t[i]` |
| SortReplayer.InjectiveIffDistinct | pipe/src/main/java/com/udeyrishi/pipe/internal/util/SortReplayer.kt:18-23 | for two different list objects the recorded map is injective exactly when the original list has no repeated element |
| SortReplayer.ApplyToOriginalIsSorted | pipe/src/main/java/com/udeyrishi/pipe/internal/util/SortReplayer.kt:10-43 | replaying the sort on the original list (with no repeats) yields the sorted list |
| SortReplayer.ReverseOfSortedIsOriginal | pipe/src/main/java/com/udeyrishi/pipe/internal/util/SortReplayer.kt:10-59 | undoing the sort on the sorted list yields the original list, repeats included |
| SortReplayer.RoundTrip | pipe/src/main/java/com/udeyrishi/pipe/internal/util/SortReplayer.kt:29-59 | for an original list with no repeats, reverse replay undoes forward replay on every list of the right length |
| SortReplayer.RepeatedElementBreaksApply | pipe/src/main/java/com/udeyrishi/pipe/internal/util/SortReplayer.kt:18-42 | with a repeated original element (two different list objects) every forward replay throws NullPointerException |
| LegacySortReplayer.IndexOfFirst | src/main/kotlin/com/udeyrishi/pipe/util/SortReplayer.kt:21 | `indexOfFirst` finds nothing exactly when the object is absent, and otherwise the first position holding it |
| LegacySortReplayer.FindFirst | src/main/kotlin/com/udeyrishi/pipe/util/SortReplayer.kt:21 | the front-to-back scan returns -1 exactly when `IndexOfFirst` finds nothing, and otherwise its position |
| LegacySortReplayer.IndexOfFirstIsFirst | src/main/kotlin/com/udeyrishi/pipe/util/SortReplayer.kt:21 | the first position holding the object is the one reported |
| LegacySortReplayer.Construct | src/main/kotlin/com/udeyrishi/pipe/util/SortReplayer.kt:9-29 | the constructor's loop builds exactly the replayer `Create` describes, stopping at the first missing element |
| LegacySortReplayer.CreateMapsToFirstOccurrence | src/main/kotlin/com/udeyrishi/pipe/util/SortReplayer.kt:9-29 | the constructor throws IllegalArgumentException exactly on a size mismatch or a missing element, records nothing for the same list object, and otherwise maps each position to the first sorted position holding that object |
| LegacySortReplayer.LookUpAllMeaning | src/main/kotlin/com/udeyrishi/pipe/util/SortReplayer.kt:19-27 | the constructor's loop over the first n elements stops at a missing element exactly when one of them is absent, and otherwise has recorded each one's first sorted position |
| LegacySortReplayer.CreatedIsValid | src/main/kotlin/com/udeyrishi/pipe/util/SortReplayer.kt:9-29 | every replayer built maps positions into a list of the original's length |
| LegacySortReplayer.ApplySortTransformations | src/main/kotlin/com/udeyrishi/pipe/util/SortReplayer.kt:31-47 | the forward replay copies for the same list object before any size check, then checks the size, scatters and unwraps |
| LegacySortReplayer.ReverseApply | src/main/kotlin/com/udeyrishi/pipe/util/SortReplayer.kt:49-62 | the reverse replay throws IllegalArgumentException exactly when a map was recorded and the size differs |
| LegacySortReplayer.SameListSkipsSizeCheck | src/main/kotlin/com/udeyrishi/pipe/util/SortReplayer.kt:14-52 | for the same list object both directions copy their input whatever its length |
| LegacySortReplayer.InjectiveIffDistinct | src/main/kotlin/com/udeyrishi/pipe/util/SortReplayer.kt:19-27 | the recorded map is injective exactly when no object occurs twice in the original list |
| LegacySortReplayer.ApplySucceedsIffInjective | src/main/kotlin/com/udeyrishi/pipe/util/SortReplayer.kt:40-46 | a forward replay of the right length succeeds exactly when the map is injective (else NullPointerException) |
| LegacySortReplayer.ReverseOfSortedIsOriginal | src/main/kotlin/com/udeyrishi/pipe/util/SortReplayer.kt:9-62 | undoing the sort on the sorted list yields the original list |
| LegacySortReplayer.ApplyToOriginalIsSorted | src/main/kotlin/com/udeyrishi/pipe/util/SortReplayer.kt:9-47 | replaying the sort on an original list with no repeats yields the sorted list |
| LegacySortReplayer.RoundTrip | src/main/kotlin/com/udeyrishi/pipe/util/SortReplayer.kt:31-62 | for an original list with no repeats, reverse replay undoes forward replay on every list of the right length |
| RankedReplayer.NthPosition | pipe/src/main/java/com/udeyrishi/pipe/internal/util/SortReplayer.kt:18 | the r-th copy of an element sits at a position holding it with exactly r copies before it |
| RankedReplayer.RankedPositions | pipe/src/main/java/com/udeyrishi/pipe/internal/util/SortReplayer.kt:18-23 | occurrence matching sends each original position to a sorted position holding the same element |
| RankedReplayer.RankedPositionsInjective | pipe/src/main/java/com/udeyrishi/pipe/internal/util/SortReplayer.kt:18-23 | occurrence matching never sends two positions to the same slot |
| RankedReplayer.CreateRanked | pipe/src/main/java/com/udeyrishi/pipe/internal/util/SortReplayer.kt:10-27 | the corrected constructor throws IllegalArgumentException exactly when the lists are not reorderings of each other, and otherwise records an injective map onto equal elements |
| RankedReplayer.CreateRankedOfPermutation | pipe/src/main/java/com/udeyrishi/pipe/internal/util/SortReplayer.kt:18-23 | for two reorderings the corrected constructor records the occurrence-matching map |
| RankedReplayer.RankedApplyToOriginalIsSorted | pipe/src/main/java/com/udeyrishi/pipe/internal/util/SortReplayer.kt:29-43 | with the corrected map, replaying the sort on the original list yields the sorted list, repeats included |
| RankedReplayer.RankedRoundTrip | pipe/src/main/java/com/udeyrishi/pipe/internal/util/SortReplayer.kt:29-59 | with the corrected map, reverse replay undoes forward replay on every list of the right length |
| RankedReplayer.RepeatedElementCounterexample | pipe/src/main/java/com/udeyrishi/pipe/internal/util/SortReplayer.kt:18-42 | as written, `[5, 5]` sorted records the map `[1, 1]` and replaying it throws NullPointerException |
| RankedReplayer.RankedSeparatesCopies | pipe/src/main/java/com/udeyrishi/pipe/internal/util/SortReplayer.kt:18-23 | occurrence matching sends the two copies of `[5, 5]` to positions 0 and 1 |
| RepositoryIndex.Lookup | pipe/src/main/java/com/udeyrishi/pipe/repository/InMemoryRepository.kt:26-32 | under the index invariant a lookup never throws and finds an entry exactly when one has that UUID, and then returns one with that UUID |
| RepositoryIndex.AddKeepsIndexed | pipe/src/main/java/com/udeyrishi/pipe/repository/InMemoryRepository.kt:16-24 | adding under a UUID the index does not know keeps the index invariant, makes the new entry findable, and leaves every other lookup unchanged |
| RepositoryIndex.AddAppendsToMatches | pipe/src/main/java/com/udeyrishi/pipe/repository/InMemoryRepository.kt:40-44 | after an add, every predicate query returns its old answer followed by the new entry when the entry matches |
| RepositoryIndex.StaleIndexAfterRemoval | pipe/src/main/java/com/udeyrishi/pipe/repository/InMemoryRepository.kt:46-55 | as written, removing the first of three entries leaves the second UUID pointing at the third entry and the third UUID past the end of the list (IndexOutOfBoundsException) |
| RepositoryIndex.Reindexed | pipe/src/main/java/com/udeyrishi/pipe/repository/InMemoryRepository.kt:13-22 | the rebuilt index sends each UUID to a position holding it and knows every entry's UUID |
| RepositoryIndex.ReindexedIsIndexed | pipe/src/main/java/com/udeyrishi/pipe/repository/InMemoryRepository.kt:13-22 | the rebuilt index satisfies the invariant exactly when no two entries share a UUID |
| RepositoryIndex.CorrectedRemovalKeepsIndexed | pipe/src/main/java/com/udeyrishi/pipe/repository/InMemoryRepository.kt:46-55 | removal followed by re-indexing restores the invariant, and every surviving entry stays findable by UUID |
| RepositoryIndex.WalkRemoving | pipe/src/main/java/com/udeyrishi/pipe/repository/InMemoryRepository.kt:46-55 | the iterator walk leaves the survivors of the predicate, in order, and the index with exactly the removed UUIDs deleted |
| RepositoryIndex.BuildIndex | pipe/src/main/java/com/udeyrishi/pipe/repository/InMemoryRepository.kt:13-22 | the loop builds the re-index of the list: every stored UUID is indexed, and each indexed UUID points at a position holding an entry with that UUID |
| Repository.InMemoryRepository.Add | pipe/src/main/java/com/udeyrishi/pipe/repository/InMemoryRepository.kt:16-24 | `add` throws DuplicateUUIDException and changes nothing iff the UUID is already indexed; otherwise it appends the entry and indexes its position, keeping the invariant and making the entry findable |
| Repository.InMemoryRepository.Get | pipe/src/main/java/com/udeyrishi/pipe/repository/InMemoryRepository.kt:26-32 | under the invariant, `get(uuid)` returns the entry with that UUID, or null when there is none |
| Repository.InMemoryRepository.GetMatching | pipe/src/main/java/com/udeyrishi/pipe/repository/InMemoryRepository.kt:40-44 | `getMatching` returns exactly the matching entries |
| Repository.InMemoryRepository.GetByTag | pipe/src/main/java/com/udeyrishi/pipe/repository/InMemoryRepository.kt:34-38 | `get(tag)` returns exactly the entries with an equal tag |
| Repository.InMemoryRepository.RemoveIf | pipe/src/main/java/com/udeyrishi/pipe/repository/InMemoryRepository.kt:46-55 | the iterator walk keeps exactly the entries the predicate rejects, in order, and deletes the removed UUIDs from the index without re-indexing the survivors |
| Repository.InMemoryRepository.RemoveIfReindexing | pipe/src/main/java/com/udeyrishi/pipe/repository/InMemoryRepository.kt:46-55 | the corrected removal keeps the same entries and rebuilds the index, which preserves the invariant |
| Repository.InMemoryRepository.Reindex | pipe/src/main/java/com/udeyrishi/pipe/repository/InMemoryRepository.kt:13-22 | rebuilds the index from the list, leaving the list alone |
| Repository.AddAppendsToTagGroup | pipe/src/main/java/com/udeyrishi/pipe/repository/InMemoryRepository.kt:16-38 | after an add, the new entry's tag group gains it at the end and other groups are unchanged |
| Repository.RemoveIfKeepsExactlyRejected | pipe/src/main/java/com/udeyrishi/pipe/repository/InMemoryRepository.kt:46-55 | an entry survives removal exactly when it was stored and the predicate rejects it |
| CoreRepository.FirstUnused | pipecore/src/main/java/com/udeyrishi/pipe/repository/InMemoryRepository.kt:28-34 | the generated UUID is not in the index and is the first of the random draws that is not |
| CoreRepository.InMemoryRepository.GenerateUuid | pipecore/src/main/java/com/udeyrishi/pipe/repository/InMemoryRepository.kt:28-34 | the draw loop returns the first draw that the index does not know |
| CoreRepository.InMemoryRepository.Add | pipecore/src/main/java/com/udeyrishi/pipe/repository/InMemoryRepository.kt:18-26 | `add` builds the orchestrator with the generated UUID and the current entry count as its position, appends it, indexes it, keeps the invariant and makes it findable |
| CoreRepository.InMemoryRepository.Get | pipecore/src/main/java/com/udeyrishi/pipe/repository/InMemoryRepository.kt:36-42 | under the invariant, `get(uuid)` returns the entry with that UUID, or null |
| CoreRepository.InMemoryRepository.GetByTag | pipecore/src/main/java/com/udeyrishi/pipe/repository/InMemoryRepository.kt:44-50 | `get(tag)` returns exactly the entries with an equal tag |
| CoreRepository.InMemoryRepository.Prune | pipecore/src/main/java/com/udeyrishi/pipe/repository/InMemoryRepository.kt:52-71 | `prune` keeps exactly the entries that are not finished (a success always, a failure iff `removeFailures`), in order, and deletes the removed UUIDs from the index without re-indexing |
| CoreRepository.InMemoryRepository.RemoveWhere | pipecore/src/main/java/com/udeyrishi/pipe/repository/InMemoryRepository.kt:54-69 | the iterator walk keeps exactly the rejected entries in order and deletes the removed UUIDs from the index |
| CoreRepository.InMemoryRepository.PruneReindexing | pipecore/src/main/java/com/udeyrishi/pipe/repository/InMemoryRepository.kt:52-71 | the corrected pruning keeps the same entries and rebuilds the index, preserving the invariant |
| CoreRepository.InMemoryRepository.Reindex | pipecore/src/main/java/com/udeyrishi/pipe/repository/InMemoryRepository.kt:15-23 | rebuilds the index from the list, leaving the list alone |
| CoreRepository.FirstUnusedIsFirst | pipecore/src/main/java/com/udeyrishi/pipe/repository/InMemoryRepository.kt:28-34 | if draw k is the first draw not in the index, it is the generated UUID |
| CoreRepository.PruneKeepsExactlyUnfinished | pipecore/src/main/java/com/udeyrishi/pipe/repository/InMemoryRepository.kt:58-68 | pruning keeps every scheduled or running orchestrator, never a successful one, and a failed one iff `removeFailures` is false |
| CoreRepository.AddedUuidsAreFresh | pipecore/src/main/java/com/udeyrishi/pipe/repository/InMemoryRepository.kt:18-34 | under the invariant, the generated UUID belongs to no stored entry |
| Barrier.Evaluation | pipe/src/main/java/com/udeyrishi/pipe/internal/barrier/Barrier.kt:139-148 | a lifted barrier yields its lift result, else its input, and throws IllegalStateException only when both are null; an interrupted one yields null; a failed one rethrows its own error |
| Barrier.InvokeOn | pipe/src/main/java/com/udeyrishi/pipe/internal/barrier/Barrier.kt:31-75 | `invoke` suspends exactly on a fresh `Initialized` barrier whose controller lets it block, storing the input in `Blocked` with a waiting continuation; a second input throws IllegalStateException and changes nothing; a prepared barrier answers at once with its evaluation; the continuation is touched only by a suspension |
| Barrier.LiftOn | pipe/src/main/java/com/udeyrishi/pipe/internal/barrier/Barrier.kt:77-98 | `lift` throws IllegalStateException exactly on a second result, a failed barrier or a spent continuation, and then resumes nothing; a first result is stored; it resumes a waiting invoke only from an open state, moving to `Lifted`, with the result or else the invoke's own input |
| Barrier.InterruptOn | pipe/src/main/java/com/udeyrishi/pipe/internal/barrier/Barrier.kt:100-118 | `interrupt` throws IllegalStateException exactly on a failed barrier or a spent continuation, and then resumes nothing; an open barrier becomes `Interrupted`; input and result are kept; a waiting invoke gets null, or the controller's exception |
| Barrier.MarkAsFailedOn | pipe/src/main/java/com/udeyrishi/pipe/internal/barrier/Barrier.kt:120-154 | `markAsFailed` throws IllegalStateException exactly on a prepared barrier or a spent continuation, and then resumes nothing; a waiting invoke is resumed with the error and the barrier reset, its continuation left spent; with no waiting invoke the barrier becomes `Failed` with the error |
| Barrier.Deliver | pipe/src/main/java/com/udeyrishi/pipe/internal/barrier/Barrier.kt:87-91 | resuming a waiting continuation succeeds and hands it exactly the value given; resuming one already resumed throws IllegalStateException and changes nothing |
| Barrier.InvokeTwiceThrows | pipe/src/main/java/com/udeyrishi/pipe/internal/barrier/Barrier.kt:31-34 | invoking a barrier that already holds an input throws IllegalStateException and leaves the barrier untouched, whatever the controller says |
| Barrier.PreparedInvokeAnswersAtOnce | pipe/src/main/java/com/udeyrishi/pipe/internal/barrier/Barrier.kt:37-40 | on a barrier whose result is prepared `invoke` does not consult the controller: lifted returns the result or else the new input, interrupted returns null, failed resets and rethrows |
| Barrier.LiftMoves | pipe/src/main/java/com/udeyrishi/pipe/internal/barrier/Barrier.kt:77-98 | a second non-null result throws first; an open barrier becomes Lifted holding the result; Lifted and Interrupted are no-ops; a failed barrier refuses with IllegalStateException |
| Barrier.InterruptMoves | pipe/src/main/java/com/udeyrishi/pipe/internal/barrier/Barrier.kt:100-118 | an open barrier becomes Interrupted and its waiting or later invoke yields null; Lifted and Interrupted are no-ops; a failed barrier refuses |
| Barrier.MarkAsFailedMoves | pipe/src/main/java/com/udeyrishi/pipe/internal/barrier/Barrier.kt:120-154 | `markAsFailed` fails exactly on a prepared barrier or a spent continuation; a waiting invoke is resumed with the error and the barrier reset; without one the error waits and the next invoke resets and throws it |
| Barrier.LiftResumesInvoke | pipe/src/main/java/com/udeyrishi/pipe/internal/barrier/Barrier.kt:31-98 | a fresh barrier's invoke suspends in Blocked, and lifting it resumes that invoke with the lift result, or with the invoke's own input when the result is null |
| Barrier.FailedAttemptCanRetry | pipe/src/main/java/com/udeyrishi/pipe/internal/barrier/Barrier.kt:120-154 | after a suspended invoke is marked as failed it throws the error, the barrier is back to Initialized with no input or result, and a new invoke suspends again |
| Barrier.MarkAsFailedKeepsSpentContinuation | pipe/src/main/java/com/udeyrishi/pipe/internal/barrier/Barrier.kt:120-154 | as written, the reset after `markAsFailed` keeps the continuation it just resumed, so a coherent barrier becomes incoherent and a later `interrupt` or `lift` throws IllegalStateException |
| Barrier.MarkAsFailedReleasing | pipe/src/main/java/com/udeyrishi/pipe/internal/barrier/Barrier.kt:120-154 | the corrected `markAsFailed` throws and resumes exactly as the original does, and also drops the spent continuation |
| Barrier.ReleasingKeepsCoherent | pipe/src/main/java/com/udeyrishi/pipe/internal/barrier/Barrier.kt:31-154 | with the corrected `markAsFailed` every operation keeps a barrier coherent, and `lift`, `interrupt` and `markAsFailed` on an open barrier never throw because of the continuation |
| Barrier.BarrierImpl.Invoke | pipe/src/main/java/com/udeyrishi/pipe/internal/barrier/Barrier.kt:31-75 | the object's fields and the call's return, throw or suspension are exactly those of the `invoke` specification |
| Barrier.BarrierImpl.Lift | pipe/src/main/java/com/udeyrishi/pipe/internal/barrier/Barrier.kt:77-98 | the new fields, the outcome and what the suspended invoke receives are exactly those of the `lift` specification |
| Barrier.BarrierImpl.Interrupt | pipe/src/main/java/com/udeyrishi/pipe/internal/barrier/Barrier.kt:100-118 | the new fields, the outcome and what the suspended invoke receives are exactly those of the `interrupt` specification, with the controller's reply as a parameter |
| Barrier.BarrierImpl.MarkAsFailed | pipe/src/main/java/com/udeyrishi/pipe/internal/barrier/Barrier.kt:120-137 | the new fields, the outcome and what the suspended invoke receives are exactly those of the `markAsFailed` specification |
| Barrier.BarrierImpl.EvaluateResult | pipe/src/main/java/com/udeyrishi/pipe/internal/barrier/Barrier.kt:139-148 | returns the evaluation of the prepared state and resets the barrier exactly when that state is a failure |
| Barrier.BarrierImpl.Reset | pipe/src/main/java/com/udeyrishi/pipe/internal/barrier/Barrier.kt:150-154 | state back to Initialized, input and result cleared, continuation kept |
| BarrierController.Each | pipe/src/main/java/com/udeyrishi/pipe/internal/barrier/ManualBarrierControllerImpl.kt:47-49 | a `forEach` over the barriers makes the same call on each of them, one call per barrier, in map order |
| BarrierController.Marked | pipe/src/main/java/com/udeyrishi/pipe/internal/barrier/CountedBarrierControllerImpl.kt:156-160 | the blocked barriers are exactly the registered barriers whose flag is `true`, kept in map order, never more than the map holds and without repetitions |
| BarrierController.Without | pipe/src/main/java/com/udeyrishi/pipe/internal/barrier/CountedBarrierControllerImpl.kt:126 | removing a barrier from the map keeps exactly the other keys, in order and without repetitions |
| BarrierController.MarkedAppend | pipe/src/main/java/com/udeyrishi/pipe/internal/barrier/CountedBarrierControllerImpl.kt:90 | registering a barrier appends it to the map and changes the blocked list only if it was already flagged |
| BarrierController.MarkedBlocking | pipe/src/main/java/com/udeyrishi/pipe/internal/barrier/CountedBarrierControllerImpl.kt:107-110 | flagging one registered, unflagged barrier as blocked adds exactly one barrier to the blocked list, matching the one added arrival |
| BarrierController.MarkedIgnoresOthers | pipe/src/main/java/com/udeyrishi/pipe/internal/barrier/CountedBarrierControllerImpl.kt:97-105 | a flag on a barrier outside the map does not change the blocked list |
| BarrierController.MarkedNone | pipe/src/main/java/com/udeyrishi/pipe/internal/barrier/CountedBarrierControllerImpl.kt:187-191 | once every flag is reset to `false` no barrier counts as blocked |
| ManualBarrierController.ManualBarrierControllerImpl.OnBarrierCreated | pipe/src/main/java/com/udeyrishi/pipe/internal/barrier/ManualBarrierControllerImpl.kt:15-23 | after `lift()` a new barrier is lifted at once and not registered; a barrier registered twice throws IllegalArgumentException; otherwise it is appended to the map, unblocked |
| ManualBarrierController.ManualBarrierControllerImpl.OnBarrierBlocked | pipe/src/main/java/com/udeyrishi/pipe/internal/barrier/ManualBarrierControllerImpl.kt:25-41 | throws IllegalArgumentException exactly for a barrier unknown before the lift or one already blocked, changing nothing; otherwise the barrier is flagged blocked |
| ManualBarrierController.ManualBarrierControllerImpl.Lift | pipe/src/main/java/com/udeyrishi/pipe/internal/barrier/ManualBarrierControllerImpl.kt:43-53 | the first call sets `lifted`, lifts every registered barrier with a null result in registration order and empties the map; later calls do nothing |
| ManualBarrierController.ManualBarrierControllerImpl.OnBarrierInterrupted | pipe/src/main/java/com/udeyrishi/pipe/internal/barrier/ManualBarrierControllerImpl.kt:55-60 | throws IllegalArgumentException exactly for an unknown barrier; otherwise the barrier leaves the map, so a later `lift()` does not lift it |
| CountedBarrierController.LiftResults | pipe/src/main/java/com/udeyrishi/pipe/internal/barrier/CountedBarrierControllerImpl.kt:172-199 | without an action the inputs are the results; a delivered lift has one result per blocked barrier; the replayer throws IllegalArgumentException only when the sort changed the length or lost an input |
| CountedBarrierController.Settlement | pipe/src/main/java/com/udeyrishi/pipe/internal/barrier/CountedBarrierControllerImpl.kt:155-199 | the final push throws IllegalStateException exactly when the unblocked barriers are not the expected absentees or a blocked barrier has no input; a delivered lift has one result per blocked barrier, and without an action each result is that barrier's own input |
| CountedBarrierController.LiftResultsRanked | pipe/src/main/java/com/udeyrishi/pipe/internal/barrier/CountedBarrierControllerImpl.kt:172-199 | the corrected mapping: the same contract, and building the replayer fails only when the sort is not a permutation of the inputs |
| CountedBarrierController.InputsOf | pipe/src/main/java/com/udeyrishi/pipe/internal/barrier/CountedBarrierControllerImpl.kt:168-170 | one input per blocked barrier, each barrier's own, in map order |
| CountedBarrierController.Zipped | pipe/src/main/java/com/udeyrishi/pipe/internal/barrier/CountedBarrierControllerImpl.kt:201-203 | `zip` lifts the i-th blocked barrier with the i-th result, as far as the shorter list goes |
| CountedBarrierController.CountedBarrierControllerImpl.NotifyError | pipe/src/main/java/com/udeyrishi/pipe/internal/barrier/CountedBarrierControllerImpl.kt:58-65 | one more expected absentee and nothing else changes; the lift is launched exactly when the controller is then ready; the invariant is kept |
| CountedBarrierController.CountedBarrierControllerImpl.SetCapacity | pipe/src/main/java/com/udeyrishi/pipe/internal/barrier/CountedBarrierControllerImpl.kt:69-79 | a capacity below the registrations throws IllegalStateException and changes nothing; otherwise only the capacity changes and the lift is launched exactly when ready |
| CountedBarrierController.CountedBarrierControllerImpl.OnBarrierCreated | pipe/src/main/java/com/udeyrishi/pipe/internal/barrier/CountedBarrierControllerImpl.kt:33-93 | a second registration throws IllegalArgumentException; once interrupted the barrier is interrupted and not registered; past the capacity the setter throws IllegalStateException before the map changes; otherwise the barrier is counted and appended |
| CountedBarrierController.CountedBarrierControllerImpl.OnBarrierBlocked | pipe/src/main/java/com/udeyrishi/pipe/internal/barrier/CountedBarrierControllerImpl.kt:25-118 | an unknown barrier throws IllegalArgumentException unless interrupted; a second block throws IllegalArgumentException; otherwise the barrier is flagged and counted, the arrival setter never throws under the invariant, and the lift is launched exactly when ready |
| CountedBarrierController.CountedBarrierControllerImpl.OnBarrierInterrupted | pipe/src/main/java/com/udeyrishi/pipe/internal/barrier/CountedBarrierControllerImpl.kt:120-139 | a no-op once ready to lift; for a registered barrier the controller becomes interrupted, interrupts every other barrier in map order and empties the map; an unknown barrier throws IllegalArgumentException unless already interrupted |
| CountedBarrierController.CountedBarrierControllerImpl.FinalInputPushed | pipe/src/main/java/com/udeyrishi/pipe/internal/barrier/CountedBarrierControllerImpl.kt:141-206 | wrong absentees or a missing input throw IllegalStateException and change nothing; a failed action resets flags and counts and marks every barrier failed with the wrapped cause; otherwise each blocked barrier is lifted with its result and the map emptied |
| CountedBarrierController.CountedBarrierControllerImpl.FailAll | pipe/src/main/java/com/udeyrishi/pipe/internal/barrier/CountedBarrierControllerImpl.kt:181-197 | the catch block: every flag reset, both counts back to 0, and every registered barrier marked as failed, in map order |
| CountedBarrierController.CountedBarrierControllerImpl.LiftBlocked | pipe/src/main/java/com/udeyrishi/pipe/internal/barrier/CountedBarrierControllerImpl.kt:201-204 | each blocked barrier lifted with the result at its position, then the map emptied |
| CountedBarrierController.PermutationBuildsReplayer | pipe/src/main/java/com/udeyrishi/pipe/internal/barrier/CountedBarrierControllerImpl.kt:175-176 | when the sort only reorders the inputs, building the sort replayer cannot throw |
| CountedBarrierController.PermutationKeepsDistinct | pipe/src/main/java/com/udeyrishi/pipe/internal/barrier/CountedBarrierControllerImpl.kt:175 | a reordering of inputs without repetitions has none either |
| CountedBarrierController.EachBarrierGetsItsOwnOutput | pipe/src/main/java/com/udeyrishi/pipe/internal/barrier/CountedBarrierControllerImpl.kt:172-203 | with distinct inputs, a reordering sort and one output per input, the lift succeeds and every barrier gets the output computed at its own input's sorted position |
| CountedBarrierController.ActionErrorsFailTheLift | pipe/src/main/java/com/udeyrishi/pipe/internal/barrier/CountedBarrierControllerImpl.kt:178-198 | an action that throws, or returns a list of the wrong length, ends in the catch block with its cause (IllegalArgumentException for the length) |
| CountedBarrierController.DuplicateInputsLoseAnOutput | pipe/src/main/java/com/udeyrishi/pipe/internal/barrier/CountedBarrierControllerImpl.kt:175-180 | two barriers with the equal input 5 and an action answering [1, 2] both get 2, and the output 1 reaches no barrier |
| CountedBarrierController.EachBarrierGetsItsOwnOutputRanked | pipe/src/main/java/com/udeyrishi/pipe/internal/barrier/CountedBarrierControllerImpl.kt:172-203 | with occurrence matching, any reordering sort and one output per input deliver every output to exactly one barrier, the one whose input sits at that sorted position |
| Orchestrator.AttemptsShape | pipe/src/main/java/com/udeyrishi/pipe/internal/Orchestrator.kt:149-205 | a step never ends with both an output and an interruption; it posts two states per attempt, and ends on its own `AttemptSuccessful` exactly when it produced an output and on its `AttemptFailed` otherwise |
| Orchestrator.Attempts | pipe/src/main/java/com/udeyrishi/pipe/internal/Orchestrator.kt:149-195 | an output a step ends with is one that some remaining attempt produced; a step that ends interrupted made at least one check, and either its last check saw the flag or some remaining attempt returned null |
| Orchestrator.RunFrom | pipe/src/main/java/com/udeyrishi/pipe/internal/Orchestrator.kt:104-123 | a run that completes ends with an output carrying the input's UUID |
| Orchestrator.RunAll | pipe/src/main/java/com/udeyrishi/pipe/internal/Orchestrator.kt:96-123 | a run that completes ends with an output carrying the input's UUID, and a flag raised before the first check ends the run interrupted with no cause |
| Orchestrator.RunFromShape | pipe/src/main/java/com/udeyrishi/pipe/internal/Orchestrator.kt:96-147 | a run always posts a state, and its last state says how it ended: `Success` exactly when it completed, a `Failure` holding the out-of-attempts or interruption cause, or the step's `AttemptSuccessful` when the cursor threw IllegalArgumentException |
| Orchestrator.AttemptsFollowDiagram | pipe/src/main/java/com/udeyrishi/pipe/internal/Orchestrator.kt:149-195 | every state `runStep` posts is an edge of the job state diagram from the one before |
| Orchestrator.RunFollowsDiagram | pipe/src/main/java/com/udeyrishi/pipe/internal/Orchestrator.kt:96-147 | from `Scheduled`, every state a whole run posts follows the state diagram, so none of the state machine's calls throws |
| Orchestrator.RunFromFollowsDiagram | pipe/src/main/java/com/udeyrishi/pipe/internal/Orchestrator.kt:104-123 | from any state between steps, the states of the rest of the run follow the state diagram |
| Orchestrator.ExhaustedIffEveryAttemptThrew | pipe/src/main/java/com/udeyrishi/pipe/internal/Orchestrator.kt:149-165 | a step runs out of attempts exactly when every attempt threw before any interruption, and then it posted two states per attempt, the last recording the last attempt's exception |
| Orchestrator.HappyRun | pipe/src/main/java/com/udeyrishi/pipe/internal/Orchestrator.kt:96-129 | with no interruption and every first attempt producing an output with the same UUID, the run posts `Attempting` and `AttemptSuccessful` per step in order and then `Success`, and its result is the chained output |
| Orchestrator.HappyRunFrom | pipe/src/main/java/com/udeyrishi/pipe/internal/Orchestrator.kt:104-123 | the same from any step on |
| Orchestrator.InterruptedBeforeStep | pipe/src/main/java/com/udeyrishi/pipe/internal/Orchestrator.kt:149-156 | an interruption raised before a step starts fails the job after one `Attempting`, with the attempt's StepInterruptedException inside the OrchestratorInterruptedException |
| Orchestrator.Effective | pipe/src/main/java/com/udeyrishi/pipe/internal/Orchestrator.kt:83-102 | a flag already raised when the run starts is seen by every check; otherwise the checks see the concurrent interruption |
| Orchestrator.Cursor.NextStep | pipe/src/main/java/com/udeyrishi/pipe/internal/Orchestrator.kt:248-250 | the next step exists exactly while steps remain, and is the step at the cursor's position |
| Orchestrator.Cursor.Move | pipe/src/main/java/com/udeyrishi/pipe/internal/Orchestrator.kt:252-258 | an input with another UUID throws IllegalArgumentException and changes nothing; otherwise it becomes the input and the cursor advances unless exhausted |
| Orchestrator.OrchestratorImpl.constructor | pipe/src/main/java/com/udeyrishi/pipe/internal/Orchestrator.kt:61-69 | a new orchestrator is `Scheduled`, has posted that state once, is neither started nor interrupted and has no result |
| Orchestrator.OrchestratorImpl.Start | pipe/src/main/java/com/udeyrishi/pipe/internal/Orchestrator.kt:71-81 | only the first call marks the job started and launches the run |
| Orchestrator.OrchestratorImpl.Interrupt | pipe/src/main/java/com/udeyrishi/pipe/internal/Orchestrator.kt:83-94 | raises the flag; a started job keeps its state and has its next step interrupted; a job not yet started becomes started, keeps a null result and fails at once with OrchestratorInterruptedException |
| Orchestrator.OrchestratorImpl.RunAllSteps | pipe/src/main/java/com/udeyrishi/pipe/internal/Orchestrator.kt:96-123 | the states posted and the ending are exactly those of the run specification for the job's steps and input; only a completed run stores a result; only running out of attempts is reported to the failure listener; the job stays within the diagram |
| Orchestrator.OrchestratorImpl.Advance | pipe/src/main/java/com/udeyrishi/pipe/internal/Orchestrator.kt:104-122 | one pass of the loop either ends the job as the run specification says or moves the cursor one step on with the rest of the run unchanged |
| Orchestrator.OrchestratorImpl.RunStep | pipe/src/main/java/com/udeyrishi/pipe/internal/Orchestrator.kt:149-165 | the step's result, its checks and the states it posts are exactly those of the step specification |
| Orchestrator.OrchestratorImpl.AttemptOnce | pipe/src/main/java/com/udeyrishi/pipe/internal/Orchestrator.kt:150-161 | one attempt either ends the step as the step specification says or leaves an `AttemptFailed` from which the remaining attempts make the rest of the step |
| Orchestrator.OrchestratorImpl.CheckInterruption | pipe/src/main/java/com/udeyrishi/pipe/internal/Orchestrator.kt:167-175 | a raised flag fails the attempt with StepInterruptedException for that step and attempt; otherwise nothing changes |
| Orchestrator.OrchestratorImpl.DoStepAttempt | pipe/src/main/java/com/udeyrishi/pipe/internal/Orchestrator.kt:177-195 | an output ticks to `AttemptSuccessful`; null fails the attempt as interrupted and raises the flag; an exception fails it with StepFailureException holding the attempt index and the exception |
| Orchestrator.OrchestratorImpl.OnStepResultNull | pipe/src/main/java/com/udeyrishi/pipe/internal/Orchestrator.kt:131-147 | fails the job with the last attempt's cause wrapped in OrchestratorInterruptedException or StepOutOfAttemptsException, and reports only the latter to the failure listener |
| Orchestrator.OrchestratorImpl.OnResultPrepared | pipe/src/main/java/com/udeyrishi/pipe/internal/Orchestrator.kt:125-129 | stores the result once and ticks the job to `Success` |
| CoreOrchestrator.Recover | pipecore/src/main/java/com/udeyrishi/pipe/Orchestrator.kt:255-263 | the handler for a throwing listener always reaches `Failure`: a failed job gains the thrown cause once, and a job in `Attempting` records it twice, so the rethrow is unreachable |
| CoreOrchestrator.FailOn | pipecore/src/main/java/com/udeyrishi/pipe/Orchestrator.kt:242-270 | `onStateFailure` always leaves `AttemptFailed` or `Failure` holding the cause, even when a listener throws; when no listener throws the state is the state machine's failure tick |
| CoreOrchestrator.RoundKeepsCause | pipecore/src/main/java/com/udeyrishi/pipe/Orchestrator.kt:248-270 | a notification round, whatever its listeners throw, keeps a cause that the failed state already holds |
| CoreOrchestrator.Attempts | pipecore/src/main/java/com/udeyrishi/pipe/Orchestrator.kt:104-164 | an output a step ends with is one that some remaining attempt produced; a step that ends interrupted made at least one check, and its last check saw the flag |
| CoreOrchestrator.RunFrom | pipecore/src/main/java/com/udeyrishi/pipe/Orchestrator.kt:61-102 | a run that completes ends with an output carrying the input's UUID |
| CoreOrchestrator.NotifyFrom | pipecore/src/main/java/com/udeyrishi/pipe/Orchestrator.kt:248-270 | a round in which every listener returned keeps the state; a round cut short by a throwing listener leaves the job at `Failure` |
| CoreOrchestrator.SucceedOn | pipecore/src/main/java/com/udeyrishi/pipe/Orchestrator.kt:236-240 | `onStateSuccess` throws exactly when the state machine's `onSuccess` does |
| CoreOrchestrator.NotifyFromShape | pipecore/src/main/java/com/udeyrishi/pipe/Orchestrator.kt:248-270 | a round only appends callbacks, one per listener in subscription order, each with the same uuid, previous and current state; it completes exactly when no callback threw, and otherwise stops right after the first throwing one with the state recovered to `Failure` |
| CoreOrchestrator.AttemptsShape | pipecore/src/main/java/com/udeyrishi/pipe/Orchestrator.kt:104-164 | a step makes at most one check per attempt, never ends with both an output and an interruption, ends with an output only at its own `AttemptSuccessful`, and otherwise at its `AttemptFailed` or at `Failure` |
| CoreOrchestrator.QuietRound | pipecore/src/main/java/com/udeyrishi/pipe/Orchestrator.kt:248-270 | with listeners that never throw, a round calls every listener and keeps the state |
| CoreOrchestrator.AttemptsExhausted | pipecore/src/main/java/com/udeyrishi/pipe/Orchestrator.kt:104-129 | with quiet listeners and no interruption, a step whose attempts all throw makes every attempt, ends with null at the failure of its last attempt, and makes two callbacks per attempt per listener |
| CoreOrchestrator.OutOfAttemptsRecordsBothCauses | pipecore/src/main/java/com/udeyrishi/pipe/Orchestrator.kt:93-102 | a step that runs out of attempts fails the job with exactly two causes: the last attempt's StepFailureException and then StepOutOfAttemptsException |
| CoreOrchestrator.HappyRunFrom | pipecore/src/main/java/com/udeyrishi/pipe/Orchestrator.kt:61-91 | with quiet listeners, no interruption and every first attempt producing an output with the same UUID, the run completes at `Success` with the chained output, and each listener receives two callbacks per step plus one for the completion |
| CoreOrchestrator.InterruptedBeforeFirstAttempt | pipecore/src/main/java/com/udeyrishi/pipe/Orchestrator.kt:104-143 | a job interrupted before its first check fails with StepInterruptedException for attempt 0 of its first step and then OrchestratorInterruptedException, with three callbacks per listener and no call to the step |
| CoreOrchestrator.StopsAtFaultChain | pipecore/src/main/java/com/udeyrishi/pipe/Orchestrator.kt:104-129 | two stretches of a run that each stop at a throwing listener, the first ending without one, make one stretch that does |
| CoreOrchestrator.RoundStopsAtFault | pipecore/src/main/java/com/udeyrishi/pipe/Orchestrator.kt:248-270 | a round makes no callback after a throwing one, and reports failure when its last callback threw |
| CoreOrchestrator.AttemptsStopAtFault | pipecore/src/main/java/com/udeyrishi/pipe/Orchestrator.kt:104-129 | a step makes no callback after a throwing one, and a step cut short by one ends with null |
| CoreOrchestrator.AttemptTailStopsAtFault | pipecore/src/main/java/com/udeyrishi/pipe/Orchestrator.kt:113-125 | the part of an attempt after its `Attempting` round makes no callback after a throwing one, and then ends the step with null |
| CoreOrchestrator.FailedAttemptStopsAtFault | pipecore/src/main/java/com/udeyrishi/pipe/Orchestrator.kt:113-125 | after a step threw, the failure tick and the attempts after it make no callback after a throwing one, and a step cut short by one ends with null |
| CoreOrchestrator.StepEndStopsAtFault | pipecore/src/main/java/com/udeyrishi/pipe/Orchestrator.kt:61-102 | when a step ends the run, with null or with an output under another UUID, no callback follows a throwing one and the run does not crash because of it |
| CoreOrchestrator.RunStopsAtFault | pipecore/src/main/java/com/udeyrishi/pipe/Orchestrator.kt:36-102 | a throwing listener stops the job: no callback follows it, the job is then at `Failure`, and the run does not crash |
| CoreOrchestrator.RemoveFirstAt | pipecore/src/main/java/com/udeyrishi/pipe/Orchestrator.kt:224-228 | removing a listener cuts the list at its first subscription |
| CoreOrchestrator.RemoveFirstShape | pipecore/src/main/java/com/udeyrishi/pipe/Orchestrator.kt:224-228 | an unsubscribed listener leaves the list as it is; a subscribed one loses exactly one subscription and the others stay |
| CoreOrchestrator.StateHolder.constructor | pipecore/src/main/java/com/udeyrishi/pipe/Orchestrator.kt:212-216 | a new holder is `Scheduled` with no listeners |
| CoreOrchestrator.StateHolder.Subscribe | pipecore/src/main/java/com/udeyrishi/pipe/Orchestrator.kt:218-222 | appends the listener and changes nothing else |
| CoreOrchestrator.StateHolder.Unsubscribe | pipecore/src/main/java/com/udeyrishi/pipe/Orchestrator.kt:224-228 | returns whether the listener was subscribed and removes its first subscription, changing nothing else |
| CoreOrchestrator.StateHolder.UnsubscribeAll | pipecore/src/main/java/com/udeyrishi/pipe/Orchestrator.kt:230-234 | empties the listener list and changes nothing else |
| CoreOrchestrator.StateHolder.OnStateSuccess | pipecore/src/main/java/com/udeyrishi/pipe/Orchestrator.kt:236-240 | the new state, the callbacks made and the returned flag are those of the success tick and its round; the listener list is kept |
| CoreOrchestrator.StateHolder.OnStateFailure | pipecore/src/main/java/com/udeyrishi/pipe/Orchestrator.kt:242-246 | the new state, the callbacks made and the returned flag are those of the failure tick and its round |
| CoreOrchestrator.StateHolder.NotifyStateChangeListeners | pipecore/src/main/java/com/udeyrishi/pipe/Orchestrator.kt:248-270 | the loop over the listeners makes exactly the callbacks and state changes of the round specification and returns whether every listener returned |
| CoreOrchestrator.CoreOrchestratorImpl.constructor | pipecore/src/main/java/com/udeyrishi/pipe/Orchestrator.kt:22-34 | a new orchestrator is `Scheduled`, neither started nor interrupted, has no listeners and no result |
| CoreOrchestrator.CoreOrchestratorImpl.Start | pipecore/src/main/java/com/udeyrishi/pipe/Orchestrator.kt:43-53 | a second start throws IllegalStateException; the first marks the job started and launches the run |
| CoreOrchestrator.CoreOrchestratorImpl.Interrupt | pipecore/src/main/java/com/udeyrishi/pipe/Orchestrator.kt:55-59 | raises the set-once interruption flag, and leaves it untouched when already raised |
| CoreOrchestrator.CoreOrchestratorImpl.Subscribe | pipecore/src/main/java/com/udeyrishi/pipe/Orchestrator.kt:39 | appends the listener to the holder and changes nothing else |
| CoreOrchestrator.CoreOrchestratorImpl.Unsubscribe | pipecore/src/main/java/com/udeyrishi/pipe/Orchestrator.kt:40 | returns whether the listener was subscribed and removes its first subscription |
| CoreOrchestrator.CoreOrchestratorImpl.UnsubscribeAll | pipecore/src/main/java/com/udeyrishi/pipe/Orchestrator.kt:41 | empties the listener list |
| CoreOrchestrator.CoreOrchestratorImpl.RunAllSteps | pipecore/src/main/java/com/udeyrishi/pipe/Orchestrator.kt:61-81 | the final state, every callback made and the ending are exactly those of the run specification; only a completed run stores the result |
| CoreOrchestrator.CoreOrchestratorImpl.Advance | pipecore/src/main/java/com/udeyrishi/pipe/Orchestrator.kt:62-80 | one pass of the loop either ends the job as the run specification says or moves the cursor one step on with the rest of the run unchanged |
| CoreOrchestrator.CoreOrchestratorImpl.RunStep | pipecore/src/main/java/com/udeyrishi/pipe/Orchestrator.kt:104-129 | the step's result, its checks, the state and the callbacks are exactly those of the step specification |
| CoreOrchestrator.CoreOrchestratorImpl.AttemptOnce | pipecore/src/main/java/com/udeyrishi/pipe/Orchestrator.kt:105-126 | one attempt either ends the step as the step specification says or leaves a state from which the remaining attempts make the rest of the step |
| CoreOrchestrator.CoreOrchestratorImpl.CheckInterruption | pipecore/src/main/java/com/udeyrishi/pipe/Orchestrator.kt:131-143 | a raised flag fails the attempt with StepInterruptedException for that step and attempt; otherwise nothing changes |
| CoreOrchestrator.CoreOrchestratorImpl.DoStepAttempt | pipecore/src/main/java/com/udeyrishi/pipe/Orchestrator.kt:145-164 | an output ticks to success, an exception fails the attempt with StepFailureException; a throwing listener on either tick makes the result fatal |
| CoreOrchestrator.CoreOrchestratorImpl.OnStepResultNull | pipecore/src/main/java/com/udeyrishi/pipe/Orchestrator.kt:93-102 | a job a listener already failed is left as it is; otherwise it fails with OrchestratorInterruptedException or StepOutOfAttemptsException; either way it ends at `Failure` |
| CoreOrchestrator.CoreOrchestratorImpl.OnResultPrepared | pipecore/src/main/java/com/udeyrishi/pipe/Orchestrator.kt:83-91 | stores the result once and ticks to `Success`, or to `Failure` when a listener throws on that tick |

## Left out

- Coroutines, `suspendCoroutine`, `GlobalScope.launch`, `synchronized` locks and LiveData posting are not modelled: only the sequential state they update is. A concurrent `interrupt()` during a run is the `interruptAt` parameter, and the lift that the counted controller launches on a coroutine is the separate `FinalInputPushed` method, called by whoever sees `launch` come back true.
- Loggers, `toString` and the exceptions' messages are left out; an exception is modelled by its kind and its recorded cause.
- A barrier's constructor calls `onBarrierCreated` on its controller. That call is modelled by the controllers' `OnBarrierCreated` methods, not inside `Barrier.BarrierImpl.constructor`.
- Barriers and listeners are identified by number. Object identity, and the same listener object subscribed twice, are modelled by equal numbers.
- CountedBarrierController.CountedBarrierControllerImpl.OnBarrierInterrupted: the source interrupts the other barriers while iterating over its map, and each `interrupt()` calls back into `onBarrierInterrupted`. That re-entrant call, and the ConcurrentModificationException it could raise, are not modelled: the commands are returned and take effect after the map is emptied, where the nested calls are no-ops.
- CountedBarrierController.CountedBarrierControllerImpl.FinalInputPushed: the class keeps the sort replayer as written. The corrected result mapping is `LiftResultsRanked`, proved on its own.
- Barrier.BarrierImpl.MarkAsFailed: the class keeps `markAsFailed` as written. The corrected behaviour is the function `MarkAsFailedReleasing`.
- The sort in the counted controller is `List.sorted()` on the inputs' natural order. It is a function parameter, and the lemmas state what they need of it (a reordering of the inputs).
- The set-once delegates (`started`, `interrupted`, `lifted`, `result`) are `ImmutableAfterSet` cells. The orchestrators guard every write, so their second-write exception is never raised.
- The `sanityCheck` calls in both orchestrators throw IllegalStateException on an unexpected state. The model proves the expected state at each of them, so they are not modelled as error paths.
- Older and duplicate variants are not part of this model: the intermediate pipe Orchestrator, the older barrier controllers, the blocking barrier steps and aggregators, `Tracker.kt`, `States.kt`, the pipeline builders, `StepDescriptor` (its only check, `maxAttempts > 0`, is the `WellFormed` precondition) and the Android, network and sample code.
- A throwing listener stops execution and the job ends in `Failure`, as the KDoc at pipecore/src/main/java/com/udeyrishi/pipe/Orchestrator.kt:35-37 says; `CoreOrchestrator.RunStopsAtFault` proves it.
- `subscribe` (pipecore/src/main/java/com/udeyrishi/pipe/Orchestrator.kt:218-222) accepts a listener at any time, and so does the model.
- CoreOrchestrator.StateHolder.NotifyStateChangeListeners: each delivered state is logged as a snapshot value. The source hands every listener the shared `Failure` object, and `Failure.onFailure` appends to its `_causes` in place (pipe/src/main/java/com/udeyrishi/pipe/state/State.kt:83-86), so a state an earlier listener received can change afterwards; that sharing is not modelled.
- CoreRepository.InMemoryRepository.Add: the model indexes the UUID it generated, where the source indexes `entry.uuid` of the orchestrator the builder returns (pipecore/src/main/java/com/udeyrishi/pipe/repository/InMemoryRepository.kt:18-24). The model assumes the builder keeps the UUID it is handed, which holds at the only caller, `push` (pipecore/src/main/java/com/udeyrishi/pipe/Pipeline.kt:14-19), which builds `Passenger(input, newUUID, position)`. `CoreRepository.AddedUuidsAreFresh` rests on this assumption.
- The oldest generation's state test contradicts its source; the model follows the source.

## Findings

| source | as written | input that shows it | evidently intended | confidence | as-written member | corrected member |
|---|---|---|---|---|---|---|
| pipe/src/main/java/com/udeyrishi/pipe/repository/InMemoryRepository.kt:46-55 | `removeIf` (and pipecore's `prune`, pipecore/src/main/java/com/udeyrishi/pipe/repository/InMemoryRepository.kt:52-71) removes entries from the list and their UUIDs from the index, but does not re-index the survivors | store a, b, c, then remove a: the index still sends b to position 1, which now holds c, and c to position 2, past the end, so `get` returns the wrong entry or throws IndexOutOfBoundsException | after a removal every stored UUID maps to its entry's new position | high (proved in the model; not executed) | RepositoryIndex.StaleIndexAfterRemoval | Repository.InMemoryRepository.RemoveIfReindexing |
| pipe/src/main/java/com/udeyrishi/pipe/internal/barrier/Barrier.kt:120-154 | after `markAsFailed` resumes the suspended `invoke` with the error, `reset()` keeps that spent continuation | invoke a fresh barrier, mark it as failed, then interrupt or lift it before the next invoke: the spent continuation is resumed again, which throws IllegalStateException out of `interrupt()`/`lift()` | the reset barrier takes the next attempt like a fresh one | medium (proved in the model; not executed) | Barrier.MarkAsFailedKeepsSpentContinuation | Barrier.ReleasingKeepsCoherent |
| pipe/src/main/java/com/udeyrishi/pipe/internal/util/SortReplayer.kt:18-42 | the position map is built with `toMap`, so equal elements all map to the last sorted position holding them | original `[5, 5]`: the map is `[1, 1]`, so applying it throws NullPointerException, and the counted controller with an action answering `[1, 2]` lifts both barriers with 2 and drops 1 | each element, equal ones included, keeps its own position, so each barrier gets its own output | medium (proved in the model; not executed; through `Pipeline` the inputs are `Passenger` objects with identity equality and a unique UUID, pipe/src/main/java/com/udeyrishi/pipe/Pipeline.kt:116, so only direct use of the controller or replayer with equal inputs reaches it) | RankedReplayer.RepeatedElementCounterexample | RankedReplayer.RankedRoundTrip |
