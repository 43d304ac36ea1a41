/** The in-memory repository of the middle generation
    (pipecore/src/main/java/com/udeyrishi/pipe/repository/InMemoryRepository.kt):
    the repository picks a fresh UUID for each new orchestrator, and pruning
    drops the orchestrators that have finished. */
module CoreRepository {
  import opened Common
  import opened RepositoryIndex
  import CausesState

  /** The first of the random candidates that the index does not know. */
  function FirstUnused(draws: seq<Uuid>, index: map<Uuid, nat>): (u: Uuid)
    requires exists k :: 0 <= k < |draws| && draws[k] !in index
    ensures u !in index
    ensures exists k :: 0 <= k < |draws| && draws[k] == u && forall j :: 0 <= j < k ==> draws[j] in index
  {
    if draws[0] !in index then draws[0]
    else
      var rest := draws[1..];
      assert exists k :: 0 <= k < |rest| && rest[k] !in index by {
        var k :| 0 <= k < |draws| && draws[k] !in index;
        assert rest[k - 1] == draws[k];
      }
      var u := FirstUnused(rest, index);
      ghost var k :| 0 <= k < |rest| && rest[k] == u && forall j :: 0 <= j < k ==> rest[j] in index;
      assert draws[k + 1] == u && forall j :: 0 <= j < k + 1 ==> draws[j] in index by {
        assert forall j :: 1 <= j < k + 1 ==> draws[j] == rest[j - 1];
      }
      u
  }

  /** Whether `prune(removeFailures)` drops an orchestrator in this state:
      a success always, a failure when asked to, and a running or scheduled
      one never. */
  predicate ShouldRemove(state: CausesState.State, removeFailures: bool) {
    match state
    case Success => true
    case Failure(_) => removeFailures
    case _ => false
  }

  /** The entries `prune` removes, given the current state of each entry's
      orchestrator. */
  function Finished<O>(stateOf: O -> CausesState.State, removeFailures: bool): Entry<O> -> bool {
    (e: Entry<O>) => ShouldRemove(stateOf(e.payload), removeFailures)
  }

  class InMemoryRepository<O> {
    var entries: seq<Entry<O>>
    var uuidIndex: map<Uuid, nat>

    /** The index invariant; `Prune` as written does not keep it. */
    ghost predicate Valid()
      reads this
    {
      Indexed(entries, uuidIndex)
    }

    constructor ()
      ensures Valid() && entries == [] && uuidIndex == map[]
    {
      entries := [];
      uuidIndex := map[];
    }

    /** `generateUuid()`: draws random UUIDs until one is not in the index.
        The draws are a parameter; the loop ends on the first unused one. */
    method GenerateUuid(draws: seq<Uuid>) returns (u: Uuid)
      requires exists k :: 0 <= k < |draws| && draws[k] !in uuidIndex
      ensures u == FirstUnused(draws, uuidIndex)
    {
      var k := 0;
      u := draws[0];
      while u in uuidIndex
        invariant 0 <= k < |draws| && u == draws[k]
        invariant forall j :: 0 <= j < k ==> draws[j] in uuidIndex
        decreases |draws| - k
      {
        k := k + 1;
        u := draws[k];
      }
      FirstUnusedIsFirst(draws, uuidIndex, k);
    }

    /** `add(tag, orchestratorBuilder)`: builds the orchestrator with a fresh
        UUID and the current number of entries as its position, then appends
        and indexes it. The builder gives the orchestrator the UUID it is
        handed. */
    method Add(tag: Option<string>, build: (Uuid, nat) -> O, draws: seq<Uuid>) returns (o: O)
      requires exists k :: 0 <= k < |draws| && draws[k] !in uuidIndex
      modifies this
      ensures var u := FirstUnused(draws, old(uuidIndex));
        && o == build(u, |old(entries)|)
        && entries == old(entries) + [Entry(u, o, tag)]
        && uuidIndex == old(uuidIndex)[u := |old(entries)|]
      ensures old(Valid()) ==> Valid()
      ensures old(Valid()) ==> Get(FirstUnused(draws, old(uuidIndex))) == Ok(Some(Entry(FirstUnused(draws, old(uuidIndex)), o, tag)))
    {
      var u := GenerateUuid(draws);
      o := build(u, |entries|);
      if Valid() {
        AddKeepsIndexed(entries, uuidIndex, Entry(u, o, tag), u);
      }
      entries := entries + [Entry(u, o, tag)];
      uuidIndex := uuidIndex[u := |entries| - 1];
    }

    /** `get(uuid)`: under the index invariant, the entry with that UUID, or
        null when there is none. */
    function Get(uuid: Uuid): (r: Result<Option<Entry<O>>>)
      reads this
      ensures Valid() ==>
        && r.Ok?
        && (r.value.Some? <==> exists i :: 0 <= i < |entries| && entries[i].uuid == uuid)
        && (r.value.Some? ==> r.value.value.uuid == uuid && r.value.value in entries)
    {
      Lookup(entries, uuidIndex, uuid)
    }

    /** `get(tag)`: the entries added with an equal tag, in insertion order. */
    function GetByTag(tag: Option<string>): (r: seq<Entry<O>>)
      reads this
      ensures forall i :: 0 <= i < |r| ==> r[i] in entries && r[i].tag == tag
      ensures forall i :: 0 <= i < |entries| && entries[i].tag == tag ==> entries[i] in r
    {
      Filter(entries, (e: Entry<O>) => e.tag == tag)
    }

    /** `prune(removeFailures)`: walks the list with an iterator, removing each
        finished orchestrator from the list and its UUID from the index.
        Positions of the survivors are not updated in the index. */
    method Prune(removeFailures: bool, stateOf: O -> CausesState.State)
      modifies this
      ensures entries == Survivors(old(entries), Finished(stateOf, removeFailures))
      ensures uuidIndex == IndexAfterRemoval(old(entries), old(uuidIndex), Finished(stateOf, removeFailures))
    {
      RemoveWhere(Finished(stateOf, removeFailures));
    }

    /** The iterator walk of `prune`, for any removal predicate. */
    method RemoveWhere(remove: Entry<O> -> bool)
      modifies this
      ensures entries == Survivors(old(entries), remove)
      ensures uuidIndex == IndexAfterRemoval(old(entries), old(uuidIndex), remove)
    {
      entries, uuidIndex := WalkRemoving(entries, uuidIndex, remove);
    }

    /** The pruning the index invariant needs: the same walk, followed by
        indexing every survivor at its new position. */
    method PruneReindexing(removeFailures: bool, stateOf: O -> CausesState.State)
      modifies this
      ensures entries == Survivors(old(entries), Finished(stateOf, removeFailures))
      ensures uuidIndex == Reindexed(entries)
      ensures old(Valid()) ==> Valid()
    {
      ghost var wasValid := Valid();
      ghost var index := uuidIndex;
      Prune(removeFailures, stateOf);
      Reindex();
      if wasValid {
        CorrectedRemovalKeepsIndexed(old(entries), index, Finished(stateOf, removeFailures), 0);
      }
    }

    /** Rebuilds the index from the list. */
    method Reindex()
      modifies this
      ensures entries == old(entries) && uuidIndex == Reindexed(entries)
    {
      uuidIndex := BuildIndex(entries);
    }
  }

  lemma {:induction false} FirstUnusedIsFirst(draws: seq<Uuid>, index: map<Uuid, nat>, k: nat)
    requires k < |draws| && draws[k] !in index
    requires forall j :: 0 <= j < k ==> draws[j] in index
    ensures FirstUnused(draws, index) == draws[k]
  {
    if k > 0 {
      FirstUnusedIsFirst(draws[1..], index, k - 1);
    }
  }

  /** What pruning keeps: every scheduled or running orchestrator, a failed
      one exactly when failures are kept, and never a successful one. */
  lemma PruneKeepsExactlyUnfinished<O>(entries: seq<Entry<O>>, removeFailures: bool, stateOf: O -> CausesState.State, e: Entry<O>)
    requires e in entries
    ensures var kept := Survivors(entries, Finished(stateOf, removeFailures));
      && (!stateOf(e.payload).IsTerminal() ==> e in kept)
      && (stateOf(e.payload).Success? ==> e !in kept)
      && (stateOf(e.payload).Failure? ==> (e in kept <==> !removeFailures))
  {
    var remove := Finished(stateOf, removeFailures);
    var kept := Survivors(entries, remove);
    if e in kept {
      var i :| 0 <= i < |kept| && kept[i] == e;
      assert Kept(remove)(kept[i]);
    }
    if !remove(e) {
      var i :| 0 <= i < |entries| && entries[i] == e;
      assert Kept(remove)(entries[i]);
    }
  }

  /** Under the index invariant, the generated UUID is not the UUID of any
      stored orchestrator. */
  lemma AddedUuidsAreFresh<O>(entries: seq<Entry<O>>, index: map<Uuid, nat>, draws: seq<Uuid>)
    requires Indexed(entries, index)
    requires exists k :: 0 <= k < |draws| && draws[k] !in index
    ensures forall i :: 0 <= i < |entries| ==> entries[i].uuid != FirstUnused(draws, index)
  {
  }
}
