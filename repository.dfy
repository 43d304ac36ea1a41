/** The in-memory repository of the latest generation
    (pipe/src/main/java/com/udeyrishi/pipe/repository/InMemoryRepository.kt):
    items are added under their own UUID with an optional tag, looked up by
    UUID, by tag or by predicate, and removed by predicate. */
module Repository {
  import opened Common
  import opened RepositoryIndex

  class InMemoryRepository<T> {
    var entries: seq<Entry<T>>
    var uuidIndex: map<Uuid, nat>

    /** The index invariant; `RemoveIf` as written does not keep it. */
    ghost predicate Valid()
      reads this
    {
      Indexed(entries, uuidIndex)
    }

    constructor ()
      ensures Valid() && entries == [] && uuidIndex == map[]
    {
      entries := [];
      uuidIndex := map[];
    }

    /** `add(tag, entry)`: a UUID already in the index throws
        DuplicateUUIDException and changes nothing; otherwise the entry is
        appended and indexed at its position. */
    method Add(tag: Option<string>, item: T, uuid: Uuid) returns (r: Outcome)
      modifies this
      ensures r.Fail? <==> uuid in old(uuidIndex)
      ensures r.Fail? ==> r.error == DuplicateUuid(uuid) && entries == old(entries) && uuidIndex == old(uuidIndex)
      ensures r.Pass? ==>
        && entries == old(entries) + [Entry(uuid, item, tag)]
        && uuidIndex == old(uuidIndex)[uuid := |old(entries)|]
      ensures old(Valid()) ==> Valid()
      ensures old(Valid()) && r.Pass? ==> Get(uuid) == Ok(Some(Entry(uuid, item, tag)))
    {
      if uuid in uuidIndex {
        return Fail(DuplicateUuid(uuid));
      }
      if Valid() {
        AddKeepsIndexed(entries, uuidIndex, Entry(uuid, item, tag), uuid);
      }
      entries := entries + [Entry(uuid, item, tag)];
      uuidIndex := uuidIndex[uuid := |entries| - 1];
      return Pass;
    }

    /** `get(uuid)`: under the index invariant, the entry with that UUID, or
        null when there is none. */
    function Get(uuid: Uuid): (r: Result<Option<Entry<T>>>)
      reads this
      ensures Valid() ==>
        && r.Ok?
        && (r.value.Some? <==> exists i :: 0 <= i < |entries| && entries[i].uuid == uuid)
        && (r.value.Some? ==> r.value.value.uuid == uuid && r.value.value in entries)
    {
      Lookup(entries, uuidIndex, uuid)
    }

    /** `getMatching(predicate)`: the matching entries, in insertion order. */
    function GetMatching(p: Entry<T> -> bool): (r: seq<Entry<T>>)
      reads this
      ensures forall i :: 0 <= i < |r| ==> r[i] in entries && p(r[i])
      ensures forall i :: 0 <= i < |entries| && p(entries[i]) ==> entries[i] in r
    {
      Filter(entries, p)
    }

    /** `get(tag)`: the entries added with an equal tag, in insertion order. */
    function GetByTag(tag: Option<string>): (r: seq<Entry<T>>)
      reads this
      ensures forall i :: 0 <= i < |r| ==> r[i] in entries && r[i].tag == tag
      ensures forall i :: 0 <= i < |entries| && entries[i].tag == tag ==> entries[i] in r
    {
      GetMatching((e: Entry<T>) => e.tag == tag)
    }

    /** `removeIf(predicate)`: walks the list with an iterator, removing each
        matching entry from the list and its UUID from the index. Positions
        of the survivors are not updated in the index. */
    method RemoveIf(remove: Entry<T> -> bool)
      modifies this
      ensures entries == Survivors(old(entries), remove)
      ensures uuidIndex == IndexAfterRemoval(old(entries), old(uuidIndex), remove)
    {
      entries, uuidIndex := WalkRemoving(entries, uuidIndex, remove);
    }

    /** The removal the index invariant needs: the same walk, followed by
        indexing every survivor at its new position. */
    method RemoveIfReindexing(remove: Entry<T> -> bool)
      modifies this
      ensures entries == Survivors(old(entries), remove)
      ensures uuidIndex == Reindexed(entries)
      ensures old(Valid()) ==> Valid()
    {
      ghost var wasValid := Valid();
      ghost var index := uuidIndex;
      RemoveIf(remove);
      Reindex();
      if wasValid {
        CorrectedRemovalKeepsIndexed(old(entries), index, remove, 0);
      }
    }

    /** Rebuilds the index from the list. */
    method Reindex()
      modifies this
      ensures entries == old(entries) && uuidIndex == Reindexed(entries)
    {
      uuidIndex := BuildIndex(entries);
    }
  }

  /** After adding under a new UUID, a tag group ends with the new entry if
      it has that tag and is unchanged otherwise. */
  lemma AddAppendsToTagGroup<T>(entries: seq<Entry<T>>, e: Entry<T>, tag: Option<string>)
    ensures Filter(entries + [e], (x: Entry<T>) => x.tag == tag) ==
      Filter(entries, (x: Entry<T>) => x.tag == tag) + (if e.tag == tag then [e] else [])
  {
    AddAppendsToMatches(entries, e, (x: Entry<T>) => x.tag == tag);
  }

  /** Removal keeps exactly the entries the predicate rejects, in order. */
  lemma RemoveIfKeepsExactlyRejected<T>(entries: seq<Entry<T>>, remove: Entry<T> -> bool, e: Entry<T>)
    ensures e in Survivors(entries, remove) <==> e in entries && !remove(e)
  {
    var kept := Survivors(entries, remove);
    if e in kept {
      var i :| 0 <= i < |kept| && kept[i] == e;
      assert Kept(remove)(kept[i]);
    }
    if e in entries && !remove(e) {
      var i :| 0 <= i < |entries| && entries[i] == e;
      assert Kept(remove)(entries[i]);
    }
  }
}
