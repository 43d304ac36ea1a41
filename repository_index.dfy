/** The storage both in-memory repositories share
    (pipe/src/main/java/com/udeyrishi/pipe/repository/InMemoryRepository.kt
    and pipecore/src/main/java/com/udeyrishi/pipe/repository/InMemoryRepository.kt):
    an array list of entries in insertion order, and a hash map from each
    entry's UUID to its position in that list. */
module RepositoryIndex {
  import opened Common

  /** A stored entry: the item (or the orchestrator running it), the UUID it
      is known by, and its optional tag. */
  datatype Entry<T> = Entry(uuid: Uuid, payload: T, tag: Option<string>)

  /** The index invariant: the map sends the UUID of every entry to that
      entry's position, and knows no other UUID. */
  ghost predicate Indexed<T>(entries: seq<Entry<T>>, index: map<Uuid, nat>) {
    && (forall i :: 0 <= i < |entries| ==> entries[i].uuid in index && index[entries[i].uuid] == i)
    && (forall u :: u in index ==> index[u] < |entries| && entries[index[u]].uuid == u)
  }

  /** `uuidIndex[uuid]?.let { entries[it] }`: null for an unknown UUID, and
      an IndexOutOfBoundsException for a position past the end of the list. */
  function Lookup<T>(entries: seq<Entry<T>>, index: map<Uuid, nat>, uuid: Uuid): (r: Result<Option<Entry<T>>>)
    ensures Indexed(entries, index) ==>
      && r.Ok?
      && (r.value.Some? <==> exists i :: 0 <= i < |entries| && entries[i].uuid == uuid)
      && (r.value.Some? ==> r.value.value.uuid == uuid && r.value.value in entries)
  {
    if uuid !in index then Ok(None)
    else if index[uuid] < |entries| then Ok(Some(entries[index[uuid]]))
    else Err(IndexOutOfBounds)
  }

  /** The UUIDs of some entries. */
  function UuidsOf<T>(entries: seq<Entry<T>>): (r: set<Uuid>)
    ensures forall i :: 0 <= i < |entries| ==> entries[i].uuid in r
    ensures forall u :: u in r ==> exists i :: 0 <= i < |entries| && entries[i].uuid == u
  {
    if entries == [] then {}
    else
      assert forall i :: 1 <= i < |entries| ==> entries[i] == entries[1..][i - 1];
      {entries[0].uuid} + UuidsOf(entries[1..])
  }

  /** Adding an entry under a UUID the index does not know keeps the index
      invariant; the new entry is found under its UUID and every other
      lookup is unchanged. */
  lemma AddKeepsIndexed<T>(entries: seq<Entry<T>>, index: map<Uuid, nat>, e: Entry<T>, other: Uuid)
    requires Indexed(entries, index) && e.uuid !in index
    ensures Indexed(entries + [e], index[e.uuid := |entries|])
    ensures Lookup(entries + [e], index[e.uuid := |entries|], e.uuid) == Ok(Some(e))
    ensures other != e.uuid ==>
      Lookup(entries + [e], index[e.uuid := |entries|], other) == Lookup(entries, index, other)
  {
  }

  /** Adding under a new UUID appends to every group selected by a
      predicate the new entry satisfies, and leaves the others alone. */
  lemma AddAppendsToMatches<T>(entries: seq<Entry<T>>, e: Entry<T>, p: Entry<T> -> bool)
    ensures Filter(entries + [e], p) == Filter(entries, p) + (if p(e) then [e] else [])
  {
    FilterAppend(entries, [e], p);
    assert Filter([e], p) == (if p(e) then [e] else []) by {
      assert [e][1..] == [];
    }
  }

  /** The index after the removal loop as written: the UUID of every removed
      entry is deleted, and the survivors keep the positions they had. */
  function IndexAfterRemoval<T>(entries: seq<Entry<T>>, index: map<Uuid, nat>, remove: Entry<T> -> bool): map<Uuid, nat> {
    index - UuidsOf(Filter(entries, remove))
  }

  /** The survivors of the removal loop, in their original order. */
  function Survivors<T>(entries: seq<Entry<T>>, remove: Entry<T> -> bool): seq<Entry<T>> {
    Filter(entries, Kept(remove))
  }

  /** The entries a removal predicate keeps. */
  function Kept<T>(remove: Entry<T> -> bool): Entry<T> -> bool {
    e => !remove(e)
  }

  /** The removal predicate of the counterexample below: drop UUID 1. */
  function DropsFirst(e: Entry<char>): bool {
    e.uuid == 1
  }

  /** The removal loop as written breaks the index: with three entries and
      the first one removed, the second entry's UUID still points at
      position 1, which now holds the third entry, and the third entry's
      UUID points past the end of the list. */
  lemma StaleIndexAfterRemoval()
    ensures
      var entries := [Entry(1, 'a', None), Entry(2, 'b', None), Entry(3, 'c', None)];
      var index := map[1 := 0, 2 := 1, 3 := 2];
      && Indexed(entries, index)
      && Lookup(Survivors(entries, DropsFirst), IndexAfterRemoval(entries, index, DropsFirst), 2) == Ok(Some(Entry(3, 'c', None)))
      && Lookup(Survivors(entries, DropsFirst), IndexAfterRemoval(entries, index, DropsFirst), 3) == Err(IndexOutOfBounds)
      && !Indexed(Survivors(entries, DropsFirst), IndexAfterRemoval(entries, index, DropsFirst))
  {
    StaleIndexValues();
    var kept, stale := [Entry(2, 'b', None), Entry(3, 'c', None)], map[2 := 1, 3 := 2];
    assert Lookup(kept, stale, 2) == Ok(Some(Entry(3, 'c', None)));
    assert 3 in stale && stale[3] >= |kept|;
  }

  /** What the removal loop leaves in the counterexample above. */
  lemma StaleIndexValues()
    ensures
      var entries := [Entry(1, 'a', None), Entry(2, 'b', None), Entry(3, 'c', None)];
      && Survivors(entries, DropsFirst) == [Entry(2, 'b', None), Entry(3, 'c', None)]
      && IndexAfterRemoval(entries, map[1 := 0, 2 := 1, 3 := 2], DropsFirst) == map[2 := 1, 3 := 2]
  {
    var a, b, c := Entry(1, 'a', None), Entry(2, 'b', None), Entry(3, 'c', None);
    var entries := [a, b, c];
    assert entries[1..] == [b, c];
    assert [b, c][1..] == [c];
    assert Filter([c], DropsFirst) == [] by {
      assert [c][1..] == [];
    }
    assert Filter(entries, DropsFirst) == [a];
    assert !Kept(DropsFirst)(a) && Kept(DropsFirst)(b) && Kept(DropsFirst)(c);
    assert Filter([c], Kept(DropsFirst)) == [c] by {
      assert [c][1..] == [];
    }
    assert Filter([b, c], Kept(DropsFirst)) == [b, c];
    assert UuidsOf([a]) == {1};
  }

  /** The index the removal was evidently meant to leave: every surviving
      entry's UUID mapped to its new position. */
  function Reindexed<T>(entries: seq<Entry<T>>): (index: map<Uuid, nat>)
    ensures forall u :: u in index ==> index[u] < |entries| && entries[index[u]].uuid == u
    ensures forall i :: 0 <= i < |entries| ==> entries[i].uuid in index
    decreases |entries|
  {
    if entries == [] then map[]
    else
      var init := entries[..|entries| - 1];
      assert forall i :: 0 <= i < |init| ==> init[i] == entries[i];
      Reindexed(init)[entries[|entries| - 1].uuid := |entries| - 1]
  }

  /** No two entries share a UUID. */
  ghost predicate UniqueUuids<T>(entries: seq<Entry<T>>) {
    forall i, j :: 0 <= i < j < |entries| ==> entries[i].uuid != entries[j].uuid
  }

  /** An index invariant implies unique UUIDs, and unique UUIDs are all a
      rebuilt index needs to satisfy the invariant. */
  lemma ReindexedIsIndexed<T>(entries: seq<Entry<T>>)
    ensures Indexed(entries, Reindexed(entries)) <==> UniqueUuids(entries)
  {
    var index := Reindexed(entries);
    if UniqueUuids(entries) {
      forall i | 0 <= i < |entries|
        ensures index[entries[i].uuid] == i
      {
        var k := index[entries[i].uuid];
        assert entries[k].uuid == entries[i].uuid;
      }
    }
  }

  /** Removal keeps UUIDs unique, so the corrected removal restores the
      index invariant, and every survivor is found under its UUID. */
  lemma CorrectedRemovalKeepsIndexed<T>(entries: seq<Entry<T>>, index: map<Uuid, nat>, remove: Entry<T> -> bool, uuid: Uuid)
    requires Indexed(entries, index)
    ensures Indexed(Survivors(entries, remove), Reindexed(Survivors(entries, remove)))
    ensures var kept := Survivors(entries, remove);
      Lookup(kept, Reindexed(kept), uuid).Ok? &&
      (Lookup(kept, Reindexed(kept), uuid).value.Some? <==>
         exists i :: 0 <= i < |entries| && entries[i].uuid == uuid && !remove(entries[i]))
  {
    var kept := Survivors(entries, remove);
    assert UniqueUuids(entries);
    FilterKeepsUnique(entries, Kept(remove));
    ReindexedIsIndexed(kept);
  }

  /** Keeping some entries keeps their UUIDs unique. */
  lemma {:induction false} FilterKeepsUnique<T>(entries: seq<Entry<T>>, keep: Entry<T> -> bool)
    requires UniqueUuids(entries)
    ensures UniqueUuids(Filter(entries, keep))
    decreases |entries|
  {
    if entries != [] {
      var rest := entries[1..];
      assert UniqueUuids(rest) by {
        assert forall i :: 0 <= i < |rest| ==> rest[i] == entries[i + 1];
      }
      FilterKeepsUnique(rest, keep);
      if keep(entries[0]) {
        var r := Filter(rest, keep);
        forall i | 0 <= i < |r|
          ensures r[i].uuid != entries[0].uuid
        {
          assert r[i] in rest;
        }
      }
    }
  }

  /** One turn of the removal loop: the first `d + 1` entries leave the
      survivors of the first `d` followed by entry `d` if it is kept. */
  lemma SurvivorsStep<T>(entries: seq<Entry<T>>, remove: Entry<T> -> bool, d: nat)
    requires d < |entries|
    ensures Survivors(entries[..d + 1], remove) ==
      Survivors(entries[..d], remove) + (if remove(entries[d]) then [] else [entries[d]])
  {
    assert entries[..d + 1] == entries[..d] + [entries[d]];
    AddAppendsToMatches(entries[..d], entries[d], Kept(remove));
  }

  /** One turn of the iterator walk over the list `Survivors(all[..d]) +
      all[d..]`, the iterator at its first unvisited entry: removing that
      entry, or stepping past it, leaves the list of the next turn. */
  lemma WalkStep<T>(all: seq<Entry<T>>, remove: Entry<T> -> bool, d: nat)
    requires d < |all|
    ensures var kept := Survivors(all[..d], remove);
      var cur := kept + all[d..];
      var next := Survivors(all[..d + 1], remove);
      && |kept| < |cur| && cur[|kept|] == all[d]
      && (remove(all[d]) ==> cur[..|kept|] + cur[|kept| + 1..] == next + all[d + 1..] && |next| == |kept|)
      && (!remove(all[d]) ==> cur == next + all[d + 1..] && |next| == |kept| + 1)
  {
    SurvivorsStep(all, remove, d);
    var kept := Survivors(all[..d], remove);
    var cur := kept + all[d..];
    assert all[d..] == [all[d]] + all[d + 1..];
    assert cur[..|kept|] == kept;
    assert cur[|kept| + 1..] == all[d + 1..];
  }

  /** One turn of the removal loop: the index loses entry `d`'s UUID if
      entry `d` is removed. */
  lemma IndexStep<T>(entries: seq<Entry<T>>, index: map<Uuid, nat>, remove: Entry<T> -> bool, d: nat)
    requires d < |entries|
    ensures IndexAfterRemoval(entries[..d + 1], index, remove) ==
      if remove(entries[d]) then IndexAfterRemoval(entries[..d], index, remove) - {entries[d].uuid}
      else IndexAfterRemoval(entries[..d], index, remove)
  {
    var e := entries[d];
    var before := Filter(entries[..d], remove);
    assert entries[..d + 1] == entries[..d] + [e];
    AddAppendsToMatches(entries[..d], e, remove);
    if remove(e) {
      var a := UuidsOf(before);
      calc {
        IndexAfterRemoval(entries[..d + 1], index, remove);
        index - UuidsOf(before + [e]);
        { UuidsAppend(before, e); }
        index - (a + {e.uuid});
        (index - a) - {e.uuid};
      }
    } else {
      assert Filter(entries[..d + 1], remove) == before;
    }
  }

  lemma UuidsAppend<T>(entries: seq<Entry<T>>, e: Entry<T>)
    ensures UuidsOf(entries + [e]) == UuidsOf(entries) + {e.uuid}
  {
    var both := entries + [e];
    forall u | u in UuidsOf(both)
      ensures u in UuidsOf(entries) + {e.uuid}
    {
      var i :| 0 <= i < |both| && both[i].uuid == u;
      if i < |entries| {
        assert both[i] == entries[i];
      }
    }
    forall u | u in UuidsOf(entries) + {e.uuid}
      ensures u in UuidsOf(both)
    {
      if u != e.uuid {
        var i :| 0 <= i < |entries| && entries[i].uuid == u;
        assert both[i] == entries[i];
      } else {
        assert both[|entries|] == e;
      }
    }
  }

  /** The iterator walk of `removeIf` and `prune` as written: every entry
      the predicate accepts is removed from the list in place (the entries
      after it shift left) and its UUID is removed from the index; the
      index is not otherwise touched. */
  method WalkRemoving<T>(entries: seq<Entry<T>>, index: map<Uuid, nat>, remove: Entry<T> -> bool)
    returns (kept: seq<Entry<T>>, left: map<Uuid, nat>)
    ensures kept == Survivors(entries, remove)
    ensures left == IndexAfterRemoval(entries, index, remove)
  {
    ghost var done := 0;
    var i := 0;
    kept, left := entries, index;
    assert entries[..0] == [];
    while i < |kept|
      invariant done <= |entries|
      invariant kept == Survivors(entries[..done], remove) + entries[done..]
      invariant i == |Survivors(entries[..done], remove)|
      invariant left == IndexAfterRemoval(entries[..done], index, remove)
      decreases |kept| - i
    {
      WalkStep(entries, remove, done);
      IndexStep(entries, index, remove, done);
      var item := kept[i];
      assert item == entries[done];
      if remove(item) {
        kept := kept[..i] + kept[i + 1..];
        left := left - {item.uuid};
      } else {
        i := i + 1;
      }
      done := done + 1;
      assert kept == Survivors(entries[..done], remove) + entries[done..];
    }
    assert entries[..done] == entries;
  }

  /** Indexes every entry at its position, front to back, so a later entry
      under a repeated UUID takes its place. */
  method BuildIndex<T>(entries: seq<Entry<T>>) returns (index: map<Uuid, nat>)
    ensures index == Reindexed(entries)
  {
    index := map[];
    for i := 0 to |entries|
      invariant index == Reindexed(entries[..i])
    {
      assert entries[..i + 1][..i] == entries[..i];
      index := index[entries[i].uuid := i];
    }
    assert entries[..|entries|] == entries;
  }
}
