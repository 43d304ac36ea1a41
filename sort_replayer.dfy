/** The sort replayer of the latest generation
    (pipe/src/main/java/com/udeyrishi/pipe/internal/util/SortReplayer.kt):
    it remembers how a list was reordered into its sorted copy, and replays
    that reordering forwards on another list of the same length, or undoes it. */
module SortReplayer {
  import opened Common
  import opened IndexMaps

  /** The replayer's fields. `transformations` is null (None) when the
      original and the sorted list were the same object; otherwise entry `i`
      is the position in the sorted list of the original's element `i` (the
      source keeps it as a map whose keys are exactly 0 until `size`). */
  datatype Replayer = Replayer(transformations: Option<seq<nat>>, size: nat)
  {
    ghost predicate Valid() {
      transformations.Some? ==>
        |transformations.value| == size && InRange(transformations.value, size)
    }
  }

  /** `positionMapSorted`: each element of `sorted` to its position. The map
      is built with `toMap`, so an element that occurs twice keeps its last
      position. */
  function PositionMap<T(==)>(sorted: seq<T>): (m: map<T, nat>)
    ensures forall k :: 0 <= k < |sorted| ==> sorted[k] in m
    ensures forall x :: x in m ==> m[x] < |sorted| && sorted[m[x]] == x
    ensures forall x, k :: x in m && m[x] < k < |sorted| ==> sorted[k] != x
    decreases |sorted|
  {
    if sorted == [] then map[]
    else
      var init := sorted[..|sorted| - 1];
      assert forall k :: 0 <= k < |init| ==> init[k] == sorted[k];
      assert sorted == init + [sorted[|sorted| - 1]];
      PositionMap(init)[sorted[|sorted| - 1] := |sorted| - 1]
  }

  /** The constructor: a size mismatch or an original element missing from
      the sorted list throws IllegalArgument; the same list object twice
      records no transformation. `sameList` stands for `original === sorted`,
      which implies the two lists are equal. */
  function Create<T(==)>(original: seq<T>, sorted: seq<T>, sameList: bool): (r: Result<Replayer>)
    requires sameList ==> original == sorted
    ensures r.Err? <==>
      |original| != |sorted| || (!sameList && exists i :: 0 <= i < |original| && original[i] !in sorted)
    ensures r.Err? ==> r.error == IllegalArgument
    ensures r.Ok? ==>
      && r.value.Valid()
      && r.value.size == |original|
      && (r.value.transformations.None? <==> sameList)
    ensures r.Ok? && !sameList ==>
      forall i :: 0 <= i < |original| ==>
        && sorted[r.value.transformations.value[i]] == original[i]
        && forall k :: r.value.transformations.value[i] < k < |sorted| ==> sorted[k] != original[i]
  {
    if |original| != |sorted| then Err(IllegalArgument)
    else if sameList then Ok(Replayer(None, |original|))
    else
      var position := PositionMap(sorted);
      if exists i :: 0 <= i < |original| && original[i] !in position then Err(IllegalArgument)
      else
        var t := seq(|original|, i requires 0 <= i < |original| => position[original[i]]);
        Ok(Replayer(Some(t), |original|))
  }

  /** `applySortTransformations`, as a value: the result of the method below. */
  function Apply<R>(rp: Replayer, unsorted: seq<R>): Result<seq<R>>
    requires rp.Valid()
  {
    if |unsorted| != rp.size then Err(IllegalArgument)
    else if rp.transformations.None? then Ok(unsorted)
    else Unwrapped(Scattered(rp.transformations.value, unsorted, rp.size))
  }

  /** `applySortTransformations`: the size check, the copy for the same
      list, and otherwise each element written into the slot its position
      maps to. */
  method ApplySortTransformations<R>(rp: Replayer, unsorted: seq<R>) returns (r: Result<seq<R>>)
    requires rp.Valid()
    ensures r == Apply(rp, unsorted)
  {
    if |unsorted| != rp.size {
      return Err(IllegalArgument);
    }
    if rp.transformations.None? {
      return Ok(unsorted);
    }
    r := ScatterAndUnwrap(rp.transformations.value, unsorted);
  }

  /** `reverseApplySortTransformations`: element `i` of the result is the
      element at the sorted position of `i`. */
  function ReverseApply<R>(rp: Replayer, sorted: seq<R>): (r: Result<seq<R>>)
    requires rp.Valid()
    ensures r.Err? <==> |sorted| != rp.size
    ensures r.Err? ==> r.error == IllegalArgument
    ensures r.Ok? ==> |r.value| == rp.size
  {
    if |sorted| != rp.size then Err(IllegalArgument)
    else if rp.transformations.None? then Ok(sorted)
    else Ok(Gathered(rp.transformations.value, sorted))
  }

  /** Forward application succeeds on a list of the right length exactly
      when no two positions map to the same slot, and it then puts element
      `i` at the position `i` maps to; otherwise an empty slot throws. */
  lemma ApplySucceedsIffInjective<R>(rp: Replayer, unsorted: seq<R>)
    requires rp.Valid() && rp.transformations.Some? && |unsorted| == rp.size
    ensures Apply(rp, unsorted).Ok? <==> Injective(rp.transformations.value)
    ensures Apply(rp, unsorted).Err? ==> Apply(rp, unsorted).error == NullPointer
    ensures Apply(rp, unsorted).Ok? ==>
      var t := rp.transformations.value;
      |Apply(rp, unsorted).value| == rp.size &&
      forall i :: 0 <= i < |t| ==> Apply(rp, unsorted).value[t[i]] == unsorted[i]
  {
    var t := rp.transformations.value;
    var slots := Scattered(t, unsorted, rp.size);
    InjectiveIffOnto(t, rp.size);
    if Injective(t) {
      ScatterGather(t, unsorted);
    } else {
      var k :| 0 <= k < rp.size && k !in Image(t);
      ScatteredFilled(t, unsorted, rp.size, k);
      assert !slots[k].Some?;
    }
  }

  /** A replayer built from two different list objects maps positions
      injectively exactly when the original list has no repeated element. */
  lemma InjectiveIffDistinct<T>(original: seq<T>, sorted: seq<T>, rp: Replayer)
    requires Create(original, sorted, false) == Ok(rp)
    ensures Injective(rp.transformations.value) <==> Distinct(original)
  {
    var t := rp.transformations.value;
    if !Distinct(original) {
      var i, j :| 0 <= i < j < |original| && original[i] == original[j];
      assert t[i] == t[j];
    }
  }

  /** Replaying the sort on the original list yields the sorted list, for
      an original list without repeated elements. */
  lemma ApplyToOriginalIsSorted<T>(original: seq<T>, sorted: seq<T>, sameList: bool, rp: Replayer)
    requires sameList ==> original == sorted
    requires Create(original, sorted, sameList) == Ok(rp) && Distinct(original)
    ensures Apply(rp, original) == Ok(sorted)
  {
    if !sameList {
      var t := rp.transformations.value;
      InjectiveIffDistinct(original, sorted, rp);
      ApplySucceedsIffInjective(rp, original);
      InjectiveIffOnto(t, rp.size);
      var v := Apply(rp, original).value;
      forall k | 0 <= k < |sorted|
        ensures v[k] == sorted[k]
      {
        assert k in Image(t);
        var i :| 0 <= i < |t| && t[i] == k;
      }
      assert v == sorted;
    }
  }

  /** Undoing the sort on the sorted list yields the original list; this
      holds even when elements repeat. */
  lemma ReverseOfSortedIsOriginal<T>(original: seq<T>, sorted: seq<T>, sameList: bool, rp: Replayer)
    requires sameList ==> original == sorted
    requires Create(original, sorted, sameList) == Ok(rp)
    ensures ReverseApply(rp, sorted) == Ok(original)
  {
    if !sameList {
      var g := Gathered(rp.transformations.value, sorted);
      assert forall i :: 0 <= i < |original| ==> g[i] == original[i];
      assert g == original;
    }
  }

  /** Round trip: replaying the sort on any list of the right length and
      then undoing it gives the list back, for an original list without
      repeated elements. */
  lemma RoundTrip<T, R>(original: seq<T>, sorted: seq<T>, sameList: bool, rp: Replayer, values: seq<R>)
    requires sameList ==> original == sorted
    requires Create(original, sorted, sameList) == Ok(rp) && Distinct(original)
    requires |values| == |original|
    ensures Apply(rp, values).Ok?
    ensures ReverseApply(rp, Apply(rp, values).value) == Ok(values)
  {
    if !sameList {
      InjectiveIffDistinct(original, sorted, rp);
      ApplySucceedsIffInjective(rp, values);
      var t := rp.transformations.value;
      var v := Apply(rp, values).value;
      var g := Gathered(t, v);
      assert forall i :: 0 <= i < |values| ==> g[i] == values[i];
      assert g == values;
    }
  }

  /** With a repeated element in an original list that is not the sorted
      list object itself, every forward replay throws: two positions write
      one slot and another slot stays null. */
  lemma RepeatedElementBreaksApply<T, R>(original: seq<T>, sorted: seq<T>, rp: Replayer, values: seq<R>)
    requires Create(original, sorted, false) == Ok(rp)
    requires !Distinct(original) && |values| == |original|
    ensures Apply(rp, values) == Err(NullPointer)
  {
    InjectiveIffDistinct(original, sorted, rp);
    ApplySucceedsIffInjective(rp, values);
  }
}
