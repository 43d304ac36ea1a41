/** A sort replayer that matches repeated elements by occurrence: the
    `r`-th copy of an element in the original list goes to the `r`-th copy
    of it in the sorted list. It replaces the position map of
    pipe/src/main/java/com/udeyrishi/pipe/internal/util/SortReplayer.kt:18-23,
    which sends every copy to the last one, so that replaying and undoing
    the sort work for every reordering, repeated elements included. */
module RankedReplayer {
  import opened Common
  import opened IndexMaps
  import opened SortReplayer

  /** The position of the `r`-th copy (counting from 0) of `x` in `s`. */
  function NthPosition<T(==)>(s: seq<T>, x: T, r: nat): (k: nat)
    requires multiset(s)[x] > r
    ensures k < |s| && s[k] == x && multiset(s[..k])[x] == r
    decreases |s|
  {
    assert s == [s[0]] + s[1..];
    if s[0] == x && r == 0 then 0
    else
      var k := NthPosition(s[1..], x, if s[0] == x then r - 1 else r);
      assert s[..k + 1] == [s[0]] + s[1..][..k];
      k + 1
  }

  /** Fewer copies of an element precede it than the list holds. */
  lemma RanksBelowCounts<T>(s: seq<T>)
    ensures forall i :: 0 <= i < |s| ==> multiset(s[..i])[s[i]] < multiset(s)[s[i]]
  {
    forall i | 0 <= i < |s|
      ensures multiset(s[..i])[s[i]] < multiset(s)[s[i]]
    {
      assert s == s[..i] + [s[i]] + s[i + 1..];
    }
  }

  /** A later copy of an element has a higher rank. */
  lemma RankGrows<T>(s: seq<T>, i: nat, j: nat)
    requires i < j < |s| && s[i] == s[j]
    ensures multiset(s[..i])[s[i]] < multiset(s[..j])[s[j]]
  {
    assert s[..j] == s[..i] + [s[i]] + s[i + 1..j];
  }

  /** Each original position sent to the copy of its element whose rank
      in the sorted list equals its rank in the original list. */
  function RankedPositions<T(==)>(original: seq<T>, sorted: seq<T>): (t: seq<nat>)
    requires multiset(sorted) == multiset(original)
    ensures |t| == |original| && InRange(t, |sorted|)
    ensures forall i :: 0 <= i < |original| ==> sorted[t[i]] == original[i]
  {
    RanksBelowCounts(original);
    seq(|original|, i requires 0 <= i < |original| => NthPosition(sorted, original[i], multiset(original[..i])[original[i]]))
  }

  /** No two original positions share a sorted position. */
  lemma RankedPositionsInjective<T>(original: seq<T>, sorted: seq<T>)
    requires multiset(sorted) == multiset(original)
    ensures Injective(RankedPositions(original, sorted))
  {
    var t := RankedPositions(original, sorted);
    forall i, j | 0 <= i < j < |t|
      ensures t[i] != t[j]
    {
      if t[i] == t[j] {
        RankGrows(original, i, j);
      }
    }
  }

  /** The constructor with occurrence matching: lists that are not
      reorderings of each other throw IllegalArgument; the same list object
      twice records no transformation. */
  function CreateRanked<T(==)>(original: seq<T>, sorted: seq<T>, sameList: bool): (r: Result<Replayer>)
    requires sameList ==> original == sorted
    ensures r.Err? <==> multiset(original) != multiset(sorted)
    ensures r.Err? ==> r.error == IllegalArgument
    ensures r.Ok? ==>
      && r.value.Valid()
      && r.value.size == |original| == |sorted|
      && (r.value.transformations.None? <==> sameList)
    ensures r.Ok? && !sameList ==>
      && Injective(r.value.transformations.value)
      && forall i :: 0 <= i < |original| ==> sorted[r.value.transformations.value[i]] == original[i]
  {
    if |original| != |sorted| then
      assert |multiset(original)| != |multiset(sorted)|;
      Err(IllegalArgument)
    else if sameList then Ok(Replayer(None, |original|))
    else if multiset(original) != multiset(sorted) then Err(IllegalArgument)
    else
      RankedPositionsInjective(original, sorted);
      Ok(Replayer(Some(RankedPositions(original, sorted)), |original|))
  }

  /** For two reorderings of each other, the replayer records the ranked
      positions. */
  lemma CreateRankedOfPermutation<T>(original: seq<T>, sorted: seq<T>)
    requires multiset(sorted) == multiset(original)
    ensures CreateRanked(original, sorted, false) == Ok(Replayer(Some(RankedPositions(original, sorted)), |original|))
  {
    assert |sorted| == |multiset(sorted)| == |original|;
  }

  /** Replaying the sort on the original list yields the sorted list. */
  lemma RankedApplyToOriginalIsSorted<T>(original: seq<T>, sorted: seq<T>, sameList: bool, rp: Replayer)
    requires sameList ==> original == sorted
    requires CreateRanked(original, sorted, sameList) == Ok(rp)
    ensures Apply(rp, original) == Ok(sorted)
  {
    if !sameList {
      var t := rp.transformations.value;
      ApplySucceedsIffInjective(rp, original);
      InjectiveIffOnto(t, rp.size);
      var v := Apply(rp, original).value;
      forall k | 0 <= k < |sorted|
        ensures v[k] == sorted[k]
      {
        assert k in Image(t);
        var i :| 0 <= i < |t| && t[i] == k;
      }
      assert v == sorted;
    }
  }

  /** Round trip for every reordering: replaying the sort on any list of
      the right length succeeds, and undoing it gives the list back. */
  lemma RankedRoundTrip<T, R>(original: seq<T>, sorted: seq<T>, sameList: bool, rp: Replayer, values: seq<R>)
    requires sameList ==> original == sorted
    requires CreateRanked(original, sorted, sameList) == Ok(rp)
    requires |values| == |original|
    ensures Apply(rp, values).Ok?
    ensures ReverseApply(rp, Apply(rp, values).value) == Ok(values)
  {
    if !sameList {
      ApplySucceedsIffInjective(rp, values);
      var t := rp.transformations.value;
      var v := Apply(rp, values).value;
      var g := Gathered(t, v);
      assert forall i :: 0 <= i < |values| ==> g[i] == values[i];
      assert g == values;
    }
  }

  /** The list `[5, 5]` sorted: the position map of the constructor as
      written sends both copies to position 1, so replaying the sort
      throws. */
  lemma RepeatedElementCounterexample()
    ensures Create([5, 5], [5, 5], false) == Ok(Replayer(Some([1, 1]), 2))
    ensures Apply(Replayer(Some([1, 1]), 2), [5, 5]) == Err(NullPointer)
  {
    var s := [5, 5];
    assert s[0] in s && s[1] in s;
    var rp := Create(s, s, false).value;
    var t := rp.transformations.value;
    assert t[0] == 1 && t[1] == 1;
    assert t == [1, 1];
    RepeatedElementBreaksApply(s, s, rp, s);
  }

  /** Occurrence matching sends the two copies of `[5, 5]` to positions 0
      and 1. */
  lemma RankedSeparatesCopies()
    ensures CreateRanked([5, 5], [5, 5], false) == Ok(Replayer(Some([0, 1]), 2))
  {
    var s := [5, 5];
    var u := RankedPositions(s, s);
    assert s[..0] == [] && s[..1] == [5];
    assert u[0] == 0;
    assert u[1] == 1;
    assert u == [0, 1];
  }
}
