/** The sort replayer of the oldest generation
    (src/main/kotlin/com/udeyrishi/pipe/util/SortReplayer.kt). It matches an
    original element with the first sorted element that is the very same
    object, and it checks sizes only when a transformation was recorded.
    Elements stand for object references here: equal values are the same
    object. */
module LegacySortReplayer {
  import opened Common
  import opened IndexMaps

  /** `transformations` is null (None) when the two lists were the same
      object; otherwise entry `i` is the sorted position of element `i`. */
  datatype Replayer = Replayer(transformations: Option<seq<nat>>)

  /** `sorted.indexOfFirst { it === item }`, with -1 as None. */
  function IndexOfFirst<T(==)>(s: seq<T>, x: T): (r: Option<nat>)
    ensures r.None? <==> x !in s
    ensures r.Some? ==> r.value < |s| && s[r.value] == x && forall k :: 0 <= k < r.value ==> s[k] != x
  {
    if s == [] then None
    else if s[0] == x then Some(0)
    else
      match IndexOfFirst(s[1..], x)
      case None => None
      case Some(k) => Some(k + 1)
  }

  /** The map the constructor has filled after looking up the first `n`
      original elements, or the position of the first element not found. */
  datatype Lookup = Filled(t: seq<nat>) | Missing(at: nat)

  /** The loop body of the constructor, as a value: look up each original
      element in order and stop at the first one that is absent. */
  function LookUpAll<T(==)>(original: seq<T>, sorted: seq<T>, n: nat): (r: Lookup)
    requires n <= |original|
    decreases n
  {
    if n == 0 then Filled([])
    else
      match LookUpAll(original, sorted, n - 1)
      case Missing(at) => Missing(at)
      case Filled(t) =>
        match IndexOfFirst(sorted, original[n - 1])
        case None => Missing(n - 1)
        case Some(k) => Filled(t + [k])
  }

  /** The constructor as a value: the result of the method below. */
  function Create<T(==)>(original: seq<T>, sorted: seq<T>, sameList: bool): Result<Replayer>
    requires sameList ==> original == sorted
  {
    if |original| != |sorted| then Err(IllegalArgument)
    else if sameList then Ok(Replayer(None))
    else
      match LookUpAll(original, sorted, |original|)
      case Missing(_) => Err(IllegalArgument)
      case Filled(t) => Ok(Replayer(Some(t)))
  }

  /** The constructor: rejects a size mismatch, records nothing for the same
      list object, and otherwise fills the map position by position, throwing
      at the first original element that is not in the sorted list. */
  method Construct<T(==)>(original: seq<T>, sorted: seq<T>, sameList: bool) returns (r: Result<Replayer>)
    requires sameList ==> original == sorted
    ensures r == Create(original, sorted, sameList)
  {
    if |original| != |sorted| {
      return Err(IllegalArgument);
    }
    if sameList {
      return Ok(Replayer(None));
    }
    var t: seq<nat> := [];
    for i := 0 to |original|
      invariant LookUpAll(original, sorted, i) == Filled(t)
    {
      var k := FindFirst(sorted, original[i]);
      if k < 0 {
        LookUpAllMeaning(original, sorted, |original|);
        assert original[i] !in sorted;
        return Err(IllegalArgument);
      }
      t := t + [k as nat];
    }
    return Ok(Replayer(Some(t)));
  }

  /** `indexOfFirst` as the library runs it: a scan from the front. */
  method FindFirst<T(==)>(s: seq<T>, x: T) returns (k: int)
    ensures k < 0 <==> IndexOfFirst(s, x).None?
    ensures k >= 0 ==> IndexOfFirst(s, x) == Some(k as nat)
  {
    for i := 0 to |s|
      invariant forall j :: 0 <= j < i ==> s[j] != x
    {
      if s[i] == x {
        IndexOfFirstIsFirst(s, x, i);
        return i;
      }
    }
    return -1;
  }

  /** The first occurrence is the one `IndexOfFirst` reports. */
  lemma {:induction false} IndexOfFirstIsFirst<T>(s: seq<T>, x: T, i: nat)
    requires i < |s| && s[i] == x && forall j :: 0 <= j < i ==> s[j] != x
    ensures IndexOfFirst(s, x) == Some(i)
  {
    if i > 0 {
      IndexOfFirstIsFirst(s[1..], x, i - 1);
    }
  }

  /** What the constructor records: it throws exactly on a size mismatch or
      an original element absent from the sorted list; otherwise each
      position maps to the first sorted position holding that object. */
  lemma {:induction false} CreateMapsToFirstOccurrence<T>(original: seq<T>, sorted: seq<T>, sameList: bool)
    requires sameList ==> original == sorted
    ensures Create(original, sorted, sameList).Err? <==>
      |original| != |sorted| || (!sameList && exists i :: 0 <= i < |original| && original[i] !in sorted)
    ensures Create(original, sorted, sameList).Err? ==> Create(original, sorted, sameList).error == IllegalArgument
    ensures Create(original, sorted, sameList).Ok? ==>
      (Create(original, sorted, sameList).value.transformations.None? <==> sameList)
    ensures Create(original, sorted, sameList).Ok? && !sameList ==>
      var t := Create(original, sorted, sameList).value.transformations.value;
      |t| == |original| && forall i :: 0 <= i < |original| ==> IndexOfFirst(sorted, original[i]) == Some(t[i])
  {
    if |original| == |sorted| && !sameList {
      LookUpAllMeaning(original, sorted, |original|);
    }
  }

  lemma {:induction false} LookUpAllMeaning<T>(original: seq<T>, sorted: seq<T>, n: nat)
    requires n <= |original|
    ensures LookUpAll(original, sorted, n).Missing? <==> exists i :: 0 <= i < n && original[i] !in sorted
    ensures LookUpAll(original, sorted, n).Filled? ==>
      var t := LookUpAll(original, sorted, n).t;
      |t| == n && forall i :: 0 <= i < n ==> IndexOfFirst(sorted, original[i]) == Some(t[i])
    decreases n
  {
    if n > 0 {
      LookUpAllMeaning(original, sorted, n - 1);
    }
  }

  /** A recorded map sends every position into a list of its own length. */
  ghost predicate Valid(rp: Replayer) {
    rp.transformations.Some? ==> InRange(rp.transformations.value, |rp.transformations.value|)
  }

  /** Every replayer the constructor returns is valid, and one built from two
      different list objects has one entry per original element. */
  lemma CreatedIsValid<T>(original: seq<T>, sorted: seq<T>, sameList: bool)
    requires sameList ==> original == sorted
    requires Create(original, sorted, sameList).Ok?
    ensures Valid(Create(original, sorted, sameList).value)
    ensures !sameList ==> |Create(original, sorted, sameList).value.transformations.value| == |original|
  {
    CreateMapsToFirstOccurrence(original, sorted, sameList);
  }

  /** `applySortTransformations` as a value: the result of the method below. */
  function Apply<R>(rp: Replayer, unsorted: seq<R>): Result<seq<R>>
    requires Valid(rp)
  {
    if rp.transformations.None? then Ok(unsorted)
    else if |unsorted| != |rp.transformations.value| then Err(IllegalArgument)
    else Unwrapped(Scattered(rp.transformations.value, unsorted, |unsorted|))
  }

  /** `applySortTransformations`: the copy for the same list comes before
      the size check; otherwise each element is written into its slot. */
  method ApplySortTransformations<R>(rp: Replayer, unsorted: seq<R>) returns (r: Result<seq<R>>)
    requires Valid(rp)
    ensures r == Apply(rp, unsorted)
  {
    if rp.transformations.None? {
      return Ok(unsorted);
    }
    if |unsorted| != |rp.transformations.value| {
      return Err(IllegalArgument);
    }
    r := ScatterAndUnwrap(rp.transformations.value, unsorted);
  }

  /** `reverseApplySortTransformations`: the copy for the same list, then
      the size check, then element `i` read from the sorted position of `i`. */
  function ReverseApply<R>(rp: Replayer, sorted: seq<R>): (r: Result<seq<R>>)
    requires Valid(rp)
    ensures r.Err? <==> rp.transformations.Some? && |sorted| != |rp.transformations.value|
    ensures r.Err? ==> r.error == IllegalArgument
  {
    if rp.transformations.None? then Ok(sorted)
    else if |sorted| != |rp.transformations.value| then Err(IllegalArgument)
    else Ok(Gathered(rp.transformations.value, sorted))
  }

  /** For the same list object both directions copy their input whatever its
      length: unlike the newer replayer, no size is checked. */
  lemma SameListSkipsSizeCheck<T, R>(original: seq<T>, values: seq<R>)
    ensures Create(original, original, true) == Ok(Replayer(None))
    ensures Apply(Replayer(None), values) == Ok(values)
    ensures ReverseApply(Replayer(None), values) == Ok(values)
  {
  }

  /** Positions map injectively exactly when no object occurs twice in the
      original list. */
  lemma InjectiveIffDistinct<T>(original: seq<T>, sorted: seq<T>, rp: Replayer)
    requires Create(original, sorted, false) == Ok(rp)
    ensures Injective(rp.transformations.value) <==> Distinct(original)
  {
    CreateMapsToFirstOccurrence(original, sorted, false);
  }

  /** Forward replay succeeds on a list of the right length exactly when no
      two positions share a slot, and it then puts element `i` at the slot of
      `i`; otherwise a null slot throws. */
  lemma ApplySucceedsIffInjective<R>(rp: Replayer, unsorted: seq<R>)
    requires Valid(rp) && rp.transformations.Some? && |unsorted| == |rp.transformations.value|
    ensures Apply(rp, unsorted).Ok? <==> Injective(rp.transformations.value)
    ensures Apply(rp, unsorted).Err? ==> Apply(rp, unsorted).error == NullPointer
    ensures Apply(rp, unsorted).Ok? ==>
      var t := rp.transformations.value;
      |Apply(rp, unsorted).value| == |t| &&
      forall i :: 0 <= i < |t| ==> Apply(rp, unsorted).value[t[i]] == unsorted[i]
  {
    var t := rp.transformations.value;
    var slots := Scattered(t, unsorted, |t|);
    InjectiveIffOnto(t, |t|);
    if Injective(t) {
      ScatterGather(t, unsorted);
    } else {
      var k :| 0 <= k < |t| && k !in Image(t);
      ScatteredFilled(t, unsorted, |t|, k);
      assert !slots[k].Some?;
    }
  }

  /** Undoing the sort on the sorted list yields the original list. */
  lemma ReverseOfSortedIsOriginal<T>(original: seq<T>, sorted: seq<T>, sameList: bool, rp: Replayer)
    requires sameList ==> original == sorted
    requires Create(original, sorted, sameList) == Ok(rp)
    ensures Valid(rp) && ReverseApply(rp, sorted) == Ok(original)
  {
    CreateMapsToFirstOccurrence(original, sorted, sameList);
    if !sameList {
      var t := rp.transformations.value;
      var g := Gathered(t, sorted);
      forall i | 0 <= i < |original|
        ensures g[i] == original[i]
      {
        assert IndexOfFirst(sorted, original[i]) == Some(t[i]);
      }
      assert g == original;
    }
  }

  /** Replaying the sort on the original list yields the sorted list, for an
      original list in which no object occurs twice. */
  lemma ApplyToOriginalIsSorted<T>(original: seq<T>, sorted: seq<T>, sameList: bool, rp: Replayer)
    requires sameList ==> original == sorted
    requires Create(original, sorted, sameList) == Ok(rp) && Distinct(original)
    ensures Valid(rp) && Apply(rp, original) == Ok(sorted)
  {
    CreateMapsToFirstOccurrence(original, sorted, sameList);
    if !sameList {
      var t := rp.transformations.value;
      InjectiveIffDistinct(original, sorted, rp);
      ApplySucceedsIffInjective(rp, original);
      InjectiveIffOnto(t, |t|);
      var v := Apply(rp, original).value;
      forall k | 0 <= k < |sorted|
        ensures v[k] == sorted[k]
      {
        assert k in Image(t);
        var i :| 0 <= i < |t| && t[i] == k;
        assert IndexOfFirst(sorted, original[i]) == Some(t[i]);
      }
      assert v == sorted;
    }
  }

  /** Round trip: replaying the sort on any list of the original's length
      and undoing it gives the list back, when no object occurs twice. */
  lemma RoundTrip<T, R>(original: seq<T>, sorted: seq<T>, sameList: bool, rp: Replayer, values: seq<R>)
    requires sameList ==> original == sorted
    requires Create(original, sorted, sameList) == Ok(rp) && Distinct(original)
    requires |values| == |original|
    ensures Valid(rp) && Apply(rp, values).Ok?
    ensures ReverseApply(rp, Apply(rp, values).value) == Ok(values)
  {
    CreateMapsToFirstOccurrence(original, sorted, sameList);
    if !sameList {
      InjectiveIffDistinct(original, sorted, rp);
      ApplySucceedsIffInjective(rp, values);
      var t := rp.transformations.value;
      var v := Apply(rp, values).value;
      var g := Gathered(t, v);
      assert forall i :: 0 <= i < |values| ==> g[i] == values[i];
      assert g == values;
    }
  }
}
