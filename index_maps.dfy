/** Index maps of the sort replayers: a sequence `t` sends position `i` of one
    list to position `t[i]` of another list of the same length `n`. Scattering
    by such a map fills every slot exactly when no two positions share a
    target, which is the pigeonhole principle proved here. */
module IndexMaps {
  import opened Common

  /** Every target lies inside a list of length `n`. */
  predicate InRange(t: seq<nat>, n: nat) {
    forall i :: 0 <= i < |t| ==> t[i] < n
  }

  /** No two positions share a target. */
  predicate Injective(t: seq<nat>) {
    forall i, j :: 0 <= i < j < |t| ==> t[i] != t[j]
  }

  /** Every slot of a list of length `n` is some position's target. */
  predicate Onto(t: seq<nat>, n: nat) {
    forall k :: 0 <= k < n ==> k in Image(t)
  }

  /** No two positions of `s` hold the same element. */
  predicate Distinct<T(==)>(s: seq<T>) {
    forall i, j :: 0 <= i < j < |s| ==> s[i] != s[j]
  }

  /** The targets of `t`, as a set. */
  function Image(t: seq<nat>): set<nat> {
    set i | 0 <= i < |t| :: t[i]
  }

  /** The slots of a list of length `n`. */
  function Slots(n: nat): (r: set<nat>)
    ensures forall k :: k in r <==> 0 <= k < n
    ensures |r| == n
  {
    if n == 0 then {} else Slots(n - 1) + {n - 1}
  }

  /** A map has as many targets as positions exactly when it is injective. */
  lemma {:induction false} ImageSize(t: seq<nat>)
    ensures |Image(t)| <= |t|
    ensures |Image(t)| == |t| <==> Injective(t)
    decreases |t|
  {
    if t != [] {
      var p := t[..|t| - 1];
      var x := t[|t| - 1];
      ImageSize(p);
      assert forall i :: 0 <= i < |p| ==> p[i] == t[i];
      assert Image(t) == Image(p) + {x};
      if x in Image(p) {
        var i :| 0 <= i < |p| && p[i] == x;
        assert t[i] == t[|t| - 1];
        assert !Injective(t);
      } else {
        assert |Image(t)| == |Image(p)| + 1;
        assert Injective(t) <==> Injective(p);
      }
    }
  }

  /** A subset as large as its superset is the whole superset. */
  lemma SubsetOfEqualSize(a: set<nat>, b: set<nat>)
    requires a <= b && |a| == |b|
    ensures a == b
  {
    assert |b - a| == |b| - |a|;
  }

  /** Pigeonhole: a map from `n` positions into `n` slots is injective
      exactly when it is onto. */
  lemma InjectiveIffOnto(t: seq<nat>, n: nat)
    requires |t| == n && InRange(t, n)
    ensures Injective(t) <==> Onto(t, n)
  {
    ImageSize(t);
    assert Image(t) <= Slots(n);
    if Injective(t) {
      SubsetOfEqualSize(Image(t), Slots(n));
      assert forall k :: 0 <= k < n ==> k in Image(t);
    }
    if Onto(t, n) {
      assert forall k :: k in Slots(n) ==> k in Image(t);
      assert Slots(n) <= Image(t);
      assert Image(t) == Slots(n);
    }
  }

  /** The slots after the first `k` positions have written their values in
      position order; a slot nobody wrote stays empty (null). */
  function Scattered<R>(t: seq<nat>, values: seq<R>, k: nat): (slots: seq<Option<R>>)
    requires k <= |t| == |values| && InRange(t, |values|)
    ensures |slots| == |values|
    decreases k
  {
    if k == 0 then seq(|values|, _ => None)
    else Scattered(t, values, k - 1)[t[k - 1] := Some(values[k - 1])]
  }

  /** A slot is filled exactly when one of the first `k` positions maps to it. */
  lemma {:induction false} ScatteredFilled<R>(t: seq<nat>, values: seq<R>, k: nat, j: nat)
    requires k <= |t| == |values| && InRange(t, |values|) && j < |values|
    ensures Scattered(t, values, k)[j].Some? <==> exists i :: 0 <= i < k && t[i] == j
    decreases k
  {
    if k > 0 {
      ScatteredFilled(t, values, k - 1, j);
    }
  }

  /** A slot holds the value of the last position that wrote it: a later
      position overwrites an earlier one. */
  lemma {:induction false} ScatteredLastWriter<R>(t: seq<nat>, values: seq<R>, k: nat, i: nat)
    requires k <= |t| == |values| && InRange(t, |values|) && i < k
    requires forall i' :: i < i' < k ==> t[i'] != t[i]
    ensures Scattered(t, values, k)[t[i]] == Some(values[i])
    decreases k
  {
    if i < k - 1 {
      ScatteredLastWriter(t, values, k - 1, i);
    }
  }

  /** `slots.map { it!! }`: the filled slots' values, or a
      NullPointerException at the first slot nobody wrote. */
  function Unwrapped<R>(slots: seq<Option<R>>): (r: Result<seq<R>>)
    ensures r.Ok? <==> forall j :: 0 <= j < |slots| ==> slots[j].Some?
    ensures r.Err? ==> r.error == NullPointer
    ensures r.Ok? ==> |r.value| == |slots| && forall j :: 0 <= j < |slots| ==> slots[j] == Some(r.value[j])
  {
    if slots == [] then Ok([])
    else if slots[0].None? then Err(NullPointer)
    else
      match Unwrapped(slots[1..])
      case Err(e) => Err(e)
      case Ok(rest) =>
        assert forall j :: 1 <= j < |slots| ==> slots[j] == slots[1..][j - 1];
        Ok([slots[0].value] + rest)
  }

  /** The forward replay both replayers run: a list of nulls as long as the
      input, each position's value written into its slot in position order,
      then every slot read out. */
  method ScatterAndUnwrap<R>(t: seq<nat>, values: seq<R>) returns (r: Result<seq<R>>)
    requires |t| == |values| && InRange(t, |values|)
    ensures r == Unwrapped(Scattered(t, values, |t|))
  {
    var sorted := new Option<R>[|values|](_ => None);
    for i := 0 to |t|
      invariant sorted[..] == Scattered(t, values, i)
    {
      sorted[t[i]] := Some(values[i]);
    }
    ghost var slots := sorted[..];
    var out: seq<R> := [];
    for j := 0 to sorted.Length
      invariant |out| == j
      invariant forall k :: 0 <= k < j ==> slots[k] == Some(out[k])
    {
      if sorted[j].None? {
        assert !slots[j].Some?;
        return Err(NullPointer);
      }
      out := out + [sorted[j].value];
    }
    var done := Unwrapped(slots);
    assert done.Ok?;
    assert forall k :: 0 <= k < |out| ==> done.value[k] == out[k];
    assert done.value == out;
    return Ok(out);
  }

  /** The list read back through the map: element `i` is `values[t[i]]`. */
  function Gathered<R>(t: seq<nat>, values: seq<R>): (r: seq<R>)
    requires InRange(t, |values|)
    ensures |r| == |t| && forall i :: 0 <= i < |t| ==> r[i] == values[t[i]]
  {
    seq(|t|, i requires 0 <= i < |t| => values[t[i]])
  }

  /** For an injective map, scattering fills every slot, slot `t[i]` with
      `values[i]`, and gathering back returns the values. */
  lemma ScatterGather<R>(t: seq<nat>, values: seq<R>)
    requires |t| == |values| && InRange(t, |values|) && Injective(t)
    ensures forall j :: 0 <= j < |values| ==> Scattered(t, values, |t|)[j].Some?
    ensures forall i :: 0 <= i < |t| ==> Scattered(t, values, |t|)[t[i]] == Some(values[i])
  {
    var slots := Scattered(t, values, |t|);
    InjectiveIffOnto(t, |t|);
    forall j | 0 <= j < |values|
      ensures slots[j].Some?
    {
      assert j in Image(t);
      ScatteredFilled(t, values, |t|, j);
    }
    forall i | 0 <= i < |t|
      ensures slots[t[i]] == Some(values[i])
    {
      ScatteredLastWriter(t, values, |t|, i);
    }
  }
}
