/** What both barrier controllers share
    (pipe/src/main/java/com/udeyrishi/pipe/internal/barrier/BarrierController.kt):
    the calls a controller makes on its barriers, and the registration map
    from each barrier to whether it is blocked. The map is a
    `mutableMapOf`, which iterates in insertion order; it is modelled as
    its keys in that order plus the set of keys mapped to `true`. */
module BarrierController {
  import opened Common
  import opened Barrier
  import IndexMaps

  /** A call a controller makes on one of its barriers:
      `barrier.lift(result)`, `barrier.interrupt()` or
      `barrier.markAsFailed(e)`. */
  datatype Command<T> = LiftBarrier(id: BarrierId, result: Option<T>) | InterruptBarrier(id: BarrierId) | FailBarrier(id: BarrierId, error: Cause)

  /** The same call made on each of `ids`, in order (a `forEach` over the
      map). */
  function Each<T>(ids: seq<BarrierId>, call: BarrierId -> Command<T>): (r: seq<Command<T>>)
    ensures |r| == |ids| && forall i :: 0 <= i < |ids| ==> r[i] == call(ids[i])
  {
    seq(|ids|, i requires 0 <= i < |ids| => call(ids[i]))
  }

  /** The registration map's invariant: every key once, and only keys are
      marked as blocked. */
  ghost predicate Registry(order: seq<BarrierId>, blocked: set<BarrierId>) {
    IndexMaps.Distinct(order) && forall b :: b in blocked ==> b in order
  }

  /** The keys mapped to `true` (the blocked barriers), in map order. */
  function Marked(order: seq<BarrierId>, blocked: set<BarrierId>): (r: seq<BarrierId>)
    ensures |r| <= |order|
    ensures forall b :: b in r <==> b in order && b in blocked
    ensures IndexMaps.Distinct(order) ==> IndexMaps.Distinct(r)
    decreases |order|
  {
    if order == [] then []
    else
      var rest := Marked(order[1..], blocked);
      assert forall b :: b in order[1..] ==> b in order;
      if order[0] in blocked then [order[0]] + rest else rest
  }

  /** The keys other than `b`, in map order (`barriers.remove(b)`). */
  function Without(order: seq<BarrierId>, b: BarrierId): (r: seq<BarrierId>)
    ensures forall x :: x in r <==> x in order && x != b
    ensures IndexMaps.Distinct(order) ==> IndexMaps.Distinct(r)
    decreases |order|
  {
    if order == [] then []
    else
      var rest := Without(order[1..], b);
      assert forall x :: x in order[1..] ==> x in order;
      DistinctTail(order);
      if order[0] == b then rest else [order[0]] + rest
  }

  /** The tail of a sequence without repetitions has none either, and
      does not hold the head. */
  lemma DistinctTail<K>(order: seq<K>)
    requires order != []
    ensures IndexMaps.Distinct(order) ==> IndexMaps.Distinct(order[1..]) && order[0] !in order[1..]
  {
    if IndexMaps.Distinct(order) {
      assert forall i :: 0 <= i < |order| - 1 ==> order[1..][i] == order[i + 1];
    }
  }

  /** Registering a barrier adds it at the end of the map, unblocked. */
  lemma {:induction false} MarkedAppend(order: seq<BarrierId>, blocked: set<BarrierId>, b: BarrierId)
    ensures Marked(order + [b], blocked) == Marked(order, blocked) + (if b in blocked then [b] else [])
    decreases |order|
  {
    if order == [] {
      assert [b][1..] == [];
    } else {
      assert (order + [b])[1..] == order[1..] + [b];
      MarkedAppend(order[1..], blocked, b);
    }
  }

  /** Marking a registered, unblocked barrier as blocked adds exactly one
      blocked barrier. */
  lemma {:induction false} MarkedBlocking(order: seq<BarrierId>, blocked: set<BarrierId>, b: BarrierId)
    requires IndexMaps.Distinct(order) && b in order && b !in blocked
    ensures |Marked(order, blocked + {b})| == |Marked(order, blocked)| + 1
    decreases |order|
  {
    var rest := order[1..];
    if order[0] == b {
      assert b !in rest;
      MarkedIgnoresOthers(rest, blocked, b);
    } else {
      assert b in rest;
      MarkedBlocking(rest, blocked, b);
    }
  }

  /** Marking a barrier that is not in the map changes nothing. */
  lemma {:induction false} MarkedIgnoresOthers(order: seq<BarrierId>, blocked: set<BarrierId>, b: BarrierId)
    requires b !in order
    ensures Marked(order, blocked + {b}) == Marked(order, blocked)
    decreases |order|
  {
    if order != [] {
      MarkedIgnoresOthers(order[1..], blocked, b);
    }
  }

  /** Nothing is blocked once every flag is reset. */
  lemma {:induction false} MarkedNone(order: seq<BarrierId>)
    ensures Marked(order, {}) == []
    decreases |order|
  {
    if order != [] {
      MarkedNone(order[1..]);
    }
  }
}
