/** The counted barrier controller
    (pipe/src/main/java/com/udeyrishi/pipe/internal/barrier/CountedBarrierControllerImpl.kt):
    it lifts its barriers together once the barriers that arrived plus the
    pipelines that reported an error reach its capacity. An optional action
    then turns the sorted inputs into outputs, which are mapped back so
    that each blocked barrier is lifted with its own output. */
module CountedBarrierController {
  import opened Common
  import opened Barrier
  import opened BarrierController
  import IndexMaps
  import SortReplayer
  import RankedReplayer

  /** What the barrier-lifted action does with the sorted inputs. */
  datatype ActionOutcome<T> = Outputs(values: seq<T>) | ActionThrew(cause: Cause)

  /** How the lift coroutine ends: with one result per blocked barrier, in
      the action's catch block, or by throwing out of the coroutine. */
  datatype LiftOutcome<T> = Delivered(results: seq<T>) | ActionFailed(cause: Cause) | Crashed(error: Error)

  /** The result mapping of `onFinalInputPushed`. Without an action the
      inputs are the results. With one, the inputs are sorted, the action
      runs on the sorted list, and the sort is undone on its outputs; the
      action's exception, or the size check of the reverse mapping, ends in
      the catch block. A sort replayer that cannot be built throws outside
      the `try`. */
  function LiftResults<T(==)>(unsorted: seq<T>, sort: seq<T> -> seq<T>, action: Option<seq<T> -> ActionOutcome<T>>): (r: LiftOutcome<T>)
    ensures action.None? ==> r == Delivered(unsorted)
    ensures r.Delivered? ==> |r.results| == |unsorted|
    ensures r.Crashed? ==> r.error == IllegalArgument && (|sort(unsorted)| != |unsorted| || exists i :: 0 <= i < |unsorted| && unsorted[i] !in sort(unsorted))
  {
    match action
    case None => Delivered(unsorted)
    case Some(act) =>
      var sorted := sort(unsorted);
      match SortReplayer.Create(unsorted, sorted, false)
      case Err(e) => Crashed(e)
      case Ok(rp) =>
        match act(sorted)
        case ActionThrew(c) => ActionFailed(c)
        case Outputs(outputs) =>
          match SortReplayer.ReverseApply(rp, outputs)
          case Err(e) => ActionFailed(Raised(e))
          case Ok(results) => Delivered(results)
  }

  /** The result mapping with the sort undone by occurrence matching, so
      that equal inputs keep their own outputs. */
  function LiftResultsRanked<T(==)>(unsorted: seq<T>, sort: seq<T> -> seq<T>, action: Option<seq<T> -> ActionOutcome<T>>): (r: LiftOutcome<T>)
    ensures action.None? ==> r == Delivered(unsorted)
    ensures r.Delivered? ==> |r.results| == |unsorted|
    ensures r.Crashed? ==> r.error == IllegalArgument && multiset(sort(unsorted)) != multiset(unsorted)
  {
    match action
    case None => Delivered(unsorted)
    case Some(act) =>
      var sorted := sort(unsorted);
      match RankedReplayer.CreateRanked(unsorted, sorted, false)
      case Err(e) => Crashed(e)
      case Ok(rp) =>
        match act(sorted)
        case ActionThrew(c) => ActionFailed(c)
        case Outputs(outputs) =>
          match SortReplayer.ReverseApply(rp, outputs)
          case Err(e) => ActionFailed(Raised(e))
          case Ok(results) => Delivered(results)
  }

  /** The inputs of the given barriers, in order. */
  function InputsOf<T>(ids: seq<BarrierId>, inputOf: map<BarrierId, T>): (r: seq<T>)
    requires forall i :: 0 <= i < |ids| ==> ids[i] in inputOf
    ensures |r| == |ids| && forall i :: 0 <= i < |ids| ==> r[i] == inputOf[ids[i]]
  {
    seq(|ids|, i requires 0 <= i < |ids| => inputOf[ids[i]])
  }

  /** How `onFinalInputPushed` ends for a registration map: it throws
      IllegalStateException when the unblocked barriers are not exactly the
      expected absentees or a blocked barrier has no input, and otherwise
      maps the blocked barriers' inputs to results. */
  function Settlement<T(==)>(order: seq<BarrierId>, blocked: set<BarrierId>, expectedAbsentees: nat, inputOf: map<BarrierId, T>,
                             sort: seq<T> -> seq<T>, action: Option<seq<T> -> ActionOutcome<T>>): (r: LiftOutcome<T>)
    ensures r == Crashed(IllegalState) <==>
      || |order| - |Marked(order, blocked)| != expectedAbsentees
      || exists i :: 0 <= i < |Marked(order, blocked)| && Marked(order, blocked)[i] !in inputOf
    ensures r.Delivered? ==> |r.results| == |Marked(order, blocked)|
    ensures action.None? && r.Delivered? ==> forall i :: 0 <= i < |r.results| ==> r.results[i] == inputOf[Marked(order, blocked)[i]]
  {
    var marked := Marked(order, blocked);
    if |order| - |marked| != expectedAbsentees then Crashed(IllegalState)
    else if exists i :: 0 <= i < |marked| && marked[i] !in inputOf then Crashed(IllegalState)
    else LiftResults(InputsOf(marked, inputOf), sort, action)
  }

  /** `blockedBarriers.zip(results)`: each barrier lifted with the result at
      its position, as far as the shorter list goes. */
  function Zipped<T>(ids: seq<BarrierId>, results: seq<T>): (r: seq<Command<T>>)
    ensures |r| == if |ids| < |results| then |ids| else |results|
    ensures forall i :: 0 <= i < |r| ==> r[i] == LiftBarrier(ids[i], Some(results[i]))
  {
    if ids == [] || results == [] then [] else [LiftBarrier(ids[0], Some(results[0]))] + Zipped(ids[1..], results[1..])
  }

  /** `markAsFailed` with the action's exception wrapped in a
      BarrierLiftedActionException. */
  function Failing<T>(cause: Cause): BarrierId -> Command<T> {
    (id: BarrierId) => FailBarrier(id, BarrierLiftedAction(cause))
  }

  /** `barrier.interrupt()`. */
  function Interruption<T>(): BarrierId -> Command<T> {
    (id: BarrierId) => InterruptBarrier(id)
  }

  /** The controller's fields as a value. */
  datatype Counters = Counters(capacity: int, arrivals: nat, registered: nat, absentees: nat, interrupted: bool,
                               order: seq<BarrierId>, blocked: set<BarrierId>)

  /** What the setters and the lock keep true: no more arrivals than
      registrations, no more registrations than the capacity, a registration
      map whose blocked barriers all arrived and whose other barriers are
      still to come, and no barriers once interrupted. */
  ghost predicate Consistent(c: Counters) {
    && c.arrivals <= c.registered
    && (c.registered == 0 || c.registered <= c.capacity)
    && Registry(c.order, c.blocked)
    && |Marked(c.order, c.blocked)| <= c.arrivals
    && c.arrivals + |c.order| - |Marked(c.order, c.blocked)| <= c.registered
    && (c.interrupted ==> c.order == [])
  }

  class CountedBarrierControllerImpl<T(==)> {
    var capacity: int
    var arrivalCount: nat
    var registeredCount: nat
    var expectedAbsenteeCount: nat
    var interrupted: bool
    /** `barriers`: its keys in order, and the keys mapped to `true`. */
    var order: seq<BarrierId>
    var blocked: set<BarrierId>
    const action: Option<seq<T> -> ActionOutcome<T>>
    /** `List.sorted()` on the inputs' natural order. */
    const sort: seq<T> -> seq<T>

    function View(): Counters
      reads this
    {
      Counters(capacity, arrivalCount, registeredCount, expectedAbsenteeCount, interrupted, order, blocked)
    }

    ghost predicate Valid()
      reads this
    {
      Consistent(View())
    }

    /** `isReadyToLift`. */
    predicate IsReadyToLift()
      reads this
    {
      arrivalCount + expectedAbsenteeCount == capacity
    }

    constructor (capacity: int, action: Option<seq<T> -> ActionOutcome<T>>, sort: seq<T> -> seq<T>)
      ensures Valid() && View() == Counters(capacity, 0, 0, 0, false, [], {})
      ensures this.action == action && this.sort == sort
    {
      this.capacity := capacity;
      arrivalCount := 0;
      registeredCount := 0;
      expectedAbsenteeCount := 0;
      interrupted := false;
      order := [];
      blocked := {};
      this.action := action;
      this.sort := sort;
    }

    /** `notifyError()`: one more expected absentee; the lift is launched
        when that makes the controller ready. */
    method NotifyError() returns (launch: bool)
      modifies this
      ensures View() == old(View()).(absentees := old(expectedAbsenteeCount) + 1)
      ensures launch <==> IsReadyToLift()
      ensures old(Valid()) ==> Valid()
    {
      expectedAbsenteeCount := expectedAbsenteeCount + 1;
      launch := IsReadyToLift();
    }

    /** `setCapacity(capacity)`: a capacity below the registrations throws
        IllegalStateException and changes nothing; otherwise the lift is
        launched when the new capacity makes the controller ready. */
    method SetCapacity(c: int) returns (r: Outcome, launch: bool)
      modifies this
      ensures r.Fail? <==> old(registeredCount) > c
      ensures r.Fail? ==> r.error == IllegalState && View() == old(View()) && !launch
      ensures r.Pass? ==> View() == old(View()).(capacity := c) && (launch <==> IsReadyToLift())
      ensures old(Valid()) ==> Valid()
    {
      if registeredCount > c {
        return Fail(IllegalState), false;
      }
      capacity := c;
      return Pass, IsReadyToLift();
    }

    /** `onBarrierCreated(barrier)`: a barrier registered twice throws
        IllegalArgumentException; once interrupted, a new barrier is
        interrupted and not registered; a registration beyond the capacity
        throws IllegalStateException from the setter before the map
        changes; otherwise the barrier is registered, unblocked. */
    method OnBarrierCreated(b: BarrierId) returns (r: Outcome, commands: seq<Command<T>>)
      modifies this
      ensures b in old(order) ==> r == Fail(IllegalArgument) && commands == [] && View() == old(View())
      ensures b !in old(order) && old(interrupted) ==> r == Pass && commands == [InterruptBarrier(b)] && View() == old(View())
      ensures b !in old(order) && !old(interrupted) && old(registeredCount) + 1 > old(capacity) ==>
        r == Fail(IllegalState) && commands == [] && View() == old(View())
      ensures b !in old(order) && !old(interrupted) && old(registeredCount) + 1 <= old(capacity) ==>
        && r == Pass && commands == []
        && View() == old(View()).(registered := old(registeredCount) + 1, order := old(order) + [b])
      ensures old(Valid()) ==> Valid()
    {
      ghost var wasValid := Valid();
      if b in order {
        return Fail(IllegalArgument), [];
      }
      if interrupted {
        return Pass, [InterruptBarrier(b)];
      }
      if registeredCount + 1 > capacity {
        return Fail(IllegalState), [];
      }
      if wasValid {
        MarkedAppend(order, blocked, b);
        assert IndexMaps.Distinct(order + [b]) by {
          assert forall i :: 0 <= i < |order| ==> (order + [b])[i] == order[i];
        }
      }
      registeredCount := registeredCount + 1;
      order := order + [b];
      return Pass, [];
    }

    /** `onBarrierBlocked(barrier)`: an unregistered barrier throws
        IllegalArgumentException unless the controller was interrupted, in
        which case it is ignored; a barrier blocked twice throws
        IllegalArgumentException; otherwise the barrier is marked blocked and
        counted as arrived, and the lift is launched when that makes the
        controller ready. The arrival setter throws IllegalStateException
        past the registrations, after the barrier was marked; under the
        invariant it never does. */
    method OnBarrierBlocked(b: BarrierId) returns (r: Outcome, launch: bool)
      modifies this
      ensures b !in old(order) ==>
        r == (if old(interrupted) then Pass else Fail(IllegalArgument)) && !launch && View() == old(View())
      ensures b in old(order) && b in old(blocked) ==> r == Fail(IllegalArgument) && !launch && View() == old(View())
      ensures b in old(order) && b !in old(blocked) && old(arrivalCount) + 1 > old(registeredCount) ==>
        r == Fail(IllegalState) && !launch && View() == old(View()).(blocked := old(blocked) + {b})
      ensures b in old(order) && b !in old(blocked) && old(arrivalCount) + 1 <= old(registeredCount) ==>
        && r == Pass
        && View() == old(View()).(arrivals := old(arrivalCount) + 1, blocked := old(blocked) + {b})
        && (launch <==> IsReadyToLift())
      ensures old(Valid()) ==> Valid() && r != Fail(IllegalState)
    {
      ghost var wasValid := Valid();
      if b !in order {
        if !interrupted {
          return Fail(IllegalArgument), false;
        }
        return Pass, false;
      }
      if b in blocked {
        return Fail(IllegalArgument), false;
      }
      if wasValid {
        MarkedBlocking(order, blocked, b);
      }
      blocked := blocked + {b};
      if arrivalCount + 1 > registeredCount {
        return Fail(IllegalState), false;
      }
      arrivalCount := arrivalCount + 1;
      return Pass, IsReadyToLift();
    }

    /** `onBarrierInterrupted(barrier)`: nothing once the controller is
        ready to lift; for a registered barrier, the controller becomes
        interrupted, interrupts every other registered barrier in map order
        and empties the map; an unknown barrier throws
        IllegalArgumentException unless the controller was interrupted. */
    method OnBarrierInterrupted(b: BarrierId) returns (r: Outcome, commands: seq<Command<T>>)
      modifies this
      ensures old(IsReadyToLift()) ==> r == Pass && commands == [] && View() == old(View())
      ensures !old(IsReadyToLift()) && b in old(order) ==>
        && r == Pass
        && commands == Each(Without(old(order), b), Interruption())
        && View() == old(View()).(interrupted := true, order := [], blocked := {})
      ensures !old(IsReadyToLift()) && b !in old(order) ==>
        r == (if old(interrupted) then Pass else Fail(IllegalArgument)) && commands == [] && View() == old(View())
      ensures old(interrupted) ==> interrupted
      ensures old(Valid()) ==> Valid()
    {
      commands := [];
      if IsReadyToLift() {
        return Pass, [];
      }
      if b in order {
        interrupted := true;
        var others := Without(order, b);
        for i := 0 to |others|
          invariant commands == Each(others[..i], Interruption())
        {
          assert others[..i + 1] == others[..i] + [others[i]];
          commands := commands + [InterruptBarrier(others[i])];
        }
        assert others[..|others|] == others;
        order := [];
        blocked := {};
        return Pass, commands;
      }
      if !interrupted {
        return Fail(IllegalArgument), [];
      }
      return Pass, [];
    }

    /** `onFinalInputPushed()`, the launched lift. It throws
        IllegalStateException (changing nothing) when the absentees or the
        inputs are wrong. When the action fails, every flag is reset, the
        arrival and absentee counts go back to 0 and every registered
        barrier is marked as failed with the wrapped exception; the map
        keeps its keys. Otherwise each blocked barrier is lifted with its
        result and the map is emptied; the counts stay. */
    method FinalInputPushed(inputOf: map<BarrierId, T>) returns (r: Outcome, commands: seq<Command<T>>)
      requires Valid()
      modifies this
      ensures Valid()
      ensures var s := Settlement(old(order), old(blocked), old(expectedAbsenteeCount), inputOf, sort, action);
        && (s.Crashed? ==> r == Fail(s.error) && commands == [] && View() == old(View()))
        && (s.ActionFailed? ==>
              && r == Pass
              && commands == Each(old(order), Failing(s.cause))
              && View() == old(View()).(arrivals := 0, absentees := 0, blocked := {}))
        && (s.Delivered? ==>
              && r == Pass
              && commands == Zipped(Marked(old(order), old(blocked)), s.results)
              && View() == old(View()).(order := [], blocked := {}))
    {
      var marked := Marked(order, blocked);
      if |order| - |marked| != expectedAbsenteeCount {
        return Fail(IllegalState), [];
      }
      if exists i :: 0 <= i < |marked| && marked[i] !in inputOf {
        return Fail(IllegalState), [];
      }
      var outcome := LiftResults(InputsOf(marked, inputOf), sort, action);
      assert outcome == Settlement(order, blocked, expectedAbsenteeCount, inputOf, sort, action);
      match outcome
      case Crashed(e) =>
        return Fail(e), [];
      case ActionFailed(c) =>
        commands := FailAll(c);
        return Pass, commands;
      case Delivered(results) =>
        commands := LiftBlocked(marked, results);
        return Pass, commands;
    }

    /** The catch block of the lift: every flag reset, both counts back to
        0, and every registered barrier marked as failed. */
    method FailAll(c: Cause) returns (commands: seq<Command<T>>)
      requires Valid()
      modifies this
      ensures Valid()
      ensures commands == Each(old(order), Failing(c))
      ensures View() == old(View()).(arrivals := 0, absentees := 0, blocked := {})
    {
      for i := 0 to |order|
        invariant View() == old(View()).(blocked := blocked) && blocked <= old(blocked)
        invariant forall j :: 0 <= j < i ==> order[j] !in blocked
      {
        blocked := blocked - {order[i]};
      }
      assert blocked == {};
      MarkedNone(order);
      arrivalCount := 0;
      expectedAbsenteeCount := 0;
      commands := [];
      for i := 0 to |order|
        invariant View() == old(View()).(arrivals := 0, absentees := 0, blocked := {})
        invariant commands == Each(order[..i], Failing(c))
      {
        assert order[..i + 1] == order[..i] + [order[i]];
        commands := commands + [FailBarrier(order[i], BarrierLiftedAction(c))];
      }
      assert order[..|order|] == order;
    }

    /** The end of a successful lift: each blocked barrier lifted with its
        result, then the map emptied. */
    method LiftBlocked(marked: seq<BarrierId>, results: seq<T>) returns (commands: seq<Command<T>>)
      requires Valid() && |marked| == |results|
      modifies this
      ensures Valid()
      ensures commands == Zipped(marked, results)
      ensures View() == old(View()).(order := [], blocked := {})
    {
      commands := [];
      for i := 0 to |marked|
        invariant |commands| == i
        invariant forall j :: 0 <= j < i ==> commands[j] == LiftBarrier(marked[j], Some(results[j]))
      {
        commands := commands + [LiftBarrier(marked[i], Some(results[i]))];
      }
      order := [];
      blocked := {};
    }
  }

  /** A sort that only reorders its input lets the sort replayer be built. */
  lemma PermutationBuildsReplayer<T>(unsorted: seq<T>, sorted: seq<T>)
    requires multiset(sorted) == multiset(unsorted)
    ensures SortReplayer.Create(unsorted, sorted, false).Ok?
  {
    assert |sorted| == |multiset(sorted)| == |multiset(unsorted)| == |unsorted|;
    forall i | 0 <= i < |unsorted|
      ensures unsorted[i] in sorted
    {
      assert unsorted[i] in multiset(unsorted);
    }
  }

  /** An element of a list without repetitions occurs at most once. */
  lemma {:induction false} DistinctCountsOnce<T>(s: seq<T>, x: T)
    requires IndexMaps.Distinct(s)
    ensures multiset(s)[x] <= 1
    decreases |s|
  {
    if s != [] {
      DistinctTail(s);
      assert s == [s[0]] + s[1..];
      DistinctCountsOnce(s[1..], x);
    }
  }

  /** An element at two positions occurs at least twice. */
  lemma RepeatCountsTwice<T>(s: seq<T>, k1: nat, k2: nat)
    requires k1 < k2 < |s| && s[k1] == s[k2]
    ensures multiset(s)[s[k1]] >= 2
  {
    assert s == s[..k1 + 1] + s[k1 + 1..];
    assert s[k1] in s[..k1 + 1];
    assert s[k2] == s[k1 + 1..][k2 - k1 - 1];
    assert s[k1] in multiset(s[k1 + 1..]);
  }

  /** A reordering of a list without repetitions has none either. */
  lemma PermutationKeepsDistinct<T>(unsorted: seq<T>, sorted: seq<T>)
    requires multiset(sorted) == multiset(unsorted) && IndexMaps.Distinct(unsorted)
    ensures IndexMaps.Distinct(sorted)
  {
    forall k1, k2 | 0 <= k1 < k2 < |sorted|
      ensures sorted[k1] != sorted[k2]
    {
      if sorted[k1] == sorted[k2] {
        RepeatCountsTwice(sorted, k1, k2);
        DistinctCountsOnce(unsorted, sorted[k1]);
      }
    }
  }

  /** With distinct inputs, a sort that reorders them and an action that
      returns one output per sorted input, each blocked barrier gets the
      output computed at its own input's sorted position. */
  lemma EachBarrierGetsItsOwnOutput<T>(unsorted: seq<T>, sort: seq<T> -> seq<T>, act: seq<T> -> ActionOutcome<T>, outputs: seq<T>)
    requires multiset(sort(unsorted)) == multiset(unsorted) && IndexMaps.Distinct(unsorted)
    requires act(sort(unsorted)) == Outputs(outputs) && |outputs| == |unsorted|
    ensures LiftResults(unsorted, sort, Some(act)).Delivered?
    ensures forall i, k :: 0 <= i < |unsorted| && 0 <= k < |unsorted| && sort(unsorted)[k] == unsorted[i] ==>
      LiftResults(unsorted, sort, Some(act)).results[i] == outputs[k]
  {
    var sorted := sort(unsorted);
    PermutationBuildsReplayer(unsorted, sorted);
    PermutationKeepsDistinct(unsorted, sorted);
    var rp := SortReplayer.Create(unsorted, sorted, false).value;
    var t := rp.transformations.value;
    var results := LiftResults(unsorted, sort, Some(act)).results;
    assert results == IndexMaps.Gathered(t, outputs);
    forall i, k | 0 <= i < |unsorted| && 0 <= k < |unsorted| && sorted[k] == unsorted[i]
      ensures results[i] == outputs[k]
    {
      assert sorted[t[i]] == unsorted[i];
      assert t[i] == k;
    }
  }

  /** An action that throws, or returns a list of the wrong length, makes
      every registered barrier fail instead of being lifted. */
  lemma ActionErrorsFailTheLift<T>(unsorted: seq<T>, sort: seq<T> -> seq<T>, act: seq<T> -> ActionOutcome<T>)
    requires multiset(sort(unsorted)) == multiset(unsorted)
    requires act(sort(unsorted)).ActionThrew? || |act(sort(unsorted)).values| != |unsorted|
    ensures LiftResults(unsorted, sort, Some(act)) ==
      if act(sort(unsorted)).ActionThrew? then ActionFailed(act(sort(unsorted)).cause) else ActionFailed(Raised(IllegalArgument))
  {
    PermutationBuildsReplayer(unsorted, sort(unsorted));
  }

  /** Two blocked barriers with the equal input 5 and an action that
      answers `[1, 2]`: both barriers are lifted with 2, and the output 1 is
      delivered to no barrier. */
  lemma DuplicateInputsLoseAnOutput()
    ensures LiftResults([5, 5], (s: seq<int>) => s, Some((s: seq<int>) => Outputs([1, 2]))) == Delivered([2, 2])
  {
    RankedReplayer.RepeatedElementCounterexample();
    assert IndexMaps.Gathered([1, 1], [1, 2]) == [2, 2];
  }

  /** With occurrence matching, any sort that reorders the inputs and an
      action that returns one output per sorted input deliver every output
      to exactly one barrier: the barrier whose input sits at that sorted
      position, equal inputs matched in their original order. */
  lemma EachBarrierGetsItsOwnOutputRanked<T>(unsorted: seq<T>, sort: seq<T> -> seq<T>, act: seq<T> -> ActionOutcome<T>, outputs: seq<T>)
    requires multiset(sort(unsorted)) == multiset(unsorted)
    requires act(sort(unsorted)) == Outputs(outputs) && |outputs| == |unsorted|
    ensures LiftResultsRanked(unsorted, sort, Some(act)).Delivered?
    ensures var t := RankedReplayer.RankedPositions(unsorted, sort(unsorted));
      && IndexMaps.Injective(t)
      && IndexMaps.Onto(t, |outputs|)
      && forall i :: 0 <= i < |unsorted| ==>
           sort(unsorted)[t[i]] == unsorted[i] && LiftResultsRanked(unsorted, sort, Some(act)).results[i] == outputs[t[i]]
  {
    var sorted := sort(unsorted);
    RankedReplayer.CreateRankedOfPermutation(unsorted, sorted);
    var rp := SortReplayer.Replayer(Some(RankedReplayer.RankedPositions(unsorted, sorted)), |unsorted|);
    assert RankedReplayer.CreateRanked(unsorted, sorted, false) == Ok(rp);
    var t := rp.transformations.value;
    assert SortReplayer.ReverseApply(rp, outputs) == Ok(IndexMaps.Gathered(t, outputs));
    RankedReplayer.RankedPositionsInjective(unsorted, sorted);
    IndexMaps.InjectiveIffOnto(t, |outputs|);
  }
}
