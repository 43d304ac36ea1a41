/** The manual barrier controller
    (pipe/src/main/java/com/udeyrishi/pipe/internal/barrier/ManualBarrierControllerImpl.kt):
    it keeps every barrier registered with it blocked until its user calls
    `lift()`, once; barriers registered after that are lifted at once. */
module ManualBarrierController {
  import opened Common
  import opened Barrier
  import opened BarrierController
  import ImmutableAfterSet

  /** `lift()` lifts the barriers with a null result. */
  function Lifting<T>(): BarrierId -> Command<T> {
    (id: BarrierId) => LiftBarrier(id, None)
  }

  class ManualBarrierControllerImpl<T> {
    /** `unliftedBarriers`: its keys in order, and the keys mapped to `true`. */
    var unlifted: seq<BarrierId>
    var blocked: set<BarrierId>
    /** `lifted`, a set-once property that starts `false`. */
    const lifted: ImmutableAfterSet.ImmutableAfterSet<bool>

    ghost predicate Valid()
      reads this, lifted
    {
      && Registry(unlifted, blocked)
      && (lifted.value <==> lifted.count > 0)
    }

    constructor ()
      ensures Valid() && unlifted == [] && blocked == {} && !lifted.value
      ensures fresh(lifted)
    {
      unlifted := [];
      blocked := {};
      lifted := new ImmutableAfterSet.ImmutableAfterSet(false);
    }

    /** `onBarrierCreated(barrier)`: once lifted, the new barrier is lifted
        at once and not registered; a barrier registered twice throws
        IllegalArgumentException; otherwise it is registered unblocked. */
    method OnBarrierCreated(b: BarrierId) returns (r: Outcome, commands: seq<Command<T>>)
      requires Valid()
      modifies this
      ensures Valid()
      ensures lifted.value ==>
        r == Pass && commands == [LiftBarrier(b, None)] && unlifted == old(unlifted) && blocked == old(blocked)
      ensures !lifted.value && b in old(unlifted) ==>
        r == Fail(IllegalArgument) && commands == [] && unlifted == old(unlifted) && blocked == old(blocked)
      ensures !lifted.value && b !in old(unlifted) ==>
        r == Pass && commands == [] && unlifted == old(unlifted) + [b] && blocked == old(blocked)
    {
      if lifted.Get() {
        return Pass, [LiftBarrier(b, None)];
      }
      if b in unlifted {
        return Fail(IllegalArgument), [];
      }
      assert IndexMaps.Distinct(unlifted + [b]) by {
        assert forall i :: 0 <= i < |unlifted| ==> (unlifted + [b])[i] == unlifted[i];
      }
      unlifted := unlifted + [b];
      return Pass, [];
    }

    /** `onBarrierBlocked(barrier)`: before the lift an unregistered barrier
        throws IllegalArgumentException, and so does a barrier blocked
        twice; otherwise the barrier is marked blocked (after the lift a
        barrier unknown to the map is added to it, blocked). */
    method OnBarrierBlocked(b: BarrierId) returns (r: Outcome)
      requires Valid()
      modifies this
      ensures Valid()
      ensures r.Fail? <==> (b !in old(unlifted) && !lifted.value) || b in old(blocked)
      ensures r.Fail? ==> r.error == IllegalArgument && unlifted == old(unlifted) && blocked == old(blocked)
      ensures r.Pass? ==>
        && unlifted == (if b in old(unlifted) then old(unlifted) else old(unlifted) + [b])
        && blocked == old(blocked) + {b}
    {
      if b !in unlifted && !lifted.Get() {
        return Fail(IllegalArgument);
      }
      if b in blocked {
        return Fail(IllegalArgument);
      }
      if b !in unlifted {
        assert IndexMaps.Distinct(unlifted + [b]) by {
          assert forall i :: 0 <= i < |unlifted| ==> (unlifted + [b])[i] == unlifted[i];
        }
        unlifted := unlifted + [b];
      }
      blocked := blocked + {b};
      return Pass;
    }

    /** `lift()`: the first call sets `lifted`, lifts every registered
        barrier once, in registration order, and empties the map; later
        calls do nothing. */
    method Lift() returns (commands: seq<Command<T>>)
      requires Valid()
      modifies this, lifted
      ensures Valid() && lifted.value
      ensures !old(lifted.value) ==> commands == Each(old(unlifted), Lifting()) && unlifted == [] && blocked == {}
      ensures old(lifted.value) ==>
        commands == [] && unlifted == old(unlifted) && blocked == old(blocked) && lifted.View() == old(lifted.View())
    {
      commands := [];
      if !lifted.Get() {
        var taken := lifted.SetValue(true);
        assert taken == Pass;
        for i := 0 to |unlifted|
          invariant commands == Each(unlifted[..i], Lifting())
        {
          assert unlifted[..i + 1] == unlifted[..i] + [unlifted[i]];
          commands := commands + [LiftBarrier(unlifted[i], None)];
        }
        assert unlifted[..|unlifted|] == unlifted;
        unlifted := [];
        blocked := {};
      }
    }

    /** `onBarrierInterrupted(barrier)`: the barrier leaves the map, so a
        later `lift()` does not lift it; an unknown barrier throws
        IllegalArgumentException. */
    method OnBarrierInterrupted(b: BarrierId) returns (r: Outcome)
      requires Valid()
      modifies this
      ensures Valid()
      ensures r.Fail? <==> b !in old(unlifted)
      ensures r.Fail? ==> r.error == IllegalArgument && unlifted == old(unlifted) && blocked == old(blocked)
      ensures r.Pass? ==> unlifted == Without(old(unlifted), b) && blocked == old(blocked) - {b}
      ensures b !in unlifted
    {
      if b !in unlifted {
        return Fail(IllegalArgument);
      }
      unlifted := Without(unlifted, b);
      blocked := blocked - {b};
      return Pass;
    }
  }
}
