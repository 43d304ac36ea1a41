/** The job state machine of the middle library generation
    (pipe/src/main/java/com/udeyrishi/pipe/state/State.kt, which the pipecore
    orchestrator uses): a failed job accumulates a list of causes, and
    `Failure.onFailure` appends to that list in place. */
module CausesState {
  import opened Common
  import JobState

  datatype State =
    | Scheduled
    | Attempting(step: string)
    | AttemptFailed(step: string, cause: Cause)
    | AttemptSuccessful(step: string)
    | Success
    | Failure(causes: seq<Cause>)
  {
    predicate IsRunning() { Attempting? || AttemptFailed? || AttemptSuccessful? }
    predicate IsTerminal() { Success? || Failure? }
  }

  /** `onSuccess(nextStep)`: never reaches a failed state, moves to the
      named step when one is given, and throws IllegalStateException
      exactly on `Failure`. */
  function OnSuccess(s: State, nextStep: Option<string>): (r: Result<State>)
    ensures r.Ok? ==> !r.value.Failure? && !r.value.AttemptFailed? && !r.value.Scheduled?
    ensures r.Ok? && nextStep.Some? ==> r.value == Attempting(nextStep.value)
    ensures r.Ok? && nextStep.None? ==> r.value.Success? || (s.Attempting? && r.value == AttemptSuccessful(s.step))
    ensures r.Err? ==> (r.error == IllegalState <==> s.Failure?) && (r.error == IllegalState || r.error == IllegalArgument)
  {
    match s
    case Scheduled =>
      if nextStep.Some? then Ok(Attempting(nextStep.value)) else Ok(Success)
    case Attempting(step) =>
      if nextStep.Some? then Err(IllegalArgument) else Ok(AttemptSuccessful(step))
    case AttemptFailed(step, _) =>
      if nextStep != Some(step) then Err(IllegalArgument) else Ok(Attempting(step))
    case AttemptSuccessful(_) =>
      if nextStep.Some? then Ok(Attempting(nextStep.value)) else Ok(Success)
    case Success =>
      if nextStep.Some? then Err(IllegalArgument) else Ok(Success)
    case Failure(_) =>
      Err(IllegalState)
  }

  /** The value of the state object after `onFailure(cause)`. For `Failure`
      the code appends to the object's own list and returns that same object
      (see FailureRecord); the value is the list with the cause appended. */
  function OnFailure(s: State, cause: Cause): (r: State)
    ensures r.Failure? || r.AttemptFailed?
    ensures r.AttemptFailed? <==> s.Attempting?
    ensures r.AttemptFailed? ==> r == AttemptFailed(s.step, cause)
    ensures r.Failure? ==> r.causes != [] && r.causes[|r.causes| - 1] == cause
  {
    match s
    case Scheduled => Failure([cause])
    case Attempting(step) => AttemptFailed(step, cause)
    case AttemptFailed(_, first) => Failure([first, cause])
    case AttemptSuccessful(_) => Failure([cause])
    case Success => Failure([cause])
    case Failure(causes) => Failure(causes + [cause])
  }

  /** What the latest generation keeps of a state: the most recent cause. */
  function Latest(s: State): (r: JobState.State)
    requires s.Failure? ==> s.causes != []
  {
    match s
    case Scheduled => JobState.Scheduled
    case Attempting(step) => JobState.Attempting(step)
    case AttemptFailed(step, c) => JobState.AttemptFailed(step, c)
    case AttemptSuccessful(step) => JobState.AttemptSuccessful(step)
    case Success => JobState.Success
    case Failure(causes) => JobState.Failure(causes[|causes| - 1])
  }

  /** Every failed state this machine produces records at least one cause,
      and the cause just reported is always the last one. */
  lemma OnFailureRecordsCause(s: State, c: Cause)
    ensures OnFailure(s, c).Failure? ==>
      |OnFailure(s, c).causes| >= 1 && OnFailure(s, c).causes[|OnFailure(s, c).causes| - 1] == c
    ensures s.Failure? ==> |OnFailure(s, c).causes| == |s.causes| + 1 && OnFailure(s, c).causes[..|s.causes|] == s.causes
    ensures s.AttemptFailed? ==> OnFailure(s, c) == Failure([s.cause, c])
  {
  }

  /** The two generations are the same machine once the list of causes is cut
      down to its last element: both transitions commute with `Latest`. */
  lemma AgreesWithLatestGeneration(s: State, n: Option<string>, c: Cause)
    requires s.Failure? ==> s.causes != []
    ensures OnFailure(s, c).Failure? ==> OnFailure(s, c).causes != []
    ensures JobState.OnFailure(Latest(s), c) == Latest(OnFailure(s, c))
    ensures OnSuccess(s, n).Err? <==> JobState.OnSuccess(Latest(s), n).Err?
    ensures OnSuccess(s, n).Ok? ==> JobState.OnSuccess(Latest(s), n) == Ok(Latest(OnSuccess(s, n).value))
  {
  }

  /** At most two failure ticks reach `Failure` from any state; the pipecore
      listener-error handler relies on this and rethrows otherwise. */
  lemma FailureWithinTwoTicks(s: State, e: Cause)
    ensures OnFailure(s, e).Failure? || OnFailure(OnFailure(s, e), e).Failure?
    ensures s.Attempting? ==> OnFailure(OnFailure(s, e), e) == Failure([e, e])
  {
  }

  /** Applies failure ticks one after the other. */
  function FailAll(s: State, causes: seq<Cause>): State
    decreases |causes|
  {
    if causes == [] then s else FailAll(OnFailure(s, causes[0]), causes[1..])
  }

  /** Failure ticks on a failed job only append, in order. */
  lemma {:induction false} FailureAppendsInOrder(causes: seq<Cause>, more: seq<Cause>)
    ensures FailAll(Failure(causes), more) == Failure(causes + more)
    decreases |more|
  {
    if more != [] {
      FailureAppendsInOrder(causes + [more[0]], more[1..]);
      assert causes + [more[0]] + more[1..] == causes + more;
    } else {
      assert causes + more == causes;
    }
  }

  /** The mutable `Terminal.Failure` object: its private list is appended to
      in place, and the `causes` getter hands out a copy. */
  class FailureRecord {
    var causes: seq<Cause>

    constructor (causes: seq<Cause>)
      ensures this.causes == causes
    {
      this.causes := causes;
    }

    /** The `causes` getter: a copy, unaffected by later appends. */
    function Causes(): (r: seq<Cause>)
      reads this
      ensures r == causes
    {
      causes
    }

    function View(): State
      reads this
    {
      Failure(causes)
    }

    /** `onFailure(cause)`: appends in place and returns this same object. */
    method RecordFailure(cause: Cause) returns (r: FailureRecord)
      modifies this
      ensures r == this
      ensures causes == old(causes) + [cause]
      ensures View() == OnFailure(old(View()), cause)
    {
      causes := causes + [cause];
      r := this;
    }

    /** `onSuccess`: always throws. */
    method RejectSuccess(nextStep: Option<string>) returns (r: Result<State>)
      ensures r == Err(IllegalState)
      ensures r == OnSuccess(View(), nextStep)
    {
      r := Err(IllegalState);
    }
  }

  /** A copy taken from the getter keeps its contents when the object later
      records another cause. */
  method CopyIsIndependent(record: FailureRecord, cause: Cause) returns (copy: seq<Cause>)
    modifies record
    ensures copy == old(record.causes)
    ensures record.causes == copy + [cause]
  {
    copy := record.Causes();
    var same := record.RecordFailure(cause);
  }
}
