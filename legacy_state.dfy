/** The job state machine of the oldest library generation
    (src/main/kotlin/com/udeyrishi/pipe/State.kt). It differs from the later
    ones in that several failure ticks throw, and a retry after a failed
    attempt is requested with no step name. */
module LegacyState {
  import opened Common
  import CausesState

  datatype State =
    | Scheduled
    | Attempting(step: string)
    | AttemptFailed(step: string, cause: Cause)
    | AttemptSuccessful(step: string)
    | Success
    | Failure(causes: seq<Cause>)
  {
    predicate IsTerminal() { Success? || Failure? }
  }

  /** `onSuccess(nextStep)`: never reaches a failed state, moves to the
      named step when one is given, and throws IllegalStateException
      exactly on `Failure`. */
  function OnSuccess(s: State, nextStep: Option<string>): (r: Result<State>)
    ensures r.Ok? ==> !r.value.Failure? && !r.value.AttemptFailed? && !r.value.Scheduled?
    ensures r.Ok? && nextStep.Some? ==> r.value == Attempting(nextStep.value)
    ensures r.Err? ==> (r.error == IllegalState <==> s.Failure?) && (r.error == IllegalState || r.error == IllegalArgument)
  {
    match s
    case Scheduled =>
      if nextStep.Some? then Ok(Attempting(nextStep.value)) else Ok(Success)
    case Attempting(step) =>
      if nextStep.Some? then Err(IllegalArgument) else Ok(AttemptSuccessful(step))
    case AttemptFailed(step, _) =>
      if nextStep.Some? then Err(IllegalArgument) else Ok(Attempting(step))
    case AttemptSuccessful(_) =>
      if nextStep.Some? then Ok(Attempting(nextStep.value)) else Ok(Success)
    case Success =>
      if nextStep.Some? then Err(IllegalArgument) else Ok(Success)
    case Failure(_) =>
      Err(IllegalState)
  }

  /** The value after `onFailure(cause)`; `Failure` appends to its own list in
      place (see FailureRecord). */
  function OnFailure(s: State, cause: Cause): (r: Result<State>)
    ensures r.Err? ==> r.error == IllegalState
    ensures r.Ok? ==> r.value.Failure? || (s.Attempting? && r.value == AttemptFailed(s.step, cause))
    ensures r.Ok? && r.value.Failure? ==> r.value.causes != [] && r.value.causes[|r.value.causes| - 1] == cause
  {
    match s
    case Scheduled => Err(IllegalState)
    case Attempting(step) => Ok(AttemptFailed(step, cause))
    case AttemptFailed(_, first) => Ok(Failure([first, cause]))
    case AttemptSuccessful(_) => Err(IllegalState)
    case Success => Err(IllegalState)
    case Failure(causes) => Ok(Failure(causes + [cause]))
  }

  /** The exact states in which a failure tick throws: only an attempt in
      progress, a failed attempt and a failed job can fail. */
  lemma OnFailureThrowsExactly(s: State, c: Cause)
    ensures OnFailure(s, c).Err? <==> s.Scheduled? || s.AttemptSuccessful? || s.Success?
    ensures OnFailure(s, c).Err? ==> OnFailure(s, c).error == IllegalState
    ensures s.AttemptFailed? ==> OnFailure(s, c) == Ok(Failure([s.cause, c]))
    ensures s.Failure? ==> OnFailure(s, c) == Ok(Failure(s.causes + [c]))
  {
  }

  /** The exact calls for which a success tick throws; a retry after a failed
      attempt takes no step name and keeps the step. */
  lemma OnSuccessThrowsExactly(s: State, n: Option<string>)
    ensures OnSuccess(s, n).Err? <==> s.Failure? || (n.Some? && (s.Attempting? || s.AttemptFailed? || s.Success?))
    ensures OnSuccess(s, n) == Err(IllegalState) <==> s.Failure?
    ensures s.AttemptFailed? && n.None? ==> OnSuccess(s, n) == Ok(Attempting(s.step))
    ensures s.Success? && n.None? ==> OnSuccess(s, n) == Ok(s)
  {
  }

  /** The newer machine with the same state shape. */
  function Newer(s: State): CausesState.State {
    match s
    case Scheduled => CausesState.Scheduled
    case Attempting(step) => CausesState.Attempting(step)
    case AttemptFailed(step, c) => CausesState.AttemptFailed(step, c)
    case AttemptSuccessful(step) => CausesState.AttemptSuccessful(step)
    case Success => CausesState.Success
    case Failure(causes) => CausesState.Failure(causes)
  }

  /** Where the oldest machine does not throw, it agrees with the middle
      generation, except for the retry call, which the middle generation
      makes with the step's own name. */
  lemma AgreesWithNewerWhereDefined(s: State, n: Option<string>, c: Cause)
    ensures OnFailure(s, c).Ok? ==> CausesState.OnFailure(Newer(s), c) == Newer(OnFailure(s, c).value)
    ensures !s.AttemptFailed? && OnSuccess(s, n).Ok? ==>
      CausesState.OnSuccess(Newer(s), n) == Ok(Newer(OnSuccess(s, n).value))
    ensures s.AttemptFailed? && OnSuccess(s, n).Ok? ==>
      CausesState.OnSuccess(Newer(s), Some(s.step)) == Ok(Newer(OnSuccess(s, n).value))
  {
  }

  /** Applies failure ticks one after the other, stopping at the first throw. */
  function FailAll(s: State, causes: seq<Cause>): Result<State>
    decreases |causes|
  {
    if causes == [] then Ok(s)
    else
      match OnFailure(s, causes[0])
      case Err(e) => Err(e)
      case Ok(t) => FailAll(t, causes[1..])
  }

  /** From a running attempt, failures never throw: the first one fails the
      attempt, the second fails the job with both causes, and the rest are
      appended in order. */
  lemma {:induction false} AttemptFailuresAccumulate(step: string, causes: seq<Cause>)
    requires |causes| >= 2
    ensures FailAll(Attempting(step), causes) == Ok(Failure(causes))
  {
    FailuresAppend([causes[0], causes[1]], causes[2..]);
    assert [causes[0], causes[1]] + causes[2..] == causes;
  }

  lemma {:induction false} FailuresAppend(causes: seq<Cause>, more: seq<Cause>)
    ensures FailAll(Failure(causes), more) == Ok(Failure(causes + more))
    decreases |more|
  {
    if more != [] {
      assert OnFailure(Failure(causes), more[0]) == Ok(Failure(causes + [more[0]]));
      assert FailAll(Failure(causes), more) == FailAll(Failure(causes + [more[0]]), more[1..]);
      FailuresAppend(causes + [more[0]], more[1..]);
      assert causes + [more[0]] + more[1..] == causes + more;
    } else {
      assert causes + more == causes;
    }
  }

  /** The mutable `Terminal.Failure` object of this generation. */
  class FailureRecord {
    var causes: seq<Cause>

    constructor (causes: seq<Cause>)
      ensures this.causes == causes
    {
      this.causes := causes;
    }

    /** The `causes` getter returns a copy of the private list. */
    function Causes(): (r: seq<Cause>)
      reads this
      ensures r == causes
    {
      causes
    }

    /** `onFailure(cause)`: appends in place and returns this same object. */
    method RecordFailure(cause: Cause) returns (r: FailureRecord)
      modifies this
      ensures r == this
      ensures causes == old(causes) + [cause]
      ensures Ok(Failure(causes)) == OnFailure(Failure(old(causes)), cause)
    {
      causes := causes + [cause];
      r := this;
    }
  }

  /** A copy taken from the getter keeps its contents when the object later
      records another cause. */
  method CopyIsIndependent(record: FailureRecord, cause: Cause) returns (copy: seq<Cause>)
    modifies record
    ensures copy == old(record.causes)
    ensures record.causes == copy + [cause]
  {
    copy := record.Causes();
    var same := record.RecordFailure(cause);
  }
}
