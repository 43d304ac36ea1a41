/** The job state machine of the latest library generation
    (pipe/src/main/java/com/udeyrishi/pipe/State.kt): every transition
    returns a new state or throws, and a failed job keeps one cause. */
module JobState {
  import opened Common

  datatype State =
    | Scheduled
    | Attempting(step: string)
    | AttemptFailed(step: string, cause: Cause)
    | AttemptSuccessful(step: string)
    | Success
    | Failure(cause: Cause)
  {
    predicate IsRunning() { Attempting? || AttemptFailed? || AttemptSuccessful? }
    predicate IsTerminal() { Success? || Failure? }
  }

  /** `onSuccess(nextStep)`: tick the state after the current one succeeded. */
  function OnSuccess(s: State, nextStep: Option<string>): (r: Result<State>)
    ensures r.Ok? ==> Next(s, r.value)
    ensures r.Ok? && nextStep.Some? ==> r.value == Attempting(nextStep.value)
    ensures r.Ok? && nextStep.None? ==> r.value.Success? || (s.Attempting? && r.value == AttemptSuccessful(s.step))
    ensures r.Err? ==> (r.error == IllegalState <==> s.Failure?) && (r.error == IllegalState || r.error == IllegalArgument)
  {
    match s
    case Scheduled =>
      if nextStep.Some? then Ok(Attempting(nextStep.value)) else Ok(Success)
    case Attempting(step) =>
      if nextStep.Some? then Err(IllegalArgument) else Ok(AttemptSuccessful(step))
    case AttemptFailed(step, _) =>
      if nextStep != Some(step) then Err(IllegalArgument) else Ok(Attempting(step))
    case AttemptSuccessful(_) =>
      if nextStep.Some? then Ok(Attempting(nextStep.value)) else Ok(Success)
    case Success =>
      if nextStep.Some? then Err(IllegalArgument) else Ok(Success)
    case Failure(_) =>
      Err(IllegalState)
  }

  /** `onFailure(cause)`: tick the state after the current one failed; never throws. */
  function OnFailure(s: State, cause: Cause): (r: State)
    ensures Next(s, r)
    ensures (r.AttemptFailed? || r.Failure?) && r.cause == cause
    ensures r.AttemptFailed? <==> s.Attempting?
    ensures r.AttemptFailed? ==> r.step == s.step
  {
    match s
    case Attempting(step) => AttemptFailed(step, cause)
    case _ => Failure(cause)
  }

  /** The transition diagram of the library, written as a relation between a
      state and the states that may follow it. */
  ghost predicate Next(a: State, b: State) {
    match a
    case Scheduled => b.Attempting? || b.Success? || b.Failure?
    case Attempting(step) => b == AttemptSuccessful(step) || (b.AttemptFailed? && b.step == step)
    case AttemptFailed(step, _) => b == Attempting(step) || b.Failure?
    case AttemptSuccessful(_) => b.Attempting? || b.Success? || b.Failure?
    case Success => b.Success? || b.Failure?
    case Failure(_) => b.Failure?
  }

  /** The calls that drive the machine. */
  datatype Event = Succeeded(nextStep: Option<string>) | Failed(cause: Cause)

  function Fire(s: State, e: Event): Result<State> {
    match e
    case Succeeded(n) => OnSuccess(s, n)
    case Failed(c) => Ok(OnFailure(s, c))
  }

  /** Every transition the code performs is an edge of the diagram. */
  lemma FireFollowsDiagram(s: State, e: Event)
    ensures Fire(s, e).Ok? ==> Next(s, Fire(s, e).value)
  {
  }

  /** Every edge of the diagram is taken by some call. */
  lemma DiagramIsImplemented(a: State, b: State)
    requires Next(a, b)
    ensures exists e :: Fire(a, e) == Ok(b)
  {
    match b
    case Scheduled =>
    case Attempting(step) =>
      assert Fire(a, Succeeded(Some(step))) == Ok(b);
    case AttemptFailed(step, c) =>
      assert Fire(a, Failed(c)) == Ok(b);
    case AttemptSuccessful(step) =>
      assert Fire(a, Succeeded(None)) == Ok(b);
    case Success =>
      assert Fire(a, Succeeded(None)) == Ok(b);
    case Failure(c) =>
      assert Fire(a, Failed(c)) == Ok(b);
  }

  /** The exact conditions under which `onSuccess` throws, and what it throws. */
  lemma OnSuccessThrowsExactly(s: State, n: Option<string>)
    ensures OnSuccess(s, n).Err? <==>
      || (s.Attempting? && n.Some?)
      || (s.AttemptFailed? && n != Some(s.step))
      || (s.Success? && n.Some?)
      || s.Failure?
    ensures OnSuccess(s, n) == Err(IllegalState) <==> s.Failure?
  {
  }

  /** A running state keeps its step name through `onFailure` and through a
      successful `onSuccess(null)` or a retry; only a new step name moves on. */
  lemma StepNamePreserved(s: State, n: Option<string>, c: Cause)
    requires s.IsRunning()
    ensures s.Attempting? ==> OnFailure(s, c) == AttemptFailed(s.step, c)
    ensures OnSuccess(s, n).Ok? && OnSuccess(s, n).value.IsRunning() && n.None? ==>
              OnSuccess(s, n).value.step == s.step
    ensures s.AttemptFailed? && OnSuccess(s, n).Ok? ==> OnSuccess(s, n) == Ok(Attempting(s.step))
  {
  }

  /** Applies a sequence of calls, stopping at the first one that throws. */
  function Run(s: State, events: seq<Event>): Result<State>
    decreases |events|
  {
    if events == [] then Ok(s)
    else
      match Fire(s, events[0])
      case Err(e) => Err(e)
      case Ok(t) => Run(t, events[1..])
  }

  /** Once terminal, a job never leaves the terminal states. */
  lemma {:induction false} TerminalIsClosed(s: State, events: seq<Event>)
    requires s.IsTerminal()
    ensures Run(s, events).Ok? ==> Run(s, events).value.IsTerminal()
    decreases |events|
  {
    if events != [] && Fire(s, events[0]).Ok? {
      TerminalIsClosed(Fire(s, events[0]).value, events[1..]);
    }
  }

  ghost predicate AllFailures(events: seq<Event>) {
    forall i :: 0 <= i < |events| ==> events[i].Failed?
  }

  /** A failed job accepts exactly the failure calls; it stays failed and
      keeps the most recent cause. */
  lemma {:induction false} FailureIsAbsorbing(c: Cause, events: seq<Event>)
    ensures Run(Failure(c), events).Ok? <==> AllFailures(events)
    ensures Run(Failure(c), events).Ok? ==>
      Run(Failure(c), events).value == Failure(if events == [] then c else events[|events| - 1].cause)
    decreases |events|
  {
    if events != [] {
      if events[0].Failed? {
        FailureIsAbsorbing(events[0].cause, events[1..]);
        assert events[1..] == [] ==> |events| == 1;
        assert events[1..] != [] ==> events[1..][|events[1..]| - 1] == events[|events| - 1];
        assert AllFailures(events[1..]) ==> AllFailures(events);
      } else {
        assert !AllFailures(events);
      }
    }
  }

  /** Every state of the machine is reachable from `Scheduled`. */
  lemma EveryStateReachable(s: State)
    ensures exists events :: Run(Scheduled, events) == Ok(s)
  {
    match s
    case Scheduled =>
      assert Run(Scheduled, []) == Ok(s);
    case Attempting(step) =>
      assert Run(Scheduled, [Succeeded(Some(step))]) == Ok(s);
    case AttemptSuccessful(step) =>
      var evs := [Succeeded(Some(step)), Succeeded(None)];
      assert Run(Attempting(step), evs[1..]) == Ok(s);
      assert Run(Scheduled, evs) == Ok(s);
    case AttemptFailed(step, c) =>
      var evs := [Succeeded(Some(step)), Failed(c)];
      assert Run(Attempting(step), evs[1..]) == Ok(s);
      assert Run(Scheduled, evs) == Ok(s);
    case Success =>
      assert Run(Scheduled, [Succeeded(None)]) == Ok(s);
    case Failure(c) =>
      assert Run(Scheduled, [Failed(c)]) == Ok(s);
  }
}
