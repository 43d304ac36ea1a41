/** The orchestrator of the latest generation
    (pipe/src/main/java/com/udeyrishi/pipe/internal/Orchestrator.kt): it
    guides one input through a list of steps, retrying each step up to its
    maximum number of attempts, and ticks the job state machine as it goes.
    A run is specified below by pure functions over the steps; the class
    further down performs it with the source's loops and is proved to
    produce the same states. */
module Orchestrator {
  import opened Common
  import opened JobState
  import ImmutableAfterSet

  /** What one call of a step's suspend function on an input yields: a new
      output, null (the step was interrupted) or an exception. */
  datatype Attempt<T> = Produced(output: T) | ProducedNull | Threw(cause: Cause)

  /** A step: its name, how many attempts it gets, and what attempt `i` on
      an input yields. */
  datatype StepDescriptor<!T> = StepDescriptor(name: string, maxAttempts: nat, step: (nat, T) -> Attempt<T>)

  /** The descriptor's constructor rejects a maximum of 0 attempts. */
  predicate WellFormed<T>(steps: seq<StepDescriptor<T>>) {
    forall k :: 0 <= k < |steps| ==> steps[k].maxAttempts > 0
  }

  /** How `runStep` ends: the step's output, or null together with whether
      that was due to an interruption. */
  datatype StepResult<T> = StepResult(stepResult: Option<T>, interrupted: bool)

  /** The `interrupted` flag as the interruption check numbered `n` reads
      it, when a concurrent `interrupt()` raised it just before check
      `interruptAt` (checks are numbered from 0, in the order the run makes
      them). */
  predicate FlagAt(n: nat, interruptAt: Option<nat>) {
    interruptAt.Some? && interruptAt.value <= n
  }

  /** The states one `runStep` goes through, how it ends, and the number of
      interruption checks made once it is over. */
  datatype StepRun<T> = StepRun(trace: seq<State>, result: StepResult<T>, checks: nat)

  /** Some attempt from `i` on returns `v`. */
  ghost predicate ProducedBy<T>(d: StepDescriptor<T>, input: T, i: nat, v: T) {
    exists j :: i <= j < d.maxAttempts && d.step(j, input) == Produced(v)
  }

  /** Some attempt from `i` on returns null. */
  ghost predicate NullFrom<T>(d: StepDescriptor<T>, input: T, i: nat) {
    exists j :: i <= j < d.maxAttempts && d.step(j, input).ProducedNull?
  }

  /** `runStep` from attempt `i` on: each attempt ticks to `Attempting`,
      checks for an interruption, then calls the step. A result ends the
      step with `AttemptSuccessful`; null or an interruption ends it with
      `AttemptFailed`; an exception records `AttemptFailed` and retries,
      until the attempts run out. */
  function Attempts<T>(d: StepDescriptor<T>, input: T, i: nat, checks: nat, interruptAt: Option<nat>): (r: StepRun<T>)
    requires i <= d.maxAttempts
    ensures r.result.stepResult.Some? ==> ProducedBy(d, input, i, r.result.stepResult.value)
    ensures r.result.interrupted ==> r.checks > checks && (FlagAt(r.checks - 1, interruptAt) || NullFrom(d, input, i))
    decreases d.maxAttempts - i
  {
    if i >= d.maxAttempts then StepRun([], StepResult(None, false), checks)
    else if FlagAt(checks, interruptAt) then
      StepRun([Attempting(d.name), AttemptFailed(d.name, StepInterrupted(d.name, i))], StepResult(None, true), checks + 1)
    else
      match d.step(i, input)
      case Produced(v) =>
        StepRun([Attempting(d.name), AttemptSuccessful(d.name)], StepResult(Some(v), false), checks + 1)
      case ProducedNull =>
        StepRun([Attempting(d.name), AttemptFailed(d.name, StepInterrupted(d.name, i))], StepResult(None, true), checks + 1)
      case Threw(c) =>
        var rest := Attempts(d, input, i + 1, checks + 1, interruptAt);
        StepRun([Attempting(d.name), AttemptFailed(d.name, StepFailure(d.name, i, c))] + rest.trace, rest.result, rest.checks)
  }

  /** A step never ends with both an output and an interruption; it posts
      two states per attempt made, one check each, and its last state is
      the step's `AttemptSuccessful` when it produced an output and its
      `AttemptFailed` otherwise. */
  lemma {:induction false} AttemptsShape<T>(d: StepDescriptor<T>, input: T, i: nat, checks: nat, interruptAt: Option<nat>)
    requires i <= d.maxAttempts
    ensures var r := Attempts(d, input, i, checks, interruptAt);
      && !(r.result.stepResult.Some? && r.result.interrupted)
      && checks <= r.checks <= checks + (d.maxAttempts - i) && |r.trace| == 2 * (r.checks - checks)
      && (i < d.maxAttempts ==>
            && r.trace != []
            && (r.result.stepResult.Some? ==> r.trace[|r.trace| - 1] == AttemptSuccessful(d.name))
            && (r.result.stepResult.None? ==> r.trace[|r.trace| - 1].AttemptFailed? && r.trace[|r.trace| - 1].step == d.name))
    decreases d.maxAttempts - i
  {
    if i < d.maxAttempts && !FlagAt(checks, interruptAt) && d.step(i, input).Threw? {
      AttemptsShape(d, input, i + 1, checks + 1, interruptAt);
    }
  }

  /** How a run ends: with the final input as its result, out of attempts on
      a step, interrupted, or by an exception thrown out of the coroutine. */
  datatype RunEnd<T> = Completed(result: T) | OutOfAttempts(cause: Cause) | Interrupted(cause: Cause) | Crashed(error: Error)

  /** The states a run goes through and how it ends. */
  datatype Run<T> = Run(trace: seq<State>, end: RunEnd<T>)

  /** `runAllSteps` from step `k` on, with `input` as that step's input. A
      step that ends with null fails the job with the last attempt's cause
      wrapped; a result whose UUID differs from the input's makes the cursor
      throw; after the last step the input is the result. */
  function RunFrom<T>(steps: seq<StepDescriptor<T>>, k: nat, input: T, checks: nat, interruptAt: Option<nat>, uuidOf: T -> Uuid): (r: Run<T>)
    requires WellFormed(steps) && k <= |steps|
    ensures r.end.Completed? ==> uuidOf(r.end.result) == uuidOf(input)
    decreases |steps| - k
  {
    if k == |steps| then Run([Success], Completed(input))
    else
      var d := steps[k];
      var run := Attempts(d, input, 0, checks, interruptAt);
      AttemptsShape(d, input, 0, checks, interruptAt);
      match run.result.stepResult
      case None =>
        var inner := run.trace[|run.trace| - 1].cause;
        if run.result.interrupted then
          var cause := OrchestratorInterrupted(Some(inner));
          Run(run.trace + [Failure(cause)], Interrupted(cause))
        else
          var cause := StepOutOfAttempts(d.name, d.maxAttempts, Some(inner));
          Run(run.trace + [Failure(cause)], OutOfAttempts(cause))
      case Some(v) =>
        if uuidOf(v) != uuidOf(input) then Run(run.trace, Crashed(IllegalArgument))
        else
          var rest := RunFrom(steps, k + 1, v, run.checks, interruptAt, uuidOf);
          Run(run.trace + rest.trace, rest.end)
  }

  /** A run posts at least one state, and its last state says how it
      ended: `Success` exactly when it completed, the failure with the
      ending's cause when it ran out of attempts or was interrupted, and a
      step's `AttemptSuccessful` when the cursor threw. */
  lemma {:induction false} RunFromShape<T>(steps: seq<StepDescriptor<T>>, k: nat, input: T, checks: nat, interruptAt: Option<nat>, uuidOf: T -> Uuid)
    requires WellFormed(steps) && k <= |steps|
    ensures var r := RunFrom(steps, k, input, checks, interruptAt, uuidOf);
      && r.trace != []
      && (r.end.Completed? <==> r.trace[|r.trace| - 1] == Success)
      && (r.end.OutOfAttempts? ==> r.trace[|r.trace| - 1] == Failure(r.end.cause) && r.end.cause.StepOutOfAttempts?)
      && (r.end.Interrupted? ==> r.trace[|r.trace| - 1] == Failure(r.end.cause) && r.end.cause.OrchestratorInterrupted?)
      && (r.end.Crashed? ==> r.trace[|r.trace| - 1].AttemptSuccessful? && r.end.error == IllegalArgument)
    decreases |steps| - k
  {
    if k < |steps| {
      var run := Attempts(steps[k], input, 0, checks, interruptAt);
      AttemptsShape(steps[k], input, 0, checks, interruptAt);
      if run.result.stepResult.Some? && uuidOf(run.result.stepResult.value) == uuidOf(input) {
        RunFromShape(steps, k + 1, run.result.stepResult.value, run.checks, interruptAt, uuidOf);
      }
    }
  }

  /** The whole of `runAllSteps`: an interruption seen by the first check
      fails the job at once; otherwise the steps run from the first. */
  function RunAll<T>(steps: seq<StepDescriptor<T>>, input: T, interruptAt: Option<nat>, uuidOf: T -> Uuid): (r: Run<T>)
    requires WellFormed(steps)
    ensures r.end.Completed? ==> uuidOf(r.end.result) == uuidOf(input)
    ensures FlagAt(0, interruptAt) ==> r.end == Interrupted(OrchestratorInterrupted(None))
  {
    if FlagAt(0, interruptAt) then
      Run([Failure(OrchestratorInterrupted(None))], Interrupted(OrchestratorInterrupted(None)))
    else RunFrom(steps, 0, input, 1, interruptAt, uuidOf)
  }

  /** Consecutive states of a trace are edges of the state diagram. */
  ghost predicate Follows(trace: seq<State>) {
    forall i :: 0 <= i < |trace| - 1 ==> Next(trace[i], trace[i + 1])
  }

  lemma FollowsAppend(a: seq<State>, b: seq<State>)
    requires a != [] && Follows(a) && Follows([a[|a| - 1]] + b)
    ensures Follows(a + b)
  {
    var ab := a + b;
    forall i | 0 <= i < |ab| - 1
      ensures Next(ab[i], ab[i + 1])
    {
      if i >= |a| - 1 {
        assert ab[i] == ([a[|a| - 1]] + b)[i - |a| + 1];
        assert ab[i + 1] == ([a[|a| - 1]] + b)[i - |a| + 2];
      }
    }
  }

  /** The states from which a step's attempt may start. */
  predicate CanAttempt(s: State, name: string) {
    s.Scheduled? || s.AttemptSuccessful? || (s.AttemptFailed? && s.step == name)
  }

  /** Every state `runStep` posts follows the previous one in the diagram. */
  lemma {:induction false} AttemptsFollowDiagram<T>(d: StepDescriptor<T>, input: T, i: nat, checks: nat, interruptAt: Option<nat>, from: State)
    requires i <= d.maxAttempts && CanAttempt(from, d.name)
    ensures Follows([from] + Attempts(d, input, i, checks, interruptAt).trace)
    decreases d.maxAttempts - i
  {
    if i < d.maxAttempts && !FlagAt(checks, interruptAt) && d.step(i, input).Threw? {
      var failed := AttemptFailed(d.name, StepFailure(d.name, i, d.step(i, input).cause));
      var rest := Attempts(d, input, i + 1, checks + 1, interruptAt).trace;
      AttemptsFollowDiagram(d, input, i + 1, checks + 1, interruptAt, failed);
      FollowsAppend([from, Attempting(d.name), failed], rest);
      assert [from] + ([Attempting(d.name), failed] + rest) == [from, Attempting(d.name), failed] + rest;
    }
  }

  /** Every state a run posts follows the previous one in the diagram,
      starting from `Scheduled`. */
  lemma RunFollowsDiagram<T>(steps: seq<StepDescriptor<T>>, input: T, interruptAt: Option<nat>, uuidOf: T -> Uuid)
    requires WellFormed(steps)
    ensures Follows([Scheduled] + RunAll(steps, input, interruptAt, uuidOf).trace)
  {
    if !FlagAt(0, interruptAt) {
      RunFromFollowsDiagram(steps, 0, input, 1, interruptAt, uuidOf, Scheduled);
    }
  }

  lemma {:induction false} RunFromFollowsDiagram<T>(steps: seq<StepDescriptor<T>>, k: nat, input: T, checks: nat, interruptAt: Option<nat>,
                                                     uuidOf: T -> Uuid, from: State)
    requires WellFormed(steps) && k <= |steps|
    requires from.Scheduled? || from.AttemptSuccessful?
    ensures Follows([from] + RunFrom(steps, k, input, checks, interruptAt, uuidOf).trace)
    decreases |steps| - k
  {
    if k < |steps| {
      var d := steps[k];
      var run := Attempts(d, input, 0, checks, interruptAt);
      AttemptsFollowDiagram(d, input, 0, checks, interruptAt, from);
      AttemptsShape(d, input, 0, checks, interruptAt);
      var r := RunFrom(steps, k, input, checks, interruptAt, uuidOf);
      if run.result.stepResult.None? {
        ThenOne(from, run.trace, r.trace[|r.trace| - 1]);
      } else if uuidOf(run.result.stepResult.value) == uuidOf(input) {
        var v := run.result.stepResult.value;
        var rest := RunFrom(steps, k + 1, v, run.checks, interruptAt, uuidOf);
        RunFromFollowsDiagram(steps, k + 1, v, run.checks, interruptAt, uuidOf, run.trace[|run.trace| - 1]);
        ThenMore(from, run.trace, rest.trace);
      }
    }
  }

  /** A trace that follows the diagram still does after one more edge. */
  lemma ThenOne(from: State, a: seq<State>, x: State)
    requires a != [] && Follows([from] + a) && Next(a[|a| - 1], x)
    ensures Follows([from] + (a + [x]))
  {
    assert [from] + (a + [x]) == ([from] + a) + [x];
    FollowsAppend([from] + a, [x]);
  }

  /** Two traces that follow the diagram, the second starting where the
      first ends, join into one. */
  lemma ThenMore(from: State, a: seq<State>, b: seq<State>)
    requires a != [] && Follows([from] + a) && Follows([a[|a| - 1]] + b)
    ensures Follows([from] + (a + b))
  {
    assert [from] + (a + b) == ([from] + a) + b;
    FollowsAppend([from] + a, b);
  }

  /** Every attempt from `i` on throws and no check before it sees the flag. */
  predicate AllThrow<T>(d: StepDescriptor<T>, input: T, i: nat, checks: nat, interruptAt: Option<nat>)
    decreases d.maxAttempts - i
  {
    i >= d.maxAttempts ||
    (!FlagAt(checks, interruptAt) && d.step(i, input).Threw? && AllThrow(d, input, i + 1, checks + 1, interruptAt))
  }

  /** A step runs out of attempts (null without an interruption) exactly
      when every attempt threw; it then posted two states per attempt, the
      last one recording the last attempt's exception. */
  lemma {:induction false} ExhaustedIffEveryAttemptThrew<T>(d: StepDescriptor<T>, input: T, i: nat, checks: nat, interruptAt: Option<nat>)
    requires i <= d.maxAttempts
    ensures var r := Attempts(d, input, i, checks, interruptAt);
      r.result == StepResult(None, false) <==> AllThrow(d, input, i, checks, interruptAt)
    ensures var r := Attempts(d, input, i, checks, interruptAt);
      r.result == StepResult(None, false) ==>
        && |r.trace| == 2 * (d.maxAttempts - i)
        && (i < d.maxAttempts ==>
              && d.step(d.maxAttempts - 1, input).Threw?
              && r.trace[|r.trace| - 1] == AttemptFailed(d.name, StepFailure(d.name, d.maxAttempts - 1, d.step(d.maxAttempts - 1, input).cause)))
    decreases d.maxAttempts - i
  {
    if i < d.maxAttempts {
      if !FlagAt(checks, interruptAt) && d.step(i, input).Threw? {
        ExhaustedIffEveryAttemptThrew(d, input, i + 1, checks + 1, interruptAt);
      }
    }
  }

  /** Every step's first attempt yields an output with the input's UUID. */
  predicate Smooth<T>(steps: seq<StepDescriptor<T>>, k: nat, input: T, uuidOf: T -> Uuid)
    requires k <= |steps|
    decreases |steps| - k
  {
    k == |steps| ||
    (var a := steps[k].step(0, input);
     a.Produced? && uuidOf(a.output) == uuidOf(input) && Smooth(steps, k + 1, a.output, uuidOf))
  }

  /** The input passed through the steps from `k` on, each first attempt's
      output the next step's input. */
  function Chained<T>(steps: seq<StepDescriptor<T>>, k: nat, input: T, uuidOf: T -> Uuid): T
    requires k <= |steps| && Smooth(steps, k, input, uuidOf)
    decreases |steps| - k
  {
    if k == |steps| then input else Chained(steps, k + 1, steps[k].step(0, input).output, uuidOf)
  }

  /** Without interruption and with every first attempt succeeding, the
      run posts `Attempting` and `AttemptSuccessful` for each step in order,
      then `Success`, and its result is the chained output. */
  lemma HappyRun<T>(steps: seq<StepDescriptor<T>>, input: T, uuidOf: T -> Uuid)
    requires WellFormed(steps) && Smooth(steps, 0, input, uuidOf)
    ensures var r := RunAll(steps, input, None, uuidOf);
      && r.end == Completed(Chained(steps, 0, input, uuidOf))
      && |r.trace| == 2 * |steps| + 1 && r.trace[2 * |steps|] == Success
      && forall k :: 0 <= k < |steps| ==>
           r.trace[2 * k] == Attempting(steps[k].name) && r.trace[2 * k + 1] == AttemptSuccessful(steps[k].name)
  {
    assert RunAll(steps, input, None, uuidOf) == RunFrom(steps, 0, input, 1, None, uuidOf);
    HappyRunFrom(steps, 0, input, 1, uuidOf);
  }

  lemma {:induction false} HappyRunFrom<T>(steps: seq<StepDescriptor<T>>, k: nat, input: T, checks: nat, uuidOf: T -> Uuid)
    requires WellFormed(steps) && k <= |steps| && Smooth(steps, k, input, uuidOf)
    ensures var r := RunFrom(steps, k, input, checks, None, uuidOf);
      && r.end == Completed(Chained(steps, k, input, uuidOf))
      && |r.trace| == 2 * (|steps| - k) + 1 && r.trace[2 * (|steps| - k)] == Success
      && forall j :: k <= j < |steps| ==>
           r.trace[2 * (j - k)] == Attempting(steps[j].name) && r.trace[2 * (j - k) + 1] == AttemptSuccessful(steps[j].name)
    decreases |steps| - k
  {
    if k < |steps| {
      var d := steps[k];
      var v := d.step(0, input).output;
      assert Attempts(d, input, 0, checks, None) == StepRun([Attempting(d.name), AttemptSuccessful(d.name)], StepResult(Some(v), false), checks + 1);
      HappyRunFrom(steps, k + 1, v, checks + 1, uuidOf);
      var rest := RunFrom(steps, k + 1, v, checks + 1, None, uuidOf);
      var r := RunFrom(steps, k, input, checks, None, uuidOf);
      assert r.trace == [Attempting(d.name), AttemptSuccessful(d.name)] + rest.trace;
      forall j | k < j < |steps|
        ensures r.trace[2 * (j - k)] == Attempting(steps[j].name) && r.trace[2 * (j - k) + 1] == AttemptSuccessful(steps[j].name)
      {
        assert r.trace[2 * (j - k)] == rest.trace[2 * (j - (k + 1))];
        assert r.trace[2 * (j - k) + 1] == rest.trace[2 * (j - (k + 1)) + 1];
      }
    }
  }

  /** An interruption raised before a step starts ends the job after that
      step's first attempt, with the attempt's interruption as the inner
      cause. */
  lemma InterruptedBeforeStep<T>(steps: seq<StepDescriptor<T>>, k: nat, input: T, checks: nat, interruptAt: Option<nat>, uuidOf: T -> Uuid)
    requires WellFormed(steps) && k < |steps| && FlagAt(checks, interruptAt)
    ensures var name := steps[k].name;
      var cause := OrchestratorInterrupted(Some(StepInterrupted(name, 0)));
      RunFrom(steps, k, input, checks, interruptAt, uuidOf) ==
        Run([Attempting(name), AttemptFailed(name, StepInterrupted(name, 0)), Failure(cause)], Interrupted(cause))
  {
  }

  /** The flag as the run reads it: already raised when the run was
      launched, or raised concurrently before check `interruptAt`. */
  function Effective(flag: bool, interruptAt: Option<nat>): (r: Option<nat>)
    ensures forall n :: FlagAt(n, r) <==> flag || FlagAt(n, interruptAt)
  {
    if flag then Some(0) else interruptAt
  }

  /** The cursor over the input and the remaining steps (the same class in
      both generations; `S` is the generation's step descriptor). The
      iterator of steps is a sequence and the position of its next
      element. */
  class Cursor<T, S> {
    var input: T
    var position: nat
    const steps: seq<S>
    const uuidOf: T -> Uuid

    constructor (input: T, steps: seq<S>, uuidOf: T -> Uuid)
      ensures this.input == input && position == 0 && this.steps == steps && this.uuidOf == uuidOf
    {
      this.input := input;
      this.position := 0;
      this.steps := steps;
      this.uuidOf := uuidOf;
    }

    /** `nextStep`: the iterator's next element, or null once it is
        exhausted. */
    function NextStep(): (r: Option<S>)
      reads this
      ensures r.Some? <==> position < |steps|
      ensures r.Some? ==> r.value == steps[position]
    {
      if position < |steps| then Some(steps[position]) else None
    }

    /** `move(nextInput)`: an input with a different UUID throws
        IllegalArgumentException and changes nothing; otherwise it becomes
        the input and the iterator advances, unless it is exhausted. */
    method Move(nextInput: T) returns (r: Outcome)
      modifies this
      ensures r.Fail? <==> uuidOf(nextInput) != uuidOf(old(input))
      ensures r.Fail? ==> r.error == IllegalArgument && input == old(input) && position == old(position)
      ensures r.Pass? ==> input == nextInput && position == if old(position) < |steps| then old(position) + 1 else old(position)
    {
      if uuidOf(nextInput) != uuidOf(input) {
        return Fail(IllegalArgument);
      }
      input := nextInput;
      if position < |steps| {
        position := position + 1;
      }
      return Pass;
    }
  }

  /** The orchestrator. `state` is the volatile state and `history` the
      values posted to the observable state, the first one by the
      initialiser. */
  class OrchestratorImpl<T> {
    const uuid: Uuid
    const started: ImmutableAfterSet.ImmutableAfterSet<bool>
    var interrupted: bool
    var state: State
    var history: seq<State>
    const resultCell: ImmutableAfterSet.ImmutableAfterSet<Option<T>>
    const cursor: Cursor<T, StepDescriptor<T>>

    ghost predicate Valid()
      reads this, started, resultCell, cursor
    {
      && (started.value <==> started.count > 0)
      && history != [] && history[0] == Scheduled && history[|history| - 1] == state && Follows(history)
      && (!started.value ==> state == Scheduled && history == [Scheduled] && resultCell.count == 0 && cursor.position == 0)
      && (resultCell.count > 0 ==> state.IsTerminal())
      && cursor.position <= |cursor.steps| && WellFormed(cursor.steps)
      && uuid == cursor.uuidOf(cursor.input)
    }

    /** A job that was started but whose coroutine has not run yet. */
    ghost predicate Launched()
      reads this, started, resultCell, cursor
    {
      Valid() && started.value && history == [Scheduled] && resultCell.count == 0 && cursor.position == 0
    }

    constructor (input: T, steps: seq<StepDescriptor<T>>, uuidOf: T -> Uuid)
      requires WellFormed(steps)
      ensures Valid() && !started.value && !interrupted && resultCell.value == None
      ensures uuid == uuidOf(input) && cursor.input == input && cursor.steps == steps && cursor.uuidOf == uuidOf
    {
      uuid := uuidOf(input);
      started := new ImmutableAfterSet.ImmutableAfterSet(false);
      interrupted := false;
      state := Scheduled;
      history := [Scheduled];
      resultCell := new ImmutableAfterSet.ImmutableAfterSet(None);
      cursor := new Cursor(input, steps, uuidOf);
    }

    /** `start()`: the first call marks the job as started and launches
        `runAllSteps` (reported as `launch`); later calls do nothing. */
    method Start() returns (launch: bool)
      requires Valid()
      modifies started
      ensures launch <==> !old(started.value)
      ensures started.value && Valid()
      ensures launch ==> Launched()
    {
      if started.value {
        return false;
      }
      var r := started.SetValue(true);
      assert r == Pass;
      return true;
    }

    /** Sets the volatile state and posts it. */
    method Post(s: State)
      modifies this
      ensures state == s && history == old(history) + [s]
      ensures interrupted == old(interrupted)
    {
      state := s;
      history := history + [s];
    }

    /** `interrupt()`: raises the flag. A started job has its next step
        interrupted (the position of that step is returned); a job not yet
        started is marked as started, its result stays null and it fails at
        once. */
    method Interrupt() returns (interruptedStep: Option<nat>)
      requires Valid()
      modifies this, started, resultCell
      ensures interrupted && started.value && Valid()
      ensures old(started.value) ==>
        && state == old(state) && history == old(history) && resultCell.View() == old(resultCell.View())
        && interruptedStep == if cursor.position < |cursor.steps| then Some(cursor.position) else None
      ensures !old(started.value) ==>
        && interruptedStep == None && resultCell.value == None
        && state == Failure(OrchestratorInterrupted(None)) && history == [Scheduled, state]
    {
      interrupted := true;
      if started.value {
        interruptedStep := if cursor.position < |cursor.steps| then Some(cursor.position) else None;
      } else {
        var r := started.SetValue(true);
        assert r == Pass;
        r := resultCell.SetValue(None);
        assert r == Pass;
        assert state == Scheduled;
        Post(OnFailure(state, OrchestratorInterrupted(None)));
        interruptedStep := None;
      }
    }
  
    /** `runAllSteps()`, the body of the launched coroutine. A raised flag
        fails the job at once; otherwise each step runs in turn, its output
        becoming the cursor's next input, until a step ends with null, the
        cursor throws or the steps run out and the last input becomes the
        result. A step that ran out of attempts is reported to the failure
        listener (`reported`). */
    method RunAllSteps(interruptAt: Option<nat>) returns (end: RunEnd<T>, reported: Option<Cause>)
      requires Launched()
      modifies this, cursor, resultCell
      ensures Valid()
      ensures var run := RunAll(cursor.steps, old(cursor.input), Effective(old(interrupted), interruptAt), cursor.uuidOf);
        end == run.end && history == old(history) + run.trace
      ensures end.Completed? ==> resultCell.value == Some(end.result)
      ensures !end.Completed? ==> resultCell.count == 0
      ensures reported.Some? <==> end.OutOfAttempts?
      ensures reported.Some? ==> reported.value == end.cause
      ensures interrupted == (old(interrupted) || end.Interrupted?)
    {
      ghost var ia := Effective(interrupted, interruptAt);
      ghost var total := RunAll(cursor.steps, cursor.input, ia, cursor.uuidOf);
      RunFollowsDiagram(cursor.steps, cursor.input, ia, cursor.uuidOf);
      if interrupted || FlagAt(0, interruptAt) {
        interrupted := true;
        Post(OnFailure(state, OrchestratorInterrupted(None)));
        return Interrupted(OrchestratorInterrupted(None)), None;
      }
      reported := None;
      var checks := 1;
      while true
        invariant cursor.position <= |cursor.steps| && cursor.uuidOf(cursor.input) == uuid
        invariant var rest := RunFrom(cursor.steps, cursor.position, cursor.input, checks, ia, cursor.uuidOf);
          old(history) + total.trace == history + rest.trace && total.end == rest.end
        invariant history != [] && state == history[|history| - 1] && (state.Scheduled? || state.AttemptSuccessful?)
        invariant interrupted == old(interrupted) && resultCell.count == 0 && reported == None
        decreases |cursor.steps| - cursor.position
      {
        if cursor.NextStep().None? {
          OnResultPrepared(cursor.input);
          end := Completed(cursor.input);
          break;
        }
        var ended;
        ended, reported, checks := Advance(checks, interruptAt);
        if ended.Some? {
          end := ended.value;
          break;
        }
      }
      assert history == [Scheduled] + total.trace && end == total.end;
    }

    /** One pass of `runAllSteps`' loop over a remaining step: run it, then
        either end the job (`end` is how) or move the cursor to its output. */
    method Advance(checks: nat, interruptAt: Option<nat>) returns (end: Option<RunEnd<T>>, reported: Option<Cause>, after: nat)
      requires cursor.position < |cursor.steps| && WellFormed(cursor.steps)
      requires history != [] && state == history[|history| - 1] && (state.Scheduled? || state.AttemptSuccessful?)
      modifies this, cursor
      ensures var ia := Effective(old(interrupted), interruptAt);
        var r := RunFrom(cursor.steps, old(cursor.position), old(cursor.input), checks, ia, cursor.uuidOf);
        && (end.Some? ==>
              && end.value == r.end && history == old(history) + r.trace
              && (reported.Some? <==> r.end.OutOfAttempts?) && (reported.Some? ==> reported.value == r.end.cause)
              && interrupted == (old(interrupted) || r.end.Interrupted?) && !r.end.Completed?)
        && (end.None? ==>
              && reported == None && interrupted == old(interrupted)
              && cursor.position == old(cursor.position) + 1 && state.AttemptSuccessful?
              && var rest := RunFrom(cursor.steps, cursor.position, cursor.input, after, ia, cursor.uuidOf);
                 old(history) + r.trace == history + rest.trace && r.end == rest.end)
      ensures cursor.position <= |cursor.steps| && cursor.uuidOf(cursor.input) == cursor.uuidOf(old(cursor.input))
      ensures history != [] && state == history[|history| - 1]
    {
      ghost var ia := Effective(interrupted, interruptAt);
      ghost var r := RunFrom(cursor.steps, cursor.position, cursor.input, checks, ia, cursor.uuidOf);
      var d := cursor.NextStep().value;
      ghost var run := Attempts(d, cursor.input, 0, checks, ia);
      AttemptsShape(d, cursor.input, 0, checks, ia);
      var stepResult;
      stepResult, after := RunStep(cursor.input, d, checks, interruptAt);
      if stepResult.stepResult.None? {
        reported := OnStepResultNull(d, stepResult.interrupted);
        end := Some(if stepResult.interrupted then Interrupted(state.cause) else OutOfAttempts(state.cause));
        assert r == Run(run.trace + [state], end.value);
        return;
      }
      var moved := cursor.Move(stepResult.stepResult.value);
      if moved.Fail? {
        assert r == Run(run.trace, Crashed(IllegalArgument));
        return Some(Crashed(moved.error)), None, after;
      }
      ghost var rest := RunFrom(cursor.steps, cursor.position, cursor.input, after, ia, cursor.uuidOf);
      assert r == Run(run.trace + rest.trace, rest.end);
      assert old(history) + (run.trace + rest.trace) == history + rest.trace;
      return None, None, after;
    }

    /** `runStep(input, nextStep)`: up to `maxAttempts` attempts, each
        ticking to `Attempting` and checking the flag before calling the
        step; the first output or interruption ends the step. */
    method RunStep(input: T, d: StepDescriptor<T>, checks: nat, interruptAt: Option<nat>) returns (res: StepResult<T>, after: nat)
      requires history != [] && state == history[|history| - 1] && (state.Scheduled? || state.AttemptSuccessful?)
      modifies this
      ensures var run := Attempts(d, input, 0, checks, Effective(old(interrupted), interruptAt));
        res == run.result && after == run.checks && history == old(history) + run.trace
      ensures state == history[|history| - 1]
      ensures interrupted == (old(interrupted) || res.interrupted)
    {
      ghost var ia := Effective(interrupted, interruptAt);
      ghost var total := Attempts(d, input, 0, checks, ia);
      var c := checks;
      for i := 0 to d.maxAttempts
        invariant old(history) + total.trace == history + Attempts(d, input, i, c, ia).trace
        invariant total.result == Attempts(d, input, i, c, ia).result && total.checks == Attempts(d, input, i, c, ia).checks
        invariant history != [] && state == history[|history| - 1]
        invariant CanAttempt(state, d.name)
        invariant interrupted == old(interrupted)
      {
        var stop;
        res, stop := AttemptOnce(i, d, input, c, interruptAt);
        if stop {
          return res, c + 1;
        }
        c := c + 1;
      }
      assert history + [] == history;
      return StepResult(None, false), c;
    }

    /** One pass of `runStep`'s loop: tick to `Attempting`, check the flag,
        call the step. `stop` says the step is over; otherwise the attempt
        threw and the remaining attempts make the rest of the step. */
    method AttemptOnce(i: nat, d: StepDescriptor<T>, input: T, c: nat, interruptAt: Option<nat>) returns (res: StepResult<T>, stop: bool)
      requires i < d.maxAttempts && history != [] && state == history[|history| - 1] && CanAttempt(state, d.name)
      modifies this
      ensures var a := Attempts(d, input, i, c, Effective(old(interrupted), interruptAt));
        stop ==> res == a.result && a.checks == c + 1 && history == old(history) + a.trace && interrupted == (old(interrupted) || res.interrupted)
      ensures var a := Attempts(d, input, i, c, Effective(old(interrupted), interruptAt));
        !stop ==>
          && state.AttemptFailed? && state.step == d.name && interrupted == old(interrupted)
          && var rest := Attempts(d, input, i + 1, c + 1, Effective(old(interrupted), interruptAt));
             old(history) + a.trace == history + rest.trace && a.result == rest.result && a.checks == rest.checks
      ensures history != [] && state == history[|history| - 1]
    {
      var next := OnSuccess(state, Some(d.name));
      assert next == Ok(Attempting(d.name));
      Post(next.value);
      stop := CheckInterruption(i, d.name, c, interruptAt);
      if stop {
        return StepResult(None, true), true;
      }
      res := DoStepAttempt(i, d, input);
      stop := res.stepResult.Some? || res.interrupted;
      if !stop {
        ghost var rest := Attempts(d, input, i + 1, c + 1, Effective(old(interrupted), interruptAt)).trace;
        assert old(history) + ([Attempting(d.name), state] + rest) == history + rest;
      }
    }

    /** `checkInterruption(attemptIndex, stepName)`: the flag, which a
        concurrent `interrupt()` raises before check `interruptAt`; when it
        is raised the attempt fails with StepInterruptedException. */
    method CheckInterruption(attemptIndex: nat, stepName: string, check: nat, interruptAt: Option<nat>) returns (raised: bool)
      modifies this
      ensures raised == (old(interrupted) || FlagAt(check, interruptAt))
      ensures raised ==> interrupted && state == OnFailure(old(state), StepInterrupted(stepName, attemptIndex)) && history == old(history) + [state]
      ensures !raised ==> interrupted == old(interrupted) && state == old(state) && history == old(history)
    {
      if interrupted || FlagAt(check, interruptAt) {
        interrupted := true;
        Post(OnFailure(state, StepInterrupted(stepName, attemptIndex)));
        return true;
      }
      return false;
    }

    /** `doStepAttempt(attemptIndex, step, input)`: an output ticks the
        attempt to success; null fails it as interrupted and raises the flag;
        an exception fails it with StepFailureException. */
    method DoStepAttempt(attemptIndex: nat, d: StepDescriptor<T>, input: T) returns (res: StepResult<T>)
      requires state == Attempting(d.name)
      modifies this
      ensures match d.step(attemptIndex, input)
        case Produced(v) => res == StepResult(Some(v), false) && state == AttemptSuccessful(d.name) && interrupted == old(interrupted)
        case ProducedNull => res == StepResult(None, true) && state == AttemptFailed(d.name, StepInterrupted(d.name, attemptIndex)) && interrupted
        case Threw(c) => res == StepResult(None, false) && state == AttemptFailed(d.name, StepFailure(d.name, attemptIndex, c)) && interrupted == old(interrupted)
      ensures history == old(history) + [state]
    {
      match d.step(attemptIndex, input)
      case Produced(v) =>
        var next := OnSuccess(state, None);
        Post(next.value);
        res := StepResult(Some(v), false);
      case ProducedNull =>
        Post(OnFailure(state, StepInterrupted(d.name, attemptIndex)));
        interrupted := true;
        res := StepResult(None, true);
      case Threw(c) =>
        Post(OnFailure(state, StepFailure(d.name, attemptIndex, c)));
        res := StepResult(None, false);
    }

    /** `onStepResultNull(failingStep, dueToInterruption)`: fails the job
        with the last attempt's cause wrapped, and reports a step out of
        attempts to the failure listener. */
    method OnStepResultNull(d: StepDescriptor<T>, dueToInterruption: bool) returns (reported: Option<Cause>)
      requires state.AttemptFailed?
      modifies this
      ensures var inner := old(state).cause;
        var cause := if dueToInterruption then OrchestratorInterrupted(Some(inner)) else StepOutOfAttempts(d.name, d.maxAttempts, Some(inner));
        state == Failure(cause) && history == old(history) + [state] && reported == if dueToInterruption then None else Some(cause)
      ensures interrupted == old(interrupted)
    {
      var inner := state.cause;
      if dueToInterruption {
        Post(OnFailure(state, OrchestratorInterrupted(Some(inner))));
        reported := None;
      } else {
        var cause := StepOutOfAttempts(d.name, d.maxAttempts, Some(inner));
        Post(OnFailure(state, cause));
        reported := Some(cause);
      }
    }

    /** `onResultPrepared(result)`: stores the result and ticks to
        `Success`. */
    method OnResultPrepared(result: T)
      requires resultCell.count == 0 && (state.Scheduled? || state.AttemptSuccessful?)
      modifies this, resultCell
      ensures resultCell.View() == ImmutableAfterSet.Cell(Some(result), 1)
      ensures state == Success && history == old(history) + [Success] && interrupted == old(interrupted)
    {
      var r := resultCell.SetValue(Some(result));
      assert r == Pass;
      Post(OnSuccess(state, None).value);
    }
  }
}
