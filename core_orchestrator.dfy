/** The orchestrator of the middle generation
    (pipecore/src/main/java/com/udeyrishi/pipe/Orchestrator.kt). It runs
    the same retry loop as the latest generation, but its state lives in a
    `StateHolder` that notifies subscribed listeners after every tick; a
    listener that throws stops the round and drives the job to `Failure`,
    which ends the run. The run is specified by pure functions over the
    holder's state and the log of callbacks made; the classes below perform
    it with the source's loops and are proved to reach the same values. */
module CoreOrchestrator {
  import opened Common
  import opened CausesState
  import ImmutableAfterSet
  import Orchestrator

  type ListenerId = nat

  /** One `onStateChanged(uuid, previous, new)` callback, as the listener
      receives it. */
  datatype Call = Call(listener: ListenerId, uuid: Uuid, previous: State, current: State)

  /** What one call of a step on an input does: return an output (the
      step's type cannot return null here) or throw. */
  datatype Attempt<T> = Produced(output: T) | Threw(cause: Cause)

  /** A step: its name, how many attempts it gets, and what attempt `i` on
      an input yields. */
  datatype StepDescriptor<!T> = StepDescriptor(name: string, maxAttempts: nat, step: (nat, T) -> Attempt<T>)

  /** The descriptor's constructor rejects a maximum of 0 attempts. */
  predicate WellFormed<T>(steps: seq<StepDescriptor<T>>) {
    forall k :: 0 <= k < |steps| ==> steps[k].maxAttempts > 0
  }

  /** The listeners' side of a run: the orchestrator's UUID, the subscribed
      listeners in subscription order, and which callbacks throw (keyed by
      the callback's position in the log of all callbacks made). */
  datatype Listening = Listening(uuid: Uuid, listeners: seq<ListenerId>, faults: map<nat, Cause>)

  /** The holder's state and the log of callbacks made so far. */
  datatype Holder = Holder(state: State, calls: seq<Call>)

  /** The holder after a notification round, and whether every listener was
      called without throwing. */
  datatype Tick = Tick(holder: Holder, ok: bool)

  /** The handler for a throwing listener: one failure tick with the thrown
      cause, and a second when the first did not reach `Failure`. */
  function Recover(s: State, e: Cause): (r: State)
    ensures r.Failure?
    ensures s.Failure? ==> r.causes == s.causes + [e]
    ensures s.Attempting? ==> r.causes == [e, e]
    ensures s.AttemptFailed? ==> r.causes == [s.cause, e]
  {
    FailureWithinTwoTicks(s, e);
    var once := OnFailure(s, e);
    if once.Failure? then once else OnFailure(once, e)
  }

  /** `notifyStateChangeListeners(previous)` from listener `j` on: each
      listener in order is called with the previous and the current state;
      the first one that throws ends the round with the state recovered to
      `Failure`. */
  function NotifyFrom(env: Listening, previous: State, h: Holder, j: nat): (r: Tick)
    requires j <= |env.listeners|
    ensures r.ok ==> r.holder.state == h.state
    ensures !r.ok ==> r.holder.state.Failure?
    decreases |env.listeners| - j
  {
    if j == |env.listeners| then Tick(h, true)
    else
      var n := |h.calls|;
      var calls := h.calls + [Call(env.listeners[j], env.uuid, previous, h.state)];
      if n in env.faults then Tick(Holder(Recover(h.state, env.faults[n]), calls), false)
      else NotifyFrom(env, previous, Holder(h.state, calls), j + 1)
  }

  /** `onStateSuccess(nextStep)`: the success tick (which may throw), then a
      notification round. */
  function SucceedOn(env: Listening, h: Holder, nextStep: Option<string>): (r: Result<Tick>)
    ensures r.Err? <==> OnSuccess(h.state, nextStep).Err?
  {
    match OnSuccess(h.state, nextStep)
    case Err(e) => Err(e)
    case Ok(s) => Ok(NotifyFrom(env, h.state, Holder(s, h.calls), 0))
  }

  /** `onStateFailure(cause)`: the failure tick, then a notification
      round. */
  function FailOn(env: Listening, h: Holder, cause: Cause): (r: Tick)
    ensures r.ok ==> r.holder.state == OnFailure(h.state, cause)
    ensures r.holder.state.Failure? || r.holder.state.AttemptFailed?
    ensures r.holder.state.Failure? ==> cause in r.holder.state.causes
    ensures r.holder.state.AttemptFailed? ==> r.holder.state.cause == cause
  {
    RoundKeepsCause(env, h.state, Holder(OnFailure(h.state, cause), h.calls), 0, cause);
    NotifyFrom(env, h.state, Holder(OnFailure(h.state, cause), h.calls), 0)
  }

  /** A round that starts from a state recording `cause` ends in one that
      still records it. */
  lemma {:induction false} RoundKeepsCause(env: Listening, previous: State, h: Holder, j: nat, cause: Cause)
    requires j <= |env.listeners|
    requires (h.state.Failure? && cause in h.state.causes) || (h.state.AttemptFailed? && h.state.cause == cause)
    ensures var r := NotifyFrom(env, previous, h, j);
      (r.holder.state.Failure? && cause in r.holder.state.causes) || (r.holder.state.AttemptFailed? && r.holder.state.cause == cause)
    decreases |env.listeners| - j
  {
    if j < |env.listeners| && |h.calls| !in env.faults {
      RoundKeepsCause(env, previous, Holder(h.state, h.calls + [Call(env.listeners[j], env.uuid, previous, h.state)]), j + 1, cause);
    }
  }

  /** The states from which a step's attempt may start. */
  predicate CanAttempt(s: State, name: string) {
    s.Scheduled? || s.AttemptSuccessful? || (s.AttemptFailed? && s.step == name)
  }

  /** Some attempt from `i` on returns `v`. */
  ghost predicate ProducedBy<T>(d: StepDescriptor<T>, input: T, i: nat, v: T) {
    exists j :: i <= j < d.maxAttempts && d.step(j, input) == Produced(v)
  }

  /** The holder after `runStep`, how it ended, and the number of
      interruption checks made once it is over. */
  datatype StepRun<T> = StepRun(holder: Holder, result: Orchestrator.StepResult<T>, checks: nat)

  /** `runStep` from attempt `i` on. Each attempt ticks to `Attempting`; a
      throwing listener there ends the step with null. Then the flag is
      checked; a raised flag fails the attempt and ends the step as
      interrupted. Then the step is called: an output ticks to
      `AttemptSuccessful` and ends the step with it, an exception fails the
      attempt and retries; a throwing listener during either tick ends the
      step with null. */
  function Attempts<T>(env: Listening, d: StepDescriptor<T>, input: T, i: nat, h: Holder, checks: nat, interruptAt: Option<nat>): (r: StepRun<T>)
    requires i <= d.maxAttempts && CanAttempt(h.state, d.name)
    ensures r.result.stepResult.Some? ==> ProducedBy(d, input, i, r.result.stepResult.value)
    ensures r.result.interrupted ==> r.checks > checks && Orchestrator.FlagAt(r.checks - 1, interruptAt)
    decreases d.maxAttempts - i
  {
    if i == d.maxAttempts then StepRun(h, Orchestrator.StepResult(None, false), checks)
    else
      var start := SucceedOn(env, h, Some(d.name)).value;
      if !start.ok then StepRun(start.holder, Orchestrator.StepResult(None, false), checks)
      else if Orchestrator.FlagAt(checks, interruptAt) then
        var failed := FailOn(env, start.holder, StepInterrupted(d.name, i));
        StepRun(failed.holder, Orchestrator.StepResult(None, true), checks + 1)
      else
        match d.step(i, input)
        case Produced(v) =>
          var done := SucceedOn(env, start.holder, None).value;
          if done.ok then StepRun(done.holder, Orchestrator.StepResult(Some(v), false), checks + 1)
          else StepRun(done.holder, Orchestrator.StepResult(None, false), checks + 1)
        case Threw(c) =>
          var failed := FailOn(env, start.holder, StepFailure(d.name, i, c));
          if failed.ok then Attempts(env, d, input, i + 1, failed.holder, checks + 1, interruptAt)
          else StepRun(failed.holder, Orchestrator.StepResult(None, false), checks + 1)
  }

  /** How a run ends: the final input became the result (the state is then
      `Success`, or `Failure` if a listener threw on that tick), the job
      failed, or an exception was thrown out of the coroutine. */
  datatype RunEnd<T> = Completed(result: T) | Failed | Crashed(error: Error)

  /** The holder at the end of a run and how the run ended. */
  datatype Run<T> = Run(holder: Holder, end: RunEnd<T>)

  /** `runAllSteps` from step `k` on, with `input` as that step's input. A
      step that ends with null fails the job, unless a listener already did;
      a result whose UUID differs from the input's makes the cursor throw;
      after the last step the input is the result and the job succeeds. */
  function RunFrom<T>(env: Listening, steps: seq<StepDescriptor<T>>, k: nat, input: T, h: Holder, checks: nat,
                      interruptAt: Option<nat>, uuidOf: T -> Uuid): (r: Run<T>)
    requires WellFormed(steps) && k <= |steps| && (h.state.Scheduled? || h.state.AttemptSuccessful?)
    ensures r.end.Completed? ==> uuidOf(r.end.result) == uuidOf(input)
    decreases |steps| - k
  {
    if k == |steps| then Run(SucceedOn(env, h, None).value.holder, Completed(input))
    else
      var d := steps[k];
      var run := Attempts(env, d, input, 0, h, checks, interruptAt);
      AttemptsShape(env, d, input, 0, h, checks, interruptAt);
      match run.result.stepResult
      case None =>
        if run.holder.state.Failure? then Run(run.holder, Failed)
        else
          var cause := if run.result.interrupted then OrchestratorInterrupted(None) else StepOutOfAttempts(d.name, d.maxAttempts, None);
          Run(FailOn(env, run.holder, cause).holder, Failed)
      case Some(v) =>
        if uuidOf(v) != uuidOf(input) then Run(run.holder, Crashed(IllegalArgument))
        else RunFrom(env, steps, k + 1, v, run.holder, run.checks, interruptAt, uuidOf)
  }

  /** One step of a run that has steps left: how the run continues from
      the way step `k` ended. */
  lemma RunFromAt<T>(env: Listening, steps: seq<StepDescriptor<T>>, k: nat, input: T, h: Holder, checks: nat,
                     interruptAt: Option<nat>, uuidOf: T -> Uuid)
    requires WellFormed(steps) && k < |steps| && (h.state.Scheduled? || h.state.AttemptSuccessful?)
    ensures var d := steps[k];
      var run := Attempts(env, d, input, 0, h, checks, interruptAt);
      var r := RunFrom(env, steps, k, input, h, checks, interruptAt, uuidOf);
      && (run.result.stepResult.None? ==>
            && (run.holder.state.Failure? || run.holder.state.AttemptFailed?)
            && r.end == Failed
            && r.holder == if run.holder.state.Failure? then run.holder
                           else FailOn(env, run.holder, if run.result.interrupted then OrchestratorInterrupted(None)
                                                        else StepOutOfAttempts(d.name, d.maxAttempts, None)).holder)
      && (run.result.stepResult.Some? ==>
            && run.holder.state.AttemptSuccessful?
            && (uuidOf(run.result.stepResult.value) != uuidOf(input) ==> r == Run(run.holder, Crashed(IllegalArgument)))
            && (uuidOf(run.result.stepResult.value) == uuidOf(input) ==>
                  r == RunFrom(env, steps, k + 1, run.result.stepResult.value, run.holder, run.checks, interruptAt, uuidOf)))
  {
    AttemptsShape(env, steps[k], input, 0, h, checks, interruptAt);
  }

  /** A notification round only appends to the log: one callback per
      listener called, in subscription order, each with the same previous
      and current state. The round completes exactly when no callback
      threw; otherwise it stops right after the first throwing callback,
      with the state at `Failure`. */
  lemma {:induction false} NotifyFromShape(env: Listening, previous: State, h: Holder, j: nat)
    requires j <= |env.listeners|
    ensures var r := NotifyFrom(env, previous, h, j);
      var n := |h.calls|;
      && |r.holder.calls| >= n && r.holder.calls[..n] == h.calls
      && |r.holder.calls| - n <= |env.listeners| - j
      && (forall m :: n <= m < |r.holder.calls| ==> r.holder.calls[m] == Call(env.listeners[j + (m - n)], env.uuid, previous, h.state))
      && (r.ok <==> |r.holder.calls| - n == |env.listeners| - j && forall m :: n <= m < |r.holder.calls| ==> m !in env.faults)
      && (!r.ok ==>
            && |r.holder.calls| > n && |r.holder.calls| - 1 in env.faults
            && (forall m :: n <= m < |r.holder.calls| - 1 ==> m !in env.faults)
            && r.holder.state == Recover(h.state, env.faults[|r.holder.calls| - 1]))
    decreases |env.listeners| - j
  {
    if j < |env.listeners| {
      var n := |h.calls|;
      var calls := h.calls + [Call(env.listeners[j], env.uuid, previous, h.state)];
      if n !in env.faults {
        NotifyFromShape(env, previous, Holder(h.state, calls), j + 1);
        var r := NotifyFrom(env, previous, Holder(h.state, calls), j + 1);
        assert r.holder.calls[..n] == r.holder.calls[..n + 1][..n];
      }
    }
  }

  /** A step ends with at most one check per attempt; never with both an
      output and an interruption; with an output only at the step's
      `AttemptSuccessful`; and otherwise at its `AttemptFailed` or at
      `Failure`. */
  lemma {:induction false} AttemptsShape<T>(env: Listening, d: StepDescriptor<T>, input: T, i: nat, h: Holder, checks: nat, interruptAt: Option<nat>)
    requires i <= d.maxAttempts && CanAttempt(h.state, d.name)
    ensures var r := Attempts(env, d, input, i, h, checks, interruptAt);
      && checks <= r.checks <= checks + (d.maxAttempts - i)
      && !(r.result.stepResult.Some? && r.result.interrupted)
      && (r.result.stepResult.Some? ==> r.holder.state == AttemptSuccessful(d.name))
      && (r.result.stepResult.None? && i < d.maxAttempts ==>
            r.holder.state.Failure? || (r.holder.state.AttemptFailed? && r.holder.state.step == d.name))
    decreases d.maxAttempts - i
  {
    if i < d.maxAttempts {
      var start := SucceedOn(env, h, Some(d.name)).value;
      if start.ok && !Orchestrator.FlagAt(checks, interruptAt) && d.step(i, input).Threw? {
        var failed := FailOn(env, start.holder, StepFailure(d.name, i, d.step(i, input).cause));
        if failed.ok {
          AttemptsShape(env, d, input, i + 1, failed.holder, checks + 1, interruptAt);
        }
      }
    }
  }

  /** With no throwing callback, a round calls every remaining listener and
      keeps the state. */
  lemma {:induction false} QuietRound(env: Listening, previous: State, h: Holder, j: nat)
    requires j <= |env.listeners| && env.faults == map[]
    ensures var r := NotifyFrom(env, previous, h, j);
      r.ok && r.holder.state == h.state && |r.holder.calls| == |h.calls| + (|env.listeners| - j)
  {
    NotifyFromShape(env, previous, h, j);
  }

  /** Whether attempts `i` and later of a step on an input all throw. */
  predicate EveryAttemptThrows<T>(d: StepDescriptor<T>, input: T, i: nat)
    decreases d.maxAttempts - i
  {
    i >= d.maxAttempts || (d.step(i, input).Threw? && EveryAttemptThrows(d, input, i + 1))
  }

  /** With quiet listeners and no interruption, a step whose remaining
      attempts all throw makes them all, two ticks each, and ends with null
      at the failure of its last attempt. */
  lemma {:induction false} AttemptsExhausted<T>(env: Listening, d: StepDescriptor<T>, input: T, i: nat, h: Holder, checks: nat)
    requires i < d.maxAttempts && CanAttempt(h.state, d.name) && env.faults == map[] && EveryAttemptThrows(d, input, i)
    ensures var r := Attempts(env, d, input, i, h, checks, None);
      && r.result == Orchestrator.StepResult(None, false) && r.checks == checks + (d.maxAttempts - i)
      && d.step(d.maxAttempts - 1, input).Threw?
      && r.holder.state == AttemptFailed(d.name, StepFailure(d.name, d.maxAttempts - 1, d.step(d.maxAttempts - 1, input).cause))
      && |r.holder.calls| == |h.calls| + 2 * (d.maxAttempts - i) * |env.listeners|
    decreases d.maxAttempts - i
  {
    var start := SucceedOn(env, h, Some(d.name)).value;
    QuietRound(env, h.state, Holder(Attempting(d.name), h.calls), 0);
    var cause := StepFailure(d.name, i, d.step(i, input).cause);
    var failed := FailOn(env, start.holder, cause);
    QuietRound(env, start.holder.state, Holder(OnFailure(start.holder.state, cause), start.holder.calls), 0);
    if i + 1 < d.maxAttempts {
      AttemptsExhausted(env, d, input, i + 1, failed.holder, checks + 1);
      assert 2 * (d.maxAttempts - i) * |env.listeners| == 2 * |env.listeners| + 2 * (d.maxAttempts - (i + 1)) * |env.listeners|;
    }
  }

  /** A step that runs out of attempts fails the job with two causes: the
      last attempt's StepFailureException, then StepOutOfAttemptsException. */
  lemma OutOfAttemptsRecordsBothCauses<T>(env: Listening, steps: seq<StepDescriptor<T>>, k: nat, input: T, h: Holder, checks: nat, uuidOf: T -> Uuid)
    requires WellFormed(steps) && k < |steps| && (h.state.Scheduled? || h.state.AttemptSuccessful?)
    requires env.faults == map[] && EveryAttemptThrows(steps[k], input, 0)
    ensures var d := steps[k];
      var r := RunFrom(env, steps, k, input, h, checks, None, uuidOf);
      && r.end == Failed && d.step(d.maxAttempts - 1, input).Threw?
      && r.holder.state == Failure([StepFailure(d.name, d.maxAttempts - 1, d.step(d.maxAttempts - 1, input).cause),
                                    StepOutOfAttempts(d.name, d.maxAttempts, None)])
  {
    var d := steps[k];
    AttemptsExhausted(env, d, input, 0, h, checks);
    var run := Attempts(env, d, input, 0, h, checks, None);
    var cause := StepOutOfAttempts(d.name, d.maxAttempts, None);
    QuietRound(env, run.holder.state, Holder(OnFailure(run.holder.state, cause), run.holder.calls), 0);
  }

  /** Whether, from step `k` on, each step's first attempt produces an
      output with the input's UUID. */
  predicate Smooth<T>(steps: seq<StepDescriptor<T>>, k: nat, input: T, uuidOf: T -> Uuid)
    decreases |steps| - k
  {
    k >= |steps| ||
      (steps[k].step(0, input).Produced? && uuidOf(steps[k].step(0, input).output) == uuidOf(input)
       && Smooth(steps, k + 1, steps[k].step(0, input).output, uuidOf))
  }

  /** The input after feeding it through the first attempts of steps `k`
      and later, up to the first that does not produce an output. */
  function Chained<T>(steps: seq<StepDescriptor<T>>, k: nat, input: T): T
    decreases |steps| - k
  {
    if k >= |steps| then input
    else match steps[k].step(0, input)
      case Produced(v) => Chained(steps, k + 1, v)
      case Threw(_) => input
  }

  /** A smooth run with quiet listeners and no interruption succeeds with
      the chained output, and every listener receives two callbacks per step
      and one for the completion. */
  lemma {:induction false} HappyRunFrom<T>(env: Listening, steps: seq<StepDescriptor<T>>, k: nat, input: T, h: Holder, checks: nat, uuidOf: T -> Uuid)
    requires WellFormed(steps) && k <= |steps| && (h.state.Scheduled? || h.state.AttemptSuccessful?)
    requires env.faults == map[] && Smooth(steps, k, input, uuidOf)
    ensures var r := RunFrom(env, steps, k, input, h, checks, None, uuidOf);
      && r.end == Completed(Chained(steps, k, input)) && r.holder.state == Success
      && |r.holder.calls| == |h.calls| + (2 * (|steps| - k) + 1) * |env.listeners|
    decreases |steps| - k
  {
    if k == |steps| {
      QuietRound(env, h.state, Holder(Success, h.calls), 0);
    } else {
      var d := steps[k];
      var v := d.step(0, input).output;
      HappyAttempt(env, d, input, h, checks);
      var run := Attempts(env, d, input, 0, h, checks, None);
      HappyRunFrom(env, steps, k + 1, v, run.holder, checks + 1, uuidOf);
      assert (2 * (|steps| - k) + 1) * |env.listeners| == 2 * |env.listeners| + (2 * (|steps| - (k + 1)) + 1) * |env.listeners|;
    }
  }

  /** With quiet listeners and no interruption, a step whose first attempt
      produces an output ends after that attempt with the output, at its
      `AttemptSuccessful`, after two full notification rounds. */
  lemma HappyAttempt<T>(env: Listening, d: StepDescriptor<T>, input: T, h: Holder, checks: nat)
    requires 0 < d.maxAttempts && CanAttempt(h.state, d.name)
    requires env.faults == map[] && d.step(0, input).Produced?
    ensures var run := Attempts(env, d, input, 0, h, checks, None);
      && run.result == Orchestrator.StepResult(Some(d.step(0, input).output), false) && run.checks == checks + 1
      && run.holder.state == AttemptSuccessful(d.name) && |run.holder.calls| == |h.calls| + 2 * |env.listeners|
  {
    var start := SucceedOn(env, h, Some(d.name)).value;
    QuietRound(env, h.state, Holder(Attempting(d.name), h.calls), 0);
    var done := SucceedOn(env, start.holder, None).value;
    QuietRound(env, start.holder.state, Holder(AttemptSuccessful(d.name), start.holder.calls), 0);
    assert Attempts(env, d, input, 0, h, checks, None) == StepRun(done.holder, Orchestrator.StepResult(Some(d.step(0, input).output), false), checks + 1);
  }

  /** A job interrupted before its first attempt is checked fails with
      StepInterruptedException for attempt 0 of its first step, then
      OrchestratorInterruptedException, without calling the step. */
  lemma InterruptedBeforeFirstAttempt<T>(env: Listening, steps: seq<StepDescriptor<T>>, input: T, h: Holder, checks: nat,
                                         interruptAt: Option<nat>, uuidOf: T -> Uuid)
    requires WellFormed(steps) && |steps| > 0 && h.state.Scheduled? && env.faults == map[]
    requires Orchestrator.FlagAt(checks, interruptAt)
    ensures var r := RunFrom(env, steps, 0, input, h, checks, interruptAt, uuidOf);
      && r.end == Failed
      && r.holder.state == Failure([StepInterrupted(steps[0].name, 0), OrchestratorInterrupted(None)])
      && |r.holder.calls| == |h.calls| + 3 * |env.listeners|
  {
    var d := steps[0];
    var start := SucceedOn(env, h, Some(d.name)).value;
    QuietRound(env, h.state, Holder(Attempting(d.name), h.calls), 0);
    var failed := FailOn(env, start.holder, StepInterrupted(d.name, 0));
    QuietRound(env, start.holder.state, Holder(AttemptFailed(d.name, StepInterrupted(d.name, 0)), start.holder.calls), 0);
    var last := FailOn(env, failed.holder, OrchestratorInterrupted(None));
    QuietRound(env, failed.holder.state, Holder(OnFailure(failed.holder.state, OrchestratorInterrupted(None)), failed.holder.calls), 0);
  }

  /** What a stretch of a run does to the log: it only appends, no callback
      but the last appended one throws, and when that one throws the job is
      at `Failure`. */
  ghost predicate StopsAtFault(env: Listening, before: Holder, after: Holder) {
    var n := |before.calls|;
    && |after.calls| >= n && after.calls[..n] == before.calls
    && (forall m :: n <= m < |after.calls| - 1 ==> m !in env.faults)
    && (|after.calls| > n && |after.calls| - 1 in env.faults ==> after.state.Failure?)
  }

  /** Two stretches that each stop at a fault, where the first ends without
      one, make one that does. */
  lemma StopsAtFaultChain(env: Listening, h0: Holder, h1: Holder, h2: Holder)
    requires StopsAtFault(env, h0, h1) && StopsAtFault(env, h1, h2)
    requires |h1.calls| > |h0.calls| ==> |h1.calls| - 1 !in env.faults
    ensures StopsAtFault(env, h0, h2)
  {
    var n0, n1 := |h0.calls|, |h1.calls|;
    assert h2.calls[..n0] == h2.calls[..n1][..n0];
    forall m | n0 <= m < |h2.calls| - 1
      ensures m !in env.faults
    {
      if m < n1 {
        assert h2.calls[m] == h1.calls[m];
      }
    }
  }

  /** A notification round stops at a fault. */
  lemma RoundStopsAtFault(env: Listening, previous: State, h: Holder)
    ensures var r := NotifyFrom(env, previous, h, 0);
      StopsAtFault(env, h, r.holder) && (|r.holder.calls| > |h.calls| && |r.holder.calls| - 1 in env.faults ==> !r.ok)
  {
    NotifyFromShape(env, previous, h, 0);
  }

  /** A failure tick stops at a fault. */
  lemma FailStopsAtFault(env: Listening, h: Holder, cause: Cause)
    ensures var r := FailOn(env, h, cause);
      StopsAtFault(env, h, r.holder) && (|r.holder.calls| > |h.calls| && |r.holder.calls| - 1 in env.faults ==> !r.ok)
  {
    RoundStopsAtFault(env, h.state, Holder(OnFailure(h.state, cause), h.calls));
  }

  /** A step stops at a fault, and a step cut short by one ends with
      null. */
  lemma {:induction false} AttemptsStopAtFault<T>(env: Listening, d: StepDescriptor<T>, input: T, i: nat, h: Holder, checks: nat, interruptAt: Option<nat>)
    requires i <= d.maxAttempts && CanAttempt(h.state, d.name)
    ensures var r := Attempts(env, d, input, i, h, checks, interruptAt);
      && StopsAtFault(env, h, r.holder)
      && (|r.holder.calls| > |h.calls| && |r.holder.calls| - 1 in env.faults ==> r.result.stepResult.None?)
    decreases d.maxAttempts - i, 2
  {
    if i < d.maxAttempts {
      var start := SucceedOn(env, h, Some(d.name)).value;
      RoundStopsAtFault(env, h.state, Holder(Attempting(d.name), h.calls));
      if start.ok {
        AttemptTailStopsAtFault(env, d, input, i, h, checks, interruptAt);
        StopsAtFaultChain(env, h, start.holder, Attempts(env, d, input, i, h, checks, interruptAt).holder);
      }
    }
  }

  /** The part of attempt `i` after its `Attempting` round completed stops
      at a fault. */
  lemma {:induction false} AttemptTailStopsAtFault<T>(env: Listening, d: StepDescriptor<T>, input: T, i: nat, h: Holder, checks: nat, interruptAt: Option<nat>)
    requires i < d.maxAttempts && CanAttempt(h.state, d.name) && SucceedOn(env, h, Some(d.name)).value.ok
    ensures var start := SucceedOn(env, h, Some(d.name)).value;
      var r := Attempts(env, d, input, i, h, checks, interruptAt);
      && StopsAtFault(env, start.holder, r.holder)
      && (|r.holder.calls| > |start.holder.calls| && |r.holder.calls| - 1 in env.faults ==> r.result.stepResult.None?)
    decreases d.maxAttempts - i, 1
  {
    var start := SucceedOn(env, h, Some(d.name)).value;
    assert start.holder.state == Attempting(d.name);
    if Orchestrator.FlagAt(checks, interruptAt) {
      var cause := StepInterrupted(d.name, i);
      RoundStopsAtFault(env, start.holder.state, Holder(OnFailure(start.holder.state, cause), start.holder.calls));
    } else {
      match d.step(i, input)
      case Produced(v) =>
        RoundStopsAtFault(env, start.holder.state, Holder(AttemptSuccessful(d.name), start.holder.calls));
      case Threw(c) =>
        FailedAttemptStopsAtFault(env, d, input, i, start.holder, checks, interruptAt, StepFailure(d.name, i, c));
    }
  }

  /** The failure tick of an attempt whose step threw, and the attempts
      after it, stop at a fault; a step cut short by one ends with null. */
  lemma {:induction false} FailedAttemptStopsAtFault<T>(env: Listening, d: StepDescriptor<T>, input: T, i: nat, g: Holder, checks: nat,
                                                        interruptAt: Option<nat>, cause: Cause)
    requires i < d.maxAttempts && g.state == Attempting(d.name)
    ensures var failed := FailOn(env, g, cause);
      var r := if failed.ok then Attempts(env, d, input, i + 1, failed.holder, checks + 1, interruptAt)
               else StepRun(failed.holder, Orchestrator.StepResult(None, false), checks + 1);
      && StopsAtFault(env, g, r.holder)
      && (|r.holder.calls| > |g.calls| && |r.holder.calls| - 1 in env.faults ==> r.result.stepResult.None?)
    decreases d.maxAttempts - i, 0
  {
    var failed := FailOn(env, g, cause);
    FailStopsAtFault(env, g, cause);
    if failed.ok {
      AttemptsStopAtFault(env, d, input, i + 1, failed.holder, checks + 1, interruptAt);
      StopsAtFaultChain(env, g, failed.holder, Attempts(env, d, input, i + 1, failed.holder, checks + 1, interruptAt).holder);
    }
  }

  /** The stretch of a run whose current step ends it, with null or with
      an output under another UUID, stops at a fault. */
  lemma StepEndStopsAtFault<T>(env: Listening, steps: seq<StepDescriptor<T>>, k: nat, input: T, h: Holder, checks: nat,
                               interruptAt: Option<nat>, uuidOf: T -> Uuid)
    requires WellFormed(steps) && k < |steps| && (h.state.Scheduled? || h.state.AttemptSuccessful?)
    requires var v := Attempts(env, steps[k], input, 0, h, checks, interruptAt).result.stepResult;
      v.None? || uuidOf(v.value) != uuidOf(input)
    ensures var r := RunFrom(env, steps, k, input, h, checks, interruptAt, uuidOf);
      && StopsAtFault(env, h, r.holder)
      && (|r.holder.calls| > |h.calls| && |r.holder.calls| - 1 in env.faults ==> !r.end.Crashed?)
  {
    var d := steps[k];
    var run := Attempts(env, d, input, 0, h, checks, interruptAt);
    AttemptsShape(env, d, input, 0, h, checks, interruptAt);
    AttemptsStopAtFault(env, d, input, 0, h, checks, interruptAt);
    if run.result.stepResult.None? && !run.holder.state.Failure? {
      var cause := if run.result.interrupted then OrchestratorInterrupted(None) else StepOutOfAttempts(d.name, d.maxAttempts, None);
      RoundStopsAtFault(env, run.holder.state, Holder(OnFailure(run.holder.state, cause), run.holder.calls));
      StopsAtFaultChain(env, h, run.holder, FailOn(env, run.holder, cause).holder);
    }
  }

  /** A throwing listener ends the job: no callback of a run but its last
      one throws, and when the last one throws the job is at `Failure`
      (with its result set, if the throw came on the final tick). */
  lemma {:induction false} RunStopsAtFault<T>(env: Listening, steps: seq<StepDescriptor<T>>, k: nat, input: T, h: Holder, checks: nat,
                                              interruptAt: Option<nat>, uuidOf: T -> Uuid)
    requires WellFormed(steps) && k <= |steps| && (h.state.Scheduled? || h.state.AttemptSuccessful?)
    ensures var r := RunFrom(env, steps, k, input, h, checks, interruptAt, uuidOf);
      && StopsAtFault(env, h, r.holder)
      && (|r.holder.calls| > |h.calls| && |r.holder.calls| - 1 in env.faults ==> !r.end.Crashed?)
    decreases |steps| - k
  {
    if k == |steps| {
      RoundStopsAtFault(env, h.state, Holder(Success, h.calls));
    } else {
      var d := steps[k];
      var run := Attempts(env, d, input, 0, h, checks, interruptAt);
      var v := run.result.stepResult;
      if v.None? || uuidOf(v.value) != uuidOf(input) {
        StepEndStopsAtFault(env, steps, k, input, h, checks, interruptAt, uuidOf);
      } else {
        AttemptsShape(env, d, input, 0, h, checks, interruptAt);
        AttemptsStopAtFault(env, d, input, 0, h, checks, interruptAt);
        RunStopsAtFault(env, steps, k + 1, v.value, run.holder, run.checks, interruptAt, uuidOf);
        StopsAtFaultChain(env, h, run.holder, RunFrom(env, steps, k + 1, v.value, run.holder, run.checks, interruptAt, uuidOf).holder);
      }
    }
  }

  /** `remove(element)` on the listener list: drops the first occurrence of
      the listener, if there is one. */
  function RemoveFirst(xs: seq<ListenerId>, l: ListenerId): seq<ListenerId>
    decreases |xs|
  {
    if xs == [] then [] else if xs[0] == l then xs[1..] else [xs[0]] + RemoveFirst(xs[1..], l)
  }

  /** Removing the first occurrence is cutting the list at the listener's
      first index. */
  lemma {:induction false} RemoveFirstAt(xs: seq<ListenerId>, l: ListenerId, i: nat)
    requires i < |xs| && xs[i] == l && l !in xs[..i]
    ensures RemoveFirst(xs, l) == xs[..i] + xs[i + 1..]
  {
    if i > 0 {
      assert xs[0] in xs[..i];
      assert xs[1..][..i - 1] == xs[1..i];
      RemoveFirstAt(xs[1..], l, i - 1);
      assert xs[1..][i - 1 + 1..] == xs[i + 1..];
      assert [xs[0]] + xs[1..i] == xs[..i];
    }
  }

  /** A listener that is not subscribed leaves the list as it is; one that
      is loses exactly one subscription. */
  lemma {:induction false} RemoveFirstShape(xs: seq<ListenerId>, l: ListenerId)
    ensures l !in xs ==> RemoveFirst(xs, l) == xs
    ensures l in xs ==> multiset(RemoveFirst(xs, l)) + multiset{l} == multiset(xs)
    decreases |xs|
  {
    if xs != [] {
      RemoveFirstShape(xs[1..], l);
      assert xs == [xs[0]] + xs[1..];
    }
  }

  /** The holder of the job's state (`StateHolder`): the state, the
      subscribed listeners, and the log of callbacks made. Which callbacks
      throw is fixed by `faults`, standing for the listeners' own code. */
  class StateHolder {
    const uuid: Uuid
    var state: State
    var listeners: seq<ListenerId>
    var calls: seq<Call>
    const faults: map<nat, Cause>

    constructor (uuid: Uuid, faults: map<nat, Cause>)
      ensures this.uuid == uuid && this.faults == faults
      ensures state == Scheduled && listeners == [] && calls == []
    {
      this.uuid := uuid;
      this.faults := faults;
      state := Scheduled;
      listeners := [];
      calls := [];
    }

    /** The listeners' side as a value. */
    function Env(): Listening
      reads this
    {
      Listening(uuid, listeners, faults)
    }

    /** The state and the log as a value. */
    function View(): Holder
      reads this
    {
      Holder(state, calls)
    }

    /** `subscribe(listener)`: appends it; a listener subscribed twice is
        called twice. */
    method Subscribe(l: ListenerId)
      modifies this
      ensures listeners == old(listeners) + [l] && View() == old(View())
    {
      listeners := listeners + [l];
    }

    /** `unsubscribe(listener)`: removes its first subscription and says
        whether there was one. */
    method Unsubscribe(l: ListenerId) returns (removed: bool)
      modifies this
      ensures removed <==> l in old(listeners)
      ensures listeners == RemoveFirst(old(listeners), l) && View() == old(View())
    {
      removed := l in listeners;
      listeners := RemoveFirst(listeners, l);
    }

    /** `unsubscribeAll()`. */
    method UnsubscribeAll()
      modifies this
      ensures listeners == [] && View() == old(View())
    {
      listeners := [];
    }

    /** `onStateSuccess(nextStep)`: a tick the state refuses throws and
        changes nothing; otherwise the new state is notified. */
    method OnStateSuccess(nextStep: Option<string>) returns (r: Result<bool>)
      modifies this
      ensures var t := SucceedOn(old(Env()), old(View()), nextStep);
        && (r.Err? <==> t.Err?)
        && (r.Err? ==> r.error == t.error && View() == old(View()))
        && (r.Ok? ==> Tick(View(), r.value) == t.value)
      ensures listeners == old(listeners)
    {
      var next := OnSuccess(state, nextStep);
      if next.Err? {
        return Err(next.error);
      }
      var previous := state;
      state := next.value;
      var ok := NotifyStateChangeListeners(previous);
      return Ok(ok);
    }

    /** `onStateFailure(cause)`: the failure tick, then the notification. */
    method OnStateFailure(cause: Cause) returns (ok: bool)
      modifies this
      ensures Tick(View(), ok) == FailOn(old(Env()), old(View()), cause)
      ensures listeners == old(listeners)
    {
      var previous := state;
      state := OnFailure(state, cause);
      ok := NotifyStateChangeListeners(previous);
    }

    /** `notifyStateChangeListeners(previousState)`: calls the listeners in
        order; the first that throws moves the state to `Failure` (in at
        most two failure ticks, so the rethrow for a state that does not
        get there cannot happen) and ends the round. */
    method NotifyStateChangeListeners(previous: State) returns (allCalled: bool)
      modifies this
      ensures Tick(View(), allCalled) == NotifyFrom(old(Env()), previous, old(View()), 0)
      ensures listeners == old(listeners)
    {
      ghost var env := Env();
      ghost var total := NotifyFrom(env, previous, View(), 0);
      allCalled := true;
      for j := 0 to |listeners|
        invariant Env() == env && state == old(state)
        invariant total == NotifyFrom(env, previous, View(), j)
      {
        var n := |calls|;
        calls := calls + [Call(listeners[j], uuid, previous, state)];
        if n in faults {
          var e := faults[n];
          FailureWithinTwoTicks(state, e);
          state := OnFailure(state, e);
          if !state.Failure? {
            state := OnFailure(state, e);
          }
          allCalled := false;
          break;
        }
      }
    }
  }

  /** `StepAttemptResult`: the output of a successful attempt, or whether a
      listener threw (`fatalError`). */
  datatype StepAttemptResult<T> = StepAttemptResult(stepResult: Option<T>, fatalError: bool)

  /** The orchestrator. `started`, `interrupted` and the result are set-once
      properties; the state lives in `holder`. */
  class CoreOrchestratorImpl<T> {
    const uuid: Uuid
    const started: ImmutableAfterSet.ImmutableAfterSet<bool>
    const interrupted: ImmutableAfterSet.ImmutableAfterSet<bool>
    const holder: StateHolder
    const resultCell: ImmutableAfterSet.ImmutableAfterSet<Option<T>>
    const cursor: Orchestrator.Cursor<T, StepDescriptor<T>>

    ghost predicate Valid()
      reads this, started, interrupted, holder, resultCell, cursor
    {
      && started != interrupted
      && (started.value <==> started.count > 0)
      && (interrupted.value <==> interrupted.count > 0)
      && holder.uuid == uuid && uuid == cursor.uuidOf(cursor.input)
      && cursor.position <= |cursor.steps| && WellFormed(cursor.steps)
      && (!started.value ==> holder.state == Scheduled && holder.calls == [] && resultCell.count == 0 && cursor.position == 0)
      && (resultCell.count > 0 ==> holder.state.Success? || holder.state.Failure?)
    }

    /** A job that was started but whose coroutine has not run yet. */
    ghost predicate Launched()
      reads this, started, interrupted, holder, resultCell, cursor
    {
      Valid() && started.value && holder.state == Scheduled && resultCell.count == 0 && cursor.position == 0
    }

    constructor (input: T, steps: seq<StepDescriptor<T>>, uuidOf: T -> Uuid, faults: map<nat, Cause>)
      requires WellFormed(steps)
      ensures Valid() && !started.value && !interrupted.value && resultCell.value == None
      ensures uuid == uuidOf(input) && holder.listeners == [] && holder.faults == faults
      ensures cursor.input == input && cursor.steps == steps && cursor.uuidOf == uuidOf
    {
      uuid := uuidOf(input);
      started := new ImmutableAfterSet.ImmutableAfterSet(false);
      interrupted := new ImmutableAfterSet.ImmutableAfterSet(false);
      holder := new StateHolder(uuidOf(input), faults);
      resultCell := new ImmutableAfterSet.ImmutableAfterSet(None);
      cursor := new Orchestrator.Cursor(input, steps, uuidOf);
    }

    /** `start()`: a second call throws IllegalStateException; the first
        marks the job as started and launches `runAllSteps`. */
    method Start() returns (r: Outcome)
      requires Valid()
      modifies started
      ensures r.Fail? <==> old(started.value)
      ensures r.Fail? ==> r.error == IllegalState
      ensures started.value && Valid()
      ensures r.Pass? ==> Launched()
    {
      if started.value {
        return Fail(IllegalState);
      }
      r := started.SetValue(true);
    }

    /** `interrupt()`: raises the set-once flag, unless it is up already. */
    method Interrupt()
      requires Valid()
      modifies interrupted
      ensures interrupted.value && Valid()
      ensures old(interrupted.value) ==> interrupted.View() == old(interrupted.View())
    {
      if !interrupted.value {
        var r := interrupted.SetValue(true);
      }
    }

    /** `subscribe`, `unsubscribe` and `unsubscribeAll` go to the holder. */
    method Subscribe(l: ListenerId)
      requires Valid()
      modifies holder
      ensures holder.listeners == old(holder.listeners) + [l] && holder.View() == old(holder.View()) && Valid()
    {
      holder.Subscribe(l);
    }

    method Unsubscribe(l: ListenerId) returns (removed: bool)
      requires Valid()
      modifies holder
      ensures removed <==> l in old(holder.listeners)
      ensures holder.listeners == RemoveFirst(old(holder.listeners), l) && holder.View() == old(holder.View()) && Valid()
    {
      removed := holder.Unsubscribe(l);
    }

    method UnsubscribeAll()
      requires Valid()
      modifies holder
      ensures holder.listeners == [] && holder.View() == old(holder.View()) && Valid()
    {
      holder.UnsubscribeAll();
    }

    /** `runAllSteps()`, the body of the launched coroutine: each step runs
        in turn, its output becoming the cursor's next input, until a step
        ends with null, the cursor throws, or the steps run out and the last
        input becomes the result. */
    method RunAllSteps(interruptAt: Option<nat>) returns (end: RunEnd<T>)
      requires Launched()
      modifies holder, cursor, resultCell
      ensures Valid()
      ensures var run := RunFrom(old(holder.Env()), cursor.steps, 0, old(cursor.input), old(holder.View()), 0,
                                 Orchestrator.Effective(interrupted.value, interruptAt), cursor.uuidOf);
        end == run.end && holder.View() == run.holder
      ensures end.Completed? ==> resultCell.value == Some(end.result)
      ensures !end.Completed? ==> resultCell.count == 0
      ensures holder.listeners == old(holder.listeners)
    {
      ghost var env := holder.Env();
      ghost var ia := Orchestrator.Effective(interrupted.value, interruptAt);
      ghost var total := RunFrom(env, cursor.steps, 0, cursor.input, holder.View(), 0, ia, cursor.uuidOf);
      var checks := 0;
      while true
        invariant cursor.position <= |cursor.steps| && cursor.uuidOf(cursor.input) == uuid
        invariant holder.Env() == env && (holder.state.Scheduled? || holder.state.AttemptSuccessful?)
        invariant total == RunFrom(env, cursor.steps, cursor.position, cursor.input, holder.View(), checks, ia, cursor.uuidOf)
        invariant resultCell.count == 0
        decreases |cursor.steps| - cursor.position
      {
        if cursor.NextStep().None? {
          OnResultPrepared(cursor.input);
          end := Completed(cursor.input);
          break;
        }
        var ended;
        ended, checks := Advance(checks, interruptAt);
        if ended.Some? {
          end := ended.value;
          break;
        }
      }
    }

    /** One pass of `runAllSteps`' loop over a remaining step: run it, then
        either end the job (`end` says how) or move the cursor to its
        output. */
    method Advance(checks: nat, interruptAt: Option<nat>) returns (end: Option<RunEnd<T>>, after: nat)
      requires cursor.position < |cursor.steps| && WellFormed(cursor.steps)
      requires holder.state.Scheduled? || holder.state.AttemptSuccessful?
      modifies holder, cursor
      ensures var ia := Orchestrator.Effective(interrupted.value, interruptAt);
        var r := RunFrom(old(holder.Env()), cursor.steps, old(cursor.position), old(cursor.input), old(holder.View()), checks, ia, cursor.uuidOf);
        && (end.Some? ==> end.value == r.end && holder.View() == r.holder && !r.end.Completed?)
        && (end.None? ==>
              && cursor.position == old(cursor.position) + 1 && holder.state.AttemptSuccessful?
              && r == RunFrom(old(holder.Env()), cursor.steps, cursor.position, cursor.input, holder.View(), after, ia, cursor.uuidOf))
      ensures cursor.position <= |cursor.steps| && cursor.uuidOf(cursor.input) == cursor.uuidOf(old(cursor.input))
      ensures holder.listeners == old(holder.listeners)
    {
      ghost var ia := Orchestrator.Effective(interrupted.value, interruptAt);
      ghost var env := holder.Env();
      ghost var h := holder.View();
      var d := cursor.NextStep().value;
      RunFromAt(env, cursor.steps, cursor.position, cursor.input, h, checks, ia, cursor.uuidOf);
      var stepResult;
      stepResult, after := RunStep(cursor.input, d, checks, interruptAt);
      if stepResult.stepResult.None? {
        OnStepResultNull(d, stepResult.interrupted);
        return Some(Failed), after;
      }
      var moved := cursor.Move(stepResult.stepResult.value);
      if moved.Fail? {
        return Some(Crashed(moved.error)), after;
      }
      return None, after;
    }

    /** `runStep(input, nextStep)`: up to `maxAttempts` attempts; the first
        output, interruption or throwing listener ends the step. */
    method RunStep(input: T, d: StepDescriptor<T>, checks: nat, interruptAt: Option<nat>) returns (res: Orchestrator.StepResult<T>, after: nat)
      requires CanAttempt(holder.state, d.name)
      modifies holder
      ensures var run := Attempts(old(holder.Env()), d, input, 0, old(holder.View()), checks, Orchestrator.Effective(interrupted.value, interruptAt));
        res == run.result && after == run.checks && holder.View() == run.holder
      ensures holder.listeners == old(holder.listeners)
    {
      ghost var env := holder.Env();
      ghost var ia := Orchestrator.Effective(interrupted.value, interruptAt);
      ghost var total := Attempts(env, d, input, 0, holder.View(), checks, ia);
      var c := checks;
      for i := 0 to d.maxAttempts
        invariant holder.Env() == env && CanAttempt(holder.state, d.name)
        invariant total == Attempts(env, d, input, i, holder.View(), c, ia)
      {
        var stop;
        res, stop, after := AttemptOnce(i, d, input, c, interruptAt);
        if stop {
          return;
        }
        c := c + 1;
      }
      return Orchestrator.StepResult(None, false), c;
    }

    /** One pass of `runStep`'s loop: tick to `Attempting`, check the flag,
        call the step. `stop` says the step is over; otherwise the attempt
        threw and the remaining attempts make the rest of the step. */
    method AttemptOnce(i: nat, d: StepDescriptor<T>, input: T, c: nat, interruptAt: Option<nat>) returns (res: Orchestrator.StepResult<T>, stop: bool, after: nat)
      requires i < d.maxAttempts && CanAttempt(holder.state, d.name)
      modifies holder
      ensures var ia := Orchestrator.Effective(interrupted.value, interruptAt);
        var a := Attempts(old(holder.Env()), d, input, i, old(holder.View()), c, ia);
        && (stop ==> res == a.result && after == a.checks && holder.View() == a.holder)
        && (!stop ==> CanAttempt(holder.state, d.name) && a == Attempts(old(holder.Env()), d, input, i + 1, holder.View(), c + 1, ia))
      ensures holder.listeners == old(holder.listeners)
    {
      var ticked := holder.OnStateSuccess(Some(d.name));
      if !ticked.value {
        return Orchestrator.StepResult(None, false), true, c;
      }
      var raised := CheckInterruption(i, d.name, c, interruptAt);
      if raised {
        return Orchestrator.StepResult(None, true), true, c + 1;
      }
      var attempt := DoStepAttempt(i, d, input);
      after := c + 1;
      if attempt.fatalError {
        return Orchestrator.StepResult(None, false), true, after;
      }
      if attempt.stepResult.Some? {
        return Orchestrator.StepResult(attempt.stepResult, false), true, after;
      }
      return Orchestrator.StepResult(None, false), false, after;
    }

    /** `checkInterruption(attempt, stepName)`: the flag, which a concurrent
        `interrupt()` raises before check `interruptAt`; when it is up the
        attempt fails with StepInterruptedException, whatever the listeners
        do. */
    method CheckInterruption(attempt: nat, stepName: string, check: nat, interruptAt: Option<nat>) returns (raised: bool)
      modifies holder
      ensures raised == (interrupted.value || Orchestrator.FlagAt(check, interruptAt))
      ensures raised ==> holder.View() == FailOn(old(holder.Env()), old(holder.View()), StepInterrupted(stepName, attempt)).holder
      ensures !raised ==> holder.View() == old(holder.View())
      ensures holder.listeners == old(holder.listeners)
    {
      if interrupted.value || Orchestrator.FlagAt(check, interruptAt) {
        var ok := holder.OnStateFailure(StepInterrupted(stepName, attempt));
        return true;
      }
      return false;
    }

    /** `doStepAttempt(attempt, step, input)`: an output ticks the attempt
        to success, an exception fails it with StepFailureException; a
        listener that throws on either tick makes the result fatal. */
    method DoStepAttempt(attempt: nat, d: StepDescriptor<T>, input: T) returns (res: StepAttemptResult<T>)
      requires holder.state == Attempting(d.name)
      modifies holder
      ensures match d.step(attempt, input)
        case Produced(v) =>
          var t := SucceedOn(old(holder.Env()), old(holder.View()), None).value;
          holder.View() == t.holder && res == (if t.ok then StepAttemptResult(Some(v), false) else StepAttemptResult(None, true))
        case Threw(e) =>
          var t := FailOn(old(holder.Env()), old(holder.View()), StepFailure(d.name, attempt, e));
          holder.View() == t.holder && res == StepAttemptResult(None, !t.ok)
      ensures holder.listeners == old(holder.listeners)
    {
      match d.step(attempt, input)
      case Produced(v) =>
        var ticked := holder.OnStateSuccess(None);
        res := if ticked.value then StepAttemptResult(Some(v), false) else StepAttemptResult(None, true);
      case Threw(e) =>
        var ok := holder.OnStateFailure(StepFailure(d.name, attempt, e));
        res := StepAttemptResult(None, !ok);
    }

    /** `onStepResultNull(failingStep, dueToInterruption)`: unless a
        listener already failed the job, fails it as interrupted or as out
        of attempts. */
    method OnStepResultNull(d: StepDescriptor<T>, dueToInterruption: bool)
      requires holder.state.Failure? || holder.state.AttemptFailed?
      modifies holder
      ensures old(holder.state).Failure? ==> holder.View() == old(holder.View())
      ensures !old(holder.state).Failure? ==>
        var cause := if dueToInterruption then OrchestratorInterrupted(None) else StepOutOfAttempts(d.name, d.maxAttempts, None);
        holder.View() == FailOn(old(holder.Env()), old(holder.View()), cause).holder
      ensures holder.state.Failure? && holder.listeners == old(holder.listeners)
    {
      if !holder.state.Failure? {
        var cause := if dueToInterruption then OrchestratorInterrupted(None) else StepOutOfAttempts(d.name, d.maxAttempts, None);
        var ok := holder.OnStateFailure(cause);
      }
    }

    /** `onResultPrepared(result)`: stores the result, then ticks to
        `Success` (or ends at `Failure` when a listener throws). */
    method OnResultPrepared(result: T)
      requires resultCell.count == 0 && (holder.state.Scheduled? || holder.state.AttemptSuccessful?)
      modifies holder, resultCell
      ensures resultCell.View() == ImmutableAfterSet.Cell(Some(result), 1)
      ensures holder.View() == SucceedOn(old(holder.Env()), old(holder.View()), None).value.holder
      ensures holder.state.Success? || holder.state.Failure?
      ensures holder.listeners == old(holder.listeners)
    {
      var r := resultCell.SetValue(Some(result));
      var ticked := holder.OnStateSuccess(None);
    }
  }
}
