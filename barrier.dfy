/** The barrier step of the latest generation
    (pipe/src/main/java/com/udeyrishi/pipe/internal/barrier/Barrier.kt):
    a step that suspends the job that invokes it until its controller lifts
    it (optionally with a result), interrupts it, or marks it as failed.

    The suspended coroutine is modelled by its continuation: none yet, one
    waiting to be resumed, or one already resumed (resuming it again throws
    IllegalStateException). The value or exception the waiting `invoke`
    is resumed with is returned by the call that resumes it. The barrier's
    calls to its controller are made by the controller models; here their
    outcome is a parameter. */
module Barrier {
  import opened Common

  /** A barrier's identity, as the controllers' maps key it. */
  type BarrierId = nat

  /** `BarrierState`; `Lifted`, `Interrupted` and `Failed` (the source's
      `Error`) are the `ResultPrepared` states. */
  datatype BarrierState = Initialized | Blocked | Lifted | Interrupted | Failed(error: Cause)
  {
    predicate IsResultPrepared() { Lifted? || Interrupted? || Failed? }
  }

  /** The `continuation` field: null, a suspended `invoke` waiting to be
      resumed, or a continuation that was already resumed. */
  datatype Continuation = NoContinuation | Waiting | Resumed

  /** What a suspended `invoke` is resumed with. */
  datatype Resumption<T> = Value(value: Option<T>) | Exception(cause: Cause)

  /** What a call to `invoke` does at once: return, throw, or suspend. */
  datatype Invocation<T> = Returned(value: Option<T>) | Threw(cause: Cause) | Suspended

  /** The barrier's fields as a value. */
  datatype BarrierValue<T> = BarrierValue(state: BarrierState, input: Option<T>, result: Option<T>, continuation: Continuation)

  /** The effect of `lift`, `interrupt` or `markAsFailed`: the barrier
      after the call, whether the call threw, and what a suspended `invoke`
      was resumed with. */
  datatype Change<T> = Change(after: BarrierValue<T>, outcome: Outcome, resumed: Option<Resumption<T>>)

  /** The effect of `invoke`: the barrier after the call and what the call did. */
  datatype Call<T> = Call(after: BarrierValue<T>, invocation: Invocation<T>)

  /** A newly constructed barrier. */
  function Fresh<T>(): BarrierValue<T> {
    BarrierValue(Initialized, None, None, NoContinuation)
  }

  /** `reset`: back to `Initialized` with neither input nor result; the
      continuation field is left as it is. */
  function Cleared<T>(b: BarrierValue<T>): BarrierValue<T> {
    b.(state := Initialized, input := None, result := None)
  }

  /** `evaluateResult`: a lifted barrier yields its result, or else its
      input, or else throws IllegalStateException; an interrupted one yields
      null; a failed one rethrows its error. */
  function Evaluation<T>(b: BarrierValue<T>): (v: Resumption<T>)
    requires b.state.IsResultPrepared()
    ensures b.state.Lifted? && b.result.Some? ==> v == Value(b.result)
    ensures b.state.Lifted? && b.result.None? && b.input.Some? ==> v == Value(b.input)
    ensures b.state.Lifted? ==> (v.Exception? <==> b.result.None? && b.input.None?)
    ensures b.state.Lifted? && v.Exception? ==> v.cause == Raised(IllegalState)
    ensures b.state.Interrupted? ==> v == Value(None)
    ensures b.state.Failed? ==> v == Exception(b.state.error)
  {
    match b.state
    case Lifted =>
      if b.result.Some? then Value(b.result)
      else if b.input.Some? then Value(b.input)
      else Exception(Raised(IllegalState))
    case Interrupted => Value(None)
    case Failed(e) => Exception(e)
  }

  /** The one side effect of `evaluateResult`: evaluating `Error` resets
      the barrier before rethrowing. */
  function Evaluated<T>(b: BarrierValue<T>): BarrierValue<T>
    requires b.state.IsResultPrepared()
  {
    if b.state.Failed? then Cleared(b) else b
  }

  /** `continuation?.resume(v)` and `continuation?.resumeWithException(e)`
      on a continuation that is not null: a waiting one is resumed, and an
      already resumed one throws IllegalStateException. */
  function Deliver<T>(b: BarrierValue<T>, v: Resumption<T>): (c: Change<T>)
    requires !b.continuation.NoContinuation?
    ensures c.outcome.Pass? <==> b.continuation.Waiting?
    ensures c.outcome.Pass? ==> c.resumed == Some(v) && c.after == b.(continuation := Resumed)
    ensures c.outcome.Fail? ==> c.outcome.error == IllegalState && c.resumed.None? && c.after == b
  {
    if b.continuation.Waiting? then Change(b.(continuation := Resumed), Pass, Some(v))
    else Change(b, Fail(IllegalState), None)
  }

  /** `try { continuation?.resume(evaluateResult()) } catch (e) {
      continuation?.resumeWithException(e) }`: with no continuation the
      result is not evaluated at all. */
  function Settle<T>(b: BarrierValue<T>): Change<T>
    requires b.state.IsResultPrepared()
  {
    if b.continuation.NoContinuation? then Change(b, Pass, None)
    else Deliver(Evaluated(b), Evaluation(b))
  }

  /** An `invoke` that evaluates the prepared result returns or throws it. */
  function Answer<T>(v: Resumption<T>): Invocation<T> {
    match v
    case Value(x) => Returned(x)
    case Exception(e) => Threw(e)
  }

  /** `invoke(input)`, with `blocked` the outcome of the controller's
      `onBarrierBlocked`. */
  function InvokeOn<T>(b: BarrierValue<T>, x: T, blocked: Outcome): (c: Call<T>)
    ensures c.invocation.Suspended? <==> b.input.None? && b.state.Initialized? && blocked.Pass?
    ensures c.invocation.Suspended? ==> c.after == b.(input := Some(x), state := Blocked, continuation := Waiting)
    ensures b.input.Some? ==> c == Call(b, Threw(Raised(IllegalState)))
    ensures b.input.None? && b.state.IsResultPrepared() ==> c.invocation == Answer(Evaluation(b.(input := Some(x))))
    ensures c.after.continuation == b.continuation || c.invocation.Suspended?
  {
    if b.input.Some? then Call(b, Threw(Raised(IllegalState)))
    else
      var b1 := b.(input := Some(x));
      match b.state
      case Blocked => Call(b1, Threw(Raised(IllegalState)))
      case Initialized =>
        if blocked.Fail? then Call(b1, Threw(Raised(blocked.error)))
        else Call(b1.(state := Blocked, continuation := Waiting), Suspended)
      case _ =>
        var v := Evaluation(b1);
        Call(Evaluated(b1), Answer(v))
  }

  /** `lift(result)`. */
  function LiftOn<T>(b: BarrierValue<T>, v: Option<T>): (c: Change<T>)
    ensures c.outcome.Fail? <==>
      b.result.Some? || b.state.Failed? || ((b.state.Initialized? || b.state.Blocked?) && b.continuation.Resumed?)
    ensures c.outcome.Fail? ==> c.outcome.error == IllegalState && c.resumed.None?
    ensures b.result.None? ==> c.after.result == v
    ensures c.resumed.Some? ==>
      (b.state.Initialized? || b.state.Blocked?) && c.after.state == Lifted && c.after.continuation == Resumed
    ensures c.resumed.Some? && (v.Some? || b.input.Some?) ==> c.resumed == Some(Value(if v.Some? then v else b.input))
  {
    if b.result.Some? then Change(b, Fail(IllegalState), None)
    else
      var b1 := b.(result := v);
      match b.state
      case Initialized => Settle(b1.(state := Lifted))
      case Blocked => Settle(b1.(state := Lifted))
      case Lifted => Change(b1, Pass, None)
      case Interrupted => Change(b1, Pass, None)
      case Failed(_) => Change(b1, Fail(IllegalState), None)
  }

  /** `interrupt()`, with `reply` the outcome of the controller's
      `onBarrierInterrupted`; an exception from the controller is handed to
      the suspended `invoke`. */
  function InterruptOn<T>(b: BarrierValue<T>, reply: Outcome): (c: Change<T>)
    ensures c.outcome.Fail? <==> b.state.Failed? || ((b.state.Initialized? || b.state.Blocked?) && b.continuation.Resumed?)
    ensures c.outcome.Fail? ==> c.outcome.error == IllegalState && c.resumed.None?
    ensures (b.state.Initialized? || b.state.Blocked?) ==> c.after.state == Interrupted
    ensures c.after.input == b.input && c.after.result == b.result
    ensures c.resumed.Some? ==> c.resumed == Some(if reply.Fail? then Exception(Raised(reply.error)) else Value(None))
  {
    match b.state
    case Initialized => Interrupting(b, reply)
    case Blocked => Interrupting(b, reply)
    case Lifted => Change(b, Pass, None)
    case Interrupted => Change(b, Pass, None)
    case Failed(_) => Change(b, Fail(IllegalState), None)
  }

  /** The `Initialized`/`Blocked` branch of `interrupt()`. */
  function Interrupting<T>(b: BarrierValue<T>, reply: Outcome): Change<T> {
    var b1 := b.(state := Interrupted);
    if b1.continuation.NoContinuation? then Change(b1, Pass, None)
    else if reply.Fail? then Deliver(b1, Exception(Raised(reply.error)))
    else Deliver(b1, Evaluation(b1))
  }

  /** `markAsFailed(e)`. */
  function MarkAsFailedOn<T>(b: BarrierValue<T>, e: Cause): (c: Change<T>)
    ensures c.outcome.Fail? <==>
      b.state.IsResultPrepared() || ((b.state.Initialized? || b.state.Blocked?) && b.continuation.Resumed?)
    ensures c.outcome.Fail? ==> c.outcome.error == IllegalState && c.resumed.None?
    ensures c.resumed.Some? ==> c.resumed == Some(Exception(e)) && c.after == Cleared(b).(continuation := Resumed)
    ensures c.outcome.Pass? && c.resumed.None? ==> c.after == b.(state := Failed(e))
  {
    match b.state
    case Initialized => Settle(b.(state := Failed(e)))
    case Blocked => Settle(b.(state := Failed(e)))
    case _ => Change(b, Fail(IllegalState), None)
  }

  /** Invoking a barrier whose input is set throws IllegalStateException
      and changes nothing, whatever the controller would say. */
  lemma InvokeTwiceThrows<T>(b: BarrierValue<T>, x: T, blocked: Outcome)
    requires b.input.Some?
    ensures InvokeOn(b, x, blocked) == Call(b, Threw(Raised(IllegalState)))
  {
  }

  /** Invoking a barrier whose result is already prepared answers at once,
      without telling the controller: a lifted barrier returns its result or
      else the new input, an interrupted one returns null, and a failed one
      resets and rethrows. */
  lemma PreparedInvokeAnswersAtOnce<T>(b: BarrierValue<T>, x: T, blocked: Outcome)
    requires b.input.None? && b.state.IsResultPrepared()
    ensures InvokeOn(b, x, blocked) == InvokeOn(b, x, Pass)
    ensures b.state.Lifted? ==>
      InvokeOn(b, x, blocked).invocation == Returned(if b.result.Some? then b.result else Some(x))
    ensures b.state.Interrupted? ==> InvokeOn(b, x, blocked).invocation == Returned(None)
    ensures b.state.Failed? ==>
      InvokeOn(b, x, blocked) == Call(Cleared(b), Threw(b.state.error))
  {
  }

  /** `lift` moves an open barrier to `Lifted`, leaves a lifted or
      interrupted one where it is, and refuses a failed one; a second
      non-null result throws before anything else. */
  lemma LiftMoves<T>(b: BarrierValue<T>, v: Option<T>)
    ensures b.result.Some? ==> LiftOn(b, v) == Change(b, Fail(IllegalState), None)
    ensures b.result.None? && (b.state.Initialized? || b.state.Blocked?) ==>
      LiftOn(b, v).after.state == Lifted && LiftOn(b, v).after.result == v
    ensures b.result.None? && (b.state.Lifted? || b.state.Interrupted?) ==>
      LiftOn(b, v) == Change(b.(result := v), Pass, None)
    ensures b.result.None? && b.state.Failed? ==> LiftOn(b, v).outcome == Fail(IllegalState)
  {
  }

  /** `interrupt` moves an open barrier to `Interrupted` and a later `invoke`
      or resumption yields null; it is a no-op once the result is prepared,
      and refused on a failed barrier. */
  lemma InterruptMoves<T>(b: BarrierValue<T>, reply: Outcome, x: T)
    ensures (b.state.Initialized? || b.state.Blocked?) ==> InterruptOn(b, reply).after.state == Interrupted
    ensures (b.state.Initialized? || b.state.Blocked?) && reply.Pass? && InterruptOn(b, reply).resumed.Some? ==>
      InterruptOn(b, reply).resumed == Some(Value(None))
    ensures b.state.Initialized? && b.input.None? ==>
      InvokeOn(InterruptOn(b, reply).after, x, Pass).invocation == Returned(None)
    ensures (b.state.Lifted? || b.state.Interrupted?) ==> InterruptOn(b, reply) == Change(b, Pass, None)
    ensures b.state.Failed? ==> InterruptOn(b, reply) == Change(b, Fail(IllegalState), None)
  {
  }

  /** `markAsFailed` is accepted only on an open barrier. With a suspended
      `invoke`, that invoke throws the error and the barrier is reset;
      without one, the error waits in the barrier until the next `invoke`,
      which resets the barrier and throws it. */
  lemma MarkAsFailedMoves<T>(b: BarrierValue<T>, e: Cause, x: T)
    ensures MarkAsFailedOn(b, e).outcome.Fail? <==>
      b.state.IsResultPrepared() || ((b.state.Initialized? || b.state.Blocked?) && b.continuation.Resumed?)
    ensures (b.state.Initialized? || b.state.Blocked?) && b.continuation.Waiting? ==>
      MarkAsFailedOn(b, e) == Change(Cleared(b).(continuation := Resumed), Pass, Some(Exception(e)))
    ensures (b.state.Initialized? || b.state.Blocked?) && b.continuation.NoContinuation? && b.input.None? ==>
      && MarkAsFailedOn(b, e) == Change(b.(state := Failed(e)), Pass, None)
      && InvokeOn(MarkAsFailedOn(b, e).after, x, Pass) == Call(Cleared(b), Threw(e))
  {
  }

  /** The suspended round trip: a fresh barrier invoked with `x` suspends;
      lifting it resumes that invoke with the lift result, or with `x` when
      the result is null; the barrier stays lifted. */
  lemma LiftResumesInvoke<T>(x: T, v: Option<T>)
    ensures var b := InvokeOn(Fresh(), x, Pass);
      && b.invocation == Suspended
      && b.after.state == Blocked
      && LiftOn(b.after, v) ==
         Change(BarrierValue(Lifted, Some(x), v, Resumed), Pass, Some(Value(if v.Some? then v else Some(x))))
  {
  }

  /** After a failed attempt the barrier takes the next invoke like a fresh
      one: a suspended invoke marked as failed throws the error, and invoking
      again suspends once more. */
  lemma FailedAttemptCanRetry<T>(x: T, y: T, e: Cause)
    ensures var first := InvokeOn(Fresh(), x, Pass).after;
      var failed := MarkAsFailedOn(first, e);
      && failed.resumed == Some(Exception(e))
      && failed.after.state == Initialized && failed.after.input.None? && failed.after.result.None?
      && InvokeOn(failed.after, y, Pass).invocation == Suspended
  {
  }

  /** What the barrier's operations are meant to keep: a blocked barrier
      has a waiting continuation, a continuation that was already resumed
      belongs to a lifted or interrupted barrier, and a failure waits in the
      barrier only when no `invoke` is suspended on it. */
  ghost predicate Coherent<T>(b: BarrierValue<T>) {
    && (b.state.Blocked? ==> b.continuation.Waiting?)
    && (b.continuation.Resumed? ==> b.state.Lifted? || b.state.Interrupted?)
    && (b.state.Failed? ==> b.continuation.NoContinuation?)
  }

  /** As written, `reset()` keeps the continuation that `markAsFailed` has
      just resumed, so the reset barrier is open but holds a spent
      continuation: interrupting or lifting it before the next `invoke`
      resumes that continuation a second time, which throws
      IllegalStateException out of `interrupt()` and `lift()`. */
  lemma MarkAsFailedKeepsSpentContinuation<T>(x: T, e: Cause)
    ensures var suspended := InvokeOn(Fresh(), x, Pass).after;
      var failed := MarkAsFailedOn(suspended, e).after;
      && Coherent(suspended)
      && failed.state == Initialized && failed.continuation == Resumed
      && !Coherent(failed)
      && InterruptOn(failed, Pass).outcome == Fail(IllegalState)
      && LiftOn(failed, None).outcome == Fail(IllegalState)
  {
  }

  /** `markAsFailed(e)` as evidently intended: when it resumes the suspended
      `invoke`, the reset also drops that continuation, so the barrier is
      exactly as fresh for the next attempt. */
  function MarkAsFailedReleasing<T>(b: BarrierValue<T>, e: Cause): (c: Change<T>)
    ensures c.outcome == MarkAsFailedOn(b, e).outcome && c.resumed == MarkAsFailedOn(b, e).resumed
  {
    var c := MarkAsFailedOn(b, e);
    if c.resumed.Some? then c.(after := c.after.(continuation := NoContinuation)) else c
  }

  /** `invoke` keeps a barrier coherent. */
  lemma InvokeKeepsCoherent<T>(b: BarrierValue<T>, x: T, blocked: Outcome)
    requires Coherent(b)
    ensures Coherent(InvokeOn(b, x, blocked).after)
  {
  }

  /** `lift` keeps a barrier coherent and succeeds on an open barrier without a result. */
  lemma LiftKeepsCoherent<T>(b: BarrierValue<T>, v: Option<T>)
    requires Coherent(b)
    ensures Coherent(LiftOn(b, v).after)
    ensures (b.state.Initialized? || b.state.Blocked?) && b.result.None? ==> LiftOn(b, v).outcome == Pass
  {
  }

  /** `interrupt` keeps a barrier coherent and succeeds on an open barrier. */
  lemma InterruptKeepsCoherent<T>(b: BarrierValue<T>, reply: Outcome)
    requires Coherent(b)
    ensures Coherent(InterruptOn(b, reply).after)
    ensures (b.state.Initialized? || b.state.Blocked?) ==> InterruptOn(b, reply).outcome == Pass
  {
  }

  /** The releasing `markAsFailed` keeps a barrier coherent and succeeds on an open barrier. */
  lemma ReleasingMarkAsFailedKeepsCoherent<T>(b: BarrierValue<T>, e: Cause)
    requires Coherent(b)
    ensures Coherent(MarkAsFailedReleasing(b, e).after)
    ensures (b.state.Initialized? || b.state.Blocked?) ==> MarkAsFailedReleasing(b, e).outcome == Pass
  {
  }

  /** With the releasing `markAsFailed`, every operation keeps a barrier
      coherent, and none of them throws on an open barrier because of its
      continuation: `lift` (with no earlier result), `interrupt` and
      `markAsFailed` on an `Initialized` or `Blocked` barrier all succeed. */
  lemma ReleasingKeepsCoherent<T>(b: BarrierValue<T>, x: T, v: Option<T>, blocked: Outcome, reply: Outcome, e: Cause)
    requires Coherent(b)
    ensures Coherent(InvokeOn(b, x, blocked).after)
    ensures Coherent(LiftOn(b, v).after)
    ensures Coherent(InterruptOn(b, reply).after)
    ensures Coherent(MarkAsFailedReleasing(b, e).after)
    ensures (b.state.Initialized? || b.state.Blocked?) ==>
      && InterruptOn(b, reply).outcome == Pass
      && MarkAsFailedReleasing(b, e).outcome == Pass
      && (b.result.None? ==> LiftOn(b, v).outcome == Pass)
  {
    InvokeKeepsCoherent(b, x, blocked);
    LiftKeepsCoherent(b, v);
    InterruptKeepsCoherent(b, reply);
    ReleasingMarkAsFailedKeepsCoherent(b, e);
  }

  /** The barrier object: `state`, `input`, `result` and `continuation` are
      updated in place. */
  class BarrierImpl<T> {
    var state: BarrierState
    var input: Option<T>
    var result: Option<T>
    var continuation: Continuation

    function View(): BarrierValue<T>
      reads this
    {
      BarrierValue(state, input, result, continuation)
    }

    constructor ()
      ensures View() == Fresh()
    {
      state := Initialized;
      input := None;
      result := None;
      continuation := NoContinuation;
    }

    /** `invoke(input)`; `blocked` is the outcome of the controller's
        `onBarrierBlocked`. */
    method Invoke(x: T, blocked: Outcome) returns (r: Invocation<T>)
      modifies this
      ensures Call(View(), r) == InvokeOn(old(View()), x, blocked)
    {
      if input.Some? {
        return Threw(Raised(IllegalState));
      }
      input := Some(x);
      match state
      case Blocked =>
        r := Threw(Raised(IllegalState));
      case Initialized =>
        if blocked.Fail? {
          r := Threw(Raised(blocked.error));
        } else {
          continuation := Waiting;
          state := Blocked;
          r := Suspended;
        }
      case _ =>
        var v := EvaluateResult();
        r := Answer(v);
    }

    /** `lift(result)`. */
    method Lift(v: Option<T>) returns (outcome: Outcome, resumed: Option<Resumption<T>>)
      modifies this
      ensures Change(View(), outcome, resumed) == LiftOn(old(View()), v)
    {
      if result.Some? {
        return Fail(IllegalState), None;
      }
      result := v;
      match state
      case Initialized =>
        state := Lifted;
        outcome, resumed := ResumeWithResult();
      case Blocked =>
        state := Lifted;
        outcome, resumed := ResumeWithResult();
      case Lifted =>
        outcome, resumed := Pass, None;
      case Interrupted =>
        outcome, resumed := Pass, None;
      case Failed(_) =>
        outcome, resumed := Fail(IllegalState), None;
    }

    /** `interrupt()`; `reply` is the outcome of the controller's
        `onBarrierInterrupted`. */
    method Interrupt(reply: Outcome) returns (outcome: Outcome, resumed: Option<Resumption<T>>)
      modifies this
      ensures Change(View(), outcome, resumed) == InterruptOn(old(View()), reply)
    {
      match state
      case Initialized =>
        outcome, resumed := InterruptOpen(reply);
      case Blocked =>
        outcome, resumed := InterruptOpen(reply);
      case Lifted =>
        outcome, resumed := Pass, None;
      case Interrupted =>
        outcome, resumed := Pass, None;
      case Failed(_) =>
        outcome, resumed := Fail(IllegalState), None;
    }

    /** The `Initialized`/`Blocked` branch of `interrupt()`. */
    method InterruptOpen(reply: Outcome) returns (outcome: Outcome, resumed: Option<Resumption<T>>)
      modifies this
      ensures Change(View(), outcome, resumed) == Interrupting(old(View()), reply)
    {
      state := Interrupted;
      if continuation.NoContinuation? {
        return Pass, None;
      }
      if reply.Fail? {
        outcome, resumed := Resume(Exception(Raised(reply.error)));
      } else {
        outcome, resumed := Resume(Value(None));
      }
    }

    /** `markAsFailed(e)`. */
    method MarkAsFailed(e: Cause) returns (outcome: Outcome, resumed: Option<Resumption<T>>)
      modifies this
      ensures Change(View(), outcome, resumed) == MarkAsFailedOn(old(View()), e)
    {
      match state
      case Initialized =>
        state := Failed(e);
        outcome, resumed := ResumeWithResult();
      case Blocked =>
        state := Failed(e);
        outcome, resumed := ResumeWithResult();
      case _ =>
        outcome, resumed := Fail(IllegalState), None;
    }

    /** The guarded resumption with the prepared result. */
    method ResumeWithResult() returns (outcome: Outcome, resumed: Option<Resumption<T>>)
      requires state.IsResultPrepared()
      modifies this
      ensures Change(View(), outcome, resumed) == Settle(old(View()))
    {
      if continuation.NoContinuation? {
        return Pass, None;
      }
      var v := EvaluateResult();
      outcome, resumed := Resume(v);
    }

    /** Resumes the continuation, which throws if it was already resumed. */
    method Resume(v: Resumption<T>) returns (outcome: Outcome, resumed: Option<Resumption<T>>)
      requires !continuation.NoContinuation?
      modifies this
      ensures Change(View(), outcome, resumed) == Deliver(old(View()), v)
    {
      if continuation.Resumed? {
        return Fail(IllegalState), None;
      }
      continuation := Resumed;
      return Pass, Some(v);
    }

    /** `evaluateResult()`. */
    method EvaluateResult() returns (v: Resumption<T>)
      requires state.IsResultPrepared()
      modifies this
      ensures v == Evaluation(old(View())) && View() == Evaluated(old(View()))
    {
      match state
      case Lifted =>
        v := if result.Some? then Value(result) else if input.Some? then Value(input) else Exception(Raised(IllegalState));
      case Interrupted =>
        v := Value(None);
      case Failed(e) =>
        Reset();
        v := Exception(e);
    }

    /** `reset()`. */
    method Reset()
      modifies this
      ensures View() == Cleared(old(View()))
    {
      state := Initialized;
      input := None;
      result := None;
    }
  }
}
