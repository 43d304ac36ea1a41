/** Values shared by every part of the job-pipeline model: optional and
    fallible results, the exceptions the library throws to its callers, and
    the throwables that it records as the causes of failed states. */
module Common {

  datatype Option<+T> = None | Some(value: T)

  /** A call that either returns a value or throws one of the library's own
      exceptions to its caller. */
  datatype Result<+T> = Ok(value: T) | Err(error: Error) {
    predicate IsFailure() { Err? }
    function PropagateFailure<U>(): Result<U>
      requires Err?
    {
      Err(error)
    }
    function Extract(): T
      requires Ok?
    {
      value
    }
  }

  /** A call that returns nothing or throws. */
  datatype Outcome = Pass | Fail(error: Error) {
    predicate IsFailure() { Fail? }
    function PropagateFailure<U>(): Result<U>
      requires Fail?
    {
      Err(error)
    }
  }

  /** The identity of an item in the pipeline (a java.util.UUID). */
  type Uuid = nat

  /** Exceptions thrown by the library to the caller of an operation. */
  datatype Error =
    | IllegalArgument
    | IllegalState
    | DuplicateUuid(uuid: Uuid)
    | NullPointer
    | IndexOutOfBounds

  /** Throwables recorded as the cause of a failed attempt or of a failed job:
      an arbitrary throwable raised by user code, and the exceptions the
      orchestrators create around them. */
  datatype Cause =
    | Thrown(id: nat)
    | StepFailure(stepName: string, attemptIndex: nat, thrown: Cause)
    | StepInterrupted(stepName: string, attemptIndex: nat)
    | StepOutOfAttempts(stepName: string, maxAttempts: nat, inner: Option<Cause>)
    | OrchestratorInterrupted(inner: Option<Cause>)
    | BarrierLiftedAction(thrown: Cause)
    | Raised(error: Error)

  /** The elements of `s` that satisfy `p`, in their original order. */
  function Filter<T>(s: seq<T>, p: T -> bool): (r: seq<T>)
    ensures |r| <= |s|
    ensures forall i :: 0 <= i < |r| ==> r[i] in s && p(r[i])
    ensures forall i :: 0 <= i < |s| && p(s[i]) ==> s[i] in r
  {
    if s == [] then [] else if p(s[0]) then [s[0]] + Filter(s[1..], p) else Filter(s[1..], p)
  }

  lemma FilterAppend<T>(a: seq<T>, b: seq<T>, p: T -> bool)
    ensures Filter(a + b, p) == Filter(a, p) + Filter(b, p)
  {
    if a == [] {
      assert a + b == b;
    } else {
      assert (a + b)[1..] == a[1..] + b;
      FilterAppend(a[1..], b, p);
    }
  }
}
