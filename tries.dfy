/**
 * Expression-style fallbacks for computations that may throw (com.oranjava.tries.Try).
 *
 * A caller's computation is the `Result` it ends in: `Success(v)` when it returns v,
 * `Failure(t)` when it throws t. A recovery (`codeIfThrown`) is a function from the
 * caught failure to such a result. A `Runnable` or `Consumer` is a computation whose
 * value is `()`. What the computations do on the way is not modelled.
 */
module Tries {
  import opened Wrappers

  /** `new RuntimeException(cause)`: the generic failure that carries the one caught. */
  datatype RuntimeException<F> = RuntimeException(cause: F)

  /** What a call of the executor ends in: a value, or a RuntimeException thrown to its caller. */
  type Outcome<V, F> = Result<V, RuntimeException<F>>

  // ---------------------------------------------------------------------------
  // The four executors
  // ---------------------------------------------------------------------------

  /** `tryOrElse(Callable, Function)`: code's value; if code throws, what the recovery makes of the failure. */
  function TryOrElse<V, F>(code: Result<V, F>, codeIfThrown: F -> Result<V, F>): Outcome<V, F>
  {
    match code
    case Success(v) => Success(v)
    case Failure(throwable1) =>
      match codeIfThrown(throwable1)
      case Success(w) => Success(w)
      case Failure(throwable2) => Failure(RuntimeException(throwable2))
  }

  /** `tryOrElse(Runnable, Consumer)`: the same control flow for computations without a value. */
  function TryOrElseRun<F>(code: Result<(), F>, codeIfThrown: F -> Result<(), F>): Outcome<(), F>
  {
    match code
    case Success(_) => Success(())
    case Failure(throwable1) =>
      match codeIfThrown(throwable1)
      case Success(_) => Success(())
      case Failure(throwable2) => Failure(RuntimeException(throwable2))
  }

  /** `unchecked(Callable)`: code's value, or its failure rethrown inside a RuntimeException. */
  function Unchecked<V, F>(code: Result<V, F>): Outcome<V, F>
  {
    match code
    case Success(v) => Success(v)
    case Failure(throwable) => Failure(RuntimeException(throwable))
  }

  /** `unchecked(Runnable)`. */
  function UncheckedRun<F>(code: Result<(), F>): Outcome<(), F>
  {
    match code
    case Success(_) => Success(())
    case Failure(throwable) => Failure(RuntimeException(throwable))
  }

  // ---------------------------------------------------------------------------
  // What the executors promise
  // ---------------------------------------------------------------------------

  /**
   * `tryOrElse` fails only when both computations fail, and then the cause is the
   * recovery's failure; otherwise it returns code's value, or else the recovery's.
   */
  lemma TryOrElseOutcome<V, F>(code: Result<V, F>, codeIfThrown: F -> Result<V, F>)
    ensures var r := TryOrElse(code, codeIfThrown);
      && (code.Success? ==> r == Success(code.value))
      && (r.Failure? <==> code.Failure? && codeIfThrown(code.error).Failure?)
      && (code.Failure? && r.Success? ==> r.value == codeIfThrown(code.error).value)
      && (r.Failure? ==> r.error.cause == codeIfThrown(code.error).error)
  {
  }

  /** A recovery that always returns makes `tryOrElse` total: it never throws. */
  lemma ReturningRecoveryNeverThrows<V, F>(code: Result<V, F>, codeIfThrown: F -> Result<V, F>)
    requires forall t :: codeIfThrown(t).Success?
    ensures TryOrElse(code, codeIfThrown).Success?
  {
  }

  /** `unchecked` returns code's value on success and wraps code's own failure otherwise. */
  lemma UncheckedOutcome<V, F>(code: Result<V, F>)
    ensures Unchecked(code).Success? <==> code.Success?
    ensures code.Success? ==> Unchecked(code).value == code.value
    ensures code.Failure? ==> Unchecked(code).error.cause == code.error
  {
  }

  /** `unchecked(code)` is `tryOrElse` with a recovery that rethrows what it caught. */
  lemma UncheckedIsTryOrElseRethrowing<V, F>(code: Result<V, F>)
    ensures Unchecked(code) == TryOrElse(code, (t: F) => Failure(t))
  {
  }

  /** The void forms end exactly as the value forms do: they return when those return, and throw the same exception. */
  lemma VoidFormsAgree<F>(code: Result<(), F>, codeIfThrown: F -> Result<(), F>)
    ensures TryOrElseRun(code, codeIfThrown) == TryOrElse(code, codeIfThrown)
    ensures UncheckedRun(code) == Unchecked(code)
  {
    match code
    case Success(u) =>
      assert u == ();
    case Failure(t) =>
      match codeIfThrown(t)
      case Success(u) =>
        assert u == ();
      case Failure(_) =>
  }

  // ---------------------------------------------------------------------------
  // The executor as a state machine, recording the calls it makes
  // ---------------------------------------------------------------------------

  /** A call the executor makes to one of the caller's computations. */
  datatype Call<F> = CallCode | CallCodeIfThrown(thrown: F)

  /** Where a `tryOrElse` call stands: running code, running the recovery, or finished. */
  datatype Phase<V, F> = RunningCode | RunningCodeIfThrown(thrown: F) | Done(outcome: Outcome<V, F>)

  /** A finished run: its outcome and the calls made, in order. */
  datatype Execution<V, F> = Execution(outcome: Outcome<V, F>, calls: seq<Call<F>>)

  /** How many computations a phase may still run. */
  function Remaining<V, F>(p: Phase<V, F>): nat {
    match p
    case RunningCode => 2
    case RunningCodeIfThrown(_) => 1
    case Done(_) => 0
  }

  /** The call a phase makes. */
  function CallOf<V, F>(p: Phase<V, F>): Call<F>
    requires !p.Done?
  {
    if p.RunningCode? then CallCode else CallCodeIfThrown(p.thrown)
  }

  /** One transition: run the computation the phase names, and move on by how it ended. */
  function Step<V, F>(code: Result<V, F>, codeIfThrown: F -> Result<V, F>, p: Phase<V, F>): (next: Phase<V, F>)
    requires !p.Done?
    ensures Remaining(next) < Remaining(p)
  {
    match p
    case RunningCode =>
      (match code
       case Success(v) => Done(Success(v))
       case Failure(t) => RunningCodeIfThrown(t))
    case RunningCodeIfThrown(t) =>
      (match codeIfThrown(t)
       case Success(w) => Done(Success(w))
       case Failure(g) => Done(Failure(RuntimeException(g))))
  }

  /** Step from p until the machine is done. */
  function Run<V, F>(code: Result<V, F>, codeIfThrown: F -> Result<V, F>, p: Phase<V, F>): Execution<V, F>
    decreases Remaining(p)
  {
    if p.Done? then Execution(p.outcome, [])
    else
      var rest := Run(code, codeIfThrown, Step(code, codeIfThrown, p));
      Execution(rest.outcome, [CallOf(p)] + rest.calls)
  }

  /** The machine started on code ends in exactly what `tryOrElse` returns or throws. */
  lemma RunAgreesWithTryOrElse<V, F>(code: Result<V, F>, codeIfThrown: F -> Result<V, F>)
    ensures Run(code, codeIfThrown, RunningCode).outcome == TryOrElse(code, codeIfThrown)
  {
  }

  /**
   * code runs exactly once, first; the recovery runs at most once, exactly when code
   * failed, and is handed code's failure.
   */
  lemma CodeOnceRecoveryAtMostOnce<V, F>(code: Result<V, F>, codeIfThrown: F -> Result<V, F>)
    ensures Run(code, codeIfThrown, RunningCode).calls
      == if code.Success? then [CallCode] else [CallCode, CallCodeIfThrown(code.error)]
  {
  }

  // ---------------------------------------------------------------------------
  // Scenarios
  // ---------------------------------------------------------------------------

  /** Dividing by zero with recovery `ex -> -1` yields -1. */
  lemma DivisionByZeroRecovers()
    ensures TryOrElse(Failure("/ by zero"), (ex: string) => Success(-1)) == Success(-1)
  {
  }

  /** `unchecked` of a lookup that succeeds returns its value: the class whose simple name is "String". */
  lemma UncheckedReturnsValueScenario()
    ensures var lookup: Result<string, string> := Success("String");
      Unchecked(lookup) == Success("String")
  {
  }

  /** The void `tryOrElse`: a failing division whose recovery only reports the failure returns normally. */
  lemma VoidRecoveryScenario()
    ensures TryOrElseRun(Failure("/ by zero"), (ex: string) => Success(())) == Success(())
  {
  }

  /** When both computations throw, the recovery's failure is the cause, not code's. */
  lemma PrimaryFailureIsDiscarded()
    ensures var code: Result<int, string> := Failure("primary");
      TryOrElse(code, (ex: string) => Failure("recovery")) == Failure(RuntimeException("recovery"))
  {
  }
}
