/** internal/status/status.go, with the status aggregation of internal/mapping/mapping.go. */
module Status {
  import opened Int64
  import opened Wrappers

  datatype Status = Passed | Skipped | Failed | Broken

  datatype ExecutionStatus = StatusNotExecuted | StatusPassed | StatusFailed | StatusSkipped | StatusUnknown

  datatype ErrorKind = ErrorNone | ErrorAssertion | ErrorVerification | ErrorUnexpected | ErrorHook
                     | ErrorParse | ErrorValidation | ErrorProtocol | ErrorInternal

  /** An execution result; `kind` is what FailureKind finds in its diagnostics. */
  datatype Execution = Execution(skipScenario: bool, failed: bool, kind: ErrorKind, executionTime: int64)

  /** A step execution result; `hookFailed` when it carries a pre- or post-hook failure. */
  datatype StepExecution = StepExecution(skipped: bool, hookFailed: bool, execution: Option<Execution>)

  function FromExecutionStatus(value: ExecutionStatus, hasSkipReason: bool, kind: ErrorKind): (r: Status)
    ensures r == Passed <==> value == StatusPassed && !hasSkipReason
    ensures r == Skipped <==> hasSkipReason || value == StatusSkipped
    ensures r == Failed <==> !hasSkipReason && value == StatusFailed && kind in {ErrorAssertion, ErrorVerification}
  {
    if hasSkipReason || value == StatusSkipped then Skipped
    else match value
      case StatusPassed => Passed
      case StatusFailed => if kind == ErrorAssertion || kind == ErrorVerification then Failed else Broken
      case _ => Broken
  }

  /**
   * Whether the execution result of a step decides its status: it is there, and neither a skip nor a hook comes first.
   */
  predicate Reports(value: Option<StepExecution>) {
    value.Some? && !value.value.skipped && !value.value.hookFailed && value.value.execution.Some?
  }

  /** A step passes only on positive evidence: every gap in the protocol is broken. */
  function FromStep(value: Option<StepExecution>): (r: Status)
    ensures r == Passed <==>
      Reports(value) && !value.value.execution.value.skipScenario && !value.value.execution.value.failed
    ensures r == Skipped <==>
      value.Some? && (value.value.skipped || (Reports(value) && value.value.execution.value.skipScenario))
    ensures r == Failed <==>
      && Reports(value) && !value.value.execution.value.skipScenario && value.value.execution.value.failed
      && value.value.execution.value.kind in {ErrorAssertion, ErrorVerification}
  {
    if value.None? then Broken
    else if value.value.skipped then Skipped
    else if value.value.hookFailed then Broken
    else match value.value.execution
      case None => Broken
      case Some(execution) =>
        if execution.skipScenario then Skipped
        else if !execution.failed then Passed
        else FromExecutionStatus(StatusFailed, false, execution.kind)
  }

  function Severity(s: Status): nat {
    match s
    case Passed => 0
    case Skipped => 1
    case Failed => 2
    case Broken => 3
  }

  function Worse(a: Status, b: Status): Status {
    if Severity(a) < Severity(b) then b else a
  }

  /** The most severe status of a list; an empty list passes. */
  function Worst(statuses: seq<Status>): (r: Status)
    ensures forall s :: s in statuses ==> Severity(s) <= Severity(r)
    ensures r in statuses || r == Passed
  {
    if statuses == [] then Passed else Worse(statuses[0], Worst(statuses[1..]))
  }

  lemma {:induction false} WorstConcat(a: seq<Status>, b: seq<Status>)
    ensures Worst(a + b) == Worse(Worst(a), Worst(b))
  {
  }

  /** Broken before failed before skipped; only a list without any of them passes. */
  lemma WorstExactly(statuses: seq<Status>)
    ensures Worst(statuses) == Broken <==> Broken in statuses
    ensures Worst(statuses) == Failed <==> Failed in statuses && Broken !in statuses
    ensures Worst(statuses) == Skipped <==> Skipped in statuses && Failed !in statuses && Broken !in statuses
    ensures Worst(statuses) == Passed <==> forall s <- statuses :: s == Passed
  {
  }

  lemma WorstOfPrefix(statuses: seq<Status>, i: nat)
    requires i < |statuses|
    ensures Worst(statuses[..i + 1]) == Worse(Worst(statuses[..i]), statuses[i])
  {
  }

  /** The scan that stops at the first broken step computes the maximum severity. */
  method AggregateStepStatus(statuses: seq<Status>) returns (value: Status)
    ensures value == Worst(statuses)
  {
    value := Passed;
    for i := 0 to |statuses|
      invariant value == Worst(statuses[..i]) && value != Broken
    {
      WorstOfPrefix(statuses, i);
      if statuses[i] == Broken {
        return Broken;
      }
      if statuses[i] == Failed {
        value := Failed;
      }
      if statuses[i] == Skipped && value == Passed {
        value := Skipped;
      }
    }
    assert statuses[..|statuses|] == statuses;
  }

  /** Only which statuses occur matters: neither their order nor how often. */
  lemma WorstDependsOnOccurrence(a: seq<Status>, b: seq<Status>)
    requires forall s :: s in a <==> s in b
    ensures Worst(a) == Worst(b)
  {
  }
}
