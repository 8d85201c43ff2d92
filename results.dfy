/** Per-package execution results and their aggregation. The result types
    live in `pymelos.execution.results`, which is not part of this model;
    they are declared here with the fields and queries the core uses. */
module Results {
  datatype Status = Success | Failure | Cancelled

  datatype ExecutionResult = ExecutionResult(
    packageName: string,
    status: Status,
    exitCode: int,
    stdout: string,
    stderr: string,
    command: string)

  datatype BatchResult = BatchResult(results: seq<ExecutionResult>)

  predicate Failed(r: ExecutionResult) {
    r.status == Failure
  }

  predicate AnyFailure(rs: seq<ExecutionResult>) {
    exists i :: 0 <= i < |rs| && Failed(rs[i])
  }

  predicate AllSuccess(rs: seq<ExecutionResult>) {
    forall i :: 0 <= i < |rs| ==> rs[i].status == Success
  }

  /** The record of a package that was never started. */
  function CancelledResult(name: string): ExecutionResult {
    ExecutionResult(name, Cancelled, -1, "", "", "")
  }

  function SuccessResult(name: string, stdout: string, stderr: string, command: string): ExecutionResult {
    ExecutionResult(name, Success, 0, stdout, stderr, command)
  }

  function FailureResult(name: string, exitCode: int, stdout: string, stderr: string, command: string): ExecutionResult {
    ExecutionResult(name, Failure, exitCode, stdout, stderr, command)
  }
}
