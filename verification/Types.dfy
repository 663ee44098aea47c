/** Records shared by the API server and the worker. */
module Types {
  import opened Wrappers
  import Decimal

  type u32 = n: nat | n < Decimal.U32_LIMIT

  datatype TaskType = Run | Test

  datatype TestCaseType = TestCaseType(id: int, input: string, output: string)

  datatype TaskPayload = TaskPayload(
    tasktype: TaskType,
    code: string,
    testcases: seq<TestCaseType>,
    timelimit: nat,
    memorylimit: nat,
    language: string)

  datatype TestCaseResult = TestCaseResult(id: int, input: string, output: string, result: string, success: bool)

  datatype FailedTestDetail = FailedTestDetail(id: int, input: string, expected: string, actual: string)

  datatype StatusType = Pending | Processing | Completed | Error

  datatype MessageType =
    | ProcessingMessage
    | Success
    | Testcasefailed
    | CompileTimeError
    | RunTimeError
    | MemoryLimitError
    | TimeLimitError
    | ErrorMessage

  datatype ResponsePayload = ResponsePayload(
    status: StatusType,
    message: MessageType,
    error: Option<string>,
    ttpassed: u32,
    stdout: Option<string>,
    results: Option<string>,
    failedcase: Option<string>)

  // The constructors of `ResponsePayload`.

  function ProcessingResponse(): ResponsePayload {
    ResponsePayload(Processing, ProcessingMessage, None, 0, None, None, None)
  }

  function TestFailed(ttpassed: u32, failedcase: Option<string>, stdout: Option<string>): ResponsePayload {
    ResponsePayload(Completed, Testcasefailed, None, ttpassed, stdout, None, failedcase)
  }

  function ErrorResponse(err: Option<string>): ResponsePayload {
    ResponsePayload(Error, ErrorMessage, err, 0, None, None, None)
  }

  function SuccessResponse(stdout: Option<string>, results: Option<string>, tests: u32): ResponsePayload {
    ResponsePayload(Completed, Success, None, tests, stdout, results, None)
  }

  function CompilerError(err: Option<string>): ResponsePayload {
    ResponsePayload(Completed, CompileTimeError, err, 0, None, None, None)
  }

  function RuntimeError(err: Option<string>, testpassed: u32, stdout: Option<string>,
        failedcase: Option<string>): ResponsePayload {
    ResponsePayload(Completed, RunTimeError, err, testpassed, stdout, None, failedcase)
  }

  function TimeError(tests: u32, stdout: Option<string>): ResponsePayload {
    ResponsePayload(Completed, TimeLimitError, Some("Time Limit Exceeded"), tests, stdout, None, None)
  }

  function MemoryError(tests: u32, stdout: Option<string>): ResponsePayload {
    ResponsePayload(Completed, MemoryLimitError, Some("Memory Limit Exceeded"), tests, stdout, None, None)
  }

  /** A response that one of the constructors for finished submissions can build. */
  predicate Final(r: ResponsePayload) {
    match r.message
    case Success => r == SuccessResponse(r.stdout, r.results, r.ttpassed)
    case Testcasefailed => r == TestFailed(r.ttpassed, r.failedcase, r.stdout)
    case CompileTimeError => r == CompilerError(r.error)
    case RunTimeError => r == RuntimeError(r.error, r.ttpassed, r.stdout, r.failedcase)
    case MemoryLimitError => r == MemoryError(r.ttpassed, r.stdout)
    case TimeLimitError => r == TimeError(r.ttpassed, r.stdout)
    case ErrorMessage => r == ErrorResponse(r.error)
    case ProcessingMessage => false
  }

  /** Field by field, which responses a finished submission can have. */
  lemma FinalIff(r: ResponsePayload)
    ensures Final(r) <==>
      match r.message
      case Success => r.status == Completed && r.error == None && r.failedcase == None
      case Testcasefailed => r.status == Completed && r.error == None && r.results == None
      case CompileTimeError =>
        r.status == Completed && r.ttpassed == 0 && r.stdout == None && r.results == None && r.failedcase == None
      case RunTimeError => r.status == Completed && r.results == None
      case MemoryLimitError =>
        r.status == Completed && r.error == Some("Memory Limit Exceeded") && r.results == None && r.failedcase == None
      case TimeLimitError =>
        r.status == Completed && r.error == Some("Time Limit Exceeded") && r.results == None && r.failedcase == None
      case ErrorMessage =>
        r.status == Error && r.ttpassed == 0 && r.stdout == None && r.results == None && r.failedcase == None
      case ProcessingMessage => false
  {}
}
