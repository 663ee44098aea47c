/** From the way a run ended to the response it gets. */
module Verdict {
  import opened Wrappers
  import opened Decimal
  import opened Text
  import opened Types
  import opened Grader
  import opened GraderProperties
  import opened Sandbox

  /** The killing signal: the outer process's own, or the one its exit code carries. */
  function EffectiveSignal(r: SandboxResult): Option<nat> {
    if r.signal.Some? then r.signal
    else if r.exitCode > 128 then Some(r.exitCode - 128)
    else None
  }

  function SignalMessage(signal: nat): string {
    if signal == 11 then "runtime error: segmentation fault (sigsegv)"
    else if signal == 8 then "runtime error: floating point exception"
    else if signal == 6 then "runtime error: aborted (sigabrt)"
    else if signal == 31 then "security violation: unauthorized system call blocked (sigsys)"
    else "runtime error: killed by signal " + Dec(signal)
  }

  function FullMessage(message: string, stderr: string): string {
    if stderr == "" then message else message + "\n" + stderr
  }

  function IntText(n: int): string {
    if n < 0 then "-" + Dec(-n) else Dec(n)
  }

  /** The verdict on a run whose output is not looked at; None sends the output to grading. */
  function Ungraded(r: SandboxResult, timelimit: nat, stdout: Option<string>, stderr: string): Option<ResponsePayload> {
    if r.isOom then Some(MemoryError(0, stdout))
    else
      match EffectiveSignal(r)
      case Some(signal) =>
        if signal == 24 then Some(TimeError(0, stdout))
        else if signal == 9 then
          Some(if r.wallTimeMs >= timelimit then TimeError(0, stdout) else MemoryError(0, stdout))
        else
          Some(RuntimeError(Some(FullMessage(SignalMessage(signal), stderr)), 0, stdout, None))
      case None =>
        if r.exitCode != 0 then
          Some(RuntimeError(Some(FullMessage("runtime error (exit code: " + IntText(r.exitCode) + ")", stderr)), 0,
            stdout, None))
        else None
  }

  function UserStdout(raw: string): Option<string> {
    if Trim(raw) == "" then None else Some(raw)
  }

  /** The response to a run that ended with `sandboxResult` and left these three output files. */
  ghost predicate Processed(json: Json, payload: TaskPayload, sandboxResult: SandboxResult, fd3: string,
        userOutput: string, errorOutput: string,
                            response: ResponsePayload) {
    match Ungraded(sandboxResult, payload.timelimit, UserStdout(userOutput), errorOutput)
    case Some(verdict) => response == verdict
    case None => Report(json, Canonical(fd3), payload.testcases, payload.tasktype, UserStdout(userOutput), response)
  }

  /** The end of `process_single_submission`: `fd3`, `userOutput` and `errorOutput` are what the three
      output files hold. */
  method ProcessResult(json: Json, payload: TaskPayload, sandboxResult: SandboxResult, fd3: string,
        userOutput: string, errorOutput: string)
    returns (response: ResponsePayload)
    ensures Processed(json, payload, sandboxResult, fd3, userOutput, errorOutput, response)
    ensures Final(response)
  {
    var userStdout := UserStdout(userOutput);
    var verdict := Ungraded(sandboxResult, payload.timelimit, userStdout, errorOutput);
    if verdict.Some? {
      response := verdict.value;
    } else {
      response := ValidateTestCases(json, Canonical(fd3), payload.testcases, payload.tasktype, userStdout);
      ReportIsFinal(json, Canonical(fd3), payload.testcases, payload.tasktype, userStdout, response);
    }
  }

  /** Whatever grading reports is a finished response. */
  lemma ReportIsFinal(json: Json, fd3: seq<string>, tcs: seq<TestCaseType>, tasktype: TaskType,
        stdout: Option<string>, r: ResponsePayload)
    requires Report(json, fd3, tcs, tasktype, stdout, r)
    ensures Final(r)
  {}

  // ------------------------------------------------------------ statuses survive

  /** What success takes: exit code 0, no out-of-memory event and, in Test mode, the right output. */
  predicate Deserves(payload: TaskPayload, e: Ending, isOom: bool, fd3: string) {
    && !isOom && e == Reported(Exited(0))
    && (payload.tasktype.Test? && payload.testcases != [] ==> Canonical(fd3) == Expected(payload.testcases))
  }

  lemma UngradedIsNoSuccess(r: SandboxResult, timelimit: nat, stdout: Option<string>, stderr: string)
    ensures
      var v := Ungraded(r, timelimit, stdout, stderr);
      v.Some? ==> v.value.message != Success
  {
    hide SignalMessage, FullMessage, IntText, EffectiveSignal;
  }

  lemma GradedSuccessIff(json: Json, fd3: seq<string>, payload: TaskPayload, stdout: Option<string>, r: ResponsePayload)
    requires Report(json, fd3, payload.testcases, payload.tasktype, stdout, r)
    ensures r.message == Success <==> (payload.tasktype.Test? && payload.testcases != [] ==>
      fd3 == Expected(payload.testcases))
    ensures payload.tasktype.Test? && r.message == Success ==>
      r == SuccessResponse(stdout, None, AsU32(|Expected(payload.testcases)|))
  {
    hide TestReport, RunResults;
    if payload.tasktype.Test? && payload.testcases != [] {
      TestAcceptsExactly(json, fd3, payload.testcases, stdout, r);
    }
  }

  /** A run is reported as success if and only if it deserves it, over every way it can end; in Test mode
      with every expected line counted. */
  lemma SuccessIff(json: Json, payload: TaskPayload, e: Ending, wallTimeMs: nat, isOom: bool, fd3: string,
        userOutput: string, errorOutput: string,
                   r: ResponsePayload)
    requires IsEnding(e) && Processed(json, payload, ResultOf(e, wallTimeMs, isOom), fd3, userOutput, errorOutput, r)
    ensures r.message == Success <==> Deserves(payload, e, isOom, fd3)
    ensures payload.tasktype.Test? && r.message == Success ==>
      r == SuccessResponse(UserStdout(userOutput), None, AsU32(|Expected(payload.testcases)|))
  {
    hide Ungraded, ResultOf, Report, IsEnding, Canonical, Expected;
    var result, stdout := ResultOf(e, wallTimeMs, isOom), UserStdout(userOutput);
    UngradedIsNoSuccess(result, payload.timelimit, stdout, errorOutput);
    GradedIff(e, wallTimeMs, isOom, payload.timelimit, stdout, errorOutput);
    if Ungraded(result, payload.timelimit, stdout, errorOutput).None? {
      GradedSuccessIff(json, Canonical(fd3), payload, stdout, r);
    }
  }

  /** Ends that carry the given signal number, honestly or through an exit code. */
  predicate Carries(e: Ending, signal: nat) {
    || e == Reported(Signaled(signal))
    || e == Reported(Exited(128 + signal))
    || e == SetupFailed(128 + signal)
    || e == OuterKilled(signal)
    || (e == CutOff && signal == 9)
  }

  /** A signal that kills the inner process is the effective signal, and so is that of the outer one and
      of the cut-off; the only other way to have it is to exit with 128 more. */
  lemma SignalSurvives(e: Ending, wallTimeMs: nat, isOom: bool, signal: nat)
    requires IsEnding(e) && signal >= 1
    ensures EffectiveSignal(ResultOf(e, wallTimeMs, isOom)) == Some(signal) <==> Carries(e, signal)
  {
    match e
    case Reported(inner) =>
      assert inner.Exited? ==> ReEncode(inner) == inner.code;
    case _ =>
  }

  /** Only a run whose inner process exited with 0, without an out-of-memory event, is graded. */
  lemma GradedIff(e: Ending, wallTimeMs: nat, isOom: bool, timelimit: nat, stdout: Option<string>, stderr: string)
    requires IsEnding(e)
    ensures
      Ungraded(ResultOf(e, wallTimeMs, isOom), timelimit, stdout, stderr) == None <==>
      !isOom && e == Reported(Exited(0))
  {
    assert e.Reported? && e.inner.Exited? ==> ReEncode(e.inner) == e.inner.code;
  }

  lemma TimeVerdict(r: SandboxResult, timelimit: nat, stdout: Option<string>, stderr: string)
    ensures
      Ungraded(r, timelimit, stdout, stderr) == Some(TimeError(0, stdout)) <==>
      !r.isOom && (EffectiveSignal(r) == Some(24) || (EffectiveSignal(r) == Some(9) && r.wallTimeMs >= timelimit))
  {}

  /** Exactly when a run gets the time verdict, over every way it can end. */
  lemma TimeVerdictIff(e: Ending, wallTimeMs: nat, isOom: bool, timelimit: nat, stdout: Option<string>, stderr: string)
    requires IsEnding(e)
    ensures
      Ungraded(ResultOf(e, wallTimeMs, isOom), timelimit, stdout, stderr) == Some(TimeError(0, stdout)) <==>
      !isOom && (Carries(e, 24) || (Carries(e, 9) && wallTimeMs >= timelimit))
  {
    hide Ungraded, EffectiveSignal, TimeError, Carries;
    SignalSurvives(e, wallTimeMs, isOom, 24);
    SignalSurvives(e, wallTimeMs, isOom, 9);
    TimeVerdict(ResultOf(e, wallTimeMs, isOom), timelimit, stdout, stderr);
  }

  /** The verdict over the effective signal, field by field. */
  lemma KindOfVerdict(r: SandboxResult, timelimit: nat, stdout: Option<string>, stderr: string)
    ensures
      var v, signal := Ungraded(r, timelimit, stdout, stderr), EffectiveSignal(r);
      && (v.Some? ==>
            && v.value.status == Completed && v.value.ttpassed == 0 && v.value.stdout == stdout
            && v.value.results == None && v.value.failedcase == None)
      && (v.Some? && v.value.message == MemoryLimitError <==>
            r.isOom || (signal == Some(9) && r.wallTimeMs < timelimit))
      && (v.Some? && v.value.message == TimeLimitError <==>
            !r.isOom && (signal == Some(24) || (signal == Some(9) && r.wallTimeMs >= timelimit)))
      && (v.Some? && v.value.message == RunTimeError <==>
            !r.isOom && signal != Some(24) && signal != Some(9) && (signal.Some? || r.exitCode != 0))
      && (v.Some? && v.value.message == MemoryLimitError ==> v.value.error == Some("Memory Limit Exceeded"))
      && (v.Some? && v.value.message == TimeLimitError ==> v.value.error == Some("Time Limit Exceeded"))
  {
    hide EffectiveSignal, SignalMessage, FullMessage, IntText;
  }

  /** Over every way a run can end: whatever the verdict, it carries the run's stdout and no passed test. */
  lemma VerdictFields(e: Ending, wallTimeMs: nat, isOom: bool, timelimit: nat, stdout: Option<string>, stderr: string)
    ensures
      var v := Ungraded(ResultOf(e, wallTimeMs, isOom), timelimit, stdout, stderr);
      v.Some? ==>
        && v.value.status == Completed && v.value.ttpassed == 0 && v.value.stdout == stdout
        && v.value.results == None && v.value.failedcase == None
        && (v.value.message == MemoryLimitError ==> v.value.error == Some("Memory Limit Exceeded"))
        && (v.value.message == TimeLimitError ==> v.value.error == Some("Time Limit Exceeded"))
  {
    hide Ungraded, ResultOf;
    KindOfVerdict(ResultOf(e, wallTimeMs, isOom), timelimit, stdout, stderr);
  }

  lemma ResultKeeps(e: Ending, wallTimeMs: nat, isOom: bool)
    requires IsEnding(e)
    ensures ResultOf(e, wallTimeMs, isOom).isOom == isOom && ResultOf(e, wallTimeMs, isOom).wallTimeMs == wallTimeMs
  {}

  /** Exactly when a run gets the memory verdict. */
  lemma MemoryVerdictIff(e: Ending, wallTimeMs: nat, isOom: bool, timelimit: nat, stdout: Option<string>,
        stderr: string)
    requires IsEnding(e)
    ensures
      var v := Ungraded(ResultOf(e, wallTimeMs, isOom), timelimit, stdout, stderr);
      v.Some? && v.value.message == MemoryLimitError <==> isOom || (Carries(e, 9) && wallTimeMs < timelimit)
  {
    hide Ungraded, ResultOf, Carries, EffectiveSignal, IsEnding;
    ResultKeeps(e, wallTimeMs, isOom);
    SignalSurvives(e, wallTimeMs, isOom, 9);
    KindOfVerdict(ResultOf(e, wallTimeMs, isOom), timelimit, stdout, stderr);
  }

  /** Exactly when a run is a runtime error: it is neither graded nor out of memory nor killed by 9 or 24. */
  lemma RuntimeVerdictIff(e: Ending, wallTimeMs: nat, isOom: bool, timelimit: nat, stdout: Option<string>,
        stderr: string)
    requires IsEnding(e)
    ensures
      var v := Ungraded(ResultOf(e, wallTimeMs, isOom), timelimit, stdout, stderr);
      v.Some? && v.value.message == RunTimeError <==>
        !isOom && e != Reported(Exited(0)) && !Carries(e, 9) && !Carries(e, 24)
  {
    hide Ungraded, ResultOf, Carries, EffectiveSignal, IsEnding;
    var r := ResultOf(e, wallTimeMs, isOom);
    ResultKeeps(e, wallTimeMs, isOom);
    SignalSurvives(e, wallTimeMs, isOom, 9);
    SignalSurvives(e, wallTimeMs, isOom, 24);
    KindOfVerdict(r, timelimit, stdout, stderr);
    GradedIff(e, wallTimeMs, isOom, timelimit, stdout, stderr);
    GradedByResult(r, timelimit, stdout, stderr);
  }

  lemma GradedByResult(r: SandboxResult, timelimit: nat, stdout: Option<string>, stderr: string)
    ensures Ungraded(r, timelimit, stdout, stderr) == None <==>
      !r.isOom && EffectiveSignal(r) == None && r.exitCode == 0
  {
    hide EffectiveSignal, SignalMessage, FullMessage, IntText;
  }

  /** A text, followed on a new line by what the program wrote to stderr, if anything. */
  predicate SaysThenStderr(error: Option<string>, text: string, stderr: string) {
    && (stderr == "" ==> error == Some(text))
    && (stderr != "" ==> error == Some(text + "\n" + stderr))
  }

  /** What a runtime error says about the signal that ended the run. */
  lemma SignalText(e: Ending, signal: nat, wallTimeMs: nat, timelimit: nat, stdout: Option<string>, stderr: string)
    requires IsEnding(e) && Carries(e, signal) && signal >= 1 && signal != 9 && signal != 24
    ensures
      var v := Ungraded(ResultOf(e, wallTimeMs, false), timelimit, stdout, stderr);
      && v.Some?
      && (signal == 11 ==> SaysThenStderr(v.value.error, "runtime error: segmentation fault (sigsegv)", stderr))
      && (signal == 8 ==> SaysThenStderr(v.value.error, "runtime error: floating point exception", stderr))
      && (signal == 6 ==> SaysThenStderr(v.value.error, "runtime error: aborted (sigabrt)", stderr))
      && (signal == 31 ==>
            SaysThenStderr(v.value.error, "security violation: unauthorized system call blocked (sigsys)", stderr))
      && (signal !in {6, 8, 11, 31} ==>
            SaysThenStderr(v.value.error, "runtime error: killed by signal " + Dec(signal), stderr))
  {
    hide ResultOf, Carries, EffectiveSignal, IsEnding, IntText;
    ResultKeeps(e, wallTimeMs, false);
    SignalSurvives(e, wallTimeMs, false, signal);
  }

  /** What a runtime error says about an exit code that carries no signal; an inner process whose status is
      neither an exit nor a signal counts as code 1. */
  lemma ExitCodeText(e: Ending, code: nat, wallTimeMs: nat, timelimit: nat, stdout: Option<string>, stderr: string)
    requires IsEnding(e) && 1 <= code <= 128
    requires e == Reported(Exited(code)) || e == SetupFailed(code) || (e == Reported(Neither) && code == 1)
    ensures
      var v := Ungraded(ResultOf(e, wallTimeMs, false), timelimit, stdout, stderr);
      v.Some? && SaysThenStderr(v.value.error, "runtime error (exit code: " + Dec(code) + ")", stderr)
  {
    hide SignalMessage;
    assert ResultOf(e, wallTimeMs, false) == SandboxResult(code, None, wallTimeMs, false);
  }

  /** Every response to a run carries what it wrote to stdout, unless that is all whitespace. */
  lemma ProcessedStdout(json: Json, payload: TaskPayload, e: Ending, wallTimeMs: nat, isOom: bool, fd3: string,
        userOutput: string, errorOutput: string, r: ResponsePayload)
    requires Processed(json, payload, ResultOf(e, wallTimeMs, isOom), fd3, userOutput, errorOutput, r)
    ensures r.stdout ==
      if forall k :: 0 <= k < |userOutput| ==> IsWhitespace(userOutput[k]) then None else Some(userOutput)
  {
    hide Ungraded, ResultOf, Canonical, Expected, RunResults, Trim, IsWhitespace;
    TrimEmptyIffSpace(userOutput);
    VerdictFields(e, wallTimeMs, isOom, payload.timelimit, UserStdout(userOutput), errorOutput);
  }

  /** Setup failures are runtime errors, except that a failed gid map (exit code 152) reads as the CPU-time
      signal and is reported as a time limit. */
  lemma SetupFailureVerdict(code: nat, wallTimeMs: nat, timelimit: nat, stdout: Option<string>, stderr: string)
    requires code in {101, 102, 103, 104, 150, 151, 152} || code in {105, 106, 107, 108, 109, 110, 112, 113, 114, 115,
                                                                     116, 120, 121, 122, 123, 130, 132}
    ensures
      var e := if code in {101, 102, 103, 104, 150, 151, 152} then SetupFailed(code) else Reported(Exited(code));
      var v := Ungraded(ResultOf(e, wallTimeMs, false), timelimit, stdout, stderr);
      && IsEnding(e) && v.Some? && (v.value.message == TimeLimitError <==> code == 152)
      && (v.value.message == RunTimeError <==> code != 152)
  {
    hide Ungraded, EffectiveSignal;
    var e := if code in {101, 102, 103, 104, 150, 151, 152} then SetupFailed(code) else Reported(Exited(code));
    RuntimeVerdictIff(e, wallTimeMs, false, timelimit, stdout, stderr);
    TimeVerdictIff(e, wallTimeMs, false, timelimit, stdout, stderr);
    KindOfVerdict(ResultOf(e, wallTimeMs, false), timelimit, stdout, stderr);
    SignalSurvives(e, wallTimeMs, false, 24);
  }

  // --------------------------------------------------------------------- limits

  predicate NoOverflow(timelimit: nat) {
    EffectiveLimit(timelimit) + 1000 < U64_LIMIT
  }

  /** The submitted limit, then the hard CPU limit, then the wall deadline. */
  lemma LimitsAreOrdered(timelimit: nat)
    requires NoOverflow(timelimit)
    ensures timelimit <= EffectiveLimit(timelimit) < HardCpuSeconds(timelimit) * 1000 <= WallDeadline(timelimit)
  {}

  /** A run cut off at the deadline, or killed at the hard CPU limit after at least that much wall time,
      has used up the submitted limit and is reported so, or as out of memory when that was seen. */
  lemma OverTimeRuns(e: Ending, cpuTimeMs: nat, wallTimeMs: nat, isOom: bool, timelimit: nat, stdout: Option<string>,
        stderr: string)
    requires NoOverflow(timelimit)
    requires
      || (e == CutOff && wallTimeMs >= WallDeadline(timelimit))
      || (e == Reported(Signaled(9)) && HardCpuSeconds(timelimit) * 1000 <= cpuTimeMs <= wallTimeMs)
      || e == Reported(Signaled(24))
    ensures
      Ungraded(ResultOf(e, wallTimeMs, isOom), timelimit, stdout, stderr) ==
      Some(if isOom then MemoryError(0, stdout) else TimeError(0, stdout))
    ensures e != Reported(Signaled(24)) ==> wallTimeMs >= timelimit
  {
    hide Ungraded, TimeError, MemoryError, HardCpuSeconds, WallDeadline, EffectiveLimit;
    LimitsAreOrdered(timelimit);
    if isOom {
      OomWins(ResultOf(e, wallTimeMs, isOom), timelimit, stdout, stderr);
    } else {
      TimeVerdictIff(e, wallTimeMs, isOom, timelimit, stdout, stderr);
    }
  }

  lemma OomWins(r: SandboxResult, timelimit: nat, stdout: Option<string>, stderr: string)
    requires r.isOom
    ensures Ungraded(r, timelimit, stdout, stderr) == Some(MemoryError(0, stdout))
  {}

  /** Cut-off runs get the time verdict exactly when the deadline does not wrap around 64 bits. */
  lemma CutOffIsTimeIff(timelimit: nat, stdout: Option<string>, stderr: string)
    requires timelimit < U64_LIMIT
    ensures
      (forall wallTimeMs: nat :: wallTimeMs >= WallDeadline(timelimit) ==>
         Ungraded(ResultOf(CutOff, wallTimeMs, false), timelimit, stdout, stderr) == Some(TimeError(0, stdout)))
      <==> NoOverflow(timelimit)
  {
    if NoOverflow(timelimit) {
      LimitsAreOrdered(timelimit);
    } else {
      var early := WallDeadline(timelimit);
      assert early < timelimit;
      assert Ungraded(ResultOf(CutOff, early, false), timelimit, stdout, stderr) != Some(TimeError(0, stdout));
    }
  }

  /** SIGXCPU may already come at this much CPU time, which the submission was still promised. */
  predicate KilledEarly(timelimit: nat, cpuTimeMs: nat) {
    SoftCpuSeconds(timelimit) * 1000 <= cpuTimeMs < timelimit
  }

  /** The soft CPU limit rounds down to whole seconds: a run that has used less CPU time than it was
      promised can be killed for its CPU time exactly when the limit is over a second and not whole. */
  lemma SoftLimitIsEarlyIff(timelimit: nat, stdout: Option<string>, stderr: string)
    ensures
      (exists cpuTimeMs: nat :: KilledEarly(timelimit, cpuTimeMs)) <==>
      timelimit > 1000 && timelimit % 1000 != 0
    ensures forall wallTimeMs: nat ::
      Ungraded(ResultOf(Reported(Signaled(24)), wallTimeMs, false), timelimit, stdout, stderr) ==
        Some(TimeError(0, stdout))
  {
    if timelimit > 1000 && timelimit % 1000 != 0 {
      assert KilledEarly(timelimit, SoftCpuSeconds(timelimit) * 1000);
    }
  }
}
