/** Grading: stdin framing, Run mode, Test mode with first-failure reporting. */
module Grader {
  import opened Wrappers
  import opened Decimal
  import opened Text
  import opened Types

  /** JSON text of the two record kinds that travel inside a response. */
  datatype Json = Json(detail: FailedTestDetail -> string, results: seq<TestCaseResult> -> string)

  const EOF_EXPECTED: string := "EOF (no more output expected)"

  // ------------------------------------------------------------- expected lines

  /** Canonical expected lines of all test cases, in order. */
  function Expected(tcs: seq<TestCaseType>): seq<string> {
    if tcs == [] then [] else Canonical(tcs[0].output) + Expected(tcs[1..])
  }

  /** Number of canonical lines before test case `j`. */
  function SpanStart(tcs: seq<TestCaseType>, j: nat): nat
    requires j <= |tcs|
  {
    |Expected(tcs[..j])|
  }

  /** Line `i` of the expected output belongs to test case `j`. */
  predicate Owns(tcs: seq<TestCaseType>, j: nat, i: nat) {
    j < |tcs| && SpanStart(tcs, j) <= i < SpanStart(tcs, j + 1)
  }

  // ---------------------------------------------------------------- stdin

  /** A test input as it appears in stdin: ended by a newline, but nothing at all when empty. */
  function Terminated(s: string): string {
    if s == [] || s[|s| - 1] == '\n' then s else s + "\n"
  }

  function Inputs(tcs: seq<TestCaseType>): string {
    if tcs == [] then "" else Terminated(tcs[0].input) + Inputs(tcs[1..])
  }

  function Stdin(tcs: seq<TestCaseType>): string {
    Dec(|tcs|) + "\n" + Inputs(tcs)
  }

  lemma {:induction false} InputsAppend(a: seq<TestCaseType>, tc: TestCaseType)
    ensures Inputs(a + [tc]) == Inputs(a) + Terminated(tc.input)
  {
    if a == [] {
      assert a + [tc] == [tc];
      assert [tc][1..] == [];
    } else {
      assert (a + [tc])[1..] == a[1..] + [tc];
      InputsAppend(a[1..], tc);
    }
  }

  lemma InputsPrefix(tcs: seq<TestCaseType>, j: nat)
    requires j < |tcs|
    ensures Inputs(tcs[..j + 1]) == Inputs(tcs[..j]) + Terminated(tcs[j].input)
  {
    assert tcs[..j + 1] == tcs[..j] + [tcs[j]];
    InputsAppend(tcs[..j], tcs[j]);
  }

  lemma {:induction false} ExpectedAppend(a: seq<TestCaseType>, b: seq<TestCaseType>)
    ensures Expected(a + b) == Expected(a) + Expected(b)
  {
    if a == [] {
      assert a + b == b;
    } else {
      assert (a + b)[1..] == a[1..] + b;
      ExpectedAppend(a[1..], b);
    }
  }

  lemma ExpectedPrefix(tcs: seq<TestCaseType>, j: nat)
    requires j < |tcs|
    ensures Expected(tcs[..j + 1]) == Expected(tcs[..j]) + Canonical(tcs[j].output)
  {
    assert tcs[..j + 1] == tcs[..j] + [tcs[j]];
    ExpectedAppend(tcs[..j], [tcs[j]]);
    assert [tcs[j]][1..] == [];
  }

  lemma {:induction false} CleanAppend(ls: seq<string>, l: string)
    ensures Clean(ls + [l]) == Clean(ls) + CleanLine(l)
  {
    hide CleanLine;
    if ls == [] {
      assert ls + [l] == [l];
      assert [l][1..] == [];
    } else {
      assert (ls + [l])[1..] == ls[1..] + [l];
      CleanAppend(ls[1..], l);
      Associates(CleanLine(ls[0]), Clean(ls[1..]), CleanLine(l));
    }
  }

  lemma CleanPrefix(ls: seq<string>, i: nat)
    requires i < |ls|
    ensures Clean(ls[..i + 1]) == Clean(ls[..i]) + CleanLine(ls[i])
  {
    assert ls[..i + 1] == ls[..i] + [ls[i]];
    CleanAppend(ls[..i], ls[i]);
  }

  predicate EndsWithNewline(s: string) {
    s != [] && s[|s| - 1] == '\n'
  }

  lemma PushInput(data: string, input: string)
    requires EndsWithNewline(data)
    ensures (if EndsWithNewline(data + input) then data + input else data + input + "\n") == data + Terminated(input)
    ensures EndsWithNewline(data + Terminated(input))
  {}

  /** The inner loop of `testcase_parsing`: every line trimmed and pushed unless empty. */
  method PushTrimmedLines(collected: seq<string>, lines: seq<string>) returns (expectedOutputData: seq<string>)
    ensures expectedOutputData == collected + Clean(lines)
  {
    expectedOutputData := collected;
    for k := 0 to |lines|
      invariant expectedOutputData == collected + Clean(lines[..k])
    {
      var trimmed := Trim(lines[k]);
      if trimmed != [] {
        expectedOutputData := expectedOutputData + [trimmed];
      }
      CleanPrefix(lines, k);
    }
    assert lines[..|lines|] == lines;
  }

  method TestcaseParsing(payload: seq<TestCaseType>) returns (inputData: string, expectedOutputData: seq<string>)
    ensures inputData == Stdin(payload)
    ensures expectedOutputData == Expected(payload)
  {
    inputData := Dec(|payload|) + "\n";
    expectedOutputData := [];
    ghost var header := inputData;
    for i := 0 to |payload|
      invariant inputData == header + Inputs(payload[..i])
      invariant EndsWithNewline(inputData)
      invariant expectedOutputData == Expected(payload[..i])
    {
      var tc := payload[i];
      ghost var data := inputData;
      inputData := inputData + tc.input;
      if !EndsWithNewline(inputData) {
        inputData := inputData + "\n";
      }
      expectedOutputData := PushTrimmedLines(expectedOutputData, Lines(tc.output));
      PushInput(data, tc.input);
      Associates(header, Inputs(payload[..i]), Terminated(tc.input));
      InputsPrefix(payload, i);
      ExpectedPrefix(payload, i);
    }
    assert payload[..|payload|] == payload;
  }

  // ------------------------------------------------------------------ grading

  /** Length of the longest common prefix. */
  function CommonPrefix(a: seq<string>, b: seq<string>): (k: nat)
    ensures k <= |a| && k <= |b|
    ensures forall i :: 0 <= i < k ==> a[i] == b[i]
    ensures k < |a| && k < |b| ==> a[k] != b[k]
  {
    if a == [] || b == [] || a[0] != b[0] then 0
    else
      1 + CommonPrefix(a[1..], b[1..])
  }

  function LineAt(lines: seq<string>, i: nat): string {
    if i < |lines| then lines[i] else ""
  }

  function RunResult(fd3: seq<string>, tc: TestCaseType, i: nat): TestCaseResult {
    var result := LineAt(fd3, i);
    TestCaseResult(tc.id, Trim(tc.input), Trim(tc.output), result, Trim(tc.output) == result)
  }

  function RunResults(fd3: seq<string>, tcs: seq<TestCaseType>): (rs: seq<TestCaseResult>)
    ensures |rs| == |tcs|
    ensures forall i :: 0 <= i < |tcs| ==> rs[i] == RunResult(fd3, tcs[i], i)
  {
    seq(|tcs|, i requires 0 <= i < |tcs| => RunResult(fd3, tcs[i], i))
  }

  /** A failure after `k` passed lines, blamed on test case `tc`. */
  function Blame(json: Json, tc: TestCaseType, k: nat, expected: string, actual: string,
        stdout: Option<string>): ResponsePayload {
    TestFailed(AsU32(k), Some(json.detail(FailedTestDetail(tc.id, Trim(tc.input), expected, actual))), stdout)
  }

  /** What Test mode must report about `fd3` for a non-empty list of cases: everything is decided
      by the longest common prefix of actual and expected lines. */
  ghost predicate TestReport(json: Json, fd3: seq<string>, tcs: seq<TestCaseType>, stdout: Option<string>,
        r: ResponsePayload)
    requires tcs != []
  {
    var expected := Expected(tcs);
    var k := CommonPrefix(fd3, expected);
    if k < |expected| then
      exists j: nat :: Owns(tcs, j, k) && r == Blame(json, tcs[j], k, expected[k], LineAt(fd3, k), stdout)
    else if k < |fd3| then
      r == Blame(json, tcs[|tcs| - 1], k, EOF_EXPECTED, fd3[k], stdout)
    else
      r == SuccessResponse(stdout, None, AsU32(k))
  }

  lemma {:induction false} ExpectedNonEmptyLines(tcs: seq<TestCaseType>)
    ensures forall k :: 0 <= k < |Expected(tcs)| ==> CanonicalLine(Expected(tcs)[k])
  {
    if tcs != [] {
      CanonicalLinesAre(tcs[0].output);
      ExpectedNonEmptyLines(tcs[1..]);
    }
  }

  lemma CommonPrefixIs(a: seq<string>, b: seq<string>, k: nat)
    requires k <= |a| && k <= |b|
    requires forall i :: 0 <= i < k ==> a[i] == b[i]
    requires k < |a| && k < |b| ==> a[k] != b[k]
    ensures CommonPrefix(a, b) == k
  {}

  /** `lines().filter(non-blank).count()`. */
  function NonBlankCount(lines: seq<string>): (n: nat)
    ensures n == |Clean(lines)|
  {
    if lines == [] then 0
    else (if Trim(lines[0]) != [] then 1 else 0) + NonBlankCount(lines[1..])
  }

  /** The walk that finds the test case owning expected line `i`. It starts from the first case as
      a default; the postcondition says the default is never what is returned by accident. */
  method FailedCase(tcs: seq<TestCaseType>, i: nat) returns (failed: TestCaseType)
    requires i < |Expected(tcs)|
    ensures exists j: nat :: Owns(tcs, j, i) && failed == tcs[j]
  {
    var lineCursor := 0;
    assert tcs[..|tcs|] == tcs;
    failed := tcs[0];
    var n := 0;
    while n < |tcs|
      invariant 0 <= n <= |tcs|
      invariant lineCursor == SpanStart(tcs, n) <= i
    {
      var count := NonBlankCount(Lines(tcs[n].output));
      ExpectedPrefix(tcs, n);
      if i < lineCursor + count {
        failed := tcs[n];
        assert Owns(tcs, n, i);
        return;
      }
      lineCursor := lineCursor + count;
      n := n + 1;
    }
    assert false;
  }

  lemma MismatchReport(json: Json, fd3: seq<string>, tcs: seq<TestCaseType>, stdout: Option<string>, k: nat, j: nat)
    requires k <= |fd3| && k < |Expected(tcs)|
    requires forall i :: 0 <= i < k ==> fd3[i] == Expected(tcs)[i]
    requires LineAt(fd3, k) != Expected(tcs)[k]
    requires Owns(tcs, j, k)
    ensures TestReport(json, fd3, tcs, stdout, Blame(json, tcs[j], k, Expected(tcs)[k], LineAt(fd3, k), stdout))
  {
    CommonPrefixIs(fd3, Expected(tcs), k);
  }

  lemma CompleteReport(json: Json, fd3: seq<string>, tcs: seq<TestCaseType>, stdout: Option<string>)
    requires tcs != [] && Expected(tcs) <= fd3
    ensures
      var n := |Expected(tcs)|;
      TestReport(json, fd3, tcs, stdout,
        if n < |fd3| then Blame(json, tcs[|tcs| - 1], n, EOF_EXPECTED, fd3[n], stdout)
        else SuccessResponse(stdout, None, AsU32(n)))
  {
    CommonPrefixIs(fd3, Expected(tcs), |Expected(tcs)|);
  }

  lemma CountWraps(i: nat)
    ensures AsU32(AsU32(i) + 1) == AsU32(i + 1)
  {}

  /** Test mode on at least one test case. */
  method ValidateTestMode(json: Json, fd3Output: seq<string>, testcases: seq<TestCaseType>, userStdout: Option<string>)
    returns (r: ResponsePayload)
    requires testcases != []
    ensures TestReport(json, fd3Output, testcases, userStdout, r)
  {
    hide TestReport, Expected, CommonPrefix, SpanStart, Trim;
    var expected := Expected(testcases);
    var total := |expected|;
    var passed: u32 := 0;
    ExpectedNonEmptyLines(testcases);
    for i := 0 to |expected|
      invariant i <= |fd3Output|
      invariant forall k :: 0 <= k < i ==> fd3Output[k] == expected[k]
      invariant passed == AsU32(i)
    {
      var actual := LineAt(fd3Output, i);
      assert CanonicalLine(expected[i]);
      if actual != expected[i] {
        var failedTc := FailedCase(testcases, i);
        ghost var j: nat :| Owns(testcases, j, i) && failedTc == testcases[j];
        var detail := FailedTestDetail(failedTc.id, Trim(failedTc.input), expected[i], actual);
        MismatchReport(json, fd3Output, testcases, userStdout, i, j);
        return TestFailed(passed, Some(json.detail(detail)), userStdout);
      }
      CountWraps(i);
      passed := AsU32(passed + 1);
    }
    CompleteReport(json, fd3Output, testcases, userStdout);
    if |fd3Output| > |expected| {
      var failedTc := testcases[|testcases| - 1];
      var detail := FailedTestDetail(failedTc.id, Trim(failedTc.input), EOF_EXPECTED, fd3Output[|expected|]);
      return TestFailed(passed, Some(json.detail(detail)), userStdout);
    }
    r := SuccessResponse(userStdout, None, AsU32(total));
  }

  /** The report for either task type. */
  ghost predicate Report(json: Json, fd3: seq<string>, tcs: seq<TestCaseType>, tasktype: TaskType,
        stdout: Option<string>, r: ResponsePayload) {
    match tasktype
    case Run => r == SuccessResponse(stdout, Some(json.results(RunResults(fd3, tcs))), AsU32(|tcs|))
    case Test => if tcs == [] then r == SuccessResponse(stdout, None, 0) else TestReport(json, fd3, tcs, stdout, r)
  }

  method ValidateTestCases(json: Json, fd3Output: seq<string>, testcases: seq<TestCaseType>, tasktype: TaskType,
        userStdout: Option<string>)
    returns (r: ResponsePayload)
    ensures Report(json, fd3Output, testcases, tasktype, userStdout, r)
  {
    match tasktype
    case Run =>
      var results := RunResults(fd3Output, testcases);
      r := SuccessResponse(userStdout, Some(json.results(results)), AsU32(|testcases|));
    case Test =>
      if testcases == [] {
        return SuccessResponse(userStdout, None, 0);
      }
      r := ValidateTestMode(json, fd3Output, testcases, userStdout);
  }
}
