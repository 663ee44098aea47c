/** What grading reports mean. */
module GraderProperties {
  import opened Wrappers
  import opened Decimal
  import opened Text
  import opened Types
  import opened Grader

  // -------------------------------------------------------------- verdict

  /** Test mode accepts exactly the canonical expected lines, and then counts all of them. */
  lemma TestAcceptsExactly(json: Json, fd3: seq<string>, tcs: seq<TestCaseType>, stdout: Option<string>,
        r: ResponsePayload)
    requires tcs != [] && TestReport(json, fd3, tcs, stdout, r)
    ensures r.message == Success <==> fd3 == Expected(tcs)
    ensures fd3 == Expected(tcs) ==> r == SuccessResponse(stdout, None, AsU32(|Expected(tcs)|))
    ensures fd3 != Expected(tcs) ==> r.message == Testcasefailed && r.status == Completed
  {
    var e := Expected(tcs);
    var k := CommonPrefix(fd3, e);
    if fd3 == e {
      CommonPrefixIs(fd3, e, |e|);
    } else {
      assert !(k == |fd3| && k == |e|);
    }
  }

  /** A program that prints rows in its own layout: rows of pure whitespace, and rows holding one
      expected line between whitespace pads. */
  datatype Row = Blank(space: string) | Padded(before: string, line: string, after: string)

  predicate GoodPad(s: string) {
    AllSpace(s) && '\n' !in s
  }

  predicate GoodRow(row: Row) {
    match row
    case Blank(space) => GoodPad(space)
    case Padded(before, line, after) => GoodPad(before) && GoodPad(after) && CanonicalLine(line)
  }

  function RowText(row: Row): string {
    match row
    case Blank(space) => space
    case Padded(before, line, after) => before + line + after
  }

  function RowLines(row: Row): seq<string> {
    match row
    case Blank(_) => []
    case Padded(_, line, _) => [line]
  }

  function Printed(rows: seq<Row>): string {
    if rows == [] then "" else RowText(rows[0]) + "\n" + Printed(rows[1..])
  }

  function PrintedLines(rows: seq<Row>): seq<string> {
    if rows == [] then [] else RowLines(rows[0]) + PrintedLines(rows[1..])
  }

  lemma RowCleans(row: Row)
    requires GoodRow(row)
    ensures '\n' !in RowText(row) && CleanLine(RowText(row)) == RowLines(row)
  {
    match row
    case Blank(space) => TrimEmptyIffSpace(space);
    case Padded(before, line, after) => TrimPad(before, line, after);
  }

  /** Blank rows and edge whitespace never reach the canonical form. */
  lemma {:induction false} LayoutIsIgnored(rows: seq<Row>)
    requires forall k :: 0 <= k < |rows| ==> GoodRow(rows[k])
    ensures Canonical(Printed(rows)) == PrintedLines(rows)
  {
    if rows != [] {
      assert GoodRow(rows[0]);
      RowCleans(rows[0]);
      CanonicalStep(RowText(rows[0]), Printed(rows[1..]));
      LayoutIsIgnored(rows[1..]);
    }
  }

  /** Any layout of the expected lines in order is accepted with the full count, with or without
      a newline at the very end. */
  lemma LayoutInsensitive(json: Json, rows: seq<Row>, text: string, tcs: seq<TestCaseType>, stdout: Option<string>,
        r: ResponsePayload)
    requires tcs != []
    requires forall k :: 0 <= k < |rows| ==> GoodRow(rows[k])
    requires PrintedLines(rows) == Expected(tcs)
    requires text == Printed(rows) || text + "\n" == Printed(rows)
    requires TestReport(json, Canonical(text), tcs, stdout, r)
    ensures r == SuccessResponse(stdout, None, AsU32(|Expected(tcs)|))
  {
    LayoutIsIgnored(rows);
    CanonicalTerminated(text);
    TestAcceptsExactly(json, Canonical(text), tcs, stdout, r);
  }

  function Outputs(tcs: seq<TestCaseType>): string {
    if tcs == [] then "" else tcs[0].output + "\n" + Outputs(tcs[1..])
  }

  /** The expected lines are the canonical form of the expected outputs written one after the other. */
  lemma {:induction false} ExpectedIsCanonical(tcs: seq<TestCaseType>)
    ensures Expected(tcs) == Canonical(Outputs(tcs))
  {
    if tcs != [] {
      ExpectedIsCanonical(tcs[1..]);
      CanonicalConcat(tcs[0].output, Outputs(tcs[1..]));
    }
  }

  // ------------------------------------------------------- first-failure report

  lemma SpanMonotone(tcs: seq<TestCaseType>, i: nat, j: nat)
    requires i <= j <= |tcs|
    ensures SpanStart(tcs, i) <= SpanStart(tcs, j) <= |Expected(tcs)|
  {
    assert tcs[..j] == tcs[..i] + tcs[i..j];
    ExpectedAppend(tcs[..i], tcs[i..j]);
    assert tcs == tcs[..j] + tcs[j..];
    ExpectedAppend(tcs[..j], tcs[j..]);
  }

  /** A line has at most one owner. */
  lemma OwnerUnique(tcs: seq<TestCaseType>, j: nat, k: nat, i: nat)
    requires Owns(tcs, j, i) && Owns(tcs, k, i)
    ensures j == k
  {
    if k < j {
      SpanMonotone(tcs, k + 1, j);
    } else if j < k {
      SpanMonotone(tcs, j + 1, k);
    }
  }

  lemma SplitAt<T>(s: seq<T>, j: nat)
    requires j < |s|
    ensures s == s[..j] + ([s[j]] + s[j + 1..])
  {}

  lemma ExpectedAround(a: seq<TestCaseType>, tc: TestCaseType, b: seq<TestCaseType>)
    ensures Expected(a + ([tc] + b)) == Expected(a) + Canonical(tc.output) + Expected(b)
  {
    ExpectedAppend(a, [tc] + b);
    assert ([tc] + b)[1..] == b;
    Associates(Expected(a), Canonical(tc.output), Expected(b));
  }

  lemma ExpectedSplit(tcs: seq<TestCaseType>, j: nat)
    requires j < |tcs|
    ensures Expected(tcs) == Expected(tcs[..j]) + Canonical(tcs[j].output) + Expected(tcs[j + 1..])
  {
    SplitAt(tcs, j);
    ExpectedAround(tcs[..j], tcs[j], tcs[j + 1..]);
  }

  lemma MiddleElement(a: seq<string>, own: seq<string>, b: seq<string>, whole: seq<string>, i: nat)
    requires whole == a + own + b && |a| <= i < |a + own|
    ensures i < |whole| && i - |a| < |own| && whole[i] == own[i - |a|]
  {}

  /** The owner's own line at the offset in its span is the line, so a test case without output
      lines owns nothing. */
  lemma OwnerIsRight(tcs: seq<TestCaseType>, j: nat, i: nat)
    requires Owns(tcs, j, i)
    ensures i < |Expected(tcs)|
    ensures i - SpanStart(tcs, j) < |Canonical(tcs[j].output)|
    ensures Expected(tcs)[i] == Canonical(tcs[j].output)[i - SpanStart(tcs, j)]
    ensures Canonical(tcs[j].output) != []
  {
    hide Expected, Canonical;
    ExpectedPrefix(tcs, j);
    ExpectedSplit(tcs, j);
    MiddleElement(Expected(tcs[..j]), Canonical(tcs[j].output), Expected(tcs[j + 1..]), Expected(tcs), i);
  }

  lemma BlamedCase(json: Json, fd3: seq<string>, tcs: seq<TestCaseType>, stdout: Option<string>, r: ResponsePayload,
        k: nat)
    returns (j: nat)
    requires tcs != [] && TestReport(json, fd3, tcs, stdout, r)
    requires k == CommonPrefix(fd3, Expected(tcs)) < |Expected(tcs)|
    ensures Owns(tcs, j, k) && r == Blame(json, tcs[j], k, Expected(tcs)[k], LineAt(fd3, k), stdout)
  {
    j :| Owns(tcs, j, k) && r == Blame(json, tcs[j], k, Expected(tcs)[k], LineAt(fd3, k), stdout);
  }

  /** On a mismatch after a longest common prefix of `k` lines, the count is `k`, the blamed case is
      the one whose span holds line `k`, and `expected` is that case's own line. */
  lemma MismatchReportIsRight(json: Json, fd3: seq<string>, tcs: seq<TestCaseType>, stdout: Option<string>,
        r: ResponsePayload, k: nat, j: nat)
    requires tcs != [] && TestReport(json, fd3, tcs, stdout, r)
    requires k == CommonPrefix(fd3, Expected(tcs)) < |Expected(tcs)|
    requires Owns(tcs, j, k)
    ensures k - SpanStart(tcs, j) < |Canonical(tcs[j].output)|
    ensures r == Blame(json, tcs[j], k, Canonical(tcs[j].output)[k - SpanStart(tcs, j)], LineAt(fd3, k), stdout)
  {
    var other := BlamedCase(json, fd3, tcs, stdout, r, k);
    OwnerUnique(tcs, j, other, k);
    OwnerIsRight(tcs, j, k);
  }

  /** Surplus output is blamed on the last case with the end-of-output marker. */
  lemma SurplusReportIsRight(json: Json, fd3: seq<string>, tcs: seq<TestCaseType>, stdout: Option<string>,
        r: ResponsePayload)
    requires tcs != [] && TestReport(json, fd3, tcs, stdout, r)
    requires Expected(tcs) < fd3
    ensures r == Blame(json, tcs[|tcs| - 1], |Expected(tcs)|, EOF_EXPECTED, fd3[|Expected(tcs)|], stdout)
  {
    CommonPrefixIs(fd3, Expected(tcs), |Expected(tcs)|);
  }

  // ----------------------------------------------------------- Run against Test

  /** Run mode marks case `i` as a success exactly when its output has one non-blank line that is
      line `i` of fd3, or no non-blank line and fd3 has no line `i`. In particular a case whose
      expected output has two or more non-blank lines is never marked a success. */
  lemma RunSuccessIff(text: string, tc: TestCaseType, i: nat)
    ensures
      var fd3 := Canonical(text);
      var own := Canonical(tc.output);
      RunResult(fd3, tc, i).success <==>
        (|own| == 1 && i < |fd3| && fd3[i] == own[0]) || (own == [] && i >= |fd3|)
  {
    var fd3 := Canonical(text);
    CanonicalLinesAre(text);
    CanonicalLinesAre(tc.output);
    TrimAgainstLines(tc.output);
    CanonicalEmptyIff(tc.output);
    TrimEmptyIffSpace(tc.output);
    if i < |fd3| {
      assert CanonicalLine(fd3[i]);
    }
    if |Canonical(tc.output)| == 1 {
      assert CanonicalLine(Canonical(tc.output)[0]);
    }
  }

  predicate OneLineCases(tcs: seq<TestCaseType>) {
    forall i :: 0 <= i < |tcs| ==> |Canonical(tcs[i].output)| == 1
  }

  /** Length of the longest prefix of results marked as successes. */
  function SuccessPrefix(rs: seq<TestCaseResult>): (k: nat)
    ensures k <= |rs|
  {
    if rs != [] && rs[0].success then 1 + SuccessPrefix(rs[1..]) else 0
  }

  lemma {:induction false} SuccessPrefixIs(rs: seq<TestCaseResult>, k: nat)
    requires k <= |rs|
    requires forall i :: 0 <= i < k ==> rs[i].success
    requires k < |rs| ==> !rs[k].success
    ensures SuccessPrefix(rs) == k
  {
    if k > 0 {
      SuccessPrefixIs(rs[1..], k - 1);
    }
  }

  lemma {:induction false} OneLineExpected(tcs: seq<TestCaseType>)
    requires OneLineCases(tcs)
    ensures |Expected(tcs)| == |tcs|
    ensures forall i :: 0 <= i < |tcs| ==> Expected(tcs)[i] == Canonical(tcs[i].output)[0]
  {
    if tcs != [] {
      assert |Canonical(tcs[0].output)| == 1;
      assert OneLineCases(tcs[1..]);
      OneLineExpected(tcs[1..]);
    }
  }

  /** With one non-blank output line per case the two modes agree: Test's count is the longest
      all-success prefix of Run's results, and Test succeeds exactly when every Run result is a
      success and fd3 has one line per case. */
  lemma RunAndTestAgree(json: Json, text: string, tcs: seq<TestCaseType>, stdout: Option<string>, r: ResponsePayload)
    requires tcs != [] && OneLineCases(tcs)
    requires TestReport(json, Canonical(text), tcs, stdout, r)
    ensures
      var fd3 := Canonical(text);
      var rs := RunResults(fd3, tcs);
      && r.ttpassed == AsU32(SuccessPrefix(rs))
      && (r.message == Success <==> |fd3| == |tcs| && forall i :: 0 <= i < |rs| ==> rs[i].success)
  {
    var fd3 := Canonical(text);
    var rs := RunResults(fd3, tcs);
    var e := Expected(tcs);
    var k := CommonPrefix(fd3, e);
    OneLineExpected(tcs);
    forall i | 0 <= i < |tcs| ensures rs[i].success <==> i < |fd3| && fd3[i] == e[i] {
      RunSuccessIff(text, tcs[i], i);
    }
    SuccessPrefixIs(rs, k);
    TestAcceptsExactly(json, fd3, tcs, stdout, r);
  }

  // ------------------------------------------------------------------- stdin

  /** The lines a program reads from one input: a carriage return at its very end goes, like before any newline. */
  function OwnLines(input: string): seq<string> {
    if input != "" && input[|input| - 1] == '\r' then Lines(input + "\n") else Lines(input)
  }

  function InputLines(tcs: seq<TestCaseType>): seq<string> {
    if tcs == [] then [] else OwnLines(tcs[0].input) + InputLines(tcs[1..])
  }

  lemma {:induction false} LinesEnded(s: string)
    requires s == "" || s[|s| - 1] !in {'\r', '\n'}
    ensures s != "" ==> Lines(s + "\n") == Lines(s)
    decreases |s|
  {
    if s != "" {
      if '\n' in s {
        var l, rest := SplitLine(s);
        assert rest != "" && rest[|rest| - 1] == s[|s| - 1];
        LinesEnded(rest);
        LinesStep(l, rest);
        LinesStep(l, rest + "\n");
        assert s + "\n" == l + "\n" + (rest + "\n");
      } else {
        LinesAre(s, "");
        assert s + "\n" + "" == s + "\n";
      }
    }
  }

  lemma OwnLinesAre(s: string)
    ensures Lines(Terminated(s)) == OwnLines(s)
  {
    if s != "" && s[|s| - 1] !in {'\r', '\n'} {
      LinesEnded(s);
    }
  }

  lemma LinesTerminated(s: string, rest: string)
    ensures Lines(Terminated(s) + rest) == Lines(Terminated(s)) + Lines(rest)
  {
    var t := Terminated(s);
    if t == [] {
      assert t + rest == rest;
    } else {
      var body := t[..|t| - 1];
      assert t == body + "\n";
      LinesConcat(body, rest);
    }
  }

  lemma {:induction false} InputsSplit(tcs: seq<TestCaseType>)
    ensures Lines(Inputs(tcs)) == InputLines(tcs)
  {
    if tcs != [] {
      InputsSplit(tcs[1..]);
      LinesTerminated(tcs[0].input, Inputs(tcs[1..]));
      OwnLinesAre(tcs[0].input);
    }
  }

  /** The program reads the number of cases and then every input's own lines, in order and without
      a line of one input running into the next. */
  lemma StdinFraming(tcs: seq<TestCaseType>)
    ensures Lines(Stdin(tcs)) == [Dec(|tcs|)] + InputLines(tcs)
  {
    var count := Dec(|tcs|);
    DecIsNumeral(|tcs|);
    assert '\n' !in count by {
      assert !IsDigit('\n');
    }
    LinesStep(count, Inputs(tcs));
    InputsSplit(tcs);
    assert StripCr(count) == count by {
      assert !IsDigit('\r');
    }
  }

  // -------------------------------------------------------- reports field by field

  /** The report on the first line that differs: the owner's id, trimmed input and own line, the line that came
      instead ("" when none did), the number of lines before it, and the user's stdout. */
  lemma MismatchFields(json: Json, fd3: seq<string>, tcs: seq<TestCaseType>, stdout: Option<string>,
        r: ResponsePayload, k: nat, j: nat)
    requires tcs != [] && TestReport(json, fd3, tcs, stdout, r)
    requires k == CommonPrefix(fd3, Expected(tcs)) < |Expected(tcs)| && Owns(tcs, j, k)
    ensures k - SpanStart(tcs, j) < |Canonical(tcs[j].output)|
    ensures r.status == Completed && r.message == Testcasefailed && r.ttpassed == k % 0x1_0000_0000
    ensures r.stdout == stdout && r.error == None && r.results == None
    ensures r.failedcase == Some(json.detail(FailedTestDetail(
      id := tcs[j].id, input := Trim(tcs[j].input),
      expected := Canonical(tcs[j].output)[k - SpanStart(tcs, j)],
      actual := if k < |fd3| then fd3[k] else "")))
  {
    hide TestReport, Owns, SpanStart, Expected, Canonical, Trim;
    MismatchReportIsRight(json, fd3, tcs, stdout, r, k, j);
  }

  /** The report on surplus output: the last case, the end-of-output text, the first surplus line. */
  lemma SurplusFields(json: Json, fd3: seq<string>, tcs: seq<TestCaseType>, stdout: Option<string>, r: ResponsePayload)
    requires tcs != [] && TestReport(json, fd3, tcs, stdout, r) && Expected(tcs) < fd3
    ensures r.status == Completed && r.message == Testcasefailed && r.ttpassed == |Expected(tcs)| % 0x1_0000_0000
    ensures r.stdout == stdout && r.error == None && r.results == None
    ensures r.failedcase == Some(json.detail(FailedTestDetail(
      id := tcs[|tcs| - 1].id, input := Trim(tcs[|tcs| - 1].input),
      expected := "EOF (no more output expected)", actual := fd3[|Expected(tcs)|])))
  {
    hide TestReport, Trim;
    SurplusReportIsRight(json, fd3, tcs, stdout, r);
  }

  /** The report on right output. */
  lemma SuccessFields(json: Json, fd3: seq<string>, tcs: seq<TestCaseType>, stdout: Option<string>, r: ResponsePayload)
    requires tcs != [] && TestReport(json, fd3, tcs, stdout, r) && fd3 == Expected(tcs)
    ensures r == ResponsePayload(
      status := Completed, message := Success, error := None, ttpassed := |fd3| % 0x1_0000_0000,
      stdout := stdout, results := None, failedcase := None)
  {
    hide TestReport;
    TestAcceptsExactly(json, fd3, tcs, stdout, r);
  }

  /** Run mode reports success with one record per case: its id, trimmed input and output, the line at its own
      index ("" when there is none), and whether that line is the trimmed output. */
  lemma RunReportFields(json: Json, fd3: seq<string>, tcs: seq<TestCaseType>, stdout: Option<string>,
        r: ResponsePayload)
    requires Report(json, fd3, tcs, Run, stdout, r)
    ensures exists rs: seq<TestCaseResult> ::
      && |rs| == |tcs| && r == ResponsePayload(
           status := Completed, message := Success, error := None, ttpassed := |tcs| % 0x1_0000_0000,
           stdout := stdout, results := Some(json.results(rs)), failedcase := None)
      && forall i :: 0 <= i < |tcs| ==> RunRecord(fd3, tcs[i], i, rs[i])
  {
    assert forall i :: 0 <= i < |tcs| ==> RunRecord(fd3, tcs[i], i, RunResults(fd3, tcs)[i]);
  }

  predicate RunRecord(fd3: seq<string>, tc: TestCaseType, i: nat, record: TestCaseResult) {
    && record.id == tc.id && record.input == Trim(tc.input) && record.output == Trim(tc.output)
    && record.result == (if i < |fd3| then fd3[i] else "")
    && (record.success <==> record.result == Trim(tc.output))
  }
}
