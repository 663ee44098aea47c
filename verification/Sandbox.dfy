/** What the sandbox runner computes itself: limits, the re-encoded exit status, the out-of-memory flag
    and the pid it writes to the cgroup. */
module Sandbox {
  import opened Wrappers
  import opened Decimal
  import opened Text

  // ---------------------------------------------------------------------- limits

  const U64_LIMIT: nat := 0x1_0000_0000_0000_0000

  /** The limit the sandbox enforces, in milliseconds: never under a second. */
  function EffectiveLimit(timelimit: nat): nat {
    if timelimit < 1000 then 1000 else timelimit
  }

  /** RLIMIT_CPU in whole seconds: SIGXCPU at the soft one, SIGKILL at the hard one. */
  function SoftCpuSeconds(timelimit: nat): nat {
    EffectiveLimit(timelimit) / 1000
  }

  function HardCpuSeconds(timelimit: nat): nat {
    SoftCpuSeconds(timelimit) + 1
  }

  /** Milliseconds of wall time after which the run is cut off: a u64 sum, which wraps around. */
  function WallDeadline(timelimit: nat): nat {
    (EffectiveLimit(timelimit) + 1000) % U64_LIMIT
  }

  // ----------------------------------------------------------------- exit statuses

  datatype WaitStatus = Exited(code: nat) | Signaled(sig: nat) | Neither

  /** What waitpid can report: eight bits of exit code, or a signal number of seven bits. */
  predicate IsWaitStatus(s: WaitStatus) {
    match s
    case Exited(code) => code < 256
    case Signaled(sig) => 1 <= sig <= 126
    case Neither => true
  }

  /** The outer process waits for the inner one and exits with this code, of which eight bits survive. */
  function ReEncode(inner: WaitStatus): nat {
    match inner
    case Exited(code) => code % 256
    case Signaled(sig) => (128 + sig) % 256
    case Neither => 1
  }

  /** How a run ends for the runner: the inner process's end is reported through the outer one, the outer
      one gives up during setup or is itself killed, or the wall deadline passes. */
  datatype Ending = Reported(inner: WaitStatus) | SetupFailed(code: nat) | OuterKilled(sig: nat) | CutOff

  predicate IsEnding(e: Ending) {
    match e
    case Reported(inner) => IsWaitStatus(inner)
    case SetupFailed(code) => code in OUTER_SETUP_CODES
    case OuterKilled(sig) => 1 <= sig <= 126
    case CutOff => true
  }

  /** Exit codes of the setup steps before the inner process exists. */
  const OUTER_SETUP_CODES: set<nat> := {101, 102, 103, 104, 150, 151, 152}

  datatype SandboxResult = SandboxResult(exitCode: int, signal: Option<nat>, wallTimeMs: nat, isOom: bool)

  function StatusOf(e: Ending): WaitStatus {
    match e
    case Reported(inner) => Exited(ReEncode(inner))
    case SetupFailed(code) => Exited(code)
    case OuterKilled(sig) => Signaled(sig)
    case CutOff => Signaled(9)
  }

  function ResultOf(e: Ending, wallTimeMs: nat, isOom: bool): SandboxResult {
    match StatusOf(e)
    case Exited(code) => SandboxResult(code, None, wallTimeMs, isOom)
    case Signaled(sig) => SandboxResult(-1, Some(sig), wallTimeMs, isOom)
    case Neither => SandboxResult(-1, None, wallTimeMs, isOom)
  }

  // -------------------------------------------------------- the memory.events scan

  function WordEnd(s: string): (n: nat)
    ensures n <= |s|
    ensures forall k :: 0 <= k < n ==> !IsWhitespace(s[k])
    ensures n < |s| ==> IsWhitespace(s[n])
  {
    if s == [] || IsWhitespace(s[0]) then 0 else 1 + WordEnd(s[1..])
  }

  lemma {:induction false} TrimStartShrinks(s: string)
    ensures |TrimStart(s)| <= |s|
    ensures TrimStart(s) != [] ==> !IsWhitespace(TrimStart(s)[0])
  {
    if s != [] && IsWhitespace(s[0]) {
      TrimStartShrinks(s[1..]);
    }
  }

  /** `split_whitespace`. */
  function Words(s: string): seq<string>
    decreases |s|
  {
    TrimStartShrinks(s);
    var t := TrimStart(s);
    if t == [] then [] else [t[..WordEnd(t)]] + Words(t[WordEnd(t)..])
  }

  predicate StartsWith(s: string, prefix: string) {
    prefix <= s
  }

  const OOM_KILL := "oom_kill "
  const OOM := "oom "

  /** A line that reports an out-of-memory event. */
  predicate OomLine(line: string) {
    && (StartsWith(line, OOM_KILL) || StartsWith(line, OOM))
    && |Words(line)| == 2
    && ParseU32(Words(line)[1]).Some?
    && ParseU32(Words(line)[1]).value > 0
  }

  method ScanMemoryEvents(eventsData: string) returns (isOom: bool)
    ensures isOom <==> exists l :: l in Lines(eventsData) && OomLine(l)
  {
    isOom := false;
    var lines := Lines(eventsData);
    for i := 0 to |lines|
      invariant isOom <==> exists l :: l in lines[..i] && OomLine(l)
    {
      var line := lines[i];
      assert lines[..i + 1] == lines[..i] + [line];
      if StartsWith(line, OOM_KILL) || StartsWith(line, OOM) {
        var parts := Words(line);
        if |parts| == 2 {
          var count := ParseU32(parts[1]);
          if count.Some? && count.value > 0 {
            assert OomLine(line);
            isOom := true;
          }
        }
      }
    }
    assert lines[..|lines|] == lines;
  }

  /** One counter of the kernel's file. */
  datatype Event = Event(name: string, count: nat)

  predicate IsName(name: string) {
    name != [] && forall k :: 0 <= k < |name| ==> !IsWhitespace(name[k])
  }

  function EventLine(e: Event): string {
    e.name + " " + Dec(e.count)
  }

  function EventsText(events: seq<Event>): string {
    if events == [] then "" else EventLine(events[0]) + "\n" + EventsText(events[1..])
  }

  lemma WordEndIs(s: string, n: nat)
    requires n <= |s| && (forall k :: 0 <= k < n ==> !IsWhitespace(s[k])) && (n < |s| ==> IsWhitespace(s[n]))
    ensures WordEnd(s) == n
  {}

  lemma DecHasNoSpace(n: nat)
    ensures IsName(Dec(n))
  {}

  lemma OneWord(w: string)
    requires IsName(w)
    ensures Words(w) == [w]
  {
    WordEndIs(w, |w|);
    assert w[..|w|] == w && w[|w|..] == [];
  }

  lemma TwoWords(a: string, b: string)
    requires IsName(a) && IsName(b)
    ensures Words(a + " " + b) == [a, b]
  {
    var s := a + " " + b;
    WordEndIs(s, |a|);
    assert s[..|a|] == a && s[|a|..] == " " + b;
    assert TrimStart(" " + b) == b by {
      assert (" " + b)[1..] == b;
    }
    OneWord(b);
    WordEndIs(b, |b|);
    assert b[..|b|] == b && b[|b|..] == [];
  }

  /** The prefix test picks out exactly the name before the first space. */
  lemma PrefixIsName(name: string, rest: string, wanted: string)
    requires IsName(name) && IsName(wanted)
    ensures StartsWith(name + " " + rest, wanted + " ") <==> name == wanted
  {
    var s, p := name + " " + rest, wanted + " ";
    if p <= s {
      assert s[|wanted|] == p[|wanted|] == ' ';
      WordEndIs(s, |name|);
      assert forall k :: 0 <= k < |wanted| ==> s[k] == p[k] == wanted[k];
      WordEndIs(s, |wanted|);
      assert name == s[..|name|] && wanted == p[..|wanted|] && s[..|name|] == p[..|wanted|];
    }
  }

  lemma EventLineIsOom(e: Event)
    requires IsName(e.name)
    ensures OomLine(EventLine(e)) <==> e.name in {"oom", "oom_kill"} && 0 < e.count < U32_LIMIT
  {
    hide IsWhitespace, Words, StartsWith;
    DecHasNoSpace(e.count);
    NamesAreNames();
    TwoWords(e.name, Dec(e.count));
    PrefixIsName(e.name, Dec(e.count), "oom");
    PrefixIsName(e.name, Dec(e.count), "oom_kill");
    assert "oom" + " " == OOM && "oom_kill" + " " == OOM_KILL;
    DecIsNumeral(e.count);
  }

  lemma FirstWord(a: string, rest: string)
    requires IsName(a)
    ensures Words(a + " " + rest) == [a] + Words(" " + rest)
  {
    var s := a + " " + rest;
    WordEndIs(s, |a|);
    assert s[..|a|] == a && s[|a|..] == " " + rest;
  }

  lemma SpaceSkipped(s: string)
    ensures Words(" " + s) == Words(s)
  {
    assert (" " + s)[1..] == s;
  }

  /** A line with a third word reports nothing, whatever the words are. */
  lemma ThirdWordIgnored(a: string, b: string, rest: string)
    requires IsName(a) && IsName(b) && TrimStart(rest) != ""
    ensures !OomLine(a + " " + (b + " " + rest))
  {
    hide StartsWith, ParseU32, IsName, TrimStart;
    FirstWord(a, b + " " + rest);
    SpaceSkipped(b + " " + rest);
    FirstWord(b, rest);
    SpaceSkipped(rest);
    assert |Words(a + " " + (b + " " + rest))| == 2 + |Words(rest)|;
  }

  lemma NamesAreNames()
    ensures IsName("oom") && IsName("oom_kill")
  {}

  lemma EventLineIsLine(e: Event)
    requires IsName(e.name)
    ensures '\n' !in EventLine(e) && StripCr(EventLine(e)) == EventLine(e)
  {
    DecHasNoSpace(e.count);
    var l, d := EventLine(e), Dec(e.count);
    assert l[|l| - 1] == d[|d| - 1];
  }

  /** The lines of the file are the counters' lines. */
  lemma {:induction false} EventsTextLines(events: seq<Event>)
    requires forall i :: 0 <= i < |events| ==> IsName(events[i].name)
    ensures |Lines(EventsText(events))| == |events|
    ensures forall i :: 0 <= i < |events| ==> Lines(EventsText(events))[i] == EventLine(events[i])
  {
    hide EventLine, Lines, StripCr, IsName;
    if events == [] {
      assert Lines("") == [] by { NoLines(); }
    } else {
      EventsTextLines(events[1..]);
      EventLineIsLine(events[0]);
      LinesStep(EventLine(events[0]), EventsText(events[1..]));
    }
  }

  lemma NoLines()
    ensures Lines("") == []
  {}

  /** The scan of a kernel's memory.events, whatever other counters it lists: out of memory is reported
      exactly when `oom` or `oom_kill` is positive and fits in 32 bits. */
  lemma OomFlagIsRight(events: seq<Event>)
    requires forall i :: 0 <= i < |events| ==> IsName(events[i].name)
    ensures
      (exists l :: l in Lines(EventsText(events)) && OomLine(l)) <==>
      (exists i :: 0 <= i < |events| && events[i].name in {"oom", "oom_kill"} && 0 < events[i].count < U32_LIMIT)
  {
    hide OomLine, EventLine, Lines, EventsText;
    var lines := Lines(EventsText(events));
    EventsTextLines(events);
    forall i | 0 <= i < |events|
      ensures OomLine(lines[i]) <==> events[i].name in {"oom", "oom_kill"} && 0 < events[i].count < U32_LIMIT
    {
      EventLineIsOom(events[i]);
    }
    if l :| l in lines && OomLine(l) {
      var i :| 0 <= i < |lines| && lines[i] == l;
      assert events[i].name in {"oom", "oom_kill"};
    }
    if i :| 0 <= i < |events| && events[i].name in {"oom", "oom_kill"} && 0 < events[i].count < U32_LIMIT {
      assert lines[i] in lines && OomLine(lines[i]);
    }
  }

  // ------------------------------------------------------------------- the pid line

  const I32_LIMIT: int := 0x8000_0000

  function Reversed(s: string): string {
    if s == [] then [] else [s[|s| - 1]] + Reversed(s[..|s| - 1])
  }

  function Pow10(n: nat): (p: nat)
    ensures p >= 1
  {
    if n == 0 then 1 else 10 * Pow10(n - 1)
  }

  /** The text of a positive pid, and of nothing at all for the others. */
  function PidText(pid: int): string {
    if pid > 0 then Dec(pid) else ""
  }

  lemma PidStep(pid: int, digits: string)
    requires pid > 0
    ensures PidText(pid) + Reversed(digits) == PidText(pid / 10) + Reversed(digits + [DigitChar(pid % 10)])
  {
    var c := DigitChar(pid % 10);
    assert (digits + [c])[..|digits|] == digits;
    assert PidText(pid) == PidText(pid / 10) + [c];
    Associates(PidText(pid / 10), [c], Reversed(digits));
  }

  lemma ReversedStep(out: string, digits: string)
    requires digits != []
    ensures out + Reversed(digits) == (out + [digits[|digits| - 1]]) + Reversed(digits[..|digits| - 1])
  {
    Associates(out, [digits[|digits| - 1]], Reversed(digits[..|digits| - 1]));
  }

  lemma FewerDigits(pid: int, left: nat)
    requires 0 < pid < Pow10(left)
    ensures left >= 1 && pid / 10 < Pow10(left - 1)
  {}

  lemma PidStart(pid: int)
    ensures PidText(pid) == PidText(pid) + Reversed([])
    ensures pid <= 0 ==> PidText(pid) == ""
  {}

  lemma TenDigits()
    ensures I32_LIMIT <= Pow10(10)
  {
    assert Pow10(5) == 100000;
    assert Pow10(10) == 100000 * Pow10(5);
  }

  /** The two digit loops before the write to `cgroup.procs`: least digit first into one buffer, then
      turned round into the other. For every 32-bit pid they stay inside the 32-byte buffers and leave
      the pid's decimal text and a newline. */
  method FormatPid(self: int) returns (pidBuf: array<char>, length: nat)
    requires -I32_LIMIT <= self < I32_LIMIT
    ensures fresh(pidBuf) && pidBuf.Length == 32 && length <= 11
    ensures pidBuf[..length] == PidText(self) + "\n"
  {
    hide PidText, Reversed, Pow10, DigitChar;
    var pid := self;
    pidBuf := new char[32];
    var temp := new char[32];
    var tempLen := 0;
    TenDigits();
    PidStart(self);
    while pid > 0
      invariant 0 <= tempLen <= 10
      invariant pid > 0 ==> pid < Pow10(10 - tempLen)
      invariant PidText(pid) + Reversed(temp[..tempLen]) == PidText(self)
    {
      PidStep(pid, temp[..tempLen]);
      FewerDigits(pid, 10 - tempLen);
      temp[tempLen] := DigitChar(pid % 10);
      assert temp[..tempLen + 1] == temp[..tempLen] + [temp[tempLen]];
      pid := pid / 10;
      tempLen := tempLen + 1;
    }
    PidStart(pid);
    var i := 0;
    ghost var total := tempLen;
    while tempLen > 0
      invariant 0 <= tempLen && i + tempLen == total <= 10
      invariant pidBuf[..i] + Reversed(temp[..tempLen]) == PidText(self)
    {
      ReversedStep(pidBuf[..i], temp[..tempLen]);
      tempLen := tempLen - 1;
      assert temp[..tempLen + 1][..tempLen] == temp[..tempLen];
      pidBuf[i] := temp[tempLen];
      assert pidBuf[..i + 1] == pidBuf[..i] + [pidBuf[i]];
      i := i + 1;
    }
    PidStart(0);
    pidBuf[i] := '\n';
    length := i + 1;
    assert pidBuf[..length] == pidBuf[..i] + ['\n'];
  }

  /** For every pid the kernel hands out, that text is its numeral without leading zeros. */
  lemma PidTextIsNumeral(pid: nat)
    requires 0 < pid < I32_LIMIT
    ensures AllDigits(PidText(pid)) && ValueOf(PidText(pid)) == pid && PidText(pid) != [] && PidText(pid)[0] != '0'
  {
    DecIsNumeral(pid);
  }

  /** The limits in force, in numbers: a second of CPU time, killed at two, and two seconds of wall time for
      submissions under a second; the submitted limit rounded down, a second more, and the submitted limit plus
      a second for the others. */
  lemma EnforcedLimits(timelimit: nat)
    ensures timelimit < 1000 ==>
      SoftCpuSeconds(timelimit) == 1 && HardCpuSeconds(timelimit) == 2 && WallDeadline(timelimit) == 2000
    ensures timelimit >= 1000 ==>
      SoftCpuSeconds(timelimit) == timelimit / 1000 && HardCpuSeconds(timelimit) == timelimit / 1000 + 1
    ensures 1000 <= timelimit < 0x1_0000_0000_0000_0000 - 1000 ==> WallDeadline(timelimit) == timelimit + 1000
  {}
}
