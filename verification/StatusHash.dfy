/** The status hash of a submission: what a push writes and what a poll reads back. */
module StatusHash {
  import opened Wrappers
  import opened Decimal
  import opened Types

  type Fields = map<string, string>

  const STATUS := "status"
  const MESSAGE := "message"
  const TTPASSED := "ttpassed"
  const ERROR := "error"
  const STDOUT := "stdout"
  const FAILEDCASE := "failedcase"
  const RESULTS := "results"

  const PENDING_FIELDS: Fields := map[STATUS := "pending"]
  const PROCESSING_FIELDS: Fields := map[STATUS := "processing", MESSAGE := "processing"]

  function StatusName(s: StatusType): string {
    match s
    case Pending => "pending"
    case Processing => "processing"
    case Completed => "completed"
    case Error => "error"
  }

  /** The serde name of a message (`rename_all = "snake_case"`). */
  function MessageName(m: MessageType): string {
    match m
    case ProcessingMessage => "processing"
    case Success => "success"
    case Testcasefailed => "testcasefailed"
    case CompileTimeError => "compile_time_error"
    case RunTimeError => "run_time_error"
    case MemoryLimitError => "memory_limit_error"
    case TimeLimitError => "time_limit_error"
    case ErrorMessage => "error"
  }

  function Optional(key: string, value: Option<string>): Fields {
    match value
    case Some(v) => map[key := v]
    case None => map[]
  }

  function Required(r: ResponsePayload): Fields {
    map[STATUS := StatusName(r.status), MESSAGE := MessageName(r.message), TTPASSED := Dec(r.ttpassed)]
  }

  /** The fields one push writes. */
  function ResultFields(r: ResponsePayload): Fields {
    Required(r)
    + Optional(ERROR, r.error)
    + Optional(STDOUT, r.stdout)
    + Optional(FAILEDCASE, r.failedcase)
    + Optional(RESULTS, r.results)
  }

  function Lookup(h: Fields, key: string): Option<string> {
    if key in h then Some(h[key]) else None
  }

  /** The message a poll derives from the stored text; anything unknown is an error. */
  function ParseMessage(text: Option<string>): MessageType {
    match text
    case None => ErrorMessage
    case Some(m) =>
      if m == "success" then Success
      else if m == "testcasefailed" then Testcasefailed
      else if m == "compile_time_error" then CompileTimeError
      else if m == "run_time_error" then RunTimeError
      else if m == "memory_limit_error" then MemoryLimitError
      else if m == "time_limit_error" then TimeLimitError
      else if m == "processing" then ProcessingMessage
      else ErrorMessage
  }

  function ParseCount(text: Option<string>): u32 {
    match text
    case None => 0
    case Some(s) =>
      match ParseU32(s)
      case Some(n) => if n < U32_LIMIT then n else 0
      case None => 0
  }

  const INVALID_STATUS: ResponsePayload := ErrorResponse(Some("Invalid status"))

  datatype Answer = NotFound | Answered(response: ResponsePayload)

  /** The response rebuilt from the message and the fields of a completed hash. */
  function Rebuild(lifecycle: MessageType, error: Option<string>, ttpassed: u32, stdout: Option<string>,
                   failedCase: Option<string>, results: Option<string>): ResponsePayload {
    match lifecycle
    case Success => SuccessResponse(stdout, results, ttpassed)
    case Testcasefailed => TestFailed(ttpassed, failedCase, stdout)
    case CompileTimeError => CompilerError(error)
    case RunTimeError => RuntimeError(error, ttpassed, stdout, failedCase)
    case TimeLimitError => TimeError(ttpassed, stdout)
    case MemoryLimitError => MemoryError(ttpassed, stdout)
    case _ => INVALID_STATUS
  }

  function DecodeCompleted(h: Fields): ResponsePayload {
    Rebuild(ParseMessage(Lookup(h, MESSAGE)), Lookup(h, ERROR), ParseCount(Lookup(h, TTPASSED)),
            Lookup(h, STDOUT), Lookup(h, FAILEDCASE), Lookup(h, RESULTS))
  }

  /** What a poll answers for the hash it read; an expired or unknown key reads as the empty hash. */
  function Decode(h: Fields): Answer {
    match Lookup(h, STATUS)
    case None => NotFound
    case Some(status) =>
      if status == "completed" then Answered(DecodeCompleted(h))
      else if status == "pending" || status == "processing" then Answered(ProcessingResponse())
      else Answered(INVALID_STATUS)
  }

  /** `status_get` after its HGETALL: the optional fields are moved out of the map one by one
      before the message is matched. */
  method StatusGet(taskStatus: Fields) returns (answer: Answer)
    ensures answer == Decode(taskStatus)
  {
    var fields := taskStatus;
    if fields == map[] {
      return NotFound;
    }
    if STATUS !in fields {
      return NotFound;
    }
    var status := fields[STATUS];
    if status == "completed" {
      FieldNamesDiffer();
      var error := Lookup(fields, ERROR);
      fields := fields - {ERROR};
      var stdout := Lookup(fields, STDOUT);
      fields := fields - {STDOUT};
      var failedCase := Lookup(fields, FAILEDCASE);
      fields := fields - {FAILEDCASE};
      var results := Lookup(fields, RESULTS);
      fields := fields - {RESULTS};
      var lifecycle := ParseMessage(Lookup(fields, MESSAGE));
      var ttpassed := ParseCount(Lookup(fields, TTPASSED));
      answer := Answered(Rebuild(lifecycle, error, ttpassed, stdout, failedCase, results));
    } else if status == "pending" || status == "processing" {
      answer := Answered(ProcessingResponse());
    } else {
      answer := Answered(INVALID_STATUS);
    }
  }

  // ------------------------------------------------------------ names are distinct

  lemma FieldNamesDiffer()
    ensures STATUS != MESSAGE && STATUS != TTPASSED && STATUS != ERROR && STATUS != STDOUT && STATUS != FAILEDCASE
      && STATUS != RESULTS
    ensures MESSAGE != TTPASSED && MESSAGE != ERROR && MESSAGE != STDOUT && MESSAGE != FAILEDCASE && MESSAGE != RESULTS
    ensures TTPASSED != ERROR && TTPASSED != STDOUT && TTPASSED != FAILEDCASE && TTPASSED != RESULTS
    ensures ERROR != STDOUT && ERROR != FAILEDCASE && ERROR != RESULTS
    ensures STDOUT != FAILEDCASE && STDOUT != RESULTS && FAILEDCASE != RESULTS
  {}

  /** The name of every message reads back as that message. */
  lemma MessageNameReadsBack(m: MessageType)
    ensures ParseMessage(Some(MessageName(m))) == m
  {
    assert "testcasefailed"[0] != "run_time_error"[0];
    assert "compile_time_error"[0] != "memory_limit_error"[0];
  }

  // ------------------------------------------------------------------ round trip

  lemma OptionalLookup(h: Fields, key: string, value: Option<string>, k: string)
    ensures Lookup(h + Optional(key, value), k) == if k == key && value.Some? then value else Lookup(h, k)
  {}

  lemma UnionLookup(h: Fields, g: Fields, k: string)
    ensures Lookup(h + g, k) == if Lookup(g, k).Some? then Lookup(g, k) else Lookup(h, k)
  {}

  /** What one push writes into field `k`. */
  lemma ResultField(r: ResponsePayload, k: string)
    ensures Lookup(ResultFields(r), k) ==
      if k == RESULTS && r.results.Some? then r.results
      else if k == FAILEDCASE && r.failedcase.Some? then r.failedcase
      else if k == STDOUT && r.stdout.Some? then r.stdout
      else if k == ERROR && r.error.Some? then r.error
      else Lookup(Required(r), k)
  {
    var g1 := Required(r) + Optional(ERROR, r.error);
    var g2 := g1 + Optional(STDOUT, r.stdout);
    var g3 := g2 + Optional(FAILEDCASE, r.failedcase);
    OptionalLookup(g3, RESULTS, r.results, k);
    OptionalLookup(g2, FAILEDCASE, r.failedcase, k);
    OptionalLookup(g1, STDOUT, r.stdout, k);
    OptionalLookup(Required(r), ERROR, r.error, k);
  }

  function Kept<T>(written: Option<T>, before: Option<T>): Option<T> {
    if written.Some? then written else before
  }

  /** Field by field, what a push onto `h` leaves behind. */
  lemma PushedFields(h: Fields, r: ResponsePayload)
    ensures
      var g := h + ResultFields(r);
      && Lookup(g, "status") == Some(StatusName(r.status))
      && Lookup(g, "message") == Some(MessageName(r.message))
      && Lookup(g, "ttpassed") == Some(Dec(r.ttpassed))
      && Lookup(g, "error") == Kept(r.error, Lookup(h, "error"))
      && Lookup(g, "stdout") == Kept(r.stdout, Lookup(h, "stdout"))
      && Lookup(g, "failedcase") == Kept(r.failedcase, Lookup(h, "failedcase"))
      && Lookup(g, "results") == Kept(r.results, Lookup(h, "results"))
  {
    FieldNamesDiffer();
    UnionLookup(h, ResultFields(r), STATUS);
    ResultField(r, STATUS);
    UnionLookup(h, ResultFields(r), MESSAGE);
    ResultField(r, MESSAGE);
    UnionLookup(h, ResultFields(r), TTPASSED);
    ResultField(r, TTPASSED);
    UnionLookup(h, ResultFields(r), ERROR);
    ResultField(r, ERROR);
    UnionLookup(h, ResultFields(r), STDOUT);
    ResultField(r, STDOUT);
    UnionLookup(h, ResultFields(r), FAILEDCASE);
    ResultField(r, FAILEDCASE);
    UnionLookup(h, ResultFields(r), RESULTS);
    ResultField(r, RESULTS);
  }

  /** No field that a poll reads for this message is left over from an earlier write. */
  predicate NothingStale(h: Fields, r: ResponsePayload) {
    && ((r.message.CompileTimeError? || r.message.RunTimeError?) && r.error == None ==> ERROR !in h)
    && (!r.message.CompileTimeError? && r.stdout == None ==> STDOUT !in h)
    && ((r.message.Testcasefailed? || r.message.RunTimeError?) && r.failedcase == None ==> FAILEDCASE !in h)
    && (r.message.Success? && r.results == None ==> RESULTS !in h)
  }

  lemma RebuildIff(h: Fields, r: ResponsePayload)
    requires Final(r) && r.status == Completed
    ensures Rebuild(r.message, Kept(r.error, Lookup(h, ERROR)), r.ttpassed, Kept(r.stdout, Lookup(h, STDOUT)),
                    Kept(r.failedcase, Lookup(h, FAILEDCASE)), Kept(r.results, Lookup(h, RESULTS))) == r
            <==> NothingStale(h, r)
  {}

  lemma DecodePushed(g: Fields, r: ResponsePayload)
    requires Lookup(g, STATUS) == Some(StatusName(Completed))
    requires Lookup(g, MESSAGE) == Some(MessageName(r.message))
    requires Lookup(g, TTPASSED) == Some(Dec(r.ttpassed))
    ensures Decode(g) == Answered(Rebuild(r.message, Lookup(g, ERROR), r.ttpassed, Lookup(g, STDOUT),
      Lookup(g, FAILEDCASE), Lookup(g, RESULTS)))
  {
    MessageNameReadsBack(r.message);
    ParsePrinted(r.ttpassed);
  }

  /** A completed response pushed onto any hash is read back identically exactly when the hash held
      no stale optional field that this kind of response reads. */
  lemma CompletedRoundTrip(h: Fields, r: ResponsePayload)
    requires Final(r) && r.status == Completed
    ensures Decode(h + ResultFields(r)) == Answered(r) <==> NothingStale(h, r)
  {
    PushedFields(h, r);
    DecodePushed(h + ResultFields(r), r);
    RebuildIff(h, r);
  }

  /** What a poll shows of a finished response: an error keeps its status and message but its text
      becomes a fixed one. */
  function Published(r: ResponsePayload): ResponsePayload {
    if r.status == Completed then r else INVALID_STATUS
  }

  lemma ErrorRoundTrip(h: Fields, r: ResponsePayload)
    requires Final(r) && r.status == Error
    ensures Decode(h + ResultFields(r)) == Answered(INVALID_STATUS)
    ensures INVALID_STATUS.status == r.status && INVALID_STATUS.message == r.message
    ensures Decode(h + ResultFields(r)) == Answered(r) <==> r.error == Some("Invalid status")
  {
    PushedFields(h, r);
    assert |"error"| != |"completed"| && |"error"| != |"pending"| && |"error"| != |"processing"|;
  }

  /** On the hashes the protocol produces before a push, every finished response reads back as its
      published form, and nothing of the earlier fields is left. */
  lemma PushRoundTrip(h: Fields, r: ResponsePayload)
    requires Final(r)
    requires h.Keys <= {STATUS, MESSAGE}
    ensures h + ResultFields(r) == ResultFields(r)
    ensures Decode(h + ResultFields(r)) == Answered(Published(r))
  {
    FieldNamesDiffer();
    assert h + ResultFields(r) == ResultFields(r);
    if r.status == Completed {
      assert NothingStale(h, r);
      CompletedRoundTrip(h, r);
    } else {
      ErrorRoundTrip(h, r);
    }
  }

  /** Pending and processing hashes answer that the submission is being processed, and nothing else. */
  lemma EarlyFieldsDecode()
    ensures PENDING_FIELDS == map["status" := "pending"]
    ensures PROCESSING_FIELDS == map["status" := "processing", "message" := "processing"]
    ensures Decode(PENDING_FIELDS) == Decode(PROCESSING_FIELDS) == Answered(ResponsePayload(
      status := Processing, message := ProcessingMessage, error := None, ttpassed := 0,
      stdout := None, results := None, failedcase := None))
    ensures PENDING_FIELDS.Keys <= {STATUS, MESSAGE} && PROCESSING_FIELDS.Keys <= {STATUS, MESSAGE}
  {
    FieldNamesDiffer();
    assert |"pending"| != |"completed"|;
    assert "processing"[0] != "completed"[0];
  }

  /** The answer to a hash without a status, and to one whose status or message nobody writes. */
  lemma StrangeHashes(h: Fields)
    ensures "status" !in h ==> Decode(h) == NotFound
    ensures "status" in h && h["status"] !in {"pending", "processing", "completed"} ==>
      Decode(h) == Answered(ResponsePayload(
        status := Error, message := ErrorMessage, error := Some("Invalid status"), ttpassed := 0,
        stdout := None, results := None, failedcase := None))
    ensures "status" in h && h["status"] == "completed" && ("message" !in h || h["message"] !in {"success",
      "testcasefailed", "compile_time_error", "run_time_error", "memory_limit_error", "time_limit_error"}) ==>
      Decode(h) == Answered(ResponsePayload(
        status := Error, message := ErrorMessage, error := Some("Invalid status"), ttpassed := 0,
        stdout := None, results := None, failedcase := None))
  {
    assert "processing"[0] != "completed"[0];
  }

  /** The count a success is polled with: what `ttpassed` says, and 0 when it is absent or no 32-bit number. */
  lemma CountRead(h: Fields)
    requires "status" in h && h["status"] == "completed" && "message" in h && h["message"] == "success"
    ensures Decode(h).Answered? && Decode(h).response.message == Success
    ensures "ttpassed" !in h ==> Decode(h).response.ttpassed == 0
    ensures "ttpassed" in h ==>
      Decode(h).response.ttpassed == if ParseU32(h["ttpassed"]).Some? then ParseU32(h["ttpassed"]).value else 0
  {
    var m := h["message"];
    assert ParseMessage(Some(m)) == Success;
  }

  /** The names written for statuses and messages. */
  lemma NamesWritten()
    ensures StatusName(Completed) == "completed" && StatusName(Error) == "error"
    ensures MessageName(Success) == "success" && MessageName(Testcasefailed) == "testcasefailed"
    ensures MessageName(CompileTimeError) == "compile_time_error" && MessageName(RunTimeError) == "run_time_error"
    ensures MessageName(MemoryLimitError) == "memory_limit_error" && MessageName(TimeLimitError) == "time_limit_error"
    ensures MessageName(ErrorMessage) == "error"
  {}
}
