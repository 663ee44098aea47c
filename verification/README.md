# Verified model of IronJudge

IronJudge runs untrusted programs: an HTTP server queues submissions on a Redis stream, workers execute
them in a sandbox, grade the output and publish a status hash that clients poll; a sliding-window rate
limiter guards the server. This project models that behaviour in Dafny 4.11 and proves what it promises.
`dafny verify dfyconfig.toml` checks everything.

## The four parts

**Job pipeline.** `Redis.dfy` holds the store, both as a value (`Db`) and as a class whose methods are the
Redis calls of the program; `Stream.dfy` turns replies into jobs; `StatusHash.dfy` is the polled hash.
`Pipeline.dfy` is the protocol as a transition system: any number of servers, workers and tasks, calls that
fail after taking effect or never, panics, crashes, lost replies, foreign stream entries, time and expiry,
and XACK and XDEL as two steps. `PipelineInvariant.dfy` proves its invariant, `PipelineTheorems.dfy` that it
refines a job table, `PipelineRuns.dfy` what holds over whole runs, `PipelineVisibility.dfy` when a poll finds
something, `PipelineProgress.dfy` which jobs can still finish and why a hand-over ends. `WorkerTask.dfy` is the
worker's code on the store, tied to the machine; `EndToEnd.dfy` goes from the request to the polled verdict.

**Rate limiter.** `RateStore.dfy` is the script and its caller on expiring counters, `RateKeys.dfy` the key
text, `RateArithmetic.dfy` the estimate with and without rounding, `RateFloat.dfy` the product in double
precision. `RateLog.dfy` is a limiter that keeps every admission, with its bounds; `RateRuns.dfy` proves that
the counters refine it; `RateTheorems.dfy` carries the bounds to whole runs, `RateTightness.dfy` shows them
reached, `RateWaiting.dfy` that waiting helps, `RateLateness.dfy` what late and out-of-order scripts can do.
`RateRequests.dfy` is the limiter as requests meet it: isolation, counts and bounds by header and method.

**Grading.** `Text.dfy` has lines, trimming and the canonical form; `Grader.dfy` stdin framing, both modes
and the first-failure report; `GraderProperties.dfy` what the reports mean.

**Verdict.** `Sandbox.dfy` has limits, exit statuses, the out-of-memory scan and the pid line; `Verdict.dfy`
the classification.

## What the proofs brought to light

- The text of an error response never reaches the client: a pushed error is polled back with the text
  `Invalid status` (`StatusHash.ErrorRoundTrip`).
- A delivered entry whose worker dies, whose reply is lost, or whose task panics before its push is never
  run again: reads ask for new entries only. `PipelineProgress.CanFinishIff` says exactly which jobs can
  still finish; the others poll as processing until their hash expires (`PipelineProgress.LostJobPolls`).
  A push that failed without effect is followed by the acknowledgement all the same, and the result is lost
  for good (`WorkerTask.FailedPushLosesResult`, `PipelineRuns.ResultWrittenIff`).
- An entry that is no job is skipped by workers and then neither acknowledged nor deleted: it stays in the
  stream and on the pending list for good (`PipelineRuns.ForeignStays`).
- Run mode never marks a case with two or more expected lines as a success (`GraderProperties.RunSuccessIff`);
  Test mode succeeds on an empty list of cases.
- The soft CPU limit is rounded down to whole seconds, so SIGXCPU may come early
  (`Verdict.SoftLimitIsEarlyIff`); a program that exits with 128 + 24 or 128 + 9 is judged as if killed
  (`Verdict.TimeVerdictIff`); a failed gid map is reported as time limit (`Verdict.SetupFailureVerdict`); a
  limit near 2^64 wraps the wall deadline around (`Verdict.CutOffIsTimeIff`).
- A submission that waits or runs for more than 600 s after its last status write polls as not found, and may
  still get its result later (`PipelineVisibility.NotFoundIff`, `PipelineVisibility.WaitingJobVanishes`).
- The window bound is `2 * limit - ceil(limit / window)` for every limit and window, and it is reached. It needs
  one identity's scripts to run bucket by bucket, and nothing of their order inside a bucket or of other
  identities: of two bursts within a window, it survives if and only if the second does not come from an earlier
  bucket, and otherwise twice the limit is reached (`RateLateness.BurstsKeepBoundIff`).
- A script that runs after its bucket ended may find the previous counter gone (`RateLateness.AgreesIffPrompt`).
  As long as it runs by the end of the next bucket no bucket exceeds the limit; past that its own counter may be
  gone too, and the bucket can exceed it (`RateLateness.BucketBoundIffPunctual`).

Where the repository's own documentation differs, the code is followed: README.md:197 lists a polled
`pending` status, but a pending hash is answered as `processing`; README.md:212 says 5 s for the request
timeout, the server sets 10 s; the comments at the end of the script show an address in the keys, the keys
hold method and user id; chroot is named where the sandbox uses pivot_root.

## Model

| member | source | states |
|---|---|---|
| `PipelineInvariant.InitInv` | apps/x_ironjudge/src/main.rs:41-76 | The empty system satisfies the pipeline invariant. |
| `PipelineInvariant.StepKeepsInv` | libs/sandbox_lib/src/lib.rs:25-73 | Every step of every server, worker and task, every failed or half-done Redis call, panic, crash, foreign entry and clock tick keeps the invariant (stream, jobs, queues, tasks, history, hashes, permits). |
| `PipelineInvariant.RunKeepsInv` | apps/x_ironjudge/src/main.rs:76-115 | So does every run of any length and interleaving. |
| `Types.FinalIff` | libs/types_lib/src/lib.rs:159-257 | Field by field, the responses the constructors for finished submissions build. |
| `PipelineInvariant.JobFieldsParse` | libs/redis_lib/src/lib.rs:57-79 | An entry as servers write it is read back by workers as the job with the same id and payload. |
| `PipelineTheorems.PollReadsTable` | libs/http_lib/src/lib.rs:66-143 | A poll answers exactly what the job table says: not found, processing, or the outcome of that id's one execution, never a mixture of two results. |
| `PipelineTheorems.StepOnJob` | libs/redis_lib/src/lib.rs:98-163 | What any step can do to one accepted submission: leave its hash alone, show it as processing while it has no result, or write exactly the fields of its result, each time with a fresh 600 s expiry. |
| `PipelineTheorems.StepRefinesTable` | libs/sandbox_lib/src/lib.rs:35-65 | Every step of the whole system is a legal move of the job table for every id: accepted once, in progress, done once, and a result that vanished never returns. |
| `PipelineTheorems.RankNeverDecreases` | libs/http_lib/src/action.rs:50-63 | The last written status only goes from pending to processing to final, because enqueueing is one atomic step. |
| `PipelineRuns.PollAfterAnyRun` | libs/http_lib/src/lib.rs:66-143 | The job-table reading of polls holds after every run from the empty system. |
| `PipelineRuns.PushedStays` | libs/redis_lib/src/lib.rs:154-159 | A published result and its time are never replaced, whatever runs afterwards. |
| `PipelineRuns.ResultLasts` | libs/redis_lib/src/lib.rs:113-163 | After a push took effect, in every continuation a poll within 600 s returns exactly the published result, and every later poll finds nothing. |
| `PipelineVisibility.NotFoundIff` | libs/http_lib/src/action.rs:50-63 | After any run a poll for an id finds nothing if and only if no write to its status ever took effect or the last one was more than 600 s ago, finished or not. |
| `PipelineVisibility.VisibleAfterEnqueue` | libs/http_lib/src/action.rs:50-63 | For 600 s after an accepted submission no poll says not found, in every continuation. |
| `PipelineVisibility.WaitingJobVanishes` | libs/http_lib/src/action.rs:10 | A submission that waits longer polls as not found and can still get its result afterwards. |
| `PipelineVisibility.UnfinishedPolls` | libs/http_lib/src/lib.rs:131 | After every run, a submission whose own push has not taken effect is polled as processing, with count 0 and no result field, or not at all once its key expired; never as completed or as an error. |
| `PipelineRuns.ExecutedAtMostOnce` | apps/x_ironjudge/src/main.rs:86-108 | In every run, with any number of workers, batch sizes, crashes and restarts, no two execution steps are of the same stream entry. |
| `PipelineRuns.StartedAtMostOnce` | libs/sandbox_lib/src/lib.rs:25-35 | No entry is ever started twice, and only delivered well-formed entries are started. |
| `PipelineRuns.Conservation` | libs/redis_lib/src/lib.rs:167-186 | Every entry is in exactly one of undelivered, pending, acknowledged but present, deleted; each place has its own condition on the store. |
| `PipelineRuns.PlaceAdvances` | libs/redis_lib/src/lib.rs:175-183 | Each step moves an entry forward by at most one place and never back; the entry itself never changes. |
| `PipelineRuns.AcknowledgedAfterPush` | libs/sandbox_lib/src/lib.rs:51-63 | An acknowledged or deleted entry was started, executed, and had its push attempted. |
| `PipelineRuns.PushDecides` | libs/sandbox_lib/src/lib.rs:51-56 | Over every run an entry's push is attempted at most once, and its result is written if and only if that attempt takes effect. |
| `PipelineRuns.ResultWrittenIff` | libs/sandbox_lib/src/lib.rs:51-63 | In every run, the result of an acknowledged or deleted entry is written if and only if its own push took effect and lost if and only if that push failed; what is written is its execution's. |
| `PipelineRuns.NothingLostWhenPushesTake` | libs/sandbox_lib/src/lib.rs:51-63 | In every run in which its own push does not fail, whatever happens to others, an acknowledged or deleted entry had its own execution's result written. |
| `PipelineRuns.PermitsAndBacklog` | libs/sandbox_lib/src/lib.rs:25-72 | In every reachable state available plus held permits equal the capacity, at most that many sandboxes run per worker, and the backlog of a worker fits in its positive batch size. |
| `PipelineRuns.StartedWorkerLimits` | apps/x_ironjudge/src/main.rs:40-41 | In every run, a worker started with c permits and batches of b that has not crashed since has exactly c permits free or held, at most c sandboxes running and, for b > 0, at most b jobs waiting. |
| `PipelineRuns.ForeignStays` | libs/redis_lib/src/lib.rs:60-92 | An entry without an id or a readable payload can turn up at any time; in every continuation no submission is tied to it and no task started for it, and it is never acknowledged or deleted. |
| `PipelineProgress.LostStaysLost` | apps/x_ironjudge/src/main.rs:86-92 | A job that can no longer finish never can again: no step executes it, publishes it or touches its hash. |
| `PipelineProgress.LostForever` | apps/x_ironjudge/src/main.rs:86-92 | The same over every run. |
| `PipelineProgress.LostReplyLoses` | apps/x_ironjudge/src/main.rs:90-114 | A worker with an empty queue can always read, free permit or not, and when the reply is lost every entry it delivered is lost. |
| `PipelineProgress.CrashLoses` | libs/sandbox_lib/src/lib.rs:35-73 | A worker can die at any time and takes its waiting jobs and running tasks with it. |
| `PipelineProgress.PanicLoses` | libs/sandbox_lib/src/lib.rs:35-73 | A task can panic at any of its calls and its job is lost. |
| `PipelineProgress.LostJobPolls` | apps/x_ironjudge/src/main.rs:86-92 | A lost submission polls as processing until its hash expires and as not found ever after, whatever else the system does. |
| `PipelineProgress.FinishRun` | libs/sandbox_lib/src/lib.rs:25-73 | From every reachable state a job that can finish has a run that publishes its result, in which no task panics and no worker dies. |
| `PipelineProgress.CanFinishIff` | apps/x_ironjudge/src/main.rs:86-108 | A well-formed entry without a result can still get one if and only if it is undelivered, queued in a live worker, or its task has not pushed yet. |
| `PipelineProgress.OwnStepDecreases` | libs/sandbox_lib/src/lib.rs:25-73 | Each step of a worker's hand-over loop or tasks strictly reduces the work it has left. |
| `PipelineProgress.OtherStepKeeps` | libs/sandbox_lib/src/lib.rs:25-73 | No step of anybody else adds to that work. |
| `PipelineProgress.NeverStuck` | libs/sandbox_lib/src/lib.rs:25-30 | While jobs wait, a permit is free or one of the worker's running tasks has a call to make. |
| `PipelineProgress.HandOverBounded` | apps/x_ironjudge/src/main.rs:100-108 | Over every run the worker's own steps are bounded by the work it started with, so a hand-over whose tasks end also ends. |
| `PipelineProgress.NoWorkLeftIff` | libs/sandbox_lib/src/lib.rs:25-73 | A worker has no work left if and only if its queue is empty and no task of it is left. |
| `PipelineProgress.OverIffNothingToDo` | libs/sandbox_lib/src/lib.rs:25-73 | In every reachable state a worker can take no step of its own if and only if it has handed its batch over and its tasks have ended. |
| `PipelineProgress.HandOverEnds` | apps/x_ironjudge/src/main.rs:100-108 | In every run in which the worker neither crashes nor reads again, panics and failed calls included: its own steps are bounded by its work, it can take none if and only if its queue is empty and its tasks have ended, and then every permit is free. |
| `WorkerTask.RunTask` | libs/sandbox_lib/src/lib.rs:35-65 | The body of a detached task leaves exactly the store described by the four Redis effects in order, each taken or not. |
| `WorkerTask.TaskIsARun` | libs/sandbox_lib/src/lib.rs:35-72 | That store is the one a run of the machine reaches; nothing of it is left running, its permit is back, its execution and push attempt are on record. |
| `WorkerTask.ExecuteSubmissions` | libs/sandbox_lib/src/lib.rs:18-74 | The hand-over loop, in the schedule where each task ends before the next permit is asked for, is a run of the machine that empties the queue in order and returns every permit. |
| `WorkerTask.TurnIsARun` | libs/sandbox_lib/src/lib.rs:25-72 | One turn of that loop is a run that takes the head of the queue and leaves the permits as they were. |
| `WorkerTask.FailedPushLosesResult` | libs/sandbox_lib/src/lib.rs:51-63 | For every submission and response there is a run from the empty system in which one push fails and the entry is executed, acknowledged and deleted, never published, and can never finish again. |
| `EndToEnd.RunPost` | libs/http_lib/src/lib.rs:32-40 | Whatever mode the client asked for, the entry a run request adds is read by workers as a Run job of the same payload. |
| `EndToEnd.TestPost` | libs/http_lib/src/lib.rs:22-30 | Likewise a test request always yields a Test job. |
| `EndToEnd.SubmittedJob` | libs/http_lib/src/action.rs:50-63 | In every run, what workers find under an accepted id is the payload that was submitted under it. |
| `EndToEnd.PolledVerdictIsRight` | libs/sandbox_lib/src/processor.rs:88-182 | After any run, for a submission accepted in it whose response is what its run's end and output files make of the submitted payload: polls say not found, processing or that response as published; success only if the program exited with 0, no out-of-memory event was seen and, in Test mode, the output was right (every line counted); and for 600 s after the push exactly then. |
| `Redis.NewEntries` | apps/x_ironjudge/src/main.rs:86-92 | A `>` read delivers at most the batch size, only entries after the last delivered one. |
| `Redis.NewEntriesIff` | apps/x_ironjudge/src/main.rs:86-92 | A `>` read delivers, in stream order, exactly the undelivered entries still present with fewer than count such entries before them; with count 0, all. |
| `Redis.RedisStore.HSetExpire` | libs/redis_lib/src/lib.rs:104-109 | HSET and EXPIRE as one step: fields merged onto a live hash, or a new hash, with the expiry reset. |
| `Redis.RedisStore.EnqueueTask` | libs/http_lib/src/action.rs:50-63 | Pending status, its expiry and the stream entry appear together. |
| `Redis.RedisStore.SetProcessingStatus` | libs/redis_lib/src/lib.rs:98-111 | The two processing fields are written with a fresh expiry and nothing else changes. |
| `Redis.RedisStore.PushResult` | libs/redis_lib/src/lib.rs:113-163 | The field list built step by step is the result's field map; absent optional fields are not written. |
| `Redis.RedisStore.Scan` | apps/x_ironjudge/src/main.rs:86-92 | Walking the stream finds exactly the new entries, in order, up to the count. |
| `Redis.RedisStore.ReadGroup` | apps/x_ironjudge/src/main.rs:86-92 | What a read finds becomes delivered and pending, and nothing else changes. |
| `Redis.RedisStore.AcknowledgeStreamMessage` | libs/redis_lib/src/lib.rs:167-186 | XACK then XDEL, where the pipe may break before, between or after them. |
| `Stream.ProcessEntry` | libs/redis_lib/src/lib.rs:54-91 | One entry is turned into its job or skipped, whichever field is missing or unreadable. |
| `Stream.ProcessRedisStream` | libs/redis_lib/src/lib.rs:51-94 | The nested loops return the jobs of the reply, key by key and entry by entry. |
| `Stream.ExtractedIff` | libs/redis_lib/src/lib.rs:51-94 | A job is returned if and only if it is the job of a well-formed entry of the reply. |
| `Stream.TasksAreSaid` | libs/redis_lib/src/lib.rs:51-94 | The tasks of a whole reply, by what its fields say: an id, unreadable text counting as empty, and a payload that parses. |
| `Stream.ExtractedInOrder` | libs/redis_lib/src/lib.rs:51-94 | Jobs come out in stream order, none twice. |
| `StatusHash.StatusGet` | libs/http_lib/src/lib.rs:66-143 | Removing fields from the map while matching decides the same answer as reading the hash whole. |
| `StatusHash.MessageNameReadsBack` | libs/redis_lib/src/lib.rs:128-131 | Every message name that is written is read back as the same message. |
| `StatusHash.PushedFields` | libs/redis_lib/src/lib.rs:133-157 | Field by field, what a push onto any hash leaves: its own values, and leftovers where an optional field is absent. |
| `StatusHash.CompletedRoundTrip` | libs/http_lib/src/lib.rs:91-130 | A completed response pushed onto any hash is polled back identically if and only if no stale optional field that its message reads was there. |
| `StatusHash.ErrorRoundTrip` | libs/http_lib/src/lib.rs:139-142 | A pushed error polls back with the same status and message, and with the fixed text instead of its own; identical only if it had that text. |
| `StatusHash.PushRoundTrip` | libs/redis_lib/src/lib.rs:121-159 | On the hashes the protocol leaves before a push, every finished response polls back as published and nothing of the earlier fields shows. |
| `StatusHash.EarlyFieldsDecode` | libs/http_lib/src/lib.rs:131 | Pending and processing hashes are both answered as processing. |
| `StatusHash.StrangeHashes` | libs/http_lib/src/lib.rs:125-142 | A hash without a status is not found; an unknown status, and a completed hash whose message is none of the six final ones, is an error with the text `Invalid status` and nothing else. |
| `StatusHash.CountRead` | libs/http_lib/src/lib.rs:109-112 | A missing or unreadable count is polled as 0, any other as its number. |
| `StatusHash.NamesWritten` | libs/redis_lib/src/lib.rs:121-131 | The texts written for each status and message. |
| `Decimal.DecIsNumeral` | libs/redis_lib/src/lib.rs:136 | A printed count is digits without a leading zero whose value is the count. |
| `Decimal.ParsePrinted` | libs/http_lib/src/lib.rs:109-112 | Printing any 32-bit count and parsing it gives the count. |
| `Decimal.ParsesIff` | libs/http_lib/src/lib.rs:109-112 | What counts as a 32-bit number: one optional plus sign and digits whose value is under 2^32; nothing else. |
| `Grader.PushTrimmedLines` | libs/sandbox_lib/src/action.rs:64-69 | Appends exactly the trimmed non-empty lines, in order. |
| `Grader.TestcaseParsing` | libs/sandbox_lib/src/action.rs:55-72 | Returns the framed stdin of all cases and their canonical expected lines. |
| `Grader.NonBlankCount` | libs/sandbox_lib/src/action.rs:125-126 | Counting non-blank lines agrees with the number of canonical lines. |
| `Grader.FailedCase` | libs/sandbox_lib/src/action.rs:121-132 | The cursor walk ends at a case whose span holds the failing line; the default first case is never a fallback. |
| `Grader.ValidateTestMode` | libs/sandbox_lib/src/action.rs:105-160 | The report is the one the longest common prefix of actual and expected lines determines. |
| `Grader.ValidateTestCases` | libs/sandbox_lib/src/action.rs:74-163 | Either mode reports as specified, including success for an empty list of cases. |
| `GraderProperties.TestAcceptsExactly` | libs/sandbox_lib/src/action.rs:115-160 | Test mode succeeds if and only if the canonical output equals the expected lines, and then counts all of them. |
| `GraderProperties.LayoutIsIgnored` | libs/sandbox_lib/src/processor.rs:101-105 | Blank rows and edge whitespace around rows never change the canonical lines. |
| `GraderProperties.LayoutInsensitive` | libs/sandbox_lib/src/action.rs:105-160 | Any layout of the expected lines in order, with or without a final newline, is accepted with the full count. |
| `GraderProperties.ExpectedIsCanonical` | libs/sandbox_lib/src/action.rs:105-113 | The expected lines are the canonical lines of all outputs written one after the other. |
| `GraderProperties.OwnerUnique` | libs/sandbox_lib/src/action.rs:121-132 | At most one case owns a given expected line. |
| `GraderProperties.OwnerIsRight` | libs/sandbox_lib/src/action.rs:121-139 | The owner's own line at index minus cursor is the expected line; a case without output lines owns none. |
| `GraderProperties.MismatchReportIsRight` | libs/sandbox_lib/src/action.rs:118-143 | On a mismatch the count is the longest common prefix and the blamed case, its expected line and the actual line are the right ones. |
| `GraderProperties.SurplusReportIsRight` | libs/sandbox_lib/src/action.rs:147-158 | Surplus output is blamed on the last case, with the end-of-output marker and the first surplus line. |
| `GraderProperties.MismatchFields` | libs/sandbox_lib/src/action.rs:134-142 | The report on the first wrong line, field by field: the id and trimmed input of its case, that case's own line as expected, the line that came (or nothing) as actual, the lines before it as the count, the stdout, and no error or results. |
| `GraderProperties.SurplusFields` | libs/sandbox_lib/src/action.rs:147-158 | The report on surplus output, field by field: the last case, `EOF (no more output expected)`, the first surplus line, the full count. |
| `GraderProperties.SuccessFields` | libs/sandbox_lib/src/action.rs:160 | The report on right output, field by field. |
| `GraderProperties.RunReportFields` | libs/sandbox_lib/src/action.rs:81-99 | Run mode always reports success, with one record per case in order: its id, trimmed input and output, the line at its own index, and whether the two agree. |
| `GraderProperties.RunSuccessIff` | libs/sandbox_lib/src/action.rs:85-93 | Run mode marks a case a success if and only if its one non-blank line is line i, or it has none and there is no line i; never for two or more lines. |
| `GraderProperties.RunAndTestAgree` | libs/sandbox_lib/src/action.rs:81-160 | With one non-blank line per case, Test's count is the longest all-success prefix of Run's results, and Test succeeds if and only if all are successes and the line count matches. |
| `GraderProperties.StdinFraming` | libs/sandbox_lib/src/action.rs:55-63 | The lines of stdin are the number of cases and then every input's own lines; no line of one input runs into the next. |
| `Text.CanonicalConcat` | libs/sandbox_lib/src/processor.rs:101-105 | Canonicalisation turns newline-terminated concatenation into concatenation of lines. |
| `Text.CanonicalIdempotent` | libs/sandbox_lib/src/processor.rs:101-105 | Canonical lines written back and canonicalised again are unchanged. |
| `Text.CanonicalLinesAre` | libs/sandbox_lib/src/processor.rs:101-105 | Canonical lines are non-empty, have no edge whitespace and no newline. |
| `Text.CanonicalEmptyIff` | libs/sandbox_lib/src/processor.rs:101-105 | There are no canonical lines if and only if the text is all whitespace. |
| `Text.TrimAgainstLines` | libs/sandbox_lib/src/action.rs:90-92 | Trimming a whole output equals trimming its only non-blank line, and holds a newline when there are more. |
| `Text.WhitespaceIs` | libs/sandbox_lib/src/action.rs:65 | The code points that count as whitespace. |
| `Text.LinesAre` | libs/sandbox_lib/src/action.rs:64 | A line ends at its newline, a carriage return right before that goes with it, any other stays, and no last empty line is added. |
| `Text.TrimPad` | libs/sandbox_lib/src/action.rs:65 | Trimming removes exactly the whitespace pads around a text with tight edges. |
| `RateArithmetic.RoundedCeiling` | libs/redis_lib/src/ratelimiter.rs:20-21 | A product within 1/window of the exact one, at these very numbers, rounds up to the exact ceiling or one more, and to the exact one unless the product is whole. |
| `RateArithmetic.ExactCeiling` | apps/http_ironjudge/src/sliding_window.lua:13 | Without rounding error the script's ceiling is the integer formula. |
| `RateFloat.ProductError` | libs/redis_lib/src/ratelimiter.rs:20-21 | Rounded quotient, difference and product together are off by at most 3 * count * 2^-53. |
| `RateFloat.FloatFalls` | libs/redis_lib/src/ratelimiter.rs:20-21 | The product computed in double precision, conversions included, never rises along the bucket and lies between 0 and the count, for counts up to 2^53 and windows of 64 bits. |
| `RateFloat.FloatIsFaithful` | apps/http_ironjudge/src/sliding_window.lua:13 | In double precision the product is within 1/window of the exact one whenever 3 * count * window < 2^53. |
| `RateKeys.KeysAreInjective` | libs/http_lib/src/middleware.rs:47 | Different (method, user, bucket) triples never share a key, whatever the user string contains. |
| `RateStore.PastFirstBucket` | libs/redis_lib/src/ratelimiter.rs:17-18 | From the second window on, the previous bucket number does not underflow. |
| `RateStore.CounterStore.Get` | apps/http_ironjudge/src/sliding_window.lua:10-11 | A missing or expired counter reads as 0. |
| `RateStore.CounterStore.IncrKey` | apps/http_ironjudge/src/sliding_window.lua:19 | INCR keeps a live key's expiry and starts a missing or expired one at 1 without expiry. |
| `RateStore.CounterStore.ExpireKey` | apps/http_ironjudge/src/sliding_window.lua:22 | EXPIRE sets the expiry of a live key only. |
| `RateStore.CounterStore.SlidingWindow` | apps/http_ironjudge/src/sliding_window.lua:4-25 | The script as one atomic step on the counters, with its answer. |
| `RateStore.CounterStore.CheckSlidingWindow` | libs/redis_lib/src/ratelimiter.rs:4-37 | Buckets, weight, keys and expiry handed to the script are those of the sampled time and the method's window. |
| `RateStore.CounterStore.RateLimitMiddleware` | libs/http_lib/src/middleware.rs:23-85 | The counters and the outcome of one request on any counters, whose meaning the next rows state. |
| `RateRequests.OnlyAdmittedPass` | libs/http_lib/src/middleware.rs:33-84 | Only a request with a header, a connection and a script that ran can be forwarded; the outcome of each failure; a request that is not forwarded leaves the counters alone. |
| `RateRequests.UnreadableIsUnknown` | libs/http_lib/src/middleware.rs:34 | A header of unreadable bytes is counted as that of the user `unknown`. |
| `RateRequests.RequestsAreIsolated` | libs/http_lib/src/middleware.rs:33-47 | Whatever request comes first, one of another method or another user gets the answer it would have got without it, on any counters. |
| `RateRequests.ForwardedCounts` | apps/http_ironjudge/src/sliding_window.lua:19-23 | As deployed: what a forwarded request leaves in the counters, down to an expiry of 10 s for POST and 20 s for the rest. |
| `RateRequests.CountersExpire` | apps/http_ironjudge/src/sliding_window.lua:19-23 | After every run each counter is positive and expires two windows after the script of the forwarded request that opened it; none is without expiry. |
| `RateRequests.ServeIsStoreRun` | libs/http_lib/src/middleware.rs:60-70 | The middleware on any prompt requests, failing ones among them, is the limiter on the calls that reach the script, and forwards what the limiter's log counts. |
| `RateRequests.RequestWindowBound` | libs/http_lib/src/middleware.rs:60-84 | Over every run of prompt requests: at most `2 * limit - ceil(limit / window)` of one method and user are forwarded in any closed window. |
| `RateRequests.ConfiguredRequestBounds` | apps/http_ironjudge/src/main.rs:56-61 | As deployed, for request headers: one submission of a user in any 5 s, 19 other requests of one method in any 10 s. |
| `RateRequests.FreshBucketIff` | apps/http_ironjudge/src/sliding_window.lua:10-17 | After a bucket without forwarded requests of a user and method, the next one is forwarded if and only if fewer than the limit were in this bucket, whatever others did. |
| `RateRequests.ConfiguredFreshBucket` | libs/http_lib/src/middleware.rs:40-45 | As deployed: then a second submission in the same 5 s bucket is refused, and of any other method the first ten in a 10 s bucket are forwarded and no more. |
| `RateRequests.TenThenRefused` | apps/http_ironjudge/src/main.rs:56-61 | As deployed: of eleven like reads of a new user in one bucket exactly the first ten are forwarded. |
| `RateLog.AdmissionBound` | apps/http_ironjudge/src/sliding_window.lua:13-19 | After an admission at offset r: previous + current <= limit + floor(previous * r / window). |
| `RateLog.BucketBound` | apps/http_ironjudge/src/sliding_window.lua:13-19 | In a log whose admissions come in bucket order, a bucket and the rounded-up window-th part of the bucket before it never exceed the limit together. |
| `RateLog.WindowBound` | apps/http_ironjudge/src/sliding_window.lua:13-19 | Any closed interval one window long holds at most 2 * limit - ceil(limit / window) admissions of an identity (2 * limit - 1 while the limit fits in the window). |
| `RateLog.SharesBound` | apps/http_ironjudge/src/sliding_window.lua:13-19 | For every limit and window, any k consecutive buckets hold at most what filling each in turn gives. |
| `RateLog.LongRunBound` | apps/http_ironjudge/src/sliding_window.lua:13-19 | Any k consecutive buckets hold at most k * (limit - 1) + 1 admissions, or ceil(k / 2) when the limit is 1. |
| `RateLog.MinimumGap` | apps/http_ironjudge/src/main.rs:56-61 | With limit 1 any two admissions of an identity are more than a window apart. |
| `RateRuns.OwnCounterExact` | apps/http_ironjudge/src/sliding_window.lua:10 | A script that runs by the end of the next bucket reads the exact number of logged admissions in its own bucket. |
| `RateRuns.PreviousCounterExact` | apps/http_ironjudge/src/sliding_window.lua:11 | A script that runs before its bucket ends also reads the exact number of the bucket before. |
| `RateRuns.SameDecision` | libs/redis_lib/src/ratelimiter.rs:11-37 | Such a script decides as a limiter that never forgets. |
| `RateRuns.ScriptKeepsTracking` | apps/http_ironjudge/src/sliding_window.lua:19-23 | Each script that runs by the end of the next bucket keeps every key of every identity equal to its bucket's admissions, living to the end of the next bucket. |
| `RateRuns.DenialChangesNothing` | apps/http_ironjudge/src/sliding_window.lua:15-17 | A denied request leaves the counters as they were. |
| `RateRuns.CountersTrackLog` | apps/http_ironjudge/src/sliding_window.lua:10-23 | So do all runs of such scripts, in any order, for all identities in one store. |
| `RateRuns.CountersRefineLog` | libs/redis_lib/src/ratelimiter.rs:17-26 | Over every run in which scripts run before their bucket ends, in any order, log and decisions equal those of the never-forgetting limiter. |
| `RateRuns.LateBucketBound` | apps/http_ironjudge/src/sliding_window.lua:10-23 | With scripts that run by the end of the next bucket, in any order across servers, no bucket ever totals more than the limit; of the product only that it does not round up to a negative number at the counts it meets. |
| `RateTheorems.RoundingOnlyTightens` | apps/http_ironjudge/src/sliding_window.lua:13 | Whatever a product faithful at counts up to the limit admits, exact arithmetic admits. |
| `RateTheorems.LogRunIsAdmitted` | apps/http_ironjudge/src/sliding_window.lua:10-25 | The log of every run in which an identity's scripts come in bucket order, whatever other identities do, keeps the exact limiter's rule for it, for every product faithful at counts up to the limit. |
| `RateTheorems.RunBounds` | apps/http_ironjudge/src/sliding_window.lua:10-25 | Window bound, both long-run bounds and minimum gap hold for an identity in every run of prompt scripts on the expiring counters in which its own come in bucket order, for every product faithful at counts up to the limit. |
| `RateTheorems.DoubleIsFaithful` | libs/redis_lib/src/ratelimiter.rs:20-21 | The product computed in double precision is such a product, and never negative, whenever 3 * limit * window < 2^53. |
| `RateTheorems.ConfiguredBounds` | apps/http_ironjudge/src/main.rs:56-61 | As deployed, with the product in double precision, for a user whose prompt scripts come in bucket order: submissions more than 5 s apart, at most 19 other requests of one method in any 10 s. |
| `RateTheorems.AdmittedLogsAreRuns` | apps/http_ironjudge/src/sliding_window.lua:10-25 | Conversely every log that keeps the rule for all identities is the log of a run of prompt scripts in bucket order. |
| `RateTightness.WindowBoundReached` | apps/http_ironjudge/src/sliding_window.lua:13-19 | For every limit and window a run of prompt scripts in the order of their times reaches the window bound. |
| `RateTightness.LongRunReached` | apps/http_ironjudge/src/sliding_window.lua:13-19 | For every limit, window and k such a run reaches the bound of filling each bucket in turn; when the limit fits in the window that is k * (limit - 1) + 1, or ceil(k / 2) for limit 1. |
| `RateLateness.LateWindowBound` | apps/http_ironjudge/src/sliding_window.lua:10-23 | With scripts that run by the end of the next bucket, in any order, a window holds at most twice the limit. |
| `RateLateness.OutOfOrderReachesTwoLimits` | apps/http_ironjudge/src/sliding_window.lua:10-23 | For any two prompt scripts of an identity within a window of each other, a burst like the one of the later bucket and then one like the other put twice the limit in one window. |
| `RateLateness.BurstsKeepBoundIff` | apps/http_ironjudge/src/sliding_window.lua:10-23 | Two such bursts keep the window bound if and only if the second does not come from an earlier bucket than the first. |
| `RateLateness.BucketBoundIffPunctual` | libs/redis_lib/src/ratelimiter.rs:26 | At every limit: after a burst of the whole limit at a bucket's start, one more script leaves the bucket within the limit if and only if it runs by the end of the next bucket. |
| `RateLateness.WindowLateIsPunctual` | libs/redis_lib/src/ratelimiter.rs:26 | A script that runs at most one window after its clock reading runs by then. |
| `RateWaiting.RateFalls` | apps/http_ironjudge/src/sliding_window.lua:13 | While an identity is not admitted its estimate never rises, across bucket boundaries too, and is 0 two boundaries on, for every product that keeps order at counts up to the limit. |
| `RateWaiting.DoubleIsMonotone` | libs/redis_lib/src/ratelimiter.rs:20-21 | The product computed in double precision keeps order, for limits up to 2^53 and windows of 64 bits. |
| `RateWaiting.StaysAdmissible` | apps/http_ironjudge/src/sliding_window.lua:13-25 | With prompt scripts in any order, a caller who would be admitted stays so until its next admission, whatever denied calls of its own and calls of others come between. |
| `RateWaiting.IdleIsAdmitted` | apps/http_ironjudge/src/sliding_window.lua:13-25 | With prompt scripts in any order, a caller idle past two bucket boundaries is admitted. |
| `RateLateness.AgreesIffPrompt` | libs/redis_lib/src/ratelimiter.rs:17-26 | At every limit: after one admission at the start of the bucket before and the rest of the limit in its own, counters and log agree on a script if and only if it runs before its bucket ends. |
| `Sandbox.ScanMemoryEvents` | libs/sandbox_lib/src/sandbox.rs:474-491 | The flag is set if and only if some line reports a positive 32-bit `oom` or `oom_kill` count. |
| `Sandbox.OomFlagIsRight` | libs/sandbox_lib/src/sandbox.rs:474-491 | On a kernel file of any counters the flag is set if and only if the `oom` or `oom_kill` counter is positive and fits in 32 bits. |
| `Sandbox.ThirdWordIgnored` | libs/sandbox_lib/src/sandbox.rs:480-488 | A line of three or more words never reports an out-of-memory event. |
| `Sandbox.EnforcedLimits` | libs/sandbox_lib/src/processor.rs:67 | One second of CPU time, two at most, and two of wall time for limits under a second; the limit rounded down, a second more, and the limit plus a second for the others. |
| `Sandbox.FormatPid` | libs/sandbox_lib/src/sandbox.rs:209-226 | The two digit loops stay inside their 32-byte buffers and leave the pid's text and a newline, for every 32-bit input. |
| `Sandbox.PidTextIsNumeral` | libs/sandbox_lib/src/sandbox.rs:209-226 | For every positive pid that text is its decimal numeral without leading zeros. |
| `Verdict.ProcessResult` | libs/sandbox_lib/src/processor.rs:88-182 | A run gets its ungraded verdict, or the report on its canonical output; either way a response the constructors can build. |
| `Verdict.ReportIsFinal` | libs/sandbox_lib/src/action.rs:98-160 | Grading only ever reports finished responses. |
| `Verdict.SignalSurvives` | libs/sandbox_lib/src/sandbox.rs:261-269 | The effective signal is s if and only if s killed the inner process, the outer one, or was the cut-off's, or the exit code was 128 + s. |
| `Verdict.GradedIff` | libs/sandbox_lib/src/processor.rs:131-180 | Output is graded if and only if the program exited with 0 and no out-of-memory event was seen. |
| `Verdict.SuccessIff` | libs/sandbox_lib/src/processor.rs:131-180 | A run is reported as success if and only if it exited with 0 without an out-of-memory event and, in Test mode with cases, printed the right lines; Test success counts every expected line. |
| `Verdict.VerdictFields` | libs/sandbox_lib/src/processor.rs:131-176 | Every verdict that is not graded carries the run's stdout, no passed test, no results and no failed case, and the memory and time verdicts their fixed texts. |
| `Verdict.MemoryVerdictIff` | libs/sandbox_lib/src/processor.rs:131-158 | Over every way a run can end: the memory verdict if and only if an out-of-memory event was seen or signal 9 came before the submitted limit. |
| `Verdict.RuntimeVerdictIff` | libs/sandbox_lib/src/processor.rs:159-176 | A runtime error if and only if the run is neither graded, nor out of memory, nor ended by signal 9 or 24. |
| `Verdict.SignalText` | libs/sandbox_lib/src/processor.rs:134-166 | The texts for signals 6, 8, 11 and 31 and for every other one, followed by a non-empty stderr. |
| `Verdict.ExitCodeText` | libs/sandbox_lib/src/processor.rs:168-175 | The text for every exit code up to 128, followed by a non-empty stderr; a status that is neither an exit nor a signal counts as code 1. |
| `Verdict.ProcessedStdout` | libs/sandbox_lib/src/processor.rs:110-114 | Every response to a run carries its stdout as it is, unless that is all whitespace. |
| `Verdict.TimeVerdictIff` | libs/sandbox_lib/src/processor.rs:131-170 | Exactly which ends of a run, at which wall times, are reported as time limit. |
| `Verdict.SetupFailureVerdict` | libs/sandbox_lib/src/sandbox.rs:230-256 | Every failed setup step is reported as a runtime error, except the gid map (code 152), which is reported as time limit. |
| `Verdict.LimitsAreOrdered` | libs/sandbox_lib/src/sandbox.rs:403-406 | Submitted limit, then hard CPU limit, then wall deadline, for every limit without overflow. |
| `Verdict.OverTimeRuns` | libs/sandbox_lib/src/processor.rs:131-158 | A run cut off at the deadline, killed at the hard CPU limit or by SIGXCPU is reported as time limit, or memory limit when an event was seen; in the first two the wall time is at least the submitted limit. |
| `Verdict.CutOffIsTimeIff` | libs/sandbox_lib/src/sandbox.rs:440-471 | Every cut-off run is reported as time limit if and only if the deadline does not wrap around 64 bits. |
| `Verdict.SoftLimitIsEarlyIff` | libs/sandbox_lib/src/sandbox.rs:194 | SIGXCPU can come before the submitted limit is used up if and only if that limit is over a second and not a whole number of seconds. |

## Left out

- Assumed of Redis: one atomic store with one clock, no persistence loss or failover; a key is gone once the
  clock is past its expiry; a failed call either took effect before it returned or never does. The consumer
  group exists and its entries are those added after its creation.
- Assumed of ids: submission ids are fresh (version 7 UUIDs, section 5.7 of RFC 9562); only servers add
  well-formed entries to the stream, anything else found there is malformed. UUID syntax is not modelled.
- Names: hash keys drop the constant `status:` prefix and stream entries are numbered by position; the one
  stream and group of a deployment have no name.
- JSON: texts are opaque. A stored payload text carries the payload it parses to; the JSON of results and of
  the failed case is any function of the records. A method name of a request has no colon, being a token
  (section 5.6.2 of RFC 9110).
- Execution: the compiler, the sandboxed program and the kernel are any finished response, or any end of the
  run, wall time and output in the verdict part. Namespaces, mounts, cgroup writes, seccomp, the language
  table, temporary directories, the cgroup guard and the 512 KB bound on what is read of stdout and stderr
  are not modelled. Internal sandbox errors appear as the error response they become.
- HTTP: routing, body limits, the request timeout, tracing, environment, pools and shutdown are not modelled; of
  the middleware, its order of checks and its outcomes are.
- Text: characters are Unicode scalar values up to the range of Dafny's `char`; reading the output file as
  UTF-8 is not modelled, and neither is the empty text substituted when it fails.
- Clock skew between servers is not modelled; a run of the limiter starts from an empty store.
- WorkerTask.ExecuteSubmissions: one sequential schedule of the concurrent loop; every other interleaving is
  covered by the transition system, not by this method.
- WorkerTask.RunTask: the execution itself is a parameter, and a failed call is one that did not take effect
  or one whose logged error is ignored.
- RateFloat.FloatIsFaithful: of double precision it uses that rounding keeps order up to 2^64, keeps whole numbers
  up to 2^53 and errs there by at most 2^-53, relative or absolute below 1; bit patterns, infinities, counts above
  2^53 and the decimal text in which the weight travels to the script are not modelled.
- RateTheorems.DoubleIsFaithful: beyond 3 * limit * window = 2^53 nothing is claimed of double precision.
- RateStore.CounterStore.RateLimitMiddleware: a clock before the second window, where the previous bucket
  number would underflow, is excluded.
- PipelineProgress.HandOverEnds: that running programs end and a worker's enabled steps are taken at some time
  is not modelled.
- Verdict.CutOffIsTimeIff: the sum wraps around as in a build without overflow checks; with them it panics.
