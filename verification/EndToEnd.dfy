/** From the submission request to the polled verdict. */
module EndToEnd {
  import opened Wrappers
  import opened Decimal
  import opened Types
  import opened Grader
  import opened Sandbox
  import opened Verdict
  import opened StatusHash
  import opened Redis
  import opened Stream
  import opened Pipeline
  import opened PipelineInvariant
  import opened PipelineTheorems
  import opened PipelineRuns
  import opened PipelineProgress

  /** `run_post`: whatever mode the client asked for, the job the workers will read is a Run job. */
  method RunPost(redis: RedisStore, encode: TaskPayload -> string, id: string, request: TaskPayload)
    modifies redis
    ensures
      var payload := request.(tasktype := Run);
      && redis.Contents() == Enqueued(old(redis.Contents()), id, JobFields(id, encode(payload), payload, "run"))
      && redis.entries[old(|redis.entries|)] ==
        map["id" := Text(id), "payload" := Value.Json(encode(payload), payload), "task_type" := Text("run")]
      && ParseEntry(old(|redis.entries|), redis.entries[old(|redis.entries|)]) ==
        Some(Job(old(|redis.entries|), id, payload))
  {
    var payload := request.(tasktype := Run);
    JobFieldsParse(|redis.entries|, id, encode(payload), payload, "run");
    redis.EnqueueTask(id, encode(payload), payload, "run");
  }

  /** `test_post`: likewise for Test. */
  method TestPost(redis: RedisStore, encode: TaskPayload -> string, id: string, request: TaskPayload)
    modifies redis
    ensures
      var payload := request.(tasktype := Test);
      && redis.Contents() == Enqueued(old(redis.Contents()), id, JobFields(id, encode(payload), payload, "test"))
      && redis.entries[old(|redis.entries|)] ==
        map["id" := Text(id), "payload" := Value.Json(encode(payload), payload), "task_type" := Text("test")]
      && ParseEntry(old(|redis.entries|), redis.entries[old(|redis.entries|)]) ==
        Some(Job(old(|redis.entries|), id, payload))
  {
    var payload := request.(tasktype := Test);
    JobFieldsParse(|redis.entries|, id, encode(payload), payload, "test");
    redis.EnqueueTask(id, encode(payload), payload, "test");
  }

  /** An accepted submission keeps its entry and its job over every run. */
  lemma {:induction false} JobPersists(s: System, steps: seq<Step>, id: string)
    requires Inv(s) && Runs(s, steps) && id in s.jobs
    ensures
      var s' := After(s, steps);
      id in s'.jobs && s'.jobs[id] == s.jobs[id] && JobAt(s', s.jobs[id]) == JobAt(s, s.jobs[id])
    decreases steps
  {
    if steps != [] {
      hide StreamInv, JobsInv, QueueInv, TaskInv, HistoryInv, HashInv, PermitInv, Next, Enabled, PlaceOf, ParseEntry;
      JobEntry(s, id);
      StepOnJob(s, steps[0], id);
      PlaceAdvances(s, steps[0], s.jobs[id]);
      StepKeepsInv(s, steps[0]);
      JobPersists(Next(s, steps[0]), steps[1..], id);
    }
  }

  lemma AcceptedJob(s: System, id: string, json: string, payload: TaskPayload, taskType: string)
    requires Enabled(s, EnqueueStep(id, json, payload, taskType, true))
    ensures
      var s' := Next(s, EnqueueStep(id, json, payload, taskType, true));
      id in s'.jobs && JobAt(s', s'.jobs[id]) == Some(Job(s'.jobs[id], id, payload))
  {
    hide ParseEntry, JobFields;
    JobFieldsParse(|s.db.entries|, id, json, payload, taskType);
    WriteStatusIs(s.db, id, PENDING_FIELDS);
  }

  /** In every run, what workers find under an accepted id is the payload that was submitted. */
  lemma {:induction false} SubmittedJob(s: System, steps: seq<Step>, id: string, json: string, payload: TaskPayload,
        taskType: string)
    requires Inv(s) && Runs(s, steps) && EnqueueStep(id, json, payload, taskType, true) in steps
    ensures
      var s' := After(s, steps);
      id in s'.jobs && JobAt(s', s'.jobs[id]) == Some(Job(s'.jobs[id], id, payload))
    decreases steps
  {
    hide Inv, Next, Enabled, JobAt;
    var enqueue := EnqueueStep(id, json, payload, taskType, true);
    InFirstOrRest(steps, enqueue);
    StepKeepsInv(s, steps[0]);
    if steps[0] == enqueue {
      AcceptedJob(s, id, json, payload, taskType);
      JobPersists(Next(s, enqueue), steps[1..], id);
    } else {
      SubmittedJob(Next(s, steps[0]), steps[1..], id, json, payload, taskType);
    }
  }

  /** From the request to the poll. A submission was accepted in any run of servers and workers, and its
      execution's response is what the end of the program and its output files make of the submitted payload.
      Then polls say not found, processing, or that response as published; success is polled only if the program
      exited with 0, no out-of-memory event was seen and, in Test mode, the output was right; and for ten minutes
      after the push it is polled if and only if so. In Test mode success counts every expected line. */
  lemma PolledVerdictIsRight(steps: seq<Step>, id: string, text: string, payload: TaskPayload, mode: string,
                             json: Grader.Json, ending: Ending, wallTimeMs: nat, isOom: bool, fd3: string,
                               userOutput: string, errorOutput: string)
    requires Runs(START, steps) && EnqueueStep(id, text, payload, mode, true) in steps && IsEnding(ending)
    requires
      var s := After(START, steps);
      id in s.jobs && s.jobs[id] in s.executed &&
      Processed(json, payload, ResultOf(ending, wallTimeMs, isOom), fd3, userOutput, errorOutput,
        s.executed[s.jobs[id]])
    ensures
      var s := After(START, steps);
      var e := s.jobs[id];
      var poll := Poll(s, id);
      && JobAt(s, e) == Some(Job(e, id, payload))
      && (poll == NotFound || poll == Answered(ProcessingResponse()) || poll == Answered(Published(s.executed[e])))
      && (poll.Answered? && poll.response.message == Success ==> Deserves(payload, ending, isOom, fd3))
      && (e in s.pushed && s.db.clock <= s.pushed[e].at + 600000 ==>
            (poll.Answered? && poll.response.message == Success <==> Deserves(payload, ending, isOom, fd3)))
      && (poll.Answered? && poll.response.message == Success && payload.tasktype.Test? ==>
            poll.response == SuccessResponse(UserStdout(userOutput), None, AsU32(|Expected(payload.testcases)|)))
  {
    hide StreamInv, JobsInv, QueueInv, TaskInv, HistoryInv, HashInv, PermitInv, Next, Enabled, Decode, Runs, After;
    hide JobAt, Processed, Deserves, IsEnding;
    InitInv();
    RunKeepsInv(START, steps);
    SubmittedJob(START, steps, id, text, payload, mode);
    var s := After(START, steps);
    var e := s.jobs[id];
    PollReadsTable(s, id);
    SuccessIff(json, payload, ending, wallTimeMs, isOom, fd3, userOutput, errorOutput, s.executed[e]);
    if e in s.pushed {
      assert Runs(s, []) && After(s, []) == s by { EmptyRun(s); }
      ResultLasts(s, [], id);
      PushedIsExecuted(s, e);
    }
  }

  lemma EmptyRun(s: System)
    ensures Runs(s, []) && After(s, []) == s
  {}
}
