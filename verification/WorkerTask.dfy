/** The worker's code on the store itself: one detached task, and the loop that hands a batch over. */
module WorkerTask {
  import opened Types
  import opened StatusHash
  import opened Redis
  import opened Stream
  import opened Pipeline
  import opened PipelineInvariant
  import opened PipelineRuns
  import opened PipelineProgress

  /** Which of a task's Redis commands take effect; an error may be reported either way and is only logged. */
  datatype Took = Took(processing: bool, push: bool, ack: bool, del: bool)

  /** The machine's steps for one task that runs to its end. */
  function TaskSteps(e: nat, response: ResponsePayload, took: Took): seq<Step> {
    [SetProcessingStep(e, took.processing)] + ([ExecuteStep(e, response)] +
      ([PushStep(e, took.push)] + AckSteps(e, took)))
  }

  function AckSteps(e: nat, took: Took): seq<Step> {
    if took.ack then [AckStep(e, true)] + ([DeleteStep(e, took.del)] + [FinishStep(e)])
    else [AckStep(e, false)] + [FinishStep(e)]
  }

  /** What one task does to the store. */
  function TaskEffect(db: Db, e: nat, id: string, response: ResponsePayload, took: Took): Db {
    var shown := if took.processing then WriteStatus(db, id, PROCESSING_FIELDS) else db;
    var pushed := if took.push then WriteStatus(shown, id, ResultFields(response)) else shown;
    var acked := if took.ack then XAck(pushed, e) else pushed;
    if took.ack && took.del then XDel(acked, e) else acked
  }

  /** The body of a detached task, on the store. */
  method RunTask(redis: RedisStore, entry: nat, submissionId: string, response: ResponsePayload, took: Took)
    modifies redis`hashes, redis`pel, redis`present
    ensures redis.Contents() == TaskEffect(old(redis.Contents()), entry, submissionId, response, took)
  {
    if took.processing {
      redis.SetProcessingStatus(submissionId);
    }
    if took.push {
      redis.PushResult(submissionId, response);
    }
    redis.AcknowledgeStreamMessage(entry, took.ack, took.ack && took.del);
  }

  /** The machine's state after a task's last two or three steps, and after all of them. */
  function Closed(s: System, e: nat, took: Took): System
    requires e in s.tasks
  {
    if took.ack then Drop(DeleteEntry(Acknowledge(s, e, true), e, took.del), e) else Drop(Acknowledge(s, e, false), e)
  }

  function UntilAck(s: System, e: nat, response: ResponsePayload, took: Took): (s': System)
    requires e in s.tasks
    ensures e in s'.tasks
  {
    PushResponse(Executed(ShowProcessing(s, e, took.processing), e, response), e, response, took.push)
  }

  function Served(s: System, e: nat, response: ResponsePayload, took: Took): System
    requires e in s.tasks
  {
    Closed(UntilAck(s, e, response, took), e, took)
  }

  lemma AckIsARun(s: System, e: nat, took: Took)
    requires At(s, e, Ack)
    ensures Runs(s, AckSteps(e, took)) && After(s, AckSteps(e, took)) == Closed(s, e, took)
  {
    hide XAck, XDel, Runs, After, Drop;
    var s1 := Next(s, AckStep(e, took.ack));
    if took.ack {
      var s2 := Next(s1, DeleteStep(e, took.del));
      OneStep(s2, FinishStep(e));
      RunCons(s1, DeleteStep(e, took.del), [FinishStep(e)]);
      RunCons(s, AckStep(e, true), [DeleteStep(e, took.del)] + [FinishStep(e)]);
    } else {
      OneStep(s1, FinishStep(e));
      RunCons(s, AckStep(e, false), [FinishStep(e)]);
    }
  }

  lemma StepsAreARun(s: System, e: nat, response: ResponsePayload, took: Took)
    requires At(s, e, SetProcessing) && Final(response)
    ensures Runs(s, TaskSteps(e, response, took)) && After(s, TaskSteps(e, response, took)) ==
      Served(s, e, response, took)
  {
    hide WriteStatus, Runs, After, Final, Closed, AckSteps, ResultFields;
    var s1 := Next(s, SetProcessingStep(e, took.processing));
    var s2 := Next(s1, ExecuteStep(e, response));
    var s3 := Next(s2, PushStep(e, took.push));
    AckIsARun(s3, e, took);
    RunCons(s2, PushStep(e, took.push), AckSteps(e, took));
    RunCons(s1, ExecuteStep(e, response), [PushStep(e, took.push)] + AckSteps(e, took));
    RunCons(s, SetProcessingStep(e, took.processing), [ExecuteStep(e, response)] +
      ([PushStep(e, took.push)] + AckSteps(e, took)));
  }

  lemma DropForgetsPc(s: System, e: nat, pc: Pc, db: Db)
    requires e in s.tasks
    ensures Drop(Goto(s, e, pc).(db := db), e) == Drop(s, e).(db := db)
    ensures Drop(Goto(s, e, pc), e) == Drop(s, e).(db := s.db)
  {
    assert Goto(s, e, pc).tasks - {e} == s.tasks - {e};
  }

  lemma GotoTwice(s: System, e: nat, pc: Pc, pc': Pc, db: Db)
    requires e in s.tasks
    ensures Goto(Goto(s, e, pc).(db := db), e, pc') == Goto(s, e, pc').(db := db)
  {
    assert Goto(s, e, pc).tasks[e := s.tasks[e].(pc := pc')] == s.tasks[e := s.tasks[e].(pc := pc')];
  }

  /** Closing a task takes it out, gives its permit back and settles the stream. */
  lemma ClosedIs(s: System, e: nat, took: Took)
    requires e in s.tasks
    ensures
      var acked := if took.ack then XAck(s.db, e) else s.db;
      Closed(s, e, took) == Drop(s, e).(db := if took.ack && took.del then XDel(acked, e) else acked)
  {
    hide XAck, XDel, Drop, Goto;
    if took.ack {
      var acked := XAck(s.db, e);
      GotoTwice(s, e, Delete, Finish, acked);
      DropForgetsPc(s, e, Finish, acked);
      DropForgetsPc(s, e, Finish, XDel(acked, e));
    } else {
      DropForgetsPc(s, e, Finish, s.db);
    }
  }

  /** The history of a task that is about to be acknowledged. */
  lemma PushedIs(s: System, e: nat, response: ResponsePayload, took: Took)
    requires e in s.tasks
    ensures
      var shown := if took.processing then WriteStatus(s.db, s.tasks[e].job.id, PROCESSING_FIELDS) else s.db;
      var s3 := UntilAck(s, e, response, took);
      && s3.db == (if took.push then WriteStatus(shown, s.tasks[e].job.id, ResultFields(response)) else shown)
      && s3.tasks == s.tasks[e := s.tasks[e].(pc := Ack)] && s3.workers == s.workers
      && s3.jobs == s.jobs && s3.executed == s.executed[e := response] && s3.started == s.started
        && s3.attempted == s.attempted + {e}
      && (if took.push then e in s3.pushed && s3.pushed[e].response == response else s3.pushed == s.pushed)
  {
    hide WriteStatus, ResultFields;
  }

  lemma DropFields(s: System, s3: System, e: nat)
    requires e in s.tasks && s3.tasks == s.tasks[e := s.tasks[e].(pc := Ack)] && s3.workers == s.workers
    ensures
      var s' := Drop(s3, e);
      && s'.tasks == s.tasks - {e} && s'.workers == Drop(s, e).workers
      && s'.jobs == s3.jobs && s'.executed == s3.executed && s'.started == s3.started && s'.attempted == s3.attempted
        && s'.pushed == s3.pushed
  {
    assert s3.tasks - {e} == s.tasks - {e};
  }

  /** The same task in the machine: the steps can be taken, they leave the store the method leaves, and
      no task is left, its permit is back and its one execution is on record. */
  lemma TaskIsARun(s: System, e: nat, response: ResponsePayload, took: Took)
    requires At(s, e, SetProcessing) && Final(response)
    ensures Runs(s, TaskSteps(e, response, took))
    ensures
      var s' := After(s, TaskSteps(e, response, took));
      && s'.db == TaskEffect(s.db, e, s.tasks[e].job.id, response, took)
      && s'.tasks == s.tasks - {e} && s'.workers == Drop(s, e).workers
      && s'.jobs == s.jobs && s'.executed == s.executed[e := response] && s'.started == s.started
      && s'.attempted == s.attempted + {e}
      && (if took.push then e in s'.pushed && s'.pushed[e].response == response else s'.pushed == s.pushed)
  {
    hide WriteStatus, XAck, XDel, Final, Runs, After, Closed, ResultFields, UntilAck, TaskSteps, Drop;
    StepsAreARun(s, e, response, took);
    PushedIs(s, e, response, took);
    var s3 := UntilAck(s, e, response, took);
    ClosedIs(s3, e, took);
    DropFields(s, s3, e);
  }

  /** What running a job gives and which of its commands take effect. */
  datatype Turn = Turn(response: ResponsePayload, took: Took)

  /** `execute_submissions_detached` in the schedule where each task ends before the next permit is
      asked for. `s` is the machine's state when the batch has just been read by worker `w`: the loop leaves
      the store of a run of the machine that empties the queue and gives every permit back. */
  method ExecuteSubmissions(redis: RedisStore, tasks: seq<Job>, permits: nat, turns: seq<Turn>, ghost s: System,
        ghost w: nat)
    returns (available: nat, ghost steps: seq<Step>)
    requires permits > 0 && |turns| == |tasks| && forall i :: 0 <= i < |turns| ==> Final(turns[i].response)
    requires redis.Contents() == s.db && w in s.workers && s.workers[w].queue == tasks
      && s.workers[w].available == permits
    modifies redis`hashes, redis`pel, redis`present
    ensures available == permits
    ensures Runs(s, steps)
    ensures
      var s' := After(s, steps);
      && s'.db == redis.Contents()
      && w in s'.workers && s'.workers[w].queue == [] && s'.workers[w].available == permits
      && s'.started == s.started + Entries(tasks)
  {
    available := permits;
    steps := [];
    ghost var now := s;
    for i := 0 to |tasks|
      invariant available == permits
      invariant Runs(s, steps) && After(s, steps) == now && redis.Contents() == now.db
      invariant w in now.workers && now.workers[w].queue == tasks[i..] && now.workers[w].available == permits
      invariant now.started == s.started + Entries(tasks[..i])
    {
      available := available - 1;
      RunTask(redis, tasks[i].entry, tasks[i].id, turns[i].response, turns[i].took);
      available := available + 1;
      ghost var turn := TurnSteps(now, w, turns[i]);
      TurnIsARun(now, w, turns[i]);
      RunAppend(s, steps, turn);
      steps := steps + turn;
      now := After(now, turn);
      EntriesPrefix(tasks, i);
      assert tasks[i..][1..] == tasks[i + 1..];
    }
    assert tasks[..|tasks|] == tasks;
  }

  function Entries(jobs: seq<Job>): seq<nat> {
    if jobs == [] then [] else Entries(jobs[..|jobs| - 1]) + [jobs[|jobs| - 1].entry]
  }

  lemma EntriesPrefix(jobs: seq<Job>, i: nat)
    requires i < |jobs|
    ensures Entries(jobs[..i + 1]) == Entries(jobs[..i]) + [jobs[i].entry]
  {
    assert jobs[..i + 1][..i] == jobs[..i];
  }

  /** A permit, a task start, and that task run to its end. */
  function TurnSteps(s: System, w: nat, turn: Turn): seq<Step>
    requires w in s.workers && s.workers[w].queue != []
  {
    [SpawnStep(w)] + TaskSteps(s.workers[w].queue[0].entry, turn.response, turn.took)
  }

  lemma TurnIsARun(s: System, w: nat, turn: Turn)
    requires w in s.workers && s.workers[w].queue != [] && s.workers[w].available > 0 && Final(turn.response)
    ensures Runs(s, TurnSteps(s, w, turn))
    ensures
      var s' := After(s, TurnSteps(s, w, turn));
      var job := s.workers[w].queue[0];
      && s'.db == TaskEffect(s.db, job.entry, job.id, turn.response, turn.took)
      && w in s'.workers && s'.workers[w] == s.workers[w].(queue := s.workers[w].queue[1..])
      && s'.started == s.started + [job.entry]
  {
    hide TaskEffect, TaskSteps, Final;
    var e := s.workers[w].queue[0].entry;
    var s1 := Next(s, SpawnStep(w));
    TaskIsARun(s1, e, turn.response, turn.took);
    RunCons(s, SpawnStep(w), TaskSteps(e, turn.response, turn.took));
  }

  // ------------------------------------------------------------------ a lost result

  /** A server accepts a submission, a new worker reads it and starts it. */
  function ReachTask(id: string, json: string, payload: TaskPayload, taskType: string): seq<Step> {
    [EnqueueStep(id, json, payload, taskType, true)] + ([StartWorkerStep(0, 1, 0)] +
      ([ReadStep(0, true)] + [SpawnStep(0)]))
  }

  lemma TaskIsReached(id: string, json: string, payload: TaskPayload, taskType: string)
    ensures
      var steps := ReachTask(id, json, payload, taskType);
      && Runs(START, steps) && At(After(START, steps), 0, SetProcessing)
      && id in After(START, steps).jobs && After(START, steps).jobs[id] == 0
  {
    hide Inv, Next, Enabled, Runs, After;
    var enqueue, start, read, spawn := EnqueueStep(id, json, payload, taskType, true), StartWorkerStep(0, 1, 0),
      ReadStep(0, true), SpawnStep(0);
    InitInv();
    FirstSubmission(id, json, payload, taskType);
    var s1 := Next(START, enqueue);
    StepKeepsInv(START, enqueue);
    var i := NewWorkerReads(s1, 0, 0);
    var s2 := Next(s1, start);
    StepKeepsInv(s1, start);
    var s3 := Next(s2, read);
    StepKeepsInv(s2, read);
    OnlyJobStarts(s1, i);
    OneStep(s3, spawn);
    RunCons(s2, read, [spawn]);
    RunCons(s1, start, [read] + [spawn]);
    RunCons(START, enqueue, [start] + ([read] + [spawn]));
  }

  /** With one entry in the stream, the job that starts is that entry's. */
  lemma OnlyJobStarts(s: System, i: nat)
    requires |s.db.entries| == 1 && Enabled(s, StartWorkerStep(0, 1, 0))
      && Enabled(Next(s, StartWorkerStep(0, 1, 0)), ReadStep(0, true))
    requires
      var s' := Next(Next(s, StartWorkerStep(0, 1, 0)), ReadStep(0, true));
      Inv(s') && 0 in s'.workers && i < |s'.workers[0].queue|
    ensures
      var s' := Next(Next(s, StartWorkerStep(0, 1, 0)), ReadStep(0, true));
      && Enabled(s', SpawnStep(0)) && At(Next(s', SpawnStep(0)), 0, SetProcessing)
      && Next(s', SpawnStep(0)).jobs == s.jobs
  {
    hide StreamInv, JobsInv, QueueInv, TaskInv, HistoryInv, HashInv, PermitInv, ExtractIds, NewEntries;
    var s' := Next(Next(s, StartWorkerStep(0, 1, 0)), ReadStep(0, true));
    Bounds(s');
    QueueHead(s', 0);
  }

  /** One push that fails without effect is enough: the entry is acknowledged and deleted all the same, its
      result is never written, and nothing can bring it back. */
  lemma FailedPushLosesResult(id: string, json: string, payload: TaskPayload, taskType: string,
        response: ResponsePayload)
    requires Final(response)
    ensures
      var steps := ReachTask(id, json, payload, taskType) + TaskSteps(0, response, Took(true, false, true, true));
      && Runs(START, steps)
      && var s := After(START, steps);
      && id in s.jobs && s.jobs[id] == 0 && 0 < |s.db.entries| && PlaceOf(s, 0).Deleted?
      && 0 in s.executed && s.executed[0] == response && 0 !in s.pushed && !CanFinish(s, 0)
  {
    hide Inv, Next, Enabled, Runs, After, ReachTask, TaskSteps, TaskEffect, PlaceOf, CanFinish, Final;
    var reach, took := ReachTask(id, json, payload, taskType), Took(true, false, true, true);
    TaskIsReached(id, json, payload, taskType);
    InitInv();
    var s := After(START, reach);
    RunKeepsInv(START, reach);
    TaskIsARun(s, 0, response, took);
    RunAppend(START, reach, TaskSteps(0, response, took));
    var s' := After(START, reach + TaskSteps(0, response, took));
    RunKeepsInv(START, reach + TaskSteps(0, response, took));
    DeletedAndDone(s, s', response, took);
  }

  lemma DeletedAndDone(s: System, s': System, response: ResponsePayload, took: Took)
    requires Inv(s) && Inv(s') && At(s, 0, SetProcessing) && took == Took(true, false, true, true)
    requires s'.db == TaskEffect(s.db, 0, s.tasks[0].job.id, response, took) && s'.tasks == s.tasks - {0}
    requires s'.executed == s.executed[0 := response] && s'.pushed == s.pushed
    ensures 0 < |s'.db.entries| && PlaceOf(s', 0).Deleted? && 0 !in s'.pushed && !CanFinish(s', 0)
  {
    hide StreamInv, JobsInv, TaskInv, HashInv, PermitInv;
    Stand(s, 0);
    WriteStatusIs(s.db, s.tasks[0].job.id, PROCESSING_FIELDS);
    ExecutedFirst(s);
  }
}
