/** When a submission can be seen: a status lives 600 seconds from its last write, finished or not. */
module PipelineVisibility {
  import opened Wrappers
  import opened Types
  import opened StatusHash
  import opened Redis
  import opened Stream
  import opened Pipeline
  import opened PipelineInvariant
  import opened PipelineTheorems
  import opened PipelineProgress

  /** A step whose write to the status of `id` takes effect. */
  predicate Writes(s: System, step: Step, id: string) {
    match step
    case EnqueueStep(i, _, _, _, took) => took && i == id
    case SetProcessingStep(e, took) => took && e in s.tasks && s.tasks[e].job.id == id
    case PushStep(e, took) => took && e in s.tasks && s.tasks[e].job.id == id
    case _ => false
  }

  /** When a run last wrote the status of `id`; `before` is the last write before the run. */
  function LastWrite(s: System, steps: seq<Step>, id: string, before: Option<nat>): Option<nat>
    requires Runs(s, steps)
    decreases steps
  {
    if steps == [] then before
    else
      LastWrite(Next(s, steps[0]), steps[1..], id, if Writes(s, steps[0], id) then Some(s.db.clock) else before)
  }

  /** The hash of `id` exists and expires 600 seconds after `written`, or was never written. */
  predicate WrittenAt(s: System, id: string, written: Option<nat>) {
    match written
    case None => id !in s.db.hashes
    case Some(t) => id in s.db.hashes && s.db.hashes[id].expiresAt == Some(t + STATUS_TTL_MS) && t <= s.db.clock
  }

  lemma StatusWritten(s: System, s': System, id: string, key: string, fields: Fields, written: Option<nat>)
    requires s'.db.hashes == WriteStatus(s.db, key, fields).hashes && s'.db.clock == s.db.clock
      && WrittenAt(s, id, written)
    ensures WrittenAt(s', id, if key == id then Some(s.db.clock) else written)
  {
    WriteStatusIs(s.db, key, fields);
  }

  lemma EnqueueWrites(s: System, step: Step, id: string, written: Option<nat>)
    requires Enabled(s, step) && step.EnqueueStep? && step.took && WrittenAt(s, id, written)
    ensures WrittenAt(Next(s, step), id, if Writes(s, step, id) then Some(s.db.clock) else written)
  {
    hide WriteStatus, WrittenAt, JobFields;
    WriteStatusIs(s.db, step.id, PENDING_FIELDS);
    StatusWritten(s, Next(s, step), id, step.id, PENDING_FIELDS, written);
  }

  lemma TaskWrites(s: System, step: Step, id: string, written: Option<nat>)
    requires Enabled(s, step) && WrittenAt(s, id, written)
    requires (step.SetProcessingStep? || step.PushStep?) && step.took
    ensures WrittenAt(Next(s, step), id, if Writes(s, step, id) then Some(s.db.clock) else written)
  {
    hide WriteStatus, WrittenAt, ResultFields;
    var fields := if step.PushStep? then ResultFields(s.tasks[step.e].pc.response) else PROCESSING_FIELDS;
    WriteStatusIs(s.db, s.tasks[step.e].job.id, fields);
    StatusWritten(s, Next(s, step), id, s.tasks[step.e].job.id, fields, written);
  }

  /** Every other step leaves all hashes alone. */
  lemma OthersWriteNothing(s: System, step: Step, id: string)
    requires Enabled(s, step) && !(step.EnqueueStep? && step.took)
    requires !((step.SetProcessingStep? || step.PushStep?) && step.took)
    ensures Next(s, step).db.hashes == s.db.hashes && Next(s, step).db.clock >= s.db.clock && !Writes(s, step, id)
  {
    hide NewEntries, ExtractIds, ParseEntry, Final, ResultFields, WriteStatus;
  }

  lemma StepWrites(s: System, step: Step, id: string, written: Option<nat>)
    requires Enabled(s, step) && WrittenAt(s, id, written)
    ensures WrittenAt(Next(s, step), id, if Writes(s, step, id) then Some(s.db.clock) else written)
  {
    hide Next, Enabled;
    if step.EnqueueStep? && step.took {
      EnqueueWrites(s, step, id, written);
    } else if (step.SetProcessingStep? || step.PushStep?) && step.took {
      TaskWrites(s, step, id, written);
    } else {
      OthersWriteNothing(s, step, id);
    }
  }

  lemma {:induction false} RunWrites(s: System, steps: seq<Step>, id: string, written: Option<nat>)
    requires Runs(s, steps) && WrittenAt(s, id, written)
    ensures WrittenAt(After(s, steps), id, LastWrite(s, steps, id, written))
    ensures written.Some? ==>
      LastWrite(s, steps, id, written).Some? && written.value <= LastWrite(s, steps, id, written).value
    decreases steps
  {
    if steps != [] {
      hide Next, Enabled, WrittenAt, Writes;
      var now := if Writes(s, steps[0], id) then Some(s.db.clock) else written;
      StepWrites(s, steps[0], id, written);
      WrittenBefore(s, id, written);
      RunWrites(Next(s, steps[0]), steps[1..], id, now);
    }
  }

  lemma WrittenBefore(s: System, id: string, written: Option<nat>)
    requires WrittenAt(s, id, written)
    ensures written.Some? ==> written.value <= s.db.clock
  {}

  /** A poll finds something exactly while the status key lives. */
  lemma FoundIffLive(s: System, id: string)
    requires Inv(s)
    ensures Poll(s, id) == NotFound <==> !Live(s.db, id)
  {
    hide StreamInv, JobsInv, QueueInv, TaskInv, HistoryInv, HashInv, PermitInv;
    PollReadsTable(s, id);
    HashKeys(s);
  }

  /** After any run, a poll for an id finds nothing if and only if no write to its status ever took effect or the
      last one was more than 600 seconds ago, whether or not the submission is finished. */
  lemma NotFoundIff(steps: seq<Step>, id: string)
    requires Runs(START, steps)
    ensures
      var s, last := After(START, steps), LastWrite(START, steps, id, None);
      Poll(s, id) == NotFound <==> last.None? || s.db.clock > last.value + 600000
  {
    hide Inv, Next, Enabled, Runs, After, LastWrite;
    InitInv();
    RunKeepsInv(START, steps);
    RunWrites(START, steps, id, None);
    FoundIffLive(After(START, steps), id);
  }

  /** For 600 seconds after an accepted submission no poll says not found, whatever happens. */
  lemma VisibleAfterEnqueue(s: System, id: string, json: string, payload: TaskPayload, mode: string, steps: seq<Step>)
    requires Inv(s) && Enabled(s, EnqueueStep(id, json, payload, mode, true))
    requires Runs(Next(s, EnqueueStep(id, json, payload, mode, true)), steps)
    requires After(Next(s, EnqueueStep(id, json, payload, mode, true)), steps).db.clock <= s.db.clock + 600000
    ensures Poll(After(Next(s, EnqueueStep(id, json, payload, mode, true)), steps), id) != NotFound
  {
    hide Inv, Next, Enabled, Runs, After, LastWrite;
    var enqueue := EnqueueStep(id, json, payload, mode, true);
    var s1 := Next(s, enqueue);
    StepKeepsInv(s, enqueue);
    RunKeepsInv(s1, steps);
    FreshIsUnwritten(s, enqueue);
    StepWrites(s, enqueue, id, None);
    RunWrites(s1, steps, id, Some(s.db.clock));
    FoundIffLive(After(s1, steps), id);
  }

  lemma FreshIsUnwritten(s: System, step: Step)
    requires Inv(s) && Enabled(s, step) && step.EnqueueStep?
    ensures WrittenAt(s, step.id, None)
  {
    hide StreamInv, JobsInv, QueueInv, TaskInv, HistoryInv, HashInv, PermitInv;
    HashKeys(s);
  }

  /** A submission that waits longer than that polls as not found although it can still finish. */
  lemma WaitingJobVanishes(id: string, json: string, payload: TaskPayload, mode: string)
    ensures
      var steps := [EnqueueStep(id, json, payload, mode, true)] + [TickStep(600001)];
      && Runs(START, steps)
      && var s := After(START, steps);
      && Poll(s, id) == NotFound && id in s.jobs && JobAt(s, s.jobs[id]).Some? && CanFinish(s, s.jobs[id])
      && exists more :: Runs(s, more) && s.jobs[id] in After(s, more).pushed
  {
    hide Inv, Next, Enabled, Runs, After, LastWrite;
    var enqueue, tick := EnqueueStep(id, json, payload, mode, true), TickStep(600001);
    FirstSubmission(id, json, payload, mode);
    var s1 := Next(START, enqueue);
    TickOnly(s1, 600001);
    OneStep(s1, tick);
    RunCons(START, enqueue, [tick]);
    InitInv();
    RunKeepsInv(START, [enqueue] + [tick]);
    var s := After(START, [enqueue] + [tick]);
    StepWrites(START, enqueue, id, None);
    FoundIffLive(s, id);
    var more := FinishRun(s, 0);
  }

  lemma TickOnly(s: System, ms: nat)
    ensures Enabled(s, TickStep(ms)) && Next(s, TickStep(ms)) == s.(db := s.db.(clock := s.db.clock + ms))
  {}

  /** Before the entry's own push took effect, a poll that finds anything says that the submission is being
      processed, with no result field set: never completed, never an error. */
  lemma UnfinishedPolls(steps: seq<Step>, id: string)
    requires Runs(START, steps) && id in After(START, steps).jobs
    requires After(START, steps).jobs[id] !in After(START, steps).pushed
    ensures
      var s := After(START, steps);
      Poll(s, id) == if !Live(s.db, id) then NotFound else Answered(ResponsePayload(
        status := Processing, message := ProcessingMessage, error := None, ttpassed := 0,
        stdout := None, results := None, failedcase := None))
  {
    hide Inv, Next, Enabled, Runs, After, Decode, Live;
    InitInv();
    RunKeepsInv(START, steps);
    EarlyFieldsDecode();
    PollReadsTable(After(START, steps), id);
  }
}
