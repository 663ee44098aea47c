/** What the pipeline guarantees over whole runs. */
module PipelineTheorems {
  import opened Wrappers
  import opened Types
  import opened StatusHash
  import opened Redis
  import opened Pipeline
  import opened PipelineInvariant

  // ------------------------------------------------------------------- polling

  /** A submission in the job table. `visible` is false while its hash is expired. */
  datatype JobState =
    | Absent
    | InProgress(visible: bool)
    | Done(response: ResponsePayload, visible: bool)

  /** The job table a system state stands for. */
  function TableEntry(s: System, id: string): JobState {
    if id !in s.jobs then Absent
    else if s.jobs[id] in s.pushed then Done(s.pushed[s.jobs[id]].response, Live(s.db, id))
    else InProgress(Live(s.db, id))
  }

  function TableAnswer(j: JobState): Answer {
    match j
    case Absent => NotFound
    case InProgress(visible) => if visible then Answered(ProcessingResponse()) else NotFound
    case Done(response, visible) => if visible then Answered(Published(response)) else NotFound
  }

  /** The moves of one row of the job table: accepted once, in progress (hidden or shown again),
      done once, and a result that disappears never comes back. */
  predicate TableStep(a: JobState, b: JobState) {
    || a == b
    || (a.Absent? && b == InProgress(true))
    || (a.InProgress? && b.InProgress?)
    || (a.InProgress? && b.Done? && b.visible)
    || (a.Done? && a.visible && b == a.(visible := false))
  }

  /** Polling reads the job table: nothing, in progress, or the outcome of the single execution,
      exactly as that execution produced it. */
  lemma PollReadsTable(s: System, id: string)
    requires Inv(s)
    ensures Poll(s, id) == TableAnswer(TableEntry(s, id))
    ensures TableEntry(s, id).Done? ==>
      s.jobs[id] in s.executed && TableEntry(s, id).response == s.executed[s.jobs[id]]
  {
    hide StreamInv, JobsInv, QueueInv, TaskInv, HistoryInv, HashInv, PermitInv;
    HashKeys(s);
    EarlyFieldsDecode();
    if id in s.jobs {
      HashAt(s, id);
      if s.jobs[id] in s.pushed {
        PushedIsExecuted(s, s.jobs[id]);
        PushRoundTrip(map[], s.executed[s.jobs[id]]);
        assert map[] + ResultFields(s.executed[s.jobs[id]]) == ResultFields(s.executed[s.jobs[id]]);
      }
    }
  }

  lemma PushedIsExecuted(s: System, e: nat)
    requires HistoryInv(s) && e in s.pushed
    ensures e in s.executed && s.pushed[e].response == s.executed[e] && Final(s.executed[e]) && e in s.attempted
      && e in s.started
  {}

  /** What a step may do to an accepted submission: leave its hash alone, show it as processing
      again while it has no result, or give it the result of its execution. */
  ghost predicate JobEffect(s: System, s': System, id: string)
    requires id in s.jobs
  {
    var e := s.jobs[id];
    && id in s'.jobs && s'.jobs[id] == e && id in s.db.hashes && id in s'.db.hashes
    && s.db.clock <= s'.db.clock
    && var before, after := s.db.hashes[id], s'.db.hashes[id];
    || (after == before && (e in s.pushed <==> e in s'.pushed) && (e in s.pushed ==> s'.pushed[e] == s.pushed[e]))
    || (e !in s.pushed && e !in s'.pushed && after == Hash(PROCESSING_FIELDS, Some(s'.db.clock + STATUS_TTL_MS)))
    || (e !in s.pushed && e in s'.pushed && after == Hash(ResultFields(s'.pushed[e].response),
      Some(s'.db.clock + STATUS_TTL_MS)))
  }

  lemma SetProcessingOnJob(s: System, e: nat, id: string)
    requires Inv(s) && Enabled(s, SetProcessingStep(e, true)) && id in s.jobs
    ensures JobEffect(s, Next(s, SetProcessingStep(e, true)), id)
  {
    hide StreamInv, JobsInv, QueueInv, TaskInv, HistoryInv, HashInv, PermitInv, ResultFields;
    HashAt(s, id);
    Stand(s, e);
    ExecutedFirst(s);
    WriteStatusIs(s.db, s.tasks[e].job.id, PROCESSING_FIELDS);
    EarlyHash(s, s.tasks[e].job.id);
  }

  /** A push leaves nothing but its response's fields and a fresh expiry in its own hash. */
  lemma PushedHash(s: System, e: nat)
    requires Inv(s) && e in s.tasks && s.tasks[e].pc.Push?
    ensures
      var id, r := s.tasks[e].job.id, s.tasks[e].pc.response;
      WriteStatus(s.db, id, ResultFields(r)) ==
      s.db.(hashes := s.db.hashes[id := Hash(ResultFields(r), Some(s.db.clock + STATUS_TTL_MS))])
  {
    hide StreamInv, JobsInv, QueueInv, TaskInv, HistoryInv, HashInv, PermitInv, ResultFields;
    Stand(s, e);
    EarlyHash(s, s.tasks[e].job.id);
    ExecutedFinal(s, e);
    PushRoundTrip(HGetAll(s.db, s.tasks[e].job.id), s.tasks[e].pc.response);
    WriteStatusIs(s.db, s.tasks[e].job.id, ResultFields(s.tasks[e].pc.response));
  }

  lemma PushOnJob(s: System, e: nat, id: string)
    requires Inv(s) && Enabled(s, PushStep(e, true)) && id in s.jobs
    ensures JobEffect(s, Next(s, PushStep(e, true)), id)
  {
    hide StreamInv, JobsInv, QueueInv, TaskInv, HistoryInv, HashInv, PermitInv, ResultFields, WriteStatus;
    HashAt(s, id);
    Stand(s, e);
    PushedHash(s, e);
    if id != s.tasks[e].job.id {
      JobsDistinct(s, id, s.tasks[e].job.id);
    }
  }

  lemma EnqueueOnJob(s: System, step: Step, id: string)
    requires Inv(s) && Enabled(s, step) && step.EnqueueStep? && step.took && id in s.jobs
    ensures JobEffect(s, Next(s, step), id)
  {
    hide StreamInv, JobsInv, QueueInv, TaskInv, HistoryInv, HashInv, PermitInv, ResultFields;
    HashAt(s, id);
    WriteStatusIs(s.db, step.id, PENDING_FIELDS);
  }

  lemma StepOnJob(s: System, step: Step, id: string)
    requires Inv(s) && Enabled(s, step) && id in s.jobs
    ensures JobEffect(s, Next(s, step), id)
  {
    hide StreamInv, JobsInv, QueueInv, TaskInv, HistoryInv, HashInv, PermitInv, ResultFields;
    HashAt(s, id);
    if step.SetProcessingStep? && step.took {
      SetProcessingOnJob(s, step.e, id);
    } else if step.PushStep? && step.took {
      PushOnJob(s, step.e, id);
    } else if step.EnqueueStep? && step.took {
      EnqueueOnJob(s, step, id);
    }
  }

  /** Every step of the system is a move of the job table, for every submission. */
  lemma StepRefinesTable(s: System, step: Step, id: string)
    requires Inv(s) && Enabled(s, step)
    ensures TableStep(TableEntry(s, id), TableEntry(Next(s, step), id))
  {
    if id in s.jobs {
      StepOnJob(s, step, id);
    } else {
      NewJob(s, step, id);
    }
  }

  lemma NewJob(s: System, step: Step, id: string)
    requires Inv(s) && Enabled(s, step) && id !in s.jobs
    ensures
      var s' := Next(s, step);
      id in s'.jobs ==> s'.jobs[id] !in s'.pushed && Live(s'.db, id)
  {
    hide StreamInv, JobsInv, QueueInv, TaskInv, HistoryInv, HashInv, PermitInv, ResultFields;
    Bounds(s);
    NoHistoryYet(s);
    if step.EnqueueStep? {
      WriteStatusIs(s.db, step.id, PENDING_FIELDS);
    }
  }

  /** Rank of a stored status: pending, processing, final. */
  function FieldsRank(h: Fields): nat {
    var status := Lookup(h, STATUS);
    if status == Some("pending") then 1 else if status == Some("processing") then 2 else 3
  }

  /** Rank of the status last written for a submission. */
  function Rank(s: System, id: string): nat {
    if id !in s.db.hashes then 0 else FieldsRank(s.db.hashes[id].fields)
  }

  lemma EarlyRanks()
    ensures FieldsRank(PENDING_FIELDS) == 1 && FieldsRank(PROCESSING_FIELDS) == 2
  {}

  lemma FinalRank(r: ResponsePayload)
    requires Final(r)
    ensures FieldsRank(ResultFields(r)) == 3
  {
    FinalStatus(r);
  }

  lemma FinalStatus(r: ResponsePayload)
    requires Final(r)
    ensures Lookup(ResultFields(r), STATUS) == Some(StatusName(r.status))
    ensures StatusName(r.status) != "pending" && StatusName(r.status) != "processing"
  {
    FieldNamesDiffer();
    ResultField(r, STATUS);
    assert "completed"[0] != "processing"[0];
    assert |"completed"| != |"pending"| && |"error"| != |"pending"| && |"error"| != |"processing"|;
  }

  lemma RankOfPushed(s: System, id: string)
    requires Inv(s) && id in s.jobs && s.jobs[id] in s.pushed
    ensures Rank(s, id) == 3
  {
    hide StreamInv, JobsInv, QueueInv, TaskInv, HistoryInv, HashInv, PermitInv, ResultFields, FieldsRank;
    HashAt(s, id);
    PushedIsExecuted(s, s.jobs[id]);
    FinalRank(s.executed[s.jobs[id]]);
  }

  lemma RankOfEarly(s: System, id: string)
    requires Inv(s) && id in s.jobs && s.jobs[id] !in s.pushed
    ensures Rank(s, id) <= 2
  {
    hide StreamInv, JobsInv, QueueInv, TaskInv, HistoryInv, HashInv, PermitInv, ResultFields, FieldsRank;
    HashAt(s, id);
    EarlyRanks();
  }

  /** The last written status never goes back: pending, then processing, then final. */
  lemma RankNeverDecreases(s: System, step: Step, id: string)
    requires Inv(s) && Enabled(s, step)
    ensures Rank(s, id) <= Rank(Next(s, step), id)
  {
    hide StreamInv, JobsInv, QueueInv, TaskInv, HistoryInv, HashInv, PermitInv, FieldsRank, Next;
    StepKeepsInv(s, step);
    HashKeys(s);
    if id in s.jobs {
      StepOnJob(s, step, id);
      if s.jobs[id] in Next(s, step).pushed {
        RankOfPushed(Next(s, step), id);
        if s.jobs[id] in s.pushed { RankOfPushed(s, id); } else { RankOfEarly(s, id); }
      } else {
        RankOfEarly(s, id);
        EarlyRanks();
      }
    }
  }
}
