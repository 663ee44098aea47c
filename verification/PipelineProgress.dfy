/** Which jobs can still finish, and why a batch hand-over ends. */
module PipelineProgress {
  import opened Wrappers
  import opened Types
  import opened StatusHash
  import opened Redis
  import opened Stream
  import opened Pipeline
  import opened PipelineInvariant
  import opened PipelineTheorems

  // ------------------------------------------------------ jobs that can still finish

  predicate BeforeAck(pc: Pc) {
    pc.SetProcessing? || pc.Execute? || pc.Push?
  }

  ghost predicate Queued(s: System, w: nat, e: nat) {
    w in s.workers && exists i :: 0 <= i < |s.workers[w].queue| && s.workers[w].queue[i].entry == e
  }

  /** The entry is undelivered, waiting in some worker's batch, or its task has not pushed yet. */
  ghost predicate CanFinish(s: System, e: nat) {
    || s.db.delivered <= e < |s.db.entries|
    || (exists w :: Queued(s, w, e))
    || (e in s.tasks && BeforeAck(s.tasks[e].pc))
  }

  /** Nothing that concerns the job of `e` changed, and it still cannot finish. */
  ghost predicate StaysLost(s: System, s': System, e: nat) {
    && !CanFinish(s', e) && e < |s'.db.entries|
    && (e in s.executed <==> e in s'.executed) && (e in s.pushed <==> e in s'.pushed)
    && s.db.clock <= s'.db.clock
    && forall id :: id in s.jobs && s.jobs[id] == e ==>
         id in s.db.hashes && id in s'.jobs && s'.jobs[id] == e && id in s'.db.hashes
           && s'.db.hashes[id] == s.db.hashes[id]
  }

  lemma LostRead(s: System, w: nat, replied: bool, e: nat)
    requires Inv(s) && Enabled(s, ReadStep(w, replied)) && e < |s.db.entries| && !CanFinish(s, e)
    ensures StaysLost(s, Next(s, ReadStep(w, replied)), e)
  {
    hide StreamInv, JobsInv, QueueInv, TaskInv, HistoryInv, HashInv, PermitInv;
    var s' := Next(s, ReadStep(w, replied));
    HashKeys(s);
    ReadStream(s, s', s.workers[w].batch);
    ReplyJobs(s.db, NewEntries(s.db, s.workers[w].batch));
    forall v ensures !Queued(s', v, e) {
      if v != w {
        assert !Queued(s, v, e);
      }
    }
  }

  lemma LostSpawn(s: System, w: nat, e: nat)
    requires Inv(s) && Enabled(s, SpawnStep(w)) && e < |s.db.entries| && !CanFinish(s, e)
    ensures StaysLost(s, Next(s, SpawnStep(w)), e)
  {
    hide StreamInv, JobsInv, QueueInv, TaskInv, HistoryInv, HashInv, PermitInv;
    var s' := Next(s, SpawnStep(w));
    HashKeys(s);
    assert !Queued(s, w, e);
    forall v ensures !Queued(s', v, e) {
      assert !Queued(s, v, e);
      if v == w {
        assert forall i :: 0 <= i < |s'.workers[w].queue| ==> s'.workers[w].queue[i] == s.workers[w].queue[i + 1];
      }
    }
  }

  lemma QueuesShrink(s: System, s': System, e: nat)
    requires forall w :: w in s'.workers ==>
        s'.workers[w].queue == [] || (w in s.workers && s'.workers[w].queue == s.workers[w].queue)
    requires forall w :: !Queued(s, w, e)
    ensures forall w :: !Queued(s', w, e)
  {
    forall w ensures !Queued(s', w, e) {
      assert !Queued(s, w, e);
    }
  }

  lemma NotBeforeAck(s: System, e: nat)
    requires !CanFinish(s, e)
    ensures !(e in s.tasks && BeforeAck(s.tasks[e].pc))
  {}

  /** No queue grows, and neither a task nor the history of `e` moves back. */
  lemma LostFrame(s: System, s': System, e: nat)
    requires e < |s.db.entries| && !CanFinish(s, e) && s.db.hashes.Keys == s.jobs.Keys
    requires s.db.delivered <= s'.db.delivered && |s.db.entries| <= |s'.db.entries| && s.db.clock <= s'.db.clock
    requires forall w :: w in s'.workers ==>
        s'.workers[w].queue == [] || (w in s.workers && s'.workers[w].queue == s.workers[w].queue)
    requires e in s'.tasks ==> e in s.tasks && (BeforeAck(s'.tasks[e].pc) ==> BeforeAck(s.tasks[e].pc))
    requires (e in s.executed <==> e in s'.executed) && (e in s.pushed <==> e in s'.pushed)
    requires forall id :: id in s.jobs ==> id in s'.jobs && s'.jobs[id] == s.jobs[id]
    requires forall id :: id in s.jobs && s.jobs[id] == e ==> id in s'.db.hashes && s'.db.hashes[id] == s.db.hashes[id]
    ensures StaysLost(s, s', e)
  {
    hide Queued;
    QueuesShrink(s, s', e);
  }

  lemma LostExecute(s: System, x: nat, response: ResponsePayload, e: nat)
    requires JobsInv(s) && e < |s.db.entries| && !CanFinish(s, e) && At(s, x, Execute)
    ensures StaysLost(s, Executed(s, x, response), e)
  {
    hide JobsInv, CanFinish, StaysLost;
    HashKeys(s);
    NotBeforeAck(s, e);
    LostFrame(s, Executed(s, x, response), e);
  }

  lemma LostAcknowledge(s: System, x: nat, took: bool, e: nat)
    requires JobsInv(s) && e < |s.db.entries| && !CanFinish(s, e) && At(s, x, Ack)
    ensures StaysLost(s, Acknowledge(s, x, took), e)
  {
    hide JobsInv, CanFinish, StaysLost;
    HashKeys(s);
    NotBeforeAck(s, e);
    LostFrame(s, Acknowledge(s, x, took), e);
  }

  lemma LostDelete(s: System, x: nat, took: bool, e: nat)
    requires JobsInv(s) && e < |s.db.entries| && !CanFinish(s, e) && At(s, x, Delete)
    ensures StaysLost(s, DeleteEntry(s, x, took), e)
  {
    hide JobsInv, CanFinish, StaysLost;
    HashKeys(s);
    NotBeforeAck(s, e);
    LostFrame(s, DeleteEntry(s, x, took), e);
  }

  lemma LostDrop(s: System, x: nat, e: nat)
    requires JobsInv(s) && e < |s.db.entries| && !CanFinish(s, e) && x in s.tasks
    ensures StaysLost(s, Drop(s, x), e)
  {
    hide JobsInv, CanFinish, StaysLost;
    HashKeys(s);
    NotBeforeAck(s, e);
    LostFrame(s, Drop(s, x), e);
  }

  lemma LostStartWorker(s: System, w: nat, capacity: nat, batch: nat, e: nat)
    requires JobsInv(s) && e < |s.db.entries| && !CanFinish(s, e) && w !in s.workers
    ensures StaysLost(s, StartWorker(s, w, capacity, batch), e)
  {
    hide JobsInv, CanFinish, StaysLost;
    HashKeys(s);
    NotBeforeAck(s, e);
    LostFrame(s, StartWorker(s, w, capacity, batch), e);
  }

  lemma LostCrash(s: System, w: nat, e: nat)
    requires JobsInv(s) && e < |s.db.entries| && !CanFinish(s, e)
    ensures StaysLost(s, Crash(s, w), e)
  {
    hide JobsInv, CanFinish, StaysLost;
    HashKeys(s);
    NotBeforeAck(s, e);
    LostFrame(s, Crash(s, w), e);
  }

  lemma LostAppend(s: System, fields: EntryFields, e: nat)
    requires JobsInv(s) && e < |s.db.entries| && !CanFinish(s, e)
    ensures StaysLost(s, s.(db := XAdd(s.db, fields)), e)
  {
    hide JobsInv, CanFinish, StaysLost;
    HashKeys(s);
    NotBeforeAck(s, e);
    LostFrame(s, s.(db := XAdd(s.db, fields)), e);
  }

  lemma LostTick(s: System, ms: nat, e: nat)
    requires JobsInv(s) && e < |s.db.entries| && !CanFinish(s, e)
    ensures StaysLost(s, s.(db := s.db.(clock := s.db.clock + ms)), e)
  {
    hide JobsInv, CanFinish, StaysLost;
    HashKeys(s);
    NotBeforeAck(s, e);
    LostFrame(s, s.(db := s.db.(clock := s.db.clock + ms)), e);
  }

  lemma LostAccept(s: System, id: string, json: string, payload: TaskPayload, taskType: string, e: nat)
    requires JobsInv(s) && e < |s.db.entries| && !CanFinish(s, e) && id !in s.jobs
    ensures StaysLost(s, Accept(s, id, json, payload, taskType), e)
  {
    hide JobsInv, CanFinish, StaysLost;
    HashKeys(s);
    NotBeforeAck(s, e);
    WriteStatusIs(s.db, id, PENDING_FIELDS);
    LostFrame(s, Accept(s, id, json, payload, taskType), e);
  }

  lemma LostSetProcessing(s: System, x: nat, took: bool, e: nat)
    requires Inv(s) && Enabled(s, SetProcessingStep(x, took)) && e < |s.db.entries| && !CanFinish(s, e)
    ensures StaysLost(s, Next(s, SetProcessingStep(x, took)), e)
  {
    hide StreamInv, JobsInv, QueueInv, TaskInv, HistoryInv, HashInv, PermitInv, CanFinish, StaysLost;
    HashKeys(s);
    Stand(s, x);
    NotBeforeAck(s, e);
    WriteStatusIs(s.db, s.tasks[x].job.id, PROCESSING_FIELDS);
    LostFrame(s, Next(s, SetProcessingStep(x, took)), e);
  }

  lemma LostPush(s: System, x: nat, took: bool, e: nat)
    requires Inv(s) && Enabled(s, PushStep(x, took)) && e < |s.db.entries| && !CanFinish(s, e)
    ensures StaysLost(s, Next(s, PushStep(x, took)), e)
  {
    hide StreamInv, JobsInv, QueueInv, TaskInv, HistoryInv, HashInv, PermitInv, ResultFields, CanFinish, StaysLost;
    HashKeys(s);
    Stand(s, x);
    NotBeforeAck(s, e);
    WriteStatusIs(s.db, s.tasks[x].job.id, ResultFields(s.tasks[x].pc.response));
    LostFrame(s, Next(s, PushStep(x, took)), e);
  }

  /** A job that cannot finish never can again: no step executes it, publishes it or touches its hash. */
  lemma LostStaysLost(s: System, step: Step, e: nat)
    requires Inv(s) && Enabled(s, step) && e < |s.db.entries| && !CanFinish(s, e)
    ensures StaysLost(s, Next(s, step), e)
  {
    hide StreamInv, JobsInv, QueueInv, TaskInv, HistoryInv, HashInv, PermitInv, CanFinish, StaysLost, Final;
    hide Accept, StartWorker, Read, Spawn, ShowProcessing, Executed, PushResponse, Acknowledge, DeleteEntry, Drop;
    hide Crash;
    match step
    case EnqueueStep(id, json, payload, taskType, took) =>
      if took { LostAccept(s, id, json, payload, taskType, e); } else { LostTick(s, 0, e); }
    case ForeignStep(fields) => LostAppend(s, fields, e);
    case StartWorkerStep(w, capacity, batch) => LostStartWorker(s, w, capacity, batch, e);
    case ReadStep(w, replied) => LostRead(s, w, replied, e);
    case SpawnStep(w) => LostSpawn(s, w, e);
    case SetProcessingStep(x, took) => LostSetProcessing(s, x, took, e);
    case ExecuteStep(x, response) => LostExecute(s, x, response, e);
    case PushStep(x, took) => LostPush(s, x, took, e);
    case AckStep(x, took) => LostAcknowledge(s, x, took, e);
    case DeleteStep(x, took) => LostDelete(s, x, took, e);
    case FinishStep(x) => LostDrop(s, x, e);
    case PanicStep(x) => LostDrop(s, x, e);
    case CrashStep(w) => LostCrash(s, w, e);
    case TickStep(ms) => LostTick(s, ms, e);
  }

  lemma {:induction false} LostForever(s: System, steps: seq<Step>, e: nat)
    requires Inv(s) && Runs(s, steps) && e < |s.db.entries| && !CanFinish(s, e)
    ensures Inv(After(s, steps)) && StaysLost(s, After(s, steps), e)
    decreases steps
  {
    hide Inv, Next, Enabled, CanFinish;
    if steps == [] {
      LostNow(s, e);
    } else {
      LostStaysLost(s, steps[0], e);
      StepKeepsInv(s, steps[0]);
      LostForever(Next(s, steps[0]), steps[1..], e);
    }
  }

  lemma LostNow(s: System, e: nat)
    requires Inv(s) && e < |s.db.entries| && !CanFinish(s, e)
    ensures StaysLost(s, s, e)
  {}

  /** What a lost submission looks like to its caller: in progress until its hash expires, then
      nothing, whatever else the system does. */
  lemma LostJobPolls(s: System, steps: seq<Step>, id: string)
    requires Inv(s) && Runs(s, steps) && id in s.jobs && s.jobs[id] !in s.pushed && !CanFinish(s, s.jobs[id])
    ensures id in s.db.hashes && s.db.hashes[id].expiresAt.Some?
    ensures Poll(After(s, steps), id) ==
      if After(s, steps).db.clock <= s.db.hashes[id].expiresAt.value then Answered(ProcessingResponse()) else NotFound
  {
    hide StreamInv, JobsInv, QueueInv, TaskInv, HistoryInv, HashInv, PermitInv, Next, Enabled, CanFinish;
    JobEntry(s, id);
    HashAt(s, id);
    LostForever(s, steps, s.jobs[id]);
    PollReadsTable(After(s, steps), id);
  }

  lemma JobEntry(s: System, id: string)
    requires JobsInv(s) && id in s.jobs
    ensures s.jobs[id] < |s.db.entries| && JobAt(s, s.jobs[id]).Some? && JobAt(s, s.jobs[id]).value.id == id
  {}

  // --------------------------------------------------------------- losing jobs

  lemma QueuedAreWaiting(s: System, e: nat)
    requires QueueInv(s)
    ensures forall w :: Queued(s, w, e) ==> e < s.db.delivered && e !in s.started
  {
    forall w | Queued(s, w, e) ensures e < s.db.delivered && e !in s.started {
      var i :| 0 <= i < |s.workers[w].queue| && s.workers[w].queue[i].entry == e;
      assert Waiting(s, s.workers[w].queue[i]);
    }
  }

  lemma QueuedOnce(s: System, v: nat, w: nat, e: nat)
    requires QueueInv(s) && v in s.workers && w in s.workers && v != w
    ensures !(Queued(s, v, e) && Queued(s, w, e))
  {
    assert Apart(s.workers[v].queue, s.workers[w].queue);
  }

  /** A delivery whose reply is lost strands every entry it delivered; a read does not wait for a free permit. */
  lemma LostReplyLoses(s: System, w: nat, e: nat)
    requires Inv(s) && w in s.workers && s.workers[w].queue == [] && e in NewEntries(s.db, s.workers[w].batch)
    ensures Enabled(s, ReadStep(w, false)) && !CanFinish(Next(s, ReadStep(w, false)), e)
  {
    hide StreamInv, QueueInv, JobsInv, TaskInv, HistoryInv, HashInv, PermitInv;
    var s' := Next(s, ReadStep(w, false));
    ReadStream(s, s', s.workers[w].batch);
    NewEntriesIff(s.db, s.workers[w].batch, e);
    if e in s.tasks {
      TaskAt(s, e);
    }
    QueuedAreWaiting(s, e);
    forall v ensures Queued(s', v, e) ==> v != w && Queued(s, v, e) {}
  }

  /** A worker that dies strands its waiting jobs and its tasks. */
  lemma CrashLoses(s: System, w: nat, e: nat)
    requires Inv(s) && (Queued(s, w, e) || (e in s.tasks && s.tasks[e].worker == w))
    ensures Enabled(s, CrashStep(w)) && !CanFinish(Next(s, CrashStep(w)), e)
  {
    hide StreamInv, QueueInv, JobsInv, TaskInv, HistoryInv, HashInv, PermitInv;
    if e in s.tasks {
      TaskAt(s, e);
    }
    var s' := Next(s, CrashStep(w));
    QueuedAreWaiting(s, e);
    forall v | v in s.workers && v != w ensures !(Queued(s, v, e) && Queued(s, w, e)) {
      QueuedOnce(s, v, w, e);
    }
    forall v ensures Queued(s', v, e) ==> v != w && Queued(s, v, e) {}
  }

  /** A task that panics, at whatever call, strands its own job. */
  lemma PanicLoses(s: System, e: nat)
    requires Inv(s) && e in s.tasks
    ensures Enabled(s, PanicStep(e)) && !CanFinish(Next(s, PanicStep(e)), e)
  {
    hide StreamInv, QueueInv, JobsInv, TaskInv, HistoryInv, HashInv, PermitInv;
    var s' := Next(s, PanicStep(e));
    TaskAt(s, e);
    QueuedAreWaiting(s, e);
    forall v ensures Queued(s', v, e) ==> Queued(s, v, e) {}
  }

  // ------------------------------------------------------------ finishing runs

  lemma {:induction false} RunAppend(s: System, a: seq<Step>, b: seq<Step>)
    requires Runs(s, a) && Runs(After(s, a), b)
    ensures Runs(s, a + b) && After(s, a + b) == After(After(s, a), b)
    decreases a
  {
    hide Next, Enabled;
    if a == [] {
      assert a + b == b;
    } else {
      assert (a + b)[1..] == a[1..] + b;
      RunAppend(Next(s, a[0]), a[1..], b);
    }
  }

  lemma RunCons(s: System, step: Step, rest: seq<Step>)
    requires Enabled(s, step) && Runs(Next(s, step), rest)
    ensures Runs(s, [step] + rest) && After(s, [step] + rest) == After(Next(s, step), rest)
  {}

  lemma OneStep(s: System, step: Step)
    requires Enabled(s, step)
    ensures Runs(s, [step]) && After(s, [step]) == Next(s, step)
  {}

  lemma FirstSubmission(id: string, json: string, payload: TaskPayload, taskType: string)
    ensures
      var enqueue := EnqueueStep(id, json, payload, taskType, true);
      && Enabled(START, enqueue)
      && var s := Next(START, enqueue);
      && id in s.jobs && s.jobs[id] == 0 && |s.db.entries| == 1 && s.db.delivered == 0 && s.workers == map[]
      && JobAt(s, 0).Some?
  {
    JobFieldsParse(0, id, json, payload, taskType);
    WriteStatusIs(EMPTY_DB, id, PENDING_FIELDS);
  }

  /** No task panics and no worker dies. */
  predicate Calm(steps: seq<Step>) {
    forall k :: 0 <= k < |steps| ==> !steps[k].PanicStep? && !steps[k].CrashStep?
  }

  /** The next call of a task, taking effect. */
  function NextCall(pc: Pc, e: nat): Step {
    match pc
    case SetProcessing => SetProcessingStep(e, true)
    case Execute => ExecuteStep(e, ErrorResponse(None))
    case Push(_) => PushStep(e, true)
    case Ack => AckStep(e, true)
    case Delete => DeleteStep(e, true)
    case Finish => FinishStep(e)
  }

  /** From its current call a task can go on to a push that takes effect. */
  lemma {:induction false} FinishFromTask(s: System, e: nat) returns (steps: seq<Step>)
    requires e in s.tasks && BeforeAck(s.tasks[e].pc)
    ensures Runs(s, steps) && e in After(s, steps).pushed && Calm(steps)
    decreases CallsLeft(s.tasks[e].pc)
  {
    var step := NextCall(s.tasks[e].pc, e);
    var rest: seq<Step> := [];
    if !step.PushStep? {
      rest := FinishFromTask(Next(s, step), e);
    }
    RunCons(s, step, rest);
    steps := [step] + rest;
  }

  lemma CallEnabled(s: System, e: nat)
    requires e in s.tasks
    ensures Enabled(s, NextCall(s.tasks[e].pc, e))
  {}

  /** A task moved on; permits and queues stayed. */
  predicate MovedOn(s: System, s': System, e: nat)
    requires e in s.tasks
  {
    && s'.workers == s.workers && e in s'.tasks && s'.tasks[e].worker == s.tasks[e].worker
    && CallsLeft(s'.tasks[e].pc) < CallsLeft(s.tasks[e].pc)
  }

  lemma EarlyCallMoves(s: System, e: nat, response: ResponsePayload)
    requires e in s.tasks
    ensures s.tasks[e].pc == SetProcessing ==> MovedOn(s, ShowProcessing(s, e, true), e)
    ensures s.tasks[e].pc == Execute ==> MovedOn(s, Executed(s, e, response), e)
    ensures s.tasks[e].pc == Push(response) ==> MovedOn(s, PushResponse(s, e, response, true), e)
  {
    hide WriteStatus, ResultFields;
  }

  lemma LateCallMoves(s: System, e: nat)
    requires e in s.tasks
    ensures s.tasks[e].pc == Ack ==> MovedOn(s, Acknowledge(s, e, true), e)
    ensures s.tasks[e].pc == Delete ==> MovedOn(s, DeleteEntry(s, e, true), e)
  {
    hide XAck, XDel;
  }

  /** A call other than the last brings its task closer to its end and leaves permits and queues alone. */
  lemma CallMoves(s: System, e: nat)
    requires e in s.tasks && !s.tasks[e].pc.Finish? && Enabled(s, NextCall(s.tasks[e].pc, e))
    ensures MovedOn(s, Next(s, NextCall(s.tasks[e].pc, e)), e)
  {
    hide ShowProcessing, Executed, PushResponse, Acknowledge, DeleteEntry, Accept, StartWorker, Read, Spawn, Crash;
    hide Drop, MovedOn;
    EarlyCallMoves(s, e, if s.tasks[e].pc.Push? then s.tasks[e].pc.response else ErrorResponse(None));
    LateCallMoves(s, e);
  }

  lemma LastCall(s: System, e: nat)
    requires Enabled(s, FinishStep(e))
    ensures Next(s, FinishStep(e)) == Drop(s, e)
  {}

  lemma SamePermits(s: System, s': System, e: nat)
    requires e in s.tasks && e in s'.tasks && s'.workers == s.workers && s'.tasks[e].worker == s.tasks[e].worker
    ensures Drop(s', e).workers == Drop(s, e).workers
  {}

  /** A task can make all its calls and end, which gives its permit back. */
  lemma {:induction false} EndTask(s: System, e: nat) returns (steps: seq<Step>)
    requires Inv(s) && e in s.tasks
    ensures Runs(s, steps) && Calm(steps)
    ensures Inv(After(s, steps)) && After(s, steps).workers == Drop(s, e).workers
    decreases CallsLeft(s.tasks[e].pc)
  {
    hide Inv, Next, Enabled, CallsLeft, Drop;
    var step := NextCall(s.tasks[e].pc, e);
    CallEnabled(s, e);
    StepKeepsInv(s, step);
    var rest: seq<Step> := [];
    if step.FinishStep? {
      LastCall(s, e);
    } else {
      CallMoves(s, e);
      SamePermits(s, Next(s, step), e);
      rest := EndTask(Next(s, step), e);
    }
    RunCons(s, step, rest);
    steps := [step] + rest;
  }

  lemma FullMeansHeld(s: System, w: nat) returns (e: nat)
    requires Inv(s) && w in s.workers && s.workers[w].available == 0
    ensures e in s.tasks && s.tasks[e].worker == w
  {
    hide StreamInv, JobsInv, QueueInv, TaskInv, HistoryInv, HashInv;
    assert Held(s, w) != {};
    e :| e in Held(s, w);
  }

  /** A queued job can be started even when every permit is held: a running task can end. */
  lemma MakeRoom(s: System, w: nat) returns (steps: seq<Step>)
    requires Inv(s) && w in s.workers && s.workers[w].queue != []
    ensures Runs(s, steps) && Calm(steps)
    ensures
      var s' := After(s, steps);
      Inv(s') && w in s'.workers && s'.workers[w].queue == s.workers[w].queue && s'.workers[w].available > 0
  {
    hide Inv, Next, Enabled;
    steps := [];
    if s.workers[w].available == 0 {
      var e := FullMeansHeld(s, w);
      steps := EndTask(s, e);
    }
  }

  lemma {:induction false} FinishFromQueue(s: System, w: nat, i: nat) returns (steps: seq<Step>)
    requires Inv(s) && w in s.workers && i < |s.workers[w].queue|
    ensures Runs(s, steps) && s.workers[w].queue[i].entry in After(s, steps).pushed && Calm(steps)
    decreases i
  {
    hide Inv;
    var before := MakeRoom(s, w);
    var s1 := After(s, before);
    var s2 := Next(s1, SpawnStep(w));
    StepKeepsInv(s1, SpawnStep(w));
    var rest;
    if i == 0 {
      rest := FinishFromTask(s2, s.workers[w].queue[0].entry);
    } else {
      rest := FinishFromQueue(s2, w, i - 1);
    }
    RunCons(s1, SpawnStep(w), rest);
    RunAppend(s, before, [SpawnStep(w)] + rest);
    steps := before + ([SpawnStep(w)] + rest);
  }

  lemma {:induction false} Above(ns: set<nat>) returns (m: nat)
    ensures forall x :: x in ns ==> x < m
  {
    m := 0;
    if ns != {} {
      var x :| x in ns;
      m := Above(ns - {x});
      assert forall y :: y in ns ==> y == x || y in ns - {x};
      if m <= x {
        m := x + 1;
      }
    }
  }

  lemma {:induction false} PickAll(db: Db, from: nat, count: nat, e: nat)
    requires from <= e < |db.entries| && e in db.present && count >= |db.entries| - from
    ensures e in Pick(db, from, count)
    decreases |db.entries| - from
  {
    if e == from {
      assert Pick(db, from, count)[0] == e;
    } else if from in db.present {
      PickAll(db, from + 1, count - 1, e);
      assert Pick(db, from, count) == [from] + Pick(db, from + 1, count - 1);
    } else {
      PickAll(db, from + 1, count, e);
    }
  }

  lemma DeliveredAll(db: Db, e: nat)
    requires db.delivered <= e < |db.entries| && e in db.present
    ensures exists k :: 0 <= k < |NewEntries(db, 0)| && NewEntries(db, 0)[k] == e
  {
    PickAll(db, db.delivered, |db.entries|, e);
    assert e in NewEntries(db, 0);
  }

  /** A new worker that reads without a limit gets every undelivered job. */
  lemma NewWorkerReads(s: System, w: nat, e: nat) returns (i: nat)
    requires Inv(s) && s.db.delivered <= e && JobAt(s, e).Some? && w !in s.workers
    ensures Enabled(s, StartWorkerStep(w, 1, 0)) && Enabled(Next(s, StartWorkerStep(w, 1, 0)), ReadStep(w, true))
    ensures
      var s' := Next(Next(s, StartWorkerStep(w, 1, 0)), ReadStep(w, true));
      w in s'.workers && i < |s'.workers[w].queue| && s'.workers[w].queue[i].entry == e
  {
    hide JobsInv, QueueInv, TaskInv, HistoryInv, HashInv, PermitInv;
    var s1 := Next(s, StartWorkerStep(w, 1, 0));
    DeliveredAll(s1.db, e);
    var k :| 0 <= k < |NewEntries(s1.db, 0)| && NewEntries(s1.db, 0)[k] == e;
    var ids := ReplyIds(s1.db, NewEntries(s1.db, 0));
    var job := JobAt(s, e).value;
    assert ids[k] == StreamId(e, s1.db.entries[e]);
    ExtractedIff(ids, job);
    i :| 0 <= i < |ExtractIds(ids)| && ExtractIds(ids)[i] == job;
  }

  lemma FinishFromStream(s: System, e: nat) returns (steps: seq<Step>)
    requires Inv(s) && s.db.delivered <= e && JobAt(s, e).Some?
    ensures Runs(s, steps) && e in After(s, steps).pushed && Calm(steps)
  {
    hide Inv, Next, Enabled, JobAt, Runs, After;
    var w := Above(s.workers.Keys);
    var start, read := StartWorkerStep(w, 1, 0), ReadStep(w, true);
    var i := NewWorkerReads(s, w, e);
    StepKeepsInv(s, start);
    StepKeepsInv(Next(s, start), read);
    var rest := FinishFromQueue(Next(Next(s, start), read), w, i);
    RunCons(Next(s, start), read, rest);
    RunCons(s, start, [read] + rest);
    steps := [start] + ([read] + rest);
  }

  /** A job that can finish has a run to its published result in which nothing panics and no worker dies. */
  lemma FinishRun(s: System, e: nat) returns (steps: seq<Step>)
    requires Inv(s) && CanFinish(s, e) && JobAt(s, e).Some?
    ensures Runs(s, steps) && e in After(s, steps).pushed && Calm(steps)
  {
    if s.db.delivered <= e < |s.db.entries| {
      steps := FinishFromStream(s, e);
    } else if e in s.tasks && BeforeAck(s.tasks[e].pc) {
      steps := FinishFromTask(s, e);
    } else {
      var w :| Queued(s, w, e);
      var i :| 0 <= i < |s.workers[w].queue| && s.workers[w].queue[i].entry == e;
      steps := FinishFromQueue(s, w, i);
    }
  }

  /** A well-formed entry without a result can still get one exactly when it is undelivered, queued,
      or its task has not pushed yet. */
  lemma CanFinishIff(s: System, e: nat)
    requires Inv(s) && JobAt(s, e).Some? && e !in s.pushed
    ensures CanFinish(s, e) <==> exists steps :: Runs(s, steps) && e in After(s, steps).pushed
  {
    if CanFinish(s, e) {
      var steps := FinishRun(s, e);
    }
    if steps :| Runs(s, steps) && e in After(s, steps).pushed {
      if !CanFinish(s, e) {
        LostForever(s, steps, e);
        assert false;
      }
    }
  }

  // ------------------------------------------------------------- hand-over ends

  /** Calls a task still has to make, its end included. */
  function CallsLeft(pc: Pc): nat {
    match pc
    case SetProcessing => 6
    case Execute => 5
    case Push(_) => 4
    case Ack => 3
    case Delete => 2
    case Finish => 1
  }

  function Weight(tasks: map<nat, Task>, w: nat, e: nat): nat {
    if e in tasks && tasks[e].worker == w then CallsLeft(tasks[e].pc) else 0
  }

  function WorkLeft(tasks: map<nat, Task>, w: nat, started: seq<nat>): nat {
    if started == [] then 0
    else WorkLeft(tasks, w, started[..|started| - 1]) + Weight(tasks, w, started[|started| - 1])
  }

  /** Work of worker `w` until its queue is empty and its tasks are over. */
  function Measure(s: System, w: nat): nat
    requires w in s.workers
  {
    7 * |s.workers[w].queue| + WorkLeft(s.tasks, w, s.started)
  }

  /** A step taken by worker `w`: its hand-over loop or one of its tasks. */
  predicate Own(s: System, w: nat, step: Step) {
    match step
    case SpawnStep(v) => v == w
    case SetProcessingStep(e, _) => e in s.tasks && s.tasks[e].worker == w
    case ExecuteStep(e, _) => e in s.tasks && s.tasks[e].worker == w
    case PushStep(e, _) => e in s.tasks && s.tasks[e].worker == w
    case AckStep(e, _) => e in s.tasks && s.tasks[e].worker == w
    case DeleteStep(e, _) => e in s.tasks && s.tasks[e].worker == w
    case FinishStep(e) => e in s.tasks && s.tasks[e].worker == w
    case PanicStep(e) => e in s.tasks && s.tasks[e].worker == w
    case _ => false
  }

  lemma {:induction false} SameWork(tasks: map<nat, Task>, tasks': map<nat, Task>, w: nat, started: seq<nat>)
    requires forall e :: e in started ==> Weight(tasks, w, e) == Weight(tasks', w, e)
    ensures WorkLeft(tasks, w, started) == WorkLeft(tasks', w, started)
  {
    if started != [] {
      var prefix := started[..|started| - 1];
      assert forall e :: e in prefix ==> e in started;
      SameWork(tasks, tasks', w, prefix);
      assert started[|started| - 1] in started;
    }
  }

  lemma {:induction false} LessWork(tasks: map<nat, Task>, tasks': map<nat, Task>, w: nat, started: seq<nat>, e0: nat)
    requires NoRepeat(started) && e0 in started
    requires forall e :: e in started && e != e0 ==> Weight(tasks, w, e) == Weight(tasks', w, e)
    requires Weight(tasks', w, e0) < Weight(tasks, w, e0)
    ensures WorkLeft(tasks', w, started) < WorkLeft(tasks, w, started)
  {
    var n := |started| - 1;
    var prefix := started[..n];
    assert forall e :: e in prefix ==> e in started;
    if started[n] == e0 {
      assert e0 !in prefix;
      SameWork(tasks, tasks', w, prefix);
    } else {
      assert e0 in prefix;
      assert started[n] in started;
      LessWork(tasks, tasks', w, prefix, e0);
    }
  }

  lemma SpawnMeasure(s: System, w: nat)
    requires Inv(s) && Enabled(s, SpawnStep(w))
    ensures w in Next(s, SpawnStep(w)).workers && Measure(Next(s, SpawnStep(w)), w) < Measure(s, w)
  {
    hide StreamInv, JobsInv, QueueInv, TaskInv, HistoryInv, HashInv, PermitInv;
    QueueHead(s, w);
    var s' := Next(s, SpawnStep(w));
    var e := s.workers[w].queue[0].entry;
    SameWork(s.tasks, s'.tasks, w, s.started);
    assert s'.started[..|s.started|] == s.started;
  }

  /** The weight of task `x` drops, every other weight and the queue of `w` stay. */
  ghost predicate Lighter(s: System, s': System, w: nat, x: nat) {
    && w in s.workers && w in s'.workers && s'.workers[w].queue == s.workers[w].queue && s'.started == s.started
    && (forall e :: e != x ==> Weight(s'.tasks, w, e) == Weight(s.tasks, w, e))
    && (if x in s.tasks && s.tasks[x].worker == w then Weight(s'.tasks, w, x) < Weight(s.tasks, w, x)
        else Weight(s'.tasks, w, x) == Weight(s.tasks, w, x))
  }

  lemma GotoLighter(s: System, s': System, w: nat, x: nat, pc: Pc)
    requires w in s.workers && x in s.tasks && CallsLeft(pc) < CallsLeft(s.tasks[x].pc)
    requires s'.tasks == Goto(s, x, pc).tasks && s'.workers == s.workers && s'.started == s.started
    ensures Lighter(s, s', w, x)
  {}

  lemma DropLighter(s: System, w: nat, x: nat)
    requires w in s.workers && x in s.tasks
    ensures Lighter(s, Drop(s, x), w, x)
  {}

  /** A call of a task, or its end. */
  predicate IsTaskStep(step: Step) {
    || step.SetProcessingStep? || step.ExecuteStep? || step.PushStep? || step.AckStep? || step.DeleteStep?
    || step.FinishStep? || step.PanicStep?
  }

  /** A task's step lowers its own weight only, whichever worker runs it. */
  lemma TaskStepLighter(s: System, step: Step, w: nat)
    requires Enabled(s, step) && w in s.workers
    requires IsTaskStep(step)
    ensures Lighter(s, Next(s, step), w, step.e)
  {
    hide Lighter, Drop, WriteStatus, Final, ResultFields;
    match step
    case SetProcessingStep(x, took) => GotoLighter(s, ShowProcessing(s, x, took), w, x, Execute);
    case ExecuteStep(x, response) => GotoLighter(s, Executed(s, x, response), w, x, Push(response));
    case PushStep(x, took) => GotoLighter(s, PushResponse(s, x, s.tasks[x].pc.response, took), w, x, Ack);
    case AckStep(x, took) => GotoLighter(s, Acknowledge(s, x, took), w, x, if took then Delete else Finish);
    case DeleteStep(x, took) => GotoLighter(s, DeleteEntry(s, x, took), w, x, Finish);
    case FinishStep(x) => DropLighter(s, w, x);
    case PanicStep(x) => DropLighter(s, w, x);
  }

  lemma TaskMeasure(s: System, step: Step, w: nat)
    requires Inv(s) && Enabled(s, step) && w in s.workers && Own(s, w, step) && !step.SpawnStep?
    ensures w in Next(s, step).workers && Measure(Next(s, step), w) < Measure(s, w)
  {
    hide StreamInv, JobsInv, QueueInv, TaskInv, HistoryInv, HashInv, PermitInv, Next, Weight, Final;
    TaskAt(s, step.e);
    StartedOnce(s);
    TaskStepLighter(s, step, w);
    LessWork(s.tasks, Next(s, step).tasks, w, s.started, step.e);
  }

  lemma StartedOnce(s: System)
    requires HistoryInv(s)
    ensures NoRepeat(s.started)
  {}

  /** Every step of a worker's own brings its hand-over and its tasks closer to the end. */
  lemma OwnStepDecreases(s: System, step: Step, w: nat)
    requires Inv(s) && Enabled(s, step) && w in s.workers && Own(s, w, step)
    ensures w in Next(s, step).workers && Measure(Next(s, step), w) < Measure(s, w)
  {
    if step.SpawnStep? {
      SpawnMeasure(s, w);
    } else {
      TaskMeasure(s, step, w);
    }
  }

  lemma OtherSpawn(s: System, v: nat, w: nat)
    requires Inv(s) && Enabled(s, SpawnStep(v)) && w in s.workers && v != w
    ensures w in Next(s, SpawnStep(v)).workers && Measure(Next(s, SpawnStep(v)), w) == Measure(s, w)
  {
    hide StreamInv, JobsInv, QueueInv, TaskInv, HistoryInv, HashInv, PermitInv;
    QueueHead(s, v);
    var s' := Next(s, SpawnStep(v));
    WaitingIsFresh(s, s.workers[v].queue[0]);
    SameWork(s.tasks, s'.tasks, w, s.started);
    assert s'.started[..|s.started|] == s.started;
  }

  lemma CrashWeights(s: System, v: nat, w: nat)
    requires w in s.workers && v != w
    ensures forall e :: Weight(Crash(s, v).tasks, w, e) == Weight(s.tasks, w, e)
    ensures w in Crash(s, v).workers && Crash(s, v).workers[w] == s.workers[w]
  {}

  lemma CrashMeasure(s: System, v: nat, w: nat)
    requires Enabled(s, CrashStep(v)) && w in s.workers && v != w
    ensures w in Next(s, CrashStep(v)).workers && Measure(Next(s, CrashStep(v)), w) == Measure(s, w)
  {
    hide Weight, Crash;
    CrashWeights(s, v, w);
    SameWork(s.tasks, Crash(s, v).tasks, w, s.started);
    CrashStarted(s, v);
  }

  lemma CrashStarted(s: System, v: nat)
    ensures Crash(s, v).started == s.started
  {}

  lemma OtherTask(s: System, step: Step, w: nat)
    requires Enabled(s, step) && w in s.workers && !Own(s, w, step)
    requires IsTaskStep(step)
    ensures w in Next(s, step).workers && Measure(Next(s, step), w) == Measure(s, w)
  {
    hide Next, Weight, Final;
    TaskStepLighter(s, step, w);
    SameWork(s.tasks, Next(s, step).tasks, w, s.started);
  }

  /** Servers, the clock, new workers and reads leave tasks and the queue of `w` alone. */
  lemma QuietMeasure(s: System, step: Step, w: nat)
    requires Enabled(s, step) && w in s.workers && !(step.ReadStep? && step.w == w)
    requires step.EnqueueStep? || step.ForeignStep? || step.StartWorkerStep? || step.ReadStep? || step.TickStep?
    ensures w in Next(s, step).workers && Measure(Next(s, step), w) == Measure(s, w)
  {}

  /** Nothing anybody else does adds to it: servers, the clock, other workers, their crashes. */
  lemma OtherStepKeeps(s: System, step: Step, w: nat)
    requires Inv(s) && Enabled(s, step) && w in s.workers && !Own(s, w, step)
    requires !(step.CrashStep? && step.w == w) && !(step.ReadStep? && step.w == w)
    ensures w in Next(s, step).workers && Measure(Next(s, step), w) == Measure(s, w)
  {
    hide StreamInv, JobsInv, QueueInv, TaskInv, HistoryInv, HashInv, PermitInv, Next, Enabled, Measure;
    match step
    case SpawnStep(v) => OtherSpawn(s, v, w);
    case SetProcessingStep(_, _) => OtherTask(s, step, w);
    case ExecuteStep(_, _) => OtherTask(s, step, w);
    case PushStep(_, _) => OtherTask(s, step, w);
    case AckStep(_, _) => OtherTask(s, step, w);
    case DeleteStep(_, _) => OtherTask(s, step, w);
    case FinishStep(_) => OtherTask(s, step, w);
    case PanicStep(_) => OtherTask(s, step, w);
    case CrashStep(v) => CrashMeasure(s, v, w);
    case _ => QuietMeasure(s, step, w);
  }

  /** While jobs wait in the queue the worker is never stuck: a permit is free, or one of its
      running tasks has a call to make. */
  lemma NeverStuck(s: System, w: nat) returns (step: Step)
    requires Inv(s) && w in s.workers && s.workers[w].queue != []
    ensures Enabled(s, step) && Own(s, w, step) && !step.PanicStep?
  {
    hide Inv;
    step := SpawnStep(w);
    if s.workers[w].available == 0 {
      var e := FullMeansHeld(s, w);
      CallEnabled(s, e);
      step := NextCall(s.tasks[e].pc, e);
    }
  }

  function OwnSteps(s: System, steps: seq<Step>, w: nat): nat
    requires Runs(s, steps)
    decreases steps
  {
    if steps == [] then 0
    else (if Own(s, w, steps[0]) then 1 else 0) + OwnSteps(Next(s, steps[0]), steps[1..], w)
  }

  /** In every run in which worker `w` neither crashes nor reads again (it reads only once its queue
      is empty), its own steps are bounded by the work it had, so a hand-over whose tasks keep
      making their calls ends. */
  lemma {:induction false} HandOverBounded(s: System, steps: seq<Step>, w: nat)
    requires Inv(s) && Runs(s, steps) && w in s.workers
    requires forall k :: 0 <= k < |steps| ==>
        !(steps[k].CrashStep? && steps[k].w == w) && !(steps[k].ReadStep? && steps[k].w == w)
    ensures w in After(s, steps).workers
    ensures OwnSteps(s, steps, w) + Measure(After(s, steps), w) <= Measure(s, w)
    decreases steps
  {
    if steps != [] {
      hide Inv, Next, Enabled, Own, Measure;
      var rest := steps[1..];
      assert forall k :: 0 <= k < |rest| ==> rest[k] == steps[k + 1];
      StepKeepsInv(s, steps[0]);
      if Own(s, w, steps[0]) {
        OwnStepDecreases(s, steps[0], w);
      } else {
        OtherStepKeeps(s, steps[0], w);
      }
      HandOverBounded(Next(s, steps[0]), rest, w);
    }
  }

  lemma {:induction false} NoWorkNoTask(tasks: map<nat, Task>, w: nat, started: seq<nat>)
    ensures WorkLeft(tasks, w, started) == 0 <==> forall e :: e in started ==> !(e in tasks && tasks[e].worker == w)
  {
    if started != [] {
      var before, last := started[..|started| - 1], started[|started| - 1];
      NoWorkNoTask(tasks, w, before);
      assert started == before + [last];
    }
  }

  /** No work is left exactly when the queue is empty and no task of the worker is left. */
  lemma NoWorkLeftIff(s: System, w: nat)
    requires Inv(s) && w in s.workers
    ensures Measure(s, w) == 0 <==> s.workers[w].queue == [] && Held(s, w) == {}
  {
    hide StreamInv, JobsInv, QueueInv, TaskInv, HistoryInv, HashInv, PermitInv;
    NoWorkNoTask(s.tasks, w, s.started);
    forall e | e in Held(s, w) ensures e in s.started {
      TaskAt(s, e);
    }
    forall e | e in s.started && e in s.tasks && s.tasks[e].worker == w ensures e in Held(s, w) {}
  }

  /** The hand-over is over: the queue is empty and every task of the worker has ended. */
  predicate HandedOver(s: System, w: nat)
    requires w in s.workers
  {
    s.workers[w].queue == [] && Held(s, w) == {}
  }

  lemma TasksAreHeld(s: System, w: nat, step: Step)
    requires w in s.workers && Enabled(s, step) && Own(s, w, step)
    ensures !HandedOver(s, w)
  {
    if step.SpawnStep? {
      assert s.workers[w].queue != [];
    } else {
      assert step.e in Held(s, w);
    }
  }

  /** In every reachable state, whatever panics and failed calls came before, a worker can take no step of its
      own if and only if it has handed its batch over and its tasks have ended. */
  lemma OverIffNothingToDo(s: System, w: nat)
    requires Inv(s) && w in s.workers
    ensures (forall step :: !(Enabled(s, step) && Own(s, w, step))) <==> HandedOver(s, w)
  {
    hide Inv, Enabled, Own;
    if HandedOver(s, w) {
      forall step | Enabled(s, step) ensures !Own(s, w, step) {
        if Own(s, w, step) {
          TasksAreHeld(s, w, step);
        }
      }
    } else if s.workers[w].queue != [] {
      var step := NeverStuck(s, w);
    } else {
      var e :| e in Held(s, w);
      CallEnabled(s, e);
      OwnCall(s, w, e);
    }
  }

  lemma OwnCall(s: System, w: nat, e: nat)
    requires e in s.tasks && s.tasks[e].worker == w
    ensures Own(s, w, NextCall(s.tasks[e].pc, e))
  {}

  /** Every hand-over ends: in every run in which worker `w` neither crashes nor reads again, its own steps are
      bounded by the work it had, and once it can take none it has handed over with every permit free. The same
      when it has taken as many as it had work. */
  lemma HandOverEnds(s: System, steps: seq<Step>, w: nat)
    requires Inv(s) && Runs(s, steps) && w in s.workers
    requires forall k :: 0 <= k < |steps| ==>
      !(steps[k].CrashStep? && steps[k].w == w) && !(steps[k].ReadStep? && steps[k].w == w)
    ensures
      var s' := After(s, steps);
      && w in s'.workers && OwnSteps(s, steps, w) <= Measure(s, w)
      && ((forall step :: !(Enabled(s', step) && Own(s', w, step))) <==> HandedOver(s', w))
      && (OwnSteps(s, steps, w) == Measure(s, w) ==> HandedOver(s', w))
      && (HandedOver(s', w) ==> s'.workers[w].available == s'.workers[w].capacity)
  {
    hide StreamInv, JobsInv, QueueInv, TaskInv, HistoryInv, HashInv, Next, Enabled, Own, Measure, OwnSteps;
    HandOverBounded(s, steps, w);
    RunKeepsInv(s, steps);
    NoWorkLeftIff(After(s, steps), w);
    OverIffNothingToDo(After(s, steps), w);
  }
}
