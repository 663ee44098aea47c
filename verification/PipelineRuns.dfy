/** Guarantees over whole runs: results last ten minutes and never change, nothing executes twice,
    every entry is accounted for, and a result is lost only by its own failed push. */
module PipelineRuns {
  import opened Types
  import opened StatusHash
  import opened Redis
  import opened Stream
  import opened Pipeline
  import opened PipelineInvariant
  import opened PipelineTheorems

  // ------------------------------------------------------------------- polling

  /** After any run from the empty system a poll answers the job table. */
  lemma PollAfterAnyRun(steps: seq<Step>, id: string)
    requires Runs(START, steps)
    ensures
      var s := After(START, steps);
      && Poll(s, id) == TableAnswer(TableEntry(s, id))
      && (TableEntry(s, id).Done? ==> s.jobs[id] in s.executed && TableEntry(s, id).response == s.executed[s.jobs[id]])
  {
    InitInv();
    RunKeepsInv(START, steps);
    PollReadsTable(After(START, steps), id);
  }

  lemma {:induction false} PushedStays(s: System, steps: seq<Step>, id: string)
    requires Inv(s) && Runs(s, steps) && id in s.jobs && s.jobs[id] in s.pushed
    ensures
      var s' := After(s, steps);
      && Inv(s') && s.db.clock <= s'.db.clock
      && id in s'.jobs && s'.jobs[id] == s.jobs[id] && s.jobs[id] in s'.pushed
        && s'.pushed[s.jobs[id]] == s.pushed[s.jobs[id]]
    decreases steps
  {
    if steps != [] {
      hide StreamInv, JobsInv, QueueInv, TaskInv, HistoryInv, HashInv, PermitInv, Next, Enabled;
      StepOnJob(s, steps[0], id);
      StepKeepsInv(s, steps[0]);
      PushedStays(Next(s, steps[0]), steps[1..], id);
    }
  }

  /** Once a push took effect, whatever happens next every poll within 600 seconds returns exactly
      the published result, and every later poll finds nothing. */
  lemma ResultLasts(s: System, steps: seq<Step>, id: string)
    requires Inv(s) && Runs(s, steps) && id in s.jobs && s.jobs[id] in s.pushed
    ensures
      var pushed := s.pushed[s.jobs[id]];
      var s' := After(s, steps);
      Poll(s', id) == if s'.db.clock <= pushed.at + 600000
        then Answered(Published(pushed.response)) else NotFound
  {
    hide StreamInv, JobsInv, QueueInv, TaskInv, HistoryInv, HashInv, PermitInv, Next, Enabled;
    PushedStays(s, steps, id);
    var s' := After(s, steps);
    PollReadsTable(s', id);
    HashAt(s', id);
  }

  // ------------------------------------------------------------- at most once

  lemma StepKeepsExecuted(s: System, step: Step, e: nat)
    requires Inv(s) && Enabled(s, step) && e in s.executed
    ensures e in Next(s, step).executed
    ensures !(step.ExecuteStep? && step.e == e)
  {
    hide StreamInv, JobsInv, QueueInv, TaskInv, HistoryInv, HashInv, PermitInv;
    if step.ExecuteStep? {
      TaskAt(s, step.e);
    }
  }

  lemma ExecuteRecords(s: System, step: Step)
    requires Enabled(s, step) && step.ExecuteStep?
    ensures step.e in Next(s, step).executed
  {}

  lemma {:induction false} NotExecutedAgain(s: System, steps: seq<Step>, e: nat)
    requires Inv(s) && Runs(s, steps) && e in s.executed
    ensures forall k :: 0 <= k < |steps| ==> !(steps[k].ExecuteStep? && steps[k].e == e)
    decreases steps
  {
    if steps != [] {
      hide Inv, Next, Enabled;
      var rest := steps[1..];
      StepKeepsExecuted(s, steps[0], e);
      StepKeepsInv(s, steps[0]);
      NotExecutedAgain(Next(s, steps[0]), rest, e);
      forall k | 0 <= k < |steps| ensures !(steps[k].ExecuteStep? && steps[k].e == e) {
        if k > 0 {
          assert steps[k] == rest[k - 1];
        }
      }
    }
  }

  /** In no run, whatever the workers, batches, crashes and restarts, is an entry executed twice. */
  lemma {:induction false} ExecutedAtMostOnce(s: System, steps: seq<Step>)
    requires Inv(s) && Runs(s, steps)
    ensures forall i, j :: 0 <= i < j < |steps| && steps[i].ExecuteStep? && steps[j].ExecuteStep? ==>
      steps[i].e != steps[j].e
    decreases steps
  {
    if steps != [] {
      hide Inv, Next, Enabled;
      StepKeepsInv(s, steps[0]);
      var rest := steps[1..];
      ExecutedAtMostOnce(Next(s, steps[0]), rest);
      if steps[0].ExecuteStep? {
        ExecuteRecords(s, steps[0]);
        NotExecutedAgain(Next(s, steps[0]), rest, steps[0].e);
      }
      forall i, j | 0 <= i < j < |steps| && steps[i].ExecuteStep?
        && steps[j].ExecuteStep? ensures steps[i].e != steps[j].e {
        assert steps[j] == rest[j - 1];
        if i > 0 {
          assert steps[i] == rest[i - 1];
        }
      }
    }
  }

  /** The history of task starts never lists an entry twice, and lists only well-formed entries that
      were delivered. */
  lemma StartedAtMostOnce(steps: seq<Step>)
    requires Runs(START, steps)
    ensures
      var s := After(START, steps);
      && (forall i, j :: 0 <= i < j < |s.started| ==> s.started[i] != s.started[j])
      && (forall e :: e in s.started ==> e < s.db.delivered && JobAt(s, e).Some?)
  {
    InitInv();
    RunKeepsInv(START, steps);
  }

  // -------------------------------------------------------------- conservation

  datatype Place = Undelivered | PendingList | Acknowledged | Deleted

  /** The four places an entry can be in, each by its own condition on the store. */
  predicate IsIn(s: System, e: nat, p: Place) {
    match p
    case Undelivered => e >= s.db.delivered && e in s.db.present
    case PendingList => e in s.db.pel
    case Acknowledged => e < s.db.delivered && e !in s.db.pel && e in s.db.present
    case Deleted => e !in s.db.present
  }

  function PlaceOf(s: System, e: nat): Place {
    if e >= s.db.delivered then Undelivered
    else if e in s.db.pel then PendingList
    else if e in s.db.present then Acknowledged
    else Deleted
  }

  /** Every entry ever added is in exactly one of the four places. */
  lemma Conservation(s: System, e: nat)
    requires Inv(s) && e < |s.db.entries|
    ensures forall p: Place :: IsIn(s, e, p) <==> p == PlaceOf(s, e)
  {
    forall p: Place ensures IsIn(s, e, p) <==> p == PlaceOf(s, e) {
      match p {
        case Undelivered =>
        case PendingList =>
        case Acknowledged =>
        case Deleted =>
      }
    }
  }

  function PlaceRank(p: Place): nat {
    match p
    case Undelivered => 0
    case PendingList => 1
    case Acknowledged => 2
    case Deleted => 3
  }

  /** What a step may do to the place of entry `e`. */
  ghost predicate PlaceEffect(s: System, s': System, e: nat)
    requires e < |s.db.entries|
  {
    && e < |s'.db.entries| && s'.db.entries[e] == s.db.entries[e]
    && PlaceRank(PlaceOf(s, e)) <= PlaceRank(PlaceOf(s', e)) <= PlaceRank(PlaceOf(s, e)) + 1
  }

  lemma ReadPlace(s: System, w: nat, replied: bool, e: nat)
    requires Inv(s) && Enabled(s, ReadStep(w, replied)) && e < |s.db.entries|
    ensures PlaceEffect(s, Next(s, ReadStep(w, replied)), e)
  {
    hide JobsInv, QueueInv, TaskInv, HistoryInv, HashInv, PermitInv;
    ReadStream(s, Next(s, ReadStep(w, replied)), s.workers[w].batch);
  }

  lemma AckPlace(s: System, step: Step, e: nat)
    requires Inv(s) && Enabled(s, step) && (step.AckStep? || step.DeleteStep?) && e < |s.db.entries|
    ensures PlaceEffect(s, Next(s, step), e)
  {
    hide JobsInv, QueueInv, TaskInv, HistoryInv, HashInv, PermitInv;
    TaskAt(s, step.e);
  }

  lemma PlaceFrame(s: System, s': System, e: nat)
    requires e < |s.db.entries| && s.db.entries <= s'.db.entries
    requires s'.db.delivered == s.db.delivered && s'.db.pel == s.db.pel
    requires e in s.db.present <==> e in s'.db.present
    ensures PlaceEffect(s, s', e)
  {}

  lemma WritePlace(s: System, s': System, id: string, fields: Fields, e: nat)
    requires e < |s.db.entries|
    requires s'.db == WriteStatus(s.db, id, fields)
    ensures PlaceEffect(s, s', e)
  {}

  lemma AcceptPlace(s: System, id: string, json: string, payload: TaskPayload, taskType: string, e: nat)
    requires e < |s.db.entries|
    ensures PlaceEffect(s, Accept(s, id, json, payload, taskType), e)
  {
    WriteStatusIs(s.db, id, PENDING_FIELDS);
    PlaceFrame(s, Accept(s, id, json, payload, taskType), e);
  }

  /** Entries stay in the stream history and only move forward, one place at a time. */
  lemma PlaceAdvances(s: System, step: Step, e: nat)
    requires Inv(s) && Enabled(s, step) && e < |s.db.entries|
    ensures PlaceEffect(s, Next(s, step), e)
  {
    hide Inv, PlaceEffect, Final, ResultFields, WriteStatus, Accept, Read, ParseEntry;
    var s' := Next(s, step);
    match step
    case ReadStep(w, replied) => ReadPlace(s, w, replied, e);
    case DeleteStep(_, _) => AckPlace(s, step, e);
    case AckStep(_, _) => AckPlace(s, step, e);
    case EnqueueStep(id, json, payload, taskType, took) =>
      if took { AcceptPlace(s, id, json, payload, taskType, e); } else { PlaceFrame(s, s', e); }
    case SetProcessingStep(x, took) =>
      if took { WritePlace(s, s', s.tasks[x].job.id, PROCESSING_FIELDS, e); } else { PlaceFrame(s, s', e); }
    case PushStep(x, took) =>
      if took { WritePlace(s, s', s.tasks[x].job.id, ResultFields(s.tasks[x].pc.response), e); } else { PlaceFrame(s,
        s', e); }
    case _ => PlaceFrame(s, s', e);
  }

  /** An entry is acknowledged, and so deleted, only after its execution ended and its push was attempted. */
  lemma AcknowledgedAfterPush(s: System, e: nat)
    requires Inv(s) && e < |s.db.entries|
    requires PlaceOf(s, e).Acknowledged? || PlaceOf(s, e).Deleted?
    ensures e in s.attempted && e in s.executed && e in s.started
  {}

  lemma {:induction false} EntryStays(s: System, steps: seq<Step>, e: nat)
    requires Inv(s) && Runs(s, steps) && e < |s.db.entries|
    ensures
      var s' := After(s, steps);
      Inv(s') && e < |s'.db.entries| && s'.db.entries[e] == s.db.entries[e]
    decreases steps
  {
    hide Inv, Next, Enabled, PlaceOf;
    if steps != [] {
      StepKeepsInv(s, steps[0]);
      PlaceAdvances(s, steps[0], e);
      EntryStays(Next(s, steps[0]), steps[1..], e);
    }
  }

  /** An entry that is no job can always turn up. No submission is ever tied to it and no task is started for it,
      but it is never acknowledged or deleted either: it stays in the stream for good. */
  lemma ForeignStays(s: System, fields: EntryFields, steps: seq<Step>)
    requires Inv(s) && ("id" !in fields || "payload" !in fields || !fields["payload"].Json?)
    ensures Enabled(s, ForeignStep(fields))
    ensures Runs(Next(s, ForeignStep(fields)), steps) ==>
      var e, s' := |s.db.entries|, After(Next(s, ForeignStep(fields)), steps);
      && e < |s'.db.entries| && s'.db.entries[e] == fields && e in s'.db.present
      && (e < s'.db.delivered ==> e in s'.db.pel)
      && e !in s'.started && forall id :: id in s'.jobs ==> s'.jobs[id] != e
  {
    hide JobsInv, HashInv, PermitInv, TaskInv, QueueInv, Runs, After;
    assert ParseEntry(|s.db.entries|, fields).None?;
    var s1 := Next(s, ForeignStep(fields));
    StepKeepsInv(s, ForeignStep(fields));
    if Runs(s1, steps) {
      EntryStays(s1, steps, |s.db.entries|);
      NoJobAt(After(s1, steps), |s.db.entries|);
    }
  }

  lemma NoJobAt(s: System, e: nat)
    requires Inv(s) && e < |s.db.entries| && ParseEntry(e, s.db.entries[e]).None?
    ensures e !in s.started && e in s.db.present && (e < s.db.delivered ==> e in s.db.pel)
    ensures forall id :: id in s.jobs ==> s.jobs[id] != e
  {}

  lemma StepPushes(s: System, step: Step, e: nat)
    requires Inv(s) && Enabled(s, step)
    ensures e in Next(s, step).pushed <==> e in s.pushed || step == PushStep(e, true)
    ensures e in Next(s, step).attempted <==>
        e in s.attempted || step == PushStep(e, true) || step == PushStep(e, false)
    ensures step.PushStep? && step.e == e ==> e !in s.attempted
  {
    hide StreamInv, JobsInv, QueueInv, TaskInv, HistoryInv, HashInv, PermitInv;
    hide WriteStatus, ResultFields, Enqueued, XReadGroup, NewEntries, ExtractIds, Final, ParseEntry, JobFields, XAck;
    hide XDel;
    if step.PushStep? {
      TaskAt(s, step.e);
    }
  }

  lemma InFirstOrRest(steps: seq<Step>, step: Step)
    requires steps != []
    ensures step in steps <==> step == steps[0] || step in steps[1..]
  {
    assert steps == [steps[0]] + steps[1..];
  }

  /** Over a run, an entry's push is attempted at most once, and its result is written exactly when that
      one attempt takes effect. */
  lemma {:induction false} PushDecides(s: System, steps: seq<Step>, e: nat)
    requires Inv(s) && Runs(s, steps)
    ensures
      var s' := After(s, steps);
      var took, failed := PushStep(e, true) in steps, PushStep(e, false) in steps;
      && (e in s'.pushed <==> e in s.pushed || took)
      && (e in s'.attempted <==> e in s.attempted || took || failed)
      && !(took && failed) && (e in s.attempted ==> !took && !failed)
    decreases steps
  {
    if steps != [] {
      hide Inv, Next, Enabled;
      StepPushes(s, steps[0], e);
      StepKeepsInv(s, steps[0]);
      PushDecides(Next(s, steps[0]), steps[1..], e);
      InFirstOrRest(steps, PushStep(e, true));
      InFirstOrRest(steps, PushStep(e, false));
    }
  }

  /** In every run, the result of an acknowledged or deleted entry is written if and only if the entry's
      own push took effect, and lost if and only if that push failed; what is written is its execution's. */
  lemma ResultWrittenIff(steps: seq<Step>, e: nat)
    requires Runs(START, steps) && e < |After(START, steps).db.entries|
    requires PlaceOf(After(START, steps), e).Acknowledged? || PlaceOf(After(START, steps), e).Deleted?
    ensures
      var s := After(START, steps);
      && (e in s.pushed <==> PushStep(e, true) in steps)
      && (e !in s.pushed <==> PushStep(e, false) in steps)
      && (e in s.pushed ==> e in s.executed && s.pushed[e].response == s.executed[e])
  {
    hide Inv, Next, Enabled, Runs, After, PlaceOf;
    InitInv();
    RunKeepsInv(START, steps);
    var s := After(START, steps);
    AcknowledgedAfterPush(s, e);
    PushDecides(START, steps, e);
    if e in s.pushed {
      assert HistoryInv(s) by { HistoryOf(s); }
      PushedIsExecuted(s, e);
    }
  }

  /** If its push does not fail, an acknowledged or deleted entry had its own execution's result written. */
  lemma NothingLostWhenPushesTake(steps: seq<Step>, e: nat)
    requires Runs(START, steps) && PushStep(e, false) !in steps
    ensures
      var s := After(START, steps);
      e < |s.db.entries| && (PlaceOf(s, e).Acknowledged? || PlaceOf(s, e).Deleted?) ==>
        e in s.pushed && e in s.executed && s.pushed[e].response == s.executed[e]
  {
    var s := After(START, steps);
    if e < |s.db.entries| && (PlaceOf(s, e).Acknowledged? || PlaceOf(s, e).Deleted?) {
      ResultWrittenIff(steps, e);
    }
  }

  lemma HistoryOf(s: System)
    requires Inv(s)
    ensures HistoryInv(s)
  {}

  // ------------------------------------------------------------------- permits

  lemma SubsetSize<T>(a: set<T>, b: set<T>)
    requires a <= b
    ensures |a| <= |b|
  {
    if a != {} {
      var x :| x in a;
      SubsetSize(a - {x}, b - {x});
    }
  }

  function Executing(s: System, w: nat): set<nat> {
    set e | e in s.tasks && s.tasks[e].worker == w && s.tasks[e].pc.Execute?
  }

  /** In every reachable state a worker runs at most as many sandboxes as it has permits, available
      and held permits add up to the limit, and its backlog fits in one batch. */
  lemma PermitsAndBacklog(steps: seq<Step>, w: nat)
    requires Runs(START, steps) && w in After(START, steps).workers
    ensures
      var s := After(START, steps);
      var worker := s.workers[w];
      && worker.available + |Held(s, w)| == worker.capacity
      && |Executing(s, w)| <= worker.capacity
      && (worker.batch > 0 ==> |worker.queue| <= worker.batch)
  {
    InitInv();
    RunKeepsInv(START, steps);
    SubsetSize(Executing(After(START, steps), w), Held(After(START, steps), w));
  }

  /** A worker that does not crash keeps the permits and the batch size it has. */
  lemma StepKeepsConfig(s: System, step: Step, w: nat)
    requires Enabled(s, step) && w in s.workers && !(step.CrashStep? && step.w == w)
    ensures
      var s' := Next(s, step);
      w in s'.workers && s'.workers[w].capacity == s.workers[w].capacity && s'.workers[w].batch == s.workers[w].batch
  {
    hide WriteStatus, ResultFields, Enqueued, XReadGroup, NewEntries, ExtractIds, Final, ParseEntry, JobFields;
  }

  lemma {:induction false} WorkerKeepsConfig(s: System, steps: seq<Step>, w: nat)
    requires Runs(s, steps) && w in s.workers
    requires forall j :: 0 <= j < |steps| ==> !(steps[j].CrashStep? && steps[j].w == w)
    ensures
      var s' := After(s, steps);
      w in s'.workers && s'.workers[w].capacity == s.workers[w].capacity && s'.workers[w].batch == s.workers[w].batch
    decreases steps
  {
    if steps != [] {
      hide Next, Enabled;
      var rest := steps[1..];
      StepKeepsConfig(s, steps[0], w);
      assert forall j :: 0 <= j < |rest| ==> rest[j] == steps[j + 1];
      WorkerKeepsConfig(Next(s, steps[0]), rest, w);
    }
  }

  lemma StartedConfig(s: System, w: nat, c: nat, b: nat)
    requires Enabled(s, StartWorkerStep(w, c, b))
    ensures
      var s' := Next(s, StartWorkerStep(w, c, b));
      w in s'.workers && s'.workers[w].capacity == c && s'.workers[w].batch == b
  {}

  lemma {:induction false} StartedWith(s: System, steps: seq<Step>, k: nat, w: nat, c: nat, b: nat)
    requires Runs(s, steps) && k < |steps| && steps[k] == StartWorkerStep(w, c, b)
    requires forall j :: k < j < |steps| ==> !(steps[j].CrashStep? && steps[j].w == w)
    ensures
      var s' := After(s, steps);
      w in s'.workers && s'.workers[w].capacity == c && s'.workers[w].batch == b
    decreases steps
  {
    hide Next, Enabled;
    var rest := steps[1..];
    assert forall j :: 0 <= j < |rest| ==> rest[j] == steps[j + 1];
    if k == 0 {
      StartedConfig(s, w, c, b);
      WorkerKeepsConfig(Next(s, steps[0]), rest, w);
    } else {
      StartedWith(Next(s, steps[0]), rest, k - 1, w, c, b);
    }
  }

  /** In every run, a worker started with `c` permits and batches of `b` that has not crashed since holds and
      offers exactly `c` permits, runs at most `c` sandboxes, and has at most `b` jobs waiting (b = 0 sets no
      batch limit). */
  lemma StartedWorkerLimits(steps: seq<Step>, k: nat, w: nat, c: nat, b: nat)
    requires Runs(START, steps) && k < |steps| && steps[k] == StartWorkerStep(w, c, b)
    requires forall j :: k < j < |steps| ==> !(steps[j].CrashStep? && steps[j].w == w)
    ensures
      var s := After(START, steps);
      && w in s.workers && s.workers[w].available + |Held(s, w)| == c && |Executing(s, w)| <= c
      && (b > 0 ==> |s.workers[w].queue| <= b)
  {
    hide Next, Enabled, Runs, After, Held, Executing;
    StartedWith(START, steps, k, w, c, b);
    PermitsAndBacklog(steps, w);
  }
}
