/** Every step of the pipeline keeps the invariant. */
module PipelineInvariant {
  import opened Wrappers
  import opened Types
  import opened StatusHash
  import opened Redis
  import opened Stream
  import opened Pipeline

  // ------------------------------------------------------------ store facts

  /** A status write leaves the fields it found plus its own, and restarts the ten minutes. */
  lemma WriteStatusIs(db: Db, id: string, fields: Fields)
    ensures WriteStatus(db, id, fields) ==
      db.(hashes := db.hashes[id := Hash(HGetAll(db, id) + fields, Some(db.clock + STATUS_TTL_MS))])
  {
    assert map[] + fields == fields;
  }

  /** While nothing undelivered is deleted, a read delivers the next entries without a gap. */
  lemma {:induction false} PickContiguous(db: Db, from: nat, count: nat)
    requires forall e :: from <= e < |db.entries| ==> e in db.present
    ensures forall i :: 0 <= i < |Pick(db, from, count)| ==> Pick(db, from, count)[i] == from + i
    ensures from < |db.entries| && count > 0 ==> Pick(db, from, count) != []
    decreases |db.entries| - from
  {
    if from < |db.entries| && count > 0 {
      PickContiguous(db, from + 1, count - 1);
    }
  }

  /** The jobs of a reply are well-formed entries of the reply, in stream order. */
  lemma ReplyJobs(db: Db, picked: seq<nat>)
    requires forall i :: 0 <= i < |picked| ==> picked[i] < |db.entries|
    requires forall i, j :: 0 <= i < j < |picked| ==> picked[i] < picked[j]
    ensures
      var jobs := ExtractIds(ReplyIds(db, picked));
      && |jobs| <= |picked|
      && Increasing(jobs)
      && forall k :: 0 <= k < |jobs| ==>
           (jobs[k].entry in picked && jobs[k].entry < |db.entries|
             && ParseEntry(jobs[k].entry, db.entries[jobs[k].entry]) == Some(jobs[k]))
  {
    var ids := ReplyIds(db, picked);
    var jobs := ExtractIds(ids);
    ExtractedInOrder(ids);
    forall k | 0 <= k < |jobs|
      ensures jobs[k].entry in picked && jobs[k].entry < |db.entries|
        && ParseEntry(jobs[k].entry, db.entries[jobs[k].entry]) == Some(jobs[k])
    {
      ExtractedIff(ids, jobs[k]);
      var i :| 0 <= i < |ids| && ParseEntry(ids[i].id, ids[i].fields) == Some(jobs[k]);
      assert ids[i] == StreamId(picked[i], db.entries[picked[i]]);
    }
  }

  lemma JobFieldsParse(e: nat, id: string, json: string, payload: TaskPayload, taskType: string)
    ensures ParseEntry(e, JobFields(id, json, payload, taskType)) == Some(Job(e, id, payload))
  {
    KeysDiffer();
  }

  // --------------------------------------------- what a step need not touch

  /** Nothing already in the stream history changes. */
  ghost predicate SameHistory(s: System, s': System) {
    s.db.entries <= s'.db.entries && s.db.delivered <= s'.db.delivered <= |s'.db.entries|
  }

  lemma JobKept(s: System, s': System)
    requires s.db.entries <= s'.db.entries
    ensures forall e :: 0 <= e < |s.db.entries| ==> JobAt(s', e) == JobAt(s, e)
  {}

  lemma Bounds(s: System)
    requires StreamInv(s)
    ensures s.db.delivered <= |s.db.entries|
  {}

  /** Only entry `e0` may leave the pending list, once attempted, or the stream, once off the list. */
  lemma StreamFrame(s: System, s': System, e0: nat)
    requires StreamInv(s)
    requires s'.db.entries == s.db.entries && s'.db.delivered == s.db.delivered
    requires s'.db.pel == s.db.pel || (s'.db.pel == s.db.pel - {e0} && e0 in s'.attempted)
    requires s'.db.present == s.db.present || (s'.db.present == s.db.present - {e0} && e0 !in s'.db.pel
      && e0 < s.db.delivered)
    requires s.attempted <= s'.attempted
    ensures StreamInv(s')
  {}

  lemma TaskAt(s: System, e: nat)
    requires TaskInv(s) && e in s.tasks
    ensures TaskFits(s, e, s.tasks[e])
  {}

  /** Tasks other than `e0` are unaffected when their own history and place in the group stay. */
  lemma TaskFrame(s: System, s': System, e0: nat)
    requires TaskInv(s) && SameHistory(s, s') && s.db.delivered <= |s.db.entries|
    requires forall e :: e in s'.tasks && e != e0 ==>
        e in s.tasks && s'.tasks[e] == s.tasks[e] && s'.tasks[e].worker in s'.workers
    requires forall e :: e in s.started ==> e in s'.started
    requires forall e :: e != e0 ==> (e in s.executed <==> e in s'.executed)
    requires forall e :: e != e0 && e in s.executed ==> s'.executed[e] == s.executed[e]
    requires forall e :: e != e0 ==> (e in s.attempted <==> e in s'.attempted)
    requires forall e :: e != e0 && e < s.db.delivered ==> (e in s.db.pel <==> e in s'.db.pel)
    requires e0 in s'.tasks ==> TaskFits(s', e0, s'.tasks[e0])
    ensures TaskInv(s')
  {
    JobKept(s, s');
    forall e | e in s'.tasks && e != e0 ensures TaskFits(s', e, s'.tasks[e]) {
      assert TaskFits(s, e, s.tasks[e]);
    }
  }

  /** Queues that stay, or become empty, keep waiting jobs waiting. */
  lemma QueueFrame(s: System, s': System)
    requires QueueInv(s) && SameHistory(s, s') && s.db.delivered <= |s.db.entries|
    requires s'.started == s.started
    requires forall w :: w in s'.workers && s'.workers[w].queue != [] ==>
      (w in s.workers && s'.workers[w].queue == s.workers[w].queue && s'.workers[w].batch == s.workers[w].batch)
    requires forall e :: e in s.db.pel && e !in s.started ==> e in s'.db.pel
    ensures QueueInv(s')
  {
    JobKept(s, s');
    forall w, i | w in s'.workers && 0 <= i < |s'.workers[w].queue| ensures Waiting(s', s'.workers[w].queue[i]) {
      assert Waiting(s, s.workers[w].queue[i]);
    }
  }

  lemma HistoryFrame(s: System, s': System)
    requires HistoryInv(s) && SameHistory(s, s') && s.db.delivered <= |s.db.entries|
    requires s'.started == s.started && s'.executed == s.executed && s'.attempted == s.attempted
      && s'.pushed == s.pushed
    requires s.db.clock <= s'.db.clock
    ensures HistoryInv(s')
  {}

  lemma JobsFrame(s: System, s': System)
    requires JobsInv(s) && s'.db.entries == s.db.entries && s'.jobs == s.jobs && s'.db.hashes.Keys == s.db.hashes.Keys
    ensures JobsInv(s')
  {
    JobKept(s, s');
  }

  lemma HashFrame(s: System, s': System)
    requires HashInv(s) && s'.jobs == s.jobs && s'.pushed == s.pushed && s'.db.hashes == s.db.hashes
    ensures HashInv(s')
  {}

  lemma PermitFrame(s: System, s': System)
    requires PermitInv(s) && s'.tasks.Keys == s.tasks.Keys
    requires forall e :: e in s.tasks ==> s'.tasks[e].worker == s.tasks[e].worker
    requires forall w :: w in s'.workers ==>
      (w in s.workers && s'.workers[w].available == s.workers[w].available
        && s'.workers[w].capacity == s.workers[w].capacity)
    ensures PermitInv(s')
  {
    forall w | w in s'.workers ensures s'.workers[w].available + |Held(s', w)| == s'.workers[w].capacity
      && s'.workers[w].capacity > 0 {
      assert Held(s', w) == Held(s, w);
    }
  }

  /** A started entry is one of the delivered ones, and nothing past it has any history. */
  lemma NoHistoryYet(s: System)
    requires HistoryInv(s)
    ensures forall e :: e >= s.db.delivered ==>
        e !in s.started && e !in s.executed && e !in s.attempted && e !in s.pushed
  {}

  // ------------------------------------------------------- servers and the clock

  lemma EnqueueJobs(s: System, s': System, id: string, job: EntryFields)
    requires JobsInv(s) && id !in s.jobs
    requires s'.db.entries == s.db.entries + [job] && s'.jobs == s.jobs[id := |s.db.entries|]
    requires s'.db.hashes.Keys == s.db.hashes.Keys + {id}
    requires ParseEntry(|s.db.entries|, job).Some? && ParseEntry(|s.db.entries|, job).value.id == id
    ensures JobsInv(s')
  {
    JobKept(s, s');
    assert JobAt(s', |s.db.entries|) == ParseEntry(|s.db.entries|, job);
    forall i | i in s'.jobs ensures JobAt(s', s'.jobs[i]).Some? && JobAt(s', s'.jobs[i]).value.id == i {
      if i != id {
        assert JobAt(s, s.jobs[i]).Some?;
      }
    }
  }

  lemma EnqueueHash(s: System, s': System, id: string, hash: Hash)
    requires HashInv(s) && id !in s.jobs && |s.db.entries| !in s.pushed
    requires s'.jobs == s.jobs[id := |s.db.entries|] && s'.db.hashes == s.db.hashes[id := hash] && s'.pushed == s.pushed
    requires hash.fields == PENDING_FIELDS && hash.expiresAt.Some?
    ensures HashInv(s')
  {
    forall i | i in s'.jobs && i in s'.db.hashes ensures HashFits(s', s'.jobs[i], s'.db.hashes[i]) {
      if i != id {
        assert HashFits(s, s.jobs[i], s.db.hashes[i]);
      }
    }
  }

  lemma AppendStream(s: System, s': System, fields: EntryFields)
    requires StreamInv(s)
    requires s'.db.entries == s.db.entries + [fields] && s'.db.present == s.db.present + {|s.db.entries|}
    requires s'.db.delivered == s.db.delivered && s'.db.pel == s.db.pel && s'.attempted == s.attempted
    ensures StreamInv(s')
  {}

  /** Appending an entry touches the stream only. */
  lemma AppendFrames(s: System, s': System, fields: EntryFields)
    requires Inv(s)
    requires s'.db.entries == s.db.entries + [fields] && s'.db.present == s.db.present + {|s.db.entries|}
    requires s'.db.delivered == s.db.delivered && s'.db.pel == s.db.pel && s'.db.clock == s.db.clock
    requires s'.workers == s.workers && s'.tasks == s.tasks && s'.started == s.started
    requires s'.executed == s.executed && s'.attempted == s.attempted && s'.pushed == s.pushed
    ensures StreamInv(s') && QueueInv(s') && TaskInv(s') && HistoryInv(s') && PermitInv(s')
    ensures |s.db.entries| !in s.pushed
  {
    hide StreamInv, JobsInv, QueueInv, TaskInv, HistoryInv, HashInv, PermitInv;
    Bounds(s);
    NoHistoryYet(s);
    AppendStream(s, s', fields);
    WorkersOfTasks(s);
    NoTask(s, |s.db.entries|);
    TaskFrame(s, s', |s.db.entries|);
    QueueFrame(s, s');
    HistoryFrame(s, s');
    PermitFrame(s, s');
  }

  lemma WorkersOfTasks(s: System)
    requires TaskInv(s)
    ensures forall e :: e in s.tasks ==> s.tasks[e].worker in s.workers
  {}

  /** Entries past the delivered ones have no task. */
  lemma NoTask(s: System, e: nat)
    requires TaskInv(s) && e >= s.db.delivered
    ensures e !in s.tasks
  {}

  lemma KeepEnqueue(s: System, id: string, json: string, payload: TaskPayload, taskType: string)
    requires Inv(s) && id !in s.jobs
    ensures Inv(Next(s, EnqueueStep(id, json, payload, taskType, true)))
  {
    hide StreamInv, JobsInv, QueueInv, TaskInv, HistoryInv, HashInv, PermitInv;
    var s' := Next(s, EnqueueStep(id, json, payload, taskType, true));
    var job := JobFields(id, json, payload, taskType);
    WriteStatusIs(s.db, id, PENDING_FIELDS);
    JobFieldsParse(|s.db.entries|, id, json, payload, taskType);
    HashKeys(s);
    assert id !in s.db.hashes && HGetAll(s.db, id) + PENDING_FIELDS == PENDING_FIELDS;
    AppendFrames(s, s', job);
    EnqueueJobs(s, s', id, job);
    EnqueueHash(s, s', id, s'.db.hashes[id]);
  }

  lemma HashKeys(s: System)
    requires JobsInv(s)
    ensures s.db.hashes.Keys == s.jobs.Keys
  {}

  lemma ForeignJobs(s: System, s': System, fields: EntryFields)
    requires JobsInv(s) && ParseEntry(|s.db.entries|, fields) == None
    requires s'.db.entries == s.db.entries + [fields] && s'.jobs == s.jobs && s'.db.hashes.Keys == s.db.hashes.Keys
    ensures JobsInv(s')
  {
    JobKept(s, s');
    assert JobAt(s', |s.db.entries|) == None;
  }

  lemma KeepForeign(s: System, fields: EntryFields)
    requires Inv(s) && ParseEntry(|s.db.entries|, fields) == None
    ensures Inv(Next(s, ForeignStep(fields)))
  {
    hide StreamInv, JobsInv, QueueInv, TaskInv, HistoryInv, HashInv, PermitInv;
    var s' := Next(s, ForeignStep(fields));
    AppendFrames(s, s', fields);
    ForeignJobs(s, s', fields);
    HashFrame(s, s');
  }

  lemma KeepTick(s: System, ms: nat)
    requires Inv(s)
    ensures Inv(Next(s, TickStep(ms)))
  {
    hide StreamInv, JobsInv, QueueInv, TaskInv, HistoryInv, HashInv, PermitInv;
    var s' := Next(s, TickStep(ms));
    Bounds(s);
    WorkersOfTasks(s);
    NoTask(s, s.db.delivered);
    StreamFrame(s, s', 0);
    JobsFrame(s, s');
    TaskFrame(s, s', s.db.delivered);
    QueueFrame(s, s');
    HistoryFrame(s, s');
    HashFrame(s, s');
    PermitFrame(s, s');
  }

  // ------------------------------------------------------------------ workers

  lemma KeepStartWorker(s: System, w: nat, capacity: nat, batch: nat)
    requires Inv(s) && w !in s.workers && capacity > 0
    ensures Inv(Next(s, StartWorkerStep(w, capacity, batch)))
  {
    hide StreamInv, JobsInv, QueueInv, TaskInv, HistoryInv, HashInv, PermitInv;
    var s' := Next(s, StartWorkerStep(w, capacity, batch));
    Bounds(s);
    WorkersOfTasks(s);
    NoTask(s, s.db.delivered);
    StreamFrame(s, s', 0);
    JobsFrame(s, s');
    TaskFrame(s, s', s.db.delivered);
    QueueFrame(s, s');
    HistoryFrame(s, s');
    HashFrame(s, s');
    NewWorkerPermits(s, s', w, capacity, batch);
  }

  lemma NewWorkerPermits(s: System, s': System, w: nat, capacity: nat, batch: nat)
    requires PermitInv(s) && TaskInv(s) && w !in s.workers && capacity > 0
    requires s' == s.(workers := s.workers[w := Worker(capacity, capacity, batch, [])])
    ensures PermitInv(s')
  {}

  /** The delivered entries move from undelivered to pending, without a gap. */
  lemma ReadStream(s: System, s': System, count: nat)
    requires StreamInv(s) && s'.db == XReadGroup(s.db, count) && s'.attempted == s.attempted
    ensures StreamInv(s')
    ensures s'.db.entries == s.db.entries && s'.db.hashes == s.db.hashes && s'.db.clock == s.db.clock
    ensures s.db.delivered <= s'.db.delivered
    ensures forall e :: e in s'.db.pel <==> e in s.db.pel || e in NewEntries(s.db, count)
    ensures forall e :: s.db.delivered <= e < s'.db.delivered ==> e in NewEntries(s.db, count)
    ensures forall i :: 0 <= i < |NewEntries(s.db, count)| ==>
      NewEntries(s.db, count)[i] == s.db.delivered + i < s'.db.delivered
  {
    var picked := NewEntries(s.db, count);
    PickContiguous(s.db, s.db.delivered, Limit(s.db, count));
    if picked != [] {
      forall e | s.db.delivered <= e < s'.db.delivered ensures e in picked {
        assert e == picked[e - s.db.delivered];
      }
    }
  }

  lemma NewQueueApart(s: System, jobs: seq<Job>, u: nat)
    requires QueueInv(s) && u in s.workers
    requires forall k :: 0 <= k < |jobs| ==> s.db.delivered <= jobs[k].entry
    ensures Apart(jobs, s.workers[u].queue) && Apart(s.workers[u].queue, jobs)
  {}

  /** The new queue holds waiting jobs only, and none that another worker has. */
  lemma ReadQueue(s: System, s': System, w: nat, jobs: seq<Job>)
    requires QueueInv(s) && HistoryInv(s) && w in s.workers && s.workers[w].queue == []
    requires SameHistory(s, s') && s'.db.entries == s.db.entries && s.db.delivered <= |s.db.entries|
    requires s'.started == s.started && s.db.pel <= s'.db.pel
    requires s'.workers == s.workers[w := s.workers[w].(queue := jobs)]
    requires Increasing(jobs) && (s.workers[w].batch > 0 ==> |jobs| <= s.workers[w].batch)
    requires forall k :: 0 <= k < |jobs| ==>
      s.db.delivered <= jobs[k].entry < s'.db.delivered && jobs[k].entry in s'.db.pel
        && JobAt(s', jobs[k].entry) == Some(jobs[k])
    ensures QueueInv(s')
  {
    NoHistoryYet(s);
    JobKept(s, s');
    forall v, i | v in s'.workers && 0 <= i < |s'.workers[v].queue| ensures Waiting(s', s'.workers[v].queue[i]) {
      if v != w {
        assert Waiting(s, s.workers[v].queue[i]);
      }
    }
    forall v, u | v in s'.workers && u in s'.workers && v != u ensures Apart(s'.workers[v].queue, s'.workers[u].queue) {
      if v == w {
        NewQueueApart(s, jobs, u);
      } else if u == w {
        NewQueueApart(s, jobs, v);
      }
    }
  }

  /** The queue a read leaves behind: jobs of the entries just delivered, in order. */
  lemma ReadJobs(s: System, s': System, w: nat, replied: bool)
    requires StreamInv(s) && w in s.workers && s' == Read(s, w, replied)
    ensures w in s'.workers && s'.workers == s.workers[w := s.workers[w].(queue := s'.workers[w].queue)]
    ensures s'.db == XReadGroup(s.db, s.workers[w].batch)
    ensures Increasing(s'.workers[w].queue)
    ensures s.workers[w].batch > 0 ==> |s'.workers[w].queue| <= s.workers[w].batch
    ensures
      var jobs := s'.workers[w].queue;
      forall k :: 0 <= k < |jobs| ==>
          jobs[k].entry in NewEntries(s.db, s.workers[w].batch) && JobAt(s, jobs[k].entry) == Some(jobs[k])
  {
    var picked := NewEntries(s.db, s.workers[w].batch);
    PickContiguous(s.db, s.db.delivered, Limit(s.db, s.workers[w].batch));
    ReplyJobs(s.db, picked);
  }

  lemma ReadRest(s: System, s': System, w: nat, replied: bool)
    requires w in s.workers && s' == Read(s, w, replied)
    ensures s'.tasks == s.tasks && s'.started == s.started && s'.executed == s.executed && s'.attempted == s.attempted
    ensures s'.pushed == s.pushed && s'.jobs == s.jobs
  {}

  lemma KeepRead(s: System, w: nat, replied: bool)
    requires Inv(s) && Enabled(s, ReadStep(w, replied))
    ensures Inv(Next(s, ReadStep(w, replied)))
  {
    hide StreamInv, JobsInv, QueueInv, TaskInv, HistoryInv, HashInv, PermitInv, Read, XReadGroup, NewEntries;
    var s' := Next(s, ReadStep(w, replied));
    ReadRest(s, s', w, replied);
    ReadJobs(s, s', w, replied);
    Bounds(s);
    ReadStream(s, s', s.workers[w].batch);
    Bounds(s');
    JobKept(s, s');
    ReadQueue(s, s', w, s'.workers[w].queue);
    WorkersOfTasks(s);
    NoTask(s, s.db.delivered);
    JobsFrame(s, s');
    TaskFrame(s, s', s.db.delivered);
    HistoryFrame(s, s');
    HashFrame(s, s');
    PermitFrame(s, s');
  }

  lemma SpawnQueue(s: System, s': System, w: nat)
    requires QueueInv(s) && w in s.workers && s.workers[w].queue != []
    requires s'.db == s.db
    requires s'.workers.Keys == s.workers.Keys && (forall v :: v in s.workers && v != w ==>
      s'.workers[v] == s.workers[v])
    requires s'.workers[w].queue == s.workers[w].queue[1..] && s'.workers[w].batch == s.workers[w].batch
    requires s'.started == s.started + [s.workers[w].queue[0].entry]
    ensures QueueInv(s')
  {
    var head := s.workers[w].queue[0];
    forall v, i | v in s'.workers && 0 <= i < |s'.workers[v].queue| ensures Waiting(s', s'.workers[v].queue[i]) {
      if v == w {
        SpawnWaiting(s, s', w, i + 1, w, head);
      } else {
        SpawnWaiting(s, s', v, i, w, head);
      }
    }
    SpawnOrder(s, s', w);
  }

  /** Every queued job but the head stays waiting when the head is started. */
  lemma SpawnWaiting(s: System, s': System, v: nat, i: nat, w: nat, head: Job)
    requires QueueInv(s) && v in s.workers && i < |s.workers[v].queue|
    requires w in s.workers && s.workers[w].queue != [] && head == s.workers[w].queue[0]
    requires v != w || i > 0
    requires s'.db == s.db && s'.started == s.started + [head.entry]
    ensures Waiting(s', s.workers[v].queue[i])
  {}

  lemma SpawnOrder(s: System, s': System, w: nat)
    requires QueueInv(s) && w in s.workers && s.workers[w].queue != []
    requires s'.workers.Keys == s.workers.Keys && (forall v :: v in s.workers && v != w ==>
      s'.workers[v] == s.workers[v])
    requires s'.workers[w].queue == s.workers[w].queue[1..] && s'.workers[w].batch == s.workers[w].batch
    ensures forall v :: v in s'.workers ==> Increasing(s'.workers[v].queue)
    ensures forall v, u :: v in s'.workers && u in s'.workers && v != u ==>
      Apart(s'.workers[v].queue, s'.workers[u].queue)
    ensures forall v :: v in s'.workers && s'.workers[v].batch > 0 ==> |s'.workers[v].queue| <= s'.workers[v].batch
  {}

  lemma SpawnHistory(s: System, s': System, e: nat)
    requires HistoryInv(s) && e !in s.started && e < s.db.delivered && JobAt(s, e).Some?
    requires s'.db == s.db && s'.started == s.started + [e]
    requires s'.executed == s.executed && s'.attempted == s.attempted && s'.pushed == s.pushed
    ensures HistoryInv(s')
  {}

  lemma SpawnPermit(s: System, s': System, w: nat, e: nat, job: Job)
    requires PermitInv(s) && w in s.workers && s.workers[w].available > 0 && e !in s.tasks
    requires s'.workers.Keys == s.workers.Keys && (forall v :: v in s.workers && v != w ==>
      s'.workers[v] == s.workers[v])
    requires s'.workers[w].available == s.workers[w].available - 1 && s'.workers[w].capacity == s.workers[w].capacity
    requires s'.tasks == s.tasks[e := Task(w, job, SetProcessing)]
    ensures PermitInv(s')
  {
    assert Held(s', w) == Held(s, w) + {e};
    forall v | v in s'.workers && v != w ensures Held(s', v) == Held(s, v) {}
  }

  lemma QueueHead(s: System, w: nat)
    requires QueueInv(s) && w in s.workers && s.workers[w].queue != []
    ensures Waiting(s, s.workers[w].queue[0])
  {}

  /** A waiting job has no task yet, so starting it never replaces a running one. */
  lemma WaitingIsFresh(s: System, job: Job)
    requires TaskInv(s) && HistoryInv(s) && Waiting(s, job)
    ensures job.entry !in s.tasks && job.entry !in s.executed
  {}

  lemma KeepSpawn(s: System, w: nat)
    requires Inv(s) && Enabled(s, SpawnStep(w))
    ensures Inv(Next(s, SpawnStep(w)))
  {
    hide StreamInv, JobsInv, QueueInv, TaskInv, HistoryInv, HashInv, PermitInv;
    var s' := Next(s, SpawnStep(w));
    var job := s.workers[w].queue[0];
    Bounds(s);
    QueueHead(s, w);
    WaitingIsFresh(s, job);
    WorkersOfTasks(s);
    StreamFrame(s, s', 0);
    SpawnQueue(s, s', w);
    SpawnHistory(s, s', job.entry);
    SpawnPermit(s, s', w, job.entry, job);
    JobsFrame(s, s');
    HashFrame(s, s');
    JobKept(s, s');
    TaskFrame(s, s', job.entry);
  }

  // -------------------------------------------------------------------- tasks

  /** A task moves on and its history with it; workers and permits stay. */
  lemma MoveFrames(s: System, s': System, e: nat)
    requires Inv(s) && e in s.tasks
    requires s'.workers == s.workers && s'.started == s.started && s'.jobs == s.jobs
    requires s'.db.entries == s.db.entries && s'.db.delivered == s.db.delivered
    requires s'.db.hashes.Keys == s.db.hashes.Keys
    requires exists pc :: s'.tasks == s.tasks[e := s.tasks[e].(pc := pc)]
    requires s'.db.pel == s.db.pel || s'.db.pel == s.db.pel - {e}
    ensures JobsInv(s') && QueueInv(s') && PermitInv(s')
  {
    hide StreamInv, JobsInv, QueueInv, TaskInv, HistoryInv, HashInv, PermitInv;
    Bounds(s);
    TaskAt(s, e);
    JobsFrame(s, s');
    QueueFrame(s, s');
    PermitFrame(s, s');
  }

  /** Where a task stands: its entry, its job, its hash, and no result before its push. */
  lemma Stand(s: System, e: nat)
    requires Inv(s) && e in s.tasks
    ensures TaskFits(s, e, s.tasks[e]) && s.db.delivered <= |s.db.entries|
    ensures s.tasks[e].job.id in s.jobs && s.jobs[s.tasks[e].job.id] == e && s.tasks[e].job.id in s.db.hashes
    ensures e !in s.attempted ==> e !in s.pushed
    ensures forall x :: x in s.tasks ==> s.tasks[x].worker in s.workers
  {
    hide StreamInv, JobsInv, QueueInv, TaskInv, HistoryInv, HashInv, PermitInv;
    Bounds(s);
    TaskAt(s, e);
    JobOf(s, e);
    WorkersOfTasks(s);
    PushedAttempted(s);
  }

  lemma PushedAttempted(s: System)
    requires HistoryInv(s)
    ensures forall x :: x in s.pushed ==> x in s.attempted
  {}

  lemma JobOf(s: System, e: nat)
    requires JobsInv(s) && JobAt(s, e).Some?
    ensures JobAt(s, e).value.id in s.jobs && s.jobs[JobAt(s, e).value.id] == e && JobAt(s, e).value.id in s.db.hashes
  {}

  lemma JobsDistinct(s: System, i: string, j: string)
    requires JobsInv(s) && i in s.jobs && j in s.jobs && i != j
    ensures s.jobs[i] != s.jobs[j]
  {}

  lemma HashAt(s: System, id: string)
    requires HashInv(s) && JobsInv(s) && id in s.jobs
    ensures id in s.db.hashes && HashFits(s, s.jobs[id], s.db.hashes[id])
  {}

  lemma HashFitsFrame(s: System, s': System, e: nat, hash: Hash)
    requires HashFits(s, e, hash)
    requires (e in s.pushed <==> e in s'.pushed) && (e in s.pushed ==> s'.pushed[e] == s.pushed[e])
    ensures HashFits(s', e, hash)
  {}

  /** A status write changes the hash of its own submission only. */
  lemma HashWrite(s: System, s': System, id: string, hash: Hash)
    requires HashInv(s) && JobsInv(s) && id in s.jobs && s'.jobs == s.jobs
    requires s'.db.hashes == s.db.hashes[id := hash]
    requires HashFits(s', s.jobs[id], hash)
    requires forall e :: e != s.jobs[id] ==>
        (e in s.pushed <==> e in s'.pushed) && (e in s.pushed ==> s'.pushed[e] == s.pushed[e])
    ensures HashInv(s')
  {
    forall i | i in s'.jobs && i in s'.db.hashes ensures HashFits(s', s'.jobs[i], s'.db.hashes[i]) {
      if i != id {
        JobsDistinct(s, i, id);
        HashAt(s, i);
        HashFitsFrame(s, s', s.jobs[i], s.db.hashes[i]);
      }
    }
  }

  lemma EarlyFieldsAbsorbed(h: Fields)
    requires h == map[] || h == PENDING_FIELDS || h == PROCESSING_FIELDS
    ensures h.Keys <= {STATUS, MESSAGE}
    ensures h + PROCESSING_FIELDS == PROCESSING_FIELDS
  {}

  /** What a live hash holds before the push: early fields only. */
  lemma EarlyHash(s: System, id: string)
    requires HashInv(s) && JobsInv(s) && id in s.jobs && s.jobs[id] !in s.pushed
    ensures HGetAll(s.db, id).Keys <= {STATUS, MESSAGE}
    ensures HGetAll(s.db, id) + PROCESSING_FIELDS == PROCESSING_FIELDS
  {
    HashAt(s, id);
    EarlyFieldsAbsorbed(HGetAll(s.db, id));
  }

  lemma KeepSetProcessing(s: System, e: nat, took: bool)
    requires Inv(s) && Enabled(s, SetProcessingStep(e, took))
    ensures Inv(Next(s, SetProcessingStep(e, took)))
  {
    hide StreamInv, JobsInv, QueueInv, TaskInv, HistoryInv, HashInv, PermitInv;
    var s' := Next(s, SetProcessingStep(e, took));
    var id := s.tasks[e].job.id;
    Stand(s, e);
    ExecutedFirst(s);
    WriteStatusIs(s.db, id, PROCESSING_FIELDS);
    MoveFrames(s, s', e);
    StreamFrame(s, s', e);
    HistoryFrame(s, s');
    TaskFrame(s, s', e);
    if took {
      EarlyHash(s, id);
      HashWrite(s, s', id, s'.db.hashes[id]);
    } else {
      HashFrame(s, s');
    }
  }

  lemma ExecutedFirst(s: System)
    requires HistoryInv(s)
    ensures forall x :: x in s.attempted ==> x in s.executed
  {}

  lemma ExecuteHistory(s: System, s': System, e: nat, response: ResponsePayload)
    requires HistoryInv(s) && e in s.started && e !in s.executed && Final(response)
    requires s'.db == s.db && s'.started == s.started && s'.executed == s.executed[e := response]
    requires s'.attempted == s.attempted && s'.pushed == s.pushed
    ensures HistoryInv(s')
  {}

  lemma KeepExecute(s: System, e: nat, response: ResponsePayload)
    requires Inv(s) && Enabled(s, ExecuteStep(e, response))
    ensures Inv(Next(s, ExecuteStep(e, response)))
  {
    hide StreamInv, JobsInv, QueueInv, TaskInv, HistoryInv, HashInv, PermitInv;
    var s' := Next(s, ExecuteStep(e, response));
    Stand(s, e);
    ExecutedFirst(s);
    MoveFrames(s, s', e);
    StreamFrame(s, s', e);
    ExecuteHistory(s, s', e, response);
    TaskFrame(s, s', e);
    HashFrame(s, s');
  }

  lemma PushHistory(s: System, s': System, e: nat)
    requires HistoryInv(s) && e in s.executed
    requires s'.db.entries == s.db.entries && s'.db.delivered == s.db.delivered && s'.db.clock == s.db.clock
    requires s'.started == s.started && s'.executed == s.executed && s'.attempted == s.attempted + {e}
    requires s'.pushed == s.pushed || s'.pushed == s.pushed[e := Pushed(s.executed[e], s.db.clock)]
    ensures HistoryInv(s')
  {}

  lemma ExecutedFinal(s: System, e: nat)
    requires HistoryInv(s) && e in s.executed
    ensures Final(s.executed[e])
  {}

  /** The pushed fields replace the early ones; nothing else stays in the hash. */
  lemma PushHash(s: System, s': System, e: nat, id: string, response: ResponsePayload)
    requires HashInv(s) && JobsInv(s) && HistoryInv(s) && id in s.jobs && s.jobs[id] == e && e !in s.pushed
    requires e in s.executed && s.executed[e] == response
    requires s'.jobs == s.jobs && s'.db == WriteStatus(s.db, id, ResultFields(response))
    requires s'.pushed == s.pushed[e := Pushed(response, s.db.clock)]
    ensures HashInv(s') && s'.db == s.db.(hashes := s'.db.hashes) && s'.db.hashes.Keys == s.db.hashes.Keys
  {
    hide StreamInv, JobsInv, QueueInv, TaskInv, HistoryInv, HashInv, PermitInv, ResultFields;
    WriteStatusIs(s.db, id, ResultFields(response));
    EarlyHash(s, id);
    ExecutedFinal(s, e);
    HashAt(s, id);
    PushRoundTrip(HGetAll(s.db, id), response);
    HashWrite(s, s', id, s'.db.hashes[id]);
  }

  lemma KeepPush(s: System, e: nat, took: bool)
    requires Inv(s) && Enabled(s, PushStep(e, took))
    ensures Inv(Next(s, PushStep(e, took)))
  {
    hide StreamInv, JobsInv, QueueInv, TaskInv, HistoryInv, HashInv, PermitInv;
    hide ResultFields;
    var s' := Next(s, PushStep(e, took));
    var id, response := s.tasks[e].job.id, s.tasks[e].pc.response;
    Stand(s, e);
    if took {
      PushHash(s, s', e, id, response);
    } else {
      HashFrame(s, s');
    }
    MoveFrames(s, s', e);
    StreamFrame(s, s', e);
    PushHistory(s, s', e);
    TaskFrame(s, s', e);
  }

  lemma KeepAck(s: System, e: nat, took: bool)
    requires Inv(s) && Enabled(s, AckStep(e, took))
    ensures Inv(Next(s, AckStep(e, took)))
  {
    hide StreamInv, JobsInv, QueueInv, TaskInv, HistoryInv, HashInv, PermitInv;
    var s' := Next(s, AckStep(e, took));
    Stand(s, e);
    MoveFrames(s, s', e);
    StreamFrame(s, s', e);
    HistoryFrame(s, s');
    TaskFrame(s, s', e);
    HashFrame(s, s');
  }

  lemma KeepDelete(s: System, e: nat, took: bool)
    requires Inv(s) && Enabled(s, DeleteStep(e, took))
    ensures Inv(Next(s, DeleteStep(e, took)))
  {
    hide StreamInv, JobsInv, QueueInv, TaskInv, HistoryInv, HashInv, PermitInv;
    var s' := Next(s, DeleteStep(e, took));
    Stand(s, e);
    MoveFrames(s, s', e);
    StreamFrame(s, s', e);
    HistoryFrame(s, s');
    TaskFrame(s, s', e);
    HashFrame(s, s');
  }

  // ---------------------------------------------------------------------- ends

  lemma DropPermit(s: System, s': System, e: nat)
    requires PermitInv(s) && e in s.tasks && s.tasks[e].worker in s.workers && s' == Drop(s, e)
    ensures PermitInv(s')
  {
    var w := s.tasks[e].worker;
    assert Held(s', w) == Held(s, w) - {e};
    forall v | v in s'.workers && v != w ensures Held(s', v) == Held(s, v) {}
  }

  lemma KeepDrop(s: System, e: nat)
    requires Inv(s) && e in s.tasks
    ensures Inv(Drop(s, e))
  {
    hide StreamInv, JobsInv, QueueInv, TaskInv, HistoryInv, HashInv, PermitInv;
    var s' := Drop(s, e);
    Stand(s, e);
    StreamFrame(s, s', e);
    DropPermit(s, s', e);
    JobsFrame(s, s');
    QueueFrame(s, s');
    HistoryFrame(s, s');
    HashFrame(s, s');
    TaskFrame(s, s', e);
  }

  lemma CrashPermit(s: System, s': System, w: nat)
    requires PermitInv(s) && w in s.workers && s' == Next(s, CrashStep(w))
    ensures PermitInv(s')
  {
    forall v | v in s'.workers ensures Held(s', v) == Held(s, v) {}
  }

  lemma KeepCrash(s: System, w: nat)
    requires Inv(s) && w in s.workers
    ensures Inv(Next(s, CrashStep(w)))
  {
    hide StreamInv, JobsInv, QueueInv, TaskInv, HistoryInv, HashInv, PermitInv;
    var s' := Next(s, CrashStep(w));
    Bounds(s);
    WorkersOfTasks(s);
    NoTask(s, s.db.delivered);
    StreamFrame(s, s', 0);
    CrashPermit(s, s', w);
    JobsFrame(s, s');
    QueueFrame(s, s');
    HistoryFrame(s, s');
    HashFrame(s, s');
    TaskFrame(s, s', s.db.delivered);
  }

  // -------------------------------------------------------------------- all runs

  lemma InitInv()
    ensures Inv(START)
  {}

  lemma StepKeepsInv(s: System, step: Step)
    requires Inv(s) && Enabled(s, step)
    ensures Inv(Next(s, step))
  {
    match step
    case EnqueueStep(id, json, payload, taskType, took) =>
      if took { KeepEnqueue(s, id, json, payload, taskType); }
    case ForeignStep(fields) => KeepForeign(s, fields);
    case StartWorkerStep(w, capacity, batch) => KeepStartWorker(s, w, capacity, batch);
    case ReadStep(w, replied) => KeepRead(s, w, replied);
    case SpawnStep(w) => KeepSpawn(s, w);
    case SetProcessingStep(e, took) => KeepSetProcessing(s, e, took);
    case ExecuteStep(e, response) => KeepExecute(s, e, response);
    case PushStep(e, took) => KeepPush(s, e, took);
    case AckStep(e, took) => KeepAck(s, e, took);
    case DeleteStep(e, took) => KeepDelete(s, e, took);
    case FinishStep(e) => KeepDrop(s, e);
    case PanicStep(e) => KeepDrop(s, e);
    case CrashStep(w) => KeepCrash(s, w);
    case TickStep(ms) => KeepTick(s, ms);
  }

  /** The invariant holds after every run, in every interleaving. */
  lemma {:induction false} RunKeepsInv(s: System, steps: seq<Step>)
    requires Inv(s) && Runs(s, steps)
    ensures Inv(After(s, steps))
    decreases steps
  {
    if steps != [] {
      StepKeepsInv(s, steps[0]);
      RunKeepsInv(Next(s, steps[0]), steps[1..]);
    }
  }
}
