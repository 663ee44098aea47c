/** The job pipeline as a transition system: servers enqueue, workers read batches and start detached
    tasks under a permit limit, tasks call Redis, time passes, calls fail, tasks panic, workers die.
    A failed Redis call either took effect before returning or never does (`took`). */
module Pipeline {
  import opened Wrappers
  import opened Types
  import opened StatusHash
  import opened Redis
  import opened Stream

  /** Where a detached task is in its fixed sequence of calls. */
  datatype Pc =
    | SetProcessing
    | Execute
    | Push(response: ResponsePayload)
    | Ack
    | Delete
    | Finish

  datatype Task = Task(worker: nat, job: Job, pc: Pc)

  /** A worker process: its semaphore, its batch size and the jobs of the current batch that the
      hand-over loop has not started yet. */
  datatype Worker = Worker(capacity: nat, available: nat, batch: nat, queue: seq<Job>)

  datatype Pushed = Pushed(response: ResponsePayload, at: nat)

  /** The system with its history: which entries were started (in order), what each execution
      produced, whose push was attempted, which pushes took effect and when, and the entry of every
      accepted submission. Tasks are named by their stream entry. */
  datatype System = System(
    db: Db,
    workers: map<nat, Worker>,
    tasks: map<nat, Task>,
    started: seq<nat>,
    executed: map<nat, ResponsePayload>,
    attempted: set<nat>,
    pushed: map<nat, Pushed>,
    jobs: map<string, nat>)

  datatype Step =
    | EnqueueStep(id: string, json: string, payload: TaskPayload, taskType: string, took: bool)
    | ForeignStep(fields: EntryFields)
    | StartWorkerStep(w: nat, capacity: nat, batch: nat)
    | ReadStep(w: nat, replied: bool)
    | SpawnStep(w: nat)
    | SetProcessingStep(e: nat, took: bool)
    | ExecuteStep(e: nat, response: ResponsePayload)
    | PushStep(e: nat, took: bool)
    | AckStep(e: nat, took: bool)
    | DeleteStep(e: nat, took: bool)
    | FinishStep(e: nat)
    | PanicStep(e: nat)
    | CrashStep(w: nat)
    | TickStep(ms: nat)

  const START := System(EMPTY_DB, map[], map[], [], map[], {}, map[], map[])

  function ReplyIds(db: Db, picked: seq<nat>): (ids: seq<StreamId>)
    requires forall i :: 0 <= i < |picked| ==> picked[i] < |db.entries|
    ensures |ids| == |picked|
    ensures forall i :: 0 <= i < |picked| ==> ids[i] == StreamId(picked[i], db.entries[picked[i]])
  {
    seq(|picked|, i requires 0 <= i < |picked| => StreamId(picked[i], db.entries[picked[i]]))
  }

  predicate At(s: System, e: nat, pc: Pc) {
    e in s.tasks && s.tasks[e].pc == pc
  }

  predicate Enabled(s: System, step: Step) {
    match step
    // ids are fresh, so an accepted submission never reuses one
    case EnqueueStep(id, _, _, _, _) => id !in s.jobs
    // only servers add well-formed entries; anything else in the stream is malformed
    case ForeignStep(fields) => ParseEntry(|s.db.entries|, fields) == None
    case StartWorkerStep(w, capacity, _) => w !in s.workers && capacity > 0
    // the next read waits for the hand-over loop
    case ReadStep(w, _) => w in s.workers && s.workers[w].queue == []
    case SpawnStep(w) => w in s.workers && s.workers[w].queue != [] && s.workers[w].available > 0
    case SetProcessingStep(e, _) => At(s, e, SetProcessing)
    case ExecuteStep(e, response) => At(s, e, Execute) && Final(response)
    case PushStep(e, _) => e in s.tasks && s.tasks[e].pc.Push?
    case AckStep(e, _) => At(s, e, Ack)
    case DeleteStep(e, _) => At(s, e, Delete)
    case FinishStep(e) => At(s, e, Finish)
    case PanicStep(e) => e in s.tasks
    case CrashStep(w) => w in s.workers
    case TickStep(_) => true
  }

  function Goto(s: System, e: nat, pc: Pc): System
    requires e in s.tasks
  {
    s.(tasks := s.tasks[e := s.tasks[e].(pc := pc)])
  }

  /** A task ends and its owned permit goes back, whatever ended it. */
  function Drop(s: System, e: nat): System
    requires e in s.tasks
  {
    var w := s.tasks[e].worker;
    var ended := s.(tasks := s.tasks - {e});
    if w in s.workers then
      ended.(workers := s.workers[w := s.workers[w].(available := s.workers[w].available + 1)])
    else ended
  }

  function Accept(s: System, id: string, json: string, payload: TaskPayload, taskType: string): System {
    s.(db := Enqueued(s.db, id, JobFields(id, json, payload, taskType)), jobs := s.jobs[id := |s.db.entries|])
  }

  function StartWorker(s: System, w: nat, capacity: nat, batch: nat): System {
    s.(workers := s.workers[w := Worker(capacity, capacity, batch, [])])
  }

  /** The delivery takes effect even when the reply is lost. */
  function Read(s: System, w: nat, replied: bool): System
    requires w in s.workers
  {
    var picked := NewEntries(s.db, s.workers[w].batch);
    var queue := if replied then ExtractIds(ReplyIds(s.db, picked)) else [];
    s.(db := XReadGroup(s.db, s.workers[w].batch), workers := s.workers[w := s.workers[w].(queue := queue)])
  }

  function Spawn(s: System, w: nat): System
    requires w in s.workers && s.workers[w].queue != [] && s.workers[w].available > 0
  {
    var worker := s.workers[w];
    var job := worker.queue[0];
    s.(workers := s.workers[w := worker.(available := worker.available - 1, queue := worker.queue[1..])],
       tasks := s.tasks[job.entry := Task(w, job, SetProcessing)],
       started := s.started + [job.entry])
  }

  function ShowProcessing(s: System, e: nat, took: bool): System
    requires e in s.tasks
  {
    var s' := Goto(s, e, Execute);
    if took then s'.(db := WriteStatus(s.db, s.tasks[e].job.id, PROCESSING_FIELDS)) else s'
  }

  function Executed(s: System, e: nat, response: ResponsePayload): System
    requires e in s.tasks
  {
    Goto(s, e, Push(response)).(executed := s.executed[e := response])
  }

  function PushResponse(s: System, e: nat, response: ResponsePayload, took: bool): System
    requires e in s.tasks
  {
    var s' := Goto(s, e, Ack).(attempted := s.attempted + {e});
    if took then
      s'.(db := WriteStatus(s.db, s.tasks[e].job.id, ResultFields(response)),
          pushed := s.pushed[e := Pushed(response, s.db.clock)])
    else s'
  }

  function Acknowledge(s: System, e: nat, took: bool): System
    requires e in s.tasks
  {
    if took then Goto(s, e, Delete).(db := XAck(s.db, e)) else Goto(s, e, Finish)
  }

  function DeleteEntry(s: System, e: nat, took: bool): System
    requires e in s.tasks
  {
    if took then Goto(s, e, Finish).(db := XDel(s.db, e)) else Goto(s, e, Finish)
  }

  function Crash(s: System, w: nat): System {
    s.(workers := s.workers - {w}, tasks := map e | e in s.tasks && s.tasks[e].worker != w :: s.tasks[e])
  }

  function Next(s: System, step: Step): System
    requires Enabled(s, step)
  {
    match step
    case EnqueueStep(id, json, payload, taskType, took) => if took then Accept(s, id, json, payload, taskType) else s
    case ForeignStep(fields) => s.(db := XAdd(s.db, fields))
    case StartWorkerStep(w, capacity, batch) => StartWorker(s, w, capacity, batch)
    case ReadStep(w, replied) => Read(s, w, replied)
    case SpawnStep(w) => Spawn(s, w)
    case SetProcessingStep(e, took) => ShowProcessing(s, e, took)
    case ExecuteStep(e, response) => Executed(s, e, response)
    case PushStep(e, took) => PushResponse(s, e, s.tasks[e].pc.response, took)
    case AckStep(e, took) => Acknowledge(s, e, took)
    case DeleteStep(e, took) => DeleteEntry(s, e, took)
    case FinishStep(e) => Drop(s, e)
    case PanicStep(e) => Drop(s, e)
    case CrashStep(w) => Crash(s, w)
    case TickStep(ms) => s.(db := s.db.(clock := s.db.clock + ms))
  }

  /** Whether a list of steps can be taken one after the other, and where it leads. */
  predicate Runs(s: System, steps: seq<Step>)
    decreases steps
  {
    steps == [] || (Enabled(s, steps[0]) && Runs(Next(s, steps[0]), steps[1..]))
  }

  function After(s: System, steps: seq<Step>): System
    requires Runs(s, steps)
    decreases steps
  {
    if steps == [] then s else After(Next(s, steps[0]), steps[1..])
  }

  /** What polling an id answers. */
  function Poll(s: System, id: string): Answer {
    Decode(HGetAll(s.db, id))
  }

  // ---------------------------------------------------------------- the invariant

  function JobAt(s: System, e: nat): Option<Job> {
    if e < |s.db.entries| then ParseEntry(e, s.db.entries[e]) else None
  }

  /** The stream, the group and the pending list agree; an entry leaves the pending list only after
      its push was attempted. */
  ghost predicate StreamInv(s: System) {
    && s.db.delivered <= |s.db.entries|
    && (forall e :: e in s.db.pel ==> e < s.db.delivered && e in s.db.present)
    && (forall e :: e in s.db.present ==> e < |s.db.entries|)
    && (forall e :: s.db.delivered <= e < |s.db.entries| ==> e in s.db.present)
    && (forall e :: 0 <= e < s.db.delivered && e !in s.db.pel ==> e in s.attempted)
  }

  /** Accepted submissions and well-formed entries correspond one to one, and each has a hash. */
  ghost predicate JobsInv(s: System) {
    && (forall id :: id in s.jobs ==> JobAt(s, s.jobs[id]).Some? && JobAt(s, s.jobs[id]).value.id == id)
    && (forall e :: 0 <= e < |s.db.entries| && JobAt(s, e).Some? ==>
      JobAt(s, e).value.id in s.jobs && s.jobs[JobAt(s, e).value.id] == e)
    && s.db.hashes.Keys == s.jobs.Keys
  }

  /** A job waiting in a hand-over queue: delivered, still pending, not started. */
  ghost predicate Waiting(s: System, job: Job) {
    && job.entry < s.db.delivered
    && job.entry in s.db.pel
    && job.entry !in s.started
    && JobAt(s, job.entry) == Some(job)
  }

  /** No entry is queued on both sides. */
  ghost predicate Apart(a: seq<Job>, b: seq<Job>) {
    forall i, j :: 0 <= i < |a| && 0 <= j < |b| ==> a[i].entry != b[j].entry
  }

  ghost predicate QueueInv(s: System) {
    && (forall w, i :: w in s.workers && 0 <= i < |s.workers[w].queue| ==> Waiting(s, s.workers[w].queue[i]))
    && (forall w :: w in s.workers ==> Increasing(s.workers[w].queue))
    && (forall v, w :: v in s.workers && w in s.workers && v != w ==> Apart(s.workers[v].queue, s.workers[w].queue))
    && (forall w :: w in s.workers && s.workers[w].batch > 0 ==> |s.workers[w].queue| <= s.workers[w].batch)
  }

  /** What a task's position says about the history of its entry. */
  ghost predicate TaskFits(s: System, e: nat, t: Task) {
    && t.job.entry == e && JobAt(s, e) == Some(t.job)
    && t.worker in s.workers
    && e in s.started && e < s.db.delivered
    && match t.pc {
         case SetProcessing => e !in s.executed && e in s.db.pel
         case Execute => e !in s.executed && e in s.db.pel
         case Push(response) => e in s.executed && s.executed[e] == response && e !in s.attempted && e in s.db.pel
         case Ack => e in s.attempted && e in s.db.pel
         case Delete => e in s.attempted && e !in s.db.pel
         case Finish => e in s.attempted
       }
  }

  ghost predicate TaskInv(s: System) {
    forall e :: e in s.tasks ==> TaskFits(s, e, s.tasks[e])
  }

  ghost predicate NoRepeat(l: seq<nat>) {
    forall i, j :: 0 <= i < j < |l| ==> l[i] != l[j]
  }

  ghost predicate HistoryInv(s: System) {
    && NoRepeat(s.started)
    && (forall e :: e in s.started ==> e < s.db.delivered && JobAt(s, e).Some?)
    && (forall e :: e in s.executed ==> e in s.started && Final(s.executed[e]))
    && (forall e :: e in s.attempted ==> e in s.executed)
    && (forall e :: e in s.pushed ==>
          e in s.attempted && s.pushed[e].response == s.executed[e] && s.pushed[e].at <= s.db.clock)
  }

  /** The hash of a submission holds the result of its push once one took effect, and only the early
      fields before; the pushed fields are exactly those of one response. */
  ghost predicate HashFits(s: System, e: nat, hash: Hash) {
    if e in s.pushed then
      hash == Hash(ResultFields(s.pushed[e].response), Some(s.pushed[e].at + STATUS_TTL_MS))
    else
      && (hash.fields == PENDING_FIELDS || hash.fields == PROCESSING_FIELDS)
      && hash.expiresAt.Some?
  }

  ghost predicate HashInv(s: System) {
    forall id :: id in s.jobs && id in s.db.hashes ==> HashFits(s, s.jobs[id], s.db.hashes[id])
  }

  /** Entries whose task of worker `w` holds a permit. */
  function Held(s: System, w: nat): set<nat> {
    set e | e in s.tasks && s.tasks[e].worker == w
  }

  ghost predicate PermitInv(s: System) {
    forall w :: w in s.workers ==>
        s.workers[w].available + |Held(s, w)| == s.workers[w].capacity && s.workers[w].capacity > 0
  }

  ghost predicate Inv(s: System) {
    && StreamInv(s)
    && JobsInv(s)
    && QueueInv(s)
    && TaskInv(s)
    && HistoryInv(s)
    && HashInv(s)
    && PermitInv(s)
  }
}
