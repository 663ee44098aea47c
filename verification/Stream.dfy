/** Turning a stream reply into tasks. */
module Stream {
  import opened Wrappers
  import opened Types
  import opened Redis

  datatype StreamId = StreamId(id: nat, fields: EntryFields)
  datatype StreamKey = StreamKey(key: string, ids: seq<StreamId>)

  /** A task ready to run: stream entry, submission id and payload. */
  datatype Job = Job(entry: nat, id: string, payload: TaskPayload)

  /** The job of a well-formed entry: an `id` field must exist (unreadable text counts as empty) and
      the `payload` must be text that parses. */
  function ParseEntry(e: nat, fields: EntryFields): Option<Job> {
    if ID !in fields || PAYLOAD !in fields then None
    else
      match fields[PAYLOAD]
      case Json(_, payload) => Some(Job(e, IdText(fields[ID]), payload))
      case Text(_) => None
      case NotUtf8 => None
  }

  function IdText(v: Value): string {
    if v.NotUtf8? then "" else v.s
  }

  function ExtractIds(ids: seq<StreamId>): seq<Job> {
    if ids == [] then []
    else
      var rest := ExtractIds(ids[1..]);
      match ParseEntry(ids[0].id, ids[0].fields)
      case Some(job) => [job] + rest
      case None => rest
  }

  function Extract(keys: seq<StreamKey>): seq<Job> {
    if keys == [] then [] else ExtractIds(keys[0].ids) + Extract(keys[1..])
  }

  lemma {:induction false} ExtractIdsAppend(a: seq<StreamId>, b: seq<StreamId>)
    ensures ExtractIds(a + b) == ExtractIds(a) + ExtractIds(b)
  {
    if a == [] {
      assert a + b == b;
    } else {
      assert (a + b)[1..] == a[1..] + b;
      ExtractIdsAppend(a[1..], b);
    }
  }

  lemma ExtractIdsPrefix(ids: seq<StreamId>, k: nat)
    requires k < |ids|
    ensures ExtractIds(ids[..k + 1]) == ExtractIds(ids[..k]) +
      match ParseEntry(ids[k].id, ids[k].fields) { case Some(job) => [job] case None => [] }
  {
    assert ids[..k + 1] == ids[..k] + [ids[k]];
    ExtractIdsAppend(ids[..k], [ids[k]]);
    assert ExtractIds([ids[k]][1..]) == [];
  }

  lemma {:induction false} ExtractAppend(a: seq<StreamKey>, key: StreamKey)
    ensures Extract(a + [key]) == Extract(a) + ExtractIds(key.ids)
  {
    if a == [] {
      assert a + [key] == [key];
      assert Extract([key][1..]) == [];
    } else {
      assert (a + [key])[1..] == a[1..] + [key];
      ExtractAppend(a[1..], key);
    }
  }

  lemma ExtractPrefix(keys: seq<StreamKey>, k: nat)
    requires k < |keys|
    ensures Extract(keys[..k + 1]) == Extract(keys[..k]) + ExtractIds(keys[k].ids)
  {
    assert keys[..k + 1] == keys[..k] + [keys[k]];
    ExtractAppend(keys[..k], keys[k]);
  }

  lemma KeysDiffer()
    ensures ID != PAYLOAD && ID != TASK_TYPE && PAYLOAD != TASK_TYPE
  {}

  /** One entry of `process_redis_stream`: fields are taken out of the map one by one. */
  method ProcessEntry(entry: StreamId, extracted: seq<Job>) returns (extractedTasks: seq<Job>)
    ensures extractedTasks == extracted +
      match ParseEntry(entry.id, entry.fields) { case Some(job) => [job] case None => [] }
  {
    KeysDiffer();
    extractedTasks := extracted;
    var fields := entry.fields;
    if ID !in fields {
      return;
    }
    var submissionId := IdText(fields[ID]);
    fields := fields - {ID};
    if PAYLOAD in fields {
      var value := fields[PAYLOAD];
      fields := fields - {PAYLOAD};
      match value {
        case Json(_, payload) => extractedTasks := extractedTasks + [Job(entry.id, submissionId, payload)];
        case Text(_) =>
        case NotUtf8 =>
      }
    }
  }

  method ProcessRedisStream(keys: seq<StreamKey>) returns (extractedTasks: seq<Job>)
    ensures extractedTasks == Extract(keys)
  {
    extractedTasks := [];
    for k := 0 to |keys|
      invariant extractedTasks == Extract(keys[..k])
    {
      var ids := keys[k].ids;
      ghost var before := extractedTasks;
      for i := 0 to |ids|
        invariant extractedTasks == before + ExtractIds(ids[..i])
      {
        ExtractIdsPrefix(ids, i);
        extractedTasks := ProcessEntry(ids[i], extractedTasks);
      }
      assert ids[..|ids|] == ids;
      ExtractPrefix(keys, k);
    }
    assert keys[..|keys|] == keys;
  }

  // ------------------------------------------------------------------ meaning

  /** A job is extracted exactly when some entry of the reply is well formed and says so. */
  lemma {:induction false} ExtractedIff(ids: seq<StreamId>, job: Job)
    ensures job in ExtractIds(ids) <==> exists k :: 0 <= k < |ids| && ParseEntry(ids[k].id, ids[k].fields) == Some(job)
  {
    if ids != [] {
      ExtractedIff(ids[1..], job);
      if k :| 0 <= k < |ids| && ParseEntry(ids[k].id, ids[k].fields) == Some(job) {
        if k > 0 {
          assert ids[1..][k - 1] == ids[k];
        }
      }
      if k :| 0 <= k < |ids[1..]| && ParseEntry(ids[1..][k].id, ids[1..][k].fields) == Some(job) {
        assert ids[1..][k] == ids[k + 1];
      }
    }
  }

  predicate Increasing(jobs: seq<Job>) {
    forall i, j :: 0 <= i < j < |jobs| ==> jobs[i].entry < jobs[j].entry
  }

  predicate IdsIncreasing(ids: seq<StreamId>) {
    forall i, j :: 0 <= i < j < |ids| ==> ids[i].id < ids[j].id
  }

  /** Stream order is kept, and nothing is extracted twice. */
  lemma {:induction false} ExtractedInOrder(ids: seq<StreamId>)
    requires IdsIncreasing(ids)
    ensures Increasing(ExtractIds(ids))
    ensures |ExtractIds(ids)| <= |ids|
  {
    if ids != [] {
      ExtractedInOrder(ids[1..]);
      var rest := ExtractIds(ids[1..]);
      forall j | 0 <= j < |rest| ensures ids[0].id < rest[j].entry {
        ExtractedIff(ids[1..], rest[j]);
      }
    }
  }

  /** What an entry says, field by field: both fields are there, the payload parses, and an id that is not
      UTF-8 counts as empty. */
  predicate Says(entry: StreamId, job: Job) {
    && "id" in entry.fields && "payload" in entry.fields && entry.fields["payload"].Json?
    && job.entry == entry.id && job.payload == entry.fields["payload"].payload
    && job.id == (if entry.fields["id"].NotUtf8? then "" else entry.fields["id"].s)
  }

  lemma SaysIff(entry: StreamId, job: Job)
    ensures ParseEntry(entry.id, entry.fields) == Some(job) <==> Says(entry, job)
  {}

  /** The tasks of a reply are exactly the jobs its entries say. */
  lemma {:induction false} TasksAreSaid(keys: seq<StreamKey>, job: Job)
    ensures job in Extract(keys) <==>
      exists k, i :: 0 <= k < |keys| && 0 <= i < |keys[k].ids| && Says(keys[k].ids[i], job)
  {
    if keys != [] {
      var ids, rest := keys[0].ids, keys[1..];
      TasksAreSaid(rest, job);
      ExtractedIff(ids, job);
      forall i | 0 <= i < |ids| ensures ParseEntry(ids[i].id, ids[i].fields) == Some(job) <==> Says(ids[i], job) {
        SaysIff(ids[i], job);
      }
      if job in ExtractIds(ids) {
        var i :| 0 <= i < |ids| && ParseEntry(ids[i].id, ids[i].fields) == Some(job);
        assert Says(keys[0].ids[i], job);
      }
      if job in Extract(rest) {
        var k, i :| 0 <= k < |rest| && 0 <= i < |rest[k].ids| && Says(rest[k].ids[i], job);
        assert Says(keys[k + 1].ids[i], job);
      }
      if k, i :| 0 <= k < |keys| && 0 <= i < |keys[k].ids| && Says(keys[k].ids[i], job) {
        if k > 0 {
          assert Says(rest[k - 1].ids[i], job);
        }
      }
    }
  }
}
