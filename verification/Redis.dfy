/** The part of Redis the job pipeline uses: expiring hashes, one stream and its consumer group.
    `Db` is the value of the store; `RedisStore` is the store itself, updated command by command. */
module Redis {
  import opened Wrappers
  import opened Types
  import opened StatusHash
  import Decimal

  /** A stored string: plain text, text that parses as a task payload, or bytes that are not UTF-8. */
  datatype Value = Text(s: string) | Json(s: string, payload: TaskPayload) | NotUtf8

  type EntryFields = map<string, Value>

  /** A hash and the instant its key expires; keys are named by submission id, without the constant
      `status:` prefix. */
  datatype Hash = Hash(fields: Fields, expiresAt: Option<nat>)

  /** `entries` is every entry ever added since the group was created, numbered by position;
      `present` are those not deleted, `delivered` is the group's last-delivered position plus one,
      `pel` the pending-entries list. Time is in milliseconds. */
  datatype Db = Db(
    clock: nat,
    hashes: map<string, Hash>,
    entries: seq<EntryFields>,
    present: set<nat>,
    delivered: nat,
    pel: set<nat>)

  const EMPTY_DB := Db(0, map[], [], {}, 0, {})

  predicate Live(db: Db, key: string) {
    key in db.hashes && (db.hashes[key].expiresAt.None? || db.clock <= db.hashes[key].expiresAt.value)
  }

  function HGetAll(db: Db, key: string): Fields {
    if Live(db, key) then db.hashes[key].fields else map[]
  }

  /** HSET: on top of the live hash, or on a new one without expiry. */
  function HSet(db: Db, key: string, fields: Fields): Db {
    var hash := if Live(db, key) then Hash(db.hashes[key].fields + fields, db.hashes[key].expiresAt) else Hash(fields,
      None);
    db.(hashes := db.hashes[key := hash])
  }

  function Expire(db: Db, key: string, seconds: nat): Db {
    if !Live(db, key) then db
    else db.(hashes := db.hashes[key := db.hashes[key].(expiresAt := Some(db.clock + seconds * 1000))])
  }

  function XAdd(db: Db, fields: EntryFields): Db {
    db.(entries := db.entries + [fields], present := db.present + {|db.entries|})
  }

  /** The first `count` entries still in the stream at or after position `from`. */
  function Pick(db: Db, from: nat, count: nat): seq<nat>
    decreases |db.entries| - from
  {
    if from >= |db.entries| || count == 0 then []
    else if from in db.present then [from] + Pick(db, from + 1, count - 1)
    else Pick(db, from + 1, count)
  }

  lemma {:induction false} PickBounds(db: Db, from: nat, count: nat)
    ensures |Pick(db, from, count)| <= count
    ensures forall i :: 0 <= i < |Pick(db, from, count)| ==> from <= Pick(db, from, count)[i] < |db.entries|
    decreases |db.entries| - from
  {
    if from < |db.entries| && count > 0 {
      PickBounds(db, from + 1, if from in db.present then count - 1 else count);
    }
  }

  /** Entries still in the stream at positions from `from` up to `upto`. */
  function PresentIn(db: Db, from: nat, upto: nat): nat
    decreases upto - from
  {
    if from >= upto then 0 else (if from in db.present then 1 else 0) + PresentIn(db, from + 1, upto)
  }

  /** What is picked: exactly the entries still present that have fewer than `count` such entries before them. */
  lemma {:induction false} PickIff(db: Db, from: nat, count: nat, e: nat)
    ensures e in Pick(db, from, count) <==>
      from <= e < |db.entries| && e in db.present && PresentIn(db, from, e) < count
    decreases |db.entries| - from
  {
    PickBounds(db, from, count);
    if from < |db.entries| && count > 0 {
      if from in db.present {
        PickIff(db, from + 1, count - 1, e);
        assert Pick(db, from, count) == [from] + Pick(db, from + 1, count - 1);
      } else {
        PickIff(db, from + 1, count, e);
      }
    } else {
      assert Pick(db, from, count) == [];
    }
  }

  lemma {:induction false} PickIncreasing(db: Db, from: nat, count: nat)
    ensures forall i, j :: 0 <= i < j < |Pick(db, from, count)| ==> Pick(db, from, count)[i] < Pick(db, from, count)[j]
    decreases |db.entries| - from
  {
    if from < |db.entries| && count > 0 {
      var rest := Pick(db, from + 1, if from in db.present then count - 1 else count);
      PickIncreasing(db, from + 1, if from in db.present then count - 1 else count);
      PickBounds(db, from + 1, if from in db.present then count - 1 else count);
      if from in db.present {
        assert Pick(db, from, count) == [from] + rest;
      }
    }
  }

  /** COUNT 0 means no limit. */
  function Limit(db: Db, count: nat): nat {
    if count == 0 then |db.entries| else count
  }

  /** What XREADGROUP with `>` delivers. */
  function NewEntries(db: Db, count: nat): (picked: seq<nat>)
    ensures |picked| <= Limit(db, count)
    ensures forall i :: 0 <= i < |picked| ==> db.delivered <= picked[i] < |db.entries|
  {
    PickBounds(db, db.delivered, Limit(db, count));
    Pick(db, db.delivered, Limit(db, count))
  }

  lemma {:induction false} PresentAtMost(db: Db, from: nat, upto: nat)
    ensures PresentIn(db, from, upto) <= if from >= upto then 0 else upto - from
    decreases upto - from
  {
    if from < upto {
      PresentAtMost(db, from + 1, upto);
    }
  }

  /** A `>` read delivers, in stream order, exactly the undelivered entries still present with fewer than
      `count` such entries before them; with a count of 0, all of them. */
  lemma NewEntriesIff(db: Db, count: nat, e: nat)
    ensures e in NewEntries(db, count) <==>
      db.delivered <= e < |db.entries| && e in db.present && (count == 0 || PresentIn(db, db.delivered, e) < count)
    ensures
      var picked := NewEntries(db, count);
      forall i, j :: 0 <= i < j < |picked| ==> picked[i] < picked[j]
  {
    PickIff(db, db.delivered, Limit(db, count), e);
    PickIncreasing(db, db.delivered, Limit(db, count));
    PresentAtMost(db, db.delivered, e);
  }

  function XReadGroup(db: Db, count: nat): Db {
    var picked := NewEntries(db, count);
    if picked == [] then db
    else db.(delivered := picked[|picked| - 1] + 1, pel := db.pel + set e | e in picked)
  }

  function XAck(db: Db, e: nat): Db {
    db.(pel := db.pel - {e})
  }

  function XDel(db: Db, e: nat): Db {
    db.(present := db.present - {e})
  }

  // -------------------------------------------------------- the pipeline's own calls

  const STATUS_TTL_SECS: nat := 600
  const STATUS_TTL_MS: nat := STATUS_TTL_SECS * 1000

  const ID := "id"
  const PAYLOAD := "payload"
  const TASK_TYPE := "task_type"

  /** The stream entry of a submission; `json` is the serialized payload. */
  function JobFields(id: string, json: string, payload: TaskPayload, taskType: string): EntryFields {
    map[PAYLOAD := Json(json, payload), ID := Text(id), TASK_TYPE := Text(taskType)]
  }

  /** One atomic transaction writes a hash and its expiry. */
  function WriteStatus(db: Db, id: string, fields: Fields): Db {
    Expire(HSet(db, id, fields), id, STATUS_TTL_SECS)
  }

  /** One atomic transaction writes the pending status, its expiry and the stream entry. */
  function Enqueued(db: Db, id: string, job: EntryFields): Db {
    XAdd(WriteStatus(db, id, PENDING_FIELDS), job)
  }

  /** Last write wins for a list of field-value pairs. */
  function AsFields(pairs: seq<(string, string)>): Fields {
    if pairs == [] then map[]
    else
      var last := pairs[|pairs| - 1];
      AsFields(pairs[..|pairs| - 1])[last.0 := last.1]
  }

  lemma AsFieldsAppend(pairs: seq<(string, string)>, k: string, v: string)
    ensures AsFields(pairs + [(k, v)]) == AsFields(pairs) + map[k := v]
  {}

  /** The field list of one optional response field. */
  function OptionalPair(key: string, value: Option<string>): seq<(string, string)> {
    match value
    case Some(v) => [(key, v)]
    case None => []
  }

  lemma AsFieldsOptional(pairs: seq<(string, string)>, key: string, value: Option<string>)
    ensures AsFields(pairs + OptionalPair(key, value)) == AsFields(pairs) + Optional(key, value)
  {
    if value.Some? {
      AsFieldsAppend(pairs, key, value.value);
    } else {
      assert pairs + OptionalPair(key, value) == pairs;
    }
  }

  lemma AsFieldsThree(a: (string, string), b: (string, string), c: (string, string))
    ensures AsFields([a, b, c]) == map[a.0 := a.1][b.0 := b.1][c.0 := c.1]
  {
    AsFieldsAppend([], a.0, a.1);
    AsFieldsAppend([a], b.0, b.1);
    AsFieldsAppend([a, b], c.0, c.1);
    assert [a, b, c] == [a, b] + [c] && [a, b] == [a] + [b] && [a] == [] + [a];
  }

  lemma PickStep(db: Db, picked: seq<nat>, from: nat, count: nat)
    requires from < |db.entries| && count > 0
    ensures picked + Pick(db, from, count) ==
      if from in db.present then (picked + [from]) + Pick(db, from + 1, count - 1)
      else picked + Pick(db, from + 1, count)
  {}

  lemma PickDone(db: Db, from: nat, count: nat)
    requires from >= |db.entries| || count == 0
    ensures Pick(db, from, count) == []
  {}

  // ---------------------------------------------------------------- the store

  class RedisStore {
    var clock: nat
    var hashes: map<string, Hash>
    var entries: seq<EntryFields>
    var present: set<nat>
    var delivered: nat
    var pel: set<nat>

    function Contents(): Db
      reads this
    {
      Db(clock, hashes, entries, present, delivered, pel)
    }

    constructor ()
      ensures Contents() == EMPTY_DB
    {
      clock, hashes, entries, present, delivered, pel := 0, map[], [], {}, 0, {};
    }

    /** HSET and EXPIRE inside one MULTI. */
    method HSetExpire(key: string, pairs: seq<(string, string)>, seconds: nat)
      modifies this`hashes
      ensures Contents() == Expire(HSet(old(Contents()), key, AsFields(pairs)), key, seconds)
    {
      if key in hashes && (hashes[key].expiresAt.None? || clock <= hashes[key].expiresAt.value) {
        hashes := hashes[key := Hash(hashes[key].fields + AsFields(pairs), hashes[key].expiresAt)];
      } else {
        hashes := hashes[key := Hash(AsFields(pairs), None)];
      }
      hashes := hashes[key := hashes[key].(expiresAt := Some(clock + seconds * 1000))];
    }

    /** `enqueue_task`: pending status, expiry and stream entry in one transaction. */
    method EnqueueTask(id: string, json: string, payload: TaskPayload, taskType: string)
      modifies this
      ensures Contents() == Enqueued(old(Contents()), id, JobFields(id, json, payload, taskType))
    {
      AsFieldsAppend([], STATUS, "pending");
      assert [] + [(STATUS, "pending")] == [(STATUS, "pending")];
      assert AsFields([(STATUS, "pending")]) == PENDING_FIELDS;
      HSetExpire(id, [(STATUS, "pending")], STATUS_TTL_SECS);
      present := present + {|entries|};
      entries := entries + [JobFields(id, json, payload, taskType)];
    }

    /** `set_processing_status`. */
    method SetProcessingStatus(id: string)
      modifies this`hashes
      ensures Contents() == WriteStatus(old(Contents()), id, PROCESSING_FIELDS)
    {
      var pairs := [(STATUS, "processing"), (MESSAGE, "processing")];
      AsFieldsAppend([], STATUS, "processing");
      AsFieldsAppend([(STATUS, "processing")], MESSAGE, "processing");
      assert [] + [(STATUS, "processing")] == [(STATUS, "processing")];
      assert pairs == [(STATUS, "processing")] + [(MESSAGE, "processing")];
      assert AsFields(pairs) == PROCESSING_FIELDS;
      HSetExpire(id, pairs, STATUS_TTL_SECS);
    }

    /** `push_result_to_redis`: the field list grows by each optional field that is set. */
    method PushResult(id: string, response: ResponsePayload)
      modifies this`hashes
      ensures Contents() == WriteStatus(old(Contents()), id, ResultFields(response))
    {
      var fields := [
        (STATUS, StatusName(response.status)),
        (MESSAGE, MessageName(response.message)),
        (TTPASSED, Decimal.Dec(response.ttpassed))];
      AsFieldsThree(fields[0], fields[1], fields[2]);
      AsFieldsOptional(fields, ERROR, response.error);
      fields := fields + OptionalPair(ERROR, response.error);
      AsFieldsOptional(fields, STDOUT, response.stdout);
      fields := fields + OptionalPair(STDOUT, response.stdout);
      AsFieldsOptional(fields, FAILEDCASE, response.failedcase);
      fields := fields + OptionalPair(FAILEDCASE, response.failedcase);
      AsFieldsOptional(fields, RESULTS, response.results);
      fields := fields + OptionalPair(RESULTS, response.results);
      HSetExpire(id, fields, STATUS_TTL_SECS);
    }

    /** The entries a `>` read finds, walking the stream from the last delivered one. */
    method Scan(count: nat) returns (picked: seq<nat>)
      ensures picked == NewEntries(Contents(), count)
    {
      picked := [];
      ghost var start := Contents();
      var limit := if count == 0 then |entries| else count;
      var from := delivered;
      while from < |entries| && |picked| < limit
        invariant |picked| <= limit
        invariant NewEntries(start, count) == picked + Pick(start, from, limit - |picked|)
      {
        PickStep(start, picked, from, limit - |picked|);
        if from in present {
          picked := picked + [from];
        }
        from := from + 1;
      }
      PickDone(start, from, limit - |picked|);
    }

    /** XREADGROUP with `>`: what it finds becomes delivered and pending. */
    method ReadGroup(count: nat) returns (picked: seq<nat>)
      modifies this`delivered, this`pel
      ensures picked == NewEntries(old(Contents()), count)
      ensures Contents() == XReadGroup(old(Contents()), count)
    {
      picked := Scan(count);
      if picked != [] {
        delivered := picked[|picked| - 1] + 1;
        pel := pel + set e | e in picked;
      }
    }

    /** `acknowledge_stream_message` sends XACK and XDEL in one pipe that is not a transaction: the
        connection may die after either command. */
    method AcknowledgeStreamMessage(entry: nat, ackTook: bool, delTook: bool)
      requires delTook ==> ackTook
      modifies this`pel, this`present
      ensures
        var acked := if ackTook then XAck(old(Contents()), entry) else old(Contents());
        Contents() == if delTook then XDel(acked, entry) else acked
    {
      if !ackTook {
        return;
      }
      pel := pel - {entry};
      if !delTook {
        return;
      }
      present := present - {entry};
    }
  }
}
