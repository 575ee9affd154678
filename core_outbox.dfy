/**
 * The legacy outbox facade (src/CoreCompat/CoreOutbox.php). enqueue stores
 * a legacy message as an event_outbox row, with the payload, headers and
 * notifications packed into the payload column; flush leases a batch of due
 * rows of this outbox, hands each to a sender in the legacy row shape, and
 * marks it sent or schedules a retry.
 *
 * The event_outbox table is the map from id to row the event worker reads
 * (EventWorker.Table), with the next id the store would assign. The clock
 * (one `now` per call), the digests, the JSON codec, the random bytes of a
 * fresh identifier, the jitter of each retry and the outcome of the INSERT
 * are inputs.
 */
module LegacyOutbox {
  import opened Common
  import opened PhpStrings
  import opened PhpValues
  import opened Primitives
  import opened WorkerSupport
  import opened LegacySupport
  import opened OutboxRuns
  import Uuid
  import EventWorker

  type Row = EventWorker.EventRow
  type Table = EventWorker.Table

  /** random_bytes(16) */
  type UuidBytes = b: Bytes | |b| == 16 witness seq(16, _ => '\0')

  const ClaimLeaseSeconds := 300
  const DefaultTable := "outbox"
  const EntityTableWidth := 64
  const EventTypeWidth := 100
  const EntityPkWidth := 64
  const NoPartition := "-"
  const MaxWaitSeconds := 3600
  const SaltSeparator := "|"

  const EmptyTopic := Throwable(InvalidArgument, "Outbox topic must not be empty.")
  const EncodeFailure := Throwable(Runtime, "Failed to encode outbox payload/headers.")
  const InvalidSender := Throwable(InvalidArgument, "Invalid outbox sender: expected callable or object with send().")
  const EmptyObjectJson := "{}"

  const PayloadKey := StrKey("payload")
  const HeadersKey := StrKey("headers")
  const NotificationsKey := StrKey("notifications")

  /**
   * What a call depends on and does not control: the clock, the created_at
   * value the store gives a new row, sha1 and the hex SHA-256 digest,
   * json_encode and json_decode, the random bytes Uuid::v4 would use, the
   * jitter drawn for the n-th claimed row, and whether notifyWebhook's curl
   * request to a target throws (as it does when the curl extension is
   * missing and curl_init is undefined).
   */
  datatype Environment = Environment(
    now: int,
    createdAt: Value,
    sha1: string -> Sha1Digest,
    sha256Hex: string -> Sha256Hex,
    jsonEncode: Value -> Option<string>,
    jsonDecode: string -> Value,
    random: UuidBytes,
    jitter: nat -> Jitter,
    notifyThrows: Notification -> bool)

  // --------------------------------------------------------------- enqueue

  /** The arguments of enqueue; availableAt is in seconds. */
  datatype Message = Message(
    topic: string,
    payload: PhpArray,
    partitionKey: Option<string>,
    dedupKey: Option<string>,
    headers: PhpArray,
    availableAt: Option<int>,
    notifications: PhpArray)

  /** The entity_table of this outbox's rows: the configured table name, fitted to 64 characters. */
  function EntityTableOf(table: string, sha256Hex: string -> Sha256Hex): (r: string)
    ensures |r| <= EntityTableWidth
  {
    NormalizeFixedString(table, EntityTableWidth, DefaultTable, sha256Hex)
  }

  /** The event_type of a message: its trimmed topic, fitted to 100 characters. */
  function EventTypeFor(topic: string, sha256Hex: string -> Sha256Hex): (r: string)
    ensures |r| <= EventTypeWidth
  {
    var t := Trim(topic);
    NormalizeFixedString(t, EventTypeWidth, t, sha256Hex)
  }

  /** The entity_pk of a message: the trimmed partition key, '-' when it is absent or blank, fitted to 64 characters. */
  function EntityPkFor(partitionKey: Option<string>, sha256Hex: string -> Sha256Hex): (r: string)
    ensures |r| <= EntityPkWidth
  {
    var pk := if partitionKey.Some? then Trim(partitionKey.value) else "";
    NormalizeFixedString(if pk == "" then NoPartition else pk, EntityPkWidth, NoPartition, sha256Hex)
  }

  /** '-' is kept as it is by the trim and the fitting. */
  lemma NoPartitionIsKept(sha256Hex: string -> Sha256Hex)
    ensures NormalizeFixedString(NoPartition, EntityPkWidth, NoPartition, sha256Hex) == NoPartition
  {
    TrimOfTrimmed(NoPartition);
  }

  /**
   * A message without a partition key, or with a blank one, is stored under
   * entity_pk '-'; a non-blank key that fits is stored trimmed.
   */
  lemma EntityPkCases(partitionKey: Option<string>, sha256Hex: string -> Sha256Hex)
    ensures (partitionKey.None? || IsBlank(partitionKey.value)) ==> EntityPkFor(partitionKey, sha256Hex) == NoPartition
    ensures partitionKey.Some? && !IsBlank(partitionKey.value) && |Trim(partitionKey.value)| <= EntityPkWidth
      ==> EntityPkFor(partitionKey, sha256Hex) == Trim(partitionKey.value)
  {
    NoPartitionIsKept(sha256Hex);
    if partitionKey.Some? && !IsBlank(partitionKey.value) {
      TrimIdempotent(partitionKey.value);
    }
  }

  /** A dedup key is used when it is given and not blank. */
  predicate HasDedupKey(m: Message) {
    m.dedupKey.Some? && !IsBlank(m.dedupKey.value)
  }

  /**
   * The event_key of a message: Uuid::normalize of the dedup key, salted
   * with "entityTable|eventType", or a fresh v4 identifier without one.
   */
  function EventKeyFor(m: Message, entityTable: string, eventType: string, env: Environment): (r: string)
    ensures Uuid.IsUuid(r)
  {
    if HasDedupKey(m) then Uuid.Normalize(m.dedupKey.value, entityTable + SaltSeparator + eventType, env.sha1)
    else Uuid.V4(env.random)
  }

  /** The array stored, JSON-encoded, in the payload column. */
  function StoredPayload(m: Message): PhpArray {
    [Entry(PayloadKey, Arr(m.payload)), Entry(HeadersKey, Arr(m.headers)), Entry(NotificationsKey, Arr(m.notifications))]
  }

  /** The columns enqueue's INSERT sets; the store fills in the others. */
  datatype NewEvent = NewEvent(eventKey: string, entityTable: string, entityPk: string, eventType: string, payload: string, nextAttemptAt: Option<int>)

  /** The INSERT's columns for a message whose stored payload encodes to `json`. */
  function NewEventFor(table: string, m: Message, json: string, env: Environment): NewEvent {
    var entityTable := EntityTableOf(table, env.sha256Hex);
    var eventType := EventTypeFor(m.topic, env.sha256Hex);
    NewEvent(EventKeyFor(m, entityTable, eventType, env), entityTable, EntityPkFor(m.partitionKey, env.sha256Hex), eventType, json, m.availableAt)
  }

  /** The row the store creates: the next id, status pending, no attempts, nothing processed, created now. */
  function NewRow(id: int, e: NewEvent, createdAt: Value): Row {
    EventWorker.EventRow(id, Str(e.eventKey), Str(e.entityTable), Str(e.entityPk), Str(e.eventType), Str(e.payload),
      StatusPending, 0, e.nextAttemptAt, None, createdAt)
  }

  /** The table, the next id and the exception enqueue threw, if any. */
  datatype Enqueued = Enqueued(rows: Table, nextId: int, thrown: Option<Throwable>)

  /**
   * The INSERT of enqueue and its catch, given what the INSERT raised (None
   * when it succeeded): a new row under the next id, or, on an error, no
   * change, the error being swallowed exactly when a dedup key was passed
   * and the error reports a duplicate.
   */
  function InsertSpec(rows: Table, nextId: int, e: NewEvent, createdAt: Value, dedupKey: Option<string>, insertError: Option<Throwable>): (r: Enqueued)
    ensures r.nextId == nextId + if insertError.None? then 1 else 0
    ensures insertError.None? ==> r.thrown.None? && r.rows == rows[nextId := NewRow(nextId, e, createdAt)]
    ensures insertError.Some? ==> r.rows == rows
    ensures insertError.Some? ==> (r.thrown.None? <==> dedupKey.Some? && IsDuplicateError(insertError.value.message))
    ensures r.thrown.Some? ==> r.thrown == insertError
  {
    match insertError
    case None => Enqueued(rows[nextId := NewRow(nextId, e, createdAt)], nextId + 1, None)
    case Some(err) =>
      if dedupKey.Some? && IsDuplicateError(err.message) then Enqueued(rows, nextId, None)
      else Enqueued(rows, nextId, Some(err))
  }

  /**
   * enqueue(...), given what the INSERT raised (None when it succeeded): a
   * blank topic is rejected, an unencodable payload fails, and an INSERT
   * error is swallowed only when a dedup key was passed and the error
   * reports a duplicate.
   */
  function EnqueueSpec(rows: Table, nextId: int, table: string, m: Message, env: Environment, insertError: Option<Throwable>): (r: Enqueued)
    ensures IsBlank(m.topic) ==> r == Enqueued(rows, nextId, Some(EmptyTopic))
    ensures r.nextId != nextId ==> insertError.None? && r.thrown.None? && r.nextId == nextId + 1
    ensures r.nextId != nextId ==> var json := env.jsonEncode(Arr(StoredPayload(m)));
      json.Some? && r.rows == rows[nextId := NewRow(nextId, NewEventFor(table, m, json.value, env), env.createdAt)]
    ensures r.nextId == nextId ==> r.rows == rows
    ensures r.thrown.Some? ==> r.nextId == nextId
  {
    if IsBlank(m.topic) then Enqueued(rows, nextId, Some(EmptyTopic))
    else
      match env.jsonEncode(Arr(StoredPayload(m)))
      case None => Enqueued(rows, nextId, Some(EncodeFailure))
      case Some(json) => InsertSpec(rows, nextId, NewEventFor(table, m, json, env), env.createdAt, m.dedupKey, insertError)
  }

  /**
   * A stored message keeps its trimmed topic (when it fits) as event_type,
   * starts pending with no attempts, is scheduled at availableAt, and
   * belongs to this outbox's entity table.
   */
  lemma EnqueueStoresMessage(rows: Table, nextId: int, table: string, m: Message, env: Environment, json: string)
    requires !IsBlank(m.topic) && env.jsonEncode(Arr(StoredPayload(m))) == Some(json)
    ensures var r := EnqueueSpec(rows, nextId, table, m, env, None);
      && r.thrown.None? && r.nextId == nextId + 1
      && r.rows == rows[nextId := NewRow(nextId, NewEventFor(table, m, json, env), env.createdAt)]
    ensures var row := NewRow(nextId, NewEventFor(table, m, json, env), env.createdAt);
      && row.id == nextId && row.status == StatusPending && row.attempts == 0
      && row.nextAttemptAt == m.availableAt && row.processedAt.None?
      && row.entityTable == Str(EntityTableOf(table, env.sha256Hex))
      && (|Trim(m.topic)| <= EventTypeWidth ==> row.eventType == Str(Trim(m.topic)))
      && row.payload == Str(json)
  {
    TrimIdempotent(m.topic);
  }

  /**
   * With a dedup key a duplicate-key INSERT error is swallowed and nothing
   * changes; without one the same error propagates.
   */
  lemma DuplicateSwallowedOnlyWithDedupKey(rows: Table, nextId: int, table: string, m: Message, env: Environment, e: Throwable)
    requires !IsBlank(m.topic) && env.jsonEncode(Arr(StoredPayload(m))).Some?
    requires IsDuplicateError(e.message)
    ensures m.dedupKey.Some? ==> EnqueueSpec(rows, nextId, table, m, env, Some(e)) == Enqueued(rows, nextId, None)
    ensures m.dedupKey.None? ==> EnqueueSpec(rows, nextId, table, m, env, Some(e)) == Enqueued(rows, nextId, Some(e))
  {
  }

  /** Any other INSERT error propagates, dedup key or not. */
  lemma OtherInsertErrorsPropagate(rows: Table, nextId: int, table: string, m: Message, env: Environment, e: Throwable)
    requires !IsBlank(m.topic) && env.jsonEncode(Arr(StoredPayload(m))).Some?
    requires !IsDuplicateError(e.message)
    ensures EnqueueSpec(rows, nextId, table, m, env, Some(e)) == Enqueued(rows, nextId, Some(e))
  {
  }

  /**
   * Two messages with the same dedup key and topic for the same outbox get
   * the same event_key, whatever else differs, so the table's unique key
   * makes the second INSERT fail.
   */
  lemma DedupKeysCollide(m1: Message, m2: Message, table: string, env1: Environment, env2: Environment)
    requires HasDedupKey(m1) && m1.dedupKey == m2.dedupKey && Trim(m1.topic) == Trim(m2.topic)
    requires env1.sha1 == env2.sha1 && env1.sha256Hex == env2.sha256Hex
    ensures var et := EntityTableOf(table, env1.sha256Hex);
      EventKeyFor(m1, et, EventTypeFor(m1.topic, env1.sha256Hex), env1) == EventKeyFor(m2, et, EventTypeFor(m2.topic, env2.sha256Hex), env2)
  {
    assert EventTypeFor(m1.topic, env1.sha256Hex) == EventTypeFor(m2.topic, env2.sha256Hex);
  }

  /** A well-formed identifier given as the dedup key is stored as its trimmed lower-case form. */
  lemma WellFormedDedupKeyKept(m: Message, entityTable: string, eventType: string, env: Environment)
    requires HasDedupKey(m) && Uuid.IsUuid(m.dedupKey.value)
    ensures EventKeyFor(m, entityTable, eventType, env) == Lower(Trim(m.dedupKey.value))
  {
    Uuid.NormalizeKeepsWellFormed(m.dedupKey.value, entityTable + SaltSeparator + eventType, env.sha1);
  }

  // ---------------------------------------------------------------- claim

  /** The WHERE clause of claimBatch: this outbox's rows, pending or failed, and due. */
  predicate Claimable(row: Row, entityTable: string, now: int) {
    row.entityTable == Str(entityTable) && PassesRecheck(row.status, row.nextAttemptAt, now)
  }

  /** The claimable ids below `below`, in ascending order. */
  function ClaimableIds(rows: Table, entityTable: string, now: int, below: int): (ids: seq<int>)
    ensures forall i | 0 <= i < |ids| :: ids[i] in rows && Claimable(rows[ids[i]], entityTable, now)
    decreases below
  {
    if below <= 1 then []
    else
      var id := below - 1;
      ClaimableIds(rows, entityTable, now, id) + if id in rows && Claimable(rows[id], entityTable, now) then [id] else []
  }

  /** ClaimableIds lists exactly the claimable ids in [1, below), in strictly ascending order. */
  lemma {:induction false} ClaimableIdsSpec(rows: Table, entityTable: string, now: int, below: int)
    ensures var ids := ClaimableIds(rows, entityTable, now, below);
      && (forall i, j | 0 <= i < j < |ids| :: ids[i] < ids[j])
      && (forall id :: id in ids <==> 1 <= id < below && id in rows && Claimable(rows[id], entityTable, now))
    decreases below
  {
    if below > 1 {
      var init := ClaimableIds(rows, entityTable, now, below - 1);
      ClaimableIdsSpec(rows, entityTable, now, below - 1);
      var ids := ClaimableIds(rows, entityTable, now, below);
      forall i, j | 0 <= i < j < |ids| ensures ids[i] < ids[j] {
        if j >= |init| {
          assert ids[j] == below - 1;
          assert ids[i] == init[i] && init[i] in init;
        } else {
          assert ids[i] == init[i] && ids[j] == init[j];
        }
      }
    }
  }

  /** SELECT ... ORDER BY id LIMIT limit: the first `limit` claimable ids. */
  function SelectBatch(rows: Table, entityTable: string, now: int, nextId: int, limit: nat): (batch: seq<int>)
    ensures |batch| <= limit
    ensures forall i | 0 <= i < |batch| :: batch[i] in rows && Claimable(rows[batch[i]], entityTable, now)
  {
    var ids := ClaimableIds(rows, entityTable, now, nextId);
    ids[..Min(limit, |ids|)]
  }

  /**
   * claimBatch's selection: min(limit, n) of the n claimable ids, ascending,
   * each of a claimable row; no claimable id left out is smaller than one
   * taken; and when no more than `limit` rows are claimable, all of them.
   */
  lemma SelectBatchSpec(rows: Table, entityTable: string, now: int, nextId: int, limit: nat)
    requires forall id | id in rows :: 1 <= id < nextId
    ensures var batch := SelectBatch(rows, entityTable, now, nextId, limit);
      && |batch| == Min(limit, |ClaimableIds(rows, entityTable, now, nextId)|)
      && (forall i, j | 0 <= i < j < |batch| :: batch[i] < batch[j])
      && (forall i | 0 <= i < |batch| :: batch[i] in rows && Claimable(rows[batch[i]], entityTable, now))
      && (forall id, k | id in rows && Claimable(rows[id], entityTable, now) && id !in batch && 0 <= k < |batch| :: batch[k] < id)
      && (|ClaimableIds(rows, entityTable, now, nextId)| <= limit ==>
            forall id | id in rows && Claimable(rows[id], entityTable, now) :: id in batch)
  {
    var ids := ClaimableIds(rows, entityTable, now, nextId);
    ClaimableIdsSpec(rows, entityTable, now, nextId);
    SortedPrefixOmitsOnlyLarger(ids, Min(limit, |ids|));
  }

  /** In an ascending sequence, every element past a prefix exceeds every element of the prefix. */
  lemma SortedPrefixOmitsOnlyLarger(ids: seq<int>, n: nat)
    requires n <= |ids|
    requires forall i, j | 0 <= i < j < |ids| :: ids[i] < ids[j]
    ensures forall id, k | id in ids && id !in ids[..n] && 0 <= k < n :: ids[k] < id
  {
    forall id, k | id in ids && id !in ids[..n] && 0 <= k < n ensures ids[k] < id {
      var j :| 0 <= j < |ids| && ids[j] == id;
      assert forall t | 0 <= t < n :: ids[..n][t] == ids[t];
      assert k < j;
    }
  }

  /** The rows the SELECT returned, before the lease is written. */
  function Snapshots(rows: Table, ids: seq<int>): (s: seq<Row>)
    requires forall i | 0 <= i < |ids| :: ids[i] in rows
    ensures |s| == |ids|
  {
    seq(|ids|, i requires 0 <= i < |ids| => rows[ids[i]])
  }

  /** The table with next_attempt_at set to the lease end on the given ids. */
  function Leased(rows: Table, ids: seq<int>, leaseAt: int): Table {
    map id | id in rows :: if id in ids then rows[id].(nextAttemptAt := Some(leaseAt)) else rows[id]
  }

  // ---------------------------------------------------------------- flush

  /** What a sender call did: returned a value, or threw. */
  datatype SendOutcome = Returned(v: Value) | Threw(e: Throwable)

  type Callback = PhpArray -> SendOutcome

  /**
   * The sender flush was given: its send method when it is an object that
   * has one, and its invocation when it is callable.
   */
  datatype Sender = Sender(sendMethod: Option<Callback>, invocation: Option<Callback>)

  /** resolveSenderCallback: the send method first, then the callable itself; otherwise InvalidArgument. */
  function ResolveSenderCallback(sender: Sender): (r: Result<Callback>)
    ensures r.Err? <==> sender.sendMethod.None? && sender.invocation.None?
    ensures r.Err? ==> r.error == InvalidSender
    ensures sender.sendMethod.Some? ==> r == Ok(sender.sendMethod.value)
    ensures sender.sendMethod.None? && sender.invocation.Some? ==> r == Ok(sender.invocation.value)
  {
    if sender.sendMethod.Some? then Ok(sender.sendMethod.value)
    else if sender.invocation.Some? then Ok(sender.invocation.value)
    else Err(InvalidSender)
  }

  /** `$v ?? $default` */
  function OrElse(v: Value, default: Value): Value {
    if v == Null then default else v
  }

  /** decodeStoredPayload: a non-blank string decoded to an array, or []. */
  function DecodeStoredPayload(column: Value, jsonDecode: string -> Value): (r: PhpArray)
    ensures !column.Str? || IsBlank(column.s) ==> r == []
    ensures column.Str? && !IsBlank(column.s) && jsonDecode(column.s).Arr? ==> r == jsonDecode(column.s).entries
  {
    if !column.Str? || IsBlank(column.s) then []
    else
      var decoded := jsonDecode(column.s);
      if decoded.Arr? then decoded.entries else []
  }

  /** JSON text of a value, or '{}' where json_encode fails. */
  function JsonOr(v: Value, jsonEncode: Value -> Option<string>): string {
    jsonEncode(v).GetOr(EmptyObjectJson)
  }

  /** toLegacyRow: the row in the shape the old Outbox handed to senders. */
  function ToLegacyRow(row: Row, jsonDecode: string -> Value, jsonEncode: Value -> Option<string>): PhpArray {
    var stored := DecodeStoredPayload(row.payload, jsonDecode);
    var payload := OrElse(Lookup(stored, PayloadKey), Arr([]));
    var headers := OrElse(Lookup(stored, HeadersKey), Arr([]));
    [Entry(StrKey("id"), Int(row.id)),
     Entry(StrKey("topic"), row.eventType),
     Entry(StrKey("part_key"), row.entityPk),
     Entry(PayloadKey, Str(JsonOr(payload, jsonEncode))),
     Entry(HeadersKey, Str(JsonOr(headers, jsonEncode))),
     Entry(StrKey("attempts"), Int(row.attempts))]
  }

  /**
   * The legacy row of a row whose payload column holds a message's stored
   * payload (provided json_decode reads back what json_encode wrote): the
   * row's id, its event type as topic, its entity_pk as part_key, the
   * message's payload and headers re-encoded, and its attempt count.
   */
  lemma LegacyRowOfStored(row: Row, m: Message, json: string, jsonDecode: string -> Value, jsonEncode: Value -> Option<string>)
    requires row.payload == Str(json) && !IsBlank(json) && jsonDecode(json) == Arr(StoredPayload(m))
    ensures ToLegacyRow(row, jsonDecode, jsonEncode) ==
      [Entry(StrKey("id"), Int(row.id)),
       Entry(StrKey("topic"), row.eventType),
       Entry(StrKey("part_key"), row.entityPk),
       Entry(PayloadKey, Str(JsonOr(Arr(m.payload), jsonEncode))),
       Entry(HeadersKey, Str(JsonOr(Arr(m.headers), jsonEncode))),
       Entry(StrKey("attempts"), Int(row.attempts))]
  {
    var stored := StoredPayload(m);
    assert DecodeStoredPayload(row.payload, jsonDecode) == stored;
    StoredPayloadLookup(m);
  }

  /** The stored payload offers the message's payload and headers under their keys. */
  lemma StoredPayloadLookup(m: Message)
    ensures Lookup(StoredPayload(m), PayloadKey) == Arr(m.payload)
    ensures Lookup(StoredPayload(m), HeadersKey) == Arr(m.headers)
  {
    var stored := StoredPayload(m);
    assert Get(stored, PayloadKey) == Some(Arr(m.payload));
    assert PayloadKey.s[0] != HeadersKey.s[0];
    var rest := stored[1..];
    assert rest[0] == Entry(HeadersKey, Arr(m.headers));
    assert Get(rest, HeadersKey) == Some(Arr(m.headers));
    assert Get(stored, HeadersKey) == Get(rest, HeadersKey);
  }

  /** (bool)$callback($legacy), with an exception counting as failure. */
  predicate Accepted(outcome: SendOutcome) {
    outcome.Returned? && ToPhpBool(outcome.v)
  }

  /** markSent($id): sent, processed now, nothing scheduled. */
  function MarkSentIn(rows: Table, id: int, now: int): (r: Table)
    ensures r.Keys == rows.Keys
    ensures forall k | k in rows && k != id :: r[k] == rows[k]
    ensures id in rows ==> r[id] == rows[id].(status := StatusSent, processedAt := Some(now), nextAttemptAt := None)
  {
    if id in rows then rows[id := rows[id].(status := StatusSent, processedAt := Some(now), nextAttemptAt := None)] else rows
  }

  /** (int)pow(2, $e) for e <= 10: 2^e, and 0 for a negative e (the fraction truncates). */
  function PowCast(e: int): nat {
    if e < 0 then 0 else Pow2(e)
  }

  /** markFailed's wait: min(3600, (int)pow(2, min(10, attempts)) + jitter). */
  function FailureWait(attempts: int, jitter: Jitter): (w: int)
    ensures 0 <= w <= MaxWaitSeconds
  {
    Min(MaxWaitSeconds, PowCast(Min(MaxExponent, attempts)) + jitter)
  }

  /** For a non-negative attempt count the wait lies in [1, 1039]; it never reaches the 3600 cap. */
  lemma FailureWaitBounds(attempts: int, jitter: Jitter)
    requires attempts >= 0
    ensures 1 <= FailureWait(attempts, jitter) <= 1039
  {
    Pow2Monotone(Min(MaxExponent, attempts), MaxExponent);
    assert Pow2(MaxExponent) == 1024 by {
      assert Pow2(1) == 2 && Pow2(2) == 4 && Pow2(3) == 8 && Pow2(4) == 16 && Pow2(5) == 32;
      assert Pow2(6) == 64 && Pow2(7) == 128 && Pow2(8) == 256 && Pow2(9) == 512;
    }
  }

  /** markFailed($row, $e): failed, one more attempt than the snapshot, retried after the wait. */
  function MarkFailedIn(rows: Table, snapshot: Row, now: int, jitter: Jitter): (r: Table)
    ensures r.Keys == rows.Keys
    ensures forall k | k in rows && k != snapshot.id :: r[k] == rows[k]
    ensures snapshot.id <= 0 ==> r == rows
  {
    var id := snapshot.id;
    if id > 0 && id in rows then
      rows[id := rows[id].(status := StatusFailed, attempts := snapshot.attempts + 1,
        nextAttemptAt := Some(now + FailureWait(snapshot.attempts, jitter)))]
    else rows
  }

  /**
   * A failed legacy row is always retried: it gets a next attempt in
   * [now + 1, now + 1039] (for a non-negative count) and never a permanent
   * state, so it stays claimable once that moment has come.
   */
  lemma MarkFailedAlwaysRetries(rows: Table, snapshot: Row, now: int, jitter: Jitter, entityTable: string)
    requires snapshot.id > 0 && snapshot.id in rows && snapshot.attempts >= 0
    requires rows[snapshot.id].entityTable == Str(entityTable)
    ensures var r := MarkFailedIn(rows, snapshot, now, jitter)[snapshot.id];
      && r.status == StatusFailed && r.attempts == snapshot.attempts + 1
      && r.nextAttemptAt.Some? && now + 1 <= r.nextAttemptAt.value <= now + 1039
      && !Claimable(r, entityTable, now)
      && Claimable(r, entityTable, r.nextAttemptAt.value)
  {
    FailureWaitBounds(snapshot.attempts, jitter);
  }

  // --------------------------------------------------------- notifications

  /** A notifyWebhook call: the trimmed url and the array posted to it as JSON. */
  datatype Notification = Notification(url: string, payload: PhpArray)

  const TypeKey := StrKey("type")
  const UrlKey := StrKey("url")
  const WebhookNote := Str("webhook")

  /**
   * The call one entry of the stored notifications list leads to: none
   * unless it is an array whose type is 'webhook' and whose url is set and
   * not blank once cast to string and trimmed; the entry's payload when
   * that is an array, else [].
   */
  function NoteCall(note: Value): (calls: seq<Notification>)
    ensures |calls| <= 1
    ensures forall i | 0 <= i < |calls| :: IsTrimmedNonBlank(calls[i].url)
  {
    if !note.Arr? then []
    else
      var url := Lookup(note.entries, UrlKey);
      if Lookup(note.entries, TypeKey) != WebhookNote || url == Null then []
      else
        var target := Trim(ToPhpString(url));
        if target == "" then []
        else
          var body := Lookup(note.entries, PayloadKey);
          [Notification(target, if body.Arr? then body.entries else [])]
  }

  /** The notifyWebhook calls of dispatchNotifications' loop over a notifications list, in order. */
  function NotificationCalls(items: PhpArray): (calls: seq<Notification>)
    ensures |calls| <= |items|
    ensures forall i | 0 <= i < |calls| :: IsTrimmedNonBlank(calls[i].url)
  {
    if items == [] then []
    else NotificationCalls(items[..|items| - 1]) + NoteCall(items[|items| - 1].val)
  }

  /** The calls of a prefix of the list are a prefix of the calls of the list. */
  lemma {:induction false} NotificationCallsPrefix(items: PhpArray, j: nat)
    requires j <= |items|
    ensures NotificationCalls(items[..j]) <= NotificationCalls(items)
    decreases |items| - j
  {
    if j < |items| {
      var init := items[..|items| - 1];
      assert init[..j] == items[..j];
      NotificationCallsPrefix(init, j);
      assert NotificationCalls(items) == NotificationCalls(init) + NoteCall(items[|items| - 1].val);
    } else {
      assert items[..j] == items;
    }
  }

  /** A throw in a concatenation of call lists is a throw in one of them. */
  lemma ThrowsAppend(before: seq<Notification>, calls: seq<Notification>, notifyThrows: Notification -> bool)
    ensures NotificationThrows(before + calls, notifyThrows) <==>
      NotificationThrows(before, notifyThrows) || NotificationThrows(calls, notifyThrows)
  {
    var after := before + calls;
    if NotificationThrows(after, notifyThrows) {
      var k :| 0 <= k < |after| && notifyThrows(after[k]);
      if k >= |before| {
        assert after[k] == calls[k - |before|];
      } else {
        assert after[k] == before[k];
      }
    }
    if NotificationThrows(calls, notifyThrows) {
      var k :| 0 <= k < |calls| && notifyThrows(calls[k]);
      assert after[|before| + k] == calls[k];
    }
    if NotificationThrows(before, notifyThrows) {
      var k :| 0 <= k < |before| && notifyThrows(before[k]);
      assert after[k] == before[k];
    }
  }

  /** One more entry of the list: a throw among the calls so far, or in the entry's own call. */
  lemma NotificationThrowsSnoc(items: PhpArray, i: nat, notifyThrows: Notification -> bool)
    requires i < |items|
    ensures var calls := NoteCall(items[i].val);
      (NotificationThrows(NotificationCalls(items[..i + 1]), notifyThrows) <==>
       NotificationThrows(NotificationCalls(items[..i]), notifyThrows) || (calls != [] && notifyThrows(calls[0])))
  {
    assert items[..i + 1][..i] == items[..i];
    var calls := NoteCall(items[i].val);
    assert NotificationCalls(items[..i + 1]) == NotificationCalls(items[..i]) + calls;
    ThrowsAppend(NotificationCalls(items[..i]), calls, notifyThrows);
    assert NotificationThrows(calls, notifyThrows) <==> calls != [] && notifyThrows(calls[0]);
  }

  /** A throw among the calls of a prefix of the list is a throw of the whole list. */
  lemma ThrowInPrefix(items: PhpArray, j: nat, notifyThrows: Notification -> bool)
    requires j <= |items| && NotificationThrows(NotificationCalls(items[..j]), notifyThrows)
    ensures NotificationThrows(NotificationCalls(items), notifyThrows)
  {
    NotificationCallsPrefix(items, j);
    var k :| 0 <= k < |NotificationCalls(items[..j])| && notifyThrows(NotificationCalls(items[..j])[k]);
    assert NotificationCalls(items)[k] == NotificationCalls(items[..j])[k];
  }

  /** dispatchNotifications($row): the calls for the stored payload's notifications, or none. */
  function NotificationsOf(row: Row, jsonDecode: string -> Value): seq<Notification> {
    var items := Lookup(DecodeStoredPayload(row.payload, jsonDecode), NotificationsKey);
    if items.Arr? then NotificationCalls(items.entries) else []
  }

  /** Some call of the list throws, which ends dispatchNotifications with that exception. */
  predicate NotificationThrows(calls: seq<Notification>, notifyThrows: Notification -> bool) {
    exists i | 0 <= i < |calls| :: notifyThrows(calls[i])
  }

  /**
   * The notifications of a row holding a message's stored payload are those
   * of the message's notifications list; a message enqueued without
   * notifications triggers none.
   */
  lemma StoredNotifications(row: Row, m: Message, json: string, jsonDecode: string -> Value)
    requires row.payload == Str(json) && !IsBlank(json) && jsonDecode(json) == Arr(StoredPayload(m))
    ensures NotificationsOf(row, jsonDecode) == NotificationCalls(m.notifications)
    ensures m.notifications == [] ==> NotificationsOf(row, jsonDecode) == []
  {
    var stored := StoredPayload(m);
    assert DecodeStoredPayload(row.payload, jsonDecode) == stored;
    assert NotificationsKey.s[0] != PayloadKey.s[0] && NotificationsKey.s[0] != HeadersKey.s[0];
    var rest := stored[2..];
    assert rest[0] == Entry(NotificationsKey, Arr(m.notifications));
    assert Get(rest, NotificationsKey) == Some(Arr(m.notifications));
    assert Get(stored[1..], NotificationsKey) == Get(rest, NotificationsKey);
    assert Get(stored, NotificationsKey) == Get(stored[1..], NotificationsKey);
  }

  /** A webhook note with a usable url calls notifyWebhook once, with the trimmed url and its array payload. */
  lemma WebhookNoteIsCalled(url: string, body: PhpArray)
    requires !IsBlank(url)
    ensures NoteCall(Arr([Entry(TypeKey, WebhookNote), Entry(UrlKey, Str(url)), Entry(PayloadKey, Arr(body))]))
      == [Notification(Trim(url), body)]
  {
    var note := [Entry(TypeKey, WebhookNote), Entry(UrlKey, Str(url)), Entry(PayloadKey, Arr(body))];
    assert TypeKey.s[0] != UrlKey.s[0] && TypeKey.s[0] != PayloadKey.s[0] && UrlKey.s[0] != PayloadKey.s[0];
    assert Get(note[2..], PayloadKey) == Some(Arr(body));
    assert Get(note[1..], UrlKey) == Some(Str(url));
    assert Get(note[1..], PayloadKey) == Get(note[2..], PayloadKey);
    assert Get(note, PayloadKey) == Get(note[1..], PayloadKey);
    assert Get(note, UrlKey) == Get(note[1..], UrlKey);
  }

  /**
   * One claimed row in flush: skipped without a positive id; failed when
   * the sender does not accept it; otherwise marked sent, and then failed
   * after all when a notification throws, inside the same try.
   */
  function FlushStep(rows: Table, row: Row, position: nat, callback: Callback, env: Environment): (Table, bool) {
    if row.id <= 0 then (rows, false)
    else if !Accepted(callback(ToLegacyRow(row, env.jsonDecode, env.jsonEncode))) then
      (MarkFailedIn(rows, row, env.now, env.jitter(position)), false)
    else
      var sentRows := MarkSentIn(rows, row.id, env.now);
      if NotificationThrows(NotificationsOf(row, env.jsonDecode), env.notifyThrows) then
        (MarkFailedIn(sentRows, row, env.now, env.jitter(position)), false)
      else (sentRows, true)
  }

  /**
   * A row counts as sent exactly when it has a positive id, the sender
   * accepted it and no notification threw; it is then sent, processed now,
   * with nothing scheduled.
   */
  lemma FlushStepCountsDelivery(rows: Table, row: Row, position: nat, callback: Callback, env: Environment)
    ensures var (after, sent) := FlushStep(rows, row, position, callback, env);
      && (sent <==> row.id > 0 && Accepted(callback(ToLegacyRow(row, env.jsonDecode, env.jsonEncode)))
                    && !NotificationThrows(NotificationsOf(row, env.jsonDecode), env.notifyThrows))
      && (sent && row.id in rows ==>
            after[row.id] == rows[row.id].(status := StatusSent, processedAt := Some(env.now), nextAttemptAt := None))
  {
  }

  /**
   * A notification that throws undoes an accepted send: the row ends failed
   * with one more attempt, a retry in [now + 1, now + 1039], the processed_at
   * markSent wrote, and is not counted; so the sender gets the same message
   * again once the retry is due.
   */
  lemma ThrowingNotificationRetriesSentRow(rows: Table, row: Row, position: nat, callback: Callback, env: Environment, entityTable: string)
    requires row.id > 0 && row.id in rows && row.attempts >= 0
    requires rows[row.id].entityTable == Str(entityTable)
    requires Accepted(callback(ToLegacyRow(row, env.jsonDecode, env.jsonEncode)))
    requires NotificationThrows(NotificationsOf(row, env.jsonDecode), env.notifyThrows)
    ensures var (after, sent) := FlushStep(rows, row, position, callback, env);
      && !sent
      && after[row.id].status == StatusFailed && after[row.id].attempts == row.attempts + 1
      && after[row.id].processedAt == Some(env.now)
      && after[row.id].nextAttemptAt.Some?
      && env.now + 1 <= after[row.id].nextAttemptAt.value <= env.now + 1039
      && Claimable(after[row.id], entityTable, after[row.id].nextAttemptAt.value)
  {
    var sentRows := MarkSentIn(rows, row.id, env.now);
    MarkFailedAlwaysRetries(sentRows, row, env.now, env.jitter(position), entityTable);
  }

  /** One step keeps the ids, touches only the row's own id, and settles that row when it is in the table. */
  lemma FlushStepSettles(rows: Table, row: Row, position: nat, callback: Callback, env: Environment)
    ensures var (after, sent) := FlushStep(rows, row, position, callback, env);
      && after.Keys == rows.Keys
      && (forall id | id in rows :: after[id].id == rows[id].id)
      && (forall id | id in rows && id != row.id :: after[id] == rows[id])
      && (row.id > 0 && row.id in rows ==> after[row.id].status == StatusSent || after[row.id].status == StatusFailed)
  {
  }

  /** flush's loop over the claimed rows: the table and the number sent. */
  function FlushFold(rows: Table, claimed: seq<Row>, callback: Callback, env: Environment): (Table, nat) {
    if claimed == [] then (rows, 0)
    else
      var before := FlushFold(rows, claimed[..|claimed| - 1], callback, env);
      var after := FlushStep(before.0, claimed[|claimed| - 1], |claimed| - 1, callback, env);
      (after.0, before.1 + if after.1 then 1 else 0)
  }

  /** One more claimed row is one more FlushStep. */
  lemma FlushFoldSnoc(rows: Table, claimed: seq<Row>, i: nat, callback: Callback, env: Environment)
    requires i < |claimed|
    ensures var before := FlushFold(rows, claimed[..i], callback, env);
      var after := FlushStep(before.0, claimed[i], i, callback, env);
      FlushFold(rows, claimed[..i + 1], callback, env) == (after.0, before.1 + if after.1 then 1 else 0)
  {
    assert claimed[..i + 1][..i] == claimed[..i];
  }

  /** The ids of some rows. */
  function IdsOf(claimed: seq<Row>): (ids: seq<int>)
    ensures |ids| == |claimed|
  {
    seq(|claimed|, i requires 0 <= i < |claimed| => claimed[i].id)
  }

  /**
   * flush settles every claimed row it finds in the table (sent or failed),
   * leaves every other row as it was, keeps the table's ids, and counts at
   * most one send per claimed row.
   */
  lemma {:induction false} FlushSettles(rows: Table, claimed: seq<Row>, callback: Callback, env: Environment)
    ensures var (after, sent) := FlushFold(rows, claimed, callback, env);
      && after.Keys == rows.Keys
      && sent <= |claimed|
      && (forall id | id in rows :: after[id].id == rows[id].id)
      && (forall id | id in rows && id !in IdsOf(claimed) :: after[id] == rows[id])
      && (forall id | id in rows && id > 0 && id in IdsOf(claimed) :: after[id].status == StatusSent || after[id].status == StatusFailed)
  {
    if claimed != [] {
      var init := claimed[..|claimed| - 1];
      var last := claimed[|claimed| - 1];
      FlushSettles(rows, init, callback, env);
      var before := FlushFold(rows, init, callback, env);
      var after := FlushStep(before.0, last, |claimed| - 1, callback, env);
      FlushStepSettles(before.0, last, |claimed| - 1, callback, env);
      assert FlushFold(rows, claimed, callback, env) == (after.0, before.1 + if after.1 then 1 else 0);
      assert IdsOf(claimed) == IdsOf(init) + [last.id];
      forall id | id in rows && id > 0 && id in IdsOf(claimed)
        ensures after.0[id].status == StatusSent || after.0[id].status == StatusFailed
      {
        if id != last.id {
          assert id in IdsOf(init);
        }
      }
    }
  }

  /**
   * flush(sender, limit): InvalidArgument for a sender without send() that
   * is not callable; otherwise claimBatch(max(1, limit)) leases the batch
   * and each claimed row is sent or failed; the result is the number sent.
   */
  function FlushSpec(rows: Table, nextId: int, table: string, sender: Sender, limit: int, env: Environment): (Table, Result<nat>)
    requires forall id | id in rows :: 1 <= id < nextId
  {
    match ResolveSenderCallback(sender)
    case Err(e) => (rows, Err(e))
    case Ok(callback) =>
      var ids := SelectBatch(rows, EntityTableOf(table, env.sha256Hex), env.now, nextId, Max(1, limit));
      var result := FlushFold(Leased(rows, ids, env.now + ClaimLeaseSeconds), Snapshots(rows, ids), callback, env);
      (result.0, Ok(result.1))
  }

  /** flush with a usable sender: the claimed snapshots folded over the leased table. */
  lemma FlushSpecOfCallback(rows: Table, nextId: int, table: string, sender: Sender, limit: int, env: Environment, claimed: seq<Row>, leased: Table)
    requires forall id | id in rows :: 1 <= id < nextId
    requires ResolveSenderCallback(sender).Ok?
    requires var ids := SelectBatch(rows, EntityTableOf(table, env.sha256Hex), env.now, nextId, Max(1, limit));
      claimed == Snapshots(rows, ids) && leased == Leased(rows, ids, env.now + ClaimLeaseSeconds)
    ensures var r := FlushFold(leased, claimed, ResolveSenderCallback(sender).value, env);
      FlushSpec(rows, nextId, table, sender, limit, env) == (r.0, Ok(r.1))
  {
  }

  /** A row enqueued with no availableAt, or one that has come, is claimable by its outbox. */
  lemma NewRowIsClaimable(id: int, m: Message, table: string, json: string, env: Environment, now: int)
    requires m.availableAt.None? || m.availableAt.value <= now
    ensures Claimable(NewRow(id, NewEventFor(table, m, json, env), env.createdAt), EntityTableOf(table, env.sha256Hex), now)
  {
  }

  /** Such a message is in the next claimable selection after it has been stored. */
  lemma EnqueuedRowIsClaimable(rows: Table, nextId: int, table: string, m: Message, env: Environment, json: string, now: int)
    requires !IsBlank(m.topic) && env.jsonEncode(Arr(StoredPayload(m))) == Some(json)
    requires m.availableAt.None? || m.availableAt.value <= now
    requires nextId >= 1
    ensures var r := EnqueueSpec(rows, nextId, table, m, env, None);
      nextId in ClaimableIds(r.rows, EntityTableOf(table, env.sha256Hex), now, r.nextId)
  {
    EnqueueStoresMessage(rows, nextId, table, m, env, json);
    var row := NewRow(nextId, NewEventFor(table, m, json, env), env.createdAt);
    var entityTable := EntityTableOf(table, env.sha256Hex);
    NewRowIsClaimable(nextId, m, table, json, env, now);
    var t := rows[nextId := row];
    assert nextId in t && Claimable(t[nextId], entityTable, now);
    assert ClaimableIds(t, entityTable, now, nextId + 1) == ClaimableIds(t, entityTable, now, nextId) + [nextId];
  }

  /** Every row sits under its own id, which is positive and below the next id the store assigns. */
  predicate TableValid(rows: Table, nextId: int) {
    nextId >= 1 && forall id | id in rows :: 1 <= id < nextId && rows[id].id == id
  }

  /** Inserting a row under the next id, which it carries, keeps the table valid. */
  lemma InsertKeepsTableValid(rows: Table, nextId: int, row: Row)
    requires TableValid(rows, nextId) && row.id == nextId
    ensures TableValid(rows[nextId := row], nextId + 1)
  {
  }

  /** Leasing one more selected row. */
  lemma LeasedSnoc(rows: Table, ids: seq<int>, i: nat, leaseAt: int)
    requires i < |ids| && ids[i] in rows
    ensures Leased(rows, ids[..i + 1], leaseAt) == Leased(rows, ids[..i], leaseAt)[ids[i] := rows[ids[i]].(nextAttemptAt := Some(leaseAt))]
  {
    assert ids[..i + 1] == ids[..i] + [ids[i]];
  }

  /** Leasing keeps the table's ids and changes nothing but next_attempt_at, and only on the selected rows. */
  lemma LeasedKeepsRows(rows: Table, ids: seq<int>, leaseAt: int)
    ensures var leased := Leased(rows, ids, leaseAt);
      && leased.Keys == rows.Keys
      && (forall id | id in rows :: leased[id] == rows[id].(nextAttemptAt := leased[id].nextAttemptAt))
      && (forall id | id in rows :: leased[id].nextAttemptAt == if id in ids then Some(leaseAt) else rows[id].nextAttemptAt)
  {
  }

  /**
   * The legacy Outbox over the event_outbox table (CoreOutbox). `rows` and
   * `nextId` stand for the table and its auto-increment counter; `table`
   * is the legacy table name the outbox was created with.
   */
  class CoreOutbox {
    const table: string
    var rows: Table
    var nextId: int

    predicate Valid()
      reads this
    {
      TableValid(rows, nextId)
    }

    constructor(table: string, rows: Table, nextId: int)
      requires TableValid(rows, nextId)
      ensures Valid()
      ensures this.table == table && this.rows == rows && this.nextId == nextId
    {
      this.table := table;
      this.rows := rows;
      this.nextId := nextId;
    }

    /** enqueue(...): see EnqueueSpec. */
    method Enqueue(m: Message, env: Environment, insertError: Option<Throwable>) returns (thrown: Option<Throwable>)
      requires Valid()
      modifies this
      ensures Valid()
      ensures Enqueued(rows, nextId, thrown) == EnqueueSpec(old(rows), old(nextId), table, m, env, insertError)
    {
      if IsBlank(m.topic) {
        return Some(EmptyTopic);
      }
      var encoded := env.jsonEncode(Arr(StoredPayload(m)));
      if encoded.None? {
        return Some(EncodeFailure);
      }
      thrown := Insert(NewEventFor(table, m, encoded.value, env), env.createdAt, m.dedupKey, insertError);
    }

    /** The INSERT of enqueue and its catch: see InsertSpec. */
    method Insert(e: NewEvent, createdAt: Value, dedupKey: Option<string>, insertError: Option<Throwable>) returns (thrown: Option<Throwable>)
      requires Valid()
      modifies this
      ensures Valid()
      ensures Enqueued(rows, nextId, thrown) == InsertSpec(old(rows), old(nextId), e, createdAt, dedupKey, insertError)
    {
      match insertError {
        case None =>
          var row := NewRow(nextId, e, createdAt);
          assert row.id == nextId;
          InsertKeepsTableValid(rows, nextId, row);
          rows := rows[nextId := row];
          nextId := nextId + 1;
          thrown := None;
        case Some(err) =>
          if dedupKey.Some? && IsDuplicateError(err.message) {
            thrown := None;
          } else {
            thrown := Some(err);
          }
      }
    }

    /**
     * claimBatch(limit): selects the due rows of this outbox (see
     * SelectBatch), leases each for ClaimLeaseSeconds, and returns them as
     * they were selected.
     */
    method ClaimBatch(limit: nat, env: Environment) returns (claimed: seq<Row>)
      requires Valid()
      modifies this
      ensures Valid() && nextId == old(nextId)
      ensures var ids := SelectBatch(old(rows), EntityTableOf(table, env.sha256Hex), env.now, nextId, limit);
        && IdsOf(claimed) == ids
        && claimed == Snapshots(old(rows), ids)
        && rows == Leased(old(rows), ids, env.now + ClaimLeaseSeconds)
    {
      var ids := SelectBatch(rows, EntityTableOf(table, env.sha256Hex), env.now, nextId, limit);
      SelectBatchSpec(rows, EntityTableOf(table, env.sha256Hex), env.now, nextId, limit);
      claimed := Snapshots(rows, ids);
      assert IdsOf(claimed) == ids;
      Lease(ids, env.now + ClaimLeaseSeconds);
    }

    /** The UPDATE loop of claimBatch: next_attempt_at := leaseAt on each selected row. */
    method Lease(ids: seq<int>, leaseAt: int)
      requires Valid() && forall i | 0 <= i < |ids| :: ids[i] in rows
      modifies this
      ensures Valid() && nextId == old(nextId)
      ensures rows == Leased(old(rows), ids, leaseAt)
    {
      LeasedKeepsRows(rows, ids, leaseAt);
      assert Leased(rows, ids[..0], leaseAt) == rows;
      for i := 0 to |ids|
        invariant rows == Leased(old(rows), ids[..i], leaseAt)
        invariant nextId == old(nextId)
      {
        var id := ids[i];
        LeasedKeepsRows(old(rows), ids[..i], leaseAt);
        if id > 0 {
          LeasedSnoc(old(rows), ids, i, leaseAt);
          rows := rows[id := rows[id].(nextAttemptAt := Some(leaseAt))];
        }
      }
      assert ids[..|ids|] == ids;
    }

    /** markSent(id) */
    method MarkSent(id: int, now: int)
      modifies this
      ensures rows == MarkSentIn(old(rows), id, now) && nextId == old(nextId)
    {
      if id in rows {
        rows := rows[id := rows[id].(status := StatusSent, processedAt := Some(now), nextAttemptAt := None)];
      }
    }

    /** markFailed(row, e), with the jitter random_int(0, 15) drew. */
    method MarkFailed(snapshot: Row, now: int, jitter: Jitter)
      modifies this
      ensures rows == MarkFailedIn(old(rows), snapshot, now, jitter) && nextId == old(nextId)
    {
      var id := snapshot.id;
      if id <= 0 {
        return;
      }
      var attempts := snapshot.attempts;
      var wait := Min(MaxWaitSeconds, PowCast(Min(MaxExponent, attempts)) + jitter);
      if id in rows {
        rows := rows[id := rows[id].(status := StatusFailed, attempts := attempts + 1, nextAttemptAt := Some(now + wait))];
      }
    }

    /** The body of flush's loop for the claimed row at `position`; true when it was sent. */
    method SendRow(row: Row, position: nat, callback: Callback, env: Environment) returns (ok: bool)
      modifies this
      ensures (rows, ok) == FlushStep(old(rows), row, position, callback, env) && nextId == old(nextId)
    {
      if row.id <= 0 {
        return false;
      }
      var outcome := callback(ToLegacyRow(row, env.jsonDecode, env.jsonEncode));
      ok := match outcome
        case Returned(v) => ToPhpBool(v)
        case Threw(_) => false;
      if !ok {
        MarkFailed(row, env.now, env.jitter(position));
        return;
      }
      MarkSent(row.id, env.now);
      var threw := DispatchNotifications(row, env);
      if threw {
        MarkFailed(row, env.now, env.jitter(position));
        ok := false;
      }
    }

    /** dispatchNotifications($row): true when a notifyWebhook call threw, which ends the loop. */
    method DispatchNotifications(row: Row, env: Environment) returns (threw: bool)
      ensures threw == NotificationThrows(NotificationsOf(row, env.jsonDecode), env.notifyThrows)
    {
      var items := Lookup(DecodeStoredPayload(row.payload, env.jsonDecode), NotificationsKey);
      if !items.Arr? || items.entries == [] {
        return false;
      }
      var notes := items.entries;
      for i := 0 to |notes|
        invariant !NotificationThrows(NotificationCalls(notes[..i]), env.notifyThrows)
      {
        var calls := NoteCall(notes[i].val);
        NotificationThrowsSnoc(notes, i, env.notifyThrows);
        if calls != [] && env.notifyThrows(calls[0]) {
          ThrowInPrefix(notes, i + 1, env.notifyThrows);
          return true;
        }
      }
      assert notes[..|notes|] == notes;
      return false;
    }

    /** flush(sender, limit): see FlushSpec. */
    method Flush(sender: Sender, limit: int, env: Environment) returns (result: Result<nat>)
      requires Valid()
      modifies this
      ensures Valid() && nextId == old(nextId)
      ensures (rows, result) == FlushSpec(old(rows), old(nextId), table, sender, limit, env)
    {
      var batchSize := Max(1, limit);
      var resolved := ResolveSenderCallback(sender);
      if resolved.Err? {
        return Err(resolved.error);
      }
      var callback := resolved.value;
      ghost var ids := SelectBatch(rows, EntityTableOf(table, env.sha256Hex), env.now, nextId, batchSize);
      var claimed := ClaimBatch(batchSize, env);
      ghost var leased := rows;
      assert leased == Leased(old(rows), ids, env.now + ClaimLeaseSeconds) && claimed == Snapshots(old(rows), ids);
      var sent := SendAll(claimed, callback, env);
      FlushSpecOfCallback(old(rows), old(nextId), table, sender, limit, env, claimed, leased);
      FlushSettles(leased, claimed, callback, env);
      LeasedKeepsRows(old(rows), IdsOf(claimed), env.now + ClaimLeaseSeconds);
      result := Ok(sent);
    }

    /** flush's loop over the claimed rows: see FlushFold. */
    method SendAll(claimed: seq<Row>, callback: Callback, env: Environment) returns (sent: nat)
      modifies this
      ensures (rows, sent) == FlushFold(old(rows), claimed, callback, env) && nextId == old(nextId)
    {
      ghost var leased := rows;
      sent := 0;
      for i := 0 to |claimed|
        invariant (rows, sent) == FlushFold(leased, claimed[..i], callback, env)
        invariant nextId == old(nextId)
      {
        ghost var before := rows;
        ghost var counted := sent;
        assert FlushFold(leased, claimed[..i], callback, env) == (before, counted);
        FlushFoldSnoc(leased, claimed, i, callback, env);
        var ok := SendRow(claimed[i], i, callback, env);
        assert (rows, ok) == FlushStep(before, claimed[i], i, callback, env);
        if ok {
          sent := sent + 1;
        }
        assert sent == counted + if ok then 1 else 0;
        assert FlushFold(leased, claimed[..i + 1], callback, env) == (rows, sent);
      }
      assert claimed[..|claimed|] == claimed;
    }
  }
}
