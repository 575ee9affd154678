/**
 * The legacy inbox facade (src/CoreCompat/CoreInbox.php) over the
 * event_inbox table, unique by (source, event_key). process runs a
 * caller's handler for an inbound message at most once successfully: it
 * records the message, locks its row, skips it when already processed, and
 * records the handler's success or failure. ack marks a message processed
 * without a handler; cleanup deletes old processed rows of this source.
 *
 * The table is a map from (source, event_key) to the row, with the next id
 * the store would assign. What the store and the handler do (an INSERT
 * error, a lock that is not granted, the handler's exception), the clock
 * and the digests are inputs.
 */
module LegacyInbox {
  import opened Common
  import opened PhpStrings
  import opened PhpValues
  import opened Primitives
  import opened LegacySupport
  import Uuid

  const StatusPending := "pending"
  const StatusProcessed := "processed"
  const StatusFailed := "failed"
  const DefaultSource := "inbox"
  const SourceWidth := 100
  const ErrorWidth := 2000
  const SecondsPerDay := 86400
  const EmptyObjectJson := "{}"

  /** The unique key of event_inbox. */
  datatype InboxKey = InboxKey(source: string, eventKey: string)

  /** An event_inbox row; status, attempts and the optional columns start at the table's defaults. */
  datatype InboxRow = InboxRow(id: int, status: string, attempts: int, lastError: Option<string>, processedAt: Option<int>, payload: string)

  type InboxTable = map<InboxKey, InboxRow>

  /** The clock (one `now` per call), sha1, the hex SHA-256 digest and json_encode. */
  datatype Environment = Environment(
    now: int,
    sha1: string -> Sha1Digest,
    sha256Hex: string -> Sha256Hex,
    jsonEncode: Value -> Option<string>)

  /** The source of this inbox's rows: the legacy table name, fitted to 100 characters. */
  function SourceOf(table: string, sha256Hex: string -> Sha256Hex): (r: string)
    ensures |r| <= SourceWidth
  {
    NormalizeFixedString(table, SourceWidth, DefaultSource, sha256Hex)
  }

  /** The row key of a message: its id normalized to an identifier, salted with the source. */
  function KeyFor(table: string, messageId: string, env: Environment): (k: InboxKey)
    ensures |k.source| <= SourceWidth && Uuid.IsUuid(k.eventKey)
  {
    var source := SourceOf(table, env.sha256Hex);
    InboxKey(source, Uuid.Normalize(messageId, source, env.sha1))
  }

  /** The key of a message id in identifier form keeps that id, trimmed and lower-cased. */
  lemma KeyOfWellFormedId(table: string, messageId: string, env: Environment)
    requires Uuid.IsUuid(messageId)
    ensures KeyFor(table, messageId, env) == InboxKey(SourceOf(table, env.sha256Hex), Lower(Trim(messageId)))
  {
    Uuid.NormalizeKeepsWellFormed(messageId, SourceOf(table, env.sha256Hex), env.sha1);
  }

  /**
   * Two message ids in identifier form get the same key exactly when they
   * agree once trimmed and lower-cased.
   */
  lemma MessageKeys(table: string, id1: string, id2: string, env: Environment)
    requires Uuid.IsUuid(id1) && Uuid.IsUuid(id2)
    ensures KeyFor(table, id1, env) == KeyFor(table, id2, env) <==> Lower(Trim(id1)) == Lower(Trim(id2))
  {
    KeyOfWellFormedId(table, id1, env);
    KeyOfWellFormedId(table, id2, env);
  }

  /** json_encode(['topic' => $topic]), or '{}' where that fails. */
  function TopicPayload(topic: string, jsonEncode: Value -> Option<string>): string {
    jsonEncode(Arr([Entry(StrKey("topic"), Str(topic))])).GetOr(EmptyObjectJson)
  }

  /** The row the INSERT creates: the next id, pending, no attempts, no error, not processed. */
  function NewInboxRow(id: int, payload: string): InboxRow {
    InboxRow(id, StatusPending, 0, None, None, payload)
  }

  /**
   * What the store and the handler do during one process call: an error
   * the INSERT raises other than for an existing key, whether lockById
   * returns no row, and the exception the handler throws (None when it
   * returns).
   */
  datatype Outcomes = Outcomes(insertFault: Option<Throwable>, lockFails: bool, handlerError: Option<Throwable>)

  /** The table and next id after process, whether the handler ran, and what process returned or threw. */
  datatype Processed = Processed(rows: InboxTable, nextId: int, handled: bool, result: Result<bool>)

  /** The last_error process records: the first 2000 characters of the message. */
  function ErrorText(e: Throwable): (r: string)
    ensures |r| == Min(ErrorWidth, |e.message|) && r == e.message[..|r|]
    ensures |e.message| <= ErrorWidth ==> r == e.message
  {
    Prefix(e.message, ErrorWidth)
  }

  /**
   * process from lockById on, for the row found under the key: no row id,
   * a lock not granted or an already processed row return false without
   * the handler; otherwise the handler's success marks the row processed
   * and returns true, and its failure records it and rethrows.
   */
  function HandleSpec(rows: InboxTable, nextId: int, key: InboxKey, now: int, o: Outcomes): (r: Processed)
    requires key in rows
    ensures r.nextId == nextId && r.rows.Keys == rows.Keys
    ensures r.handled <==> rows[key].id > 0 && !o.lockFails && rows[key].status != StatusProcessed
    ensures !r.handled ==> r.rows == rows && r.result == Ok(false)
    ensures r.handled ==> forall k | k in rows && k != key :: r.rows[k] == rows[k]
    ensures r.handled ==> r.rows[key].id == rows[key].id
  {
    var row := rows[key];
    if row.id <= 0 || o.lockFails || row.status == StatusProcessed then Processed(rows, nextId, false, Ok(false))
    else
      match o.handlerError
      case None =>
        Processed(rows[key := row.(status := StatusProcessed, processedAt := Some(now), lastError := None)], nextId, true, Ok(true))
      case Some(e) =>
        Processed(rows[key := row.(status := StatusFailed, attempts := row.attempts + 1, lastError := Some(ErrorText(e)))], nextId, true, Err(e))
  }

  /**
   * process($messageId, $topic, $handler) for the key of the message: the
   * INSERT adds a row when the key is new; an INSERT error that is not a
   * duplicate propagates; otherwise the row under the key is handled, and
   * without one process returns false.
   */
  function ProcessSpec(rows: InboxTable, nextId: int, key: InboxKey, payload: string, now: int, o: Outcomes): (r: Processed)
    ensures r.handled ==> key in r.rows
    ensures o.insertFault.Some? && !IsDuplicateError(o.insertFault.value.message)
      ==> r == Processed(rows, nextId, false, Err(o.insertFault.value))
    ensures o.insertFault.None? && key !in rows ==> key in r.rows && r.rows[key].id == nextId && r.nextId == nextId + 1
    ensures !(o.insertFault.None? && key !in rows) ==> r.nextId == nextId && r.rows.Keys == rows.Keys
    ensures forall k | k in rows && k != key :: k in r.rows && r.rows[k] == rows[k]
  {
    if o.insertFault.Some? && !IsDuplicateError(o.insertFault.value.message) then
      Processed(rows, nextId, false, Err(o.insertFault.value))
    else if o.insertFault.None? && key !in rows then
      HandleSpec(rows[key := NewInboxRow(nextId, payload)], nextId + 1, key, now, o)
    else if key !in rows then
      Processed(rows, nextId, false, Ok(false))
    else
      HandleSpec(rows, nextId, key, now, o)
  }

  /** A successful handler run leaves the row processed at `now` with no error, and process returns true. */
  lemma HandlerSuccessMarksProcessed(rows: InboxTable, nextId: int, key: InboxKey, payload: string, now: int, o: Outcomes)
    requires o.handlerError.None?
    ensures var r := ProcessSpec(rows, nextId, key, payload, now, o);
      r.handled ==> && r.result == Ok(true)
                    && r.rows[key].status == StatusProcessed && r.rows[key].processedAt == Some(now)
                    && r.rows[key].lastError.None?
                    && r.rows[key].attempts == (if key in rows then rows[key].attempts else 0)
  {
  }

  /**
   * A failed handler run leaves the row failed with one more attempt and
   * the first 2000 characters of the message, and process rethrows the
   * handler's own exception.
   */
  lemma HandlerFailureRecorded(rows: InboxTable, nextId: int, key: InboxKey, payload: string, now: int, o: Outcomes)
    requires o.handlerError.Some?
    ensures var r := ProcessSpec(rows, nextId, key, payload, now, o);
      r.handled ==> && r.result == Err(o.handlerError.value)
                    && r.rows[key].status == StatusFailed
                    && r.rows[key].attempts == (if key in rows then rows[key].attempts else 0) + 1
                    && r.rows[key].lastError == Some(ErrorText(o.handlerError.value))
                    && r.rows[key].processedAt == (if key in rows then rows[key].processedAt else None)
  {
  }

  /** A processed row short-circuits: no handler, nothing changes, false (unless the INSERT failed otherwise). */
  lemma ProcessedRowIsSkipped(rows: InboxTable, nextId: int, key: InboxKey, payload: string, now: int, o: Outcomes)
    requires key in rows && rows[key].status == StatusProcessed
    ensures var r := ProcessSpec(rows, nextId, key, payload, now, o);
      && !r.handled && r.rows == rows && r.nextId == nextId
      && (o.insertFault.None? || IsDuplicateError(o.insertFault.value.message) ==> r.result == Ok(false))
  {
  }

  /**
   * Exactly once: after a call whose handler succeeded, any later call for
   * the same key, whatever its outcomes, runs no handler and changes nothing.
   */
  lemma HandlerRunsOnceAfterSuccess(rows: InboxTable, nextId: int, key: InboxKey, payload: string, now: int, o: Outcomes,
                                    payload2: string, now2: int, o2: Outcomes)
    requires ProcessSpec(rows, nextId, key, payload, now, o).result == Ok(true)
    ensures var r := ProcessSpec(rows, nextId, key, payload, now, o);
      var r2 := ProcessSpec(r.rows, r.nextId, key, payload2, now2, o2);
      !r2.handled && r2.rows == r.rows && r2.nextId == r.nextId
  {
    var r := ProcessSpec(rows, nextId, key, payload, now, o);
    assert r.handled;
    HandlerSuccessMarksProcessed(rows, nextId, key, payload, now, o);
    ProcessedRowIsSkipped(r.rows, r.nextId, key, payload2, now2, o2);
  }

  /** A failed row is retried: only 'processed' short-circuits. */
  lemma FailedRowIsRetried(rows: InboxTable, nextId: int, key: InboxKey, payload: string, now: int, o: Outcomes)
    requires key in rows && rows[key].status == StatusFailed && rows[key].id > 0
    requires !o.lockFails && (o.insertFault.None? || IsDuplicateError(o.insertFault.value.message))
    ensures ProcessSpec(rows, nextId, key, payload, now, o).handled
  {
  }

  /**
   * A new message is recorded and handled: its row gets the next id, and
   * when the handler fails the row is still kept, as failed, with one attempt.
   */
  lemma NewMessageIsRecorded(rows: InboxTable, nextId: int, key: InboxKey, payload: string, now: int, o: Outcomes)
    requires key !in rows && o.insertFault.None? && !o.lockFails && nextId > 0
    ensures var r := ProcessSpec(rows, nextId, key, payload, now, o);
      && r.handled && key in r.rows && r.rows[key].id == nextId && r.rows[key].payload == payload
      && (o.handlerError.Some? ==> r.rows[key].status == StatusFailed && r.rows[key].attempts == 1)
  {
  }

  /** A duplicate INSERT error falls back to the row already there; with none, process returns false untouched. */
  lemma DuplicateInsertFallsBack(rows: InboxTable, nextId: int, key: InboxKey, payload: string, now: int, o: Outcomes)
    requires o.insertFault.Some? && IsDuplicateError(o.insertFault.value.message)
    ensures key !in rows ==> ProcessSpec(rows, nextId, key, payload, now, o) == Processed(rows, nextId, false, Ok(false))
    ensures key in rows ==> ProcessSpec(rows, nextId, key, payload, now, o) == HandleSpec(rows, nextId, key, now, o)
  {
  }

  /** ack($messageId) for the message's key: processed at `now`, error cleared; an unknown key changes nothing. */
  function AckSpec(rows: InboxTable, key: InboxKey, now: int): (r: InboxTable)
    ensures r.Keys == rows.Keys
    ensures key !in rows || rows[key].id <= 0 ==> r == rows
    ensures forall k | k in rows && k != key :: r[k] == rows[k]
  {
    if key !in rows || rows[key].id <= 0 then rows
    else rows[key := rows[key].(status := StatusProcessed, processedAt := Some(now), lastError := None)]
  }

  /** After an ack of a known message, process never runs its handler. */
  lemma AckPreventsHandler(rows: InboxTable, key: InboxKey, now: int, nextId: int, payload: string, now2: int, o: Outcomes)
    requires key in rows && rows[key].id > 0
    ensures var acked := AckSpec(rows, key, now);
      && acked[key].status == StatusProcessed && acked[key].processedAt == Some(now) && acked[key].lastError.None?
      && !ProcessSpec(acked, nextId, key, payload, now2, o).handled
  {
    ProcessedRowIsSkipped(AckSpec(rows, key, now), nextId, key, payload, now2, o);
  }

  /** The cleanup cutoff: now less max(0, days) days. */
  function Cutoff(now: int, olderThanDays: int): (c: int)
    ensures c <= now
  {
    now - Max(0, olderThanDays) * SecondsPerDay
  }

  /** The DELETE's WHERE clause. */
  predicate Expired(key: InboxKey, row: InboxRow, source: string, cutoff: int) {
    key.source == source && row.status == StatusProcessed && row.processedAt.Some? && row.processedAt.value < cutoff
  }

  function ExpiredKeys(rows: InboxTable, source: string, cutoff: int): (s: set<InboxKey>)
    ensures s <= rows.Keys
  {
    set k | k in rows && Expired(k, rows[k], source, cutoff)
  }

  function Remaining(rows: InboxTable, source: string, cutoff: int): InboxTable {
    map k | k in rows && !Expired(k, rows[k], source, cutoff) :: rows[k]
  }

  /**
   * cleanup deletes exactly the expired rows, keeps every other row as it
   * was, and reports how many rows went; pending and failed rows and other
   * sources' rows always stay.
   */
  lemma CleanupDeletesExactlyExpired(rows: InboxTable, source: string, cutoff: int)
    ensures var left := Remaining(rows, source, cutoff);
      && left.Keys == rows.Keys - ExpiredKeys(rows, source, cutoff)
      && (forall k | k in left :: left[k] == rows[k])
      && |rows.Keys| == |left.Keys| + |ExpiredKeys(rows, source, cutoff)|
      && (forall k | k in rows && (k.source != source || rows[k].status != StatusProcessed) :: k in left)
  {
    var left := Remaining(rows, source, cutoff);
    var gone := ExpiredKeys(rows, source, cutoff);
    assert left.Keys == rows.Keys - gone;
    assert rows.Keys == left.Keys + gone;
    assert left.Keys !! gone;
  }

  /** A negative age counts as zero: the cutoff is now, so only rows processed before now go. */
  lemma NegativeAgeIsZero(now: int, olderThanDays: int)
    requires olderThanDays <= 0
    ensures Cutoff(now, olderThanDays) == now
  {
  }

  /** Every row sits under a positive id below the next id, and no two rows share an id. */
  predicate TableValid(rows: InboxTable, nextId: int) {
    && nextId >= 1
    && (forall k | k in rows :: 1 <= rows[k].id < nextId)
    && (forall k1, k2 | k1 in rows && k2 in rows && rows[k1].id == rows[k2].id :: k1 == k2)
  }

  /** A new row under a new key with the next id keeps the table valid. */
  lemma InsertKeepsTableValid(rows: InboxTable, nextId: int, key: InboxKey, row: InboxRow)
    requires TableValid(rows, nextId) && key !in rows && row.id == nextId
    ensures TableValid(rows[key := row], nextId + 1)
  {
  }

  /** Handling a row changes no id and no key, so it keeps the table valid. */
  lemma HandleKeepsTableValid(rows: InboxTable, nextId: int, key: InboxKey, now: int, o: Outcomes)
    requires key in rows && TableValid(rows, nextId)
    ensures var r := HandleSpec(rows, nextId, key, now, o);
      TableValid(r.rows, r.nextId)
  {
    var r := HandleSpec(rows, nextId, key, now, o);
    assert forall k | k in r.rows :: r.rows[k].id == rows[k].id;
  }

  /** process keeps the table valid. */
  lemma ProcessKeepsTableValid(rows: InboxTable, nextId: int, key: InboxKey, payload: string, now: int, o: Outcomes)
    requires TableValid(rows, nextId)
    ensures var r := ProcessSpec(rows, nextId, key, payload, now, o);
      TableValid(r.rows, r.nextId)
  {
    if o.insertFault.None? && key !in rows {
      InsertKeepsTableValid(rows, nextId, key, NewInboxRow(nextId, payload));
      HandleKeepsTableValid(rows[key := NewInboxRow(nextId, payload)], nextId + 1, key, now, o);
    } else if key in rows {
      HandleKeepsTableValid(rows, nextId, key, now, o);
    }
  }

  /**
   * The legacy Inbox over event_inbox (CoreInbox). `rows` and `nextId`
   * stand for the table and its auto-increment counter; `table` is the
   * legacy table name, which becomes the rows' source.
   */
  class CoreInbox {
    const table: string
    var rows: InboxTable
    var nextId: int

    predicate Valid()
      reads this
    {
      TableValid(rows, nextId)
    }

    constructor(table: string, rows: InboxTable, nextId: int)
      requires TableValid(rows, nextId)
      ensures Valid()
      ensures this.table == table && this.rows == rows && this.nextId == nextId
    {
      this.table := table;
      this.rows := rows;
      this.nextId := nextId;
    }

    /**
     * process(messageId, topic, handler): returns whether the handler ran
     * and what process returned or threw (see ProcessSpec).
     */
    method Process(messageId: string, topic: string, o: Outcomes, env: Environment) returns (handled: bool, result: Result<bool>)
      requires Valid()
      modifies this
      ensures Valid()
      ensures Processed(rows, nextId, handled, result)
        == ProcessSpec(old(rows), old(nextId), KeyFor(table, messageId, env), TopicPayload(topic, env.jsonEncode), env.now, o)
    {
      var key := KeyFor(table, messageId, env);
      var payload := TopicPayload(topic, env.jsonEncode);
      handled, result := ProcessKey(key, payload, env.now, o);
    }

    /** process once the key and the stored payload are known. */
    method ProcessKey(key: InboxKey, payload: string, now: int, o: Outcomes) returns (handled: bool, result: Result<bool>)
      requires Valid()
      modifies this
      ensures Valid()
      ensures Processed(rows, nextId, handled, result) == ProcessSpec(old(rows), old(nextId), key, payload, now, o)
    {
      ProcessKeepsTableValid(rows, nextId, key, payload, now, o);
      ghost var spec := ProcessSpec(rows, nextId, key, payload, now, o);
      match o.insertFault {
        case None =>
          if key !in rows {
            rows := rows[key := NewInboxRow(nextId, payload)];
            nextId := nextId + 1;
          }
        case Some(e) =>
          if !IsDuplicateError(e.message) {
            return false, Err(e);
          }
      }
      if key !in rows {
        return false, Ok(false);
      }
      assert spec == HandleSpec(rows, nextId, key, now, o);
      handled, result := Handle(key, now, o);
    }

    /** process from lockById on: see HandleSpec. */
    method Handle(key: InboxKey, now: int, o: Outcomes) returns (handled: bool, result: Result<bool>)
      requires key in rows
      modifies this
      ensures Processed(rows, nextId, handled, result) == HandleSpec(old(rows), old(nextId), key, now, o)
    {
      var row := rows[key];
      if row.id <= 0 || o.lockFails || row.status == StatusProcessed {
        return false, Ok(false);
      }
      match o.handlerError {
        case None =>
          rows := rows[key := row.(status := StatusProcessed, processedAt := Some(now), lastError := None)];
          handled, result := true, Ok(true);
        case Some(e) =>
          var err := Prefix(e.message, ErrorWidth);
          rows := rows[key := row.(status := StatusFailed, attempts := row.attempts + 1, lastError := Some(err))];
          handled, result := true, Err(e);
      }
    }

    /** ack(messageId): see AckSpec. */
    method Ack(messageId: string, env: Environment)
      requires Valid()
      modifies this
      ensures Valid() && nextId == old(nextId)
      ensures rows == AckSpec(old(rows), KeyFor(table, messageId, env), env.now)
    {
      var key := KeyFor(table, messageId, env);
      AckKey(key, env.now);
    }

    /** ack once the key is known: see AckSpec. */
    method AckKey(key: InboxKey, now: int)
      requires Valid()
      modifies this
      ensures Valid() && nextId == old(nextId)
      ensures rows == AckSpec(old(rows), key, now)
    {
      if key !in rows || rows[key].id <= 0 {
        return;
      }
      rows := rows[key := rows[key].(status := StatusProcessed, processedAt := Some(now), lastError := None)];
      assert forall k | k in rows :: rows[k].id == old(rows)[k].id;
    }

    /** cleanup(status, olderThanDays): the status argument is not used. */
    method Cleanup(status: string, olderThanDays: int, env: Environment) returns (deleted: nat)
      requires Valid()
      modifies this
      ensures Valid() && nextId == old(nextId)
      ensures var cutoff := Cutoff(env.now, olderThanDays);
        var source := SourceOf(table, env.sha256Hex);
        && rows == Remaining(old(rows), source, cutoff)
        && deleted == |ExpiredKeys(old(rows), source, cutoff)|
    {
      var days := Max(0, olderThanDays);
      var cutoff := env.now - days * SecondsPerDay;
      var source := SourceOf(table, env.sha256Hex);
      deleted := |ExpiredKeys(rows, source, cutoff)|;
      rows := Remaining(rows, source, cutoff);
    }
  }
}
