/**
 * The event outbox worker (src/Worker/EventOutboxWorker.php). One runOnce
 * batch fetches candidate ids from the due view, and for each positive id
 * leases the row (claim), publishes it as an envelope (processRow) and, if
 * that throws, records the failure (releaseWithFailure).
 *
 * The event_outbox table is a map from id to row, the transport is the
 * list of envelopes it accepted plus a function saying whether it accepts
 * the next one. Time is one `now` in whole seconds per batch; the rows other
 * workers hold locked, the envelope's creation stamp, the decryption hook's
 * answer and the jitter drawn for each row are inputs too.
 */
module EventWorker {
  import opened Common
  import opened PhpStrings
  import opened PhpValues
  import opened WorkerSupport
  import opened Envelopes
  import opened EventConfig
  import opened OutboxRuns

  /** A row of event_outbox as the repository returns it; timestamps are seconds. */
  datatype EventRow = EventRow(
    id: int,
    eventKey: Value,
    entityTable: Value,
    entityPk: Value,
    eventType: Value,
    payload: Value,
    status: string,
    attempts: int,
    nextAttemptAt: Option<int>,
    processedAt: Option<int>,
    createdAt: Value)

  type Table = map<int, EventRow>

  const MissingEventType := "missing_event_type"

  /**
   * What a batch depends on and does not control: the rows other workers
   * hold locked (lockById with skip_locked returns null for them), the
   * clock, the gmdate(DATE_ATOM) text an envelope is stamped with, whether
   * the transport accepts an envelope (None) or throws, what the decryption
   * adapter returns for a payload (None when there is none or it throws),
   * json_decode, and the jitter drawn for the n-th fetched row.
   */
  datatype Environment = Environment(
    lockedByPeers: set<int>,
    now: int,
    createdAt: string,
    publish: Envelope -> Option<Throwable>,
    decrypt: PhpArray -> Option<Value>,
    jsonDecode: string -> Value,
    jitter: nat -> Jitter)

  /** The table and what the transport has accepted so far. */
  datatype EventState = EventState(rows: Table, published: seq<Envelope>)

  // ------------------------------------------------------------ candidates

  /** The rows of the due view that belong to the entity table, or all of them when none is configured. */
  function OfEntityTable(view: seq<PhpArray>, entityTable: string): seq<PhpArray> {
    if view == [] then []
    else
      var rest := OfEntityTable(view[..|view| - 1], entityTable);
      var last := view[|view| - 1];
      if entityTable == "" || Field(last, "entity_table") == Str(entityTable) then rest + [last] else rest
  }

  /** OfEntityTable keeps exactly the view's rows of the table, and never more rows than the view has. */
  lemma {:induction false} OfEntityTableMembers(view: seq<PhpArray>, entityTable: string)
    ensures var r := OfEntityTable(view, entityTable);
      && |r| <= |view|
      && (forall row | row in r :: row in view)
      && (forall row | row in view :: row in r <==> (entityTable == "" || Field(row, "entity_table") == Str(entityTable)))
  {
    if view != [] {
      OfEntityTableMembers(view[..|view| - 1], entityTable);
      assert view == view[..|view| - 1] + [view[|view| - 1]];
    }
  }

  /**
   * The candidate query of runOnce: SELECT id FROM vw_event_outbox_due
   * [WHERE entity_table = trim(entityTable)] ORDER BY id ASC LIMIT batchSize.
   * `view` is the due view in id order; which rows it holds is not part of
   * this model.
   */
  function SelectCandidates(view: seq<PhpArray>, entityTable: string, limit: nat): seq<PhpArray> {
    var matching := OfEntityTable(view, Trim(entityTable));
    matching[..Min(limit, |matching|)]
  }

  /**
   * The first min(limit, n) of the n matching rows, in view order, all from
   * the view; with an entity table configured, all of that table; and when
   * no more than `limit` rows match, every one of them.
   */
  lemma SelectCandidatesSpec(view: seq<PhpArray>, entityTable: string, limit: nat)
    ensures var r := SelectCandidates(view, entityTable, limit);
      && |r| == Min(limit, |OfEntityTable(view, Trim(entityTable))|)
      && r <= OfEntityTable(view, Trim(entityTable))
      && (forall row | row in r :: row in view)
      && (Trim(entityTable) != "" ==> forall row | row in r :: Field(row, "entity_table") == Str(Trim(entityTable)))
      && (|OfEntityTable(view, Trim(entityTable))| <= limit ==>
            forall row | row in view :: row in r <==> (Trim(entityTable) == "" || Field(row, "entity_table") == Str(Trim(entityTable))))
  {
    var matching := OfEntityTable(view, Trim(entityTable));
    OfEntityTableMembers(view, Trim(entityTable));
    var r := SelectCandidates(view, entityTable, limit);
    assert forall row | row in r :: row in matching;
    if |matching| <= limit {
      assert r == matching;
    }
  }

  // ----------------------------------------------------------------- claim

  /**
   * claim($id): the locked row with next_attempt_at moved to the lease end,
   * or None when the row is missing or locked elsewhere, its status is not
   * pending or failed, or it is not due.
   */
  function ClaimSpec(rows: Table, id: int, env: Environment, lockSeconds: int): (r: Option<EventRow>)
    ensures r.Some? <==> (id in rows && id !in env.lockedByPeers
      && PassesRecheck(rows[id].status, rows[id].nextAttemptAt, env.now))
    ensures r.Some? ==> r.value == rows[id].(nextAttemptAt := Some(env.now + lockSeconds))
  {
    if id in rows && id !in env.lockedByPeers && PassesRecheck(rows[id].status, rows[id].nextAttemptAt, env.now)
    then Some(rows[id].(nextAttemptAt := Some(env.now + lockSeconds)))
    else None
  }

  /** While its lease runs, a claimed row cannot be claimed again. */
  lemma ClaimedRowIsLeased(rows: Table, id: int, env: Environment, lockSeconds: int, later: Environment)
    requires lockSeconds > 0 && later.now < env.now + lockSeconds
    requires ClaimSpec(rows, id, env, lockSeconds).Some?
    ensures ClaimSpec(rows[id := ClaimSpec(rows, id, env, lockSeconds).value], id, later, lockSeconds).None?
  {
  }

  /**
   * The claim re-check alone does not make a permanent failure terminal: a
   * failed row with a null next_attempt_at that nobody holds is claimed.
   */
  lemma PermanentFailureIsClaimable(rows: Table, id: int, env: Environment, lockSeconds: int)
    requires id in rows && id !in env.lockedByPeers
    requires rows[id].status == StatusFailed && rows[id].nextAttemptAt.None?
    ensures ClaimSpec(rows, id, env, lockSeconds).Some?
  {
  }

  // ------------------------------------------------------------ processRow

  /** One header for the envelope, dropped when the value is null or ''. */
  function KeptHeader(name: Key, v: Value): (h: PhpArray)
    ensures |h| <= 1
  {
    if v == Null || v == Str("") then [] else [Entry(name, v)]
  }

  const EventKeyHeader := StrKey("event_key")
  const EntityTableHeader := StrKey("entity_table")
  const EntityPkHeader := StrKey("entity_pk")
  const CreatedAtColumnHeader := StrKey("created_at")

  /** array_filter of event_key, entity_table, entity_pk and created_at, keeping the non-null, non-empty ones. */
  function EnvelopeHeaders(row: EventRow): PhpArray {
    KeptHeader(EventKeyHeader, row.eventKey) + (KeptHeader(EntityTableHeader, row.entityTable)
      + (KeptHeader(EntityPkHeader, row.entityPk) + KeptHeader(CreatedAtColumnHeader, row.createdAt)))
  }

  /** The value a header takes in the envelope: none when the column is null or ''. */
  function HeaderValue(v: Value): Option<Value> {
    if v == Null || v == Str("") then None else Some(v)
  }

  lemma GetKeptHeader(name: Key, v: Value, k: Key)
    ensures Get(KeptHeader(name, v), k) == if k == name then HeaderValue(v) else None
  {
    if v != Null && v != Str("") && k != name {
      assert !HasKey(KeptHeader(name, v), k);
    }
  }

  /** A lookup in four concatenated headers takes the first one that has the key. */
  lemma GetOfFour(h1: PhpArray, h2: PhpArray, h3: PhpArray, h4: PhpArray, k: Key)
    ensures Get(h1 + (h2 + (h3 + h4)), k)
      == if Get(h1, k).Some? then Get(h1, k) else if Get(h2, k).Some? then Get(h2, k)
         else if Get(h3, k).Some? then Get(h3, k) else Get(h4, k)
  {
    GetAppend(h1, h2 + (h3 + h4), k);
    GetAppend(h2, h3 + h4, k);
    GetAppend(h3, h4, k);
  }

  /** The envelope carries each header exactly when its column is neither null nor '', with the column's value. */
  lemma EnvelopeHeadersLookup(row: EventRow)
    ensures var h := EnvelopeHeaders(row);
      && Get(h, EventKeyHeader) == HeaderValue(row.eventKey)
      && Get(h, EntityTableHeader) == HeaderValue(row.entityTable)
      && Get(h, EntityPkHeader) == HeaderValue(row.entityPk)
      && Get(h, CreatedAtColumnHeader) == HeaderValue(row.createdAt)
      && forall k | k !in [EventKeyHeader, EntityTableHeader, EntityPkHeader, CreatedAtColumnHeader] :: Get(h, k).None?
  {
    var h1, h2, h3, h4 := KeptHeader(EventKeyHeader, row.eventKey), KeptHeader(EntityTableHeader, row.entityTable),
      KeptHeader(EntityPkHeader, row.entityPk), KeptHeader(CreatedAtColumnHeader, row.createdAt);
    forall k ensures Get(EnvelopeHeaders(row), k) == if Get(h1, k).Some? then Get(h1, k) else if Get(h2, k).Some? then Get(h2, k)
         else if Get(h3, k).Some? then Get(h3, k) else Get(h4, k) {
      GetOfFour(h1, h2, h3, h4, k);
    }
    forall k ensures Get(h1, k) == (if k == EventKeyHeader then HeaderValue(row.eventKey) else None)
      && Get(h2, k) == (if k == EntityTableHeader then HeaderValue(row.entityTable) else None)
      && Get(h3, k) == (if k == EntityPkHeader then HeaderValue(row.entityPk) else None)
      && Get(h4, k) == (if k == CreatedAtColumnHeader then HeaderValue(row.createdAt) else None) {
      GetKeptHeader(EventKeyHeader, row.eventKey, k);
      GetKeptHeader(EntityTableHeader, row.entityTable, k);
      GetKeptHeader(EntityPkHeader, row.entityPk, k);
      GetKeptHeader(CreatedAtColumnHeader, row.createdAt, k);
    }
  }

  /** The event type processRow publishes under: trim((string)($row['event_type'] ?? '')). */
  function EventTypeOf(row: EventRow): string {
    Trim(ToPhpString(row.eventType))
  }

  /** The payload processRow publishes: the decoded payload column, replaced by a non-empty decryption. */
  function PayloadOf(row: EventRow, env: Environment): PhpArray {
    var decoded := DecodeJson(row.payload, env.jsonDecode);
    MaybeDecryptPayload(decoded, env.decrypt(decoded), env.jsonDecode)
  }

  /** MessageEnvelope::wrap of the event type, the payload and the filtered headers. */
  function EnvelopeOf(row: EventRow, env: Environment): Envelope {
    Wrap(EventTypeOf(row), PayloadOf(row, env), EnvelopeHeaders(row), env.createdAt)
  }

  /** The envelope's topic is the trimmed event type, which processRow requires to be non-blank. */
  lemma EnvelopeTopicIsTrimmedEventType(row: EventRow, env: Environment)
    requires EventTypeOf(row) != ""
    ensures EnvelopeOf(row, env).topic == Trim(ToPhpString(row.eventType))
    ensures IsTrimmedNonBlank(EnvelopeOf(row, env).topic)
    ensures EnvelopeOf(row, env).payload == PayloadOf(row, env)
  {
  }

  /** What processRow leaves behind: the table, the transport's messages and the exception it threw, if any. */
  datatype Processed = Processed(rows: Table, published: seq<Envelope>, thrown: Option<Throwable>)

  /** The row as processRow's update leaves it: sent, processed now, nothing scheduled. */
  function MarkSent(row: EventRow, now: int): EventRow {
    row.(status := StatusSent, processedAt := Some(now), nextAttemptAt := None)
  }

  /**
   * processRow($id, $row): a blank event type throws missing_event_type; a
   * transport that throws leaves everything as it was; otherwise the
   * envelope is published and the row marked sent.
   */
  function ProcessSpec(rows: Table, published: seq<Envelope>, id: int, row: EventRow, env: Environment): (p: Processed)
    ensures EventTypeOf(row) == "" ==> p == Processed(rows, published, Some(Throwable(Runtime, MissingEventType)))
    ensures p.thrown.Some? ==> p.rows == rows && p.published == published
    ensures p.thrown.None? <==> EventTypeOf(row) != "" && env.publish(EnvelopeOf(row, env)).None?
    ensures p.thrown.None? ==> p.published == published + [EnvelopeOf(row, env)]
    ensures p.thrown.None? ==> p.rows == if id in rows then rows[id := MarkSent(rows[id], env.now)] else rows
  {
    if EventTypeOf(row) == "" then Processed(rows, published, Some(Throwable(Runtime, MissingEventType)))
    else
      var envelope := EnvelopeOf(row, env);
      match env.publish(envelope)
      case Some(e) => Processed(rows, published, Some(e))
      case None =>
        Processed(if id in rows then rows[id := MarkSent(rows[id], env.now)] else rows, published + [envelope], None)
  }

  // ---------------------------------------------------- releaseWithFailure

  /**
   * The row as releaseWithFailure's update leaves it: failed, attempts one
   * more than the snapshot's, and either no next attempt (permanent) or one
   * after the backoff delay.
   */
  function MarkFailed(current: EventRow, snapshot: EventRow, config: EventOutboxWorkerConfig, now: int, jitter: Jitter): EventRow {
    var count := FailureCount(snapshot.attempts);
    current.(status := StatusFailed, attempts := count,
      nextAttemptAt := NextAttempt(count, config.maxAttempts, now, config.baseDelaySeconds, config.maxDelaySeconds, jitter))
  }

  /** releaseWithFailure($row, $e): nothing for a snapshot without a positive id, else the failure update. */
  function ReleaseSpec(rows: Table, snapshot: EventRow, config: EventOutboxWorkerConfig, now: int, jitter: Jitter): (r: Table)
    ensures snapshot.id <= 0 || snapshot.id !in rows ==> r == rows
    ensures snapshot.id > 0 && snapshot.id in rows ==> r == rows[snapshot.id := MarkFailed(rows[snapshot.id], snapshot, config, now, jitter)]
  {
    if snapshot.id > 0 && snapshot.id in rows
    then rows[snapshot.id := MarkFailed(rows[snapshot.id], snapshot, config, now, jitter)]
    else rows
  }

  /**
   * A failure raises attempts by exactly one; reaching a positive
   * maxAttempts fails the row for good (no next attempt), otherwise it is
   * retried after a delay in [1, max(1, maxDelaySeconds)].
   */
  lemma ReleaseRecordsFailure(current: EventRow, snapshot: EventRow, config: EventOutboxWorkerConfig, now: int, jitter: Jitter)
    requires snapshot.attempts >= 0
    ensures var r := MarkFailed(current, snapshot, config, now, jitter);
      && r.status == StatusFailed
      && r.attempts == snapshot.attempts + 1
      && (r.nextAttemptAt.None? <==> config.maxAttempts > 0 && snapshot.attempts + 1 >= config.maxAttempts)
      && (r.nextAttemptAt.Some? ==> now + 1 <= r.nextAttemptAt.value <= now + Max(1, config.maxDelaySeconds))
      && r.id == current.id && r.payload == current.payload && r.eventType == current.eventType
  {
  }

  // ---------------------------------------------------------------- runOnce

  /** One fetched row of runOnce: ignored, skipped when the claim fails, delivered, or released after a failure. */
  function StepSpec(s: EventState, fetched: PhpArray, position: nat, env: Environment, config: EventOutboxWorkerConfig): (EventState, RowOutcome)
  {
    var id := CandidateId(fetched);
    if id <= 0 then (s, Ignored)
    else
      match ClaimSpec(s.rows, id, env, config.lockSeconds)
      case None => (s, Skipped)
      case Some(snapshot) =>
        var p := ProcessSpec(s.rows[id := snapshot], s.published, id, snapshot, env);
        if p.thrown.None? then (EventState(p.rows, p.published), Delivered)
        else (EventState(ReleaseSpec(p.rows, snapshot, config, env.now, env.jitter(position)), p.published), Released)
  }

  /** StepSpec as the step of RunFold. */
  function StepOf(env: Environment, config: EventOutboxWorkerConfig): (EventState, PhpArray, nat) -> (EventState, RowOutcome)
  {
    (st: EventState, row: PhpArray, i: nat) => StepSpec(st, row, i, env, config)
  }

  /** runOnce over the fetched rows, in order, from state `s`. */
  function RunSpec(s: EventState, fetched: seq<PhpArray>, env: Environment, config: EventOutboxWorkerConfig): (EventState, RunStats)
  {
    RunFold(s, fetched, StepOf(env, config))
  }

  /** One more fetched row is one more StepSpec on the state and counters reached so far. */
  lemma RunSpecSnoc(s: EventState, fetched: seq<PhpArray>, i: nat, env: Environment, config: EventOutboxWorkerConfig)
    requires i < |fetched|
    ensures var before := RunSpec(s, fetched[..i], env, config);
      var after := StepSpec(before.0, fetched[i], i, env, config);
      RunSpec(s, fetched[..i + 1], env, config) == (after.0, Tally(before.1, after.1))
  {
    RunFoldSnoc(s, fetched, i, StepOf(env, config));
  }

  /** RunSpecSnoc, with the state and counters before the row and the step's result named. */
  lemma RunSpecStep(s: EventState, fetched: seq<PhpArray>, i: nat, env: Environment, config: EventOutboxWorkerConfig,
                    before: EventState, counted: RunStats, after: EventState, outcome: RowOutcome)
    requires i < |fetched|
    requires RunSpec(s, fetched[..i], env, config) == (before, counted)
    requires StepSpec(before, fetched[i], i, env, config) == (after, outcome)
    ensures RunSpec(s, fetched[..i + 1], env, config) == (after, Tally(counted, outcome))
  {
    RunSpecSnoc(s, fetched, i, env, config);
  }

  /**
   * The counters balance (processed = sent + failed + skipped), rows
   * without a positive id are not counted, and every sent row put exactly
   * one envelope on the transport, after the earlier ones.
   */
  lemma RunSpecCounts(s: EventState, fetched: seq<PhpArray>, env: Environment, config: EventOutboxWorkerConfig)
    ensures var (t, stats) := RunSpec(s, fetched, env, config);
      && Balanced(stats)
      && stats.processed == PositiveIds(fetched)
      && |t.published| == |s.published| + stats.sent
      && t.published[..|s.published|] == s.published
  {
    var step := StepOf(env, config);
    forall st: EventState, row: PhpArray, i: nat ensures step(st, row, i).1 == Ignored <==> CandidateId(row) <= 0 {
      StepIgnoresOnlyNonPositive(st, row, i, env, config);
    }
    RunFoldCounts(s, fetched, step);
    PublishedGrowsWithSent(s, fetched, env, config);
  }

  /** A row is ignored exactly when its id is not positive. */
  lemma StepIgnoresOnlyNonPositive(st: EventState, row: PhpArray, i: nat, env: Environment, config: EventOutboxWorkerConfig)
    ensures StepSpec(st, row, i, env, config).1 == Ignored <==> CandidateId(row) <= 0
  {
  }

  /** Each delivered row appends exactly one envelope after the ones already published. */
  lemma {:induction false} PublishedGrowsWithSent(s: EventState, fetched: seq<PhpArray>, env: Environment, config: EventOutboxWorkerConfig)
    ensures var (t, stats) := RunSpec(s, fetched, env, config);
      && |t.published| == |s.published| + stats.sent
      && t.published[..|s.published|] == s.published
  {
    if fetched != [] {
      var init := fetched[..|fetched| - 1];
      PublishedGrowsWithSent(s, init, env, config);
      var before := RunSpec(s, init, env, config);
      StepPublishes(before.0, fetched[|fetched| - 1], |fetched| - 1, env, config);
      var after := StepSpec(before.0, fetched[|fetched| - 1], |fetched| - 1, env, config);
      assert after.0.published[..|s.published|] == before.0.published[..|s.published|];
    }
  }

  /** One step publishes one envelope when it delivers a row and none otherwise, keeping the earlier ones. */
  lemma StepPublishes(st: EventState, row: PhpArray, i: nat, env: Environment, config: EventOutboxWorkerConfig)
    ensures var (t, outcome) := StepSpec(st, row, i, env, config);
      && |t.published| == |st.published| + (if outcome == Delivered then 1 else 0)
      && t.published[..|st.published|] == st.published
  {
  }

  /**
   * A due pending row with a non-blank event type and a transport that
   * accepts it: one row processed and sent, its envelope published, and the
   * row marked sent with processed_at set and nothing scheduled.
   */
  lemma SingleDueRowIsSent(rows: Table, fetched: seq<PhpArray>, id: int, env: Environment, config: EventOutboxWorkerConfig)
    requires |fetched| == 1 && CandidateId(fetched[0]) == id
    requires id > 0 && id in rows && id !in env.lockedByPeers
    requires rows[id].status == StatusPending && rows[id].nextAttemptAt.None?
    requires EventTypeOf(rows[id]) != ""
    requires env.publish(EnvelopeOf(rows[id], env)).None?
    ensures var (t, stats) := RunSpec(EventState(rows, []), fetched, env, config);
      && stats == RunStats(1, 1, 0, 0)
      && t.published == [EnvelopeOf(rows[id], env)]
      && t.rows == rows[id := MarkSent(rows[id], env.now)]
  {
    var s := EventState(rows, []);
    RunSpecOfOne(s, fetched, env, config);
    DueRowIsDelivered(s, fetched[0], 0, id, env, config);
    assert [] + [EnvelopeOf(rows[id], env)] == [EnvelopeOf(rows[id], env)];
  }

  /** The step for a due pending row that publishes: the row is claimed, published and marked sent. */
  lemma DueRowIsDelivered(s: EventState, fetched: PhpArray, position: nat, id: int, env: Environment, config: EventOutboxWorkerConfig)
    requires CandidateId(fetched) == id
    requires id > 0 && id in s.rows && id !in env.lockedByPeers
    requires s.rows[id].status == StatusPending && s.rows[id].nextAttemptAt.None?
    requires EventTypeOf(s.rows[id]) != ""
    requires env.publish(EnvelopeOf(s.rows[id], env)).None?
    ensures StepSpec(s, fetched, position, env, config)
      == (EventState(s.rows[id := MarkSent(s.rows[id], env.now)], s.published + [EnvelopeOf(s.rows[id], env)]), Delivered)
  {
    var snapshot := ClaimDueRow(s.rows, id, env, config.lockSeconds);
    PublishLeasedRow(s.rows, s.published, id, snapshot, env);
  }

  /** Processing the leased snapshot of a row publishes it and marks the row sent, dropping the lease. */
  lemma PublishLeasedRow(rows: Table, published: seq<Envelope>, id: int, snapshot: EventRow, env: Environment)
    requires id in rows && snapshot == rows[id].(nextAttemptAt := snapshot.nextAttemptAt)
    requires EventTypeOf(rows[id]) != ""
    requires env.publish(EnvelopeOf(rows[id], env)).None?
    ensures ProcessSpec(rows[id := snapshot], published, id, snapshot, env)
      == Processed(rows[id := MarkSent(rows[id], env.now)], published + [EnvelopeOf(rows[id], env)], None)
  {
    assert EventTypeOf(snapshot) == EventTypeOf(rows[id]);
    assert PayloadOf(snapshot, env) == PayloadOf(rows[id], env);
    assert EnvelopeHeaders(snapshot) == EnvelopeHeaders(rows[id]);
    assert EnvelopeOf(snapshot, env) == EnvelopeOf(rows[id], env);
    assert MarkSent(snapshot, env.now) == MarkSent(rows[id], env.now);
    assert rows[id := snapshot][id := MarkSent(snapshot, env.now)] == rows[id := MarkSent(rows[id], env.now)];
  }

  /** A batch of one row is one step from no counts. */
  lemma RunSpecOfOne(s: EventState, fetched: seq<PhpArray>, env: Environment, config: EventOutboxWorkerConfig)
    requires |fetched| == 1
    ensures var step := StepSpec(s, fetched[0], 0, env, config);
      RunSpec(s, fetched, env, config) == (step.0, Tally(NoStats, step.1))
  {
    RunSpecSnoc(s, fetched, 0, env, config);
    assert fetched[..0] == [];
    var before := RunSpec(s, fetched[..0], env, config);
    assert before == (s, NoStats);
    var after := StepSpec(s, fetched[0], 0, env, config);
    assert RunSpec(s, fetched[..1], env, config) == (after.0, Tally(NoStats, after.1));
    assert fetched[..1] == fetched;
  }

  /** A due pending row nobody holds is claimed, with the lease written to its next_attempt_at. */
  lemma ClaimDueRow(rows: Table, id: int, env: Environment, lockSeconds: int) returns (snapshot: EventRow)
    requires id in rows && id !in env.lockedByPeers
    requires rows[id].status == StatusPending && rows[id].nextAttemptAt.None?
    ensures snapshot == rows[id].(nextAttemptAt := Some(env.now + lockSeconds))
    ensures ClaimSpec(rows, id, env, lockSeconds) == Some(snapshot)
  {
    snapshot := rows[id].(nextAttemptAt := Some(env.now + lockSeconds));
  }

  /** EventOutboxWorker: the configuration, the event_outbox table and the transport's accepted messages. */
  class EventOutboxWorker {
    const config: EventOutboxWorkerConfig
    var rows: Table
    var published: seq<Envelope>

    constructor (config: EventOutboxWorkerConfig, rows: Table)
      ensures this.config == config && this.rows == rows && published == []
    {
      this.config := config;
      this.rows := rows;
      published := [];
    }

    function State(): EventState
      reads this
    {
      EventState(rows, published)
    }

    /** claim($id): lockById, the re-check, then the lease written to next_attempt_at. */
    method Claim(id: int, env: Environment) returns (snapshot: Option<EventRow>)
      modifies this
      ensures snapshot == ClaimSpec(old(rows), id, env, config.lockSeconds)
      ensures rows == if snapshot.Some? then old(rows)[id := snapshot.value] else old(rows)
      ensures published == old(published)
    {
      var leaseUntil := env.now + config.lockSeconds;
      if id !in rows || id in env.lockedByPeers {
        return None;
      }
      var row := rows[id];
      if row.status != StatusPending && row.status != StatusFailed {
        return None;
      }
      if !IsDue(ColumnMoment(row.nextAttemptAt), env.now) {
        return None;
      }
      rows := rows[id := row.(nextAttemptAt := Some(leaseUntil))];
      snapshot := Some(row.(nextAttemptAt := Some(leaseUntil)));
    }

    /** processRow($id, $row); an exception it throws is returned. */
    method ProcessRow(id: int, row: EventRow, env: Environment) returns (thrown: Option<Throwable>)
      modifies this
      ensures Processed(rows, published, thrown) == ProcessSpec(old(rows), old(published), id, row, env)
    {
      ghost var spec := ProcessSpec(rows, published, id, row, env);
      var eventType := EventTypeOf(row);
      if eventType == "" {
        thrown := Some(Throwable(Runtime, MissingEventType));
        assert spec == Processed(rows, published, thrown);
        return;
      }
      var envelope := BuildEnvelope(eventType, row, env);
      thrown := env.publish(envelope);
      if thrown.Some? {
        assert spec == Processed(rows, published, thrown);
        return;
      }
      var table := rows;
      if id in table {
        table := table[id := MarkSent(table[id], env.now)];
      }
      assert spec == Processed(table, published + [envelope], None);
      published := published + [envelope];
      rows := table;
    }

    /** The envelope processRow publishes: the decoded (and possibly decrypted) payload under the event type. */
    method BuildEnvelope(eventType: string, row: EventRow, env: Environment) returns (envelope: Envelope)
      requires eventType == EventTypeOf(row)
      ensures envelope == EnvelopeOf(row, env)
    {
      var payload := DecodeJson(row.payload, env.jsonDecode);
      payload := MaybeDecryptPayload(payload, env.decrypt(payload), env.jsonDecode);
      var headers := EnvelopeHeaders(row);
      envelope := Wrap(eventType, payload, headers, env.createdAt);
    }

    /** releaseWithFailure($row, $e); the message only reaches the log. */
    method ReleaseWithFailure(snapshot: EventRow, env: Environment, jitter: Jitter)
      modifies this
      ensures rows == ReleaseSpec(old(rows), snapshot, config, env.now, jitter)
      ensures published == old(published)
    {
      var id := snapshot.id;
      if id <= 0 {
        return;
      }
      var attempts := Max(0, snapshot.attempts + 1);
      var next: Option<int>;
      if config.maxAttempts > 0 && attempts >= config.maxAttempts {
        next := None;
      } else {
        var delay := RetryDelaySeconds(attempts, config.baseDelaySeconds, config.maxDelaySeconds, jitter);
        next := Some(env.now + delay);
      }
      if id in rows {
        rows := rows[id := rows[id].(status := StatusFailed, attempts := attempts, nextAttemptAt := next)];
      }
    }

    /** The body of runOnce's loop for one fetched row: what happened to it. */
    method RunRow(fetched: PhpArray, position: nat, env: Environment) returns (outcome: RowOutcome)
      modifies this
      ensures (State(), outcome) == StepSpec(old(State()), fetched, position, env, config)
    {
      var id := CandidateId(fetched);
      if id <= 0 {
        return Ignored;
      }
      var locked := Claim(id, env);
      if locked.None? {
        return Skipped;
      }
      var thrown := ProcessRow(id, locked.value, env);
      if thrown.None? {
        return Delivered;
      }
      ReleaseWithFailure(locked.value, env, env.jitter(position));
      return Released;
    }

    /**
     * runOnce over the due view: the candidate query, then the loop over
     * the fetched rows; the counters come back.
     */
    method RunOnce(view: seq<PhpArray>, env: Environment) returns (stats: RunStats)
      requires config.batchSize >= 0
      modifies this
      ensures (State(), stats) == RunSpec(old(State()), SelectCandidates(view, config.entityTable, config.batchSize), env, config)
    {
      var fetched := SelectCandidates(view, config.entityTable, config.batchSize);
      stats := RunFetched(fetched, env);
    }

    /**
     * runOnce's loop: each positive id is claimed, processed and, on
     * failure, released, and counted as skipped, sent or failed.
     */
    method RunFetched(fetched: seq<PhpArray>, env: Environment) returns (stats: RunStats)
      modifies this
      ensures (State(), stats) == RunSpec(old(State()), fetched, env, config)
    {
      var processed: nat, sent: nat, failed: nat, skipped: nat := 0, 0, 0, 0;
      for i := 0 to |fetched|
        invariant (State(), RunStats(processed, sent, failed, skipped)) == RunSpec(old(State()), fetched[..i], env, config)
      {
        ghost var counted := RunStats(processed, sent, failed, skipped);
        ghost var before := State();
        var outcome := RunRow(fetched[i], i, env);
        RunSpecStep(old(State()), fetched, i, env, config, before, counted, State(), outcome);
        match outcome {
          case Ignored =>
          case Skipped =>
            processed, skipped := processed + 1, skipped + 1;
          case Delivered =>
            processed, sent := processed + 1, sent + 1;
          case Released =>
            processed, failed := processed + 1, failed + 1;
        }
        assert RunStats(processed, sent, failed, skipped) == Tally(counted, outcome);
      }
      assert fetched[..|fetched|] == fetched;
      stats := RunStats(processed, sent, failed, skipped);
    }
  }
}
