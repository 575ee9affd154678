/**
 * The webhook outbox worker (src/Worker/WebhookOutboxWorker.php). One
 * runOnce batch fetches candidate ids from the due view, and for each
 * positive id leases the row (claim), hands it to the webhook dispatcher
 * (processRow) and, if that fails, records the failure (releaseWithFailure).
 *
 * The webhook_outbox table is a map from id to row, and the dispatcher is a
 * function from its arguments to its result; every call made to it is
 * recorded, in order. Time is one `now` in whole seconds per batch; the rows
 * other workers hold locked, the decryption hook's answer and the jitter
 * drawn for each row are inputs too.
 */
module WebhookWorker {
  import opened Common
  import opened PhpStrings
  import opened PhpValues
  import opened WorkerSupport
  import opened DispatchResults
  import opened WebhookConfig
  import opened OutboxRuns

  /** A row of webhook_outbox as the repository returns it; timestamps are seconds. */
  datatype WebhookRow = WebhookRow(
    id: int,
    eventType: Value,
    payload: Value,
    status: string,
    retries: int,
    nextAttemptAt: Option<int>)

  type Table = map<int, WebhookRow>

  const MissingEventType := "missing_event_type"

  const IdKey := StrKey("id")
  const EventTypeKey := StrKey("event_type")
  const RetriesKey := StrKey("retries")

  /**
   * What a batch depends on and does not control: the rows other workers
   * hold locked, the clock, the dispatcher (the injected one, or the
   * built-in HTTP dispatcher), what the decryption adapter returns for a
   * payload (None when there is none or it throws), json_decode, and the
   * jitter drawn for the n-th fetched row.
   */
  datatype Environment = Environment(
    lockedByPeers: set<int>,
    now: int,
    dispatch: Dispatcher,
    decrypt: PhpArray -> Option<Value>,
    jsonDecode: string -> Value,
    jitter: nat -> Jitter)

  /** The table and the dispatch calls made so far. */
  datatype WebhookState = WebhookState(rows: Table, calls: seq<DispatchCall>)

  // ------------------------------------------------------------ candidates

  /**
   * The candidate query of runOnce: SELECT id FROM vw_webhook_outbox_due
   * ORDER BY id ASC LIMIT batchSize. `view` is the due view in id order;
   * which rows it holds is not part of this model.
   */
  function SelectCandidates(view: seq<PhpArray>, limit: nat): (r: seq<PhpArray>)
    ensures |r| == Min(limit, |view|) && |r| <= limit
    ensures r <= view
    ensures |view| <= limit ==> r == view
  {
    view[..Min(limit, |view|)]
  }

  // ----------------------------------------------------------------- claim

  /**
   * claim($id): the locked row with next_attempt_at moved to the lease end,
   * or None when the row is missing or locked elsewhere, its status is not
   * pending or failed, or it is not due.
   */
  function ClaimSpec(rows: Table, id: int, env: Environment, lockSeconds: int): (r: Option<WebhookRow>)
    ensures r.Some? <==> (id in rows && id !in env.lockedByPeers
      && PassesRecheck(rows[id].status, rows[id].nextAttemptAt, env.now))
    ensures r.Some? ==> r.value == rows[id].(nextAttemptAt := Some(env.now + lockSeconds))
  {
    if id in rows && id !in env.lockedByPeers && PassesRecheck(rows[id].status, rows[id].nextAttemptAt, env.now)
    then Some(rows[id].(nextAttemptAt := Some(env.now + lockSeconds)))
    else None
  }

  // ------------------------------------------------------------ processRow

  /** The event type processRow dispatches: trim((string)($row['event_type'] ?? '')). */
  function EventTypeOf(row: WebhookRow): string {
    Trim(ToPhpString(row.eventType))
  }

  /** The payload processRow dispatches: the decoded payload column, replaced by a non-empty decryption. */
  function PayloadOf(row: WebhookRow, env: Environment): PhpArray {
    var decoded := DecodeJson(row.payload, env.jsonDecode);
    MaybeDecryptPayload(decoded, env.decrypt(decoded), env.jsonDecode)
  }

  /** $meta: the id, the event type and the snapshot's retries. */
  function MetaOf(id: int, eventType: string, retries: int): PhpArray {
    [Entry(IdKey, Int(id)), Entry(EventTypeKey, Str(eventType)), Entry(RetriesKey, Int(retries))]
  }

  /** The meta array holds the id, the event type and the retries under their keys. */
  lemma MetaLookup(id: int, eventType: string, retries: int)
    ensures var m := MetaOf(id, eventType, retries);
      && UniqueKeys(m)
      && Get(m, IdKey) == Some(Int(id))
      && Get(m, EventTypeKey) == Some(Str(eventType))
      && Get(m, RetriesKey) == Some(Int(retries))
  {
    var m := MetaOf(id, eventType, retries);
    assert m[1..][0] == Entry(EventTypeKey, Str(eventType));
    assert m[1..][1..][0] == Entry(RetriesKey, Int(retries));
  }

  /** The call processRow makes for a row with a non-blank event type. */
  function CallOf(id: int, row: WebhookRow, env: Environment): DispatchCall {
    var eventType := EventTypeOf(row);
    DispatchCall(eventType, PayloadOf(row, env), MetaOf(id, eventType, row.retries))
  }

  /** The exception a failed dispatch raises: the result's error, or 'webhook_failed' without one. */
  function FailureOf(result: WebhookDispatchResult): (e: Throwable)
    ensures e.kind == Runtime
    ensures result.error.Some? ==> e.message == result.error.value
    ensures result.error.None? ==> e.message == DefaultError
  {
    Throwable(Runtime, result.error.GetOr(DefaultError))
  }

  /** A failure from a result built by WebhookDispatchResult::failed carries a non-blank trimmed message. */
  lemma FailureOfFailedResult(error: string, httpStatus: Option<int>)
    ensures FailureOf(Failed(error, httpStatus)).message == if IsBlank(error) then DefaultError else Trim(error)
    ensures IsTrimmedNonBlank(FailureOf(Failed(error, httpStatus)).message)
  {
    var r := Failed(error, httpStatus);
    assert r.error.value != "" && Trim(r.error.value) == r.error.value;
  }

  /** What processRow leaves behind: the table, the calls made and the exception it threw, if any. */
  datatype Processed = Processed(rows: Table, calls: seq<DispatchCall>, thrown: Option<Throwable>)

  /** The row as processRow's update leaves it: sent, nothing scheduled. */
  function MarkSent(row: WebhookRow): WebhookRow {
    row.(status := StatusSent, nextAttemptAt := None)
  }

  /** Only the status and next_attempt_at change when a row is sent; its retries are kept. */
  lemma MarkSentChangesOnlyStatusAndSchedule(row: WebhookRow, later: int)
    ensures var r := MarkSent(row);
      && r.status == StatusSent && r.nextAttemptAt.None?
      && r.id == row.id && r.eventType == row.eventType && r.payload == row.payload && r.retries == row.retries
      && !PassesRecheck(r.status, r.nextAttemptAt, later)
  {
  }

  /**
   * processRow($id, $row): a blank event type throws missing_event_type
   * before any dispatch; otherwise the dispatcher is called once, a result
   * that is not ok throws its error, and an ok one marks the row sent.
   */
  function ProcessSpec(rows: Table, calls: seq<DispatchCall>, id: int, row: WebhookRow, env: Environment): (p: Processed)
    ensures EventTypeOf(row) == "" ==> p == Processed(rows, calls, Some(Throwable(Runtime, MissingEventType)))
    ensures EventTypeOf(row) != "" ==> p.calls == calls + [CallOf(id, row, env)]
    ensures p.thrown.Some? ==> p.rows == rows
    ensures p.thrown.None? <==> EventTypeOf(row) != "" && ResultOf(id, row, env).ok
    ensures EventTypeOf(row) != "" && !ResultOf(id, row, env).ok ==> p.thrown == Some(FailureOf(ResultOf(id, row, env)))
    ensures p.thrown.None? ==> p.rows == if id in rows then rows[id := MarkSent(rows[id])] else rows
  {
    if EventTypeOf(row) == "" then Processed(rows, calls, Some(Throwable(Runtime, MissingEventType)))
    else
      var call := CallOf(id, row, env);
      var result := env.dispatch(call.eventType, call.payload, call.meta);
      if !result.ok then Processed(rows, calls + [call], Some(FailureOf(result)))
      else Processed(if id in rows then rows[id := MarkSent(rows[id])] else rows, calls + [call], None)
  }

  /** The dispatcher's answer to the call processRow makes for a row. */
  function ResultOf(id: int, row: WebhookRow, env: Environment): WebhookDispatchResult {
    var call := CallOf(id, row, env);
    env.dispatch(call.eventType, call.payload, call.meta)
  }

  // ---------------------------------------------------- releaseWithFailure

  /**
   * The row as releaseWithFailure's update leaves it: failed, retries one
   * more than the snapshot's, and either no next attempt (permanent) or one
   * after the backoff delay.
   */
  function MarkFailed(current: WebhookRow, snapshot: WebhookRow, config: WebhookOutboxWorkerConfig, now: int, jitter: Jitter): WebhookRow {
    var count := FailureCount(snapshot.retries);
    current.(status := StatusFailed, retries := count,
      nextAttemptAt := NextAttempt(count, config.maxRetries, now, config.baseDelaySeconds, config.maxDelaySeconds, jitter))
  }

  /** releaseWithFailure($row, $e): nothing for a snapshot without a positive id, else the failure update. */
  function ReleaseSpec(rows: Table, snapshot: WebhookRow, config: WebhookOutboxWorkerConfig, now: int, jitter: Jitter): (r: Table)
    ensures snapshot.id <= 0 || snapshot.id !in rows ==> r == rows
    ensures snapshot.id > 0 && snapshot.id in rows ==> r == rows[snapshot.id := MarkFailed(rows[snapshot.id], snapshot, config, now, jitter)]
  {
    if snapshot.id > 0 && snapshot.id in rows
    then rows[snapshot.id := MarkFailed(rows[snapshot.id], snapshot, config, now, jitter)]
    else rows
  }

  /**
   * A failure raises retries by exactly one; reaching a positive maxRetries
   * fails the row for good (no next attempt), otherwise it is retried after
   * a delay in [1, max(1, maxDelaySeconds)].
   */
  lemma ReleaseRecordsFailure(current: WebhookRow, snapshot: WebhookRow, config: WebhookOutboxWorkerConfig, now: int, jitter: Jitter)
    requires snapshot.retries >= 0
    ensures var r := MarkFailed(current, snapshot, config, now, jitter);
      && r.status == StatusFailed
      && r.retries == snapshot.retries + 1
      && (r.nextAttemptAt.None? <==> config.maxRetries > 0 && snapshot.retries + 1 >= config.maxRetries)
      && (r.nextAttemptAt.Some? ==> now + 1 <= r.nextAttemptAt.value <= now + Max(1, config.maxDelaySeconds))
      && r.id == current.id && r.payload == current.payload && r.eventType == current.eventType
  {
  }

  /** With base and maximum delay both 9, a retried row is due again exactly 9 seconds later. */
  lemma RetryAfterNineSeconds(current: WebhookRow, snapshot: WebhookRow, config: WebhookOutboxWorkerConfig, now: int, jitter: Jitter)
    requires config.baseDelaySeconds == 9 && config.maxDelaySeconds == 9
    requires !IsPermanent(FailureCount(snapshot.retries), config.maxRetries)
    ensures MarkFailed(current, snapshot, config, now, jitter).nextAttemptAt == Some(now + 9)
  {
    BackoffCappedWhenMaxEqualsBase(FailureCount(snapshot.retries), 9, jitter);
  }

  // ---------------------------------------------------------------- runOnce

  /** One fetched row of runOnce: ignored, skipped when the claim fails, delivered, or released after a failure. */
  function StepSpec(s: WebhookState, fetched: PhpArray, position: nat, env: Environment, config: WebhookOutboxWorkerConfig): (WebhookState, RowOutcome)
  {
    var id := CandidateId(fetched);
    if id <= 0 then (s, Ignored)
    else
      match ClaimSpec(s.rows, id, env, config.lockSeconds)
      case None => (s, Skipped)
      case Some(snapshot) =>
        var p := ProcessSpec(s.rows[id := snapshot], s.calls, id, snapshot, env);
        if p.thrown.None? then (WebhookState(p.rows, p.calls), Delivered)
        else (WebhookState(ReleaseSpec(p.rows, snapshot, config, env.now, env.jitter(position)), p.calls), Released)
  }

  /** StepSpec as the step of RunFold. */
  function StepOf(env: Environment, config: WebhookOutboxWorkerConfig): (WebhookState, PhpArray, nat) -> (WebhookState, RowOutcome)
  {
    (st: WebhookState, row: PhpArray, i: nat) => StepSpec(st, row, i, env, config)
  }

  /** runOnce over the fetched rows, in order, from state `s`. */
  function RunSpec(s: WebhookState, fetched: seq<PhpArray>, env: Environment, config: WebhookOutboxWorkerConfig): (WebhookState, RunStats)
  {
    RunFold(s, fetched, StepOf(env, config))
  }

  /** One more fetched row is one more StepSpec on the state and counters reached so far. */
  lemma RunSpecSnoc(s: WebhookState, fetched: seq<PhpArray>, i: nat, env: Environment, config: WebhookOutboxWorkerConfig)
    requires i < |fetched|
    ensures var before := RunSpec(s, fetched[..i], env, config);
      var after := StepSpec(before.0, fetched[i], i, env, config);
      RunSpec(s, fetched[..i + 1], env, config) == (after.0, Tally(before.1, after.1))
  {
    RunFoldSnoc(s, fetched, i, StepOf(env, config));
  }

  /** A row is ignored exactly when its id is not positive. */
  lemma StepIgnoresOnlyNonPositive(st: WebhookState, row: PhpArray, i: nat, env: Environment, config: WebhookOutboxWorkerConfig)
    ensures StepSpec(st, row, i, env, config).1 == Ignored <==> CandidateId(row) <= 0
  {
  }

  /** One step calls the dispatcher at most once, and only for a claimed row; earlier calls are kept. */
  lemma StepCalls(st: WebhookState, row: PhpArray, i: nat, env: Environment, config: WebhookOutboxWorkerConfig)
    ensures var (t, outcome) := StepSpec(st, row, i, env, config);
      && |st.calls| <= |t.calls| <= |st.calls| + 1
      && (outcome == Delivered ==> |t.calls| == |st.calls| + 1)
      && (outcome == Ignored || outcome == Skipped ==> t == st)
      && t.calls[..|st.calls|] == st.calls
  {
  }

  /**
   * Every delivered row was dispatched exactly once, and no row was
   * dispatched without being counted as processed.
   */
  lemma {:induction false} CallsBetweenSentAndProcessed(s: WebhookState, fetched: seq<PhpArray>, env: Environment, config: WebhookOutboxWorkerConfig)
    ensures var (t, stats) := RunSpec(s, fetched, env, config);
      && |s.calls| + stats.sent <= |t.calls| <= |s.calls| + stats.sent + stats.failed
      && t.calls[..|s.calls|] == s.calls
  {
    if fetched != [] {
      var init := fetched[..|fetched| - 1];
      CallsBetweenSentAndProcessed(s, init, env, config);
      RunSpecSnoc(s, fetched, |fetched| - 1, env, config);
      assert fetched[..|fetched|] == fetched;
      var before := RunSpec(s, init, env, config);
      StepCalls(before.0, fetched[|fetched| - 1], |fetched| - 1, env, config);
      var after := StepSpec(before.0, fetched[|fetched| - 1], |fetched| - 1, env, config);
      assert after.0.calls[..|s.calls|] == before.0.calls[..|s.calls|];
    }
  }

  /**
   * The counters balance (processed = sent + failed + skipped), rows
   * without a positive id are not counted, and the dispatcher was called
   * at least once per sent row and at most once per sent or failed row.
   */
  lemma RunSpecCounts(s: WebhookState, fetched: seq<PhpArray>, env: Environment, config: WebhookOutboxWorkerConfig)
    ensures var (t, stats) := RunSpec(s, fetched, env, config);
      && Balanced(stats)
      && stats.processed == PositiveIds(fetched)
      && |s.calls| + stats.sent <= |t.calls| <= |s.calls| + stats.sent + stats.failed
  {
    var step := StepOf(env, config);
    forall st: WebhookState, row: PhpArray, i: nat ensures step(st, row, i).1 == Ignored <==> CandidateId(row) <= 0 {
      StepIgnoresOnlyNonPositive(st, row, i, env, config);
    }
    RunFoldCounts(s, fetched, step);
    CallsBetweenSentAndProcessed(s, fetched, env, config);
  }

  /** A due pending row nobody holds is claimed, with the lease written to its next_attempt_at. */
  lemma ClaimDueRow(rows: Table, id: int, env: Environment, lockSeconds: int) returns (snapshot: WebhookRow)
    requires id in rows && id !in env.lockedByPeers
    requires rows[id].status == StatusPending && rows[id].nextAttemptAt.None?
    ensures snapshot == rows[id].(nextAttemptAt := Some(env.now + lockSeconds))
    ensures ClaimSpec(rows, id, env, lockSeconds) == Some(snapshot)
  {
    snapshot := rows[id].(nextAttemptAt := Some(env.now + lockSeconds));
  }

  /** The step for a due pending row whose dispatch is ok: one call, and the row marked sent. */
  lemma DueRowIsDelivered(s: WebhookState, fetched: PhpArray, position: nat, id: int, env: Environment, config: WebhookOutboxWorkerConfig)
    requires CandidateId(fetched) == id
    requires id > 0 && id in s.rows && id !in env.lockedByPeers
    requires s.rows[id].status == StatusPending && s.rows[id].nextAttemptAt.None?
    requires EventTypeOf(s.rows[id]) != ""
    requires ResultOf(id, s.rows[id], env).ok
    ensures StepSpec(s, fetched, position, env, config)
      == (WebhookState(s.rows[id := MarkSent(s.rows[id])], s.calls + [CallOf(id, s.rows[id], env)]), Delivered)
  {
    var snapshot := ClaimDueRow(s.rows, id, env, config.lockSeconds);
    assert CallOf(id, snapshot, env) == CallOf(id, s.rows[id], env);
    var p := ProcessSpec(s.rows[id := snapshot], s.calls, id, snapshot, env);
    assert p.thrown.None?;
    assert MarkSent(snapshot) == MarkSent(s.rows[id]);
    assert p.rows == s.rows[id := MarkSent(s.rows[id])];
  }

  /** A batch of one row is one step from no counts. */
  lemma RunSpecOfOne(s: WebhookState, fetched: seq<PhpArray>, env: Environment, config: WebhookOutboxWorkerConfig)
    requires |fetched| == 1
    ensures var step := StepSpec(s, fetched[0], 0, env, config);
      RunSpec(s, fetched, env, config) == (step.0, Tally(NoStats, step.1))
  {
    RunSpecSnoc(s, fetched, 0, env, config);
    assert fetched[..0] == [];
    var before := RunSpec(s, fetched[..0], env, config);
    assert before == (s, NoStats);
    var after := StepSpec(s, fetched[0], 0, env, config);
    assert RunSpec(s, fetched[..1], env, config) == (after.0, Tally(NoStats, after.1));
    assert fetched[..1] == fetched;
  }

  /**
   * One due pending row with an event type and a dispatcher that always
   * answers ok: one row processed and sent, none failed, exactly one
   * dispatch call, and the row marked sent.
   */
  lemma SingleDueRowIsSent(rows: Table, fetched: seq<PhpArray>, id: int, env: Environment, config: WebhookOutboxWorkerConfig)
    requires |fetched| == 1 && CandidateId(fetched[0]) == id
    requires id > 0 && id in rows && id !in env.lockedByPeers
    requires rows[id].status == StatusPending && rows[id].nextAttemptAt.None?
    requires EventTypeOf(rows[id]) != ""
    requires forall eventType, payload, meta :: env.dispatch(eventType, payload, meta) == OkResult(Some(200))
    ensures var (t, stats) := RunSpec(WebhookState(rows, []), fetched, env, config);
      && stats == RunStats(1, 1, 0, 0)
      && |t.calls| == 1
      && id in t.rows && t.rows[id].status == StatusSent
  {
    var s := WebhookState(rows, []);
    RunSpecOfOne(s, fetched, env, config);
    var call := CallOf(id, rows[id], env);
    assert env.dispatch(call.eventType, call.payload, call.meta) == OkResult(Some(200));
    DueRowIsDelivered(s, fetched[0], 0, id, env, config);
  }

  /** WebhookOutboxWorker: the configuration, the webhook_outbox table and the dispatch calls made. */
  class WebhookOutboxWorker {
    const config: WebhookOutboxWorkerConfig
    var rows: Table
    var calls: seq<DispatchCall>

    constructor (config: WebhookOutboxWorkerConfig, rows: Table)
      ensures this.config == config && this.rows == rows && calls == []
    {
      this.config := config;
      this.rows := rows;
      calls := [];
    }

    function State(): WebhookState
      reads this
    {
      WebhookState(rows, calls)
    }

    /** claim($id): lockById, the re-check, then the lease written to next_attempt_at. */
    method Claim(id: int, env: Environment) returns (snapshot: Option<WebhookRow>)
      modifies this
      ensures snapshot == ClaimSpec(old(rows), id, env, config.lockSeconds)
      ensures rows == if snapshot.Some? then old(rows)[id := snapshot.value] else old(rows)
      ensures calls == old(calls)
    {
      var leaseUntil := env.now + config.lockSeconds;
      if id !in rows || id in env.lockedByPeers {
        return None;
      }
      var row := rows[id];
      if row.status != StatusPending && row.status != StatusFailed {
        return None;
      }
      if !IsDue(ColumnMoment(row.nextAttemptAt), env.now) {
        return None;
      }
      rows := rows[id := row.(nextAttemptAt := Some(leaseUntil))];
      snapshot := Some(row.(nextAttemptAt := Some(leaseUntil)));
    }

    /** processRow($id, $row); an exception it throws is returned. */
    method ProcessRow(id: int, row: WebhookRow, env: Environment) returns (thrown: Option<Throwable>)
      modifies this
      ensures Processed(rows, calls, thrown) == ProcessSpec(old(rows), old(calls), id, row, env)
    {
      var eventType := Trim(ToPhpString(row.eventType));
      if eventType == "" {
        return Some(Throwable(Runtime, MissingEventType));
      }
      var payload := DecodeJson(row.payload, env.jsonDecode);
      payload := MaybeDecryptPayload(payload, env.decrypt(payload), env.jsonDecode);
      var meta := MetaOf(id, eventType, row.retries);
      assert DispatchCall(eventType, payload, meta) == CallOf(id, row, env);
      var result := env.dispatch(eventType, payload, meta);
      assert result == ResultOf(id, row, env);
      calls := calls + [DispatchCall(eventType, payload, meta)];
      if !result.ok {
        thrown := Some(Throwable(Runtime, result.error.GetOr(DefaultError)));
        assert ProcessSpec(old(rows), old(calls), id, row, env) == Processed(rows, calls, thrown);
        return;
      }
      if id in rows {
        rows := rows[id := rows[id].(status := StatusSent, nextAttemptAt := None)];
      }
      thrown := None;
      assert ProcessSpec(old(rows), old(calls), id, row, env) == Processed(rows, calls, thrown);
    }

    /** releaseWithFailure($row, $e); the message only reaches the log. */
    method ReleaseWithFailure(snapshot: WebhookRow, env: Environment, jitter: Jitter)
      modifies this
      ensures rows == ReleaseSpec(old(rows), snapshot, config, env.now, jitter)
      ensures calls == old(calls)
    {
      var id := snapshot.id;
      if id <= 0 {
        return;
      }
      var retries := Max(0, snapshot.retries + 1);
      var next: Option<int>;
      if config.maxRetries > 0 && retries >= config.maxRetries {
        next := None;
      } else {
        var delay := RetryDelaySeconds(retries, config.baseDelaySeconds, config.maxDelaySeconds, jitter);
        next := Some(env.now + delay);
      }
      if id in rows {
        rows := rows[id := rows[id].(status := StatusFailed, retries := retries, nextAttemptAt := next)];
      }
    }

    /** The body of runOnce's loop for one fetched row: what happened to it. */
    method RunRow(fetched: PhpArray, position: nat, env: Environment) returns (outcome: RowOutcome)
      modifies this
      ensures (State(), outcome) == StepSpec(old(State()), fetched, position, env, config)
    {
      var id := CandidateId(fetched);
      if id <= 0 {
        return Ignored;
      }
      var locked := Claim(id, env);
      if locked.None? {
        return Skipped;
      }
      var thrown := ProcessRow(id, locked.value, env);
      if thrown.None? {
        return Delivered;
      }
      ReleaseWithFailure(locked.value, env, env.jitter(position));
      return Released;
    }

    /**
     * runOnce over the due view: the candidate query, then the loop over
     * the fetched rows; the counters come back.
     */
    method RunOnce(view: seq<PhpArray>, env: Environment) returns (stats: RunStats)
      requires config.batchSize >= 0
      modifies this
      ensures (State(), stats) == RunSpec(old(State()), SelectCandidates(view, config.batchSize), env, config)
    {
      var fetched := SelectCandidates(view, config.batchSize);
      stats := RunFetched(fetched, env);
    }

    /**
     * runOnce's loop: each positive id is claimed, dispatched and, on
     * failure, released, and counted as skipped, sent or failed.
     */
    method RunFetched(fetched: seq<PhpArray>, env: Environment) returns (stats: RunStats)
      modifies this
      ensures (State(), stats) == RunSpec(old(State()), fetched, env, config)
    {
      var processed: nat, sent: nat, failed: nat, skipped: nat := 0, 0, 0, 0;
      for i := 0 to |fetched|
        invariant (State(), RunStats(processed, sent, failed, skipped)) == RunSpec(old(State()), fetched[..i], env, config)
      {
        ghost var counted := RunStats(processed, sent, failed, skipped);
        ghost var before := State();
        RunSpecSnoc(old(State()), fetched, i, env, config);
        var outcome := RunRow(fetched[i], i, env);
        assert (State(), outcome) == StepSpec(before, fetched[i], i, env, config);
        ghost var after := State();
        match outcome {
          case Ignored =>
          case Skipped =>
            processed, skipped := processed + 1, skipped + 1;
          case Delivered =>
            processed, sent := processed + 1, sent + 1;
          case Released =>
            processed, failed := processed + 1, failed + 1;
        }
        assert RunStats(processed, sent, failed, skipped) == Tally(counted, outcome);
        assert RunSpec(old(State()), fetched[..i + 1], env, config) == (after, Tally(counted, outcome));
        assert after == State();
      }
      assert fetched[..|fetched|] == fetched;
      stats := RunStats(processed, sent, failed, skipped);
    }
  }
}
