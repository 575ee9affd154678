/**
 * What EventOutboxWorker and WebhookOutboxWorker (src/Worker/) share in
 * their runOnce batches: the status names, the re-check claim() makes on a
 * locked row, the candidate id read from a fetched row, the failure count
 * and next attempt a failure records, and the four batch counters.
 */
module OutboxRuns {
  import opened Common
  import opened PhpValues
  import opened WorkerSupport

  const StatusPending := "pending"
  const StatusFailed := "failed"
  const StatusSent := "sent"

  /**
   * claim()'s re-check of the row lockById returned: its status is pending
   * or failed and its next_attempt_at is due.
   */
  predicate PassesRecheck(status: string, nextAttemptAt: Option<int>, now: int) {
    (status == StatusPending || status == StatusFailed) && IsDue(ColumnMoment(nextAttemptAt), now)
  }

  /** (int)($row['id'] ?? 0) for a row the candidate query fetched. */
  function CandidateId(fetched: PhpArray): int {
    ToPhpInt(Field(fetched, "id"))
  }

  /** What runOnce did with one fetched row. */
  datatype RowOutcome = Ignored | Skipped | Delivered | Released

  /** The array runOnce returns: processed, sent, failed, skipped. */
  datatype RunStats = RunStats(processed: nat, sent: nat, failed: nat, skipped: nat)

  const NoStats := RunStats(0, 0, 0, 0)

  /** Every counted row was either skipped, sent or failed. */
  predicate Balanced(s: RunStats) {
    s.processed == s.sent + s.failed + s.skipped
  }

  /** The counters after one more row: an ignored id counts nowhere. */
  function Tally(s: RunStats, outcome: RowOutcome): (r: RunStats)
    ensures Balanced(s) ==> Balanced(r)
    ensures r.processed == s.processed + (if outcome == Ignored then 0 else 1)
    ensures r.sent == s.sent + (if outcome == Delivered then 1 else 0)
  {
    match outcome
    case Ignored => s
    case Skipped => s.(processed := s.processed + 1, skipped := s.skipped + 1)
    case Delivered => s.(processed := s.processed + 1, sent := s.sent + 1)
    case Released => s.(processed := s.processed + 1, failed := s.failed + 1)
  }

  /** The number of fetched rows whose id is positive: the rows runOnce counts as processed. */
  function PositiveIds(fetched: seq<PhpArray>): (n: nat)
    ensures n <= |fetched|
  {
    if fetched == [] then 0
    else PositiveIds(fetched[..|fetched| - 1]) + (if CandidateId(fetched[|fetched| - 1]) > 0 then 1 else 0)
  }

  /**
   * runOnce's loop over the fetched rows, for a worker whose handling of
   * the n-th fetched row from state S is `step`: the state at the end and
   * the four counters.
   */
  function RunFold<S>(s: S, fetched: seq<PhpArray>, step: (S, PhpArray, nat) -> (S, RowOutcome)): (S, RunStats)
  {
    if fetched == [] then (s, NoStats)
    else
      var before := RunFold(s, fetched[..|fetched| - 1], step);
      var after := step(before.0, fetched[|fetched| - 1], |fetched| - 1);
      (after.0, Tally(before.1, after.1))
  }

  /** One more fetched row is one more step on the state and counters reached so far. */
  lemma RunFoldSnoc<S>(s: S, fetched: seq<PhpArray>, i: nat, step: (S, PhpArray, nat) -> (S, RowOutcome))
    requires i < |fetched|
    ensures var before := RunFold(s, fetched[..i], step);
      var after := step(before.0, fetched[i], i);
      RunFold(s, fetched[..i + 1], step) == (after.0, Tally(before.1, after.1))
  {
    assert fetched[..i + 1][..i] == fetched[..i];
  }

  /** A step that ignores exactly the rows without a positive id, as runOnce's loop does. */
  ghost predicate IgnoresExactlyNonPositiveIds<S(!new)>(step: (S, PhpArray, nat) -> (S, RowOutcome)) {
    forall st: S, row: PhpArray, i: nat :: step(st, row, i).1 == Ignored <==> CandidateId(row) <= 0
  }

  /**
   * The counters balance, processed = sent + failed + skipped, and only
   * the fetched rows with a positive id are counted.
   */
  lemma {:induction false} RunFoldCounts<S(!new)>(s: S, fetched: seq<PhpArray>, step: (S, PhpArray, nat) -> (S, RowOutcome))
    requires IgnoresExactlyNonPositiveIds(step)
    ensures Balanced(RunFold(s, fetched, step).1)
    ensures RunFold(s, fetched, step).1.processed == PositiveIds(fetched)
  {
    if fetched != [] {
      RunFoldCounts(s, fetched[..|fetched| - 1], step);
    }
  }

  /** The failure count a failure records: max(0, previous + 1). */
  function FailureCount(previous: int): (n: int)
    ensures n >= 0
    ensures previous >= 0 ==> n == previous + 1
  {
    Max(0, previous + 1)
  }

  /** A positive maximum that the count has reached makes the failure permanent. */
  predicate IsPermanent(count: int, maxTries: int) {
    maxTries > 0 && count >= maxTries
  }

  /**
   * The next_attempt_at a failure records: null when the failure is
   * permanent, otherwise now plus the backoff delay for the new count.
   */
  function NextAttempt(count: int, maxTries: int, now: int, baseDelay: int, maxDelay: int, jitter: Jitter): (r: Option<int>)
    ensures r.None? <==> IsPermanent(count, maxTries)
    ensures r.Some? ==> now + 1 <= r.value <= now + Max(1, maxDelay)
    ensures r.Some? ==> r.value - now == RetryDelaySeconds(count, baseDelay, maxDelay, jitter)
  {
    if IsPermanent(count, maxTries) then None
    else Some(now + RetryDelaySeconds(count, baseDelay, maxDelay, jitter))
  }

  /**
   * A retried row is not due again before its delay has passed, whereas a
   * permanently failed row (failed, next_attempt_at null) still passes the
   * re-check: only the candidate view can keep it from being picked again.
   */
  lemma FailedRowRecheck(count: int, maxTries: int, now: int, baseDelay: int, maxDelay: int, jitter: Jitter)
    ensures var next := NextAttempt(count, maxTries, now, baseDelay, maxDelay, jitter);
      && (next.Some? ==> !PassesRecheck(StatusFailed, next, now))
      && (next.Some? ==> PassesRecheck(StatusFailed, next, next.value))
      && (next.None? ==> PassesRecheck(StatusFailed, next, now))
  {
  }

  /** A sent row never passes the re-check, whatever its next_attempt_at and the time. */
  lemma SentRowFailsRecheck(nextAttemptAt: Option<int>, now: int)
    ensures !PassesRecheck(StatusSent, nextAttemptAt, now)
  {
  }
}
