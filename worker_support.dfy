/**
 * Helpers the two outbox workers share, written identically in
 * src/Worker/EventOutboxWorker.php and src/Worker/WebhookOutboxWorker.php:
 * the retry backoff, the "is due" test on next_attempt_at, the lenient JSON
 * decoding of a payload column and the best-effort decryption fallback.
 */
module WorkerSupport {
  import opened Common
  import opened PhpStrings
  import opened PhpValues

  /** random_int(0, 15) */
  type Jitter = j: int | 0 <= j <= 15

  /** The exponent cap: the backoff doubles for at most ten attempts. */
  const MaxExponent := 10

  /** 1 << n */
  function Pow2(n: nat): (p: nat)
    ensures p >= 1
  {
    if n == 0 then 1 else 2 * Pow2(n - 1)
  }

  lemma {:induction false} Pow2Monotone(m: nat, n: nat)
    requires m <= n
    ensures Pow2(m) <= Pow2(n)
  {
    if m < n {
      Pow2Monotone(m, n - 1);
    }
  }

  /**
   * retryDelaySeconds($attempts) with the configured base and maximum delay
   * and the jitter random_int(0, 15) drew: min(max, max(1, min(max, base *
   * 2^min(10, attempts)) + jitter)), where negative attempts count as zero
   * and base and max are at least one.
   */
  function RetryDelaySeconds(attempts: int, baseDelay: int, maxDelay: int, jitter: Jitter): (d: int)
    ensures 1 <= d <= Max(1, maxDelay)
    ensures d >= Min(Max(1, maxDelay), Max(1, baseDelay) * Pow2(Min(MaxExponent, Max(0, attempts))))
  {
    var a := Max(0, attempts);
    var base := Max(1, baseDelay);
    var cap := Max(1, maxDelay);
    var exp := Min(MaxExponent, a);
    var delay := Min(cap, base * Pow2(exp));
    Min(cap, Max(1, delay + jitter))
  }

  /** When base and maximum coincide the delay is that value, whatever the attempts and the jitter. */
  lemma BackoffCappedWhenMaxEqualsBase(attempts: int, delay: int, jitter: Jitter)
    requires delay >= 1
    ensures RetryDelaySeconds(attempts, delay, delay, jitter) == delay
  {
    var exp := Min(MaxExponent, Max(0, attempts));
    assert delay * Pow2(exp) >= delay;
  }

  /** For a fixed jitter, more attempts never shorten the delay. */
  lemma BackoffMonotone(a1: int, a2: int, baseDelay: int, maxDelay: int, jitter: Jitter)
    requires a1 <= a2
    ensures RetryDelaySeconds(a1, baseDelay, maxDelay, jitter) <= RetryDelaySeconds(a2, baseDelay, maxDelay, jitter)
  {
    var e1, e2 := Min(MaxExponent, Max(0, a1)), Min(MaxExponent, Max(0, a2));
    Pow2Monotone(e1, e2);
    var base, cap := Max(1, baseDelay), Max(1, maxDelay);
    var p1, p2 := base * Pow2(e1), base * Pow2(e2);
    ScaleMonotone(base, Pow2(e1), Pow2(e2));
    assert RetryDelaySeconds(a1, baseDelay, maxDelay, jitter) == Min(cap, Max(1, Min(cap, p1) + jitter));
    assert RetryDelaySeconds(a2, baseDelay, maxDelay, jitter) == Min(cap, Max(1, Min(cap, p2) + jitter));
  }

  lemma ScaleMonotone(k: nat, x: nat, y: nat)
    requires x <= y
    ensures k * x <= k * y
  {
  }

  /**
   * What isDue() may receive for next_attempt_at: null, a string that is
   * empty, a string the date parser rejects, a moment (parsed from a string
   * or given as a DateTimeInterface), or some other non-string value.
   */
  datatype Moment =
    | NoMoment
    | EmptyText
    | Unparseable
    | At(seconds: int)
    | NotText

  /** isDue(): everything but a readable moment is due; a moment is due once it is not after now. */
  predicate IsDue(m: Moment, now: int) {
    match m
    case At(t) => t <= now
    case _ => true
  }

  /** The moment a stored next_attempt_at column hands to isDue(). */
  function ColumnMoment(column: Option<int>): (m: Moment)
    ensures column.None? ==> m == NoMoment
    ensures column.Some? ==> m == At(column.value)
  {
    match column
    case None => NoMoment
    case Some(t) => At(t)
  }

  /** A row that is due stays due as time goes on; a lease in the future makes it not due. */
  lemma DueIsMonotone(column: Option<int>, now: int, later: int, lease: int)
    requires now <= later && lease > 0
    ensures IsDue(ColumnMoment(column), now) ==> IsDue(ColumnMoment(column), later)
    ensures !IsDue(ColumnMoment(Some(now + lease)), now)
    ensures IsDue(ColumnMoment(None), now)
  {
  }

  /**
   * decodeJson($raw): an array passes through; anything but a non-blank
   * string gives []; otherwise json_decode($raw, true), kept only when it is
   * an array.
   */
  function DecodeJson(raw: Value, jsonDecode: string -> Value): (r: PhpArray)
    ensures raw.Arr? ==> r == raw.entries
    ensures !raw.Arr? && (!raw.Str? || IsBlank(raw.s)) ==> r == []
    ensures raw.Str? && !IsBlank(raw.s) ==> r == (if jsonDecode(raw.s).Arr? then jsonDecode(raw.s).entries else [])
  {
    match raw
    case Arr(entries) => entries
    case Str(s) =>
      if IsBlank(s) then []
      else
        var decoded := jsonDecode(s);
        if decoded.Arr? then decoded.entries else []
    case _ => []
  }

  /**
   * decodeJson reads back what json_encode wrote: for an array whose JSON
   * text json_decode turns back into the same array, decoding the text
   * gives the array. json_encode writes an array as '[...]' or '{...}', so
   * that text is never blank.
   */
  lemma DecodeJsonRoundTrip(a: PhpArray, jsonEncode: Value -> Option<string>, jsonDecode: string -> Value)
    requires jsonEncode(Arr(a)).Some?
    requires var text := jsonEncode(Arr(a)).value; text != [] && (text[0] == '[' || text[0] == '{')
    requires jsonDecode(jsonEncode(Arr(a)).value) == Arr(a)
    ensures DecodeJson(Str(jsonEncode(Arr(a)).value), jsonDecode) == a
  {
    var text := jsonEncode(Arr(a)).value;
    assert !IsBlank(text) by {
      BlankIffAllTrimChars(text);
      assert !IsTrimChar(text[0]);
    }
  }

  /** Decoding is idempotent: decoding an already decoded document changes nothing. */
  lemma DecodeJsonIdempotent(raw: Value, jsonDecode: string -> Value)
    ensures DecodeJson(Arr(DecodeJson(raw, jsonDecode)), jsonDecode) == DecodeJson(raw, jsonDecode)
  {
  }

  /**
   * maybeDecryptPayload($table, $payload), fallback behaviour: `decrypted`
   * is what the crypto adapter's row held under 'payload' (Some(Null) when
   * the key was absent), or None when there is no adapter or it threw. A
   * decoded non-empty document replaces the payload; anything else keeps it.
   */
  function MaybeDecryptPayload(payload: PhpArray, decrypted: Option<Value>, jsonDecode: string -> Value): (r: PhpArray)
    ensures decrypted.None? ==> r == payload
    ensures decrypted.Some? && DecodeJson(decrypted.value, jsonDecode) != [] ==> r == DecodeJson(decrypted.value, jsonDecode)
    ensures decrypted.Some? && DecodeJson(decrypted.value, jsonDecode) == [] ==> r == payload
    ensures r == payload || r != []
  {
    match decrypted
    case None => payload
    case Some(v) =>
      var decoded := DecodeJson(v, jsonDecode);
      if decoded != [] then decoded else payload
  }
}
