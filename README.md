# blackcat-messaging delivery core, in Dafny

This project models the delivery core of blackcat-messaging, a PHP library
for the transactional outbox and inbox patterns, and proves properties of
the model:

- **The two outbox workers.** `EventOutboxWorker` claims due rows of
  `event_outbox`, publishes each as a `MessageEnvelope` and marks it sent,
  or records the failure with exponential backoff. `WebhookOutboxWorker`
  does the same for `webhook_outbox`, handing each row to a webhook
  dispatcher.
- **The legacy compatibility layer.** `CoreOutbox` provides enqueue and
  flush with dedup keys and leases. `CoreInbox` provides exactly-once
  processing with ack and cleanup. `CoreWebhookSender` bridges legacy rows
  to webhooks.
- **The HTTP webhook dispatcher.** It reads the URL, chooses the body,
  normalises headers, prepares the request and classifies the outcome.
- **The value types and in-memory components.** These are
  `WebhookDispatchResult`, `MessageEnvelope` and `Uuid` (v4, v5, normalize,
  and conversion between bytes and text), the in-memory transport and
  scheduler, and the two worker configurations read from the environment.

## How the model is built

**Layout.** Each PHP class is one Dafny module. The helpers the PHP code
uses from the language runtime are modelled in two modules:

- `PhpStrings`: `trim`, `strtolower`, `strtoupper` and the `(int)` cast.
- `PhpValues`: PHP arrays as ordered association lists, with first-match
  lookup, assignment in place or at the end, and `unset`.

**Database tables.** Each table is a `map` from the row id (or the inbox's
unique key) to a row datatype. The auto-increment counter is an explicit
`nextId`.

**State changes.** Code that changes state step by step is modelled as a
`class` whose methods change fields. Examples are the workers' `runOnce`
loops, claim, process and release, and the outbox's enqueue, claimBatch
and flush. Each such method is proved equal to a pure specification
function (`ClaimSpec`, `ProcessSpec`, `ReleaseSpec`, `RunSpec`,
`EnqueueSpec`, `FlushSpec`, …). The properties the source promises are
lemmas about those functions. Loops carry the invariant that the state so
far is the specification fold over the rows seen so far.

**Foreign calls are parameters.** These are the clock, `random_int`,
`random_bytes`, `sha1`, `hash('sha256')`, `json_encode` and `json_decode`.
They also include the decrypt hook, the transport, the dispatcher, the
curl transfer, whether a legacy notification call throws, and the sender
callbacks. Each is a parameter, usually grouped in an `Environment`
record. Timestamps are whole seconds.

## Model

| member | source | states |
|---|---|---|
| PhpStrings.Trim | src/Support/Uuid.php:14 | trim() never lengthens a string, and what it returns has no trim character at either end |
| PhpStrings.TrimIdempotent | src/Support/WebhookDispatchResult.php:22 | trimming twice is trimming once |
| PhpStrings.BlankIffAllTrimChars | src/Support/Uuid.php:15 | `trim($s) === ''` holds exactly when every character of $s is one trim() strips |
| PhpStrings.TrimLeftIsSuffix | src/Support/Uuid.php:14 | ltrim keeps a suffix and drops only trim characters |
| PhpStrings.TrimRightIsPrefix | src/Support/Uuid.php:14 | rtrim keeps a prefix and drops only trim characters |
| PhpStrings.Lower | src/Support/Uuid.php:34 | strtolower keeps the length, leaves no A-Z behind, turns each A-Z into the letter 32 code points higher and keeps every other character |
| PhpStrings.Upper | src/Webhook/HttpWebhookDispatcher.php:26 | strtoupper keeps the length, turns each a-z into the letter 32 code points lower and keeps every other character |
| PhpStrings.IntCastOfIntToString | src/Webhook/HttpWebhookDispatcher.php:71 | casting the decimal text of an int back to int gives the int |
| PhpStrings.IntCast | src/Config/EventOutboxWorkerConfig.php:26 | (int) of a string: leading whitespace, an optional sign and the leading decimal digits, 0 without digits; see IntCastOfIntToString |
| PhpStrings.Prefix | src/CoreCompat/CoreInbox.php:96 | substr($s, 0, $n) is the first min(n, length) characters of s |
| PhpStrings.Contains | src/CoreCompat/CoreInbox.php:160 | str_contains: the needle occurs at some position of the haystack; see ContainsInContext |
| PhpValues.Set | src/Support/MessageEnvelope.php:24 | `$a[$k] = $v` keeps the length when the key is present and adds one entry otherwise; see GetSetSame, GetSetOther and SetAppendsNewKey |
| PhpValues.Unset | src/Webhook/HttpWebhookDispatcher.php:104 | `unset($a[$k])` never lengthens the array; see GetUnsetSame and GetUnsetOther |
| PhpValues.Lookup | src/Config/EventOutboxWorkerConfig.php:26 | `$a[$k] ?? null`: the first stored value, or null for a missing key; see AbsentKeyIsNull |
| PhpValues.ToPhpString | src/Config/EventOutboxWorkerConfig.php:32 | the (string) cast: null and false give '', true gives '1', an int its decimal text, an array 'Array' |
| PhpValues.ToPhpBool | src/CoreCompat/CoreOutbox.php:116 | the (bool) cast: null, false, 0, '', '0' and [] are false, everything else true |
| PhpValues.ToPhpInt | src/CoreCompat/CoreOutbox.php:109 | the (int) cast: null and false give 0, true gives 1, a string goes through IntCast, an array gives 0 when empty and 1 otherwise |
| PhpValues.Get | src/Support/MessageEnvelope.php:24 | a lookup finds nothing exactly when the key is absent, and otherwise a value stored under the key |
| PhpValues.GetFirstMatch | src/Support/MessageEnvelope.php:24 | a lookup returns the value of the first entry with the key |
| PhpValues.GetAppend | src/Webhook/HttpWebhookDispatcher.php:35 | in a concatenation the first array's entry wins, and the second array is consulted only without one |
| PhpValues.GetSetSame | src/Support/MessageEnvelope.php:24 | after `$a[$k] = $v`, `$a[$k]` is $v |
| PhpValues.GetSetOther | src/Support/MessageEnvelope.php:24 | `$a[$k] = $v` leaves every other key's value unchanged |
| PhpValues.GetUnsetSame | src/Webhook/HttpWebhookDispatcher.php:104 | after `unset($a[$k])` the key is absent |
| PhpValues.GetUnsetOther | src/Webhook/HttpWebhookDispatcher.php:104 | `unset($a[$k])` leaves every other key's value unchanged |
| PhpValues.SetToCurrentValue | src/Support/MessageEnvelope.php:24 | assigning a key the value it already has changes nothing |
| PhpValues.SetAppendsNewKey | src/Support/MessageEnvelope.php:24 | assigning a new key appends it after every existing entry |
| PhpValues.UnsetKeepsUnique | src/CoreCompat/CoreWebhookSender.php:44 | unset keeps keys unique and adds no key |
| Uuid.Bin2Hex | src/Support/Uuid.php:80 | bin2hex gives two lower-case hex digits per byte |
| Uuid.Hex2Bin | src/Support/Uuid.php:66-69 | hex2bin succeeds exactly on even-length all-hex text, giving half as many bytes |
| Uuid.Hex2BinOfBin2Hex | src/Support/Uuid.php:66-80 | hex2bin inverts bin2hex |
| Uuid.RemoveDashes | src/Support/Uuid.php:61 | `str_replace('-', '', $s)` never lengthens the text |
| Uuid.RemoveDashesConcat | src/Support/Uuid.php:61 | removing dashes distributes over concatenation |
| Uuid.RemoveDashesOfDashed | src/Support/Uuid.php:61 | removing the dashes of the 8-4-4-4-12 form leaves its 32 other characters in order |
| Uuid.BytesToUuid | src/Support/Uuid.php:74-89 | bytesToUuid succeeds exactly on 16 bytes, and otherwise fails with InvalidArgument |
| Uuid.BytesToUuidLayout | src/Support/Uuid.php:80-88 | the result is 36 characters: the 32 hex digits in order, laid out 8-4-4-4-12 with dashes between the groups |
| Uuid.FormattedIsLowerHex | src/Support/Uuid.php:80-88 | the text form is lower-case hex with dashes exactly at the four dash positions |
| Uuid.UuidToBytes | src/Support/Uuid.php:59-72 | uuidToBytes gives 16 bytes or fails with InvalidArgument |
| Uuid.UuidToBytesInvertsBytesToUuid | src/Support/Uuid.php:59-89 | uuidToBytes(bytesToUuid(b)) == b for every 16 bytes b |
| Uuid.WithVersion | src/Support/Uuid.php:27 | the stamped byte's high nibble is the version, and its low nibble is kept |
| Uuid.WithVariant | src/Support/Uuid.php:28 | the stamped byte's high nibble is 8 to b (variant bits 10) |
| Uuid.StampsAreBitMasks | src/Support/Uuid.php:27-28 | the version and variant stamping equals the bit masking `(b & 0x0f) \| 0x40/0x50` and `(b & 0x3f) \| 0x80` |
| Uuid.Stamp | src/Support/Uuid.php:42-43 | stamping keeps 16 bytes |
| Uuid.StampedIsUuid | src/Support/Uuid.php:27-28 | stamped bytes format as text whose version digit is the version and whose variant digit is 8, 9, a or b |
| Uuid.StampedUuid | src/Support/Uuid.php:42-45 | the formatted stamped bytes pass isUuid and show the version digit |
| Uuid.V4 | src/Support/Uuid.php:24-30 | v4 passes isUuid and shows version digit 4 |
| Uuid.V5 | src/Support/Uuid.php:32-46 | v5 succeeds exactly when the trimmed, lower-cased namespace passes isUuid; it fails with InvalidArgument otherwise, and on success passes isUuid and shows version digit 5 |
| Uuid.NamespaceBytes | src/Support/Uuid.php:39 | a trimmed, well-formed namespace always converts to bytes |
| Uuid.NamespaceDnsIsUuid | src/Support/Uuid.php:8 | NAMESPACE_DNS is a well-formed, trimmed, lower-case identifier |
| Uuid.IsUuid | src/Support/Uuid.php:12-22 | isUuid: the trimmed text is non-blank and matches the 8-4-4-4-12 hex pattern with version 1-5 and variant 8, 9, a or b; see TrimmedMatchIsUuid and StampedUuid |
| Uuid.TrimmedMatchIsUuid | src/Support/Uuid.php:12-22 | a trimmed, non-blank string matching the 8-4-4-4-12 pattern is an identifier and is its own trim |
| Uuid.Normalize | src/Support/Uuid.php:48-57 | normalize always returns an identifier that passes isUuid |
| Uuid.NormalizeKeepsWellFormed | src/Support/Uuid.php:50-53 | a well-formed input comes back as its trimmed lower-case form |
| Uuid.V5UnderDnsSucceeds | src/Support/Uuid.php:56 | hashing under NAMESPACE_DNS never fails |
| Uuid.NormalizeHashesOthers | src/Support/Uuid.php:55-56 | any other input gives v5(NAMESPACE_DNS, "salt\|input", or the input alone with an empty salt) |
| Uuid.SaltsSeparateNames | src/Support/Uuid.php:55 | different salts give different hashed names for the same input |
| DispatchResults.OkResult | src/Support/WebhookDispatchResult.php:15-18 | ok(s) has ok true, status s and no error, so ok holds exactly when there is no error |
| DispatchResults.Failed | src/Support/WebhookDispatchResult.php:20-24 | failed(e, s) has ok false and keeps the status; its error is trim(e), or 'webhook_failed' when e is blank, so it is never empty and always trimmed |
| DispatchResults.FailedKeepsTrimmedError | src/Support/WebhookDispatchResult.php:22-23 | an already trimmed, non-blank error is kept verbatim |
| Envelopes.Wrap | src/Support/MessageEnvelope.php:22-26 | topic and payload are kept as given; x-created-at is the existing non-null header or else the given time; every other header is unchanged |
| Envelopes.WrapKeepsStampedHeaders | src/Support/MessageEnvelope.php:24 | headers that already carry a non-null x-created-at come back unchanged |
| Envelopes.WrapAppendsStamp | src/Support/MessageEnvelope.php:24 | without the header, wrap appends x-created-at after all existing headers |
| Envelopes.ToArray | src/Support/MessageEnvelope.php:28-35 | toArray has exactly the keys topic, payload and headers, in that order, holding the envelope's fields |
| Transport.InMemoryTransport.constructor | src/Transport/InMemoryTransport.php:14 | the buffer starts empty |
| Transport.InMemoryTransport.Publish | src/Transport/InMemoryTransport.php:20-22 | the envelope is appended last and earlier entries stay as they were |
| Transport.InMemoryTransport.Drain | src/Transport/InMemoryTransport.php:32-37 | drain returns everything published since the last drain, in order, and empties the buffer |
| Transport.PublishAllThenDrainTwice | src/Transport/InMemoryTransport.php:20-37 | publishing a list and draining gives that list in publish order; an immediate second drain gives [] |
| Scheduler.InMemoryScheduler.constructor | src/Scheduler/InMemoryScheduler.php:14 | the queue starts empty |
| Scheduler.InMemoryScheduler.Schedule | src/Scheduler/InMemoryScheduler.php:20-22 | {runAt, message} is appended last and earlier entries stay as they were |
| Scheduler.InMemoryScheduler.Due | src/Scheduler/InMemoryScheduler.php:32-35 | due returns the whole queue in insertion order, whatever `now` is, and removes nothing |
| Scheduler.ScheduleAllThenDueTwice | src/Scheduler/InMemoryScheduler.php:20-35 | after scheduling a list, due returns that list, and again on a second call with another `now` |
| EnvSettings.Source | src/Config/EventOutboxWorkerConfig.php:24 | an empty array selects the process environment, and any other is used as given |
| EnvSettings.IntSetting | src/Config/EventOutboxWorkerConfig.php:26-30 | a missing or null key gives the default, and otherwise the (int) cast of the value |
| EnvSettings.TextSetting | src/Config/EventOutboxWorkerConfig.php:32-33 | the result is the trimmed default for a missing or null key, else the trimmed string value, and is always trimmed |
| EnvSettings.NameSetting | src/Config/EventOutboxWorkerConfig.php:33-42 | a blank trimmed name falls back to the default, so the name is always trimmed and non-blank |
| EnvSettings.AbsentKeyIsNull | src/Config/EventOutboxWorkerConfig.php:26 | a key the array does not hold reads as null |
| EventConfig.FromEnv | src/Config/EventOutboxWorkerConfig.php:22-44 | fromEnv clamps: batch ≥ 1, lock ≥ 5, maxAttempts ≥ 0, baseDelay ≥ 1, maxDelay ≥ 1; the entity table is trimmed and the worker name non-blank |
| EventConfig.FromEnvKeepsInRangeSettings | src/Config/EventOutboxWorkerConfig.php:26-43 | settings already in range are taken as given; entityTable is the trimmed setting; a non-blank worker name is kept |
| EventConfig.NoSettingKeyGivesNone | src/Config/EventOutboxWorkerConfig.php:26-33 | an array holding none of the setting keys gives none of the settings |
| EventConfig.FromEnvDefaults | src/Config/EventOutboxWorkerConfig.php:26-42 | with no setting given: 100, 300, 0, 10 and 3600, entity table '' and 'blackcat-event-outbox-worker' |
| EventConfig.FromEnvRaisesToFloor | src/Config/EventOutboxWorkerConfig.php:35-42 | a setting below its floor becomes the floor itself (1, 5, 0, 1, 1), and a blank worker name becomes the default name |
| EventConfig.FromEnvClampsTestSettings | tests/Config/EventOutboxWorkerConfigTest.php:13-29 | the test's settings 0, 1, -5, 0, 0, "  outbox  " and "" give 1, 5, 0, 1, 1, "outbox" and the default worker name |
| WebhookConfig.FromEnv | src/Config/WebhookOutboxWorkerConfig.php:22-44 | fromEnv clamps: batch ≥ 1, lock ≥ 5, maxRetries ≥ 0, baseDelay ≥ 1, maxDelay ≥ 1, httpTimeout ≥ 1; the worker name is non-blank |
| WebhookConfig.FromEnvKeepsInRangeSettings | src/Config/WebhookOutboxWorkerConfig.php:26-42 | settings already in range are taken as given, and a non-blank worker name is kept |
| WebhookConfig.NoSettingKeyGivesNone | src/Config/WebhookOutboxWorkerConfig.php:26-33 | an array holding none of the setting keys gives none of the settings |
| WebhookConfig.FromEnvDefaults | src/Config/WebhookOutboxWorkerConfig.php:26-42 | with no setting given, fromEnv equals the constructor's defaults: 100, 300, 0, 10, 3600, 5 and 'blackcat-webhook-outbox-worker' |
| WebhookConfig.FromEnvRaisesToFloor | src/Config/WebhookOutboxWorkerConfig.php:35-42 | a setting below its floor becomes the floor itself (1, 5, 0, 1, 1, 1), and a blank worker name becomes the default name |
| WebhookConfig.FromEnvClampsTestSettings | tests/Config/WebhookOutboxWorkerConfigTest.php:13-29 | the test's settings 0, 1, -2, 0, 0, 0 and "" give 1, 5, 0, 1, 1, 1 and the default worker name |
| WorkerSupport.Pow2Monotone | src/Worker/EventOutboxWorker.php:211 | `1 << n` never decreases as n grows |
| WorkerSupport.RetryDelaySeconds | src/Worker/EventOutboxWorker.php:204-215 | the delay lies in [1, max(1, maxDelay)] for any attempts and any jitter in [0, 15], and is at least min(max(1, maxDelay), max(1, base) · 2^min(10, attempts)) |
| WorkerSupport.BackoffCappedWhenMaxEqualsBase | tests/Worker/BackoffTest.php:14-37 | with base = max = d the delay is d for every attempt count and every jitter (7 for attempts 0, 1 and 5 in the test) |
| WorkerSupport.BackoffMonotone | src/Worker/EventOutboxWorker.php:204-215 | for a fixed jitter, more attempts never shorten the delay |
| WorkerSupport.ColumnMoment | src/Worker/EventOutboxWorker.php:217-221 | a null column is 'no moment', and a set column is that instant |
| WorkerSupport.IsDue | src/Worker/EventOutboxWorker.php:217-235 | isDue: a missing, empty or unreadable timestamp is due, and an instant is due once it is not after now; see DueIsMonotone |
| WorkerSupport.DueIsMonotone | src/Worker/EventOutboxWorker.php:217-235 | a null timestamp is due; a due row stays due as time passes; a lease in the future is not due |
| WorkerSupport.DecodeJson | src/Worker/EventOutboxWorker.php:240-250 | arrays pass through; non-strings and blank strings give []; a string whose decoding is not an array gives [] |
| WorkerSupport.DecodeJsonRoundTrip | src/Worker/EventOutboxWorker.php:240-250 | an array that json_encode writes as a JSON array or object, and that json_decode reads back, comes back unchanged from decodeJson of its stored text |
| WorkerSupport.DecodeJsonIdempotent | src/Worker/EventOutboxWorker.php:240-250 | decoding an already decoded document changes nothing |
| WorkerSupport.MaybeDecryptPayload | src/Worker/EventOutboxWorker.php:256-279 | without the hook, or with an empty decoded result, the payload is unchanged; otherwise it is the decoded decryption, never [] |
| OutboxRuns.Tally | src/Worker/EventOutboxWorker.php:57-71 | counting one more row keeps processed = sent + failed + skipped; an ignored row counts nowhere |
| OutboxRuns.PositiveIds | src/Worker/EventOutboxWorker.php:53-57 | the number of rows with a positive id is at most the number fetched |
| OutboxRuns.RunFoldSnoc | src/Worker/EventOutboxWorker.php:52-72 | one more fetched row is one more loop step on the state and counters reached so far |
| OutboxRuns.RunFoldCounts | src/Worker/EventOutboxWorker.php:52-79 | for any step that ignores exactly the non-positive ids, the counters balance and processed equals the number of positive ids |
| OutboxRuns.FailureCount | src/Worker/EventOutboxWorker.php:160-161 | the recorded count max(0, previous + 1) is never negative, and is previous + 1 for a non-negative previous |
| OutboxRuns.NextAttempt | src/Worker/EventOutboxWorker.php:166-201 | there is no next attempt exactly when a positive maximum is reached; otherwise it is now + retryDelaySeconds, in [now + 1, now + max(1, maxDelay)] |
| OutboxRuns.FailedRowRecheck | src/Worker/EventOutboxWorker.php:97-104 | a retried row fails the claim re-check until its delay has passed and passes it then; a permanently failed row (next_attempt_at null) still passes the re-check |
| OutboxRuns.SentRowFailsRecheck | src/Worker/EventOutboxWorker.php:97-100 | a sent row never passes the claim re-check |
| EventWorker.OfEntityTableMembers | src/Worker/EventOutboxWorker.php:39-41 | the filter keeps exactly the view's rows of the configured table (all rows when none is configured), and never more rows than the view has |
| EventWorker.SelectCandidatesSpec | src/Worker/EventOutboxWorker.php:34-45 | exactly min(batchSize, number of matching rows) candidates, a prefix of the view's rows of the trimmed entity table in view order; every one of them when no more than batchSize match |
| EventWorker.SelectCandidates | src/Worker/EventOutboxWorker.php:34-45 | the due view's rows of the trimmed entity table, cut to batchSize; see SelectCandidatesSpec |
| EventWorker.ClaimSpec | src/Worker/EventOutboxWorker.php:85-116 | the claim succeeds exactly when the row exists, is not locked elsewhere, is pending or failed, and is due; the claimed row differs only in next_attempt_at = now + lockSeconds |
| EventWorker.ClaimedRowIsLeased | src/Worker/EventOutboxWorker.php:102-114 | while its lease runs, a claimed row cannot be claimed again |
| EventWorker.PermanentFailureIsClaimable | src/Worker/EventOutboxWorker.php:97-104 | a failed row with a null next_attempt_at that nobody holds is claimed again; the re-check alone does not make it terminal |
| EventWorker.KeptHeader | src/Worker/EventOutboxWorker.php:131-138 | each candidate header contributes at most one entry |
| EventWorker.EnvelopeHeadersLookup | src/Worker/EventOutboxWorker.php:131-138 | the envelope carries event_key, entity_table, entity_pk and created_at exactly when the column is neither null nor '', with the column's value, and carries no other header |
| EventWorker.EnvelopeTopicIsTrimmedEventType | src/Worker/EventOutboxWorker.php:123-140 | the envelope's topic is the trimmed, non-blank event_type and its payload the decoded, possibly decrypted column |
| EventWorker.EnvelopeOf | src/Worker/EventOutboxWorker.php:128-140 | the envelope wraps the trimmed event type, the decoded payload and the non-empty headers; see EnvelopeHeadersLookup and EnvelopeTopicIsTrimmedEventType |
| EventWorker.MarkSent | src/Worker/EventOutboxWorker.php:143-147 | a published row is sent, processed now and has no next attempt; see ProcessSpec and PublishLeasedRow |
| EventWorker.ProcessSpec | src/Worker/EventOutboxWorker.php:121-148 | a blank event_type throws missing_event_type; a transport that throws changes nothing; otherwise exactly one envelope is appended and the row becomes sent, processed_at = now and next_attempt_at = null |
| EventWorker.ReleaseSpec | src/Worker/EventOutboxWorker.php:153-202 | a snapshot without a positive id changes nothing; otherwise only that row is replaced by its failure update |
| EventWorker.MarkFailed | src/Worker/EventOutboxWorker.php:160-201 | the failure update of a row: status failed, attempts from FailureCount, next attempt from NextAttempt; see ReleaseRecordsFailure |
| EventWorker.ReleaseRecordsFailure | src/Worker/EventOutboxWorker.php:160-201 | a failure makes the row failed with attempts + 1; it is permanent (no next attempt) exactly when a positive maxAttempts is reached, else retried within [now + 1, now + max(1, maxDelay)]; id, payload and type are kept |
| EventWorker.StepSpec | src/Worker/EventOutboxWorker.php:53-71 | one loop step: a non-positive id is ignored, a failed claim is skipped, a published row is delivered and a throw is released; see StepIgnoresOnlyNonPositive, DueRowIsDelivered and StepPublishes |
| EventWorker.RunSpec | src/Worker/EventOutboxWorker.php:52-79 | runOnce's loop as a fold of StepSpec over the fetched rows from zero counters; see RunSpecCounts and PublishedGrowsWithSent |
| EventWorker.RunSpecSnoc | src/Worker/EventOutboxWorker.php:52-72 | one more fetched row is one more loop step |
| EventWorker.RunSpecStep | src/Worker/EventOutboxWorker.php:52-72 | the same, with the state before the row and the step's result named |
| EventWorker.RunSpecCounts | src/Worker/EventOutboxWorker.php:52-79 | after runOnce, processed = sent + failed + skipped, processed is the number of positive ids, and each sent row appended exactly one envelope after the earlier ones |
| EventWorker.StepIgnoresOnlyNonPositive | src/Worker/EventOutboxWorker.php:53-56 | a row is ignored exactly when its id is not positive |
| EventWorker.PublishedGrowsWithSent | src/Worker/EventOutboxWorker.php:65-67 | the transport gains exactly one envelope per sent row and keeps the earlier ones as a prefix |
| EventWorker.StepPublishes | src/Worker/EventOutboxWorker.php:140 | one step publishes one envelope when it delivers and none otherwise |
| EventWorker.SingleDueRowIsSent | tests/Integration/OutboxWorkersIntegrationTest.php:89-104 | one due pending row and an accepting transport give {1, 1, 0, 0}, one published envelope, and the row marked sent |
| EventWorker.DueRowIsDelivered | src/Worker/EventOutboxWorker.php:52-71 | the loop step for a due pending row claims it, publishes it and marks it sent |
| EventWorker.PublishLeasedRow | src/Worker/EventOutboxWorker.php:121-148 | processing the leased snapshot publishes the row's envelope and marks the row sent, dropping the lease |
| EventWorker.RunSpecOfOne | src/Worker/EventOutboxWorker.php:52-79 | a batch of one row is one step from zero counters |
| EventWorker.ClaimDueRow | src/Worker/EventOutboxWorker.php:85-116 | a due pending row nobody holds is claimed, with the lease in next_attempt_at |
| EventWorker.EventOutboxWorker.constructor | src/Worker/EventOutboxWorker.php:32 | the worker starts from the given table and configuration with nothing published |
| EventWorker.EventOutboxWorker.Claim | src/Worker/EventOutboxWorker.php:85-116 | returns ClaimSpec and writes the lease to that row only |
| EventWorker.EventOutboxWorker.ProcessRow | src/Worker/EventOutboxWorker.php:121-148 | the table, the published envelopes and the exception are those of ProcessSpec |
| EventWorker.EventOutboxWorker.BuildEnvelope | src/Worker/EventOutboxWorker.php:128-140 | builds the envelope ProcessSpec publishes |
| EventWorker.EventOutboxWorker.ReleaseWithFailure | src/Worker/EventOutboxWorker.php:153-202 | the table becomes ReleaseSpec and nothing is published |
| EventWorker.EventOutboxWorker.RunRow | src/Worker/EventOutboxWorker.php:53-71 | one loop iteration is the specification step: ignored, skipped, delivered or released |
| EventWorker.EventOutboxWorker.RunFetched | src/Worker/EventOutboxWorker.php:52-72 | the loop leaves the state and counters of RunSpec over the fetched rows |
| EventWorker.EventOutboxWorker.RunOnce | src/Worker/EventOutboxWorker.php:32-80 | runOnce is RunSpec over the candidate selection |
| WebhookWorker.SelectCandidates | src/Worker/WebhookOutboxWorker.php:36-41 | exactly min(batchSize, length of the view) rows, a prefix of the due view, and the whole view when it fits |
| WebhookWorker.ClaimSpec | src/Worker/WebhookOutboxWorker.php:81-112 | the same skip conditions as the event worker; on success only next_attempt_at changes, to now + lockSeconds |
| WebhookWorker.MetaLookup | src/Worker/WebhookOutboxWorker.php:127-131 | the dispatcher's meta holds exactly id, event_type and the snapshot's retries |
| WebhookWorker.MetaOf | src/Worker/WebhookOutboxWorker.php:127-131 | the dispatcher's meta array; see MetaLookup |
| WebhookWorker.CallOf | src/Worker/WebhookOutboxWorker.php:127-133 | the recorded dispatch call: the trimmed event type, the decoded payload and the meta; see ProcessSpec |
| WebhookWorker.FailureOf | src/Worker/WebhookOutboxWorker.php:134-137 | a not-ok result becomes a RuntimeException with result.error, or 'webhook_failed' when that is null |
| WebhookWorker.FailureOfFailedResult | src/Worker/WebhookOutboxWorker.php:134-137 | for a failed(e) result the message is trim(e), or 'webhook_failed' for a blank e, and is never blank |
| WebhookWorker.MarkSent | src/Worker/WebhookOutboxWorker.php:139-142 | a dispatched row is sent with no next attempt; see MarkSentChangesOnlyStatusAndSchedule |
| WebhookWorker.MarkSentChangesOnlyStatusAndSchedule | src/Worker/WebhookOutboxWorker.php:139-142 | success sets status sent and next_attempt_at null, keeps id, type, payload and retries, and the row then fails the claim re-check |
| WebhookWorker.ProcessSpec | src/Worker/WebhookOutboxWorker.php:117-143 | a blank event_type throws missing_event_type with no call; otherwise exactly one dispatch call is recorded, and the row is marked sent exactly when the result is ok, else the failure is thrown and the table is unchanged |
| WebhookWorker.ReleaseSpec | src/Worker/WebhookOutboxWorker.php:148-195 | a snapshot without a positive id changes nothing; otherwise only that row gets its failure update |
| WebhookWorker.MarkFailed | src/Worker/WebhookOutboxWorker.php:155-194 | the failure update of a row: status failed, retries from FailureCount, next attempt from NextAttempt; see ReleaseRecordsFailure |
| WebhookWorker.ReleaseRecordsFailure | src/Worker/WebhookOutboxWorker.php:155-194 | a failure makes the row failed with retries + 1; it is permanent exactly when a positive maxRetries is reached, else retried within [now + 1, now + max(1, maxDelay)] |
| WebhookWorker.RetryAfterNineSeconds | tests/Worker/BackoffTest.php:39-62 | with base = max = 9 a retried row is scheduled at exactly now + 9 |
| WebhookWorker.StepSpec | src/Worker/WebhookOutboxWorker.php:49-67 | one loop step: ignored, skipped, delivered or released; see StepIgnoresOnlyNonPositive, StepCalls and DueRowIsDelivered |
| WebhookWorker.RunSpec | src/Worker/WebhookOutboxWorker.php:48-75 | runOnce's loop as a fold of StepSpec over the fetched rows; see RunSpecCounts and CallsBetweenSentAndProcessed |
| WebhookWorker.RunSpecSnoc | src/Worker/WebhookOutboxWorker.php:48-68 | one more fetched row is one more loop step |
| WebhookWorker.StepIgnoresOnlyNonPositive | src/Worker/WebhookOutboxWorker.php:49-52 | a row is ignored exactly when its id is not positive |
| WebhookWorker.StepCalls | src/Worker/WebhookOutboxWorker.php:48-68 | one step makes at most one dispatch call, and exactly one when it delivers; an ignored or skipped row changes nothing |
| WebhookWorker.CallsBetweenSentAndProcessed | src/Worker/WebhookOutboxWorker.php:48-75 | the dispatch calls made number at least the rows sent and at most the rows sent or failed |
| WebhookWorker.RunSpecCounts | src/Worker/WebhookOutboxWorker.php:48-75 | after runOnce, processed = sent + failed + skipped, processed is the number of positive ids, and sent ≤ calls ≤ sent + failed |
| WebhookWorker.ClaimDueRow | src/Worker/WebhookOutboxWorker.php:81-112 | a due pending row nobody holds is claimed |
| WebhookWorker.DueRowIsDelivered | src/Worker/WebhookOutboxWorker.php:48-68 | with an ok dispatcher, the step for a due pending row delivers it |
| WebhookWorker.RunSpecOfOne | src/Worker/WebhookOutboxWorker.php:48-75 | a batch of one row is one step from zero counters |
| WebhookWorker.SingleDueRowIsSent | tests/Integration/OutboxWorkersIntegrationTest.php:107-157 | one due row and an always-ok dispatcher give {1, 1, 0, 0}, one dispatch call and status sent |
| WebhookWorker.WebhookOutboxWorker.constructor | src/Worker/WebhookOutboxWorker.php:34 | the worker starts from the given table and configuration with no calls |
| WebhookWorker.WebhookOutboxWorker.Claim | src/Worker/WebhookOutboxWorker.php:81-112 | returns ClaimSpec and writes the lease to that row only |
| WebhookWorker.WebhookOutboxWorker.ProcessRow | src/Worker/WebhookOutboxWorker.php:117-143 | the table, the calls and the exception are those of ProcessSpec |
| WebhookWorker.WebhookOutboxWorker.ReleaseWithFailure | src/Worker/WebhookOutboxWorker.php:148-195 | the table becomes ReleaseSpec and no call is made |
| WebhookWorker.WebhookOutboxWorker.RunRow | src/Worker/WebhookOutboxWorker.php:49-67 | one loop iteration is the specification step |
| WebhookWorker.WebhookOutboxWorker.RunFetched | src/Worker/WebhookOutboxWorker.php:48-68 | the loop leaves the state and counters of RunSpec over the fetched rows |
| WebhookWorker.WebhookOutboxWorker.RunOnce | src/Worker/WebhookOutboxWorker.php:34-76 | runOnce is RunSpec over the candidate selection |
| LegacySupport.NormalizeFixedString | src/CoreCompat/CoreOutbox.php:318-328 | the result never exceeds maxLen |
| LegacySupport.NormalizeFixedStringCases | src/CoreCompat/CoreOutbox.php:318-328 | a value whose trim fits is returned trimmed; a blank value gives the fallback when it fits; a longer one gives the first min(maxLen, 64) lower-case hex digits of its SHA-256 |
| LegacySupport.NormalizeFixedStringIdempotent | src/CoreCompat/CoreOutbox.php:318-328 | with a trimmed non-blank fallback and a positive width, every result is trimmed, non-blank and fits, and normalizing it again returns it |
| LegacySupport.IsDuplicateError | src/CoreCompat/CoreOutbox.php:301-305 | the lower-cased message contains 'duplicate' or 'unique'; see DuplicateErrorIgnoresCase and DuplicateErrorInContext |
| LegacySupport.DuplicateErrorIgnoresCase | src/CoreCompat/CoreOutbox.php:301-305 | isDuplicateError judges a message and its lower-case form alike |
| LegacySupport.DuplicateErrorInContext | src/CoreCompat/CoreInbox.php:157-161 | wrapping a duplicate error's message in more text keeps it a duplicate error |
| LegacySupport.LowerConcat | src/CoreCompat/CoreInbox.php:159 | strtolower distributes over concatenation |
| LegacySupport.LowerIdempotent | src/CoreCompat/CoreInbox.php:159 | lower-casing twice is lower-casing once |
| LegacySupport.ContainsInContext | src/CoreCompat/CoreInbox.php:160 | a string containing a word still contains it with more text around it |
| LegacyOutbox.EntityTableOf | src/CoreCompat/CoreOutbox.php:49 | the entity_table fits 64 bytes |
| LegacyOutbox.EventTypeFor | src/CoreCompat/CoreOutbox.php:50 | the event_type fits 100 bytes |
| LegacyOutbox.EntityPkFor | src/CoreCompat/CoreOutbox.php:52-56 | the entity_pk fits 64 bytes |
| LegacyOutbox.EntityPkCases | src/CoreCompat/CoreOutbox.php:52-56 | a null or blank partition key gives '-', and a non-blank one that fits is stored trimmed |
| LegacyOutbox.EventKeyFor | src/CoreCompat/CoreOutbox.php:58-62 | the event_key always passes isUuid |
| LegacyOutbox.DedupKeysCollide | src/CoreCompat/CoreOutbox.php:58-61 | two messages with the same non-blank dedup key and trimmed topic for the same outbox get the same event_key, whatever else differs |
| LegacyOutbox.WellFormedDedupKeyKept | src/CoreCompat/CoreOutbox.php:60 | a well-formed identifier as dedup key is stored as its trimmed lower-case form |
| LegacyOutbox.NewRow | src/CoreCompat/CoreOutbox.php:75-85 | the inserted row: the normalised columns, the stored payload, pending with 0 attempts and next_attempt_at from availableAt; see EnqueueStoresMessage and NewRowIsClaimable |
| LegacyOutbox.InsertSpec | src/CoreCompat/CoreOutbox.php:77-92 | a successful INSERT adds the new row under the next id; on an error nothing changes, and the error is swallowed exactly when a dedup key was passed and the error reports a duplicate |
| LegacyOutbox.EnqueueSpec | src/CoreCompat/CoreOutbox.php:35-93 | a blank topic throws InvalidArgument and changes nothing; a row is added only when the payload encodes and the INSERT succeeds; an exception never adds a row |
| LegacyOutbox.EnqueueStoresMessage | src/CoreCompat/CoreOutbox.php:64-85 | a stored message is pending with 0 attempts, scheduled at availableAt, holds the encoded payload, belongs to this outbox, and keeps its trimmed topic as event_type when it fits |
| LegacyOutbox.DuplicateSwallowedOnlyWithDedupKey | src/CoreCompat/CoreOutbox.php:86-91 | with a dedup key a duplicate INSERT error is swallowed and nothing changes; without one the same error propagates |
| LegacyOutbox.OtherInsertErrorsPropagate | src/CoreCompat/CoreOutbox.php:86-92 | any other INSERT error propagates, dedup key or not |
| LegacyOutbox.Claimable | src/CoreCompat/CoreOutbox.php:144-154 | the WHERE clause of the claim: this outbox's row, pending or failed, with no next attempt or one that has come; see ClaimableIdsSpec |
| LegacyOutbox.ClaimableIds | src/CoreCompat/CoreOutbox.php:144-154 | every id listed is of a row of this outbox that is pending or failed and due |
| LegacyOutbox.ClaimableIdsSpec | src/CoreCompat/CoreOutbox.php:144-154 | exactly the claimable ids, in strictly ascending order |
| LegacyOutbox.SelectBatch | src/CoreCompat/CoreOutbox.php:144-154 | at most `limit` ids, each of a row in the table that is claimable by this outbox now |
| LegacyOutbox.SelectBatchSpec | src/CoreCompat/CoreOutbox.php:144-154 | exactly min(limit, number of claimable ids) ids, ascending, each claimable; every claimable id left out is larger than each taken, so the batch is the `limit` smallest claimable ids |
| LegacyOutbox.Snapshots | src/CoreCompat/CoreOutbox.php:154-171 | one returned row per selected id, as selected before the lease |
| LegacyOutbox.Leased | src/CoreCompat/CoreOutbox.php:159-169 | the table after the lease loop; see LeasedKeepsRows and LeasedSnoc |
| LegacyOutbox.LeasedKeepsRows | src/CoreCompat/CoreOutbox.php:159-169 | leasing keeps the ids and changes only next_attempt_at, to the lease end on exactly the selected rows |
| LegacyOutbox.ResolveSenderCallback | src/CoreCompat/CoreOutbox.php:290-299 | an object's send method wins, then the callable itself; with neither, it fails with InvalidArgument |
| LegacyOutbox.DecodeStoredPayload | src/CoreCompat/CoreOutbox.php:259-266 | non-strings and blank strings give []; a JSON array gives its entries |
| LegacyOutbox.StoredPayloadLookup | src/CoreCompat/CoreOutbox.php:64-68 | the stored payload offers the message's payload and headers under their keys |
| LegacyOutbox.ToLegacyRow | src/CoreCompat/CoreOutbox.php:271-288 | the row handed to the sender; see LegacyRowOfStored |
| LegacyOutbox.LegacyRowOfStored | src/CoreCompat/CoreOutbox.php:271-288 | the legacy row is id, topic = event_type, part_key = entity_pk, the message's payload and headers re-encoded, and attempts |
| LegacyOutbox.MarkSentIn | src/CoreCompat/CoreOutbox.php:178-185 | the row becomes sent, processed now, with nothing scheduled; every other row is unchanged |
| LegacyOutbox.PowCast | src/CoreCompat/CoreOutbox.php:195 | `(int)pow(2, e)`: 2^e for e ≥ 0, and 0 for a negative e, whose power is a fraction below 1 |
| LegacyOutbox.FailureWait | src/CoreCompat/CoreOutbox.php:195 | the wait lies in [0, 3600] |
| LegacyOutbox.FailureWaitBounds | src/CoreCompat/CoreOutbox.php:195 | for a non-negative attempt count the wait lies in [1, 1039], so the 3600 cap is never reached |
| LegacyOutbox.MarkFailedIn | src/CoreCompat/CoreOutbox.php:187-204 | a snapshot without a positive id changes nothing, and no other row ever changes |
| LegacyOutbox.MarkFailedAlwaysRetries | src/CoreCompat/CoreOutbox.php:187-204 | the row becomes failed with attempts + 1 and a next attempt in [now + 1, now + 1039]; there is no permanent state, and the row is claimable again once that moment has come |
| LegacyOutbox.FlushStepSettles | src/CoreCompat/CoreOutbox.php:109-126 | one claimed row touches only its own id and leaves that row sent or failed, also when a notification throws after markSent |
| LegacyOutbox.NoteCall | src/CoreCompat/CoreOutbox.php:222-238 | a notification gives at most one webhook call, and only to a trimmed non-blank URL |
| LegacyOutbox.NotificationCalls | src/CoreCompat/CoreOutbox.php:214-254 | the notifications give at most one call each, in order, every URL trimmed and non-blank |
| LegacyOutbox.StoredNotifications | src/CoreCompat/CoreOutbox.php:64-68 | a row holding a message's stored payload dispatches exactly that message's notification calls, and none when it has none |
| LegacyOutbox.WebhookNoteIsCalled | src/CoreCompat/CoreOutbox.php:226-238 | a webhook notification with a non-blank url calls the trimmed URL with its payload |
| LegacyOutbox.FlushStepCountsDelivery | src/CoreCompat/CoreOutbox.php:109-126 | a row counts as sent exactly when its id is positive, the sender accepts it and no notification throws; a counted row is sent, processed now, with nothing scheduled |
| LegacyOutbox.ThrowingNotificationRetriesSentRow | src/CoreCompat/CoreOutbox.php:117-125 | when a notification throws after markSent, the row is not counted and ends failed with attempts + 1, processed now, retried within [now + 1, now + 1039] and claimable again then |
| LegacyOutbox.FlushFoldSnoc | src/CoreCompat/CoreOutbox.php:108-127 | one more claimed row is one more loop step |
| LegacyOutbox.FlushSettles | src/CoreCompat/CoreOutbox.php:108-127 | flush leaves every claimed row it finds sent or failed and every other row as it was, keeps the ids, and counts at most one send per claimed row |
| LegacyOutbox.FlushSpec | src/CoreCompat/CoreOutbox.php:100-130 | flush: an unusable sender fails with InvalidArgument and changes nothing; otherwise claimBatch, then the loop over the snapshots; see FlushSpecOfCallback and FlushSettles |
| LegacyOutbox.FlushSpecOfCallback | src/CoreCompat/CoreOutbox.php:100-130 | with a usable sender, flush is the loop over the snapshots of claimBatch(max(1, limit)) on the leased table, returning the number sent |
| LegacyOutbox.NewRowIsClaimable | src/CoreCompat/CoreOutbox.php:75-85 | a row enqueued without availableAt, or whose moment has come, is claimable by its outbox |
| LegacyOutbox.EnqueuedRowIsClaimable | src/CoreCompat/CoreOutbox.php:147-149 | such a message is in the next claimable selection once stored |
| LegacyOutbox.InsertKeepsTableValid | src/CoreCompat/CoreOutbox.php:78 | inserting under the next id keeps every row under its own positive id below the counter |
| LegacyOutbox.LeasedSnoc | src/CoreCompat/CoreOutbox.php:160-169 | leasing one more selected row updates just that row |
| LegacyOutbox.CoreOutbox.constructor | src/CoreCompat/CoreOutbox.php:21-30 | the outbox starts from a valid table |
| LegacyOutbox.CoreOutbox.Enqueue | src/CoreCompat/CoreOutbox.php:35-93 | the table, the counter and the exception are those of EnqueueSpec, and the table stays valid |
| LegacyOutbox.CoreOutbox.Insert | src/CoreCompat/CoreOutbox.php:77-92 | the table, the counter and the exception are those of InsertSpec |
| LegacyOutbox.CoreOutbox.ClaimBatch | src/CoreCompat/CoreOutbox.php:135-176 | returns the snapshots of SelectBatch's ids and leaves those rows leased until now + 300 s |
| LegacyOutbox.CoreOutbox.Lease | src/CoreCompat/CoreOutbox.php:160-169 | the loop writes the lease on each selected row and nothing else |
| LegacyOutbox.CoreOutbox.MarkSent | src/CoreCompat/CoreOutbox.php:178-185 | the table becomes MarkSentIn |
| LegacyOutbox.CoreOutbox.MarkFailed | src/CoreCompat/CoreOutbox.php:187-204 | the table becomes MarkFailedIn with the drawn jitter |
| LegacyOutbox.CoreOutbox.SendRow | src/CoreCompat/CoreOutbox.php:109-126 | one iteration of flush's loop, markSent, the notifications and the markFailed after a throw included, is the specification step |
| LegacyOutbox.CoreOutbox.DispatchNotifications | src/CoreCompat/CoreOutbox.php:214-254 | the loop throws exactly when one of the row's notification calls throws, and stops at the first |
| LegacyOutbox.CoreOutbox.SendAll | src/CoreCompat/CoreOutbox.php:108-129 | the loop leaves the table and the count of FlushFold |
| LegacyOutbox.CoreOutbox.Flush | src/CoreCompat/CoreOutbox.php:100-130 | the table and the result are those of FlushSpec |
| LegacyInbox.SourceOf | src/CoreCompat/CoreInbox.php:36 | the source fits 100 bytes |
| LegacyInbox.KeyFor | src/CoreCompat/CoreInbox.php:36-37 | a message's key is the source, which fits, and an event_key that passes isUuid |
| LegacyInbox.KeyOfWellFormedId | src/CoreCompat/CoreInbox.php:37 | a well-formed message id is its own event_key, trimmed and lower-cased |
| LegacyInbox.MessageKeys | src/CoreCompat/CoreInbox.php:37 | two well-formed ids share a key exactly when they agree after trim and lower-casing |
| LegacyInbox.ErrorText | src/CoreCompat/CoreInbox.php:96 | last_error is the first 2000 bytes of the message |
| LegacyInbox.HandleSpec | src/CoreCompat/CoreInbox.php:65-106 | the handler runs exactly when the row id is positive, the lock is granted and the row is not processed; otherwise nothing changes and the result is false; only that row changes |
| LegacyInbox.ProcessSpec | src/CoreCompat/CoreInbox.php:34-117 | an insert error that is not a duplicate propagates with no change; a new key gets a row under the next id; no other row ever changes |
| LegacyInbox.HandlerSuccessMarksProcessed | src/CoreCompat/CoreInbox.php:87-94 | a successful handler leaves the row processed at now with no error and the same attempts, and process returns true |
| LegacyInbox.HandlerFailureRecorded | src/CoreCompat/CoreInbox.php:95-114 | a failed handler leaves the row failed with attempts + 1 and the first 2000 bytes of the message, and process rethrows the handler's own exception |
| LegacyInbox.ProcessedRowIsSkipped | src/CoreCompat/CoreInbox.php:82-85 | a processed row runs no handler and changes nothing; process returns false unless the INSERT failed otherwise |
| LegacyInbox.HandlerRunsOnceAfterSuccess | src/CoreCompat/CoreInbox.php:82-94 | after a call whose handler succeeded, any later call for the same key runs no handler and changes nothing |
| LegacyInbox.FailedRowIsRetried | src/CoreCompat/CoreInbox.php:82-88 | a failed row is handled again, because only 'processed' short-circuits |
| LegacyInbox.NewMessageIsRecorded | src/CoreCompat/CoreInbox.php:51-57 | a new message is stored under the next id with its payload and handled; when the handler fails the row stays, failed with one attempt |
| LegacyInbox.DuplicateInsertFallsBack | src/CoreCompat/CoreInbox.php:58-63 | a duplicate INSERT error falls back to the existing row; without one, process returns false and changes nothing |
| LegacyInbox.AckSpec | src/CoreCompat/CoreInbox.php:119-139 | ack of an unknown key changes nothing; otherwise the row becomes processed at now with no error, and no other row changes |
| LegacyInbox.AckPreventsHandler | src/CoreCompat/CoreInbox.php:119-139 | after an ack of a known message, process never runs its handler |
| LegacyInbox.Cutoff | src/CoreCompat/CoreInbox.php:143-146 | the cutoff is never after now |
| LegacyInbox.NegativeAgeIsZero | src/CoreCompat/CoreInbox.php:143 | a negative age counts as zero days |
| LegacyInbox.ExpiredKeys | src/CoreCompat/CoreInbox.php:151-154 | only keys of existing rows are deleted |
| LegacyInbox.Expired | src/CoreCompat/CoreInbox.php:151-154 | the DELETE's WHERE clause: this source, processed, with processed_at set and before the cutoff |
| LegacyInbox.Remaining | src/CoreCompat/CoreInbox.php:141-155 | the table after cleanup; see CleanupDeletesExactlyExpired |
| LegacyInbox.CleanupDeletesExactlyExpired | src/CoreCompat/CoreInbox.php:151-154 | cleanup deletes exactly the processed rows of this source processed before the cutoff, keeps every other row unchanged, and the count is the number deleted |
| LegacyInbox.InsertKeepsTableValid | src/CoreCompat/CoreInbox.php:52-56 | a new row under the next id keeps ids positive, below the counter and distinct |
| LegacyInbox.HandleKeepsTableValid | src/CoreCompat/CoreInbox.php:87-106 | handling changes no id and no key |
| LegacyInbox.ProcessKeepsTableValid | src/CoreCompat/CoreInbox.php:34-117 | process keeps the table valid |
| LegacyInbox.CoreInbox.constructor | src/CoreCompat/CoreInbox.php:18-26 | the inbox starts from a valid table |
| LegacyInbox.CoreInbox.Process | src/CoreCompat/CoreInbox.php:34-117 | the table, the counter, whether the handler ran and the result are those of ProcessSpec for the message's key, and the table stays valid |
| LegacyInbox.CoreInbox.ProcessKey | src/CoreCompat/CoreInbox.php:43-110 | the same, once the key and payload are known |
| LegacyInbox.CoreInbox.Handle | src/CoreCompat/CoreInbox.php:65-106 | the table and result are those of HandleSpec |
| LegacyInbox.CoreInbox.Ack | src/CoreCompat/CoreInbox.php:119-139 | the table becomes AckSpec for the message's key, and the counter is unchanged |
| LegacyInbox.CoreInbox.AckKey | src/CoreCompat/CoreInbox.php:124-138 | the table becomes AckSpec for the key |
| LegacyInbox.CoreInbox.Cleanup | src/CoreCompat/CoreInbox.php:141-155 | the table keeps the rows that are not expired, and the result is the number of expired rows |
| WebhookSender.EventTypeText | src/CoreCompat/CoreWebhookSender.php:38-41 | the trimmed topic, or 'event' when that is blank; always trimmed and non-blank |
| WebhookSender.EventTypeOf | src/CoreCompat/CoreWebhookSender.php:37-41 | the event type is always trimmed and non-blank |
| WebhookSender.EventTypeOfTopic | src/CoreCompat/CoreWebhookSender.php:37-41 | the event type is the trimmed string topic, or 'event' when the topic is missing, not a string or blank |
| WebhookSender.RequestPayloadLookup | src/CoreCompat/CoreWebhookSender.php:46-52 | the request holds webhook_url, payload and, only when any remain, headers, and no other key |
| WebhookSender.RequestPayloadReadUrl | src/CoreCompat/CoreWebhookSender.php:46-47 | the built-in dispatcher reads the request's URL as trim(url), or none for a blank url |
| WebhookSender.Send | src/CoreCompat/CoreWebhookSender.php:26-75 | send: true without a usable URL, else the verdict on the dispatch call; see SendWithoutUrlSucceeds and SendCallShape |
| WebhookSender.Verdict | src/CoreCompat/CoreWebhookSender.php:54-74 | the injected dispatcher's ok, or with none, false without curl and the built-in dispatcher's ok otherwise; see SendReturnsDispatcherVerdict and SendWithoutDispatcherOrCurlFails |
| WebhookSender.SendCall | src/CoreCompat/CoreWebhookSender.php:28-52 | there is a dispatch exactly when the decoded headers carry a non-blank string webhook_url |
| WebhookSender.SendWithoutUrlSucceeds | src/CoreCompat/CoreWebhookSender.php:31-35 | without a usable webhook_url, send returns true and dispatches nothing |
| WebhookSender.SendReturnsDispatcherVerdict | src/CoreCompat/CoreWebhookSender.php:63-74 | with a URL and an injected dispatcher, send returns exactly that dispatcher's ok |
| WebhookSender.SendCallShape | src/CoreCompat/CoreWebhookSender.php:37-63 | the dispatch carries the trimmed topic or 'event', the untrimmed URL, the decoded payload, the remaining headers only when any remain, and meta {outbox_id} |
| WebhookSender.SendWithoutDispatcherOrCurlFails | src/CoreCompat/CoreWebhookSender.php:54-59 | with no injected dispatcher and no curl, send returns false |
| WebhookSender.BuiltInDispatcherFindsUrl | src/CoreCompat/CoreWebhookSender.php:46-60 | the built-in dispatcher finds the trimmed header URL, so a row with a URL never fails as missing_webhook_url |
| HttpDispatch.ReadUrl | src/Webhook/HttpWebhookDispatcher.php:77-85 | readUrl is the first non-null alias, trimmed, when it is a non-blank string, and none otherwise |
| HttpDispatch.ReadUrlAliasesAgree | src/Webhook/HttpWebhookDispatcher.php:79 | url, webhook_url and endpoint are read alike when a payload carries only one of them |
| HttpDispatch.ReadUrlNonNullUrlShadowsAliases | src/Webhook/HttpWebhookDispatcher.php:79-82 | a non-null 'url' wins even when unusable: the other aliases are then not consulted |
| HttpDispatch.GetUnsetAll | src/Webhook/HttpWebhookDispatcher.php:104 | unsetting the routing keys removes exactly those keys |
| HttpDispatch.ResolveBody | src/Webhook/HttpWebhookDispatcher.php:91-106 | resolveBody; see ResolveBodyChoice |
| HttpDispatch.ResolveBodyChoice | src/Webhook/HttpWebhookDispatcher.php:91-106 | the body array, else the payload array, else the payload without url, webhook_url, endpoint, headers and method, with every other key kept |
| HttpDispatch.EventTypedBody | src/Webhook/HttpWebhookDispatcher.php:34-35 | the body with event_type filled in when missing; see EventTypedBodyLookup |
| HttpDispatch.EventTypedBodyLookup | src/Webhook/HttpWebhookDispatcher.php:35 | the body's own non-null event_type stays, otherwise the dispatched one is set; no other key changes |
| HttpDispatch.EventTypedBodyKeepsOwnType | src/Webhook/HttpWebhookDispatcher.php:35 | a body that names its own event type is sent unchanged |
| HttpDispatch.UpperOfTrimmed | src/Webhook/HttpWebhookDispatcher.php:26 | upper-casing keeps a string trimmed and changes it only in case |
| HttpDispatch.VerbOf | src/Webhook/HttpWebhookDispatcher.php:26-29 | the verb is upper-case, trimmed and never empty; a blank text gives POST |
| HttpDispatch.RequestMethod | src/Webhook/HttpWebhookDispatcher.php:26-29 | an absent or null method is POST; otherwise strtoupper(trim) of its text, or POST when that is blank |
| HttpDispatch.HeaderText | src/Webhook/HttpWebhookDispatcher.php:127-134 | trim of a header name or value, with the facts the header lines need |
| HttpDispatch.IsList | src/Webhook/HttpWebhookDispatcher.php:116 | the header keys are exactly 0, 1, …, n-1 for a non-empty array, as `array_keys($h) === range(0, count($h) - 1)` is, the empty array not counting as a list |
| HttpDispatch.ListEntryItem | src/Webhook/HttpWebhookDispatcher.php:118-122 | a list entry gives its trimmed text when it is a non-blank string, and nothing otherwise |
| HttpDispatch.MapEntryItem | src/Webhook/HttpWebhookDispatcher.php:126-139 | a map entry gives "name: value" unless the name or value is blank or the value is an array |
| HttpDispatch.HeaderLineIsTrimmed | src/Webhook/HttpWebhookDispatcher.php:138 | "name: value" of trimmed non-blank parts is trimmed and non-blank |
| HttpDispatch.CollectMembers | src/Webhook/HttpWebhookDispatcher.php:114-141 | a line is collected exactly when some entry produces it |
| HttpDispatch.CollectShape | src/Webhook/HttpWebhookDispatcher.php:114-141 | at most one line per entry, each trimmed and non-blank |
| HttpDispatch.CollectSnoc | src/Webhook/HttpWebhookDispatcher.php:118-138 | one more entry appends exactly that entry's line, if any |
| HttpDispatch.NormalizedHeaders | src/Webhook/HttpWebhookDispatcher.php:112-142 | never more lines than entries, every line trimmed and non-blank |
| HttpDispatch.ListHeadersMembers | src/Webhook/HttpWebhookDispatcher.php:117-124 | for a list, the lines are exactly the trimmed non-blank string entries |
| HttpDispatch.MapEntryItemLine | src/Webhook/HttpWebhookDispatcher.php:126-138 | one map entry's line in terms of its trimmed name and value |
| HttpDispatch.MapHeadersMembers | src/Webhook/HttpWebhookDispatcher.php:126-141 | for a map, the lines are exactly "name: value" for entries with non-blank trimmed name and value and a non-array value |
| HttpDispatch.NormalizeHeaders | src/Webhook/HttpWebhookDispatcher.php:112-142 | the loops produce NormalizedHeaders |
| HttpDispatch.CollectListHeaders | src/Webhook/HttpWebhookDispatcher.php:117-123 | the list loop appends each entry's line in order |
| HttpDispatch.CollectMapHeaders | src/Webhook/HttpWebhookDispatcher.php:126-141 | the map loop appends each entry's line in order |
| HttpDispatch.HttpError | src/Webhook/HttpWebhookDispatcher.php:71 | 'http_' followed by the code: trimmed, non-blank and longer than the prefix |
| HttpDispatch.CurlHeaders | src/Webhook/HttpWebhookDispatcher.php:42-44 | the normalised headers, then Content-Type, then User-Agent with the configured agent |
| HttpDispatch.Prepare | src/Webhook/HttpWebhookDispatcher.php:21-54 | no URL gives failed('missing_webhook_url'); an unencodable body gives failed('json_encode_failed'); otherwise the request to the URL with the method, header lines, JSON body and timeouts max(1, t) and max(1, min(3, t)) |
| HttpDispatch.Classify | src/Webhook/HttpWebhookDispatcher.php:61-71 | ok exactly for a completed transfer with status 200..299; a failed transfer gives the curl error or 'curl_failed' with the status; any other code gives 'http_<code>' with that code, a missing code counting as 0 |
| HttpDispatch.TransferFailureError | src/Webhook/HttpWebhookDispatcher.php:61-63 | a failed transfer's error is curl's trimmed message, 'curl_failed' when there is none, and 'webhook_failed' when it is blank |
| HttpDispatch.EarlyFailures | src/Webhook/HttpWebhookDispatcher.php:23-39 | both early failures carry their own error and no status |
| HttpDispatch.DispatchResult | src/Webhook/HttpWebhookDispatcher.php:17-72 | every result is ok exactly when it has no error |
| HttpDispatch.Dispatch | src/Webhook/HttpWebhookDispatcher.php:17-72 | the method, with its header loop, returns DispatchResult |
| HttpDispatch.DispatchOkIff2xx | src/Webhook/HttpWebhookDispatcher.php:61-68 | dispatch succeeds exactly when the request was prepared and the transfer completed with a 2xx status |
| HttpDispatch.DispatchWithoutUrlNeverTransfers | src/Webhook/HttpWebhookDispatcher.php:21-24 | without a URL the result is missing_webhook_url whatever the transfer would do |

## Left out

- Database transactions, row locks and concurrency. The store is one sequential map. `lockById` failing, or a row locked by another worker, is an input set (`lockedByPeers`, `lockFails`).
- The definitions of the due views (`vw_event_outbox_due`, `vw_webhook_outbox_due`) are not shown. The view is an input sequence in id order; only the entity-table filter and the LIMIT are modelled.
- SQL collation, the timestamp text formats and DateTime parsing. Timestamps are whole seconds. `isDue` works on a `Moment` (no value, empty, unreadable, or an instant).
- The clock is read once per call. The source reads it several times within one runOnce, flush or process.
- curl is a parameter: the prepared request goes in and curl's outcome comes out.
- The request that `notifyWebhook` (src/CoreCompat/CoreOutbox.php:240-254) sends, and its logged outcome, are not modelled. The model keeps only whether each call throws (`notifyThrows`), for example when ext-curl is missing; a throw turns the sent row into a failed one.
- One `char` stands for one byte. `strlen` and `substr` count bytes, so the limits of 64, 100 and 2000 are byte counts, and a cut through a multi-byte UTF-8 character is not modelled.
- Floats are not modelled: a PHP value is null, a bool, an int, a string or an array. A JSON number with a fraction is outside the model.
- PhpStrings.IntCast: does not model PHP 8's numeric strings with a fraction or an exponent (`(int)"1e3"` is 1000) or the saturation at the 64-bit bounds.
- The overflow of `attempts + 1` past PHP_INT_MAX, which turns it into a float, is not modelled: integers are unbounded.
- Logging, and the message of a released failure, which reaches only the log.
- The transport's exception message, which is only logged. A transport failure is modelled as "the publish threw".
- The database error that `updateById` could raise after a successful publish or dispatch is not modelled.
- `updateById` is assumed to find the claimed row: the claim's `$updated <= 0` branch is not modelled.
- EventWorker.EventOutboxWorker.RunOnce: requires `batchSize >= 0`. With a negative LIMIT the SQL statement fails, which is not modelled; `fromEnv` always gives at least 1.
- WebhookWorker.WebhookOutboxWorker.RunOnce: requires `batchSize >= 0`, for the same reason.
- The INSERT error of enqueue and of process is an input. An INSERT on an existing inbox key is treated like the duplicate path, as the unique constraint makes it.
- LegacyOutbox.FailureWaitBounds: needs a non-negative attempt count. For a negative count `(int)pow(2, n)` truncates to 0, which `PowCast` models, and the wait is the jitter alone.
- HttpWebhookDispatcher's `$meta` argument is discarded by the source; the model discards it too.
- `cleanup`'s `$status` argument is ignored by the source and by the model.
- `fromEnv`'s `??` treats a null entry as absent; `NoSettingGiven` says "missing or null".
- The worker configurations' constructors and getters: the constructors store their arguments unclamped and the getters return them. They are modelled as record fields with no contract.
- PHP arrays with mixed key types are modelled, but not PHP's integer-string key coercion.
- `random_bytes`, `random_int`, `sha1`, SHA-256, `json_encode` and `json_decode` are parameters, each with its result shape: 16 bytes, jitter in [0, 15], a 20-byte digest and 64 lower-case hex digits respectively.
- The decrypt hook (`IngressLocator`) is an optional decryption per payload. "No adapter" and "the adapter threw" are both `None`.
- The PostgreSQL transport and scheduler, LocalEventStore, CoreStdoutSender, MessagingConfig, MessagingManager, OutboxWebhookTransport and the CLI are not part of this model.
