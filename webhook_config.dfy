/** The webhook outbox worker's settings (src/Config/WebhookOutboxWorkerConfig.php). */
module WebhookConfig {
  import opened Common
  import opened PhpStrings
  import opened PhpValues
  import opened EnvSettings

  const DefaultWorkerName := "blackcat-webhook-outbox-worker"

  const BatchSizeKey := "BLACKCAT_WEBHOOK_OUTBOX_BATCH_SIZE"
  const LockSecondsKey := "BLACKCAT_WEBHOOK_OUTBOX_LOCK_SECONDS"
  const MaxRetriesKey := "BLACKCAT_WEBHOOK_OUTBOX_MAX_RETRIES"
  const BaseDelayKey := "BLACKCAT_WEBHOOK_OUTBOX_BASE_DELAY_SECONDS"
  const MaxDelayKey := "BLACKCAT_WEBHOOK_OUTBOX_MAX_DELAY_SECONDS"
  const HttpTimeoutKey := "BLACKCAT_WEBHOOK_OUTBOX_HTTP_TIMEOUT_SECONDS"
  const WorkerNameKey := "BLACKCAT_WEBHOOK_OUTBOX_WORKER_NAME"

  const SettingKeys: set<string> :=
    {BatchSizeKey, LockSecondsKey, MaxRetriesKey, BaseDelayKey, MaxDelayKey, HttpTimeoutKey, WorkerNameKey}

  /** The constructor stores its arguments as given; the getters return them. */
  datatype WebhookOutboxWorkerConfig = WebhookOutboxWorkerConfig(
    batchSize: int,
    lockSeconds: int,
    maxRetries: int,
    baseDelaySeconds: int,
    maxDelaySeconds: int,
    httpTimeoutSeconds: int,
    workerName: string)

  /** new WebhookOutboxWorkerConfig() with every default. */
  const Defaults := WebhookOutboxWorkerConfig(100, 300, 0, 10, 3600, 5, DefaultWorkerName)

  /** The ranges fromEnv clamps each setting into. */
  predicate Clamped(c: WebhookOutboxWorkerConfig) {
    && c.batchSize >= 1
    && c.lockSeconds >= 5
    && c.maxRetries >= 0
    && c.baseDelaySeconds >= 1
    && c.maxDelaySeconds >= 1
    && c.httpTimeoutSeconds >= 1
    && IsTrimmedNonBlank(c.workerName)
  }

  /**
   * WebhookOutboxWorkerConfig::fromEnv; `processEnv` is the array
   * $_ENV + $_SERVER. Numbers are cast with (int) and clamped from below,
   * and a blank worker name becomes the default.
   */
  function FromEnv(env: PhpArray, processEnv: PhpArray): (c: WebhookOutboxWorkerConfig)
    ensures Clamped(c)
  {
    var e := Source(env, processEnv);
    WebhookOutboxWorkerConfig(
      Max(1, IntSetting(e, BatchSizeKey, 100)),
      Max(5, IntSetting(e, LockSecondsKey, 300)),
      Max(0, IntSetting(e, MaxRetriesKey, 0)),
      Max(1, IntSetting(e, BaseDelayKey, 10)),
      Max(1, IntSetting(e, MaxDelayKey, 3600)),
      Max(1, IntSetting(e, HttpTimeoutKey, 5)),
      NameSetting(e, WorkerNameKey, DefaultWorkerName))
  }

  /** Settings already inside their ranges are taken as they are. */
  lemma FromEnvKeepsInRangeSettings(env: PhpArray, processEnv: PhpArray)
    ensures var e := Source(env, processEnv); var c := FromEnv(env, processEnv);
      && (IntSetting(e, BatchSizeKey, 100) >= 1 ==> c.batchSize == IntSetting(e, BatchSizeKey, 100))
      && (IntSetting(e, LockSecondsKey, 300) >= 5 ==> c.lockSeconds == IntSetting(e, LockSecondsKey, 300))
      && (IntSetting(e, MaxRetriesKey, 0) >= 0 ==> c.maxRetries == IntSetting(e, MaxRetriesKey, 0))
      && (IntSetting(e, BaseDelayKey, 10) >= 1 ==> c.baseDelaySeconds == IntSetting(e, BaseDelayKey, 10))
      && (IntSetting(e, MaxDelayKey, 3600) >= 1 ==> c.maxDelaySeconds == IntSetting(e, MaxDelayKey, 3600))
      && (IntSetting(e, HttpTimeoutKey, 5) >= 1 ==> c.httpTimeoutSeconds == IntSetting(e, HttpTimeoutKey, 5))
      && (TextSetting(e, WorkerNameKey, DefaultWorkerName) != "" ==> c.workerName == TextSetting(e, WorkerNameKey, DefaultWorkerName))
  {
  }

  /** A number below its floor becomes exactly the floor, and a blank worker name the default. */
  lemma FromEnvRaisesToFloor(env: PhpArray, processEnv: PhpArray)
    ensures var e := Source(env, processEnv); var c := FromEnv(env, processEnv);
      && (IntSetting(e, BatchSizeKey, 100) < 1 ==> c.batchSize == 1)
      && (IntSetting(e, LockSecondsKey, 300) < 5 ==> c.lockSeconds == 5)
      && (IntSetting(e, MaxRetriesKey, 0) < 0 ==> c.maxRetries == 0)
      && (IntSetting(e, BaseDelayKey, 10) < 1 ==> c.baseDelaySeconds == 1)
      && (IntSetting(e, MaxDelayKey, 3600) < 1 ==> c.maxDelaySeconds == 1)
      && (IntSetting(e, HttpTimeoutKey, 5) < 1 ==> c.httpTimeoutSeconds == 1)
      && (TextSetting(e, WorkerNameKey, DefaultWorkerName) == "" ==> c.workerName == DefaultWorkerName)
  {
  }

  /** The settings of the clamping test: every number below its floor and a blank name. */
  const ClampTestSettings: PhpArray := [
    Entry(StrKey(BatchSizeKey), Str("0")),
    Entry(StrKey(LockSecondsKey), Str("1")),
    Entry(StrKey(MaxRetriesKey), Str("-2")),
    Entry(StrKey(BaseDelayKey), Str("0")),
    Entry(StrKey(MaxDelayKey), Str("0")),
    Entry(StrKey(HttpTimeoutKey), Str("0")),
    Entry(StrKey(WorkerNameKey), Str(""))]

  /** fromEnv on those settings gives 1, 5, 0, 1, 1, 1 and the default worker name. */
  lemma FromEnvClampsTestSettings(processEnv: PhpArray)
    ensures var c := FromEnv(ClampTestSettings, processEnv);
      && c.batchSize == 1 && c.lockSeconds == 5 && c.maxRetries == 0
      && c.baseDelaySeconds == 1 && c.maxDelaySeconds == 1 && c.httpTimeoutSeconds == 1
      && c.workerName == DefaultWorkerName
  {
    ClampTestLookups();
    SmallCasts();
  }

  /** The clamping test's settings name seven different keys. */
  lemma ClampTestKeysDiffer()
    ensures UniqueKeys(ClampTestSettings)
  {
    assert BatchSizeKey[24] == 'B' && LockSecondsKey[24] == 'L' && MaxRetriesKey[24] == 'M' && BaseDelayKey[24] == 'B';
    assert MaxDelayKey[24] == 'M' && HttpTimeoutKey[24] == 'H' && WorkerNameKey[24] == 'W';
    assert BatchSizeKey[26] == 'T' && BaseDelayKey[26] == 'S' && MaxRetriesKey[28] == 'R' && MaxDelayKey[28] == 'D';
  }

  /** Each key of the clamping test's settings reads its own value. */
  lemma ClampTestLookups()
    ensures var e := ClampTestSettings;
      && Field(e, BatchSizeKey) == Str("0") && Field(e, LockSecondsKey) == Str("1")
      && Field(e, MaxRetriesKey) == Str("-2") && Field(e, BaseDelayKey) == Str("0")
      && Field(e, MaxDelayKey) == Str("0") && Field(e, HttpTimeoutKey) == Str("0")
      && Field(e, WorkerNameKey) == Str("")
  {
    var e := ClampTestSettings;
    ClampTestKeysDiffer();
    forall i | 0 <= i < |e| ensures Get(e, e[i].key) == Some(e[i].val) {
      GetFirstMatch(e, i);
    }
    assert e[0].key == StrKey(BatchSizeKey) && e[1].key == StrKey(LockSecondsKey) && e[2].key == StrKey(MaxRetriesKey);
    assert e[3].key == StrKey(BaseDelayKey) && e[4].key == StrKey(MaxDelayKey) && e[5].key == StrKey(HttpTimeoutKey);
    assert e[6].key == StrKey(WorkerNameKey);
  }

  /** (int) of the test's numeric strings. */
  lemma SmallCasts()
    ensures IntCast("0") == 0 && IntCast("1") == 1 && IntCast("-2") == -2
  {
  }

  /**
   * None of the settings is given: `??` takes a null entry for an absent
   * one, so each key is either missing or null.
   */
  predicate NoSettingGiven(e: PhpArray) {
    forall key | key in SettingKeys :: Field(e, key) == Null
  }

  /** An array without any string key from SettingKeys gives none of the settings. */
  lemma NoSettingKeyGivesNone(e: PhpArray)
    requires forall i | 0 <= i < |e| :: e[i].key.IntKey? || e[i].key.s !in SettingKeys
    ensures NoSettingGiven(e)
  {
    forall key | key in SettingKeys ensures Field(e, key) == Null {
      AbsentKeyIsNull(e, key);
    }
  }

  /** With none of its keys set, fromEnv gives the constructor's defaults. */
  lemma FromEnvDefaults(env: PhpArray, processEnv: PhpArray)
    requires NoSettingGiven(Source(env, processEnv))
    ensures FromEnv(env, processEnv) == Defaults
  {
    var e := Source(env, processEnv);
    assert Field(e, BatchSizeKey) == Null && Field(e, LockSecondsKey) == Null && Field(e, MaxRetriesKey) == Null && Field(e, BaseDelayKey) == Null;
    assert Field(e, MaxDelayKey) == Null && Field(e, HttpTimeoutKey) == Null && Field(e, WorkerNameKey) == Null;
    TrimOfTrimmed(DefaultWorkerName);
  }
}
