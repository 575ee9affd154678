/** The event outbox worker's settings (src/Config/EventOutboxWorkerConfig.php). */
module EventConfig {
  import opened Common
  import opened PhpStrings
  import opened PhpValues
  import opened EnvSettings

  const DefaultWorkerName := "blackcat-event-outbox-worker"

  const BatchSizeKey := "BLACKCAT_EVENT_OUTBOX_BATCH_SIZE"
  const LockSecondsKey := "BLACKCAT_EVENT_OUTBOX_LOCK_SECONDS"
  const MaxAttemptsKey := "BLACKCAT_EVENT_OUTBOX_MAX_ATTEMPTS"
  const BaseDelayKey := "BLACKCAT_EVENT_OUTBOX_BASE_DELAY_SECONDS"
  const MaxDelayKey := "BLACKCAT_EVENT_OUTBOX_MAX_DELAY_SECONDS"
  const EntityTableKey := "BLACKCAT_EVENT_OUTBOX_ENTITY_TABLE"
  const WorkerNameKey := "BLACKCAT_EVENT_OUTBOX_WORKER_NAME"

  const SettingKeys: set<string> :=
    {BatchSizeKey, LockSecondsKey, MaxAttemptsKey, BaseDelayKey, MaxDelayKey, EntityTableKey, WorkerNameKey}

  /** The constructor stores its arguments as given; the getters return them. */
  datatype EventOutboxWorkerConfig = EventOutboxWorkerConfig(
    batchSize: int,
    lockSeconds: int,
    maxAttempts: int,
    baseDelaySeconds: int,
    maxDelaySeconds: int,
    entityTable: string,
    workerName: string)

  /** The ranges fromEnv clamps each setting into. */
  predicate Clamped(c: EventOutboxWorkerConfig) {
    && c.batchSize >= 1
    && c.lockSeconds >= 5
    && c.maxAttempts >= 0
    && c.baseDelaySeconds >= 1
    && c.maxDelaySeconds >= 1
    && Trim(c.entityTable) == c.entityTable
    && IsTrimmedNonBlank(c.workerName)
  }

  /**
   * EventOutboxWorkerConfig::fromEnv; `processEnv` is the array
   * $_ENV + $_SERVER. Numbers are cast with (int) and clamped from below,
   * the entity table is trimmed, and a blank worker name becomes the default.
   */
  function FromEnv(env: PhpArray, processEnv: PhpArray): (c: EventOutboxWorkerConfig)
    ensures Clamped(c)
  {
    var e := Source(env, processEnv);
    EventOutboxWorkerConfig(
      Max(1, IntSetting(e, BatchSizeKey, 100)),
      Max(5, IntSetting(e, LockSecondsKey, 300)),
      Max(0, IntSetting(e, MaxAttemptsKey, 0)),
      Max(1, IntSetting(e, BaseDelayKey, 10)),
      Max(1, IntSetting(e, MaxDelayKey, 3600)),
      TextSetting(e, EntityTableKey, ""),
      NameSetting(e, WorkerNameKey, DefaultWorkerName))
  }

  /** Settings already inside their ranges are taken as they are. */
  lemma FromEnvKeepsInRangeSettings(env: PhpArray, processEnv: PhpArray)
    ensures var e := Source(env, processEnv); var c := FromEnv(env, processEnv);
      && (IntSetting(e, BatchSizeKey, 100) >= 1 ==> c.batchSize == IntSetting(e, BatchSizeKey, 100))
      && (IntSetting(e, LockSecondsKey, 300) >= 5 ==> c.lockSeconds == IntSetting(e, LockSecondsKey, 300))
      && (IntSetting(e, MaxAttemptsKey, 0) >= 0 ==> c.maxAttempts == IntSetting(e, MaxAttemptsKey, 0))
      && (IntSetting(e, BaseDelayKey, 10) >= 1 ==> c.baseDelaySeconds == IntSetting(e, BaseDelayKey, 10))
      && (IntSetting(e, MaxDelayKey, 3600) >= 1 ==> c.maxDelaySeconds == IntSetting(e, MaxDelayKey, 3600))
      && c.entityTable == TextSetting(e, EntityTableKey, "")
      && (TextSetting(e, WorkerNameKey, DefaultWorkerName) != "" ==> c.workerName == TextSetting(e, WorkerNameKey, DefaultWorkerName))
  {
  }

  /** A number below its floor becomes exactly the floor, and a blank worker name the default. */
  lemma FromEnvRaisesToFloor(env: PhpArray, processEnv: PhpArray)
    ensures var e := Source(env, processEnv); var c := FromEnv(env, processEnv);
      && (IntSetting(e, BatchSizeKey, 100) < 1 ==> c.batchSize == 1)
      && (IntSetting(e, LockSecondsKey, 300) < 5 ==> c.lockSeconds == 5)
      && (IntSetting(e, MaxAttemptsKey, 0) < 0 ==> c.maxAttempts == 0)
      && (IntSetting(e, BaseDelayKey, 10) < 1 ==> c.baseDelaySeconds == 1)
      && (IntSetting(e, MaxDelayKey, 3600) < 1 ==> c.maxDelaySeconds == 1)
      && (TextSetting(e, WorkerNameKey, DefaultWorkerName) == "" ==> c.workerName == DefaultWorkerName)
  {
  }

  /** The settings of the clamping test: every number below its floor, a padded table and a blank name. */
  const ClampTestSettings: PhpArray := [
    Entry(StrKey(BatchSizeKey), Str("0")),
    Entry(StrKey(LockSecondsKey), Str("1")),
    Entry(StrKey(MaxAttemptsKey), Str("-5")),
    Entry(StrKey(BaseDelayKey), Str("0")),
    Entry(StrKey(MaxDelayKey), Str("0")),
    Entry(StrKey(EntityTableKey), Str("  outbox  ")),
    Entry(StrKey(WorkerNameKey), Str(""))]

  /** fromEnv on those settings gives 1, 5, 0, 1, 1, 'outbox' and the default worker name. */
  lemma FromEnvClampsTestSettings(processEnv: PhpArray)
    ensures var c := FromEnv(ClampTestSettings, processEnv);
      && c.batchSize == 1 && c.lockSeconds == 5 && c.maxAttempts == 0
      && c.baseDelaySeconds == 1 && c.maxDelaySeconds == 1
      && c.entityTable == "outbox" && c.workerName == DefaultWorkerName
  {
    ClampTestLookups();
    SmallCasts();
    PaddedTrim();
  }

  /** The clamping test's settings name seven different keys. */
  lemma ClampTestKeysDiffer()
    ensures UniqueKeys(ClampTestSettings)
  {
    assert BatchSizeKey[22] == 'B' && LockSecondsKey[22] == 'L' && MaxAttemptsKey[22] == 'M' && BaseDelayKey[22] == 'B';
    assert MaxDelayKey[22] == 'M' && EntityTableKey[22] == 'E' && WorkerNameKey[22] == 'W';
    assert BatchSizeKey[24] == 'T' && BaseDelayKey[24] == 'S' && MaxAttemptsKey[26] == 'A' && MaxDelayKey[26] == 'D';
  }

  /** Each key of the clamping test's settings reads its own value. */
  lemma ClampTestLookups()
    ensures var e := ClampTestSettings;
      && Field(e, BatchSizeKey) == Str("0") && Field(e, LockSecondsKey) == Str("1")
      && Field(e, MaxAttemptsKey) == Str("-5") && Field(e, BaseDelayKey) == Str("0")
      && Field(e, MaxDelayKey) == Str("0") && Field(e, EntityTableKey) == Str("  outbox  ")
      && Field(e, WorkerNameKey) == Str("")
  {
    var e := ClampTestSettings;
    ClampTestKeysDiffer();
    forall i | 0 <= i < |e| ensures Get(e, e[i].key) == Some(e[i].val) {
      GetFirstMatch(e, i);
    }
    assert e[0].key == StrKey(BatchSizeKey) && e[1].key == StrKey(LockSecondsKey) && e[2].key == StrKey(MaxAttemptsKey);
    assert e[3].key == StrKey(BaseDelayKey) && e[4].key == StrKey(MaxDelayKey) && e[5].key == StrKey(EntityTableKey);
    assert e[6].key == StrKey(WorkerNameKey);
  }

  /** (int) of the test's numeric strings. */
  lemma SmallCasts()
    ensures IntCast("0") == 0 && IntCast("1") == 1 && IntCast("-5") == -5
  {
  }

  /** trim('  outbox  ') is 'outbox'. */
  lemma PaddedTrim()
    ensures Trim("  outbox  ") == "outbox"
  {
    assert TrimLeft("outbox  ") == "outbox  ";
    assert TrimLeft(" outbox  ") == TrimLeft("outbox  ") by { assert " outbox  "[1..] == "outbox  "; }
    assert TrimLeft("  outbox  ") == TrimLeft(" outbox  ") by { assert "  outbox  "[1..] == " outbox  "; }
    assert TrimRight("outbox") == "outbox";
    assert TrimRight("outbox ") == TrimRight("outbox") by { assert "outbox "[..6] == "outbox"; }
    assert TrimRight("outbox  ") == TrimRight("outbox ") by { assert "outbox  "[..7] == "outbox "; }
  }

  /**
   * None of the settings is given: `??` takes a null entry for an absent
   * one, so each key is either missing or null.
   */
  predicate NoSettingGiven(e: PhpArray) {
    forall key | key in SettingKeys :: Field(e, key) == Null
  }

  /** An array without any string key from SettingKeys gives none of the settings. */
  lemma NoSettingKeyGivesNone(e: PhpArray)
    requires forall i | 0 <= i < |e| :: e[i].key.IntKey? || e[i].key.s !in SettingKeys
    ensures NoSettingGiven(e)
  {
    forall key | key in SettingKeys ensures Field(e, key) == Null {
      AbsentKeyIsNull(e, key);
    }
  }

  /** With none of its keys set, fromEnv gives the constructor's defaults (100, 300, 0, 10, 3600, '', the default name). */
  lemma FromEnvDefaults(env: PhpArray, processEnv: PhpArray)
    requires NoSettingGiven(Source(env, processEnv))
    ensures var c := FromEnv(env, processEnv);
      && c.batchSize == 100 && c.lockSeconds == 300 && c.maxAttempts == 0
      && c.baseDelaySeconds == 10 && c.maxDelaySeconds == 3600
      && c.entityTable == "" && c.workerName == DefaultWorkerName
  {
    var e := Source(env, processEnv);
    assert Field(e, BatchSizeKey) == Null && Field(e, LockSecondsKey) == Null && Field(e, MaxAttemptsKey) == Null && Field(e, BaseDelayKey) == Null;
    assert Field(e, MaxDelayKey) == Null && Field(e, EntityTableKey) == Null && Field(e, WorkerNameKey) == Null;
    TrimOfTrimmed("");
    TrimOfTrimmed(DefaultWorkerName);
  }
}
