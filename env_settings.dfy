/**
 * Reading settings from an environment array, as both worker configs'
 * fromEnv do: `$env ?: ($_ENV + $_SERVER)`, then (int) or trim((string))
 * of `$env[$key] ?? $default`.
 */
module EnvSettings {
  import opened PhpStrings
  import opened PhpValues

  /** $env ?: ($_ENV + $_SERVER): an empty array selects the process environment. */
  function Source(env: PhpArray, processEnv: PhpArray): (e: PhpArray)
    ensures env != [] ==> e == env
    ensures env == [] ==> e == processEnv
  {
    if env == [] then processEnv else env
  }

  /** (int)($env[$key] ?? $default) */
  function IntSetting(env: PhpArray, key: string, default: int): (n: int)
    ensures Field(env, key) == Null ==> n == default
    ensures Field(env, key) != Null ==> n == ToPhpInt(Field(env, key))
  {
    var v := Field(env, key);
    if v == Null then default else ToPhpInt(v)
  }

  /** trim((string)($env[$key] ?? $default)) */
  function TextSetting(env: PhpArray, key: string, default: string): (r: string)
    ensures Trim(r) == r
    ensures Field(env, key) == Null ==> r == Trim(default)
    ensures Field(env, key) != Null ==> r == Trim(ToPhpString(Field(env, key)))
  {
    var v := Field(env, key);
    TrimIdempotent(if v == Null then default else ToPhpString(v));
    Trim(if v == Null then default else ToPhpString(v))
  }

  /** The worker-name setting: its trimmed text, or the default when that is blank. */
  function NameSetting(env: PhpArray, key: string, default: string): (r: string)
    requires IsTrimmedNonBlank(default)
    ensures IsTrimmedNonBlank(r)
    ensures TextSetting(env, key, default) != "" ==> r == TextSetting(env, key, default)
    ensures TextSetting(env, key, default) == "" ==> r == default
  {
    var name := TextSetting(env, key, default);
    TrimOfTrimmed(default);
    if name != "" then name else default
  }

  /** A key the array does not hold reads as null. */
  lemma AbsentKeyIsNull(env: PhpArray, key: string)
    requires forall i | 0 <= i < |env| :: env[i].key != StrKey(key)
    ensures Field(env, key) == Null
  {
    assert !HasKey(env, StrKey(key));
  }
}
