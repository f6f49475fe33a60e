/** `src/config.py`: the tag key, tag value and region read from the
    environment, with defaults, trimmed, then validated. The environment is
    a map from variable names to values. */
module Configuration {
  import opened Outcomes
  import opened Text

  const KeyVariable: string := "SHUTDOWN_TAG_KEY"
  const ValueVariable: string := "SHUTDOWN_TAG_VALUE"
  const RegionVariable: string := "AWS_REGION"

  const DefaultTagKey: string := "AutoShutdown"
  const DefaultTagValue: string := "yes"

  /** The AWS limits on tag key and tag value lengths. */
  const MaxKeyLength: nat := 128
  const MaxValueLength: nat := 256

  const KeyEmptyMessage: string := "SHUTDOWN_TAG_KEY cannot be empty"
  const ValueEmptyMessage: string := "SHUTDOWN_TAG_VALUE cannot be empty"
  const KeyTooLongMessage: string := "SHUTDOWN_TAG_KEY cannot exceed 128 characters"
  const ValueTooLongMessage: string := "SHUTDOWN_TAG_VALUE cannot exceed 256 characters"

  /** `_get_env_var`: `os.environ.get(key, default)`, stripped unless it is
      empty or None. The default is used only when the variable is absent. */
  function GetEnvVar(env: map<string, string>, key: string, default: Option<string>): (v: Option<string>)
    ensures key in env ==> v == Some(Strip(env[key]))
    ensures key !in env && default.None? ==> v == None
    ensures key !in env && default.Some? ==> v == Some(Strip(default.value))
  {
    var raw := if key in env then Some(env[key]) else default;
    if raw.Some? && raw.value != "" then Some(Strip(raw.value)) else raw
  }

  function TagKeyFrom(env: map<string, string>): string
  {
    GetEnvVar(env, KeyVariable, Some(DefaultTagKey)).value
  }

  function TagValueFrom(env: map<string, string>): string
  {
    GetEnvVar(env, ValueVariable, Some(DefaultTagValue)).value
  }

  function RegionFrom(env: map<string, string>): Option<string>
  {
    GetEnvVar(env, RegionVariable, None)
  }

  /** `_validate_config`: the message of the first check that fails, if any. */
  function ValidateConfig(key: string, value: string): (err: Option<string>)
    ensures err.None? <==> 1 <= |key| <= MaxKeyLength && 1 <= |value| <= MaxValueLength
  {
    if key == "" then Some(KeyEmptyMessage)
    else if value == "" then Some(ValueEmptyMessage)
    else if |key| > MaxKeyLength then Some(KeyTooLongMessage)
    else if |value| > MaxValueLength then Some(ValueTooLongMessage)
    else None
  }

  /** A list of checks, each a failure flag and its message: the message
      of the first that fails. */
  function FirstFailure(checks: seq<(bool, string)>): Option<string>
  {
    if checks == [] then None
    else if checks[0].0 then Some(checks[0].1)
    else FirstFailure(checks[1..])
  }

  /** The four checks, in the order the source runs them. */
  function ConfigChecks(key: string, value: string): seq<(bool, string)>
  {
    [ (key == "", KeyEmptyMessage),
      (value == "", ValueEmptyMessage),
      (|key| > MaxKeyLength, KeyTooLongMessage),
      (|value| > MaxValueLength, ValueTooLongMessage) ]
  }

  /** Validation reports the first failing check of the fixed order. */
  lemma ValidateReportsFirstFailure(key: string, value: string)
    ensures ValidateConfig(key, value) == FirstFailure(ConfigChecks(key, value))
  {
    var checks := ConfigChecks(key, value);
    var c1, c2, c3 := checks[1..], checks[2..], checks[3..];
    assert c3[1..] == [];
    assert c2[1..] == c3;
    assert c1[1..] == c2;
    assert FirstFailure(c3) == if |value| > MaxValueLength then Some(ValueTooLongMessage) else None;
    assert FirstFailure(c2) == if |key| > MaxKeyLength then Some(KeyTooLongMessage) else FirstFailure(c3);
    assert FirstFailure(c1) == if value == "" then Some(ValueEmptyMessage) else FirstFailure(c2);
  }

  /** `Config`: the three values `__init__` assigns; they are read-only. */
  class Config {
    const shutdownTagKey: string
    const shutdownTagValue: string
    const awsRegion: Option<string>

    /** The assignments of `__init__`, before validation. */
    constructor (env: map<string, string>)
      ensures shutdownTagKey == TagKeyFrom(env)
      ensures shutdownTagValue == TagValueFrom(env)
      ensures awsRegion == RegionFrom(env)
    {
      shutdownTagKey := GetEnvVar(env, KeyVariable, Some(DefaultTagKey)).value;
      shutdownTagValue := GetEnvVar(env, ValueVariable, Some(DefaultTagValue)).value;
      awsRegion := GetEnvVar(env, RegionVariable, None);
    }
  }

  /** `Config()`: a configuration, or the ValueError raised by validation. */
  method LoadConfig(env: map<string, string>) returns (r: Result<Config, string>)
    ensures r.Failure? ==> ValidateConfig(TagKeyFrom(env), TagValueFrom(env)) == Some(r.error)
    ensures r.Success? ==>
      && ValidateConfig(TagKeyFrom(env), TagValueFrom(env)).None?
      && r.value.shutdownTagKey == TagKeyFrom(env)
      && r.value.shutdownTagValue == TagValueFrom(env)
      && r.value.awsRegion == RegionFrom(env)
      && 1 <= |r.value.shutdownTagKey| <= MaxKeyLength
      && 1 <= |r.value.shutdownTagValue| <= MaxValueLength
  {
    var c := new Config(env);
    var err := ValidateConfig(c.shutdownTagKey, c.shutdownTagValue);
    if err.Some? {
      r := Failure(err.value);
    } else {
      r := Success(c);
    }
  }

  /** An absent variable takes its default; the region has none. */
  lemma DefaultsWhenAbsent(env: map<string, string>)
    ensures KeyVariable !in env ==> TagKeyFrom(env) == DefaultTagKey
    ensures ValueVariable !in env ==> TagValueFrom(env) == DefaultTagValue
    ensures RegionVariable !in env ==> RegionFrom(env) == None
  {
    DefaultTrimmed(DefaultTagKey);
    DefaultTrimmed(DefaultTagValue);
  }

  lemma DefaultTrimmed(s: string)
    requires s == DefaultTagKey || s == DefaultTagValue
    ensures Trimmed(s) && Strip(s) == s
  {
    assert !IsSpace(s[0]) && !IsSpace(s[|s| - 1]);
    StripKeepsTrimmed(s);
  }

  /** A present variable gives its value stripped, even when that is empty:
      a blank value is not replaced by the default. */
  lemma PresentVariableStripped(env: map<string, string>)
    ensures KeyVariable in env ==> TagKeyFrom(env) == Strip(env[KeyVariable])
    ensures ValueVariable in env ==> TagValueFrom(env) == Strip(env[ValueVariable])
    ensures RegionVariable in env ==> RegionFrom(env) == Some(Strip(env[RegionVariable]))
  {
  }

  /** An empty or whitespace-only `SHUTDOWN_TAG_KEY` is rejected as empty. */
  lemma BlankKeyRejected(env: map<string, string>)
    requires KeyVariable in env && AllSpace(env[KeyVariable])
    ensures TagKeyFrom(env) == ""
    ensures ValidateConfig(TagKeyFrom(env), TagValueFrom(env)) == Some(KeyEmptyMessage)
  {
    StripEmptyIffAllSpace(env[KeyVariable]);
  }

  /** An empty or whitespace-only `SHUTDOWN_TAG_VALUE`, with a usable key,
      is rejected as empty. */
  lemma BlankValueRejected(env: map<string, string>)
    requires KeyVariable !in env || !AllSpace(env[KeyVariable])
    requires ValueVariable in env && AllSpace(env[ValueVariable])
    ensures TagValueFrom(env) == ""
    ensures ValidateConfig(TagKeyFrom(env), TagValueFrom(env)) == Some(ValueEmptyMessage)
  {
    DefaultsWhenAbsent(env);
    if KeyVariable in env {
      StripEmptyIffAllSpace(env[KeyVariable]);
    }
    StripEmptyIffAllSpace(env[ValueVariable]);
  }

  /** The length limits are inclusive: exactly 128 and 256 characters pass,
      one more is rejected with the matching message. */
  lemma LengthLimits(key: string, value: string)
    requires key != "" && value != ""
    ensures |key| <= MaxKeyLength && |value| <= MaxValueLength ==> ValidateConfig(key, value) == None
    ensures |key| > MaxKeyLength ==> ValidateConfig(key, value) == Some(KeyTooLongMessage)
    ensures |key| <= MaxKeyLength && |value| > MaxValueLength ==> ValidateConfig(key, value) == Some(ValueTooLongMessage)
  {
  }

  /** The values a configuration holds have no surrounding whitespace. */
  lemma ConfiguredValuesTrimmed(env: map<string, string>)
    ensures Trimmed(TagKeyFrom(env)) && Trimmed(TagValueFrom(env))
  {
    DefaultTrimmed(DefaultTagKey);
    DefaultTrimmed(DefaultTagValue);
    EnvVarTrimmed(env, KeyVariable, DefaultTagKey);
    EnvVarTrimmed(env, ValueVariable, DefaultTagValue);
  }

  /** Reading a variable whose default is trimmed gives a trimmed value. */
  lemma EnvVarTrimmed(env: map<string, string>, key: string, default: string)
    requires Trimmed(default)
    ensures Trimmed(GetEnvVar(env, key, Some(default)).value)
  {
    if key in env {
      var _ := StripIsTrimmedSlice(env[key]);
    } else {
      StripKeepsTrimmed(default);
    }
  }
}
