/** Credential resolution of src/config.ts: `getEnvConfig` as a function of
    a snapshot of the two places keys can come from. */
module Config {
  import opened Wrappers

  /** The two key variables of one source. `None` is an unset variable
      (`undefined`); a set variable may still hold the empty string. */
  datatype KeyVars = KeyVars(v3Key: Option<string>, r1Key: Option<string>)

  /** What `getEnvConfig` can observe. `buildTime` is `import.meta.env`
      (`None` when it is falsy); `runtime` is `window.__ENV__` (`None` when
      `window` is undefined or `__ENV__` is falsy). */
  datatype EnvSnapshot = EnvSnapshot(buildTime: Option<KeyVars>, runtime: Option<KeyVars>)

  /** The resolved configuration: both keys are always strings. */
  datatype EnvConfig = EnvConfig(v3Key: string, r1Key: string)

  /** `value || ''` for a key variable. */
  function OrEmpty(v: Option<string>): (r: string)
    ensures v.Some? ==> r == v.value
    ensures v.None? ==> r == ""
  {
    match v
    case None => ""
    case Some(s) => s
  }

  /** The configuration one source gives, missing values read as `''`. */
  function FromVars(vars: KeyVars): EnvConfig {
    EnvConfig(OrEmpty(vars.v3Key), OrEmpty(vars.r1Key))
  }

  const Empty := EnvConfig("", "")

  /** Both keys of `vars` are set and non-empty (both truthy). */
  predicate Complete(vars: KeyVars) {
    FromVars(vars).v3Key != "" && FromVars(vars).r1Key != ""
  }

  /** `getEnvConfig()`: build-time keys when both are present, otherwise the
      runtime-injected keys when `__ENV__` exists, otherwise empty keys. The
      two keys always come from the same source: a lone build-time key is
      never paired with a runtime key. */
  function GetEnvConfig(env: EnvSnapshot): (c: EnvConfig)
    ensures (env.buildTime.Some? && c == FromVars(env.buildTime.value)) ||
            (env.runtime.Some? && c == FromVars(env.runtime.value)) ||
            c == Empty
    ensures env.buildTime.Some? && Complete(env.buildTime.value) ==> c.v3Key != "" && c.r1Key != ""
    // complete build-time keys are used as they are, whatever `__ENV__` holds
    ensures env.buildTime.Some? && Complete(env.buildTime.value) ==> c == FromVars(env.buildTime.value)
    // without complete build-time keys, `__ENV__` decides when it exists
    ensures !(env.buildTime.Some? && Complete(env.buildTime.value)) && env.runtime.Some? ==>
            c == FromVars(env.runtime.value)
  {
    if env.buildTime.Some? && Complete(env.buildTime.value) then FromVars(env.buildTime.value)
    else if env.runtime.Some? then FromVars(env.runtime.value)
    else Empty
  }

  /** Build-time keys are returned only when both are non-empty. */
  lemma BuildTimeKeysOnlyWhenComplete(env: EnvSnapshot)
    requires env.buildTime.Some?
    ensures Complete(env.buildTime.value) ==> GetEnvConfig(env) == FromVars(env.buildTime.value)
    ensures !Complete(env.buildTime.value) ==>
            GetEnvConfig(env) == if env.runtime.Some? then FromVars(env.runtime.value) else Empty
  {
  }

  /** With one build-time key missing, the runtime source (if any) supplies
      both keys and the lone build-time key is discarded; a key missing from
      `__ENV__` reads as `''`. */
  lemma LoneBuildKeyDiscarded(build: KeyVars, runtime: KeyVars)
    requires OrEmpty(build.v3Key) != "" && OrEmpty(build.r1Key) == ""
    requires runtime.v3Key.None?
    ensures GetEnvConfig(EnvSnapshot(Some(build), Some(runtime))) ==
            EnvConfig("", OrEmpty(runtime.r1Key))
  {
  }

  /** With neither source available both keys are empty strings. */
  lemma NoSourceGivesEmptyKeys(env: EnvSnapshot)
    requires env.runtime.None?
    requires env.buildTime.None? || !Complete(env.buildTime.value)
    ensures GetEnvConfig(env) == Empty
  {
  }
}
