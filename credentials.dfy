/** The API-key lookup of the fetch script (`get_api_key`). */
module Credentials {
  import opened Wrappers
  import opened JsonValues

  /** `MissingKey` is the `sys.exit` at the end; `ConfigNotObject` the crash of `.get` on a config file that is not a JSON object. */
  datatype KeyError = MissingKey | ConfigNotObject

  /** The environment variable and the config-file entry share this name. */
  const KeyName := "OPENWEATHER_API_KEY"

  /** A Python `str | None` that is truthy. */
  predicate Given(s: Option<string>) {
    s.Some? && s.value != ""
  }

  /** The key in a config document, when it is a JSON object (`None` when it has no such entry). */
  function ConfigEntry(config: Json): Json
    requires config.JObj?
  {
    Get(config.fields, KeyName)
  }

  /**
   * `get_api_key`: `cli` is `--api-key`, `env` the environment variable and
   * `config` the decoded `config.local.json` next to the script, `None` when that
   * file does not exist. The first truthy source in that order is the key.
   */
  function ResolveApiKey(cli: Option<string>, env: Option<string>, config: Option<Json>): (r: Result<Json, KeyError>)
    ensures r.Ok? ==> Truthy(r.value)
    ensures r.Ok? ==>
              || (Given(cli) && r.value == JStr(cli.value))
              || (Given(env) && r.value == JStr(env.value))
              || (config.Some? && config.value.JObj? && r.value == ConfigEntry(config.value))
    ensures r == Err(ConfigNotObject) <==> !Given(cli) && !Given(env) && config.Some? && !config.value.JObj?
  {
    if Given(cli) then Ok(JStr(cli.value))
    else if Given(env) then Ok(JStr(env.value))
    else if config.None? then Err(MissingKey)
    else if !config.value.JObj? then Err(ConfigNotObject)
    else
      var key := ConfigEntry(config.value);
      if Truthy(key) then Ok(key) else Err(MissingKey)
  }

  /** A higher-priority source always wins, whatever the lower ones hold. */
  lemma HigherSourceWins(cli: Option<string>, env: Option<string>, config: Option<Json>)
    ensures Given(cli) ==> ResolveApiKey(cli, env, config) == Ok(JStr(cli.value))
    ensures !Given(cli) && Given(env) ==> ResolveApiKey(cli, env, config) == Ok(JStr(env.value))
    ensures !Given(cli) && !Given(env) && config.Some? && config.value.JObj? && Truthy(ConfigEntry(config.value))
            ==> ResolveApiKey(cli, env, config) == Ok(ConfigEntry(config.value))
  {
  }

  /** The run stops for a missing key exactly when no source holds a truthy key. */
  lemma MissingKeyExactly(cli: Option<string>, env: Option<string>, config: Option<Json>)
    ensures ResolveApiKey(cli, env, config) == Err(MissingKey)
        <==> !Given(cli) && !Given(env)
             && (config.None? || (config.value.JObj? && !Truthy(ConfigEntry(config.value))))
  {
  }
}
