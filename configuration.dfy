/** Robot.GetConfigVariable: a lookup in the robot's configuration that
    falls back to the process environment. */
module Configuration {
  import opened Wrappers

  /** The exception a member access through a null reference throws. */
  datatype Exception = NullReferenceException

  /** Environment.GetEnvironmentVariable: the variable's value, or null. */
  function EnvironmentVariable(env: map<string, string>, name: string): (r: Option<string>)
    ensures r.Some? <==> name in env
    ensures r.Some? ==> r.value == env[name]
  {
    if name in env then Some(env[name]) else None
  }

  /** GetConfigVariable as the code is written: the configuration dictionary
      is dereferenced unconditionally, so a robot created without one (the
      default of Robot.Create) throws instead of reading the environment. */
  function GetConfigVariableAsWritten(config: Option<map<string, string>>, env: map<string, string>, name: string)
    : (r: Result<Option<string>, Exception>)
    ensures r.Failure? <==> config.None?
  {
    match config
    case None => Failure(NullReferenceException)
    case Some(c) => Success(if name in c then Some(c[name]) else EnvironmentVariable(env, name))
  }

  /** The configured entries, with a missing configuration read as empty. */
  function Configured(config: Option<map<string, string>>): map<string, string>
  {
    match config
    case None => map[]
    case Some(c) => c
  }

  /** GetConfigVariable as intended: the environment overlaid with the
      configuration. A configured key wins over an environment variable of
      the same name; any other key reads the environment; a key in neither
      is absent. */
  function GetConfigVariable(config: Option<map<string, string>>, env: map<string, string>, name: string)
    : (r: Option<string>)
    ensures name in Configured(config) ==> r == Some(Configured(config)[name])
    ensures name !in Configured(config) ==> r == EnvironmentVariable(env, name)
    ensures r.None? <==> name !in Configured(config) && name !in env
  {
    var effective := env + Configured(config);
    if name in effective then Some(effective[name]) else None
  }

  /** With a configuration present the code as written never throws and
      agrees with the intended lookup. */
  lemma AsWrittenAgreesWhenConfigured(config: Option<map<string, string>>, env: map<string, string>, name: string)
    requires config.Some?
    ensures GetConfigVariableAsWritten(config, env, name) == Success(GetConfigVariable(config, env, name))
  {
  }

  /** A robot created without a configuration: the code as written throws
      for a variable the environment has, where the intended lookup reads it. */
  lemma NullConfigurationThrows()
    ensures GetConfigVariableAsWritten(None, map["PORT" := "8080"], "PORT") == Failure(NullReferenceException)
    ensures GetConfigVariable(None, map["PORT" := "8080"], "PORT") == Some("8080")
  {
  }
}
