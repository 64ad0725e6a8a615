/** Level helpers: lenient parsing and the per-environment default level. */
module LevelUtils {
  import opened Wrappers
  import opened Levels

  /** Per-environment levels. */
  const LEVEL_CONFIGS: map<string, int> := map[
    "development" := DEBUG, "testing" := WARNING,
    "staging" := INFO, "production" := ERROR]

  /** JavaScript truthiness of an optional string: present and non-empty. */
  predicate Truthy(s: Option<string>) {
    s.Some? && s.value != ""
  }

  /**
   * The level for an environment name. `env` is the argument, `nodeEnv` the process
   * environment's NODE_ENV (both may be absent); an empty string counts as absent,
   * and the name defaults to "development".
   */
  function GetLevelForEnvironment(env: Option<string>, nodeEnv: Option<string>): (r: int)
    ensures r == DEBUG || r == INFO || r == WARNING || r == ERROR
    ensures Truthy(env) && env.value == "development" ==> r == DEBUG
    ensures Truthy(env) && env.value == "testing" ==> r == WARNING
    ensures Truthy(env) && env.value == "staging" ==> r == INFO
    ensures Truthy(env) && env.value == "production" ==> r == ERROR
    ensures Truthy(env) && env.value !in LEVEL_CONFIGS ==> r == INFO
    ensures !Truthy(env) && !Truthy(nodeEnv) ==> r == DEBUG
    ensures !Truthy(env) && Truthy(nodeEnv) ==>
      r == if nodeEnv.value in LEVEL_CONFIGS then LEVEL_CONFIGS[nodeEnv.value] else INFO
  {
    var environment :=
      if Truthy(env) then env.value
      else if Truthy(nodeEnv) then nodeEnv.value
      else "development";
    if environment in LEVEL_CONFIGS then LEVEL_CONFIGS[environment] else INFO
  }

  /** A non-empty argument wins over NODE_ENV. */
  lemma EnvironmentArgumentWins(env: string, nodeEnv: Option<string>, nodeEnv': Option<string>)
    requires env != ""
    ensures GetLevelForEnvironment(Some(env), nodeEnv) == GetLevelForEnvironment(Some(env), nodeEnv')
  {
  }

  /** `parseLevel` accepts a number or a level name. */
  datatype LevelInput = Number(n: int) | Name(s: string)

  /** A non-negative number is kept, a negative one becomes INFO; a name is looked up, INFO if unknown. */
  function ParseLevel(input: LevelInput): (r: int)
    ensures input.Number? && input.n >= 0 ==> r == input.n
    ensures input.Number? && input.n < 0 ==> r == INFO
    ensures input.Name? && GetLevelByName(input.s).Some? ==> r == GetLevelByName(input.s).value
    ensures input.Name? && GetLevelByName(input.s).None? ==> r == INFO
  {
    match input
    case Number(n) => if IsValidLevel(n) then n else INFO
    case Name(s) =>
      var parsed := GetLevelByName(s);
      if parsed.Some? then parsed.value else INFO
  }

  /** Whatever it is given, `parseLevel` returns a valid level. */
  lemma ParseLevelIsValid(input: LevelInput)
    ensures IsValidLevel(ParseLevel(input))
  {
  }

  /** The display name of an anchor level parses back to that level. */
  lemma ParseLevelOfName(level: int)
    requires IsCanonical(level)
    ensures ParseLevel(Name(GetLevelName(level))) == level
  {
    LevelNameRoundTrip(level);
  }
}
