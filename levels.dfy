/**
 * The numeric severity scale: named anchor levels, name <-> number translation,
 * NOTSET resolution and the enablement comparison.
 */
module Levels {
  import opened Wrappers
  import opened Strings

  const NOTSET: int := 0
  const DEBUG: int := 10
  const INFO: int := 20
  const WARNING: int := 30
  const WARN: int := WARNING     // alias
  const ERROR: int := 40
  const CRITICAL: int := 50
  const FATAL: int := CRITICAL   // alias

  /** The six anchor levels, each with one canonical name. */
  predicate IsCanonical(level: int) {
    level == NOTSET || level == DEBUG || level == INFO ||
    level == WARNING || level == ERROR || level == CRITICAL
  }

  /** Number -> name table. */
  const LEVEL_TO_NAMES: map<int, string> := map[
    NOTSET := "NOTSET", DEBUG := "DEBUG", INFO := "INFO",
    WARNING := "WARNING", ERROR := "ERROR", CRITICAL := "CRITICAL"]

  /** Name -> number table, with the aliases WARN and FATAL. */
  const NAME_TO_LEVEL: map<string, int> := map[
    "NOTSET" := NOTSET, "DEBUG" := DEBUG, "INFO" := INFO,
    "WARNING" := WARNING, "WARN" := WARNING, "ERROR" := ERROR,
    "CRITICAL" := CRITICAL, "FATAL" := CRITICAL]

  /** Display name of a level; an unknown number reads "Level <n>". */
  function GetLevelName(level: int): (r: string)
    ensures level == NOTSET ==> r == "NOTSET"
    ensures level == DEBUG ==> r == "DEBUG"
    ensures level == INFO ==> r == "INFO"
    ensures level == WARNING ==> r == "WARNING"
    ensures level == ERROR ==> r == "ERROR"
    ensures level == CRITICAL ==> r == "CRITICAL"
    ensures !IsCanonical(level) ==> r == "Level " + IntToString(level)
  {
    if level in LEVEL_TO_NAMES then LEVEL_TO_NAMES[level] else "Level " + IntToString(level)
  }

  /** Case-insensitive name lookup; None for an unknown name. */
  function GetLevelByName(name: string): (r: Option<int>)
    ensures r == Some(NOTSET) <==> ToUpper(name) == "NOTSET"
    ensures r == Some(DEBUG) <==> ToUpper(name) == "DEBUG"
    ensures r == Some(INFO) <==> ToUpper(name) == "INFO"
    ensures r == Some(WARNING) <==> ToUpper(name) == "WARNING" || ToUpper(name) == "WARN"
    ensures r == Some(ERROR) <==> ToUpper(name) == "ERROR"
    ensures r == Some(CRITICAL) <==> ToUpper(name) == "CRITICAL" || ToUpper(name) == "FATAL"
    ensures r.None? <==> ToUpper(name) !in NAME_TO_LEVEL.Keys
  {
    var upper := ToUpper(name);
    if upper in NAME_TO_LEVEL then Some(NAME_TO_LEVEL[upper]) else None
  }

  /** Two names that upper-case alike name the same level. */
  lemma GetLevelByNameCaseInsensitive(a: string, b: string)
    requires ToUpper(a) == ToUpper(b)
    ensures GetLevelByName(a) == GetLevelByName(b)
  {
  }

  /** Lookup of a name is lookup of its upper-case form. */
  lemma GetLevelByNameOfUpper(name: string)
    ensures GetLevelByName(ToUpper(name)) == GetLevelByName(name)
  {
    ToUpperIdempotent(name);
  }

  /** Exactly the six anchor levels survive the trip number -> name -> number. */
  lemma LevelNameRoundTrip(level: int)
    ensures GetLevelByName(GetLevelName(level)) == Some(level) <==> IsCanonical(level)
  {
    var name := GetLevelName(level);
    if IsCanonical(level) {
      ToUpperOfUpper(name);
    } else {
      assert name[0] == 'L';
      assert ToUpper(name)[0] == 'L';
      forall k | k in NAME_TO_LEVEL.Keys ensures k != ToUpper(name) {
        assert k[0] != 'L';
      }
    }
  }

  predicate IsValidLevel(level: int): (b: bool)
    ensures IsCanonical(level) ==> b
    ensures b <==> level >= NOTSET
  {
    level >= 0
  }

  /** NOTSET resolves to the fallback (WARNING unless given); every other level stays. */
  function GetEffectiveLevel(level: int, fallback: int := WARNING): (r: int)
    ensures level == NOTSET ==> r == fallback
    ensures level != NOTSET ==> r == level
  {
    if level == NOTSET then fallback else level
  }

  /** With the default fallback, the resolved level is never NOTSET. */
  lemma EffectiveLevelNeverNotset(level: int)
    ensures GetEffectiveLevel(level) != NOTSET
    ensures IsValidLevel(level) ==> IsValidLevel(GetEffectiveLevel(level))
  {
  }

  /** A record at `required` passes a threshold of `current` when `current <= required`. */
  predicate IsLevelEnabled(current: int, required: int): (b: bool)
    ensures current == required ==> b
    ensures current == NOTSET && IsValidLevel(required) ==> b
    ensures b <==> !(required < current)
  {
    current <= required
  }

  /** Enablement is monotone in both arguments. */
  lemma IsLevelEnabledMonotone(current: int, current': int, required: int, required': int)
    requires IsLevelEnabled(current, required)
    requires current' <= current && required <= required'
    ensures IsLevelEnabled(current', required')
  {
  }
}
