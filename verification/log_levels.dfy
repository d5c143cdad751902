/** Log-level names and numbers, as `logging.getLevelName` resolves them once
    `early_stage_setup` has registered `NONE`, and the per-item level lookup
    that accumulates configuration errors. */
module LogLevels {
  import Text

  const NOTSET: int := 0
  const DEBUG: int := 10
  const INFO: int := 20
  const WARNING: int := 30
  const ERROR: int := 40
  const CRITICAL: int := 50
  /** `LEVEL_NONE_VALUE`: a level above every message, which disables a handler. */
  const LEVEL_NONE: int := 9999

  const KnownNames: set<string> := {"NOTSET", "DEBUG", "INFO", "WARN", "WARNING", "ERROR", "CRITICAL", "FATAL", "NONE"}
  const KnownLevels: set<int> := {0, 10, 20, 30, 40, 50, 9999}

  /** `get_logging_level_value`: the number of a level name, -1 for any other string. */
  function LevelValue(name: string): (v: int)
    ensures v >= 0 <==> name in KnownNames
    ensures v >= 0 ==> v in KnownLevels
    ensures v < 0 ==> v == -1
  {
    if name == "NOTSET" then NOTSET
    else if name == "DEBUG" then DEBUG
    else if name == "INFO" then INFO
    else if name == "WARN" || name == "WARNING" then WARNING
    else if name == "ERROR" then ERROR
    else if name == "CRITICAL" || name == "FATAL" then CRITICAL
    else if name == "NONE" then LEVEL_NONE
    else -1
  }

  /** `logging.getLevelName(level)` for a number: the registered name, else `Level <n>`. */
  function LevelName(level: int): (name: string)
    ensures level in KnownLevels ==> name in KnownNames
  {
    if level == NOTSET then "NOTSET"
    else if level == DEBUG then "DEBUG"
    else if level == INFO then "INFO"
    else if level == WARNING then "WARNING"
    else if level == ERROR then "ERROR"
    else if level == CRITICAL then "CRITICAL"
    else if level == LEVEL_NONE then "NONE"
    else "Level " + Text.IntToString(level)
  }

  /** Name and number translate into each other for every registered level. */
  lemma LevelNameRoundTrip(level: int)
    ensures level in KnownLevels ==> LevelValue(LevelName(level)) == level
    ensures level !in KnownLevels ==> LevelValue(LevelName(level)) == -1
  {
    if level !in KnownLevels {
      var n := LevelName(level);
      assert n[0] == 'L';
    }
  }

  /** A configuration value: a string, an integer, or anything else (`null`, a
      list, an object), carried with its `str()` rendering. */
  datatype CfgVal = CfgStr(s: string) | CfgInt(i: int) | CfgOther(repr: string)

  /** `str(value)`. */
  function CfgText(v: CfgVal): string {
    match v
    case CfgStr(s) => s
    case CfgInt(i) => Text.IntToString(i)
    case CfgOther(repr) => repr
  }

  /** `get_logging_level_value` on a configuration value. `getLevelName` maps a
      number to its name, and `int()` of a name fails, so only strings resolve. */
  function CfgLevelValue(v: CfgVal): (r: int)
    ensures r >= 0 <==> v.CfgStr? && v.s in KnownNames
  {
    if v.CfgStr? then LevelValue(v.s) else -1
  }

  /** Appends `msg` to an error string, with `", "` only after an existing message
      (`None` and `""` are both represented as `""`). */
  function AppendError(errStr: string, msg: string): (r: string)
    ensures errStr == "" ==> r == msg
    ensures errStr != "" ==> r == errStr + ", " + msg
  {
    (if errStr != "" then errStr + ", " else "") + msg
  }

  function InvalidLevelMessage(item: string, value: CfgVal): string {
    "Invalid log-level name specified for '" + item + "': " + CfgText(value)
  }

  /** `get_logging_level_for_item`: the configured level of `item`, or
      `defLevel` plus one more message in the error string. */
  function LevelForItem(config: map<string, CfgVal>, item: string, errStr: string, defLevel: int): (r: (int, string))
    requires item in config
    ensures CfgLevelValue(config[item]) >= 0 ==> r == (CfgLevelValue(config[item]), errStr)
    ensures CfgLevelValue(config[item]) < 0 ==> r.0 == defLevel
    ensures CfgLevelValue(config[item]) < 0 && errStr == "" ==> r.1 == InvalidLevelMessage(item, config[item])
    ensures CfgLevelValue(config[item]) < 0 && errStr != "" ==> r.1 == errStr + ", " + InvalidLevelMessage(item, config[item])
  {
    var lvl := CfgLevelValue(config[item]);
    if lvl < 0 then (defLevel, AppendError(errStr, InvalidLevelMessage(item, config[item])))
    else (lvl, errStr)
  }
}
