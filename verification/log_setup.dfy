/** The decision rules of `later_stage_setup` and `delete_old_log_files`: which
    handlers are enabled at which level, the root logger's level, which old
    log files are deleted, and which configuration errors are reported. The
    log directory is given as the list of its log files, oldest first. */
module LogSetup {
  import opened Wrappers
  import Text
  import opened LogLevels

  const CONSOLE_LEVEL: string := "CONSOLE_LEVEL"
  const SYSLOG_LEVEL: string := "SYSLOG_LEVEL"
  const FILELOG_LEVEL: string := "FILELOG_LEVEL"
  const FILELOG_NUM_KEEP: string := "FILELOG_NUM_KEEP"
  const CONSOLE_STREAM: string := "CONSOLE_STREAM"

  /** `DEF_FILELOG_NUM_KEEP`. */
  const DefaultNumKeep: int := 30

  /** The defaults `later_stage_setup` starts from before applying the user's configuration. */
  const DefaultConfig: map<string, CfgVal> := map[
    CONSOLE_LEVEL := CfgStr("INFO"),
    SYSLOG_LEVEL := CfgStr("NONE"),
    FILELOG_LEVEL := CfgStr("INFO"),
    FILELOG_NUM_KEEP := CfgInt(DefaultNumKeep),
    CONSOLE_STREAM := CfgStr("stdout")]

  /** A handler configured at `level` is created at all. */
  predicate Enabled(level: int) {
    0 < level < LEVEL_NONE
  }

  /** Python's `files[:-k]` for `k >= 0`; note that `files[:-0]` is empty. */
  function DropLast(files: seq<string>, k: nat): (r: seq<string>)
    ensures k == 0 ==> r == []
    ensures k > 0 ==> r == files[..if |files| > k then |files| - k else 0]
  {
    if k == 0 then [] else if |files| > k then files[..|files| - k] else []
  }

  /** The files deleted when `keep` older files may stay beside the new one. */
  function OldestBeyond(files: seq<string>, keep: nat): (r: seq<string>)
    ensures |r| == if |files| > keep then |files| - keep else 0
    ensures r == files[..|r|]
  {
    if |files| > keep then (if keep > 0 then DropLast(files, keep) else files) else []
  }

  /** What `delete_old_log_files` deletes, and the error string it returns. */
  datatype Deletion = Deletion(deleted: seq<string>, errStr: string)

  function KeepMessage(value: string): string {
    "Value for '" + FILELOG_NUM_KEEP + "' in configuration is invalid: " + value
  }

  /** `int(num_keep_val)` succeeded with `n`. */
  function DeleteForCount(n: int, files: seq<string>, errStr: string): (d: Deletion)
    ensures n > 0 ==> |d.deleted| == (if |files| > n - 1 then |files| - (n - 1) else 0)
    ensures n > 0 ==> d.errStr == errStr && d.deleted == files[..|d.deleted|]
    ensures n > 0 ==> |files| - |d.deleted| == (if |files| < n - 1 then |files| else n - 1)
    ensures n == 0 ==> d == Deletion([], errStr)
    ensures n < 0 ==> d == Deletion([], AppendError(errStr, KeepMessage(Text.IntToString(n))))
  {
    if n > 0 then Deletion(OldestBeyond(files, n - 1), errStr)
    else if n < 0 then Deletion([], AppendError(errStr, KeepMessage(Text.IntToString(n))))
    else Deletion([], errStr)
  }

  /** `delete_old_log_files`. A value `int()` rejects with `ValueError` is
      reported; one it rejects with `TypeError` (`null`, a list, an object) is
      only printed. */
  function DeleteOldLogFiles(numKeep: CfgVal, files: seq<string>, errStr: string): (d: Deletion)
    ensures numKeep.CfgOther? ==> d == Deletion([], errStr)
    ensures numKeep.CfgStr? && Text.ParseInt(numKeep.s).None? ==> d == Deletion([], AppendError(errStr, KeepMessage(numKeep.s)))
    ensures numKeep.CfgInt? ==> d == DeleteForCount(numKeep.i, files, errStr)
    ensures numKeep.CfgStr? && Text.ParseInt(numKeep.s).Some? ==> d == DeleteForCount(Text.ParseInt(numKeep.s).value, files, errStr)
    ensures |d.deleted| <= |files| && d.deleted == files[..|d.deleted|]
  {
    match numKeep
    case CfgOther(_) => Deletion([], errStr)
    case CfgInt(n) => DeleteForCount(n, files, errStr)
    case CfgStr(s) =>
      match Text.ParseInt(s)
      case None => Deletion([], AppendError(errStr, KeepMessage(s)))
      case Some(n) => DeleteForCount(n, files, errStr)
  }

  /** Keeping one file deletes every old file: the new log file is the one kept. */
  lemma KeepOneDeletesAll(files: seq<string>, errStr: string)
    ensures DeleteOldLogFiles(CfgInt(1), files, errStr) == Deletion(files, errStr)
  {
  }

  datatype HandlerKind = Console | SysLog | FileLog | Socket

  /** A destination handler and its level. */
  datatype Handler = Handler(kind: HandlerKind, level: int)

  /** The level `get_logging_level_for_item` settles on for `item`. */
  function ConfiguredLevel(config: map<string, CfgVal>, item: string, defLevel: int): (lvl: int)
    requires item in config
    ensures CfgLevelValue(config[item]) >= 0 ==> lvl == CfgLevelValue(config[item])
    ensures CfgLevelValue(config[item]) < 0 ==> lvl == defLevel
  {
    LevelForItem(config, item, "", defLevel).0
  }

  /** The handler list after one more configuration item. */
  function AddIfEnabled(handlers: seq<Handler>, kind: HandlerKind, level: int): (r: seq<Handler>)
    ensures handlers <= r
    ensures Enabled(level) <==> |r| == |handlers| + 1
    ensures !Enabled(level) ==> r == handlers
    ensures Enabled(level) ==> r[|handlers|] == Handler(kind, level)
  {
    if Enabled(level) then handlers + [Handler(kind, level)] else handlers
  }

  /** `min_level`: starts at CRITICAL and drops to each lower enabled level. */
  function MinLevel(handlers: seq<Handler>): (m: int)
    ensures m <= CRITICAL
    ensures forall i :: 0 <= i < |handlers| ==> m <= handlers[i].level
    ensures m == CRITICAL || exists i :: 0 <= i < |handlers| && m == handlers[i].level
  {
    if |handlers| == 0 then CRITICAL
    else
      var rest := MinLevel(handlers[..|handlers| - 1]);
      var last := handlers[|handlers| - 1].level;
      if last < rest then last else rest
  }

  /** Everything `later_stage_setup` decides before it raises or installs handlers. */
  datatype Plan = Plan(
    handlers: seq<Handler>,
    rootLevel: int,
    socketLevel: int,
    deleted: seq<string>,
    errStr: string,
    consoleOn: bool,
    fileOn: bool)

  function EffectiveConfig(user: map<string, CfgVal>): (config: map<string, CfgVal>)
    ensures CONSOLE_LEVEL in config && SYSLOG_LEVEL in config && FILELOG_LEVEL in config
    ensures FILELOG_NUM_KEEP in config && CONSOLE_STREAM in config
    ensures forall k :: k in user ==> k in config && config[k] == user[k]
    ensures forall k :: k in DefaultConfig && k !in user ==> k in config && config[k] == DefaultConfig[k]
    ensures config.Keys == DefaultConfig.Keys + user.Keys
  {
    DefaultConfig + user
  }

  /** The levels `later_stage_setup` settles on for the three destinations. */
  function ConsoleLevel(user: map<string, CfgVal>): int {
    ConfiguredLevel(EffectiveConfig(user), CONSOLE_LEVEL, INFO)
  }

  function SysLogLevel(user: map<string, CfgVal>): int {
    ConfiguredLevel(EffectiveConfig(user), SYSLOG_LEVEL, NOTSET)
  }

  function FileLogLevel(user: map<string, CfgVal>): int {
    ConfiguredLevel(EffectiveConfig(user), FILELOG_LEVEL, INFO)
  }

  /** The error string after the three levels have been read, in console,
      syslog, file order. */
  function LevelErrors(user: map<string, CfgVal>): (e: string)
    ensures e == "" <==> LevelsAccepted(user)
  {
    var config := EffectiveConfig(user);
    var r1 := LevelForItem(config, CONSOLE_LEVEL, "", INFO);
    var r2 := LevelForItem(config, SYSLOG_LEVEL, r1.1, NOTSET);
    LevelForItem(config, FILELOG_LEVEL, r2.1, INFO).1
  }

  /** The handler of one kind, present only when its level is enabled. */
  function IfEnabled(kind: HandlerKind, level: int): seq<Handler> {
    if Enabled(level) then [Handler(kind, level)] else []
  }

  /** The handlers created for the three levels, in console, syslog, file order. */
  function Handlers(c: int, s: int, f: int): (hs: seq<Handler>)
    ensures hs == IfEnabled(Console, c) + IfEnabled(SysLog, s) + IfEnabled(FileLog, f)
    ensures forall i :: 0 <= i < |hs| ==> Enabled(hs[i].level)
    ensures Handler(Console, c) in hs <==> Enabled(c)
    ensures Handler(SysLog, s) in hs <==> Enabled(s)
    ensures Handler(FileLog, f) in hs <==> Enabled(f)
    ensures forall i :: 0 <= i < |hs| ==> hs[i] in [Handler(Console, c), Handler(SysLog, s), Handler(FileLog, f)]
  {
    AddIfEnabled(AddIfEnabled(AddIfEnabled([], Console, c), SysLog, s), FileLog, f)
  }

  /** The decisions of `later_stage_setup` for user configuration `user` and
      old log files `files` (oldest first). */
  function PlanSetup(user: map<string, CfgVal>, files: seq<string>): (p: Plan)
    ensures p.consoleOn == Enabled(ConsoleLevel(user))
    ensures p.fileOn == Enabled(FileLogLevel(user))
    ensures p.handlers == Handlers(ConsoleLevel(user), SysLogLevel(user), FileLogLevel(user))
    ensures p.socketLevel == if p.fileOn then FileLogLevel(user) else NOTSET
    ensures !p.fileOn ==> p.deleted == []
    ensures p.rootLevel <= CRITICAL
    ensures forall i :: 0 <= i < |p.handlers| ==> p.rootLevel <= p.handlers[i].level
    ensures p.rootLevel == CRITICAL || exists i :: 0 <= i < |p.handlers| && p.rootLevel == p.handlers[i].level
  {
    var f := FileLogLevel(user);
    var e := LevelErrors(user);
    var del := if Enabled(f) then DeleteOldLogFiles(EffectiveConfig(user)[FILELOG_NUM_KEEP], files, e) else Deletion([], e);
    var handlers := Handlers(ConsoleLevel(user), SysLogLevel(user), f);
    Plan(handlers, MinLevel(handlers), if Enabled(f) then f else NOTSET, del.deleted, del.errStr, Enabled(ConsoleLevel(user)), Enabled(f))
  }

  /** The retention value is one `delete_old_log_files` accepts without complaint. */
  predicate KeepAccepted(v: CfgVal) {
    match v
    case CfgOther(_) => true
    case CfgInt(n) => n >= 0
    case CfgStr(s) => Text.ParseInt(s).Some? && Text.ParseInt(s).value >= 0
  }

  /** Every configured level is a known name. */
  predicate LevelsAccepted(user: map<string, CfgVal>) {
    var config := EffectiveConfig(user);
    && CfgLevelValue(config[CONSOLE_LEVEL]) >= 0
    && CfgLevelValue(config[SYSLOG_LEVEL]) >= 0
    && CfgLevelValue(config[FILELOG_LEVEL]) >= 0
  }

  lemma AppendErrorNonEmpty(errStr: string, msg: string)
    requires msg != ""
    ensures AppendError(errStr, msg) != ""
  {
  }

  /** Setup reports an error exactly when a level name is unknown or, with
      the log file enabled, the retention count is not a non-negative integer. */
  lemma PlanErrorIffRejected(user: map<string, CfgVal>, files: seq<string>)
    ensures PlanSetup(user, files).errStr == ""
      <==> LevelsAccepted(user) && (Enabled(FileLogLevel(user)) ==> KeepAccepted(EffectiveConfig(user)[FILELOG_NUM_KEEP]))
  {
    PlanErrStr(user, files);
    if Enabled(FileLogLevel(user)) {
      DeletionErrorIffRejected(EffectiveConfig(user)[FILELOG_NUM_KEEP], files, LevelErrors(user));
    }
  }

  /** `delete_old_log_files` leaves the error string empty exactly when it was
      empty and the retention value is accepted. */
  lemma DeletionErrorIffRejected(v: CfgVal, files: seq<string>, e: string)
    ensures DeleteOldLogFiles(v, files, e).errStr == "" <==> e == "" && KeepAccepted(v)
  {
    var d := DeleteOldLogFiles(v, files, e);
    assert d.errStr == "" <==> e == "" && KeepAccepted(v);
  }

  /** The plan's error string: the level errors, extended by the retention
      check when the log file is enabled. */
  lemma PlanErrStr(user: map<string, CfgVal>, files: seq<string>)
    ensures PlanSetup(user, files).errStr
            == if Enabled(FileLogLevel(user))
               then DeleteOldLogFiles(EffectiveConfig(user)[FILELOG_NUM_KEEP], files, LevelErrors(user)).errStr
               else LevelErrors(user)
  {
  }

  /** With the log file enabled and a positive integer retention count `n`,
      setup deletes the oldest files so that `n - 1` remain beside the new one. */
  lemma PlanDeletesOldest(user: map<string, CfgVal>, files: seq<string>, n: int)
    requires Enabled(FileLogLevel(user)) && EffectiveConfig(user)[FILELOG_NUM_KEEP] == CfgInt(n) && n > 0
    ensures var d := PlanSetup(user, files).deleted;
      |d| == (if |files| > n - 1 then |files| - (n - 1) else 0) && d == files[..|d|]
  {
  }

  /** The logging configuration that `later_stage_setup` installs. */
  datatype Setup = Setup(handlers: seq<Handler>, rootLevel: int, socketLevel: int, deleted: seq<string>)

  /** `ValueError` carrying the message, or, as written, the `UnboundLocalError`
      raised when the error path reads `hdlr_obj` although no console or file
      handler assigned it. */
  datatype SetupError = ConfigError(msg: string) | UnboundHandler

  const ErrorHeader: string := "Logging configuration error: "

  /** `later_stage_setup` as written. */
  function LaterStageSetupAsWritten(user: map<string, CfgVal>, files: seq<string>): (r: Result<Setup, SetupError>)
    ensures r.Failure? <==> PlanSetup(user, files).errStr != ""
    ensures r == Failure(UnboundHandler) <==>
      PlanSetup(user, files).errStr != "" && !PlanSetup(user, files).consoleOn && !PlanSetup(user, files).fileOn
    ensures r.Success? ==> r == LaterStageSetup(user, files)
    ensures r != Failure(UnboundHandler) ==> r == LaterStageSetup(user, files)
  {
    var p := PlanSetup(user, files);
    if p.errStr != "" then
      if !p.consoleOn && !p.fileOn then Failure(UnboundHandler)
      else Failure(ConfigError(ErrorHeader + p.errStr))
    else Success(Setup(p.handlers, p.rootLevel, p.socketLevel, p.deleted))
  }

  /** `later_stage_setup` with `hdlr_obj` bound on every path: any accumulated
      configuration error is raised as one message. */
  function LaterStageSetup(user: map<string, CfgVal>, files: seq<string>): (r: Result<Setup, SetupError>)
    ensures r.Failure? <==> PlanSetup(user, files).errStr != ""
    ensures r.Failure? ==> r.error == ConfigError(ErrorHeader + PlanSetup(user, files).errStr)
    ensures r.Success? ==> r.value.rootLevel <= CRITICAL
    ensures r.Success? ==> forall i :: 0 <= i < |r.value.handlers| ==>
      Enabled(r.value.handlers[i].level) && r.value.rootLevel <= r.value.handlers[i].level
  {
    var p := PlanSetup(user, files);
    if p.errStr != "" then Failure(ConfigError(ErrorHeader + p.errStr))
    else Success(Setup(p.handlers, p.rootLevel, p.socketLevel, p.deleted))
  }

  lemma DefaultLevels()
    ensures ConsoleLevel(map[]) == INFO
    ensures SysLogLevel(map[]) == LEVEL_NONE
    ensures FileLogLevel(map[]) == INFO
    ensures LevelsAccepted(map[])
  {
    assert EffectiveConfig(map[]) == DefaultConfig;
    assert LevelValue("INFO") == INFO;
    assert LevelValue("NONE") == LEVEL_NONE;
  }

  lemma DefaultHandlers()
    ensures Handlers(INFO, LEVEL_NONE, INFO) == [Handler(Console, INFO), Handler(FileLog, INFO)]
  {
  }

  /** The default configuration: console and log file at INFO, no syslog, root at INFO. */
  lemma DefaultSetup(files: seq<string>)
    ensures LaterStageSetup(map[], files).Success?
    ensures LaterStageSetup(map[], files).value.handlers == [Handler(Console, INFO), Handler(FileLog, INFO)]
    ensures LaterStageSetup(map[], files).value.rootLevel == INFO
  {
    DefaultLevels();
    DefaultHandlers();
    PlanErrorIffRejected(map[], files);
    assert DefaultConfig[FILELOG_NUM_KEEP] == CfgInt(30);
    assert EffectiveConfig(map[]) == DefaultConfig;
  }

  /** The configuration of the counterexample below. */
  const BadSysLogOnly: map<string, CfgVal> :=
    map[CONSOLE_LEVEL := CfgStr("NONE"), SYSLOG_LEVEL := CfgStr("BOGUS"), FILELOG_LEVEL := CfgStr("NONE")]

  lemma BadSysLogOnlyConfig()
    ensures EffectiveConfig(BadSysLogOnly)[CONSOLE_LEVEL] == CfgStr("NONE")
    ensures EffectiveConfig(BadSysLogOnly)[SYSLOG_LEVEL] == CfgStr("BOGUS")
    ensures EffectiveConfig(BadSysLogOnly)[FILELOG_LEVEL] == CfgStr("NONE")
  {
  }

  lemma NoneAndBogusLevels()
    ensures CfgLevelValue(CfgStr("NONE")) == LEVEL_NONE
    ensures CfgLevelValue(CfgStr("BOGUS")) == -1
  {
    assert LevelValue("NONE") == LEVEL_NONE;
    assert LevelValue("BOGUS") == -1;
  }

  lemma BadSysLogOnlyLevels()
    ensures ConsoleLevel(BadSysLogOnly) == LEVEL_NONE && FileLogLevel(BadSysLogOnly) == LEVEL_NONE
    ensures LevelErrors(BadSysLogOnly) == InvalidLevelMessage(SYSLOG_LEVEL, CfgStr("BOGUS"))
  {
    BadSysLogOnlyConfig();
    NoneAndBogusLevels();
  }

  lemma BadSysLogOnlyPlan(files: seq<string>)
    ensures PlanSetup(BadSysLogOnly, files).errStr == InvalidLevelMessage(SYSLOG_LEVEL, CfgStr("BOGUS"))
    ensures !PlanSetup(BadSysLogOnly, files).consoleOn && !PlanSetup(BadSysLogOnly, files).fileOn
  {
    BadSysLogOnlyLevels();
  }

  /** An invalid syslog level with console and log file both switched off:
      as written the error path fails on the unbound handler variable and the
      message is lost; bound, it raises the configuration error. */
  lemma UnboundHandlerCounterexample(files: seq<string>)
    ensures LaterStageSetupAsWritten(BadSysLogOnly, files) == Failure(UnboundHandler)
    ensures LaterStageSetup(BadSysLogOnly, files)
         == Failure(ConfigError(ErrorHeader + InvalidLevelMessage(SYSLOG_LEVEL, CfgStr("BOGUS"))))
  {
    BadSysLogOnlyPlan(files);
  }
}
