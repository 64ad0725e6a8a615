/** The log record value: construction with first-error extraction, cloning, exception text. */
module LogRecords {
  import opened Wrappers

  /**
   * A point in time as the host clock reports it: milliseconds since the epoch and the
   * host's renderings (`toISOString`, `toLocaleString`, `toTimeString`), which the model
   * takes as given.
   */
  datatype Instant = Instant(millis: int, iso: string, locale: string, timeText: string)

  /** Snapshot of an error value: its name, message and optional stack trace. */
  datatype ExcInfo = ExcInfo(name: string, message: string, stack: Option<string>)

  /** A positional argument; `ErrorValue` tags the argument values that are `instanceof Error`. */
  datatype Arg =
    | Plain(repr: string)
    | ErrorValue(name: string, message: string, stack: Option<string>)

  /** The `extra` mapping as its entries in enumeration order, each value as its JSON text. */
  type Extra = seq<(string, string)>

  datatype LogRecord = LogRecord(
    name: string,
    level: int,
    levelName: string,
    message: string,
    timestamp: Instant,
    args: seq<Arg>,
    extra: Option<Extra>,
    excInfo: Option<ExcInfo>)

  function ExcInfoOf(a: Arg): ExcInfo
    requires a.ErrorValue?
  {
    ExcInfo(a.name, a.message, a.stack)
  }

  /** `args.find(arg => arg instanceof Error)`, as exception info: the first error wins. */
  function FirstError(args: seq<Arg>): (r: Option<ExcInfo>)
    ensures r.None? <==> forall i :: 0 <= i < |args| ==> !args[i].ErrorValue?
    ensures r.Some? ==> exists i :: 0 <= i < |args| && args[i].ErrorValue? && r.value == ExcInfoOf(args[i]) &&
                                    forall j :: 0 <= j < i ==> !args[j].ErrorValue?
  {
    if |args| == 0 then None
    else if args[0].ErrorValue? then Some(ExcInfoOf(args[0]))
    else
      var r := FirstError(args[1..]);
      assert forall i :: 1 <= i < |args| ==> args[i] == args[1..][i - 1];
      r
  }

  /** A new record; `now` is the creation time read from the clock. */
  function CreateLogRecord(name: string, level: int, levelName: string, message: string,
                           args: seq<Arg>, extra: Option<Extra>, now: Instant): (r: LogRecord)
    ensures r.name == name && r.level == level && r.levelName == levelName && r.message == message
    ensures r.args == args && r.timestamp == now
    ensures r.extra == extra
    ensures r.excInfo == FirstError(args)
  {
    LogRecord(name, level, levelName, message, now, args, extra, FirstError(args))
  }

  /** A record carries exception info exactly when one of its arguments is an error. */
  lemma CreatedRecordHasException(name: string, level: int, levelName: string, message: string,
                                   args: seq<Arg>, extra: Option<Extra>, now: Instant)
    ensures HasException(CreateLogRecord(name, level, levelName, message, args, extra, now))
        <==> exists i :: 0 <= i < |args| && args[i].ErrorValue?
  {
  }

  /** Exception info comes from the earliest error argument, whatever follows it. */
  lemma {:induction false} FirstErrorOfPrefix(before: seq<Arg>, e: Arg, after: seq<Arg>)
    requires e.ErrorValue?
    requires forall i :: 0 <= i < |before| ==> !before[i].ErrorValue?
    ensures FirstError(before + [e] + after) == Some(ExcInfoOf(e))
  {
    if |before| > 0 {
      assert (before + [e] + after)[1..] == before[1..] + [e] + after;
      FirstErrorOfPrefix(before[1..], e, after);
    }
  }

  /** `Partial<LogRecord>`: each field may be overridden. */
  datatype Overrides = Overrides(
    name: Option<string>,
    level: Option<int>,
    levelName: Option<string>,
    message: Option<string>,
    timestamp: Option<Instant>,
    args: Option<seq<Arg>>,
    extra: Option<Extra>,
    excInfo: Option<ExcInfo>)

  const NoOverrides: Overrides := Overrides(None, None, None, None, None, None, None, None)

  /**
   * A copy of `record` with the scalar overrides applied; `args`, `extra` and `excInfo`
   * always come from the original (they are written after the spread of the overrides).
   */
  function CloneLogRecord(record: LogRecord, overrides: Overrides := NoOverrides): (r: LogRecord)
    ensures r.name == overrides.name.GetOr(record.name)
    ensures r.level == overrides.level.GetOr(record.level)
    ensures r.levelName == overrides.levelName.GetOr(record.levelName)
    ensures r.message == overrides.message.GetOr(record.message)
    ensures r.timestamp == overrides.timestamp.GetOr(record.timestamp)
    ensures r.args == record.args && r.extra == record.extra && r.excInfo == record.excInfo
  {
    LogRecord(
      overrides.name.GetOr(record.name),
      overrides.level.GetOr(record.level),
      overrides.levelName.GetOr(record.levelName),
      overrides.message.GetOr(record.message),
      overrides.timestamp.GetOr(record.timestamp),
      record.args, record.extra, record.excInfo)
  }

  /** A clone without overrides equals the original. */
  lemma CloneWithoutOverrides(record: LogRecord)
    ensures CloneLogRecord(record) == record
  {
  }

  /** Overrides of `args`, `extra` and `excInfo` have no effect. */
  lemma CloneIgnoresCollectionOverrides(record: LogRecord, o: Overrides)
    ensures CloneLogRecord(record, o) == CloneLogRecord(record, o.(args := None, extra := None, excInfo := None))
  {
  }

  /** Exception info is present; `GetExceptionString` then always has a text for it. */
  predicate HasException(record: LogRecord): (b: bool)
    ensures b <==> GetExceptionString(record).Some?
  {
    record.excInfo.Some?
  }

  /** The stack when present and non-empty, otherwise "name: message"; None without exception info. */
  function GetExceptionString(record: LogRecord): (r: Option<string>)
    ensures r.None? <==> record.excInfo.None?
    ensures record.excInfo.Some? && record.excInfo.value.stack.Some? && record.excInfo.value.stack.value != ""
            ==> r == record.excInfo.value.stack
    ensures record.excInfo.Some? && (record.excInfo.value.stack.None? || record.excInfo.value.stack.value == "")
            ==> r == Some(record.excInfo.value.name + ": " + record.excInfo.value.message)
  {
    match record.excInfo
    case None => None
    case Some(ExcInfo(name, message, stack)) =>
      if stack.Some? && stack.value != "" then stack else Some(name + ": " + message)
  }
}
