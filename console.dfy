/**
 * The console handler: the shared gate, then one line on the error, warn or log channel
 * of the host console chosen by the record's level; a formatter failure is reported on
 * the error channel instead. The console is modelled as three appended sequences.
 */
module ConsoleHandlers {
  import opened Wrappers
  import opened Levels
  import opened LogRecords
  import opened BasicFormatters
  import opened HandlerGates

  /** What a formatter call did: returned a text or threw an error (by its message). */
  datatype FormatOutcome = Formatted(text: string) | FormatThrew(error: string)

  /** A formatter as a handler calls it: it may throw. */
  type FallibleFormatter = LogRecord -> FormatOutcome

  /** `basicFormatter`, which never throws. */
  function DefaultFormatter(): (f: FallibleFormatter)
    ensures forall r :: f(r) == Formatted(BasicFormatter(r))
  {
    r => Formatted(BasicFormatter(r))
  }

  /** One console call: the first argument and the arguments spread after it. */
  datatype Line = Line(text: string, args: seq<Arg>)

  /** The host console's three channels, each the sequence of calls made on it. */
  class Console {
    var errors: seq<Line>
    var warns: seq<Line>
    var logs: seq<Line>

    constructor ()
      ensures errors == [] && warns == [] && logs == []
    {
      errors, warns, logs := [], [], [];
    }
  }

  datatype Channel = ErrorChannel | WarnChannel | LogChannel

  /**
   * The channel for a record at `level`: error for ERROR and above when `useStderr`,
   * otherwise warn for WARNING and above when `useWarn`, otherwise log.
   */
  function ChooseChannel(useStderr: bool, useWarn: bool, level: int): (c: Channel)
    ensures c == ErrorChannel <==> useStderr && level >= ERROR
    ensures c == WarnChannel <==> !(useStderr && level >= ERROR) && useWarn && level >= WARNING
    ensures c == LogChannel <==> !(useStderr && level >= ERROR) && !(useWarn && level >= WARNING)
  {
    if useStderr && level >= ERROR then ErrorChannel
    else if useWarn && level >= WARNING then WarnChannel
    else LogChannel
  }

  /** With both options on (the defaults) the channel follows the level bands. */
  lemma ChannelBands(level: int)
    ensures level >= ERROR ==> ChooseChannel(true, true, level) == ErrorChannel
    ensures WARNING <= level < ERROR ==> ChooseChannel(true, true, level) == WarnChannel
    ensures level < WARNING ==> ChooseChannel(true, true, level) == LogChannel
  {
  }

  /** Without `useStderr`, errors and critical records go to warn when `useWarn` is on. */
  lemma ErrorsToWarnWithoutStderr(level: int)
    requires level >= ERROR
    ensures ChooseChannel(false, true, level) == WarnChannel
    ensures ChooseChannel(false, false, level) == LogChannel
  {
  }

  /** The options of `createConsoleHandler`; a missing option takes its default. */
  datatype ConsoleConfig = ConsoleConfig(
    level: Option<int>,
    formatter: Option<FallibleFormatter>,
    filter: Option<RecordFilter>,
    useStderr: Option<bool>,
    useWarn: Option<bool>)

  /** The settings the handler closure captures. */
  datatype ConsoleHandler = ConsoleHandler(
    level: int,
    formatter: FallibleFormatter,
    filter: Option<RecordFilter>,
    useStderr: bool,
    useWarn: bool)

  /** `createConsoleHandler(config)`: the options resolved against their defaults. */
  function CreateConsoleHandler(c: ConsoleConfig): (h: ConsoleHandler)
    ensures h.level == c.level.GetOr(0) && h.filter == c.filter
    ensures h.useStderr == c.useStderr.GetOr(true) && h.useWarn == c.useWarn.GetOr(true)
    ensures c.formatter.Some? ==> h.formatter == c.formatter.value
    ensures c.formatter.None? ==> forall r :: h.formatter(r) == Formatted(BasicFormatter(r))
  {
    ConsoleHandler(c.level.GetOr(0), c.formatter.GetOr(DefaultFormatter()), c.filter,
                   c.useStderr.GetOr(true), c.useWarn.GetOr(true))
  }

  /** With no options the handler lets every record through and prints the basic layout. */
  lemma DefaultConsoleHandler(r: LogRecord)
    ensures var h := CreateConsoleHandler(ConsoleConfig(None, None, None, None, None));
      Admits(h.level, h.filter, r) && h.formatter(r) == Formatted(BasicFormatter(r)) &&
      h.useStderr && h.useWarn
  {
  }

  /** The prefix of the diagnostic printed when formatting fails. */
  const CONSOLE_ERROR_PREFIX := "Console handler error:"

  /**
   * The handler closure on `r`: nothing for a record the gate drops; otherwise the
   * formatted text with the record's arguments on the chosen channel, or, when the
   * formatter throws, the diagnostic on the error channel. It never throws.
   */
  method Handle(h: ConsoleHandler, r: LogRecord, console: Console)
    modifies console
    ensures !Admits(h.level, h.filter, r) ==>
      console.errors == old(console.errors) && console.warns == old(console.warns) && console.logs == old(console.logs)
    ensures Admits(h.level, h.filter, r) && h.formatter(r).Formatted? ==>
      var ch, line := ChooseChannel(h.useStderr, h.useWarn, r.level), Line(h.formatter(r).text, r.args);
      console.errors == old(console.errors) + (if ch == ErrorChannel then [line] else []) &&
      console.warns == old(console.warns) + (if ch == WarnChannel then [line] else []) &&
      console.logs == old(console.logs) + (if ch == LogChannel then [line] else [])
    ensures Admits(h.level, h.filter, r) && h.formatter(r).FormatThrew? ==>
      console.errors == old(console.errors) + [Line(CONSOLE_ERROR_PREFIX, [Plain(h.formatter(r).error)])] &&
      console.warns == old(console.warns) && console.logs == old(console.logs)
    ensures Admits(h.level, h.filter, r) ==>
      |console.errors| + |console.warns| + |console.logs| ==
      |old(console.errors)| + |old(console.warns)| + |old(console.logs)| + 1
  {
    if h.level > 0 && !IsLevelEnabled(h.level, r.level) {
      return;
    }
    if h.filter.Some? && !h.filter.value(r) {
      return;
    }
    var outcome := h.formatter(r);
    match outcome
    case FormatThrew(e) =>
      console.errors := console.errors + [Line(CONSOLE_ERROR_PREFIX, [Plain(e)])];
    case Formatted(formatted) =>
      if h.useStderr && r.level >= ERROR {
        console.errors := console.errors + [Line(formatted, r.args)];
      } else if h.useWarn && r.level >= WARNING {
        console.warns := console.warns + [Line(formatted, r.args)];
      } else {
        console.logs := console.logs + [Line(formatted, r.args)];
      }
  }
}
