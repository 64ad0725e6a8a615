/**
 * The stream handler: the shared gate, then exactly one call of the injected `write`
 * with the formatted text and a newline; a formatter or write failure goes to the
 * `onError` callback when given and to the console's error channel otherwise.
 */
module StreamHandlers {
  import opened Wrappers
  import opened Levels
  import opened LogRecords
  import opened HandlerGates
  import opened ConsoleHandlers

  /** What the injected `write` does with a given text: returns (`None`) or throws `Some(error)`. */
  type WriteBehaviour = string -> Option<string>

  /** The options of `createStreamHandler`; `write` is required, `onError` is present or not. */
  datatype StreamConfig = StreamConfig(
    level: Option<int>,
    formatter: Option<FallibleFormatter>,
    filter: Option<RecordFilter>,
    write: WriteBehaviour,
    onError: bool)

  /** The settings the handler closure captures. */
  datatype StreamHandler = StreamHandler(
    level: int,
    formatter: FallibleFormatter,
    filter: Option<RecordFilter>,
    write: WriteBehaviour,
    hasOnError: bool)

  /** `createStreamHandler(config)`: the options resolved against their defaults. */
  function CreateStreamHandler(c: StreamConfig): (h: StreamHandler)
    ensures h.level == c.level.GetOr(0) && h.filter == c.filter && h.write == c.write && h.hasOnError == c.onError
    ensures c.formatter.Some? ==> h.formatter == c.formatter.value
    ensures c.formatter.None? ==> forall r :: h.formatter(r) == DefaultFormatter()(r)
  {
    StreamHandler(c.level.GetOr(0), c.formatter.GetOr(DefaultFormatter()), c.filter, c.write, c.onError)
  }

  /** The calls the handler makes on its own callbacks. */
  class StreamCalls {
    /** The argument of each `write` call, oldest first. */
    var writes: seq<string>
    /** The error passed to each `onError` call, oldest first. */
    var reportedErrors: seq<string>

    constructor ()
      ensures writes == [] && reportedErrors == []
    {
      writes, reportedErrors := [], [];
    }
  }

  /** The prefix of the diagnostic printed when there is no `onError`. */
  const STREAM_ERROR_PREFIX := "Stream handler error:"

  /**
   * The error the handler catches on `r`, if any: the formatter's, or else the one the
   * single write throws.
   */
  function CaughtError(h: StreamHandler, r: LogRecord): (e: Option<string>)
    ensures h.formatter(r).FormatThrew? ==> e == Some(h.formatter(r).error)
    ensures h.formatter(r).Formatted? ==> e == h.write(h.formatter(r).text + "\n")
  {
    match h.formatter(r)
    case FormatThrew(err) => Some(err)
    case Formatted(text) => h.write(text + "\n")
  }

  /**
   * The handler closure on `r`: nothing for a record the gate drops; otherwise one write
   * of the formatted text and a newline (none if formatting threw), and a caught error
   * goes to `onError`, or to the console's error channel without one. It never throws.
   */
  method Handle(h: StreamHandler, r: LogRecord, calls: StreamCalls, console: Console)
    modifies calls, console
    ensures !Admits(h.level, h.filter, r) ==>
      calls.writes == old(calls.writes) && calls.reportedErrors == old(calls.reportedErrors) &&
      console.errors == old(console.errors)
    ensures Admits(h.level, h.filter, r) ==>
      calls.writes == old(calls.writes) + (if h.formatter(r).Formatted? then [h.formatter(r).text + "\n"] else [])
    ensures Admits(h.level, h.filter, r) && CaughtError(h, r).None? ==>
      calls.reportedErrors == old(calls.reportedErrors) && console.errors == old(console.errors)
    ensures Admits(h.level, h.filter, r) && CaughtError(h, r).Some? && h.hasOnError ==>
      calls.reportedErrors == old(calls.reportedErrors) + [CaughtError(h, r).value] &&
      console.errors == old(console.errors)
    ensures Admits(h.level, h.filter, r) && CaughtError(h, r).Some? && !h.hasOnError ==>
      calls.reportedErrors == old(calls.reportedErrors) &&
      console.errors == old(console.errors) + [Line(STREAM_ERROR_PREFIX, [Plain(CaughtError(h, r).value)])]
    ensures console.warns == old(console.warns) && console.logs == old(console.logs)
  {
    if h.level > 0 && !IsLevelEnabled(h.level, r.level) {
      return;
    }
    if h.filter.Some? && !h.filter.value(r) {
      return;
    }
    var error: Option<string> := None;
    var outcome := h.formatter(r);
    match outcome {
      case FormatThrew(e) =>
        error := Some(e);
      case Formatted(formatted) =>
        calls.writes := calls.writes + [formatted + "\n"];
        error := h.write(formatted + "\n");
    }
    if error.Some? {
      if h.hasOnError {
        calls.reportedErrors := calls.reportedErrors + [error.value];
      } else {
        console.errors := console.errors + [Line(STREAM_ERROR_PREFIX, [Plain(error.value)])];
      }
    }
  }
}
