/** The fixed-layout formatters: basic ("LEVEL:name:message"), simple and message-only. */
module BasicFormatters {
  import opened LogRecords
  import opened Strings

  /** A formatter turns a record into its line of text. */
  type Formatter = LogRecord -> string

  /** `basicFormatter`: level name, logger name and message, separated by colons. */
  function BasicFormatter(r: LogRecord): (line: string)
    ensures |line| == |r.levelName| + |r.name| + |r.message| + 2
    ensures r.levelName <= line
  {
    r.levelName + ":" + r.name + ":" + r.message
  }

  /** `simpleFormatter`: level name, a colon and a space, then the message. */
  function SimpleFormatter(r: LogRecord): (line: string)
    ensures |line| == |r.levelName| + 2 + |r.message|
    ensures line[..|r.levelName|] == r.levelName && line[|r.levelName|..|r.levelName| + 2] == ": "
    ensures line[|r.levelName| + 2..] == r.message
  {
    r.levelName + ": " + r.message
  }

  /** `messageOnlyFormatter`: the message alone. */
  function MessageOnlyFormatter(r: LogRecord): (line: string)
    ensures line == BasicFormatter(r)[|r.levelName| + |r.name| + 2..]
    ensures line == SimpleFormatter(r)[|r.levelName| + 2..]
  {
    r.message
  }

  /**
   * The basic layout can be read back: when neither the level name nor the logger name
   * holds a colon, splitting the line at colons gives them back, followed by the
   * message's own pieces (the message may contain colons).
   */
  lemma BasicFormatterSplits(r: LogRecord)
    requires ':' !in r.levelName && ':' !in r.name
    ensures Split(BasicFormatter(r), ':') == [r.levelName, r.name] + Split(r.message, ':')
    ensures Join(Split(r.message, ':'), ":") == r.message
  {
    var s := BasicFormatter(r);
    assert s == r.levelName + [':'] + (r.name + [':'] + r.message);
    SplitAtSep(r.levelName, r.name + [':'] + r.message, ':');
    SplitAtSep(r.name, r.message, ':');
    JoinSplit(r.message, ':');
  }

  /**
   * The simple layout can be read back: when the level name holds no colon, the text
   * before the first colon is the level name and the text after the colon and the
   * space is the message.
   */
  lemma SimpleFormatterSplits(r: LogRecord)
    requires ':' !in r.levelName
    ensures var s, k := SimpleFormatter(r), IndexOf(SimpleFormatter(r), ':');
      k == |r.levelName| && s[..k] == r.levelName && s[k + 2..] == r.message
  {
    var s := SimpleFormatter(r);
    var n := |r.levelName|;
    assert s[n] == ':';
    assert s[..n] == r.levelName;
    assert forall j :: 0 <= j < n ==> s[j] == r.levelName[j];
    var k := IndexOf(s, ':');
    assert k >= 0 ==> k >= n;
    assert s[n + 2..] == r.message;
  }

  /** Each of the three formatters reads only the level name, the logger name and the message. */
  lemma FormattersReadOnlyNamedFields(r1: LogRecord, r2: LogRecord)
    requires r1.levelName == r2.levelName && r1.name == r2.name && r1.message == r2.message
    ensures BasicFormatter(r1) == BasicFormatter(r2)
    ensures SimpleFormatter(r1) == SimpleFormatter(r2)
    ensures MessageOnlyFormatter(r1) == MessageOnlyFormatter(r2)
  {
  }
}
