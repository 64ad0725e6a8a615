/**
 * The detailed formatter: timestamp, level, logger name and message separated by " - ",
 * and its configurable variant that assembles the parts one at a time.
 */
module DetailedFormatters {
  import opened Wrappers
  import opened LogRecords
  import opened Strings

  /** The `timestampFormat` option. */
  datatype TimestampFormat = Iso | Locale | Short | Time

  /**
   * `formatTimestamp(date, format)`. The host renderings are the instant's fields; 'short'
   * and 'time' are derived from them by string operations.
   */
  function FormatTimestamp(t: Instant, format: TimestampFormat): (s: string)
    ensures format == Iso ==> s == t.iso
    ensures format == Locale ==> s == t.locale
    ensures format == Short ==> |s| == (if |t.iso| < 19 then |t.iso| else 19) && s <= ReplaceFirstChar(t.iso, 'T', ' ')
    ensures format == Short && 'T' !in t.iso ==> s <= t.iso
    ensures format == Time ==> |s| == (if |t.timeText| < 8 then |t.timeText| else 8) && s <= t.timeText
  {
    match format
    case Iso => t.iso
    case Locale => t.locale
    case Short => Take(ReplaceFirstChar(t.iso, 'T', ' '), 19)
    case Time => Take(t.timeText, 8)
  }

  /**
   * On an ISO rendering ("YYYY-MM-DDTHH:mm:ss.sssZ": a 'T' at index 10 and none before),
   * 'short' is the date, a space, and the time to the second.
   */
  lemma ShortTimestampOfIso(t: Instant)
    requires |t.iso| >= 19 && t.iso[10] == 'T' && 'T' !in t.iso[..10]
    ensures var s := FormatTimestamp(t, Short);
      |s| == 19 && s == t.iso[..10] + " " + t.iso[11..19]
  {
    var iso := t.iso;
    var k := IndexOf(iso, 'T');
    assert iso[..10] + [iso[10]] == iso[..11];
    assert k == 10;
    var replaced := iso[10 := ' '];
    assert replaced[..19] == iso[..10] + " " + iso[11..19];
  }

  /** `detailedFormatter`: ISO timestamp, level name, logger name and message joined by " - ". */
  function DetailedFormatter(r: LogRecord): (line: string)
    ensures |line| == |r.timestamp.iso| + |r.levelName| + |r.name| + |r.message| + 9
    ensures r.timestamp.iso <= line
  {
    FormatTimestamp(r.timestamp, Iso) + " - " + r.levelName + " - " + r.name + " - " + r.message
  }

  /** The options of `createDetailedFormatter`; a missing option takes its default. */
  datatype DetailedConfig = DetailedConfig(
    includeTimestamp: Option<bool>,
    timestampFormat: Option<TimestampFormat>,
    includeName: Option<bool>,
    includeLevel: Option<bool>,
    separator: Option<string>,
    includeExtra: Option<bool>)

  /** `createDetailedFormatter()` with no options. */
  const NoOptions := DetailedConfig(None, None, None, None, None, None)

  /** `Object.entries(extra).map(([k, v]) => k + "=" + JSON.stringify(v)).join(" ")`. */
  function ExtraText(extra: Extra): string {
    Join(seq(|extra|, i requires 0 <= i < |extra| => extra[i].0 + "=" + extra[i].1), " ")
  }

  /** Every entry renders with its "=", so the extra text is empty exactly when there are no entries. */
  lemma ExtraTextEmpty(extra: Extra)
    ensures ExtraText(extra) == "" <==> |extra| == 0
  {
    if |extra| > 0 {
      var entries := seq(|extra|, i requires 0 <= i < |extra| => extra[i].0 + "=" + extra[i].1);
      assert |entries[0]| > 0;
      JoinNonEmpty(entries, " ");
    }
  }

  /** The bracketed extra segment, when the options and the record call for one. */
  function ExtraPart(includeExtra: bool, r: LogRecord): (parts: seq<string>)
    ensures |parts| == 1 <==> includeExtra && r.extra.Some? && |r.extra.value| > 0
    ensures |parts| <= 1
  {
    if includeExtra && r.extra.Some? && ExtraText(r.extra.value) != "" then
      ["[" + ExtraText(r.extra.value) + "]"]
    else
      ExtraTextEmpty(if r.extra.Some? then r.extra.value else []);
      []
  }

  /**
   * The parts the configurable formatter joins, by option: the timestamp, the level name,
   * the logger name, always the message, and the extra segment, in that order.
   */
  function DetailedParts(c: DetailedConfig, r: LogRecord): (parts: seq<string>)
    ensures r.message in parts
  {
    (if c.includeTimestamp.GetOr(true) then [FormatTimestamp(r.timestamp, c.timestampFormat.GetOr(Iso))] else []) +
    (if c.includeLevel.GetOr(true) then [r.levelName] else []) +
    (if c.includeName.GetOr(true) then [r.name] else []) +
    [r.message] +
    ExtraPart(c.includeExtra.GetOr(false), r)
  }

  /**
   * The formatter `createDetailedFormatter(c)` returns, applied to `r`: it pushes the
   * parts one at a time and joins them with the separator.
   */
  method FormatDetailed(c: DetailedConfig, r: LogRecord) returns (s: string)
    ensures s == Join(DetailedParts(c, r), c.separator.GetOr(" - "))
  {
    var includeTimestamp := c.includeTimestamp.GetOr(true);
    var timestampFormat := c.timestampFormat.GetOr(Iso);
    var includeName := c.includeName.GetOr(true);
    var includeLevel := c.includeLevel.GetOr(true);
    var separator := c.separator.GetOr(" - ");
    var includeExtra := c.includeExtra.GetOr(false);
    var parts: seq<string> := [];
    if includeTimestamp {
      parts := parts + [FormatTimestamp(r.timestamp, timestampFormat)];
    }
    ghost var p1 := parts;
    if includeLevel {
      parts := parts + [r.levelName];
    }
    if includeName {
      parts := parts + [r.name];
    }
    parts := parts + [r.message];
    ghost var p3 := parts;
    assert p3 == p1 + (if includeLevel then [r.levelName] else []) +
                 (if includeName then [r.name] else []) + [r.message];
    if includeExtra && r.extra.Some? {
      var extraText := ExtraText(r.extra.value);
      if extraText != "" {
        parts := parts + ["[" + extraText + "]"];
      }
    }
    assert parts == p3 + ExtraPart(includeExtra, r);
    assert p1 == (if includeTimestamp then [FormatTimestamp(r.timestamp, timestampFormat)] else []);
    assert parts == DetailedParts(c, r);
    s := Join(parts, separator);
  }

  /** With every option at its default the configurable formatter is `detailedFormatter`. */
  lemma DefaultsAreDetailed(r: LogRecord)
    ensures Join(DetailedParts(NoOptions, r), " - ") == DetailedFormatter(r)
  {
    var ts, sep := FormatTimestamp(r.timestamp, Iso), " - ";
    assert DetailedParts(NoOptions, r) == [ts, r.levelName, r.name] + [r.message];
    assert [ts, r.levelName, r.name] == [ts, r.levelName] + [r.name];
    assert [ts, r.levelName] == [ts] + [r.levelName];
    JoinSnoc([ts], r.levelName, sep);
    JoinSnoc([ts, r.levelName], r.name, sep);
    JoinSnoc([ts, r.levelName, r.name], r.message, sep);
  }

  /**
   * The parts come in a fixed order: with every part included, the message is the fourth
   * and the extra segment, when present, the fifth and last.
   */
  lemma DetailedPartsOrder(c: DetailedConfig, r: LogRecord)
    requires c.includeTimestamp.GetOr(true) && c.includeLevel.GetOr(true) && c.includeName.GetOr(true)
    ensures var parts := DetailedParts(c, r);
      4 <= |parts| <= 5 &&
      parts[0] == FormatTimestamp(r.timestamp, c.timestampFormat.GetOr(Iso)) &&
      parts[1] == r.levelName && parts[2] == r.name && parts[3] == r.message &&
      (|parts| == 5 <==> c.includeExtra.GetOr(false) && r.extra.Some? && |r.extra.value| > 0)
  {
  }

  /** With only the message included the formatter prints the message alone. */
  lemma MessageOnlyParts(c: DetailedConfig, r: LogRecord)
    requires !c.includeTimestamp.GetOr(true) && !c.includeLevel.GetOr(true) && !c.includeName.GetOr(true)
    requires !c.includeExtra.GetOr(false)
    ensures Join(DetailedParts(c, r), c.separator.GetOr(" - ")) == r.message
  {
    assert DetailedParts(c, r) == [r.message];
  }
}
