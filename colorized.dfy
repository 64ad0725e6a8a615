/**
 * The colorized formatter: ANSI escape codes around each field. Whether colors are on
 * (the terminal check of the host) is an explicit input.
 */
module ColorizedFormatters {
  import opened Wrappers
  import opened LogRecords

  /** The escape character that starts every ANSI code. */
  const ESC: char := 27 as char

  const DEBUG_COLOR: string := [ESC] + "[37m"      // white
  const INFO_COLOR: string := [ESC] + "[36m"       // cyan
  const WARNING_COLOR: string := [ESC] + "[33m"    // yellow
  const ERROR_COLOR: string := [ESC] + "[31m"      // red
  const CRITICAL_COLOR: string := [ESC] + "[91m"   // bright red
  const RESET: string := [ESC] + "[0m"
  const BOLD: string := [ESC] + "[1m"
  const DIM: string := [ESC] + "[2m"
  const UNDERLINE: string := [ESC] + "[4m"

  /** The level colors used when none are configured, keyed by level name. */
  const DEFAULT_LEVEL_COLORS: map<string, string> := map[
    "DEBUG" := DEBUG_COLOR, "INFO" := INFO_COLOR, "WARNING" := WARNING_COLOR,
    "ERROR" := ERROR_COLOR, "CRITICAL" := CRITICAL_COLOR]

  /** `colorize(text, color, enabled)`: the text wrapped in the color and a reset, or left alone. */
  function Colorize(text: string, color: string, enabled: bool): (r: string)
    ensures !enabled ==> r == text
    ensures enabled ==> |r| == |color| + |text| + |RESET| && r[..|color|] == color &&
                        r[|color|..|color| + |text|] == text && r[|color| + |text|..] == RESET
  {
    if !enabled then text else color + text + RESET
  }

  /** The options of `createColorizedFormatter`, with `enabled` given explicitly. */
  datatype ColorConfig = ColorConfig(
    enabled: bool,
    levelColors: Option<map<string, string>>,
    timestampColor: Option<string>,
    nameColor: Option<string>,
    messageColor: Option<string>)

  /** `levelColors[levelName] || ''`: the configured color, or none. */
  function LevelColor(levelColors: map<string, string>, levelName: string): (c: string)
    ensures levelName !in levelColors ==> c == ""
    ensures levelName in levelColors ==> c == levelColors[levelName]
  {
    if levelName in levelColors then levelColors[levelName] else ""
  }

  /** The formatter `createColorizedFormatter(c)` returns, applied to `r`. */
  function ColorizedFormat(c: ColorConfig, r: LogRecord): (line: string)
    ensures !c.enabled ==> line == r.timestamp.iso + " " + r.levelName + " " + r.name + " " + r.message
  {
    var levelColors := c.levelColors.GetOr(DEFAULT_LEVEL_COLORS);
    Colorize(r.timestamp.iso, c.timestampColor.GetOr(DIM), c.enabled) + " " +
    Colorize(r.levelName, LevelColor(levelColors, r.levelName), c.enabled) + " " +
    Colorize(r.name, c.nameColor.GetOr(DIM), c.enabled) + " " +
    Colorize(r.message, c.messageColor.GetOr(""), c.enabled)
  }

  /** A level name without a color still gets the reset code after it when colors are on. */
  lemma UnknownLevelStillReset(c: ColorConfig, r: LogRecord)
    requires c.enabled && r.levelName !in c.levelColors.GetOr(DEFAULT_LEVEL_COLORS)
    ensures ColorizedFormat(c, r) ==
      Colorize(r.timestamp.iso, c.timestampColor.GetOr(DIM), true) + " " +
      r.levelName + RESET + " " +
      Colorize(r.name, c.nameColor.GetOr(DIM), true) + " " +
      Colorize(r.message, c.messageColor.GetOr(""), true)
  {
    assert Colorize(r.levelName, "", true) == r.levelName + RESET;
  }

  /**
   * Under the default options with colors on, the line ends with the message and a reset
   * (the message color is empty), and the level name carries the default color of its level.
   */
  lemma DefaultColoredLine(r: LogRecord)
    requires r.levelName in DEFAULT_LEVEL_COLORS
    ensures var s, tail := ColorizedFormat(ColorConfig(true, None, None, None, None), r), r.message + RESET;
      |s| >= |tail| && s[|s| - |tail|..] == tail
    ensures ColorizedFormat(ColorConfig(true, None, None, None, None), r) ==
      (DIM + r.timestamp.iso + RESET) + " " +
      (DEFAULT_LEVEL_COLORS[r.levelName] + r.levelName + RESET) + " " +
      (DIM + r.name + RESET) + " " + (r.message + RESET)
  {
    var color := DEFAULT_LEVEL_COLORS[r.levelName];
    var stamp := Colorize(r.timestamp.iso, DIM, true);
    var level := Colorize(r.levelName, LevelColor(DEFAULT_LEVEL_COLORS, r.levelName), true);
    var name := Colorize(r.name, DIM, true);
    var message := Colorize(r.message, "", true);
    assert LevelColor(DEFAULT_LEVEL_COLORS, r.levelName) == color;
    assert stamp == DIM + r.timestamp.iso + RESET;
    assert level == color + r.levelName + RESET;
    assert name == DIM + r.name + RESET;
    assert message == r.message + RESET;
    var head := stamp + " " + level + " " + name + " ";
    assert ColorizedFormat(ColorConfig(true, None, None, None, None), r) == head + message;
  }
}
