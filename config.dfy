/** The global configuration: set once unless forced, restorable to its defaults. */
module Config {
  import opened Wrappers
  import opened Refs
  import opened Levels

  /** The argument of `configure`: each field may be omitted. */
  datatype BasicConfig = BasicConfig(
    level: Option<int>,
    formatter: Option<FormatterId>,
    handlers: Option<seq<HandlerId>>,
    force: bool)

  /** The four fields of the configuration as one value. */
  datatype ConfigState = ConfigState(
    configured: bool,
    level: int,
    formatter: FormatterId,
    handlers: seq<HandlerId>)

  /** Defaults: not configured, WARNING, the basic formatter, one console handler. */
  const Defaults: ConfigState := ConfigState(false, WARNING, BasicFormatterId, [DefaultConsole])

  /** What `configure(c)` does to a state. */
  function ConfigureState(s: ConfigState, c: BasicConfig): (r: ConfigState)
    ensures s.configured && !c.force ==> r == s
    ensures !s.configured || c.force ==>
      r.configured &&
      r.level == c.level.GetOr(s.level) &&
      r.formatter == c.formatter.GetOr(s.formatter) &&
      r.handlers == c.handlers.GetOr(s.handlers)
  {
    if s.configured && !c.force then s
    else ConfigState(true, c.level.GetOr(s.level), c.formatter.GetOr(s.formatter), c.handlers.GetOr(s.handlers))
  }

  /** After any `configure`, the configuration is marked configured. */
  lemma ConfigureMarksConfigured(s: ConfigState, c: BasicConfig)
    ensures ConfigureState(s, c).configured
  {
  }

  /** First writer wins: a later unforced `configure` changes nothing. */
  lemma FirstWriterWins(s: ConfigState, c: BasicConfig, c': BasicConfig)
    requires !c'.force
    ensures ConfigureState(ConfigureState(s, c), c') == ConfigureState(s, c)
  {
  }

  /** A forced `configure` applies whatever the state was. */
  lemma ForcedConfigureApplies(s: ConfigState, s': ConfigState, c: BasicConfig)
    requires c.force && c.level.Some? && c.formatter.Some? && c.handlers.Some?
    ensures ConfigureState(s, c) == ConfigureState(s', c)
  {
  }

  class LoggingConfig {
    var configured: bool
    var level: int
    var formatter: FormatterId
    var handlers: seq<HandlerId>

    function State(): ConfigState
      reads this
    {
      ConfigState(configured, level, formatter, handlers)
    }

    constructor ()
      ensures State() == Defaults
    {
      configured := false;
      level := WARNING;
      formatter := BasicFormatterId;
      handlers := [DefaultConsole];
    }

    /** The handler list as a copy (a sequence value; later changes to the config do not reach it). */
    function GetHandlers(): (r: seq<HandlerId>)
      reads this
      ensures r == State().handlers
    {
      handlers
    }

    /** Applies `c` unless already configured and not forced; stores a copy of the handler list. */
    method Configure(c: BasicConfig)
      modifies this
      ensures State() == ConfigureState(old(State()), c)
    {
      if configured && !c.force {
        return;
      }
      if c.level.Some? {
        level := c.level.value;
      }
      if c.formatter.Some? {
        formatter := c.formatter.value;
      }
      if c.handlers.Some? {
        handlers := c.handlers.value;
      }
      configured := true;
    }

    /** Back to the defaults from any state. */
    method Reset()
      modifies this
      ensures State() == Defaults
    {
      configured := false;
      level := WARNING;
      formatter := BasicFormatterId;
      handlers := [DefaultConsole];
    }
  }
}
