/**
 * The facade: the module-level functions that drive the global configuration and the
 * global registry. The two globals are the `config` and `registry` fields of one object.
 */
module Api {
  import opened Wrappers
  import opened Levels
  import opened Refs
  import opened Config
  import opened Loggers
  import opened Registries

  /** The registry key `getLogger(name)` asks for: "root" for a missing or empty name. */
  function RouteName(name: Option<string>): (r: string)
    ensures name.None? || name == Some("") || name == Some("root") ==> r == "root"
    ensures name.Some? && name.value != "" ==> r == name.value
  {
    if name.None? || name.value == "" || name.value == "root" then "root" else name.value
  }

  /** The first argument of `setLevel` and `addHandler`: a logger name or a logger. */
  datatype Target = ByName(name: string) | Given(logger: Logger)

  /** The logger given directly as a target, if any. */
  function GivenLoggers(t: Target): (r: set<Logger>)
    ensures t.Given? ==> r == {t.logger}
    ensures t.ByName? ==> r == {}
  {
    if t.Given? then {t.logger} else {}
  }

  class Logging {
    const config: LoggingConfig
    const registry: Registry

    ghost predicate Valid()
      reads registry, registry.Repr`parent
    {
      registry.Valid()
    }

    /** The logger a target stands for once resolved: itself, or the one registered under its routed name. */
    ghost function Resolved(t: Target): (lg: Logger?)
      reads registry
    {
      if t.Given? then t.logger
      else if RouteName(Some(t.name)) in registry.loggers then registry.loggers[RouteName(Some(t.name))]
      else null
    }

    /** The one existing logger whose child table resolving a target may change, if any. */
    ghost function Touched(t: Target): set<Logger>
      reads registry
    {
      if t.ByName? then registry.Touched(RouteName(Some(t.name))) else {}
    }

    /**
     * What `getLogger(n)` did to the registry since the old state: every old registration
     * stays, the order grows by the names it materialises, and the loggers it added are wired
     * and entered in their parents' children as their names dictate.
     */
    twostate predicate GrownBy(n: string)
      requires old(registry.Valid()) && registry.Valid()
      reads registry, registry.Repr`parent, registry.Repr`children
    {
      && (forall m :: m in old(registry.loggers) ==> m in registry.loggers && registry.loggers[m] == old(registry.loggers[m]))
      && registry.order == old(registry.order) + Materialised(n, old(registry.loggers).Keys)
      && old(registry.Repr) <= registry.Repr && fresh(registry.Repr - old(registry.Repr))
      && registry.WiredSince(old(registry.Repr), old(registry.rootLogger))
    }

    /**
     * When `n` was new and the logger it hangs under (its parent, or the root for a single
     * segment) existed, the new logger hangs under it, and that table gained the one entry for
     * `n` and nothing else.
     */
    twostate predicate NewChildSet(n: string)
      requires old(registry.Valid()) && registry.Valid()
      reads registry, registry.Repr`parent, registry.Repr`children, registry.Repr`childOrder
    {
      var up := old(registry.KnownParent(n));
      n !in old(registry.loggers) && n != "root" && up != null && n in registry.loggers ==>
        registry.loggers[n].parent == up && ChildSet(up, LastSegment(n), registry.loggers[n])
    }

    /** Both globals as the library creates them on load. */
    constructor ()
      ensures Valid()
      ensures config.State() == Defaults
      ensures registry.loggers == map[] && registry.rootLogger == null
    {
      config := new LoggingConfig();
      registry := new Registry();
    }

    /**
     * `getLogger(name?)`: a missing or empty name and "root" all give the registry's "root"
     * logger; any other name is looked up or created under that name.
     */
    method GetLogger(name: Option<string>) returns (lg: Logger)
      requires Valid()
      modifies registry, registry.Touched(RouteName(name))`children, registry.Touched(RouteName(name))`childOrder
      ensures Valid()
      ensures RouteName(name) in registry.loggers && registry.loggers[RouteName(name)] == lg
      ensures lg.name == RouteName(name)
      ensures RouteName(name) in old(registry.loggers) ==>
        lg == old(registry.loggers[RouteName(name)]) && registry.loggers == old(registry.loggers) &&
        registry.rootLogger == old(registry.rootLogger) && ChildrenKept(old(registry.Repr), null)
      ensures RouteName(name) !in old(registry.loggers) ==> fresh(lg) && Pristine(lg)
      ensures RouteName(name) == "root" ==> registry.rootLogger == lg && lg.parent == null
      ensures var n := RouteName(name);
        n !in old(registry.loggers) && n != "root" && '.' !in n ==>
          lg.parent == old(registry.rootLogger) && (lg.parent != null ==> n in lg.parent.children && lg.parent.children[n] == lg)
      ensures var n := RouteName(name);
        n !in old(registry.loggers) && '.' in n ==>
          ParentName(n) in registry.loggers && lg.parent == registry.loggers[ParentName(n)] &&
          LastSegment(n) in lg.parent.children && lg.parent.children[LastSegment(n)] == lg
      ensures GrownBy(RouteName(name))
      ensures NewChildSet(RouteName(name))
      ensures forall l :: l in old(registry.Repr) ==> l.parent == old(l.parent)
    {
      lg := registry.GetLogger(RouteName(name));
    }

    /**
     * `basicConfig(c)`: `configure(c)`, then, whenever `c` has a level, that level is set on
     * the root logger (created if missing), even when `configure` changed nothing.
     */
    method BasicConfig(c: BasicConfig)
      requires Valid()
      modifies config, registry, registry.Repr`level
      ensures Valid()
      ensures config.State() == ConfigureState(old(config.State()), c)
      ensures c.level.Some? ==>
        registry.rootLogger != null && "root" in registry.loggers && registry.loggers["root"] == registry.rootLogger &&
        registry.rootLogger.level == c.level
      ensures c.level.None? ==> unchanged(registry) && ChildrenKept(old(registry.Repr), null)
      ensures c.level.None? ==> forall l :: l in old(registry.Repr) ==> l.level == old(l.level)
      ensures c.level.Some? ==> forall l :: l in old(registry.Repr) && l != registry.rootLogger ==> l.level == old(l.level)
      ensures c.level.Some? ==> GrownBy("root")
      ensures c.level.Some? && "root" in old(registry.loggers) ==>
        registry.loggers == old(registry.loggers) && registry.Repr == old(registry.Repr) && ChildrenKept(old(registry.Repr), null)
      ensures forall l :: l in old(registry.Repr) ==> l.parent == old(l.parent)
    {
      config.Configure(c);
      if c.level.Some? {
        SetRootLevel(c.level.value);
      }
    }

    /** The second step of `basicConfig`: `getLogger('root').setLevel(level)`. */
    method SetRootLevel(level: int)
      requires Valid()
      modifies registry, registry.Repr`level
      ensures Valid()
      ensures registry.rootLogger != null && "root" in registry.loggers && registry.loggers["root"] == registry.rootLogger
      ensures registry.rootLogger.level == Some(level)
      ensures forall l :: l in old(registry.Repr) && l != registry.rootLogger ==> l.level == old(l.level)
      ensures GrownBy("root")
      ensures "root" in old(registry.loggers) ==>
        registry.loggers == old(registry.loggers) && registry.Repr == old(registry.Repr) && ChildrenKept(old(registry.Repr), null)
      ensures forall l :: l in old(registry.Repr) ==> l.parent == old(l.parent)
    {
      var root := GetLogger(Some("root"));
      root.SetLevel(level);
    }

    /** `setLevel(loggerOrName, level)`: a name is resolved with `getLogger`, creating the logger if absent. */
    method SetLevel(target: Target, level: int)
      requires Valid()
      modifies registry, Touched(target)`children, Touched(target)`childOrder
      modifies registry.Repr`level, GivenLoggers(target)`level
      ensures Valid()
      ensures target.Given? ==> target.logger.level == Some(level)
      ensures target.ByName? ==>
        RouteName(Some(target.name)) in registry.loggers &&
        registry.loggers[RouteName(Some(target.name))].level == Some(level)
      ensures forall l :: l in old(registry.Repr) && l != Resolved(target) ==> l.level == old(l.level)
      ensures target.Given? ==> unchanged(registry) && ChildrenKept(old(registry.Repr), null)
      ensures target.ByName? ==> GrownBy(RouteName(Some(target.name)))
      ensures target.ByName? ==> NewChildSet(RouteName(Some(target.name)))
      ensures target.ByName? && RouteName(Some(target.name)) in old(registry.loggers) ==>
        registry.loggers == old(registry.loggers) && registry.Repr == old(registry.Repr) && ChildrenKept(old(registry.Repr), null)
      ensures forall l :: l in old(registry.Repr) ==> l.parent == old(l.parent)
    {
      if target.ByName? {
        var lg := GetLogger(Some(target.name));
        lg.SetLevel(level);
      } else {
        target.logger.SetLevel(level);
      }
    }

    /** `addHandler(loggerOrName, handler)`: appends to the resolved logger's own handlers. */
    method AddHandler(target: Target, h: HandlerId)
      requires Valid()
      modifies registry, Touched(target)`children, Touched(target)`childOrder
      modifies registry.Repr`handlers, GivenLoggers(target)`handlers
      ensures Valid()
      ensures target.Given? ==> target.logger.handlers == old(target.logger.handlers) + [h]
      ensures target.ByName? ==>
        var n := RouteName(Some(target.name));
        n in registry.loggers &&
        registry.loggers[n].handlers == (if n in old(registry.loggers) then old(registry.loggers[n].handlers) else []) + [h]
      ensures forall l :: l in old(registry.Repr) && l != Resolved(target) ==> l.handlers == old(l.handlers)
      ensures target.Given? ==> unchanged(registry) && ChildrenKept(old(registry.Repr), null)
      ensures target.ByName? ==> GrownBy(RouteName(Some(target.name)))
      ensures target.ByName? ==> NewChildSet(RouteName(Some(target.name)))
      ensures target.ByName? && RouteName(Some(target.name)) in old(registry.loggers) ==>
        registry.loggers == old(registry.loggers) && registry.Repr == old(registry.Repr) && ChildrenKept(old(registry.Repr), null)
      ensures forall l :: l in old(registry.Repr) ==> l.parent == old(l.parent)
    {
      if target.ByName? {
        var lg := GetLogger(Some(target.name));
        lg.AddHandler(h);
      } else {
        target.logger.AddHandler(h);
      }
    }

    /**
     * `disable(level = CRITICAL)`: an unforced `configure` of level `level + 1`, so it does
     * nothing once the configuration is set, and no logger is touched.
     */
    method Disable(level: int := CRITICAL)
      modifies config
      ensures config.State() == ConfigureState(old(config.State()), Config.BasicConfig(Some(level + 1), None, None, false))
      ensures old(config.State()).configured ==> config.State() == old(config.State())
    {
      config.Configure(Config.BasicConfig(Some(level + 1), None, None, false));
    }

    /** `reset()`: the configuration back to its defaults and no logger registered. */
    method Reset()
      modifies config, registry
      ensures Valid()
      ensures config.State() == Defaults
      ensures registry.loggers == map[] && registry.rootLogger == null && registry.order == []
    {
      config.Reset();
      registry.Clear();
    }

    /** `getLoggerInfo()`: one snapshot per registered logger, in registration order. */
    function GetLoggerInfo(): (r: seq<LoggerInfo>)
      reads config, registry, registry.Repr
      requires Valid()
      ensures |r| == |registry.order|
      ensures forall i :: 0 <= i < |r| ==>
        r[i].name == registry.order[i] &&
        r[i] == registry.loggers[registry.order[i]].Info(config.State(), registry.Repr)
    {
      var all := registry.GetAllLoggers();
      var scope, global := registry.Repr, config.State();
      seq(|all|, i requires 0 <= i < |all| && all[i] in scope && Ranked(scope) reads scope =>
        all[i].Info(global, scope))
    }
  }
}
