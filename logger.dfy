/**
 * The logger: a named node with its own level and handler list, a parent link and a
 * children map; effective-level resolution, the enablement gate and the dispatch protocol.
 *
 * The global configuration is passed in as its current `ConfigState`, and every function
 * that follows parent links is given the set of loggers it may read (`scope`), which the
 * registry provides; `Ranked(scope)` is the fact that parent links go down in rank.
 */
module Loggers {
  import opened Wrappers
  import opened Strings
  import opened Levels
  import opened Refs
  import opened LogRecords
  import opened Config

  /**
   * Rank of a logger name, the measure that parent links decrease: 0 for "root", otherwise
   * one more than its length. A parent's name is a proper prefix of its child's, and the root
   * is below every other name.
   */
  function Rank(name: string): nat {
    if name == "root" then 0 else |name| + 1
  }

  /** Every parent link inside `scope` stays inside it and goes to a lower rank. */
  ghost predicate Ranked(scope: set<Logger>)
    reads scope`parent
  {
    forall l {:trigger l.parent} :: l in scope && l.parent != null ==> l.parent in scope && Rank(l.parent.name) < Rank(l.name)
  }

  /** One handler call made while dispatching: which logger, which handler, what it did. */
  datatype Invocation = Invocation(logger: string, handler: HandlerId, outcome: Outcome)

  /** The handler calls of a list, one per entry, in list order. */
  function Invocations(logger: string, hs: seq<HandlerId>,
                       behaviour: (HandlerId, LogRecord) -> Outcome, record: LogRecord): (r: seq<Invocation>)
    ensures |r| == |hs|
    ensures forall i :: 0 <= i < |hs| ==> r[i] == Invocation(logger, hs[i], behaviour(hs[i], record))
  {
    seq(|hs|, i requires 0 <= i < |hs| => Invocation(logger, hs[i], behaviour(hs[i], record)))
  }

  /** The call was made on logger `l`, with one of its own or one of the global handlers. */
  ghost predicate CallOf(e: Invocation, l: Logger, global: ConfigState)
    reads l
  {
    e.logger == l.name && (e.handler in l.handlers || e.handler in global.handlers)
  }

  /** The call was made on one of the loggers of `chain`. */
  ghost predicate MadeWithin(e: Invocation, chain: seq<Logger>, global: ConfigState)
    reads set l | l in chain
  {
    exists k :: 0 <= k < |chain| && CallOf(e, chain[k], global)
  }

  /** A call made within a chain is made within the chain extended at the front. */
  lemma MadeWithinCons(e: Invocation, x: Logger, tail: seq<Logger>, global: ConfigState)
    requires MadeWithin(e, tail, global)
    ensures MadeWithin(e, [x] + tail, global)
  {
    var k :| 0 <= k < |tail| && CallOf(e, tail[k], global);
    assert ([x] + tail)[k + 1] == tail[k];
  }

  /** Number of calls in a trace that threw (each one is caught and reported). */
  function CountThrown(trace: seq<Invocation>): (n: nat)
    ensures n <= |trace|
  {
    if |trace| == 0 then 0
    else (if trace[0].outcome == Threw then 1 else 0) + CountThrown(trace[1..])
  }

  lemma {:induction false} CountThrownAppend(a: seq<Invocation>, b: seq<Invocation>)
    ensures CountThrown(a + b) == CountThrown(a) + CountThrown(b)
  {
    if |a| > 0 {
      assert (a + b)[1..] == a[1..] + b;
      CountThrownAppend(a[1..], b);
    } else {
      assert a + b == b;
    }
  }

  /** The (logger, handler) pairs of a trace, without outcomes. */
  function Route(trace: seq<Invocation>): (r: seq<(string, HandlerId)>)
    ensures |r| == |trace|
    ensures forall i :: 0 <= i < |trace| ==> r[i] == (trace[i].logger, trace[i].handler)
  {
    seq(|trace|, i requires 0 <= i < |trace| => (trace[i].logger, trace[i].handler))
  }

  lemma RouteAppend(a: seq<Invocation>, b: seq<Invocation>)
    ensures Route(a + b) == Route(a) + Route(b)
  {
    assert forall i :: 0 <= i < |a| ==> (a + b)[i] == a[i];
    assert forall i :: 0 <= i < |b| ==> (a + b)[|a| + i] == b[i];
  }

  /** The handler calls of a list go to the same handlers, in the same order, for any record. */
  lemma RouteOfInvocations(logger: string, hs: seq<HandlerId>, behaviour: (HandlerId, LogRecord) -> Outcome,
                           r1: LogRecord, r2: LogRecord)
    ensures Route(Invocations(logger, hs, behaviour, r1)) == Route(Invocations(logger, hs, behaviour, r2))
  {
  }

  /** `indexOf` + `splice(index, 1)`: the list without its first `h`. */
  function RemoveFirst(s: seq<HandlerId>, h: HandlerId): (r: seq<HandlerId>)
    ensures h !in s ==> r == s
    ensures h in s ==> |r| == |s| - 1
  {
    if |s| == 0 then []
    else if s[0] == h then s[1..]
    else [s[0]] + RemoveFirst(s[1..], h)
  }

  /** Removing the first `h` is cutting the list at the index of `h`. */
  lemma {:induction false} RemoveFirstAtIndex(s: seq<HandlerId>, h: HandlerId)
    requires h in s
    ensures RemoveFirst(s, h) == s[..IndexOf(s, h)] + s[IndexOf(s, h) + 1..]
  {
    if s[0] != h {
      var t := s[1..];
      assert h in t;
      RemoveFirstAtIndex(t, h);
      var k := IndexOf(t, h);
      assert IndexOf(s, h) == k + 1;
      assert s[..k + 1] == [s[0]] + t[..k];
      assert s[k + 2..] == t[k + 1..];
      assert [s[0]] + (t[..k] + t[k + 1..]) == ([s[0]] + t[..k]) + t[k + 1..];
    }
  }

  /** Severity methods; `Warn` and `Fatal` are the aliases of `Warning` and `Critical`. */
  datatype Severity = Debug | Info | Warning | Warn | Error | Critical | Fatal

  function SeverityLevel(s: Severity): (l: int)
    ensures s == Warning || s == Warn ==> l == WARNING
    ensures s == Critical || s == Fatal ==> l == CRITICAL
    ensures IsCanonical(l) && l != NOTSET
  {
    match s
    case Debug => DEBUG
    case Info => INFO
    case Warning => WARNING
    case Warn => WARNING
    case Error => ERROR
    case Critical => CRITICAL
    case Fatal => CRITICAL
  }

  /** Diagnostic snapshot; `level` is -1 when no own level is set. */
  datatype LoggerInfo = LoggerInfo(
    name: string,
    level: int,
    effectiveLevel: int,
    handlers: nat,
    parent: Option<string>,
    children: seq<string>,
    disabled: bool)

  class Logger {
    const name: string
    var level: Option<int>          // own level; None is "unset"
    var handlers: seq<HandlerId>    // own handlers, in registration order
    var parent: Logger?
    var children: map<string, Logger>
    var childOrder: seq<string>     // keys of `children` in insertion order
    var disabled: bool

    constructor (name: string)
      ensures this.name == name && level.None? && handlers == [] && parent == null
      ensures children == map[] && childOrder == [] && !disabled
    {
      this.name := name;
      level := None;
      handlers := [];
      parent := null;
      children := map[];
      childOrder := [];
      disabled := false;
    }

    // ---------- level resolution ----------

    /** Own level if set, else the parent's (recursively), else the global level. */
    function Level(global: ConfigState, ghost scope: set<Logger>): (r: int)
      reads scope
      requires this in scope && Ranked(scope)
      ensures level.Some? ==> r == level.value
      ensures r == global.level || exists l :: l in scope && l.level == Some(r)
      decreases Rank(name)
    {
      if level.Some? then level.value
      else if parent != null then parent.Level(global, scope)
      else global.level
    }

    /** The level with NOTSET resolved to WARNING. */
    function EffectiveLevel(global: ConfigState, ghost scope: set<Logger>): (r: int)
      reads scope
      requires this in scope && Ranked(scope)
      ensures r != NOTSET
      ensures r == WARNING || r == global.level || exists l :: l in scope && l.level == Some(r)
    {
      GetEffectiveLevel(Level(global, scope))
    }

    /** This logger followed by its ancestors, up to the one without a parent. */
    function Lineage(ghost scope: set<Logger>): (chain: seq<Logger>)
      reads scope
      requires this in scope && Ranked(scope)
      ensures |chain| >= 1 && chain[0] == this
      ensures forall i :: 0 <= i < |chain| ==> chain[i] in scope
      ensures forall i :: 0 <= i < |chain| - 1 ==> chain[i].parent == chain[i + 1]
      ensures chain[|chain| - 1].parent == null
      decreases Rank(name)
    {
      if parent == null then [this] else [this] + parent.Lineage(scope)
    }

    /** The level is that of the nearest logger in the lineage with an explicit level. */
    lemma {:induction false} LevelIsNearestExplicit(global: ConfigState, scope: set<Logger>, i: nat)
      requires this in scope && Ranked(scope)
      requires i < |Lineage(scope)| && Lineage(scope)[i].level.Some?
      requires forall j :: 0 <= j < i ==> Lineage(scope)[j].level.None?
      ensures Level(global, scope) == Lineage(scope)[i].level.value
      decreases Rank(name)
    {
      if i > 0 {
        assert Lineage(scope)[0].level.None?;
        assert Lineage(scope)[1..] == parent.Lineage(scope);
        parent.LevelIsNearestExplicit(global, scope, i - 1);
      }
    }

    /** With no explicit level anywhere in the lineage, the global level applies. */
    lemma {:induction false} LevelFallsBackToGlobal(global: ConfigState, scope: set<Logger>)
      requires this in scope && Ranked(scope)
      requires forall j :: 0 <= j < |Lineage(scope)| ==> Lineage(scope)[j].level.None?
      ensures Level(global, scope) == global.level
      decreases Rank(name)
    {
      assert Lineage(scope)[0].level.None?;
      if parent != null {
        assert Lineage(scope)[1..] == parent.Lineage(scope);
        parent.LevelFallsBackToGlobal(global, scope);
      }
    }

    /** An own level of NOTSET gives WARNING, whatever the parent and global levels are. */
    lemma OwnNotsetMeansWarning(global: ConfigState, scope: set<Logger>)
      requires this in scope && Ranked(scope)
      requires level == Some(NOTSET)
      ensures EffectiveLevel(global, scope) == WARNING
    {
    }

    // ---------- enablement ----------

    /** False when disabled; otherwise the effective level is at most `x`. */
    function IsEnabledFor(x: int, global: ConfigState, ghost scope: set<Logger>): (r: bool)
      reads scope
      requires this in scope && Ranked(scope)
      ensures r <==> !disabled && EffectiveLevel(global, scope) <= x
    {
      if disabled then false else IsLevelEnabled(EffectiveLevel(global, scope), x)
    }

    /** A level at or above an enabled one is enabled. */
    lemma IsEnabledForMonotone(x: int, y: int, global: ConfigState, scope: set<Logger>)
      requires this in scope && Ranked(scope)
      requires x <= y && IsEnabledFor(x, global, scope)
      ensures IsEnabledFor(y, global, scope)
    {
    }

    // ---------- handler list ----------

    method SetLevel(l: int)
      modifies this`level
      ensures level == Some(l)
    {
      level := Some(l);
    }

    method SetDisabled(value: bool)
      modifies this`disabled
      ensures disabled == value
    {
      disabled := value;
    }

    method AddHandler(h: HandlerId)
      modifies this`handlers
      ensures handlers == old(handlers) + [h]
    {
      handlers := handlers + [h];
    }

    /** Deletes the first entry equal to `h`; no change when `h` is absent. */
    method RemoveHandler(h: HandlerId)
      modifies this`handlers
      ensures handlers == RemoveFirst(old(handlers), h)
    {
      var index := IndexOf(handlers, h);
      if index > -1 {
        RemoveFirstAtIndex(handlers, h);
        handlers := handlers[..index] + handlers[index + 1..];
      }
    }

    /** `_children.set(key, child)`: a new key goes last, an existing key keeps its place. */
    method LinkChild(key: string, child: Logger)
      modifies this`children, this`childOrder
      ensures children == old(children)[key := child]
      ensures childOrder == if key in old(children) then old(childOrder) else old(childOrder) + [key]
    {
      if key !in children {
        childOrder := childOrder + [key];
      }
      children := children[key := child];
    }

    method RemoveAllHandlers()
      modifies this`handlers
      ensures handlers == []
    {
      handlers := [];
    }

    // ---------- dispatch ----------

    /** Own handlers if there are any, otherwise the global ones. */
    function HandlersToUse(global: ConfigState): (r: seq<HandlerId>)
      reads this
      ensures |handlers| > 0 ==> r == handlers
      ensures |handlers| == 0 ==> r == global.handlers
    {
      if |handlers| > 0 then handlers else global.handlers
    }

    /**
     * The handler calls that `handle(record)` makes: nothing when disabled; otherwise every
     * handler to use, in order, then the parent's calls when there is a parent and the own
     * handler list is empty. No level is consulted on the way up.
     */
    function Dispatch(record: LogRecord, global: ConfigState, behaviour: (HandlerId, LogRecord) -> Outcome,
                      ghost scope: set<Logger>): (trace: seq<Invocation>)
      reads scope
      requires this in scope && Ranked(scope)
      ensures disabled ==> trace == []
      ensures !disabled ==>
        |HandlersToUse(global)| <= |trace| &&
        trace[..|HandlersToUse(global)|] == Invocations(name, HandlersToUse(global), behaviour, record)
      ensures !disabled && (parent == null || |handlers| > 0) ==>
        trace == Invocations(name, HandlersToUse(global), behaviour, record)
      decreases Rank(name)
    {
      if disabled then []
      else
        Invocations(name, HandlersToUse(global), behaviour, record) +
        (if parent != null && |handlers| == 0 then parent.Dispatch(record, global, behaviour, scope) else [])
    }

    /** Each call in the trace is made on a logger of the lineage, with one of its own or a global handler. */
    lemma {:induction false} DispatchStaysInLineage(record: LogRecord, global: ConfigState,
                                                    behaviour: (HandlerId, LogRecord) -> Outcome, scope: set<Logger>)
      requires this in scope && Ranked(scope)
      ensures forall e :: e in Dispatch(record, global, behaviour, scope) ==> MadeWithin(e, Lineage(scope), global)
      decreases Rank(name)
    {
      var chain := Lineage(scope);
      var own := Invocations(name, HandlersToUse(global), behaviour, record);
      if !disabled && parent != null && |handlers| == 0 {
        parent.DispatchStaysInLineage(record, global, behaviour, scope);
        var up := parent.Dispatch(record, global, behaviour, scope);
        forall e | e in up
          ensures MadeWithin(e, chain, global)
        {
          MadeWithinCons(e, this, parent.Lineage(scope), global);
        }
      }
      forall e | e in own
        ensures MadeWithin(e, chain, global)
      {
        assert CallOf(e, chain[0], global);
      }
    }

    /** A logger with own handlers uses exactly those and does not propagate. */
    lemma DispatchWithOwnHandlers(record: LogRecord, global: ConfigState,
                                  behaviour: (HandlerId, LogRecord) -> Outcome, scope: set<Logger>)
      requires this in scope && Ranked(scope)
      requires !disabled && |handlers| > 0
      ensures Route(Dispatch(record, global, behaviour, scope)) == Route(Invocations(name, handlers, behaviour, record))
      ensures forall e :: e in Dispatch(record, global, behaviour, scope) ==> e.logger == name
    {
    }

    /**
     * Double fan-out: with no own handlers and a parent holding one handler, one record is
     * given to every global handler on this logger and then to the parent's handler.
     */
    lemma DispatchFansOutToGlobalAndParent(record: LogRecord, global: ConfigState,
                                           behaviour: (HandlerId, LogRecord) -> Outcome, scope: set<Logger>, h: HandlerId)
      requires this in scope && Ranked(scope)
      requires !disabled && handlers == [] && parent != null
      requires !parent.disabled && parent.handlers == [h]
      ensures Route(Dispatch(record, global, behaviour, scope)) ==
              Route(Invocations(name, global.handlers, behaviour, record)) + [(parent.name, h)]
      ensures |Dispatch(record, global, behaviour, scope)| == |global.handlers| + 1
    {
      var own := Invocations(name, global.handlers, behaviour, record);
      var up := parent.Dispatch(record, global, behaviour, scope);
      assert up == [Invocation(parent.name, h, behaviour(h, record))];
      assert Route(own + up) == Route(own) + Route(up);
    }

    /** Which handlers run, and on which logger, does not depend on the record (levels are not re-checked). */
    lemma {:induction false} RouteIgnoresRecord(r1: LogRecord, r2: LogRecord, global: ConfigState,
                                                behaviour: (HandlerId, LogRecord) -> Outcome, scope: set<Logger>)
      requires this in scope && Ranked(scope)
      ensures Route(Dispatch(r1, global, behaviour, scope)) == Route(Dispatch(r2, global, behaviour, scope))
      decreases Rank(name)
    {
      if !disabled {
        var own1 := Invocations(name, HandlersToUse(global), behaviour, r1);
        var own2 := Invocations(name, HandlersToUse(global), behaviour, r2);
        RouteOfInvocations(name, HandlersToUse(global), behaviour, r1, r2);
        if parent != null && |handlers| == 0 {
          parent.RouteIgnoresRecord(r1, r2, global, behaviour, scope);
          RouteAppend(own1, parent.Dispatch(r1, global, behaviour, scope));
          RouteAppend(own2, parent.Dispatch(r2, global, behaviour, scope));
        }
      }
    }

    /**
     * `handle(record)`: invokes each handler to use once, in order, catching and counting
     * the ones that throw, then propagates to the parent when the own handler list is empty.
     */
    method Handle(record: LogRecord, global: ConfigState, behaviour: (HandlerId, LogRecord) -> Outcome,
                  ghost scope: set<Logger>)
      returns (trace: seq<Invocation>, caught: nat)
      requires this in scope && Ranked(scope)
      ensures trace == Dispatch(record, global, behaviour, scope)
      ensures caught == CountThrown(trace)
      decreases Rank(name)
    {
      if disabled {
        return [], 0;
      }
      var handlersToUse := if |handlers| > 0 then handlers else global.handlers;
      trace, caught := [], 0;
      for i := 0 to |handlersToUse|
        invariant trace == Invocations(name, handlersToUse[..i], behaviour, record)
        invariant caught == CountThrown(trace)
      {
        var h := handlersToUse[i];
        var outcome := behaviour(h, record);
        CountThrownAppend(trace, [Invocation(name, h, outcome)]);
        trace := trace + [Invocation(name, h, outcome)];
        if outcome == Threw {
          caught := caught + 1;   // handleError: reported on the diagnostic channel
        }
      }
      assert handlersToUse[..|handlersToUse|] == handlersToUse;
      if parent != null && |handlers| == 0 {
        var upTrace, upCaught := parent.Handle(record, global, behaviour, scope);
        CountThrownAppend(trace, upTrace);
        trace, caught := trace + upTrace, caught + upCaught;
      }
    }

    /**
     * `_log(level, message, ...args)`: when not enabled for `lvl`, no record is built and no
     * handler runs; otherwise a record named after this logger is built at `now` and handled.
     */
    method Log(lvl: int, message: string, args: seq<Arg>, now: Instant, global: ConfigState,
               behaviour: (HandlerId, LogRecord) -> Outcome, ghost scope: set<Logger>)
      returns (record: Option<LogRecord>, trace: seq<Invocation>, caught: nat)
      requires this in scope && Ranked(scope)
      ensures !IsEnabledFor(lvl, global, scope) ==> record.None? && trace == [] && caught == 0
      ensures IsEnabledFor(lvl, global, scope) ==>
        record == Some(CreateLogRecord(name, lvl, GetLevelName(lvl), message, args, None, now)) &&
        trace == Dispatch(record.value, global, behaviour, scope) &&
        caught == CountThrown(trace)
    {
      if !IsEnabledFor(lvl, global, scope) {
        return None, [], 0;
      }
      var levelName := GetLevelName(lvl);
      var r := CreateLogRecord(name, lvl, levelName, message, args, None, now);
      trace, caught := Handle(r, global, behaviour, scope);
      record := Some(r);
    }

    /** `debug`, `info`, `warning`, `warn`, `error`, `critical`, `fatal`: `_log` at the severity's level. */
    method LogAt(severity: Severity, message: string, args: seq<Arg>, now: Instant, global: ConfigState,
                 behaviour: (HandlerId, LogRecord) -> Outcome, ghost scope: set<Logger>)
      returns (record: Option<LogRecord>, trace: seq<Invocation>, caught: nat)
      requires this in scope && Ranked(scope)
      ensures record.Some? <==> IsEnabledFor(SeverityLevel(severity), global, scope)
      ensures record.Some? ==>
        record == Some(CreateLogRecord(name, SeverityLevel(severity), GetLevelName(SeverityLevel(severity)), message, args, None, now)) &&
        trace == Dispatch(record.value, global, behaviour, scope) &&
        caught == CountThrown(trace)
      ensures record.None? ==> trace == [] && caught == 0
    {
      record, trace, caught := Log(SeverityLevel(severity), message, args, now, global, behaviour, scope);
    }

    /** `getLoggerInfo()`. */
    function Info(global: ConfigState, ghost scope: set<Logger>): (r: LoggerInfo)
      reads scope
      requires this in scope && Ranked(scope)
      ensures r.name == name && r.handlers == |handlers| && r.disabled == disabled
      ensures level.None? ==> r.level == -1
      ensures level.Some? ==> r.level == level.value
      ensures r.effectiveLevel == EffectiveLevel(global, scope)
      ensures r.parent.Some? <==> parent != null
      ensures parent != null ==> r.parent == Some(parent.name)
      ensures r.children == childOrder
    {
      LoggerInfo(name, if level.Some? then level.value else -1, EffectiveLevel(global, scope),
                 |handlers|, if parent != null then Some(parent.name) else None, childOrder, disabled)
    }
  }
}
