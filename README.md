# JsLogger core in Dafny

This project models the core of JsLogger, a TypeScript logging library that follows the design of
Python's `logging` module, and proves properties of the model. The core covers:

- **The level scale.** Numeric severities, name/number translation, NOTSET resolution and the
  `current <= required` enablement test. It also covers lenient level parsing and the level for
  each environment name.
- **Log records.** Construction takes the exception info from the first error argument. Cloning
  applies overrides, except for `args`, `extra` and `exc_info`. The exception text is rendered from
  the record.
- **The global configuration.** It is set once: a later `configure` without `force` changes nothing.
  `reset` restores the defaults.
- **The logger.** It resolves its level through the parent chain and applies the enablement gate.
  `handle` fans a record out to the logger's own handlers, or to the global handlers when it has
  none. Each handler is isolated: a throwing handler is caught and counted. The record then
  propagates to the parent whenever the logger's own handler list is empty.
- **The registry.** It memoises loggers by name and wires each new logger to the parent its dotted
  name implies. Missing intermediate loggers are created on the way.
- **The facade.** `getLogger`, `basicConfig`, `setLevel`, `addHandler`, `disable`, `reset` and
  `getLoggerInfo`.
- **The memory handler.** A bounded buffer that on overflow either drops its oldest record or
  clears itself. It warns once per fill cycle and answers filter queries.
- **The console and stream handlers.** Their shared level-and-filter gate, the choice of console
  channel, the single `write`, and the routing of errors.
- **The pure formatters.** `basic`, `simple`, `message-only`, the template, combined and
  conditional formatters, `detailed` with its configurable variant, and `colorized`.

Each source file is one Dafny module:

| Dafny file | module |
|---|---|
| `levels.dfy` | `Levels` |
| `level_utils.dfy` | `LevelUtils` |
| `logrecord.dfy` | `LogRecords` |
| `config.dfy` | `Config` |
| `logger.dfy` | `Loggers` |
| `registry.dfy` | `Registries` |
| `api.dfy` | `Api` |
| `memory.dfy` | `MemoryHandlers` |
| `console.dfy` | `ConsoleHandlers` |
| `stream.dfy` | `StreamHandlers` |
| `basic.dfy` | `BasicFormatters` |
| `custom.dfy` | `CustomFormatters` |
| `detailed.dfy` | `DetailedFormatters` |
| `colorized.dfy` | `ColorizedFormatters` |

Three further modules hold shared pieces:

- `gate.dfy` (`HandlerGates`): the admission test all three handlers share.
- `refs.dfy` (`Refs`): handler and formatter identities.
- `strings.dfy` (`Strings`) and `wrappers.dfy` (`Wrappers`): string helpers and `Option`.

How stateful code is modelled:

- Objects whose fields the source updates in place are classes: `LoggingConfig`, `Logger`, the
  registry, the facade's two globals, and the memory handler's closure state.
- The console, the stream's `write` and `onError`, and the memory handler's `onMemoryLimit` and
  `console.warn` are modelled as sequences of the calls made on them.
- The global configuration reaches a logger as a value (`ConfigState`).
- A handler's behaviour on a record is a parameter: it either returns or throws.
- The clock is an input. A record's timestamp is an `Instant` that carries the host's renderings.
- Whether the terminal shows colors is an input.
- The process environment's `NODE_ENV` is an input.

Where the library's prose description and its code disagree, the model follows the code:

- A single-segment logger is linked to the root only if the root logger already exists. The
  root is not created for it, and the link is never added later (`Registries.Registry.SetupHierarchy`).
- `basicConfig({level})` sets the root logger's own level even when `configure` was a no-op
  because the configuration was already set (`Api.Logging.BasicConfig`).

## Model

| member | source | states |
|---|---|---|
| `Levels.GetLevelName` | src/levels/levels.ts:48-50 | Each anchor level maps to its canonical name. Any other integer reads `"Level "` followed by its decimal digits. |
| `Levels.GetLevelByName` | src/levels/levels.ts:55-58 | Returns each level exactly when the upper-cased name is one of its names (WARN is WARNING, FATAL is CRITICAL). Returns none exactly when the name is unknown. |
| `Levels.GetLevelByNameCaseInsensitive` | src/levels/levels.ts:55-57 | Two names that upper-case alike give the same answer. |
| `Levels.GetLevelByNameOfUpper` | src/levels/levels.ts:55-57 | Looking up a name is looking up its upper-case form. |
| `Levels.LevelNameRoundTrip` | src/levels/levels.ts:22-58 | Number to name and back gives the number exactly for the six anchor levels. |
| `Levels.GetEffectiveLevel` | src/levels/levels.ts:70-72 | Gives the fallback exactly for NOTSET; every other level stays. |
| `Levels.IsValidLevel` | src/levels/levels.ts:63-65 | Valid exactly when 0 or more, so every anchor level is valid. |
| `Levels.EffectiveLevelNeverNotset` | src/levels/levels.ts:70-72 | With the default fallback (WARNING) the result is never NOTSET, and a valid level stays valid. |
| `Levels.IsLevelEnabledMonotone` | src/levels/levels.ts:77-79 | Enablement survives a lower threshold and a higher record level. |
| `Levels.IsLevelEnabled` | src/levels/levels.ts:77-79 | A record passes exactly when its level is not below the threshold. A record at the threshold passes, and a NOTSET threshold passes every valid level. |
| `LevelUtils.GetLevelForEnvironment` | src/levels/utils.ts:19-22 | development gives 10, testing 30, staging 20, production 40, and any other non-empty name 20. With an empty or missing argument, a non-empty NODE_ENV is looked up the same way. With neither, the result is 10. For the names modelled the result is one of these four levels. |
| `LevelUtils.EnvironmentArgumentWins` | src/levels/utils.ts:20 | A non-empty argument makes NODE_ENV irrelevant. |
| `LevelUtils.ParseLevel` | src/levels/utils.ts:27-34 | A number of 0 or more is kept and a negative one becomes INFO. A name gives its table level, or INFO when unknown. |
| `LevelUtils.ParseLevelIsValid` | src/levels/utils.ts:27-34 | The parsed level is always valid (0 or more). |
| `LevelUtils.ParseLevelOfName` | src/levels/utils.ts:32-33 | The display name of an anchor level parses back to that level. |
| `Strings.NatToStringValue` | src/levels/levels.ts:49 | The decimal digits rendered for a natural number denote that number. |
| `Strings.IntToStringRoundTrip` | src/formatter/formatters/custom.ts:16 | Reading the rendering of an integer back (an optional minus, then the digits) gives the integer. |
| `LogRecords.FirstError` | src/core/logrecord.ts:64 | None exactly when no argument is an error. Otherwise the snapshot of an error argument with no error before it. |
| `LogRecords.CreateLogRecord` | src/core/logrecord.ts:42-74 | The record carries exactly the given name, level, level name, message, arguments, extra and clock time. Its exception info is that of the first error argument. |
| `LogRecords.CreatedRecordHasException` | src/core/logrecord.ts:63-71 | A created record has exception info exactly when some argument is an error. |
| `LogRecords.FirstErrorOfPrefix` | src/core/logrecord.ts:64-70 | The earliest error wins, whatever follows it. |
| `LogRecords.CloneLogRecord` | src/core/logrecord.ts:79-90 | Each scalar field is its override when one is given, else the original's. `args`, `extra` and exception info always come from the original. |
| `LogRecords.CloneWithoutOverrides` | src/core/logrecord.ts:83-89 | A clone without overrides equals the original. |
| `LogRecords.CloneIgnoresCollectionOverrides` | src/core/logrecord.ts:84-88 | Overrides of `args`, `extra` and exception info have no effect. |
| `LogRecords.HasException` | src/core/logrecord.ts:95-97 | True exactly when the record has exception info, which is exactly when an exception text can be rendered for it. |
| `LogRecords.GetExceptionString` | src/core/logrecord.ts:102-109 | None exactly without exception info. Otherwise the stack when it is present and non-empty, else `name + ": " + message`. |
| `Config.ConfigureState` | src/core/config.ts:55-74 | When configured and not forced, nothing changes. Otherwise each supplied field (a level of 0 included) replaces the old one, the others stay, and the state becomes configured. |
| `Config.ConfigureMarksConfigured` | src/core/config.ts:73 | After any `configure` the state is configured. |
| `Config.FirstWriterWins` | src/core/config.ts:57-59 | `configure(c)` followed by an unforced `configure(c')` equals `configure(c)` alone. |
| `Config.ForcedConfigureApplies` | src/core/config.ts:57-73 | A forced `configure` that supplies every field gives the same state from any starting state. |
| `Config.LoggingConfig.constructor` | src/core/config.ts:31-34 | Starts not configured, at WARNING, with the basic formatter and exactly one console handler. |
| `Config.LoggingConfig.GetHandlers` | src/core/config.ts:48-50 | Returns the stored handler list as a value, which later changes cannot reach. |
| `Config.LoggingConfig.Configure` | src/core/config.ts:55-74 | The new state is `ConfigureState` of the old state. The handler list stored is a copy. |
| `Config.LoggingConfig.Reset` | src/core/config.ts:79-84 | From any state, back to exactly the defaults. |
| `Loggers.Invocations` | src/core/logger.ts:135-142 | One call per handler, in list order, each recording that handler's outcome on the record. |
| `Loggers.CountThrown` | src/core/logger.ts:136-141 | Each caught error belongs to one call, so there are at most as many as calls. |
| `Loggers.RemoveFirst` | src/core/logger.ts:84-89 | Removing a handler that is absent changes nothing. Removing one that is present makes the list one shorter. |
| `Loggers.RemoveFirstAtIndex` | src/core/logger.ts:85-87 | Removal cuts out exactly the entry at the first index of the handler. |
| `Loggers.SeverityLevel` | src/core/logger.ts:160-186 | `warn` logs at WARNING and `fatal` at CRITICAL, like their aliases. Every severity method logs at an anchor level other than NOTSET. |
| `Loggers.Logger.constructor` | src/core/logger.ts:13-22 | A new logger has its name, no own level, no handlers, no parent and no children, and is enabled. |
| `Loggers.Logger.Level` | src/core/logger.ts:30-43 | An own level wins. Otherwise the level is the global one or the own level of some logger in scope. |
| `Loggers.Logger.EffectiveLevel` | src/core/logger.ts:45-47 | Never NOTSET. It is WARNING, the global level, or the own level of some logger in scope. |
| `Loggers.Logger.Lineage` | src/core/logger.ts:37-39 | The chain from a logger through its parent links ends at a logger without a parent, and every step is a parent link. |
| `Loggers.Logger.LevelIsNearestExplicit` | src/core/logger.ts:30-43 | The level is the own level of the nearest logger in the lineage that has one. |
| `Loggers.Logger.LevelFallsBackToGlobal` | src/core/logger.ts:41-42 | With no own level anywhere in the lineage, the global level applies. |
| `Loggers.Logger.OwnNotsetMeansWarning` | src/core/logger.ts:45-47 | An own level of NOTSET gives an effective level of WARNING, whatever the parent and global levels are. |
| `Loggers.Logger.IsEnabledFor` | src/core/logger.ts:103-108 | True exactly when the logger is not disabled and its effective level is at most the given level. |
| `Loggers.Logger.IsEnabledForMonotone` | src/core/logger.ts:103-108 | A level at or above an enabled one is enabled. |
| `Loggers.Logger.SetLevel` | src/core/logger.ts:70-72 | The own level becomes the given level, and no other field changes. |
| `Loggers.Logger.SetDisabled` | src/core/logger.ts:61-63 | The flag becomes the given value, and no other field changes. |
| `Loggers.Logger.AddHandler` | src/core/logger.ts:77-79 | Appends the handler, and no other field changes. |
| `Loggers.Logger.RemoveHandler` | src/core/logger.ts:84-89 | The list loses only its first equal entry, or stays as it was when there is none. |
| `Loggers.Logger.RemoveAllHandlers` | src/core/logger.ts:94-96 | The list becomes empty, and no other field changes. |
| `Loggers.Logger.LinkChild` | src/core/registry.ts:53 | `Map.set`: the key is mapped to the child. A new key goes last in the enumeration order, and an existing key keeps its place. |
| `Loggers.Logger.HandlersToUse` | src/core/logger.ts:133 | The own handlers when there are any, otherwise the global ones. |
| `Loggers.Logger.Dispatch` | src/core/logger.ts:127-147 | A disabled logger makes no call. Otherwise the trace opens with one call per handler in use, in order. Without a parent, or with own handlers, that is the whole trace. |
| `Loggers.Logger.DispatchStaysInLineage` | src/core/logger.ts:127-147 | Every call of `handle` is made on a logger of the lineage, with one of its own handlers or a global one. |
| `Loggers.Logger.DispatchWithOwnHandlers` | src/core/logger.ts:133-147 | A logger with own handlers calls exactly those, in order, and does not propagate. |
| `Loggers.Logger.DispatchFansOutToGlobalAndParent` | src/core/logger.ts:133-147 | With no own handlers and a parent holding one handler, the record goes to every global handler and then to the parent's handler. |
| `Loggers.Logger.RouteIgnoresRecord` | src/core/logger.ts:145-147 | The handlers called, and on which loggers, do not depend on the record: no level is checked again on the way up. |
| `Loggers.Logger.Handle` | src/core/logger.ts:127-148 | The calls `handle` makes are exactly the dispatch reference. The number of caught errors is the number of calls that threw. A disabled logger makes no call. |
| `Loggers.Logger.Log` | src/core/logger.ts:113-122 | When not enabled for the level, no record is built and no handler runs. Otherwise the record is created with this logger's name and the level's name, and then handled. |
| `Loggers.Logger.LogAt` | src/core/logger.ts:160-193 | A record is built exactly when the logger is enabled for the severity's level. It is then exactly the record `_log` creates at that level: the logger's name, the level and its name, the message, the arguments, no extra, the clock time, and the exception info of the first error argument. It is handled as `handle` dispatches it, and the caught count is the number of handler calls that threw. Otherwise nothing is built and no handler runs. |
| `Loggers.Logger.Info` | src/core/logger.ts:233-251 | The snapshot shows the own level (-1 when unset), the effective level, the handler count, the parent's name (none without a parent), the child keys in insertion order, and the disabled flag. |
| `Registries.ParentName` | src/core/registry.ts:47 | The parent's name is shorter and of lower rank. |
| `Registries.LastSegment` | src/core/registry.ts:52 | The key in the parent's children holds no dot. |
| `Registries.Depth` | src/core/registry.ts:43 | The depth of a logger other than root is the number of dot-separated segments. |
| `Registries.ParentNameDepth` | src/core/registry.ts:43-47 | The parent's name has one segment fewer. |
| `Registries.ParentNameIsJoinOfSegments` | src/core/registry.ts:43-47 | The parent's name is `parts.slice(0, -1).join('.')`. |
| `Registries.LastSegmentIsLastPiece` | src/core/registry.ts:52 | The child key is `parts[parts.length - 1]`. |
| `Registries.ParentNameAndLastSegment` | src/core/registry.ts:47-52 | Parent name, a dot and the child key spell the name again. |
| `Registries.MaterialisedContents` | src/core/registry.ts:17-61 | `getLogger(name)` creates nothing exactly when the name exists. Otherwise it creates the name first, then each time the parent of the name before. None of them existed, none is created twice, and the last one's parent already exists or it has a single segment. |
| `Registries.AnchorIsLastParent` | src/core/registry.ts:42-53 | Defines the anchor: the one existing logger whose child table `getLogger` may change. It is the parent of the last logger the call creates, or the root when that logger has a single segment. |
| `Registries.MaterialisedChain` | src/core/registry.ts:42-48 | Each created name is the parent of the one created before it, so the names get strictly shorter. |
| `Registries.MaterialisedLast` | src/core/registry.ts:45-48 | The chain stops at the first ancestor that exists. |
| `Registries.ChildNameParts` | src/core/logger.ts:200-202 | For a suffix without a dot, the child's parent name is the logger's own name and its child key is the suffix. |
| `Registries.WiredLinkLowersDepth` | src/core/registry.ts:42-61 | Every wired parent link lowers the depth, by exactly one below the root. |
| `Registries.Registry.constructor` | src/core/registry.ts:11-12 | Starts with no loggers and no root reference. |
| `Registries.Registry.GetLogger` | src/core/registry.ts:17-37 | Returns the registered logger when it exists, leaving the registry and every child table unchanged. Otherwise it creates a pristine logger and the missing ancestors, in order. "root" becomes the root reference. A dotted name is linked to its parent under its last segment. A single segment is linked to the existing root or left without a parent. Every logger the call creates, the missing ancestors included, is wired the same way: a dotted name to the logger of its parent's name, and a single segment to the root as it was when the call began (none without a root). Each is entered in its parent's children under its last segment. Old loggers keep their parents, and the registry stays ranked. Its frame lets at most one existing child table change: the anchor's, and none when the name is registered. When the new logger's parent already existed, or the root for a single segment, that logger's table gains exactly the one entry: its other entries and their order are kept, and a new key goes last. |
| `Registries.Registry.Create` | src/core/registry.ts:24-36 | The creating half of `getLogger` below the root, with the same promises for a name not yet registered, the wiring and child entries of every logger it creates included. Only the anchor's child table may change among existing loggers. When the new logger's parent already existed, or the root for a single segment, that logger's table gains exactly the one entry: its other entries and their order are kept, and a new key goes last. |
| `Registries.Registry.Register` | src/core/registry.ts:25-34 | The new logger is entered under its name, last in order, and becomes the root reference when named "root". Nothing is wired yet. |
| `Registries.Registry.SetupHierarchy` | src/core/registry.ts:42-61 | A dotted name gets its parent (created if missing) and a child entry under its last segment. A single segment is linked only if the root already exists. The ancestors created on the way are wired and entered as `getLogger` wires them. The order grows by exactly the names `getLogger` materialises. Among existing loggers only the anchor's child table may change. The new logger stays pristine. When the parent already existed, or for a single segment with a root, the new logger hangs under that logger, and its table becomes the one it had on entry with the key set to the new logger; the other entries and their order are kept, and a new key goes last. |
| `Registries.Registry.AttachToParent` | src/core/registry.ts:45-53 | The dotted branch of `setupHierarchy`: the parent is `getLogger` of the parent's name, the new logger points to it and is entered under its last segment, and the ancestors created on the way stay wired and entered. The order grows by the names materialised for the parent. When the parent already existed, its table gains exactly that entry and no other existing table changes. |
| `Registries.Registry.Link` | src/core/registry.ts:49-53 | Sets the parent. The parent's children map the key to the logger; a new key goes last in the order and an existing key keeps its place. The registry stays ranked, and loggers created earlier in the same call stay wired and entered. |
| `Registries.Registry.GetRootLogger` | src/core/registry.ts:66-68 | Present exactly when "root" is registered. It is that logger and has no parent. |
| `Registries.Registry.GetAllLoggers` | src/core/registry.ts:73-75 | Every registered logger exactly once, in insertion order. |
| `Registries.Registry.HasLogger` | src/core/registry.ts:88-90 | True exactly when some registered logger carries the name, and exactly when the name is in the insertion order. |
| `Registries.Registry.Clear` | src/core/registry.ts:80-83 | Afterwards `hasLogger` is false for every name and there is no root reference. |
| `Registries.Registry.GetChild` | src/core/logger.ts:200-203 | `getChild(s)` is `getLogger(name + "." + s)`, with all of its promises, the wiring and child entries of every logger it creates included. For a suffix without a dot and a registered logger, a newly created child has that logger as parent, whose table gains exactly the entry under the suffix, keeping its other entries and their order. The same holds for any new name whose parent already existed. Only the anchor's child table may change among existing loggers. |
| `Api.RouteName` | src/api.ts:16-19 | A missing name, the empty name and "root" all ask for "root"; any other name asks for itself. |
| `Api.Logging.constructor` | src/core/registry.ts:103 | The globals start at the configuration defaults with an empty registry. |
| `Api.Logging.GetLogger` | src/api.ts:15-20 | Returns the registry's logger for the routed name, the same instance on every call, leaving the registry and every child table unchanged then. A new one is pristine. Every old registration stays, the order grows by the names `getLogger` materialises, and every logger created on the way is wired and entered as the registry wires it. Old loggers keep their names and parents, and only the anchor's child table may change. When the name is new and its parent, or the root for a single segment, already existed, the new logger hangs under that logger, whose table gains exactly the one entry and keeps its other entries and their order. |
| `Api.Logging.BasicConfig` | src/api.ts:25-33 | The configuration is `configure(c)`. When `c` has a level, the root logger exists afterwards and has that own level, even when `configure` changed nothing, and no other logger's level changes. The registry grows as `getLogger("root")` grows it: old registrations stay and the order gains "root" when it was missing. Without a level the registry and every logger are unchanged. No existing child table changes, since creating the root links it to nothing. |
| `Api.Logging.SetRootLevel` | src/api.ts:29-32 | `getLogger('root').setLevel(level)`: the root exists afterwards with that own level, no other logger's level changes, and the registry grows as `getLogger("root")` grows it. |
| `Api.Logging.SetLevel` | src/api.ts:38-41 | The given logger, or the one the name resolves to (created if absent), gets the level, and no other logger's level changes. A name grows the registry as `getLogger` grows it: old registrations stay, the order gains the materialised names, and the created loggers are wired and entered. A given logger leaves the registry untouched. A registered name leaves the registry's loggers and child tables unchanged, and a new one changes at most the anchor's. A new name whose parent, or root, already existed is hung under it, and that table gains exactly the one entry. |
| `Api.Logging.AddHandler` | src/api.ts:46-49 | The handler is appended to the given or resolved logger's own list. A newly created logger ends up with just that handler. No other logger's handlers change. A name grows the registry as `getLogger` grows it: old registrations stay, the order gains the materialised names, and the created loggers are wired and entered. A given logger leaves the registry untouched, and a registered name leaves its loggers and child tables unchanged. A new name changes at most the anchor's child table. A new name whose parent, or root, already existed is hung under it, and that table gains exactly the one entry. |
| `Api.Logging.Disable` | src/api.ts:54-56 | Is an unforced `configure` with level + 1, so it changes nothing once configured. |
| `Api.Logging.Reset` | src/api.ts:61-64 | The configuration is back to its defaults and no logger is registered. |
| `Api.Logging.GetLoggerInfo` | src/api.ts:69-78 | One snapshot per registered logger, in registration order. |
| `BasicFormatters.BasicFormatter` | src/formatter/formatters/basic.ts:10-12 | The line is as long as the level name, the name and the message plus two separators, and starts with the level name. |
| `BasicFormatters.SimpleFormatter` | src/formatter/formatters/basic.ts:18-20 | The level name, then `": "`, then the message. |
| `BasicFormatters.MessageOnlyFormatter` | src/formatter/formatters/basic.ts:26-28 | The message alone: what follows the level name and the logger name in the basic line, and the level name in the simple one. |
| `BasicFormatters.BasicFormatterSplits` | src/formatter/formatters/basic.ts:10-12 | `LEVEL:name:message` can be read back: splitting at colons returns the level name, the logger name and the message's own pieces. |
| `BasicFormatters.SimpleFormatterSplits` | src/formatter/formatters/basic.ts:18-20 | `LEVEL: message` can be read back: the first colon ends the level name, and the message follows the colon and the space. |
| `BasicFormatters.FormattersReadOnlyNamedFields` | src/formatter/formatters/basic.ts:10-28 | The three formatters depend only on the level name, the logger name and the message. |
| `CustomFormatters.Substitutions` | src/formatter/formatters/custom.ts:11-16 | The five placeholders are substituted in the order timestamp, level, name, message, level_num. |
| `CustomFormatters.ReplaceAllEveryOccurrence` | src/formatter/formatters/custom.ts:12-16 | A global replacement replaces every occurrence of the placeholder. |
| `CustomFormatters.ReplaceEach` | src/formatter/formatters/custom.ts:11-16 | Text holding none of the patterns passes through the chain unchanged. |
| `CustomFormatters.ReplaceEachReachesPlaceholder` | src/formatter/formatters/custom.ts:11-16 | A placeholder survives the substitutions before its own and becomes its text. That text then passes through the substitutions after it. |
| `CustomFormatters.TemplateFormat` | src/formatter/formatters/custom.ts:9-18 | A template without placeholders is returned unchanged. |
| `CustomFormatters.TemplateLevelNum` | src/formatter/formatters/custom.ts:16 | `{level_num}` gives the level's decimal digits. |
| `CustomFormatters.TemplateMessage` | src/formatter/formatters/custom.ts:15-16 | `{message}` gives the message with its own `{level_num}` filled in, and nothing else of it substituted. |
| `CustomFormatters.TemplateMessageKeepsName` | src/formatter/formatters/custom.ts:14-16 | A message reading `{name}` stays literal. |
| `CustomFormatters.TemplateMessageFillsLevelNum` | src/formatter/formatters/custom.ts:15-16 | A message reading `{level_num}` becomes the level number. |
| `CustomFormatters.LevelKeepsLevelNum` | src/formatter/formatters/custom.ts:13-16 | Substituting `{level}` leaves `{level_num}` untouched. |
| `CustomFormatters.Outputs` | src/formatter/formatters/custom.ts:25 | One output per formatter, in order. |
| `CustomFormatters.CombineFormatters` | src/formatter/formatters/custom.ts:23-27 | No formatters give `""`, and a single formatter gives itself. |
| `CustomFormatters.CombineSnoc` | src/formatter/formatters/custom.ts:25 | One more formatter adds the separator (space, bar, space) and its output at the end. |
| `CustomFormatters.ConditionalFormatter` | src/formatter/formatters/custom.ts:32-40 | Gives the true formatter's output where the condition holds, and the false formatter's elsewhere. |
| `CustomFormatters.ConditionalSwap` | src/formatter/formatters/custom.ts:37-39 | Negating the condition and swapping the formatters changes nothing. |
| `DetailedFormatters.ShortTimestampOfIso` | src/formatter/formatters/detailed.ts:15-16 | On an ISO string, 'short' is the date, a space, and the time to the second (19 characters). |
| `DetailedFormatters.FormatTimestamp` | src/formatter/formatters/detailed.ts:8-21 | 'iso' and 'locale' give the host renderings. 'short' is the first 19 characters of the ISO text with its first 'T' made a space. 'time' is the first 8 characters of the time text. |
| `DetailedFormatters.DetailedFormatter` | src/formatter/formatters/detailed.ts:27-30 | The line is as long as the four fields plus three separators of three characters, and starts with the ISO timestamp. |
| `DetailedFormatters.ExtraTextEmpty` | src/formatter/formatters/detailed.ts:64-67 | The extra text is empty exactly when `extra` has no entries. |
| `DetailedFormatters.ExtraPart` | src/formatter/formatters/detailed.ts:63-70 | The `[...]` segment appears exactly when `includeExtra` is set and `extra` is present with at least one entry. |
| `DetailedFormatters.DetailedParts` | src/formatter/formatters/detailed.ts:47-70 | The message is always one of the parts. |
| `DetailedFormatters.FormatDetailed` | src/formatter/formatters/detailed.ts:46-73 | The pushes produce the parts reference, joined by the separator (default `" - "`). |
| `DetailedFormatters.DefaultsAreDetailed` | src/formatter/formatters/detailed.ts:28-44 | With every option at its default the output is `detailedFormatter`'s. |
| `DetailedFormatters.DetailedPartsOrder` | src/formatter/formatters/detailed.ts:47-70 | The parts come in the order timestamp, level, name, message, then extra as the fifth only when present. |
| `DetailedFormatters.MessageOnlyParts` | src/formatter/formatters/detailed.ts:57-72 | With only the message included, the output is the message. |
| `ColorizedFormatters.Colorize` | src/formatter/formatters/colorized.ts:63-66 | Disabled gives the text itself. Enabled gives the color, then the text, then RESET. |
| `ColorizedFormatters.LevelColor` | src/formatter/formatters/colorized.ts:95 | The configured color for the level name, or the empty color when there is none. |
| `ColorizedFormatters.ColorizedFormat` | src/formatter/formatters/colorized.ts:72-103 | With colors off the line is the four fields separated by single spaces. |
| `ColorizedFormatters.UnknownLevelStillReset` | src/formatter/formatters/colorized.ts:93-97 | An unknown level name gets no color but is still followed by RESET. |
| `ColorizedFormatters.DefaultColoredLine` | src/formatter/formatters/colorized.ts:72-103 | Under the defaults with colors on, the line is given in full and ends with `message + RESET`. |
| `HandlerGates.DroppedIff` | src/handler/handlers/console.ts:33-41 | A record is dropped exactly when the level is positive and above the record's, or the filter rejects it. |
| `HandlerGates.DefaultsAdmitAll` | src/handler/handlers/console.ts:25-27 | Level 0 and no filter admit every record. |
| `HandlerGates.AdmitsMonotone` | src/handler/handlers/console.ts:34 | A higher record level is admitted too when the filter agrees. |
| `MemoryHandlers.DefaultWarnThreshold` | src/handler/handlers/memory.ts:80 | Is `floor(0.9 * maxRecords)`, and stays between 0 and the maximum. |
| `MemoryHandlers.Evict` | src/handler/handlers/memory.ts:88-103 | What is kept is a suffix of the buffer. A buffer within the maximum is kept whole. An overflow empties it with auto-clear and otherwise drops exactly the oldest record. A buffer at most one over capacity ends within capacity. |
| `MemoryHandlers.ClearCycle` | src/handler/handlers/memory.ts:89-95 | With auto-clear the buffer counts up to its capacity, never more than the records accepted, and the next record empties it. |
| `MemoryHandlers.ClearCycleIsRemainder` | src/handler/handlers/memory.ts:89-95 | With auto-clear the buffer is emptied on every `(capacity + 1)`-th accepted record: its size is the count modulo `capacity + 1`. |
| `MemoryHandlers.Retained` | src/handler/handlers/memory.ts:88-103 | The buffer is a suffix of the accepted records, at most the capacity long. |
| `MemoryHandlers.RetainedStep` | src/handler/handlers/memory.ts:112-127 | One push and one `manageMemory` step turn the reference of the accepted records into the reference of one more. |
| `MemoryHandlers.RetainedStepShift` | src/handler/handlers/memory.ts:96-101 | Without auto-clear, an overflow removes exactly the oldest record. |
| `MemoryHandlers.RetainedStepClear` | src/handler/handlers/memory.ts:90-95 | With auto-clear, an overflow empties the buffer, and the cycle starts again. |
| `MemoryHandlers.RetainedNewest` | src/handler/handlers/memory.ts:96-101 | Without auto-clear the buffer holds the last `maxRecords` accepted records in arrival order. |
| `MemoryHandlers.RetainedAutoClearEmpties` | src/handler/handlers/memory.ts:90-95 | With auto-clear, the record that overflows a full buffer leaves it empty. |
| `MemoryHandlers.Select` | src/handler/handlers/memory.ts:135-142 | `filter` keeps exactly the elements that satisfy the predicate. |
| `MemoryHandlers.SelectAppend` | src/handler/handlers/memory.ts:135-142 | Filtering distributes over concatenation, so order is kept. |
| `MemoryHandlers.SelectAll` | src/handler/handlers/memory.ts:181-182 | A predicate that accepts everything keeps the whole buffer. |
| `MemoryHandlers.SelectSnoc` | src/handler/handlers/memory.ts:135-142 | A later record goes at the end of a query's answer when it matches. |
| `MemoryHandlers.UnderLoggerTransitive` | src/handler/handlers/memory.ts:139 | A record of a descendant is under every ancestor along the dotted path. |
| `MemoryHandlers.UnderLoggerChild` | src/handler/handlers/memory.ts:139 | `n.x` is under `n`; `nx` is not. |
| `MemoryHandlers.MemoryHandler.constructor` | src/handler/handlers/memory.ts:75-85 | The options default to level 0, the basic formatter, 1000 records, no auto-clear and a 90% threshold. The buffer starts empty, without a warning. |
| `MemoryHandlers.MemoryHandler.ManageMemory` | src/handler/handlers/memory.ts:88-109 | An overflow evicts, tells the callback the new size, and resets the flag. Otherwise the first size at or above the threshold prints one warning and sets the flag. At most one warning is printed per fill cycle. |
| `MemoryHandlers.MemoryHandler.Handle` | src/handler/handlers/memory.ts:112-127 | A dropped record changes nothing. An admitted one is pushed and the buffer managed. The buffer stays the `Retained` reference of the accepted records, with at most one warning per fill cycle. |
| `MemoryHandlers.MemoryHandler.GetRecords` | src/handler/handlers/memory.ts:133 | A copy of the buffer: the retained reference of the accepted records, never above the capacity. |
| `MemoryHandlers.MemoryHandler.GetRecordsByLevel` | src/handler/handlers/memory.ts:135-136 | Exactly the stored records at the level or above, in order. |
| `MemoryHandlers.MemoryHandler.GetRecordsByLogger` | src/handler/handlers/memory.ts:138-139 | Exactly the stored records whose name is the given name or starts with it followed by a dot, in order. |
| `MemoryHandlers.MemoryHandler.GetRecordsByTimeRange` | src/handler/handlers/memory.ts:141-142 | Exactly the stored records stamped within the closed range, in order. |
| `MemoryHandlers.MemoryHandler.FindRecords` | src/handler/handlers/memory.ts:181-182 | Exactly the stored records the predicate accepts, in buffer order: the `Select` reference. |
| `MemoryHandlers.MemoryHandler.GetFormattedLogs` | src/handler/handlers/memory.ts:149-150 | One line per stored record, in order, each through the handler's formatter. |
| `MemoryHandlers.MemoryHandler.Size` | src/handler/handlers/memory.ts:152 | The number of stored records, never above the capacity (`maxRecords`, or 0 when it is negative). |
| `MemoryHandlers.MemoryHandler.GetStats` | src/handler/handlers/memory.ts:154-167 | Size and maximum. Oldest and newest stamps are present exactly when the buffer is non-empty, and are its first and last records' stamps. |
| `MemoryHandlers.MemoryHandler.Clear` | src/handler/handlers/memory.ts:144-147 | The buffer is empty, the flag reset, and a new fill cycle begins. |
| `ConsoleHandlers.DefaultFormatter` | src/handler/handlers/console.ts:26 | The default formatter is `basicFormatter` and never throws. |
| `ConsoleHandlers.ChooseChannel` | src/handler/handlers/console.ts:47-53 | The error channel exactly for ERROR and above with `useStderr`. Otherwise warn exactly for WARNING and above with `useWarn`. Otherwise log. |
| `ConsoleHandlers.ChannelBands` | src/handler/handlers/console.ts:47-53 | With both options on, the channel follows the level bands. |
| `ConsoleHandlers.ErrorsToWarnWithoutStderr` | src/handler/handlers/console.ts:47-52 | Without `useStderr`, ERROR and above go to warn, or to log without `useWarn`. |
| `ConsoleHandlers.CreateConsoleHandler` | src/handler/handlers/console.ts:23-29 | The defaults are level 0, `basicFormatter`, no filter, `useStderr` and `useWarn`. |
| `ConsoleHandlers.DefaultConsoleHandler` | src/handler/handlers/console.ts:25-29 | The default handler admits every record and prints the basic layout. |
| `ConsoleHandlers.Handle` | src/handler/handlers/console.ts:32-57 | A dropped record prints nothing. Otherwise exactly one line is printed: the formatted text with the record's arguments on the chosen channel, or the diagnostic on the error channel when formatting throws. |
| `StreamHandlers.CreateStreamHandler` | src/handler/handlers/stream.ts:23-28 | The defaults are level 0, `basicFormatter` and no filter; `write` and `onError` are kept. |
| `StreamHandlers.CaughtError` | src/handler/handlers/stream.ts:40-43 | The caught error is the formatter's, or else the one the single write throws. |
| `StreamHandlers.Handle` | src/handler/handlers/stream.ts:30-50 | A dropped record causes no write. An admitted one causes exactly one `write(formatted + "\n")`, or none when formatting throws. A caught error goes to `onError` when given, else to the console's error channel, and is never rethrown. |

## Left out

- The module-load auto-configuration in `src/index.ts` is not part of this model. It reads the process or browser environment, so in real use the configuration is already set after import. `src/index.ts` otherwise repeats the facade of `src/api.ts`.
- The file, browser and JSON handlers and the JSON formatter are not part of this model. They are file and storage I/O, or wrappers over `JSON.stringify` and object key order.
- Date and locale rendering are the host's. `toISOString`, `toLocaleString` and `toTimeString` are given as fields of `Instant`. Only the 'short' and 'time' derivations are modelled, as string operations. The `default` branch of `formatTimestamp` is unreachable for the four named formats.
- The colorized formatter's terminal detection (`shouldEnableColors`) is host I/O, so `enabled` is an explicit input.
- CustomFormatters.TemplateFormat: requires that the record's timestamp, level name, name and message hold no `$`. JavaScript's `$&`/`$n` replacement patterns are not modelled.
- ColorizedFormatters.LevelColor: a level name that is an inherited JavaScript object key (such as `constructor`) is treated as absent from the color map.
- The memory handler's `exportAsJson` and the `memoryUsagePercent` of `getStats` are not modelled, because they are JSON rendering and floating-point rounding.
- MemoryHandlers.DefaultWarnThreshold: computed exactly as the floor of 9 × maxRecords / 10 for integral `maxRecords`. The binary rounding of `maxRecords * 0.9` is not modelled, nor are non-integral `maxRecords` and `warnThreshold` values.
- Throwing filters and throwing callbacks (`onMemoryLimit`, `onError`, the console methods) are not modelled. Each is assumed to return, and its calls are recorded.
- MemoryHandlers.MemoryHandler.GetFormattedLogs: the formatter is total here. A throwing formatter, whose error would propagate out of `getFormattedLogs`, is not modelled.
- StreamHandlers.Handle: a `write` that throws is modelled as having had no effect of its own. Only the attempt is recorded.
- Loggers.Logger.Handle: each caught handler error is counted. The text of the `console.error` diagnostic is not recorded.
- `withContext` (a stub returning the logger itself) and the dynamic `require` in `getLoggerClass` are left out. The registry always creates plain loggers.
- `getChildren` and `hasChild` read the children map, which `Loggers.Logger.Info` exposes through the keys in insertion order. They have no members of their own.
- Levels.GetLevelByName, Levels.GetLevelByNameCaseInsensitive and LevelUtils.ParseLevel: upper-casing (`toUpperCase`) is modelled for ASCII letters only. JavaScript also maps 'ı' to 'I' and 'ſ' to 'S', so `getLevelByName("ınfo")` is INFO (20) in the source and None here.
- Levels are integers throughout (levels, level utilities, loggers, the handler gate and the handlers). The source's levels are JavaScript numbers, so fractional and NaN levels are not modelled: `getLevelName(15.5)` reads `"Level 15.5"` and `parseLevel(NaN)` gives INFO there.
- Handlers and formatters are compared by identity in the source. Here they are values of an identity datatype (`Refs`), and a handler's behaviour is a parameter.
- Config.LoggingConfig.constructor: the source calls `createConsoleHandler()` for each configuration object, so two default handlers are distinct objects. Here every default handler is the one identity `DefaultConsole`, and they compare equal.
- Config.LoggingConfig.Reset: the same; the default handler from before a reset and the one after it compare equal here and are distinct in the source.
- Reentrancy is not modelled: a handler that logs again while being dispatched.
- Registries.Registry.GetLogger: for a new name whose parent is missing, the anchor (the nearest existing ancestor, or the root) gains the entry of the last logger the call creates, and its frame allows no other existing table to change. No postcondition says that the anchor's other entries and their order are kept in that case. When the parent already existed, they are stated.
- Registries.Registry.Create, Registries.Registry.SetupHierarchy, Registries.Registry.AttachToParent, Registries.Registry.GetChild, Api.Logging.GetLogger, Api.Logging.SetLevel and Api.Logging.AddHandler: the same gap for a missing parent. `Create`, `GetChild` and the three `Api.Logging` members carry `GetLogger`'s promises, and `SetupHierarchy` and `AttachToParent` are the steps that make them.
- The root's children are keyed by last segment, so `"x"` and `"root.x"` share the key `"x"`, and a later creation overwrites the earlier entry.
- There is no standing invariant that every registered logger is wired as its name dictates. `GetLogger` promises wiring and child entries for every logger it creates, and that older links are unchanged.
- LevelUtils.GetLevelForEnvironment: the table lookup is a JavaScript property access, so an inherited key such as `constructor` or `toString` yields a function rather than a number, which `|| Level.INFO` keeps. The model treats every name outside the four keys as unknown and returns INFO.
- LevelUtils.GetLevelForEnvironment: with an empty or missing argument and no `process` global (a browser), `process?.env` throws a ReferenceError, because optional chaining does not guard an undeclared identifier. The model takes NODE_ENV as an optional input and never throws.
- DetailedFormatters.ExtraText: `JSON.stringify` of an `extra` value can throw, for a BigInt or a circular structure (detailed.ts:64-66). Here each extra value is already rendered text, so formatting never throws.
- Loggers.Logger.Dispatch: a handler's behaviour is a fixed function of the handler and the record. A handler reached twice in one fan-out, for example as a global handler of two loggers on the chain, acts the same both times. A stateful handler that acts differently on its second call is not modelled.
