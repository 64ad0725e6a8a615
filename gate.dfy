/**
 * What every built-in handler checks before it does anything with a record: its own
 * level, then its optional filter.
 */
module HandlerGates {
  import opened Wrappers
  import opened Levels
  import opened LogRecords

  /** A handler's `filter` option: keeps the records it returns true for. */
  type RecordFilter = LogRecord -> bool

  /**
   * The shared gate: a positive handler level drops records below it (level 0, the
   * default, keeps everything), and a filter, when given, must accept the record.
   */
  predicate Admits(level: int, filter: Option<RecordFilter>, r: LogRecord) {
    !(level > 0 && !IsLevelEnabled(level, r.level)) && !(filter.Some? && !filter.value(r))
  }

  /** A record is dropped exactly when the level is positive and above the record's, or the filter rejects it. */
  lemma DroppedIff(level: int, filter: Option<RecordFilter>, r: LogRecord)
    ensures !Admits(level, filter, r) <==> (level > 0 && level > r.level) || (filter.Some? && !filter.value(r))
  {
  }

  /** The default options, level 0 and no filter, admit every record. */
  lemma DefaultsAdmitAll(r: LogRecord)
    ensures Admits(0, None, r)
  {
  }

  /** Raising the record's level never turns an admitted record away when the filter agrees. */
  lemma AdmitsMonotone(level: int, filter: Option<RecordFilter>, r: LogRecord, r': LogRecord)
    requires Admits(level, filter, r) && r.level <= r'.level
    requires filter.None? || filter.value(r')
    ensures Admits(level, filter, r')
  {
  }
}
