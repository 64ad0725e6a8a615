/**
 * The memory handler: a bounded in-memory buffer of records with eviction of the oldest
 * record (or a full clear) on overflow, a one-shot warning when the buffer nears its
 * limit, and queries over the buffer.
 */
module MemoryHandlers {
  import opened Wrappers
  import opened Levels
  import opened LogRecords
  import opened Strings
  import opened BasicFormatters
  import opened HandlerGates

  // ---------- options ----------

  /**
   * The options of `createMemoryHandler`; a missing option takes its default.
   * `onMemoryLimit` says only whether a callback was given: its calls are recorded.
   */
  datatype MemoryConfig = MemoryConfig(
    level: Option<int>,
    formatter: Option<Formatter>,
    filter: Option<RecordFilter>,
    maxRecords: Option<int>,
    autoClear: Option<bool>,
    warnThreshold: Option<int>,
    onMemoryLimit: bool)

  const DEFAULT_MAX_RECORDS: int := 1000

  /** `Math.floor(maxRecords * 0.9)`: the largest integer whose tenfold is at most nine times the maximum. */
  function DefaultWarnThreshold(maxRecords: int): (t: int)
    ensures 10 * t <= 9 * maxRecords < 10 * t + 10
    ensures 0 <= maxRecords ==> 0 <= t <= maxRecords
  {
    (9 * maxRecords) / 10
  }

  // ---------- the buffer as a function of what was accepted ----------

  /** How many records the buffer can hold: a negative maximum holds none, like 0. */
  function Capacity(maxRecords: int): nat {
    if maxRecords < 0 then 0 else maxRecords
  }

  function Min(a: int, b: int): int {
    if a <= b then a else b
  }

  /** What `manageMemory` leaves of a buffer that has just grown by one push. */
  function Evict(buffer: seq<LogRecord>, maxRecords: int, autoClear: bool): (kept: seq<LogRecord>)
    requires |buffer| > 0
    ensures |kept| <= |buffer| && kept == buffer[|buffer| - |kept|..]
    ensures |buffer| <= maxRecords ==> kept == buffer
    ensures |buffer| > maxRecords && autoClear ==> kept == []
    ensures |buffer| > maxRecords && !autoClear ==> |kept| == |buffer| - 1
    ensures |buffer| <= Capacity(maxRecords) + 1 ==> |kept| <= Capacity(maxRecords)
  {
    if |buffer| > maxRecords then (if autoClear then [] else buffer[1..]) else buffer
  }

  /**
   * How many records an auto-clearing buffer of capacity `c` holds after `n` were
   * accepted: it counts up to `c`, and the next record overflows and empties it.
   */
  function ClearCycle(n: nat, c: nat): (k: nat)
    ensures k <= c && k <= n
  {
    if n == 0 then 0
    else
      var k := ClearCycle(n - 1, c);
      if k == c then 0 else k + 1
  }

  /**
   * The records the buffer holds after `accepted` were let through in this order, as
   * a newest-first suffix: without auto-clear the last `Capacity` of them; with it, the
   * ones since the last overflow emptied the buffer.
   */
  function Retained(accepted: seq<LogRecord>, maxRecords: int, autoClear: bool): (kept: seq<LogRecord>)
    ensures |kept| <= Capacity(maxRecords) && |kept| <= |accepted|
    ensures forall i :: 0 <= i < |kept| ==> kept[i] == accepted[|accepted| - |kept| + i]
  {
    var n := |accepted|;
    var keep := if autoClear then ClearCycle(n, Capacity(maxRecords)) else Min(n, Capacity(maxRecords));
    accepted[n - keep..]
  }

  lemma {:induction false} MulAtLeast(d: int, m: int)
    requires d >= 1 && m > 0
    ensures d * m >= m
  {
    if d > 1 {
      MulAtLeast(d - 1, m);
      assert d * m == (d - 1) * m + m;
    }
  }

  /** A remainder is determined by any quotient-and-remainder decomposition. */
  lemma ModUnique(x: int, m: int, q: int, k: int)
    requires 0 <= k < m && x == q * m + k
    ensures x % m == k
  {
    var q', k' := x / m, x % m;
    assert x == q' * m + k';
    if q > q' { MulAtLeast(q - q', m); }
    if q < q' { MulAtLeast(q' - q, m); }
  }

  /** The remainder after one more step: it grows by one, or wraps to 0 after `m - 1`. */
  lemma ModStep(n: nat, m: nat)
    requires m > 0
    ensures (n + 1) % m == if n % m == m - 1 then 0 else n % m + 1
  {
    var q, k := n / m, n % m;
    assert n == q * m + k;
    if k == m - 1 {
      ModUnique(n + 1, m, q + 1, 0);
    } else {
      ModUnique(n + 1, m, q, k + 1);
    }
  }

  /** One push and one eviction step without auto-clear: the newest `Capacity` records of one more. */
  lemma RetainedStepShift(accepted: seq<LogRecord>, r: LogRecord, maxRecords: int)
    ensures Evict(Retained(accepted, maxRecords, false) + [r], maxRecords, false) ==
            Retained(accepted + [r], maxRecords, false)
  {
    var n, c := |accepted|, Capacity(maxRecords);
    var next := accepted + [r];
    var k := Min(n, c);
    var buffer := accepted[n - k..] + [r];
    assert buffer == next[n - k..];
    if |buffer| > maxRecords {
      assert k == c && Min(n + 1, c) == c;
      assert buffer[1..] == next[n + 1 - c..];
    } else {
      assert k == n && Min(n + 1, c) == n + 1;
    }
  }

  /** One push and one eviction step with auto-clear: the cycle count advances by one record, or wraps. */
  lemma RetainedStepClear(accepted: seq<LogRecord>, r: LogRecord, maxRecords: int)
    ensures Evict(Retained(accepted, maxRecords, true) + [r], maxRecords, true) ==
            Retained(accepted + [r], maxRecords, true)
  {
    var n, c := |accepted|, Capacity(maxRecords);
    var next := accepted + [r];
    var k := ClearCycle(n, c);
    assert ClearCycle(n + 1, c) == if k == c then 0 else k + 1;
    assert Retained(accepted, maxRecords, true) == accepted[n - k..];
    var buffer := accepted[n - k..] + [r];
    if k == c {
      assert |buffer| > maxRecords;
      assert Retained(next, maxRecords, true) == [];
    } else {
      assert |buffer| <= maxRecords;
      assert buffer == next[n - k..] == Retained(next, maxRecords, true);
    }
  }

  /**
   * Pushing the next accepted record and running `manageMemory` keeps the buffer equal
   * to `Retained`: one push, then one eviction step, is the reference on one more record.
   */
  lemma RetainedStep(accepted: seq<LogRecord>, r: LogRecord, maxRecords: int, autoClear: bool)
    ensures Evict(Retained(accepted, maxRecords, autoClear) + [r], maxRecords, autoClear) ==
            Retained(accepted + [r], maxRecords, autoClear)
  {
    if autoClear {
      RetainedStepClear(accepted, r, maxRecords);
    } else {
      RetainedStepShift(accepted, r, maxRecords);
    }
  }

  /** Without auto-clear, once `Capacity` records were accepted, the buffer is the newest `Capacity` of them in arrival order. */
  lemma RetainedNewest(accepted: seq<LogRecord>, maxRecords: int)
    requires |accepted| >= Capacity(maxRecords)
    ensures var kept := Retained(accepted, maxRecords, false);
      |kept| == Capacity(maxRecords) &&
      forall i :: 0 <= i < |kept| ==> kept[i] == accepted[|accepted| - Capacity(maxRecords) + i]
  {
  }

  /** With auto-clear, the record that overflows a full buffer leaves it empty. */
  lemma RetainedAutoClearEmpties(accepted: seq<LogRecord>, r: LogRecord, maxRecords: int)
    requires |Retained(accepted, maxRecords, true)| == Capacity(maxRecords)
    ensures Retained(accepted + [r], maxRecords, true) == []
  {
    assert ClearCycle(|accepted| + 1, Capacity(maxRecords)) == 0;
  }

  /** The auto-clear cycle empties the buffer on every `Capacity + 1`-th accepted record. */
  lemma {:induction false} ClearCycleIsRemainder(n: nat, c: nat)
    ensures ClearCycle(n, c) == n % (c + 1)
  {
    if n > 0 {
      ClearCycleIsRemainder(n - 1, c);
      ModStep(n - 1, c + 1);
    }
  }

  // ---------- filtering ----------

  /** `s.filter(p)`: the elements that satisfy `p`, in their order. */
  function Select(s: seq<LogRecord>, p: RecordFilter): (r: seq<LogRecord>)
    ensures |r| <= |s|
    ensures forall x :: x in r <==> x in s && p(x)
  {
    if |s| == 0 then []
    else
      var rest := Select(s[1..], p);
      assert forall x :: x in s <==> x == s[0] || x in s[1..];
      if p(s[0]) then [s[0]] + rest else rest
  }

  /** Filtering distributes over concatenation, so it keeps the relative order of the elements. */
  lemma {:induction false} SelectAppend(a: seq<LogRecord>, b: seq<LogRecord>, p: RecordFilter)
    ensures Select(a + b, p) == Select(a, p) + Select(b, p)
  {
    if |a| > 0 {
      assert (a + b)[1..] == a[1..] + b;
      SelectAppend(a[1..], b, p);
    } else {
      assert a + b == b;
    }
  }

  /** A predicate that every element satisfies keeps the whole sequence. */
  lemma {:induction false} SelectAll(s: seq<LogRecord>, p: RecordFilter)
    requires forall i :: 0 <= i < |s| ==> p(s[i])
    ensures Select(s, p) == s
  {
    if |s| > 0 {
      SelectAll(s[1..], p);
    }
  }

  /** `record.name === loggerName || record.name.startsWith(loggerName + ".")`. */
  predicate UnderLogger(name: string, loggerName: string) {
    name == loggerName || loggerName + "." <= name
  }

  /** A record under a descendant logger is under every ancestor along the dotted path. */
  lemma UnderLoggerTransitive(a: string, b: string, c: string)
    requires UnderLogger(a, b) && UnderLogger(b, c)
    ensures UnderLogger(a, c)
  {
    if a != b && b != c {
      assert (c + ".") <= b;
      assert b[..|c| + 1] == c + ".";
      assert a[..|b|] == b;
      assert a[..|c| + 1] == b[..|c| + 1];
    }
  }

  /**
   * A name one dotted step below `n` is under `n`; a name that merely starts with `n`
   * ("apple" for "app") is not.
   */
  lemma UnderLoggerChild(n: string, segment: string)
    ensures UnderLogger(n + "." + segment, n)
    ensures segment != "" && segment[0] != '.' ==> !UnderLogger(n + segment, n)
  {
    assert (n + "." + segment)[..|n| + 1] == n + ".";
    if segment != "" && segment[0] != '.' {
      assert (n + segment)[|n|] == segment[0];
    }
  }

  // ---------- the handler ----------

  /** The text of the diagnostic printed when the buffer nears its limit. */
  function WarningText(size: int, maxRecords: int): string {
    "Memory handler approaching limit: " + IntToString(size) + "/" + IntToString(maxRecords) + " records"
  }

  /** `getStats()` without the rounded percentage. */
  datatype MemoryStats = MemoryStats(size: nat, maxRecords: int, oldestRecord: Option<Instant>, newestRecord: Option<Instant>)

  /** The handler returned by `createMemoryHandler` with its closure state and its query API. */
  class MemoryHandler {
    const level: int
    const formatter: Formatter
    const filter: Option<RecordFilter>
    const maxRecords: int
    const autoClear: bool
    const warnThreshold: int
    const hasMemoryLimitCallback: bool

    /** The buffer, oldest record first. */
    var records: seq<LogRecord>
    var warningIssued: bool
    /** The `(currentSize, maxSize)` arguments of each `onMemoryLimit` call, oldest first. */
    var limitCalls: seq<(int, int)>
    /**
     * The `(size, maxRecords)` of each "approaching limit" diagnostic printed with
     * `console.warn`, oldest first; the printed line is `WarningText(size, maxRecords)`.
     */
    var warnings: seq<(int, int)>
    /** The records the gate let through since creation or the last `clear`. */
    ghost var accepted: seq<LogRecord>
    /** Where in `warnings` the current fill cycle began (the last overflow or `clear`). */
    ghost var cycleStart: nat

    /**
     * The buffer is the reference function of what was accepted; the current fill cycle
     * has printed one warning if the flag is set and none otherwise; and the flag is set
     * only while the buffer is at or above the threshold.
     */
    ghost predicate Valid()
      reads this
    {
      records == Retained(accepted, maxRecords, autoClear) && OneWarningPerCycle()
    }

    ghost predicate OneWarningPerCycle()
      reads this
    {
      cycleStart <= |warnings| &&
      |warnings| - cycleStart == (if warningIssued then 1 else 0) &&
      (warningIssued ==> warnThreshold <= |records|)
    }

    /** `createMemoryHandler(config)`: the options resolved, an empty buffer, no warning yet. */
    constructor (config: MemoryConfig)
      ensures Valid()
      ensures level == config.level.GetOr(0)
      ensures formatter == config.formatter.GetOr(BasicFormatter)
      ensures filter == config.filter
      ensures maxRecords == config.maxRecords.GetOr(DEFAULT_MAX_RECORDS)
      ensures autoClear == config.autoClear.GetOr(false)
      ensures warnThreshold == config.warnThreshold.GetOr(DefaultWarnThreshold(maxRecords))
      ensures hasMemoryLimitCallback == config.onMemoryLimit
      ensures records == [] && !warningIssued && limitCalls == [] && warnings == [] && accepted == []
    {
      level := config.level.GetOr(0);
      formatter := config.formatter.GetOr(BasicFormatter);
      filter := config.filter;
      var max := config.maxRecords.GetOr(DEFAULT_MAX_RECORDS);
      maxRecords := max;
      autoClear := config.autoClear.GetOr(false);
      warnThreshold := config.warnThreshold.GetOr(DefaultWarnThreshold(max));
      hasMemoryLimitCallback := config.onMemoryLimit;
      records := [];
      warningIssued := false;
      limitCalls := [];
      warnings := [];
      accepted := [];
      cycleStart := 0;
    }

    /**
     * `manageMemory()`, run right after a push: an overflowing buffer is emptied
     * (auto-clear) or loses its oldest record, the callback hears the new size, and the
     * flag is reset; otherwise the first time the size reaches the threshold a warning is
     * printed and the flag set.
     */
    method ManageMemory()
      requires |records| > 0 && OneWarningPerCycle()
      modifies this`records, this`warningIssued, this`limitCalls, this`warnings, this`cycleStart
      ensures OneWarningPerCycle()
      ensures records == Evict(old(records), maxRecords, autoClear)
      ensures |old(records)| > maxRecords ==>
        !warningIssued && warnings == old(warnings) && cycleStart == |warnings| &&
        limitCalls == old(limitCalls) + (if hasMemoryLimitCallback then [(|records|, maxRecords)] else [])
      ensures |old(records)| <= maxRecords ==> limitCalls == old(limitCalls) && cycleStart == old(cycleStart)
      ensures |old(records)| <= maxRecords && warnThreshold <= |records| && !old(warningIssued) ==>
        warningIssued && warnings == old(warnings) + [(|records|, maxRecords)]
      ensures |old(records)| <= maxRecords && !(warnThreshold <= |records| && !old(warningIssued)) ==>
        warningIssued == old(warningIssued) && warnings == old(warnings)
    {
      if |records| > maxRecords {
        if autoClear {
          records := [];
          if hasMemoryLimitCallback {
            limitCalls := limitCalls + [(0, maxRecords)];
          }
        } else {
          records := records[1..];
          if hasMemoryLimitCallback {
            limitCalls := limitCalls + [(|records|, maxRecords)];
          }
        }
        warningIssued := false;
        cycleStart := |warnings|;
      } else if |records| >= warnThreshold && !warningIssued {
        warnings := warnings + [(|records|, maxRecords)];
        warningIssued := true;
      }
    }

    /**
     * The handler closure: a record the gate admits is pushed and the buffer managed;
     * any other record changes nothing.
     */
    method Handle(r: LogRecord)
      requires Valid()
      modifies this`records, this`accepted, this`warningIssued, this`limitCalls, this`warnings, this`cycleStart
      ensures Valid()
      ensures !Admits(level, filter, r) ==>
        records == old(records) && accepted == old(accepted) && warningIssued == old(warningIssued) &&
        limitCalls == old(limitCalls) && warnings == old(warnings)
      ensures Admits(level, filter, r) ==>
        accepted == old(accepted) + [r] && records == Evict(old(records) + [r], maxRecords, autoClear)
      ensures Admits(level, filter, r) && |old(records)| + 1 > maxRecords ==>
        !warningIssued && warnings == old(warnings) &&
        limitCalls == old(limitCalls) + (if hasMemoryLimitCallback then [(|records|, maxRecords)] else [])
      ensures Admits(level, filter, r) && |old(records)| + 1 <= maxRecords ==> limitCalls == old(limitCalls)
      ensures Admits(level, filter, r) && |old(records)| + 1 <= maxRecords &&
              warnThreshold <= |records| && !old(warningIssued) ==>
        warningIssued && warnings == old(warnings) + [(|records|, maxRecords)]
      ensures Admits(level, filter, r) && |old(records)| + 1 <= maxRecords &&
              !(warnThreshold <= |records| && !old(warningIssued)) ==>
        warningIssued == old(warningIssued) && warnings == old(warnings)
    {
      if level > 0 && !IsLevelEnabled(level, r.level) {
        return;
      }
      if filter.Some? && !filter.value(r) {
        return;
      }
      assert Admits(level, filter, r);
      RetainedStep(accepted, r, maxRecords, autoClear);
      records := records + [r];
      accepted := accepted + [r];
      ghost var pushed, w0, f0 := accepted, warnings, warningIssued;
      assert w0 == old(warnings) && f0 == old(warningIssued);
      ManageMemory();
      assert accepted == pushed;
      assert |old(records)| + 1 <= maxRecords && !(warnThreshold <= |records| && !f0) ==> warnings == w0;
    }

    /** `getRecords()`: a copy of the buffer, which is what was retained of the accepted records. */
    function GetRecords(): (rs: seq<LogRecord>)
      reads this
      requires Valid()
      ensures rs == Retained(accepted, maxRecords, autoClear)
      ensures |rs| <= Capacity(maxRecords)
    {
      records
    }

    /** `getRecordsByLevel(l)`: the stored records at level `l` or above, in order. */
    function GetRecordsByLevel(l: int): (rs: seq<LogRecord>)
      reads this
      ensures rs == Select(records, (x: LogRecord) => x.level >= l)
      ensures forall x :: x in rs <==> x in records && x.level >= l
    {
      Select(records, (x: LogRecord) => x.level >= l)
    }

    /** `getRecordsByLogger(n)`: the stored records of logger `n` and of the loggers below it, in order. */
    function GetRecordsByLogger(n: string): (rs: seq<LogRecord>)
      reads this
      ensures rs == Select(records, (x: LogRecord) => UnderLogger(x.name, n))
      ensures forall x :: x in rs <==> x in records && (x.name == n || n + "." <= x.name)
    {
      Select(records, (x: LogRecord) => UnderLogger(x.name, n))
    }

    /** `getRecordsByTimeRange(start, end)`: the stored records stamped within `[start, end]`, in order. */
    function GetRecordsByTimeRange(start: int, end: int): (rs: seq<LogRecord>)
      reads this
      ensures rs == Select(records, (x: LogRecord) => start <= x.timestamp.millis <= end)
      ensures forall x :: x in rs <==> x in records && start <= x.timestamp.millis <= end
    {
      Select(records, (x: LogRecord) => start <= x.timestamp.millis <= end)
    }

    /** `findRecords(p)`: the stored records `p` accepts, in order. */
    function FindRecords(p: RecordFilter): (rs: seq<LogRecord>)
      reads this
      ensures rs == Select(records, p)
      ensures forall x :: x in rs <==> x in records && p(x)
      ensures |rs| <= |records|
    {
      Select(records, p)
    }

    /** `getFormattedLogs()`: each stored record through the handler's formatter, in order. */
    function GetFormattedLogs(): (lines: seq<string>)
      reads this
      ensures |lines| == |records|
      ensures forall i :: 0 <= i < |records| ==> lines[i] == formatter(records[i])
    {
      seq(|records|, i requires 0 <= i < |records| reads this => formatter(records[i]))
    }

    /** `size()`: the number of stored records, never above the capacity. */
    function Size(): (n: nat)
      reads this
      requires Valid()
      ensures n == |records| && n <= Capacity(maxRecords)
    {
      |records|
    }

    /** `getStats()`: the size, the maximum, and the stamps of the oldest and newest stored records. */
    function GetStats(): (s: MemoryStats)
      reads this
      ensures s.size == |records| && s.maxRecords == maxRecords
      ensures s.oldestRecord.Some? <==> |records| > 0
      ensures s.newestRecord.Some? <==> |records| > 0
      ensures |records| > 0 ==>
        s.oldestRecord == Some(records[0].timestamp) && s.newestRecord == Some(records[|records| - 1].timestamp)
    {
      var size := |records|;
      MemoryStats(size, maxRecords,
        if size > 0 then Some(records[0].timestamp) else None,
        if size > 0 then Some(records[size - 1].timestamp) else None)
    }

    /** `clear()`: the buffer emptied and the warning flag reset; a new fill cycle begins. */
    method Clear()
      modifies this`records, this`warningIssued, this`accepted, this`cycleStart
      ensures Valid()
      ensures records == [] && !warningIssued && accepted == []
    {
      records := [];
      warningIssued := false;
      accepted := [];
      cycleStart := |warnings|;
    }
  }

  /** A record that arrives later is appended to a query's answer when it matches, and leaves it alone otherwise. */
  lemma SelectSnoc(s: seq<LogRecord>, r: LogRecord, p: RecordFilter)
    ensures Select(s + [r], p) == Select(s, p) + (if p(r) then [r] else [])
  {
    SelectAppend(s, [r], p);
    assert [r][1..] == [];
  }
}
