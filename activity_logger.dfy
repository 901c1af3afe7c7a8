/** The activity log (activity-logger.js): an in-memory sequence of entries capped at `maxLogs`,
    oldest evicted first, with conjunctive filtering, per-level and per-module counters and a
    CSV export. */
module ActivityLog {
  import opened Wrappers
  import opened Seqs
  import Text

  /** What the clock and the random source supply when an entry is made: the opaque id
      (`Date.now() + Math.random()`), the ISO text of the moment, and that moment in milliseconds
      (what `new Date(timestamp)` denotes). */
  datatype Stamp = Stamp(id: int, timestamp: string, time: int)

  /** One log entry. `data` is the JSON text of the attached payload; `None` stands for a
      missing (or falsy) payload. */
  datatype Entry = Entry(id: int, timestamp: string, time: int, moduleName: string, message: string,
                         level: string, data: Option<string>)

  /** What `localStorage.getItem('activityLogs')` yields when the logger initialises. */
  datatype StoredLogs = NothingStored | Stored(entries: seq<Entry>) | Unreadable

  const MaxLogs: nat := 1000
  const SystemModule := "系统"
  const InitNotice := "日志系统初始化成功"
  const ClearNotice := "日志已清空"

  function MakeEntry(stamp: Stamp, moduleName: string, message: string, level: string, data: Option<string>): Entry {
    Entry(stamp.id, stamp.timestamp, stamp.time, moduleName, message, level, data)
  }

  /** The buffer after `logs.push(e)` and `if (logs.length > cap) logs = logs.slice(-cap)`. */
  function Appended(s: seq<Entry>, e: Entry, cap: nat): seq<Entry> {
    var pushed := s + [e];
    if |pushed| > cap then SliceFrom(pushed, -(cap as int)) else pushed
  }

  /** With a positive cap the new entry ends the buffer, the buffer never exceeds the cap, and it
      is the newest `min(old + 1, cap)` entries of the old buffer followed by the new one. */
  lemma AppendedKeepsNewest(s: seq<Entry>, e: Entry, cap: nat)
    requires cap > 0
    ensures var r := Appended(s, e, cap);
      && |r| == Min(|s| + 1, cap) && |r| <= cap
      && r == (s + [e])[|s| + 1 - |r|..]
      && r[|r| - 1] == e
  {
  }

  /** The buffer grows by plain appending exactly while it holds fewer than `cap` entries. */
  lemma AppendEvictsOnlyWhenFull(s: seq<Entry>, e: Entry, cap: nat)
    requires cap > 0
    ensures (Appended(s, e, cap) == s + [e]) <==> |s| < cap
  {
    if |s| >= cap {
      assert |Appended(s, e, cap)| == cap < |s + [e]|;
    }
  }

  /** The buffer after logging each entry of `es` in turn. */
  function AppendedAll(s: seq<Entry>, es: seq<Entry>, cap: nat): seq<Entry>
    decreases |es|
  {
    if |es| == 0 then s else Appended(AppendedAll(s, es[..|es| - 1], cap), es[|es| - 1], cap)
  }

  /** Trimming after every push is the same as trimming once at the end. */
  lemma AppendedAfterTrim(t: seq<Entry>, x: Entry, cap: nat)
    requires cap > 0
    ensures Appended(if |t| > cap then t[|t| - cap..] else t, x, cap) == Appended(t, x, cap)
  {
    if |t| > cap {
      var u := t[|t| - cap..];
      assert (u + [x])[1..] == (t + [x])[|t| + 1 - cap..];
    }
  }

  /** FIFO eviction: logging a run of entries into a buffer within its cap leaves the newest
      `min(cap, total)` entries of the whole history, in order. */
  lemma {:induction false} AppendedAllKeepsNewest(s: seq<Entry>, es: seq<Entry>, cap: nat)
    requires cap > 0 && |s| <= cap
    ensures var all := s + es;
      AppendedAll(s, es, cap) == all[|all| - Min(cap, |all|)..]
    decreases |es|
  {
    if |es| > 0 {
      var init := es[..|es| - 1];
      var x := es[|es| - 1];
      AppendedAllKeepsNewest(s, init, cap);
      var t := s + init;
      assert AppendedAll(s, init, cap) == if |t| > cap then t[|t| - cap..] else t;
      AppendedAfterTrim(t, x, cap);
      AppendedKeepsNewest(t, x, cap);
      assert t + [x] == s + es;
    } else {
      assert s + es == s;
    }
  }

  /** The example of a cap of three: after five entries only the last three remain, in order. */
  lemma FifoEvictionExample(es: seq<Entry>)
    requires |es| == 5
    ensures AppendedAll([], es, 3) == es[2..]
  {
    AppendedAllKeepsNewest([], es, 3);
    assert [] + es == es;
  }

  /** The criteria of `getLogs`. An empty string or a zero limit means "not given", as a falsy
      value does in the source; the time bounds are the instants `new Date(...)` denotes. */
  datatype LogFilter = LogFilter(moduleName: string, level: string, startTime: Option<int>,
                                 endTime: Option<int>, limit: int)

  /** The four criteria, taken together. */
  predicate Matches(e: Entry, f: LogFilter) {
    && (f.moduleName != "" ==> e.moduleName == f.moduleName)
    && (f.level != "" ==> e.level == f.level)
    && (f.startTime.Some? ==> e.time >= f.startTime.value)
    && (f.endTime.Some? ==> e.time <= f.endTime.value)
  }

  /** The `n`-th criterion of `getLogs`, in the order it applies them; one not given accepts everything. */
  predicate Criterion(e: Entry, f: LogFilter, n: nat) {
    if n == 0 then f.moduleName != "" ==> e.moduleName == f.moduleName
    else if n == 1 then f.level != "" ==> e.level == f.level
    else if n == 2 then f.startTime.Some? ==> e.time >= f.startTime.value
    else f.endTime.Some? ==> e.time <= f.endTime.value
  }

  /** The first `n` criteria, taken together. */
  predicate MatchesFirst(e: Entry, f: LogFilter, n: nat) {
    n == 0 || (MatchesFirst(e, f, n - 1) && Criterion(e, f, n - 1))
  }

  function UpTo(f: LogFilter, n: nat): Entry -> bool {
    e => MatchesFirst(e, f, n)
  }

  /** Applying a given criterion to the entries that pass the earlier ones. */
  lemma Narrow(logs: seq<Entry>, f: LogFilter, n: nat, r: seq<Entry>, p: Entry -> bool)
    requires r == Filter(logs, UpTo(f, n))
    requires forall e :: p(e) == Criterion(e, f, n)
    ensures Filter(r, p) == Filter(logs, UpTo(f, n + 1))
  {
    FilterConjunction(logs, UpTo(f, n), p, UpTo(f, n + 1));
  }

  /** Passing over a criterion that is not given. */
  lemma Skip(logs: seq<Entry>, f: LogFilter, n: nat, r: seq<Entry>)
    requires r == Filter(logs, UpTo(f, n))
    requires forall e :: Criterion(e, f, n)
    ensures r == Filter(logs, UpTo(f, n + 1))
  {
    FilterSameAcceptance(logs, UpTo(f, n), UpTo(f, n + 1));
  }

  /** What `getLogs` does at its `n`-th step: narrows by the criterion when it is given. */
  function Narrowed(r: seq<Entry>, f: LogFilter, n: nat): seq<Entry> {
    if n == 0 then (if f.moduleName != "" then Filter(r, SameModule(f.moduleName)) else r)
    else if n == 1 then (if f.level != "" then Filter(r, SameLevel(f.level)) else r)
    else if n == 2 then (if f.startTime.Some? then Filter(r, NotBefore(f.startTime.value)) else r)
    else (if f.endTime.Some? then Filter(r, NotAfter(f.endTime.value)) else r)
  }

  /** Each step of `getLogs` turns the entries passing the first `n` criteria into those passing
      the first `n + 1`. */
  lemma Stage(logs: seq<Entry>, f: LogFilter, n: nat, r: seq<Entry>)
    requires n < 4 && r == Filter(logs, UpTo(f, n))
    ensures Narrowed(r, f, n) == Filter(logs, UpTo(f, n + 1))
  {
    if n == 0 { ModuleStage(logs, f, r); }
    else if n == 1 { LevelStage(logs, f, r); }
    else if n == 2 { StartStage(logs, f, r); }
    else { EndStage(logs, f, r); }
  }

  lemma ModuleStage(logs: seq<Entry>, f: LogFilter, r: seq<Entry>)
    requires r == Filter(logs, UpTo(f, 0))
    ensures Narrowed(r, f, 0) == Filter(logs, UpTo(f, 1))
  {
    if f.moduleName != "" { Narrow(logs, f, 0, r, SameModule(f.moduleName)); } else { Skip(logs, f, 0, r); }
  }

  lemma LevelStage(logs: seq<Entry>, f: LogFilter, r: seq<Entry>)
    requires r == Filter(logs, UpTo(f, 1))
    ensures Narrowed(r, f, 1) == Filter(logs, UpTo(f, 2))
  {
    if f.level != "" { Narrow(logs, f, 1, r, SameLevel(f.level)); } else { Skip(logs, f, 1, r); }
  }

  lemma StartStage(logs: seq<Entry>, f: LogFilter, r: seq<Entry>)
    requires r == Filter(logs, UpTo(f, 2))
    ensures Narrowed(r, f, 2) == Filter(logs, UpTo(f, 3))
  {
    if f.startTime.Some? { Narrow(logs, f, 2, r, NotBefore(f.startTime.value)); } else { Skip(logs, f, 2, r); }
  }

  lemma EndStage(logs: seq<Entry>, f: LogFilter, r: seq<Entry>)
    requires r == Filter(logs, UpTo(f, 3))
    ensures Narrowed(r, f, 3) == Filter(logs, UpTo(f, 4))
  {
    if f.endTime.Some? { Narrow(logs, f, 3, r, NotAfter(f.endTime.value)); } else { Skip(logs, f, 3, r); }
  }

  /** Passing the four criteria one after the other is matching them all at once. */
  lemma AllStagesAreTheConjunction(logs: seq<Entry>, f: LogFilter)
    ensures Filter(logs, UpTo(f, 4)) == Filter(logs, MatchesAll(f))
  {
    forall e ensures UpTo(f, 4)(e) == MatchesAll(f)(e) {
      assert MatchesFirst(e, f, 4) == (MatchesFirst(e, f, 3) && Criterion(e, f, 3));
      assert MatchesFirst(e, f, 3) == (MatchesFirst(e, f, 2) && Criterion(e, f, 2));
      assert MatchesFirst(e, f, 2) == (MatchesFirst(e, f, 1) && Criterion(e, f, 1));
    }
    FilterSameAcceptance(logs, UpTo(f, 4), MatchesAll(f));
  }

  /** After the four steps, the limit yields the query. */
  lemma StagesThenLimit(logs: seq<Entry>, f: LogFilter, r: seq<Entry>)
    requires r == Filter(logs, UpTo(f, 4))
    ensures (if f.limit != 0 then SliceFrom(r, -f.limit) else r) == Query(logs, f)
  {
    AllStagesAreTheConjunction(logs, f);
  }

  function SameModule(name: string): Entry -> bool { (e: Entry) => e.moduleName == name }
  function SameLevel(level: string): Entry -> bool { (e: Entry) => e.level == level }
  function NotBefore(t: int): Entry -> bool { (e: Entry) => e.time >= t }
  function NotAfter(t: int): Entry -> bool { (e: Entry) => e.time <= t }
  function MatchesAll(f: LogFilter): Entry -> bool { e => Matches(e, f) }

  /** The specification of `getLogs`: the matching entries, of which a given limit keeps
      `slice(-limit)`. */
  function Query(logs: seq<Entry>, f: LogFilter): seq<Entry> {
    var matching := Filter(logs, MatchesAll(f));
    if f.limit != 0 then SliceFrom(matching, -f.limit) else matching
  }

  /** Every returned entry is a logged entry that meets every given criterion. */
  lemma QuerySound(logs: seq<Entry>, f: LogFilter)
    ensures forall e :: e in Query(logs, f) ==> e in logs && Matches(e, f)
  {
  }

  /** The result keeps the order of the log. */
  lemma QueryKeepsOrder(logs: seq<Entry>, f: LogFilter)
    ensures IsSubsequence(Query(logs, f), logs)
  {
    var matching := Filter(logs, MatchesAll(f));
    FilterIsSubsequence(logs, MatchesAll(f));
    if f.limit != 0 {
      SubsequenceSuffix(matching, logs, |matching| - |SliceFrom(matching, -f.limit)|);
    }
  }

  /** Without a limit nothing that matches is dropped: each matching entry is returned as often
      as it was logged, and nothing else is. */
  lemma QueryWithoutLimitIsComplete(logs: seq<Entry>, f: LogFilter, e: Entry)
    requires f.limit == 0
    ensures multiset(Query(logs, f))[e] == if Matches(e, f) then multiset(logs)[e] else 0
  {
    FilterCount(logs, MatchesAll(f), e);
  }

  /** A positive limit keeps the most recent `min(limit, k)` of the `k` matching entries. */
  lemma QueryLimitKeepsMostRecent(logs: seq<Entry>, f: LogFilter)
    requires f.limit > 0
    ensures var m := Filter(logs, MatchesAll(f));
      var q := Query(logs, f);
      |q| == Min(f.limit, |m|) && q == m[|m| - |q|..]
  {
  }

  /** Occurrences of key `k` in `s`. */
  function Occurrences(s: seq<Entry>, key: Entry -> string, k: string): nat {
    |Filter(s, e => key(e) == k)|
  }

  function CountOf(m: map<string, nat>, k: string): nat {
    if k in m then m[k] else 0
  }

  /** The counter object `getStats` builds: `counts[key(e)] = (counts[key(e)] || 0) + 1` for
      each entry in turn. */
  function Tally(s: seq<Entry>, key: Entry -> string): map<string, nat>
    decreases |s|
  {
    if |s| == 0 then map[]
    else
      var m := Tally(s[..|s| - 1], key);
      var k := key(s[|s| - 1]);
      m[k := CountOf(m, k) + 1]
  }

  function LevelOf(e: Entry): string { e.level }
  function ModuleOf(e: Entry): string { e.moduleName }

  /** The counters hold a key exactly when it occurs, and then its number of occurrences. */
  lemma {:induction false} TallyCounts(s: seq<Entry>, key: Entry -> string, k: string)
    ensures CountOf(Tally(s, key), k) == Occurrences(s, key, k)
    ensures k in Tally(s, key) <==> Occurrences(s, key, k) > 0
    decreases |s|
  {
    if |s| > 0 {
      var init := s[..|s| - 1];
      TallyCounts(init, key, k);
      FilterAppend(init, [s[|s| - 1]], e => key(e) == k);
      assert init + [s[|s| - 1]] == s;
    }
  }

  /** The sum of a counter object's values over `keys`. */
  ghost function SumOver(m: map<string, nat>, keys: set<string>): nat
    decreases keys
  {
    if keys == {} then 0
    else
      var k :| k in keys;
      CountOf(m, k) + SumOver(m, keys - {k})
  }

  /** The sum of a counter object's values. */
  ghost function Sum(m: map<string, nat>): nat {
    SumOver(m, m.Keys)
  }

  lemma {:induction false} SumOverWithout(m: map<string, nat>, keys: set<string>, k: string)
    requires k in keys
    ensures SumOver(m, keys) == CountOf(m, k) + SumOver(m, keys - {k})
    decreases keys
  {
    var j :| j in keys && SumOver(m, keys) == CountOf(m, j) + SumOver(m, keys - {j});
    if j != k {
      SumOverWithout(m, keys - {j}, k);
      SumOverWithout(m, keys - {k}, j);
      assert keys - {j} - {k} == keys - {k} - {j};
    }
  }

  lemma {:induction false} SumOverAgree(m1: map<string, nat>, m2: map<string, nat>, keys: set<string>)
    requires forall x :: x in keys ==> CountOf(m1, x) == CountOf(m2, x)
    ensures SumOver(m1, keys) == SumOver(m2, keys)
    decreases keys
  {
    if keys != {} {
      var k :| k in keys;
      SumOverWithout(m1, keys, k);
      SumOverWithout(m2, keys, k);
      SumOverAgree(m1, m2, keys - {k});
    }
  }

  lemma SumIncrement(m: map<string, nat>, k: string)
    ensures Sum(m[k := CountOf(m, k) + 1]) == Sum(m) + 1
  {
    var m' := m[k := CountOf(m, k) + 1];
    assert m'.Keys == m.Keys + {k};
    SumOverWithout(m', m'.Keys, k);
    assert m'.Keys - {k} == m.Keys - {k};
    SumOverAgree(m', m, m.Keys - {k});
    if k in m {
      SumOverWithout(m, m.Keys, k);
    } else {
      assert m.Keys - {k} == m.Keys;
    }
  }

  /** Every entry is counted exactly once: the counters sum to the number of entries. */
  lemma {:induction false} TallySum(s: seq<Entry>, key: Entry -> string)
    ensures Sum(Tally(s, key)) == |s|
    decreases |s|
  {
    if |s| > 0 {
      TallySum(s[..|s| - 1], key);
      SumIncrement(Tally(s[..|s| - 1], key), key(s[|s| - 1]));
    }
  }

  datatype LogStats = LogStats(total: nat, byLevel: map<string, nat>, byModule: map<string, nat>,
                               recentActivity: seq<Entry>)

  const CsvHeader: seq<string> := ["时间", "模块", "消息", "级别", "数据"]

  function Quote(cell: string): string { "\"" + cell + "\"" }

  function QuotedCells(cells: seq<string>): seq<string> {
    seq(|cells|, i requires 0 <= i < |cells| => Quote(cells[i]))
  }

  /** One CSV line: every cell wrapped in double quotes, the cells joined by commas. */
  function CsvLine(cells: seq<string>): string {
    Text.Join(QuotedCells(cells), ",")
  }

  /** The five cells of an entry's CSV line; a missing payload becomes the empty cell. */
  function Cells(e: Entry): seq<string> {
    [e.timestamp, e.moduleName, e.message, e.level, e.data.GetOr("")]
  }

  /** The header line followed by one line per entry. */
  function CsvLines(logs: seq<Entry>): seq<string> {
    [CsvLine(CsvHeader)] + seq(|logs|, i requires 0 <= i < |logs| => CsvLine(Cells(logs[i])))
  }

  predicate CellsFree(logs: seq<Entry>, c: char) {
    forall i :: 0 <= i < |logs| ==> forall j :: 0 <= j < 5 ==> c !in Cells(logs[i])[j]
  }

  lemma {:induction false} JoinAvoids(parts: seq<string>, sep: string, c: char)
    requires c !in sep && forall i :: 0 <= i < |parts| ==> c !in parts[i]
    ensures c !in Text.Join(parts, sep)
    decreases |parts|
  {
    if |parts| > 1 {
      JoinAvoids(parts[1..], sep, c);
    }
  }

  lemma CsvLineAvoids(cells: seq<string>, c: char)
    requires c != '"' && c != ',' && forall j :: 0 <= j < |cells| ==> c !in cells[j]
    ensures c !in CsvLine(cells)
  {
    JoinAvoids(QuotedCells(cells), ",", c);
  }

  /** A CSV line splits at its commas back into the quoted cells, when no cell holds a comma. */
  lemma CsvLineSplits(cells: seq<string>)
    requires |cells| >= 1 && forall j :: 0 <= j < |cells| ==> ',' !in cells[j]
    ensures Text.Split(CsvLine(cells), ',') == QuotedCells(cells)
  {
    Text.SplitJoin(QuotedCells(cells), ',');
  }

  class ActivityLogger {
    var logs: seq<Entry>
    var isInitialized: bool
    const maxLogs: nat

    ghost predicate Valid()
      reads this
    {
      maxLogs == MaxLogs && |logs| <= maxLogs
    }

    /** `new ActivityLogger()`: an empty, uninitialised log that then runs `init()`. */
    constructor (stored: StoredLogs, stamp: Stamp)
      ensures Valid()
      ensures isInitialized == !stored.Unreadable?
      ensures logs == match stored
        case Unreadable => []
        case NothingStored => [MakeEntry(stamp, SystemModule, InitNotice, "info", None)]
        case Stored(entries) => Appended(entries, MakeEntry(stamp, SystemModule, InitNotice, "info", None), MaxLogs)
    {
      logs := [];
      isInitialized := false;
      maxLogs := MaxLogs;
      new;
      Init(stored, stamp);
    }

    /** `init()`: loads the stored entries, if any, marks the log initialised and records the
        start-up notice; an unreadable store leaves the entries alone and the log uninitialised. */
    method Init(stored: StoredLogs, stamp: Stamp)
      requires Valid()
      modifies this`logs, this`isInitialized
      ensures Valid()
      ensures isInitialized == !stored.Unreadable?
      ensures logs == match stored
        case Unreadable => old(logs)
        case NothingStored => Appended(old(logs), MakeEntry(stamp, SystemModule, InitNotice, "info", None), maxLogs)
        case Stored(entries) => Appended(entries, MakeEntry(stamp, SystemModule, InitNotice, "info", None), maxLogs)
    {
      if stored.Unreadable? {
        isInitialized := false;
        return;
      }
      if stored.Stored? {
        logs := stored.entries;
      }
      isInitialized := true;
      Log(SystemModule, InitNotice, "info", None, stamp);
    }

    /** `log(module, message, level = 'info', data = null)`: on an initialised log, appends the
        entry and evicts the oldest beyond `maxLogs`; otherwise does nothing. */
    method Log(moduleName: string, message: string, level: string := "info", data: Option<string> := None, stamp: Stamp)
      requires maxLogs == MaxLogs
      modifies this`logs
      ensures isInitialized ==> |logs| <= maxLogs
      ensures logs == if isInitialized then Appended(old(logs), MakeEntry(stamp, moduleName, message, level, data), maxLogs)
                      else old(logs)
    {
      if !isInitialized {
        return;
      }
      var entry := MakeEntry(stamp, moduleName, message, level, data);
      logs := logs + [entry];
      if |logs| > maxLogs {
        logs := SliceFrom(logs, -(maxLogs as int));
      }
      AppendedKeepsNewest(old(logs), entry, maxLogs);
    }

    method Info(moduleName: string, message: string, data: Option<string> := None, stamp: Stamp)
      requires Valid()
      modifies this`logs
      ensures Valid()
      ensures logs == if isInitialized then Appended(old(logs), MakeEntry(stamp, moduleName, message, "info", data), maxLogs)
                      else old(logs)
    {
      Log(moduleName, message, "info", data, stamp);
    }

    method Warning(moduleName: string, message: string, data: Option<string> := None, stamp: Stamp)
      requires Valid()
      modifies this`logs
      ensures Valid()
      ensures logs == if isInitialized then Appended(old(logs), MakeEntry(stamp, moduleName, message, "warning", data), maxLogs)
                      else old(logs)
    {
      Log(moduleName, message, "warning", data, stamp);
    }

    method Error(moduleName: string, message: string, data: Option<string> := None, stamp: Stamp)
      requires Valid()
      modifies this`logs
      ensures Valid()
      ensures logs == if isInitialized then Appended(old(logs), MakeEntry(stamp, moduleName, message, "error", data), maxLogs)
                      else old(logs)
    {
      Log(moduleName, message, "error", data, stamp);
    }

    method Success(moduleName: string, message: string, data: Option<string> := None, stamp: Stamp)
      requires Valid()
      modifies this`logs
      ensures Valid()
      ensures logs == if isInitialized then Appended(old(logs), MakeEntry(stamp, moduleName, message, "success", data), maxLogs)
                      else old(logs)
    {
      Log(moduleName, message, "success", data, stamp);
    }

    /** `getLogs(filters)`: copies the entries and narrows the copy one given criterion at a
        time, then applies the limit. The entries themselves are left alone. */
    method GetLogs(f: LogFilter) returns (r: seq<Entry>)
      ensures r == Query(logs, f)
    {
      r := logs;
      FilterAll(logs, UpTo(f, 0));
      Stage(logs, f, 0, r);
      r := NarrowStep(r, f, 0);
      Stage(logs, f, 1, r);
      r := NarrowStep(r, f, 1);
      Stage(logs, f, 2, r);
      r := NarrowStep(r, f, 2);
      Stage(logs, f, 3, r);
      r := NarrowStep(r, f, 3);
      StagesThenLimit(logs, f, r);
      if f.limit != 0 {
        r := SliceFrom(r, -f.limit);
      }
    }

    /** One step of `getLogs`: the `n`-th criterion, when it is given, narrows the copy. */
    static method NarrowStep(r: seq<Entry>, f: LogFilter, n: nat) returns (r': seq<Entry>)
      ensures r' == Narrowed(r, f, n)
    {
      r' := r;
      if n == 0 && f.moduleName != "" {
        r' := Filter(r, SameModule(f.moduleName));
      } else if n == 1 && f.level != "" {
        r' := Filter(r, SameLevel(f.level));
      } else if n == 2 && f.startTime.Some? {
        r' := Filter(r, NotBefore(f.startTime.value));
      } else if n >= 3 && f.endTime.Some? {
        r' := Filter(r, NotAfter(f.endTime.value));
      }
    }

    /** `clearLogs()`: empties the log and records the clearing notice, which an uninitialised
        log drops. */
    method ClearLogs(stamp: Stamp)
      requires Valid()
      modifies this`logs
      ensures Valid()
      ensures logs == if isInitialized then [MakeEntry(stamp, SystemModule, ClearNotice, "info", None)] else []
    {
      logs := [];
      Log(SystemModule, ClearNotice, "info", None, stamp);
    }

    /** `exportLogs('csv')`: the header line and one line per entry, joined by newlines. */
    function ExportCsv(): string
      reads this
    {
      Text.Join(CsvLines(logs), "\n")
    }

    /** `getStats()`: the number of entries, a counter per level and per module filled entry by
        entry, and the ten most recent entries. */
    method GetStats() returns (st: LogStats)
      ensures st.total == |logs|
      ensures st.byLevel == Tally(logs, LevelOf) && st.byModule == Tally(logs, ModuleOf)
      ensures Sum(st.byLevel) == st.total && Sum(st.byModule) == st.total
      ensures forall k :: CountOf(st.byLevel, k) == Occurrences(logs, LevelOf, k)
      ensures forall k :: CountOf(st.byModule, k) == Occurrences(logs, ModuleOf, k)
      ensures st.recentActivity == logs[|logs| - Min(10, |logs|)..]
    {
      var byLevel: map<string, nat> := map[];
      for i := 0 to |logs|
        invariant byLevel == Tally(logs[..i], LevelOf)
      {
        var level := logs[i].level;
        byLevel := byLevel[level := CountOf(byLevel, level) + 1];
        assert logs[..i + 1][..i] == logs[..i];
      }
      var byModule: map<string, nat> := map[];
      for i := 0 to |logs|
        invariant byModule == Tally(logs[..i], ModuleOf)
      {
        var name := logs[i].moduleName;
        byModule := byModule[name := CountOf(byModule, name) + 1];
        assert logs[..i + 1][..i] == logs[..i];
      }
      assert logs[..|logs|] == logs;
      TallySum(logs, LevelOf);
      TallySum(logs, ModuleOf);
      forall k ensures CountOf(byLevel, k) == Occurrences(logs, LevelOf, k) {
        TallyCounts(logs, LevelOf, k);
      }
      forall k ensures CountOf(byModule, k) == Occurrences(logs, ModuleOf, k) {
        TallyCounts(logs, ModuleOf, k);
      }
      st := LogStats(|logs|, byLevel, byModule, SliceFrom(logs, -10));
    }

    /** `isHealthy()`. */
    function IsHealthy(): bool
      reads this
    {
      isInitialized && |logs| < maxLogs
    }
  }

  /** A log is healthy exactly when it is initialised and its next entry would evict nothing. */
  lemma HealthyIffNextLogEvictsNothing(l: ActivityLogger, e: Entry)
    requires l.Valid()
    ensures l.IsHealthy() <==> l.isInitialized && Appended(l.logs, e, l.maxLogs) == l.logs + [e]
  {
    AppendEvictsOnlyWhenFull(l.logs, e, l.maxLogs);
  }

  /** The export has one line per entry after the header, when no cell holds a newline; each
      line splits at its commas into the five quoted cells, when no cell holds a comma. */
  lemma ExportCsvShape(l: ActivityLogger)
    requires CellsFree(l.logs, '\n')
    ensures var lines := CsvLines(l.logs);
      && Text.Split(l.ExportCsv(), '\n') == lines
      && |lines| == |l.logs| + 1
      && lines[0] == CsvLine(CsvHeader)
      && forall i :: 0 <= i < |l.logs| ==> lines[i + 1] == CsvLine(Cells(l.logs[i]))
    ensures CellsFree(l.logs, ',') ==>
      forall i :: 0 <= i < |l.logs| ==>
        Text.Split(CsvLine(Cells(l.logs[i])), ',') == QuotedCells(Cells(l.logs[i]))
  {
    var lines := CsvLines(l.logs);
    forall i | 0 <= i < |lines| ensures '\n' !in lines[i] {
      if i == 0 {
        CsvLineAvoids(CsvHeader, '\n');
      } else {
        CsvLineAvoids(Cells(l.logs[i - 1]), '\n');
      }
    }
    Text.SplitJoin(lines, '\n');
    if CellsFree(l.logs, ',') {
      forall i | 0 <= i < |l.logs|
        ensures Text.Split(CsvLine(Cells(l.logs[i])), ',') == QuotedCells(Cells(l.logs[i]))
      {
        CsvLineSplits(Cells(l.logs[i]));
      }
    }
  }
}
