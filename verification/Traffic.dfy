/** A day of traffic samples, kept in a window, against the endless log they
    stand for: _delta, record, _trim and history of ham/traffic.py. */
module Traffic {
  import opened Options

  datatype Metric = Req | E4 | E5 | Econn | Eresp | Cur | Up | Of

  const METRICS: set<Metric> := {Req, E4, E5, Econn, Eresp, Cur, Up, Of}
  const COUNTERS: seq<Metric> := [Req, E4, E5, Econn, Eresp]
  const KEEP_SAMPLES: nat := 1440

  /** The metrics that decide whether a pool is still alive, and that the window
      keeps exactly. */
  predicate Counted(m: Metric) {
    m == Req || m == E4 || m == E5
  }

  type Values = map<Metric, int>
  type Row = map<Metric, seq<int>>
  type Last = map<(string, Metric), int>

  /** What HAProxy says of one pool. A counter that does not parse is None. */
  datatype Report = Report(name: string, counters: map<Metric, Option<int>>, cur: Option<int>, up: int, of: int)

  /** One sample of the endless log: when, and what was added for each pool. */
  datatype Entry = Entry(time: int, values: map<string, Values>)

  /** What the log says of a pool; a pool that was not reported did nothing. */
  function Logged(e: Entry, name: string, m: Metric): int {
    if name in e.values && m in e.values[name] then e.values[name][m] else 0
  }

  // ---- what one report adds -------------------------------------------------------

  /** Counters restart with HAProxy: one that went backwards counts as nothing. */
  function Delta(was: Option<int>, now: int): int {
    if was.None? || now < was.value then 0 else now - was.value
  }

  function Get<K, V>(m: map<K, V>, k: K): Option<V> {
    if k in m then Some(m[k]) else None
  }

  function CounterValue(last: Last, r: Report, m: Metric, mine: int): int {
    var now := Get(r.counters, m).Or(Some(0));
    if now.None? then 0
    else
      var d := Delta(Get(last, (r.name, m)), now.value) - mine;
      if d > 0 then d else 0
  }

  function LastAfter(last: Last, r: Report, m: Metric): Last {
    var now := Get(r.counters, m).Or(Some(0));
    if now.None? then last else last[(r.name, m) := now.value]
  }

  function Mine(ours: map<string, Values>, name: string, m: Metric): int {
    if name in ours && m in ours[name] then ours[name][m] else 0
  }

  function ValueOf(last: Last, r: Report, ours: map<string, Values>, m: Metric): int {
    match m
    case Cur => r.cur.Or(0)
    case Up => r.up
    case Of => r.of
    case _ => CounterValue(last, r, m, Mine(ours, r.name, m))
  }

  function ValuesOf(last: Last, r: Report, ours: map<string, Values>): Values {
    map m | m in METRICS :: ValueOf(last, r, ours, m)
  }

  function LastAll(last: Last, r: Report, ms: seq<Metric>): Last {
    if |ms| == 0 then last else LastAfter(LastAll(last, r, ms[..|ms| - 1]), r, ms[|ms| - 1])
  }

  /** The counters remembered after these reports. */
  function LastOf(last: Last, reports: seq<Report>): Last {
    if |reports| == 0 then last
    else
      var before := LastOf(last, reports[..|reports| - 1]);
      var r := reports[|reports| - 1];
      if r.name == "" then before else LastAll(before, r, COUNTERS)
  }

  /** The log's next sample. */
  function SampleOf(last: Last, reports: seq<Report>, ours: map<string, Values>): map<string, Values> {
    if |reports| == 0 then map[]
    else
      var n := |reports| - 1;
      var r := reports[n];
      var before := SampleOf(last, reports[..n], ours);
      if r.name == "" then before else before[r.name := ValuesOf(LastOf(last, reports[..n]), r, ours)]
  }

  // ---- the window against the log -----------------------------------------------------

  /** Every metric has one value per retained sample, and the counted ones are
      the log's. */
  ghost predicate RowOk(row: Row, name: string, window: seq<Entry>) {
    && row.Keys == METRICS
    && (forall m :: m in row ==> |row[m]| == |window|)
    && forall m, i :: m in row && Counted(m) && 0 <= i < |window| ==> row[m][i] == Logged(window[i], name, m)
  }

  /** A pool without a row did nothing in the whole window. */
  ghost predicate Silent(name: string, window: seq<Entry>) {
    SilentIn(name, Req, window) && SilentIn(name, E4, window) && SilentIn(name, E5, window)
  }

  ghost predicate SilentIn(name: string, m: Metric, window: seq<Entry>) {
    forall i :: 0 <= i < |window| ==> Logged(window[i], name, m) == 0
  }

  ghost predicate NotNegative(window: seq<Entry>) {
    forall i, name, m :: 0 <= i < |window| && Counted(m) ==> Logged(window[i], name, m) >= 0
  }

  ghost predicate WindowOk(at: seq<int>, series: map<string, Row>, window: seq<Entry>) {
    && |at| == |window|
    && (forall i :: 0 <= i < |at| ==> at[i] == window[i].time)
    && (forall name :: name in series ==> RowOk(series[name], name, window))
    && (forall name :: name !in series ==> Silent(name, window))
    && NotNegative(window)
  }

  function Zeros(n: nat): (z: seq<int>)
    ensures |z| == n && forall i :: 0 <= i < n ==> z[i] == 0
  {
    seq(n, _ => 0)
  }

  function Appended(row: Row, n: nat, values: Values): Row
    requires values.Keys == METRICS
  {
    map m | m in METRICS :: (if m in row then row[m] else Zeros(n)) + [values[m]]
  }

  lemma AppendedOk(row: Row, name: string, window: seq<Entry>, e: Entry, values: Values)
    requires RowOk(row, name, window) && values.Keys == METRICS
    requires forall m :: Counted(m) ==> values[m] == Logged(e, name, m)
    ensures RowOk(Appended(row, |window|, values), name, window + [e])
  {
  }

  /** A pool seen for the first time, or again, is padded with zeros: that is
      what the log says of it. */
  lemma PaddedOk(name: string, window: seq<Entry>, e: Entry, values: Values)
    requires Silent(name, window) && values.Keys == METRICS
    requires forall m :: Counted(m) ==> values[m] == Logged(e, name, m)
    ensures RowOk(Appended(map[], |window|, values), name, window + [e])
  {
  }

  // ---- trimming -----------------------------------------------------------------------

  function SumOf(xs: seq<int>): int {
    if |xs| == 0 then 0 else SumOf(xs[..|xs| - 1]) + xs[|xs| - 1]
  }

  lemma {:induction false} SumZero(xs: seq<int>)
    requires forall i :: 0 <= i < |xs| ==> xs[i] >= 0
    ensures SumOf(xs) >= 0
    ensures SumOf(xs) == 0 <==> forall i :: 0 <= i < |xs| ==> xs[i] == 0
  {
    if |xs| > 0 {
      var front := xs[..|xs| - 1];
      SumZero(front);
      assert forall i :: 0 <= i < |front| ==> front[i] == xs[i];
    }
  }

  function Dropped(row: Row, over: nat): Row {
    map m | m in row :: if over <= |row[m]| then row[m][over..] else []
  }

  lemma DroppedOk(row: Row, name: string, window: seq<Entry>, over: nat)
    requires RowOk(row, name, window) && over <= |window|
    ensures RowOk(Dropped(row, over), name, window[over..])
  {
  }

  predicate Idle(row: Row)
    requires row.Keys == METRICS
  {
    SumOf(row[Req]) == 0 && SumOf(row[E4]) == 0 && SumOf(row[E5]) == 0
  }

  /** A row is dropped exactly when its pool did nothing in the window. */
  lemma IdleIsSilent(row: Row, name: string, window: seq<Entry>)
    requires RowOk(row, name, window) && NotNegative(window)
    ensures Idle(row) <==> Silent(name, window)
  {
    SumIsSilent(row, name, window, Req);
    SumIsSilent(row, name, window, E4);
    SumIsSilent(row, name, window, E5);
  }

  lemma SumIsSilent(row: Row, name: string, window: seq<Entry>, m: Metric)
    requires RowOk(row, name, window) && NotNegative(window) && Counted(m)
    ensures SumOf(row[m]) == 0 <==> SilentIn(name, m, window)
  {
    forall i | 0 <= i < |row[m]|
      ensures row[m][i] == Logged(window[i], name, m) && row[m][i] >= 0
    {
    }
    SumZero(row[m]);
    if SumOf(row[m]) == 0 {
      assert forall i :: 0 <= i < |window| ==> row[m][i] == 0;
    }
  }

  // ---- the store --------------------------------------------------------------------

  class Store {
    var at: seq<int>
    var series: map<string, Row>
    var last: Last
    // Everything ever recorded; the window is its end.
    ghost var log: seq<Entry>

    ghost function Window(): seq<Entry>
      requires |at| <= |log|
      reads this
    {
      log[|log| - |at|..]
    }

    ghost predicate Valid()
      reads this
    {
      |at| <= KEEP_SAMPLES && |at| <= |log| && WindowOk(at, series, Window())
    }

    constructor ()
      ensures Valid() && log == []
    {
      at, series, last, log := [], map[], map[], [];
    }

    method TakeDelta(r: Report, m: Metric, mine: int) returns (value: int)
      modifies this`last
      ensures value == CounterValue(old(last), r, m, mine)
      ensures last == LastAfter(old(last), r, m)
    {
      var now := Get(r.counters, m).Or(Some(0));
      if now.None? {
        return 0;
      }
      var was := Get(last, (r.name, m));
      last := last[(r.name, m) := now.value];
      var d := (if was.None? || now.value < was.value then 0 else now.value - was.value) - mine;
      value := if d > 0 then d else 0;
    }

    /** Each counter's delta, and the counter remembered for the next one. */
    method TakeDeltas(r: Report, ours: map<string, Values>, ms: seq<Metric>) returns (values: Values)
      requires forall i, j :: 0 <= i < j < |ms| ==> ms[i] != ms[j]
      requires forall m :: m in ms ==> m != Cur && m != Up && m != Of
      modifies this`last
      ensures last == LastAll(old(last), r, ms)
      ensures values.Keys == SetOf(ms)
      ensures forall m :: m in values ==> values[m] == ValueOf(old(last), r, ours, m)
    {
      values := map[];
      for i := 0 to |ms|
        invariant last == LastAll(old(last), r, ms[..i])
        invariant values.Keys == SetOf(ms[..i])
        invariant forall m :: m in values ==> values[m] == ValueOf(old(last), r, ours, m)
      {
        assert ms[i] in ms && ms[i] !in ms[..i];
        DeltaStep(old(last), r, ours, ms, i);
        var value := TakeDelta(r, ms[i], Mine(ours, r.name, ms[i]));
        values := values[ms[i] := value];
      }
      assert ms[..|ms|] == ms;
    }

    /** One report: a value is added to each of the row's series. */
    method PutReport(r: Report, ours: map<string, Values>, n: nat)
      modifies this`series, this`last
      ensures series == old(series)[r.name :=
        Appended(RowOf(old(series), r.name), n, ValuesOf(old(last), r, ours))]
      ensures last == LastAll(old(last), r, COUNTERS)
    {
      var values := TakeDeltas(r, ours, COUNTERS);
      AllValues(old(last), r, ours, values);
      values := values[Cur := r.cur.Or(0)][Up := r.up][Of := r.of];
      var row := if r.name in series then series[r.name] else map[];
      series := series[r.name := Appended(row, n, values)];
    }

    /** Every report in turn; a report without a name is skipped. */
    method PutReports(reports: seq<Report>, ours: map<string, Values>, n: nat) returns (seen: set<string>)
      requires UniqueNames(reports)
      modifies this`series, this`last
      ensures series == WithSample(old(series), n, SampleOf(old(last), reports, ours))
      ensures last == LastOf(old(last), reports)
      ensures seen == SampleOf(old(last), reports, ours).Keys
    {
      seen := {};
      WithNothing(series, n);
      for i := 0 to |reports|
        invariant series == WithSample(old(series), n, SampleOf(old(last), reports[..i], ours))
        invariant last == LastOf(old(last), reports[..i])
        invariant seen == SampleOf(old(last), reports[..i], ours).Keys
      {
        seen := PutNamed(reports, ours, n, i, seen, old(series), old(last));
      }
      assert reports[..|reports|] == reports;
    }

    method PutNamed(reports: seq<Report>, ours: map<string, Values>, n: nat, i: nat, seen: set<string>,
            ghost series0: map<string, Row>, ghost last0: Last)
      returns (seen': set<string>)
      requires i < |reports| && UniqueNames(reports)
      requires series == WithSample(series0, n, SampleOf(last0, reports[..i], ours))
      requires last == LastOf(last0, reports[..i])
      requires seen == SampleOf(last0, reports[..i], ours).Keys
      modifies this`series, this`last
      ensures series == WithSample(series0, n, SampleOf(last0, reports[..i + 1], ours))
      ensures last == LastOf(last0, reports[..i + 1])
      ensures seen' == SampleOf(last0, reports[..i + 1], ours).Keys
    {
      var r := reports[i];
      NextReport(last0, reports, ours, i);
      if r.name == "" {
        return seen;
      }
      SampleStep(series0, n, last0, reports, ours, i);
      PutReport(r, ours, n);
      seen' := seen + {r.name};
    }

    /** A pool that was not reported served nothing. */
    method FillUnseen(seen: set<string>)
      modifies this`series
      ensures series == map name | name in old(series) ::
        if name in seen then old(series)[name] else Extended(old(series)[name])
    {
      var todo := series.Keys - seen;
      while todo != {}
        invariant todo <= old(series).Keys - seen
        invariant series == map name | name in old(series) ::
          if name in seen + todo then old(series)[name] else Extended(old(series)[name])
        decreases todo
      {
        var name :| name in todo;
        series := series[name := Extended(series[name])];
        todo := todo - {name};
      }
    }

    /** At most KEEP_SAMPLES, and no rows that are idle throughout. */
    method Trim()
      requires |at| <= |log| && WindowOk(at, series, Window())
      modifies this`at, this`series
      ensures Valid()
      ensures |at| == if |old(at)| < KEEP_SAMPLES then |old(at)| else KEEP_SAMPLES
    {
      if |at| <= KEEP_SAMPLES {
        return;
      }
      var over := |at| - KEEP_SAMPLES;
      TrimOk(at, series, Window(), over);
      TailOfTail(log, |at|, over);
      TrimmedRows(series, over);
      ghost var all := Trimmed(series, over);
      at := at[over..];
      DropRows(over, all);
      assert at == old(at)[over..] && series == all && Window() == old(Window())[over..];
    }

    method DropRows(over: nat, ghost all: map<string, Row>)
      requires forall name :: name in series ==> Survives(all, name, series[name], over)
      requires all.Keys <= series.Keys
      modifies this`series
      ensures series == all
    {
      var todo := series.Keys;
      while todo != {}
        invariant PartlyDropped(series, old(series), all, todo, over)
        decreases todo
      {
        var name :| name in todo;
        DropRow(over, name, old(series), all, todo);
        todo := todo - {name};
      }
      AllDropped(series, old(series), all, over);
    }

    method DropRow(over: nat, name: string, ghost before: map<string, Row>, ghost all: map<string, Row>,
            ghost todo: set<string>)
      requires PartlyDropped(series, before, all, todo, over) && name in todo
      modifies this`series
      ensures PartlyDropped(series, before, all, todo - {name}, over)
    {
      DropStep(series, before, all, todo, over, name);
      var row := Dropped(series[name], over);
      series := if Idle(row) then series - {name} else series[name := row];
    }

    method AddSample(time: int, reports: seq<Report>, ours: map<string, Values>)
      requires Valid() && UniqueNames(reports)
      modifies this
      ensures |at| <= |log| && WindowOk(at, series, Window())
      ensures log == old(log) + [Entry(time, SampleOf(old(last), reports, ours))]
      ensures last == LastOf(old(last), reports)
      ensures at == old(at) + [time]
    {
      ghost var sample := SampleOf(last, reports, ours);
      SampleKeys(last, reports, ours);
      RecordOk(at, series, Window(), time, sample);
      TailPush(log, |at|, Entry(time, sample));
      RecordedInSteps(series, |at|, sample);
      var seen := PutReports(reports, ours, |at|);
      FillUnseen(seen);
      at := at + [time];
      log := log + [Entry(time, sample)];
      assert series == Recorded(old(series), |old(at)|, sample);
      assert Window() == old(Window()) + [Entry(time, sample)];
    }

    /** One sample of what HAProxy has just reported. */
    method Record(time: int, reports: seq<Report>, ours: map<string, Values>)
      requires Valid() && UniqueNames(reports)
      modifies this
      ensures Valid()
      ensures log == old(log) + [Entry(time, SampleOf(old(last), reports, ours))]
      ensures last == LastOf(old(last), reports)
      ensures |at| == if |old(at)| < 24 * 60 then |old(at)| + 1 else 24 * 60
    {
      AddSample(time, reports, ours);
      Trim();
    }

    /** One stored value; a pool without a row reads as zero. For the counted
        metrics that is what the endless log says. */
    method Read(name: string, m: Metric, i: nat) returns (value: int)
      requires Valid() && i < |at| && Counted(m)
      ensures value == Logged(Window()[i], name, m)
    {
      if name in series {
        value := series[name][m][i];
      } else {
        assert SilentIn(name, m, Window());
        value := 0;
      }
    }

    /** How many of the last samples are wanted. */
    method Recent(cutoff: Option<int>) returns (keep: nat)
      ensures keep == KeptSince(at, cutoff)
    {
      keep := |at|;
      if cutoff.Some? {
        keep := 0;
        for i := 0 to |at|
          invariant keep == CountSince(at[..i], cutoff.value)
        {
          assert at[..i + 1][..i] == at[..i];
          if at[i] >= cutoff.value {
            keep := keep + 1;
          }
        }
        assert at[..|at|] == at;
      }
    }

    /** The last stretch, of all pools or of one. */
    method History(pool: Option<string>, cutoff: Option<int>) returns (times: seq<int>, rows: map<string, Row>)
      requires Valid()
      ensures times == at[|at| - KeptSince(at, cutoff)..]
      ensures rows.Keys == (set name | name in series && (pool.None? || pool.value == name))
      ensures forall name :: name in rows ==> RowOk(rows[name], name, Window()[|at| - KeptSince(at, cutoff)..])
    {
      var keep := Recent(cutoff);
      times := at[|at| - keep..];
      ShownOk(at, series, Window(), pool, |at| - keep);
      rows := Shown(series, pool, |at| - keep);
    }
  }

  /** The rows of all pools or of one, without the oldest samples. */
  function Shown(series: map<string, Row>, pool: Option<string>, over: nat): (rows: map<string, Row>)
    requires forall name :: name in series ==> series[name].Keys == METRICS
    requires forall name, m :: name in series && m in series[name] ==> over <= |series[name][m]|
  {
    map name | name in series && (pool.None? || pool.value == name) :: Dropped(series[name], over)
  }

  lemma ShownOk(at: seq<int>, series: map<string, Row>, window: seq<Entry>, pool: Option<string>, over: nat)
    requires WindowOk(at, series, window) && over <= |window|
    ensures forall name :: name in series ==> series[name].Keys == METRICS
    ensures forall name, m :: name in series && m in series[name] ==> over <= |series[name][m]|
    ensures forall name :: name in Shown(series, pool, over) ==>
        RowOk(Shown(series, pool, over)[name], name, window[over..])
  {
    forall name | name in Shown(series, pool, over)
      ensures RowOk(Shown(series, pool, over)[name], name, window[over..])
    {
      DroppedOk(series[name], name, window, over);
    }
  }

  function CountSince(at: seq<int>, cutoff: int): (n: nat)
    ensures n <= |at|
  {
    if |at| == 0 then 0
    else CountSince(at[..|at| - 1], cutoff) + if at[|at| - 1] >= cutoff then 1 else 0
  }

  function KeptSince(at: seq<int>, cutoff: Option<int>): (n: nat)
    ensures n <= |at|
  {
    if cutoff.None? then |at| else CountSince(at, cutoff.value)
  }

  /** With a clock that does not run backwards, counting the recent samples and
      keeping that many from the end keeps exactly the recent ones. */
  lemma {:induction false} SinceIsTail(at: seq<int>, cutoff: int, i: nat)
    requires forall j, k :: 0 <= j < k < |at| ==> at[j] <= at[k]
    requires i < |at|
    ensures at[i] >= cutoff <==> i >= |at| - CountSince(at, cutoff)
  {
    var front, last := at[..|at| - 1], at[|at| - 1];
    if last < cutoff {
      NoneSince(front, cutoff);
    } else if i < |front| {
      SinceIsTail(front, cutoff, i);
    }
  }

  lemma {:induction false} NoneSince(at: seq<int>, cutoff: int)
    requires forall j :: 0 <= j < |at| ==> at[j] < cutoff
    ensures CountSince(at, cutoff) == 0
  {
    if |at| > 0 {
      NoneSince(at[..|at| - 1], cutoff);
    }
  }

  function SetOf(ms: seq<Metric>): set<Metric> {
    set m | m in ms
  }

  function RowOf(series: map<string, Row>, name: string): Row {
    if name in series then series[name] else map[]
  }

  lemma {:induction false} LastAllOther(last: Last, r: Report, ms: seq<Metric>, m: Metric)
    requires m !in ms
    ensures Get(LastAll(last, r, ms), (r.name, m)) == Get(last, (r.name, m))
  {
    if |ms| > 0 {
      LastAllOther(last, r, ms[..|ms| - 1], m);
    }
  }

  lemma DeltaStep(last: Last, r: Report, ours: map<string, Values>, ms: seq<Metric>, i: nat)
    requires i < |ms| && ms[i] !in ms[..i] && ms[i] != Cur && ms[i] != Up && ms[i] != Of
    ensures CounterValue(LastAll(last, r, ms[..i]), r, ms[i], Mine(ours, r.name, ms[i]))
         == ValueOf(last, r, ours, ms[i])
    ensures LastAfter(LastAll(last, r, ms[..i]), r, ms[i]) == LastAll(last, r, ms[..i + 1])
    ensures SetOf(ms[..i + 1]) == SetOf(ms[..i]) + {ms[i]}
  {
    LastAllOther(last, r, ms[..i], ms[i]);
    assert ms[..i + 1][..i] == ms[..i];
  }

  lemma EveryMetric()
    ensures METRICS == SetOf(COUNTERS) + {Cur, Up, Of}
  {
    forall m
      ensures m in METRICS <==> m in SetOf(COUNTERS) + {Cur, Up, Of}
    {
      assert m in COUNTERS <==> (m == Req || m == E4 || m == E5 || m == Econn || m == Eresp);
    }
  }

  lemma AllValues(last: Last, r: Report, ours: map<string, Values>, values: Values)
    requires values.Keys == SetOf(COUNTERS)
    requires forall m :: m in values ==> values[m] == ValueOf(last, r, ours, m)
    ensures values[Cur := r.cur.Or(0)][Up := r.up][Of := r.of] == ValuesOf(last, r, ours)
  {
    var all := values[Cur := r.cur.Or(0)][Up := r.up][Of := r.of];
    EveryMetric();
    assert all.Keys == ValuesOf(last, r, ours).Keys;
  }

  // ---- one record, as a function ------------------------------------------------------

  predicate UniqueNames(reports: seq<Report>) {
    forall i, j :: 0 <= i < j < |reports| ==> reports[i].name != reports[j].name
  }

  predicate FullSample(sample: map<string, Values>) {
    forall name :: name in sample ==> sample[name].Keys == METRICS
  }

  function Extended(row: Row): Row {
    map m | m in row :: row[m] + [0]
  }

  function WithSample(series: map<string, Row>, n: nat, sample: map<string, Values>): map<string, Row> {
    map name | name in series.Keys + sample.Keys ::
      RowWith(series, n, sample, name)
  }

  function RowWith(series: map<string, Row>, n: nat, sample: map<string, Values>, name: string): Row {
    if name in sample && sample[name].Keys == METRICS then Appended(RowOf(series, name), n, sample[name])
    else RowOf(series, name)
  }

  function Recorded(series: map<string, Row>, n: nat, sample: map<string, Values>): map<string, Row> {
    map name | name in series.Keys + sample.Keys ::
      if name in sample then RowWith(series, n, sample, name) else Extended(RowOf(series, name))
  }

  lemma WithNothing(series: map<string, Row>, n: nat)
    ensures WithSample(series, n, map[]) == series
  {
    var nothing: map<string, Values> := map[];
    assert series.Keys + nothing.Keys == series.Keys;
  }

  lemma {:induction false} SampleNames(last: Last, reports: seq<Report>, ours: map<string, Values>, name: string)
    requires name in SampleOf(last, reports, ours)
    ensures exists i :: 0 <= i < |reports| && reports[i].name == name
  {
    var n := |reports| - 1;
    if reports[n].name != name {
      SampleNames(last, reports[..n], ours, name);
    }
  }

  lemma {:induction false} SampleKeys(last: Last, reports: seq<Report>, ours: map<string, Values>)
    ensures FullSample(SampleOf(last, reports, ours))
    ensures CountsUp(SampleOf(last, reports, ours))
  {
    if |reports| > 0 {
      var r, before := reports[|reports| - 1], reports[..|reports| - 1];
      SampleKeys(last, before, ours);
      ValuesCountUp(LastOf(last, before), r, ours);
    }
  }

  /** No counted value is negative. */
  ghost predicate CountsUp(sample: map<string, Values>) {
    forall name, m :: name in sample && Counted(m) && m in sample[name] ==> sample[name][m] >= 0
  }

  lemma ValuesCountUp(last: Last, r: Report, ours: map<string, Values>)
    ensures forall m :: Counted(m) && m in ValuesOf(last, r, ours) ==> ValuesOf(last, r, ours)[m] >= 0
  {
  }

  lemma NextReport(last: Last, reports: seq<Report>, ours: map<string, Values>, i: nat)
    requires i < |reports|
    ensures var r, before := reports[i], LastOf(last, reports[..i]);
      LastOf(last, reports[..i + 1]) == if r.name == "" then before else LastAll(before, r, COUNTERS)
    ensures reports[i].name == "" ==> SampleOf(last, reports[..i + 1], ours) == SampleOf(last, reports[..i], ours)
  {
    assert reports[..i + 1][..i] == reports[..i];
  }

  lemma SampleStep(series: map<string, Row>, n: nat, last: Last, reports: seq<Report>, ours: map<string, Values>,
          i: nat)
    requires i < |reports| && UniqueNames(reports) && reports[i].name != ""
    ensures var r := reports[i];
      var before := SampleOf(last, reports[..i], ours);
      var values := ValuesOf(LastOf(last, reports[..i]), r, ours);
      var now := WithSample(series, n, before);
      && SampleOf(last, reports[..i + 1], ours) == before[r.name := values]
      && WithSample(series, n, before[r.name := values])
         == now[r.name := Appended(RowOf(now, r.name), n, values)]
  {
    var r := reports[i];
    var before := SampleOf(last, reports[..i], ours);
    assert reports[..i + 1][..i] == reports[..i];
    if r.name in before {
      SampleNames(last, reports[..i], ours, r.name);
    }
    var values := ValuesOf(LastOf(last, reports[..i]), r, ours);
    OneMore(series, n, before, r.name, values);
  }

  lemma OneMore(series: map<string, Row>, n: nat, before: map<string, Values>, name: string, values: Values)
    requires name !in before && values.Keys == METRICS
    ensures var now := WithSample(series, n, before);
      WithSample(series, n, before[name := values]) == now[name := Appended(RowOf(now, name), n, values)]
  {
    var now := WithSample(series, n, before);
    var later := WithSample(series, n, before[name := values]);
    var updated := now[name := Appended(RowOf(series, name), n, values)];
    assert RowOf(now, name) == RowOf(series, name);
    assert later.Keys == updated.Keys;
    forall other | other in later
      ensures later[other] == updated[other]
    {
    }
  }

  // ---- what the log makes of a counter ------------------------------------------------

  lemma {:induction false} OthersRemembered(last: Last, reports: seq<Report>, name: string, m: Metric)
    requires forall i :: 0 <= i < |reports| ==> reports[i].name != name
    ensures Get(LastOf(last, reports), (name, m)) == Get(last, (name, m))
  {
    if |reports| > 0 {
      var before := LastOf(last, reports[..|reports| - 1]);
      OthersRemembered(last, reports[..|reports| - 1], name, m);
      LastAllOf(before, reports[|reports| - 1], COUNTERS, name, m);
    }
  }

  lemma {:induction false} LastAllOf(last: Last, r: Report, ms: seq<Metric>, name: string, m: Metric)
    requires r.name != name
    ensures Get(LastAll(last, r, ms), (name, m)) == Get(last, (name, m))
  {
    if |ms| > 0 {
      LastAllOf(last, r, ms[..|ms| - 1], name, m);
    }
  }

  lemma {:induction false} Remembered(last: Last, r: Report, ms: seq<Metric>, m: Metric)
    requires m in ms && forall i, j :: 0 <= i < j < |ms| ==> ms[i] != ms[j]
    ensures var now := Get(r.counters, m).Or(Some(0));
      Get(LastAll(last, r, ms), (r.name, m)) == if now.None? then Get(last, (r.name, m)) else now
  {
    var front, end := ms[..|ms| - 1], ms[|ms| - 1];
    assert ms == front + [end];
    if m == end {
      LastAllOther(last, r, front, m);
    } else {
      Remembered(last, r, front, m);
    }
  }

  /** A pool's values come from its own report and its own counters. */
  ghost predicate FromOwn(last: Last, reports: seq<Report>, ours: map<string, Values>, r: Report, m: Metric) {
    var sample := SampleOf(last, reports, ours);
    && r.name in sample && m in sample[r.name]
    && sample[r.name][m] == CounterValue(last, r, m, Mine(ours, r.name, m))
    && Get(LastOf(last, reports), (r.name, m)) == Get(LastAll(last, r, COUNTERS), (r.name, m))
  }

  lemma {:induction false} OwnReport(last: Last, reports: seq<Report>, ours: map<string, Values>, i: nat, m: Metric)
    requires i < |reports| && UniqueNames(reports) && reports[i].name != "" && m in COUNTERS
    ensures FromOwn(last, reports, ours, reports[i], m)
  {
    var n := |reports| - 1;
    var front, r := reports[..n], reports[n];
    assert reports == front + [r];
    if i == n {
      LastReport(last, front, ours, r, m);
    } else {
      OwnReport(last, front, ours, i, m);
      EarlierReport(last, front, ours, r, reports[i], m);
    }
  }

  lemma LastReport(last: Last, front: seq<Report>, ours: map<string, Values>, r: Report, m: Metric)
    requires r.name != "" && m in COUNTERS && forall i :: 0 <= i < |front| ==> front[i].name != r.name
    ensures FromOwn(last, front + [r], ours, r, m)
  {
    var before := LastOf(last, front);
    assert (front + [r])[..|front|] == front;
    OthersRemembered(last, front, r.name, m);
    SameReading(last, before, r, m, Mine(ours, r.name, m));
    CounterOf(before, r, ours, m);
    assert SampleOf(last, front + [r], ours)[r.name] == ValuesOf(before, r, ours);
  }

  lemma SameReading(last: Last, before: Last, r: Report, m: Metric, mine: int)
    requires m in COUNTERS && Get(before, (r.name, m)) == Get(last, (r.name, m))
    ensures CounterValue(before, r, m, mine) == CounterValue(last, r, m, mine)
    ensures Get(LastAll(before, r, COUNTERS), (r.name, m)) == Get(LastAll(last, r, COUNTERS), (r.name, m))
  {
    Remembered(before, r, COUNTERS, m);
    Remembered(last, r, COUNTERS, m);
  }

  lemma CounterOf(last: Last, r: Report, ours: map<string, Values>, m: Metric)
    requires m in COUNTERS
    ensures m in METRICS && ValuesOf(last, r, ours)[m] == CounterValue(last, r, m, Mine(ours, r.name, m))
  {
  }

  lemma EarlierReport(last: Last, front: seq<Report>, ours: map<string, Values>, r: Report, own: Report, m: Metric)
    requires r.name != own.name && FromOwn(last, front, ours, own, m)
    ensures FromOwn(last, front + [r], ours, own, m)
  {
    assert (front + [r])[..|front|] == front;
    LastAllOf(LastOf(last, front), r, COUNTERS, own.name, m);
  }

  /** What a sample says of a counter that reads `now`, when `mine` of it was the service's
      own doing: the rise since the last reading less that, and nothing when there was no
      earlier reading or the counter fell. The reading is remembered; without one nothing is
      logged and the old one stays. */
  lemma CounterLogged(last: Last, reports: seq<Report>, ours: map<string, Values>, i: nat, m: Metric)
    requires i < |reports| && UniqueNames(reports) && reports[i].name != "" && m in COUNTERS
    requires Mine(ours, reports[i].name, m) >= 0
    ensures var r, e := reports[i], Entry(0, SampleOf(last, reports, ours));
      var was, mine := Get(last, (r.name, m)), Mine(ours, r.name, m);
      var after, logged := Get(LastOf(last, reports), (r.name, m)), Logged(e, r.name, m);
      && (m in r.counters && r.counters[m].None? ==> after == was && logged == 0)
      && (m !in r.counters ==> after == Some(0))
      && (m in r.counters && r.counters[m].Some? ==> after == r.counters[m])
      && (was.None? ==> logged == 0)
      && (was.Some? && after.value <= was.value + mine ==> logged == 0)
      && (was.Some? && after.value > was.value + mine ==> was.value + mine + logged == after.value)
  {
    OwnReport(last, reports, ours, i, m);
    Remembered(last, reports[i], COUNTERS, m);
  }

  /** One round of samples: what HAProxy reports and what the service did itself. */
  datatype Round = Round(reports: seq<Report>, ours: map<string, Values>)

  /** All that is logged of a pool's counter over some rounds. */
  function Added(last: Last, rounds: seq<Round>, name: string, m: Metric): int
    decreases rounds
  {
    if rounds == [] then 0
    else
      Logged(Entry(0, SampleOf(last, rounds[0].reports, rounds[0].ours)), name, m)
      + Added(LastOf(last, rounds[0].reports), rounds[1..], name, m)
  }

  function OwnDoing(rounds: seq<Round>, name: string, m: Metric): int {
    if rounds == [] then 0 else Mine(rounds[0].ours, name, m) + OwnDoing(rounds[1..], name, m)
  }

  /** The counter stands at this in the round's report of the pool. */
  ghost predicate Reads(round: Round, name: string, m: Metric, value: int) {
    && UniqueNames(round.reports)
    && exists r :: r in round.reports && r.name == name && Get(r.counters, m) == Some(Some(value))
  }

  /** Over rounds in which a counter only rises, by no less than the service's own doing,
      what is logged and what the service did itself add up to the rise from the first
      reading to the last: no request is counted twice and none is lost. */
  lemma {:induction false} RiseAddsUp(last: Last, rounds: seq<Round>, name: string, m: Metric, at: seq<int>)
    decreases rounds
    requires name != "" && m in COUNTERS && |at| == |rounds| + 1 && Get(last, (name, m)) == Some(at[0])
    requires forall k :: 0 <= k < |rounds| ==> Reads(rounds[k], name, m, at[k + 1])
    requires forall k :: 0 <= k < |rounds| ==> 0 <= Mine(rounds[k].ours, name, m) <= at[k + 1] - at[k]
    ensures Added(last, rounds, name, m) + OwnDoing(rounds, name, m) == at[|rounds|] - at[0]
  {
    if rounds != [] {
      assert Reads(rounds[0], name, m, at[0 + 1]);
      OneRise(last, rounds[0], name, m, at[0], at[1]);
      RiseAddsUp(LastOf(last, rounds[0].reports), rounds[1..], name, m, at[1..]);
    }
  }

  lemma OneRise(last: Last, round: Round, name: string, m: Metric, was: int, now: int)
    requires name != "" && m in COUNTERS && Get(last, (name, m)) == Some(was) && Reads(round, name, m, now)
    requires 0 <= Mine(round.ours, name, m) <= now - was
    ensures Logged(Entry(0, SampleOf(last, round.reports, round.ours)), name, m)
         == now - was - Mine(round.ours, name, m)
    ensures Get(LastOf(last, round.reports), (name, m)) == Some(now)
  {
    var i :| 0 <= i < |round.reports| && round.reports[i].name == name
      && Get(round.reports[i].counters, m) == Some(Some(now));
    CounterLogged(last, round.reports, round.ours, i, m);
  }

  lemma RowRecorded(series: map<string, Row>, window: seq<Entry>, e: Entry, name: string)
    requires if name in series then RowOk(series[name], name, window) else Silent(name, window)
    requires FullSample(e.values)
    ensures var after := Recorded(series, |window|, e.values);
      if name in after then RowOk(after[name], name, window + [e]) else Silent(name, window + [e])
  {
    if name in e.values {
      if name in series {
        AppendedOk(series[name], name, window, e, e.values[name]);
      } else {
        PaddedOk(name, window, e, e.values[name]);
      }
    }
  }

  lemma RecordOk(at: seq<int>, series: map<string, Row>, window: seq<Entry>, time: int, sample: map<string, Values>)
    requires WindowOk(at, series, window) && FullSample(sample)
    requires forall name, m :: name in sample && Counted(m) ==> sample[name][m] >= 0
    ensures WindowOk(at + [time], Recorded(series, |window|, sample), window + [Entry(time, sample)])
  {
    var e := Entry(time, sample);
    forall name
      ensures var after := Recorded(series, |window|, sample);
        if name in after then RowOk(after[name], name, window + [e]) else Silent(name, window + [e])
    {
      RowRecorded(series, window, e, name);
    }
  }

  function Trimmed(series: map<string, Row>, over: nat): map<string, Row> {
    map name | name in series && series[name].Keys == METRICS && !Idle(Dropped(series[name], over)) ::
      Dropped(series[name], over)
  }

  lemma RowTrimmed(series: map<string, Row>, window: seq<Entry>, over: nat, name: string)
    requires if name in series then RowOk(series[name], name, window) else Silent(name, window)
    requires NotNegative(window) && over <= |window|
    ensures var after := Trimmed(series, over);
      if name in after then RowOk(after[name], name, window[over..]) else Silent(name, window[over..])
  {
    if name in series {
      DroppedOk(series[name], name, window, over);
      IdleIsSilent(Dropped(series[name], over), name, window[over..]);
    }
  }

  lemma TrimOk(at: seq<int>, series: map<string, Row>, window: seq<Entry>, over: nat)
    requires WindowOk(at, series, window) && over <= |window|
    ensures WindowOk(at[over..], Trimmed(series, over), window[over..])
  {
    forall name
      ensures var after := Trimmed(series, over);
        if name in after then RowOk(after[name], name, window[over..]) else Silent(name, window[over..])
    {
      RowTrimmed(series, window, over, name);
    }
  }

  /** Whether a row outlives the trim, and as what. */
  ghost predicate Survives(all: map<string, Row>, name: string, row: Row, over: nat) {
    var dropped := Dropped(row, over);
    && dropped.Keys == METRICS
    && (name in all <==> !Idle(dropped))
    && (name in all ==> all[name] == dropped)
  }

  lemma TrimmedRows(series: map<string, Row>, over: nat)
    requires forall name :: name in series ==> series[name].Keys == METRICS
    ensures forall name :: name in series ==> Survives(Trimmed(series, over), name, series[name], over)
    ensures Trimmed(series, over).Keys <= series.Keys
  {
  }

  lemma TailOfTail(log: seq<Entry>, n: nat, over: nat)
    requires over <= n <= |log|
    ensures log[|log| - n..][over..] == log[|log| - (n - over)..]
  {
  }

  lemma TailPush(log: seq<Entry>, n: nat, e: Entry)
    requires n <= |log|
    ensures (log + [e])[|log| + 1 - (n + 1)..] == log[|log| - n..] + [e]
  {
  }

  lemma RecordedInSteps(series: map<string, Row>, n: nat, sample: map<string, Values>)
    requires FullSample(sample)
    ensures var now := WithSample(series, n, sample);
      (map name | name in now :: if name in sample.Keys then now[name] else Extended(now[name]))
      == Recorded(series, n, sample)
  {
  }

  ghost predicate PartlyDropped(series: map<string, Row>, before: map<string, Row>, all: map<string, Row>,
          todo: set<string>, over: nat)
  {
    && todo <= series.Keys
    && series.Keys == all.Keys + todo
    && forall name :: name in series ==>
      if name in todo then name in before && series[name] == before[name] && Survives(all, name, before[name], over)
      else series[name] == all[name]
  }

  lemma AllDropped(series: map<string, Row>, before: map<string, Row>, all: map<string, Row>, over: nat)
    requires PartlyDropped(series, before, all, {}, over)
    ensures series == all
  {
    assert all.Keys + {} == all.Keys;
  }

  lemma DropStep(series: map<string, Row>, before: map<string, Row>, all: map<string, Row>, todo: set<string>,
          over: nat, name: string)
    requires PartlyDropped(series, before, all, todo, over) && name in todo
    ensures name in series && Dropped(series[name], over).Keys == METRICS
    ensures var row := Dropped(series[name], over);
      PartlyDropped(if Idle(row) then series - {name} else series[name := row], before, all, todo - {name}, over)
  {
    var row := Dropped(series[name], over);
    if name in all {
      assert (series[name := row]).Keys == all.Keys + (todo - {name});
    } else {
      assert (series - {name}).Keys == all.Keys + (todo - {name});
    }
  }
}
