/** The metrics table and the two queries over it: the filtered, newest-first
    listing and the per-day statistics for a chart. Timestamps are milliseconds
    since the epoch; values are exact reals. */
module MetricService {
  import opened Wrappers
  import Sequences

  const DayMs: int := 86400000

  datatype Metric = Metric(
    id: string, profileId: string, metricType: string, value: real, unit: string,
    timestamp: int, notes: Option<string>, mediaId: Option<string>, deletedAt: Option<int>)

  function Timestamp(m: Metric): int {
    m.timestamp
  }

  // ---------------------------------------------------------------- listing

  /** The optional filters of a listing; unset (or empty / zero, which JavaScript
      treats as unset) filters are not applied. */
  datatype MetricFilters = MetricFilters(
    profileId: string, metricType: Option<string>, from: Option<int>, to: Option<int>,
    limit: Option<nat>)

  /** The rows the listing keeps: the profile's live rows that pass every filter. */
  predicate Matches(m: Metric, filters: MetricFilters) {
    && m.profileId == filters.profileId
    && m.deletedAt.None?
    && (filters.metricType.Some? && filters.metricType.value != "" ==>
          m.metricType == filters.metricType.value)
    && (filters.from.Some? ==> filters.from.value <= m.timestamp)
    && (filters.to.Some? ==> m.timestamp <= filters.to.value)
  }

  /** The limit, when there is one that is applied. */
  predicate Limited(filters: MetricFilters) {
    filters.limit.Some? && filters.limit.value != 0
  }

  /** All matching rows, newest first: each one a row of the table that passes the filters. */
  function Matching(rows: seq<Metric>, filters: MetricFilters): (r: seq<Metric>)
    ensures forall m :: m in r ==> m in rows && Matches(m, filters)
    ensures Sequences.SortedDesc(r, Timestamp)
    ensures multiset(r) == multiset(Sequences.Filter(rows, (m: Metric) => Matches(m, filters)))
  {
    var keep := m => Matches(m, filters);
    Sequences.SortedFilterElements(rows, keep, Timestamp);
    Sequences.SortDesc(Sequences.Filter(rows, keep), Timestamp)
  }

  /** `getMetrics`: filter, order by timestamp descending, then cut to the limit. */
  function GetMetrics(rows: seq<Metric>, filters: MetricFilters): seq<Metric> {
    var ordered := Matching(rows, filters);
    if Limited(filters) then Sequences.Take(ordered, filters.limit.value) else ordered
  }

  /** Every returned row is a live row of the profile that passes the filters,
      and the rows come newest first. */
  lemma GetMetricsSound(rows: seq<Metric>, filters: MetricFilters)
    ensures forall m :: m in GetMetrics(rows, filters) ==> m in rows && Matches(m, filters)
    ensures Sequences.SortedDesc(GetMetrics(rows, filters), Timestamp)
  {
    var ordered := Matching(rows, filters);
    var r := GetMetrics(rows, filters);
    assert r == ordered[..|r|];
    forall m | m in r
      ensures m in ordered
    {
      var i :| 0 <= i < |r| && r[i] == m;
      assert ordered[i] == m;
    }
  }

  /** Without an applied limit every matching row is returned exactly once. */
  lemma GetMetricsComplete(rows: seq<Metric>, filters: MetricFilters)
    requires !Limited(filters)
    ensures multiset(GetMetrics(rows, filters)) == multiset(Sequences.Filter(rows, m => Matches(m, filters)))
  {
  }

  /** With a limit `n` the result holds the `n` newest matching rows (or all of
      them when fewer match): no row left out is newer than one returned. */
  lemma GetMetricsLimited(rows: seq<Metric>, filters: MetricFilters)
    requires Limited(filters)
    ensures var r := GetMetrics(rows, filters);
      var all := Matching(rows, filters);
      && |r| == (if filters.limit.value < |all| then filters.limit.value else |all|)
      && r == all[..|r|]
      && forall i, j :: 0 <= i < |r| <= j < |all| ==> all[j].timestamp <= r[i].timestamp
  {
  }

  // ---------------------------------------------------------------- soft delete

  /** Every row with the id gets `deletedAt`; nothing else changes. */
  function SoftDeleted(rows: seq<Metric>, id: string, now: int): (r: seq<Metric>)
    ensures |r| == |rows|
    ensures forall i :: 0 <= i < |rows| && rows[i].id != id ==> r[i] == rows[i]
    ensures forall i :: 0 <= i < |rows| && rows[i].id == id ==> r[i] == rows[i].(deletedAt := Some(now))
  {
    seq(|rows|, i requires 0 <= i < |rows| =>
      if rows[i].id == id then rows[i].(deletedAt := Some(now)) else rows[i])
  }

  /** A deleted metric no longer shows up in any listing. */
  lemma DeletedMetricIsNotListed(rows: seq<Metric>, id: string, now: int, filters: MetricFilters)
    ensures forall m :: m in GetMetrics(SoftDeleted(rows, id, now), filters) ==> m.id != id
  {
    GetMetricsSound(SoftDeleted(rows, id, now), filters);
  }

  /** The metrics table. */
  class MetricsTable {
    var rows: seq<Metric>

    constructor(initial: seq<Metric>)
      ensures rows == initial
    {
      rows := initial;
    }

    /** `createMetric`: insert a row; the database assigns the id. */
    method CreateMetric(row: Metric, dbError: Option<string>) returns (r: Result<Metric>)
      modifies this
      ensures dbError.Some? ==> r == Err(dbError.value) && rows == old(rows)
      ensures dbError.None? ==> r == Ok(row) && rows == old(rows) + [row]
    {
      if dbError.Some? {
        return Err(dbError.value);
      }
      rows := rows + [row];
      return Ok(row);
    }

    /** `deleteMetric`: a soft delete stamped with the current time. */
    method DeleteMetric(id: string, now: int, dbError: Option<string>) returns (r: Outcome)
      modifies this
      ensures dbError.Some? ==> r == Failed(dbError.value) && rows == old(rows)
      ensures dbError.None? ==> r == Succeeded && rows == SoftDeleted(old(rows), id, now)
    {
      if dbError.Some? {
        return Failed(dbError.value);
      }
      rows := SoftDeleted(rows, id, now);
      return Succeeded;
    }
  }

  // ---------------------------------------------------------------- statistics

  datatype Period = Week | Month | Year

  /** The length of the chart window in days (`'1W'`, `'1M'`, `'1Y'`). */
  function PeriodDays(period: Period): nat {
    match period
    case Week => 7
    case Month => 30
    case Year => 365
  }

  /** The UTC calendar day of a timestamp, as a day number. */
  function DayOf(timestamp: int): int {
    timestamp / DayMs
  }

  /** A row the statistics read: a live row of the profile and type at or after `from`. */
  predicate InStatsWindow(m: Metric, profileId: string, metricType: string, from: int) {
    m.profileId == profileId && m.metricType == metricType && m.deletedAt.None? && from <= m.timestamp
  }

  /** The rows the statistics read, oldest first: the profile's live rows of the type
      inside the window, each exactly once. */
  function StatsRows(rows: seq<Metric>, profileId: string, metricType: string, period: Period, now: int): (r: seq<Metric>)
    ensures forall m :: m in r ==>
      && m in rows && m.profileId == profileId && m.metricType == metricType
      && m.deletedAt.None? && now - PeriodDays(period) * DayMs <= m.timestamp
    ensures multiset(r) == multiset(Sequences.Filter(rows, (m: Metric) =>
      InStatsWindow(m, profileId, metricType, now - PeriodDays(period) * DayMs)))
  {
    var keep := (m: Metric) => InStatsWindow(m, profileId, metricType, now - PeriodDays(period) * DayMs);
    var ascending := (m: Metric) => -m.timestamp;
    Sequences.SortedFilterElements(rows, keep, ascending);
    Sequences.SortDesc(Sequences.Filter(rows, keep), ascending)
  }

  /** The rows fetched come oldest first. */
  lemma StatsRowsAscending(rows: seq<Metric>, profileId: string, metricType: string, period: Period, now: int)
    ensures var r := StatsRows(rows, profileId, metricType, period, now);
      forall i, j :: 0 <= i < j < |r| ==> r[i].timestamp <= r[j].timestamp
  {
    var r := StatsRows(rows, profileId, metricType, period, now);
    assert Sequences.SortedDesc(r, (m: Metric) => -m.timestamp);
    forall i, j | 0 <= i < j < |r|
      ensures r[i].timestamp <= r[j].timestamp
    {
      assert -r[i].timestamp >= -r[j].timestamp;
    }
  }

  /** The distinct days of `ms`, in order of first appearance (the key order of a
      JavaScript `Map` filled in that order). */
  function DaysInOrder(ms: seq<Metric>): (days: seq<int>)
    decreases |ms|
  {
    if ms == [] then []
    else
      var days := DaysInOrder(ms[..|ms| - 1]);
      var d := DayOf(ms[|ms| - 1].timestamp);
      if d in days then days else days + [d]
  }

  /** The values of the rows of `ms` on day `d`, in order. */
  function ValuesOn(ms: seq<Metric>, d: int): seq<real>
    decreases |ms|
  {
    if ms == [] then []
    else
      ValuesOn(ms[..|ms| - 1], d) + (if DayOf(ms[|ms| - 1].timestamp) == d then [ms[|ms| - 1].value] else [])
  }

  predicate Distinct(days: seq<int>) {
    forall i, j :: 0 <= i < j < |days| ==> days[i] != days[j]
  }

  /** The grouping step of `getMetricStats`: a `Map` from day to the values of that day. */
  method GroupByDay(ms: seq<Metric>) returns (days: seq<int>, groups: map<int, seq<real>>)
    ensures days == DaysInOrder(ms)
    ensures forall d :: d in groups <==> d in days
    ensures forall d :: d in groups ==> groups[d] == ValuesOn(ms, d)
  {
    days := [];
    groups := map[];
    for i := 0 to |ms|
      invariant days == DaysInOrder(ms[..i])
      invariant forall d :: d in groups <==> d in days
      invariant forall d :: d in groups ==> groups[d] == ValuesOn(ms[..i], d)
    {
      var m := ms[i];
      var d := DayOf(m.timestamp);
      assert ms[..i + 1][..i] == ms[..i];
      assert ms[..i + 1][i] == m;
      if d !in groups {
        ValuesOnAbsentDay(ms[..i], d);
        days := days + [d];
        groups := groups[d := []];
      }
      groups := groups[d := groups[d] + [m.value]];
    }
    assert ms[..|ms|] == ms;
  }

  lemma {:induction false} ValuesOnAbsentDay(ms: seq<Metric>, d: int)
    requires d !in DaysInOrder(ms)
    ensures ValuesOn(ms, d) == []
    decreases |ms|
  {
    if ms != [] {
      ValuesOnAbsentDay(ms[..|ms| - 1], d);
    }
  }

  lemma {:induction false} DaysInOrderDistinct(ms: seq<Metric>)
    ensures Distinct(DaysInOrder(ms))
    decreases |ms|
  {
    if ms != [] {
      DaysInOrderDistinct(ms[..|ms| - 1]);
    }
  }

  /** Every row's day is one of the groups, and every group holds at least one value. */
  lemma {:induction false} GroupsCoverRows(ms: seq<Metric>)
    ensures forall i :: 0 <= i < |ms| ==> DayOf(ms[i].timestamp) in DaysInOrder(ms)
    ensures forall d :: d in DaysInOrder(ms) ==> |ValuesOn(ms, d)| >= 1
    decreases |ms|
  {
    if ms != [] {
      var init := ms[..|ms| - 1];
      GroupsCoverRows(init);
      forall i | 0 <= i < |ms| - 1
        ensures DayOf(ms[i].timestamp) in DaysInOrder(ms)
      {
        assert ms[i] == init[i];
      }
    }
  }

  /** The number of values over the given days. */
  function CountOver(ms: seq<Metric>, days: seq<int>): nat {
    if days == [] then 0 else |ValuesOn(ms, days[0])| + CountOver(ms, days[1..])
  }

  lemma {:induction false} CountOverAppendDay(ms: seq<Metric>, days: seq<int>, d: int)
    ensures CountOver(ms, days + [d]) == CountOver(ms, days) + |ValuesOn(ms, d)|
    decreases |days|
  {
    if days == [] {
      assert [d][1..] == [];
    } else {
      assert (days + [d])[1..] == days[1..] + [d];
      CountOverAppendDay(ms, days[1..], d);
    }
  }

  /** Adding a row with day `x` adds one value for each occurrence of `x` in `days`. */
  lemma {:induction false} CountOverAppendRow(ms: seq<Metric>, m: Metric, days: seq<int>)
    requires Distinct(days)
    ensures CountOver(ms + [m], days)
         == CountOver(ms, days) + (if DayOf(m.timestamp) in days then 1 else 0)
    decreases |days|
  {
    assert (ms + [m])[..|ms + [m]| - 1] == ms;
    if days != [] {
      CountOverAppendRow(ms, m, days[1..]);
      if DayOf(m.timestamp) == days[0] {
        assert DayOf(m.timestamp) !in days[1..];
      }
    }
  }

  /** Every value lands in exactly one group: the group sizes add up to the number of rows. */
  lemma {:induction false} GroupCountsSum(ms: seq<Metric>)
    ensures CountOver(ms, DaysInOrder(ms)) == |ms|
    decreases |ms|
  {
    if ms != [] {
      var init := ms[..|ms| - 1];
      var m := ms[|ms| - 1];
      assert ms == init + [m];
      GroupCountsSum(init);
      DaysInOrderDistinct(init);
      var days := DaysInOrder(init);
      CountOverAppendRow(init, m, days);
      var d := DayOf(m.timestamp);
      if d !in days {
        CountOverAppendDay(ms, days, d);
        ValuesOnAbsentDay(init, d);
      }
    }
  }

  /** Rows in time order give days in strictly increasing order, so the last group is
      the most recent day. */
  lemma {:induction false} DaysAscending(ms: seq<Metric>)
    requires forall i, j :: 0 <= i < j < |ms| ==> ms[i].timestamp <= ms[j].timestamp
    ensures forall i, j :: 0 <= i < j < |DaysInOrder(ms)| ==> DaysInOrder(ms)[i] < DaysInOrder(ms)[j]
    ensures ms != [] ==> DaysInOrder(ms)[|DaysInOrder(ms)| - 1] == DayOf(ms[|ms| - 1].timestamp)
    decreases |ms|
  {
    if ms != [] {
      var init := ms[..|ms| - 1];
      DaysAscending(init);
      GroupsCoverRows(init);
      var d := DayOf(ms[|ms| - 1].timestamp);
      if init != [] {
        var days := DaysInOrder(init);
        var last := DayOf(init[|init| - 1].timestamp);
        assert last == days[|days| - 1];
        DayOfMonotone(init[|init| - 1].timestamp, ms[|ms| - 1].timestamp);
        forall k | 0 <= k < |days|
          ensures days[k] <= last
        {
        }
      }
    }
  }

  lemma DayOfMonotone(a: int, b: int)
    requires a <= b
    ensures DayOf(a) <= DayOf(b)
  {
  }

  // ---------------------------------------------------------------- per-day figures

  function Sum(values: seq<real>): real {
    if values == [] then 0.0 else values[0] + Sum(values[1..])
  }

  function Min(values: seq<real>): (r: real)
    requires values != []
    ensures r in values && forall k :: 0 <= k < |values| ==> r <= values[k]
  {
    if |values| == 1 then values[0]
    else
      var m := Min(values[1..]);
      if values[0] <= m then values[0] else m
  }

  function Max(values: seq<real>): (r: real)
    requires values != []
    ensures r in values && forall k :: 0 <= k < |values| ==> values[k] <= r
  {
    if |values| == 1 then values[0]
    else
      var m := Max(values[1..]);
      if values[0] >= m then values[0] else m
  }

  lemma {:induction false} SumBounds(values: seq<real>, lo: real, hi: real)
    requires forall k :: 0 <= k < |values| ==> lo <= values[k] <= hi
    ensures |values| as real * lo <= Sum(values) <= |values| as real * hi
    decreases |values|
  {
    if values != [] {
      SumBounds(values[1..], lo, hi);
    }
  }

  lemma AverageBounds(sum: real, count: real, lo: real, hi: real)
    requires count > 0.0 && count * lo <= sum <= count * hi
    ensures lo <= sum / count <= hi
  {
  }

  /** The mean of a non-empty group. */
  function Mean(values: seq<real>): real
    requires values != []
  {
    Sum(values) / (|values| as real)
  }

  /** The mean of a non-empty group lies within any bounds of its values. */
  lemma MeanBounds(values: seq<real>, lo: real, hi: real)
    requires values != []
    requires forall k :: 0 <= k < |values| ==> lo <= values[k] <= hi
    ensures lo <= Mean(values) <= hi
  {
    SumBounds(values, lo, hi);
    AverageBounds(Sum(values), |values| as real, lo, hi);
  }

  lemma DivTimes(sum: real, count: real, quotient: real)
    requires count > 0.0 && quotient == sum / count
    ensures quotient * count == sum
  {
  }

  /** The mean times the size of the group is the group's total. */
  lemma MeanTimesCount(values: seq<real>)
    requires values != []
    ensures Mean(values) * (|values| as real) == Sum(values)
  {
    DivTimes(Sum(values), |values| as real, Mean(values));
  }

  datatype DayStat = DayStat(day: int, avg: real, min: real, max: real, count: nat)

  /** The figures of one day's group: its size, its extremes and its mean, which
      lies between them. */
  function StatOf(day: int, values: seq<real>): (r: DayStat)
    requires values != []
    ensures r.count == |values| >= 1
    ensures r.avg == Mean(values)
    ensures r.min <= r.avg <= r.max
    ensures r.min in values && r.max in values
    ensures r.day == day
    ensures forall k :: 0 <= k < |values| ==> r.min <= values[k] <= r.max
  {
    var lo, hi := Min(values), Max(values);
    MeanBounds(values, lo, hi);
    DayStat(day, Mean(values), lo, hi, |values|)
  }

  /** One figure per group, in the groups' order. */
  function DayStats(days: seq<int>, groups: map<int, seq<real>>): (r: seq<DayStat>)
    requires forall d :: d in days ==> d in groups && groups[d] != []
    ensures |r| == |days|
    ensures forall k :: 0 <= k < |days| ==> r[k] == StatOf(days[k], groups[days[k]])
  {
    if days == [] then [] else [StatOf(days[0], groups[days[0]])] + DayStats(days[1..], groups)
  }

  datatype Stats = Stats(data: seq<DayStat>, change: real, changePercent: real, current: real, previous: real)

  /** `x || 0` for a number. */
  function OrZero(x: real): real {
    if x == 0.0 then 0.0 else x
  }

  /** The change figures: the latest day against the earliest one. */
  function ChangeOf(data: seq<DayStat>): (r: Stats)
    ensures r.data == data
    ensures r.current == (if data == [] then 0.0 else data[|data| - 1].avg)
    ensures r.previous == (if data == [] then 0.0 else data[0].avg)
    ensures r.change == r.current - r.previous
    ensures r.previous <= 0.0 ==> r.changePercent == 0.0
    ensures r.previous > 0.0 ==> r.changePercent * r.previous == r.change * 100.0
  {
    var current := if data == [] then 0.0 else OrZero(data[|data| - 1].avg);
    var previous := if data == [] then 0.0 else OrZero(data[0].avg);
    var change := current - previous;
    Stats(data, change, if previous > 0.0 then (change / previous) * 100.0 else 0.0, current, previous)
  }

  /** `getMetricStats` over a snapshot of the table at time `now`. */
  method GetMetricStats(rows: seq<Metric>, profileId: string, metricType: string, period: Period, now: int)
    returns (r: Stats)
    ensures var ms := StatsRows(rows, profileId, metricType, period, now);
      var days := DaysInOrder(ms);
      && |r.data| == |days|
      && (forall k :: 0 <= k < |days| ==>
            ValuesOn(ms, days[k]) != [] && r.data[k] == StatOf(days[k], ValuesOn(ms, days[k])))
      && r == ChangeOf(r.data)
  {
    var ms := StatsRows(rows, profileId, metricType, period, now);
    var days, groups := GroupByDay(ms);
    GroupsCoverRows(ms);
    forall d | d in days
      ensures d in groups && groups[d] != []
    {
      assert |ValuesOn(ms, d)| >= 1;
    }
    var data := DayStats(days, groups);
    assert forall k :: 0 <= k < |days| ==> data[k] == StatOf(days[k], ValuesOn(ms, days[k]));
    r := ChangeOf(data);
  }

  /** The groups of the statistics partition the fetched rows, and the current
      figure is the average of the most recent day. */
  lemma StatsPartitionRows(rows: seq<Metric>, profileId: string, metricType: string, period: Period, now: int)
    ensures var ms := StatsRows(rows, profileId, metricType, period, now);
      var days := DaysInOrder(ms);
      && Distinct(days)
      && CountOver(ms, days) == |ms|
      && (forall d :: d in days ==> |ValuesOn(ms, d)| >= 1)
      && (ms != [] ==> days[|days| - 1] == DayOf(ms[|ms| - 1].timestamp))
  {
    var ms := StatsRows(rows, profileId, metricType, period, now);
    DaysInOrderDistinct(ms);
    GroupCountsSum(ms);
    GroupsCoverRows(ms);
    StatsRowsAscending(rows, profileId, metricType, period, now);
    DaysAscending(ms);
  }
}
