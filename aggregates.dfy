/**
 * The summaries the dashboard derives from the filtered rows: the KPI
 * figures, the revenue per service shown by the pie chart and the daily
 * revenue series shown by the line chart.
 */
module Aggregates {
  import opened Wrappers
  import opened StringOrder
  import opened Transactions

  /** One point of the daily revenue series: a date and the revenue booked on it. */
  datatype DailyPoint = DailyPoint(date: string, revenue: int)

  function DatesOf(series: seq<DailyPoint>): (dates: seq<string>)
    ensures |dates| == |series|
    ensures forall i | 0 <= i < |series| :: dates[i] == series[i].date
  {
    seq(|series|, i requires 0 <= i < |series| => series[i].date)
  }

  /** The distinct `Date of Service` values among `rows`. */
  function DatesIn(rows: seq<Record>): set<string>
  {
    set r | r in rows :: r.date
  }

  /** The distinct `Service` values among `rows`. */
  function ServicesIn(rows: seq<Record>): set<string>
  {
    set r | r in rows :: r.service
  }

  /** Total amount of the rows dated `d`. */
  function DayTotal(rows: seq<Record>, d: string): int
  {
    Total(Where(rows, (r: Record) => r.date == d))
  }

  /** Total amount of the rows for service `s`. */
  function ServiceTotal(rows: seq<Record>, s: string): int
  {
    Total(Where(rows, (r: Record) => r.service == s))
  }

  /** Sum of all values of the series. */
  function SeriesTotal(series: seq<DailyPoint>): int
  {
    if series == [] then 0 else series[0].revenue + SeriesTotal(series[1..])
  }

  /** Sum of the values the series holds for date `d` (0 when it holds none). */
  function RevenueOn(series: seq<DailyPoint>, d: string): int
  {
    if series == [] then 0
    else (if series[0].date == d then series[0].revenue else 0) + RevenueOn(series[1..], d)
  }

  lemma DatesOfCons(p: DailyPoint, series: seq<DailyPoint>)
    ensures DatesOf([p] + series) == [p.date] + DatesOf(series)
  {
  }

  lemma DatesOfTail(series: seq<DailyPoint>)
    requires series != []
    ensures DatesOf(series[1..]) == DatesOf(series)[1..]
  {
  }

  /**
   * Adds amount `a` on date `d` to a date-sorted series: the group-by step
   * for one row. The series stays sorted with distinct dates, gains `d` if
   * it was missing, and only `d`'s value grows, by exactly `a`.
   */
  function AddToSeries(series: seq<DailyPoint>, d: string, a: int): (r: seq<DailyPoint>)
    requires StrictlyAscending(DatesOf(series))
    ensures StrictlyAscending(DatesOf(r))
    ensures forall x :: x in DatesOf(r) <==> x in DatesOf(series) || x == d
    ensures SeriesTotal(r) == SeriesTotal(series) + a
    ensures forall x :: RevenueOn(r, x) == RevenueOn(series, x) + (if x == d then a else 0)
    decreases |series|
  {
    if series == [] then
      assert DatesOf([DailyPoint(d, a)]) == [d];
      [DailyPoint(d, a)]
    else if series[0].date == d then
      var r := [DailyPoint(d, series[0].revenue + a)] + series[1..];
      assert DatesOf(r) == DatesOf(series);
      r
    else if Lt(d, series[0].date) then
      DatesOfCons(DailyPoint(d, a), series);
      PrependAscending(series, d);
      [DailyPoint(d, a)] + series
    else
      DatesOfTail(series);
      var rest := AddToSeries(series[1..], d, a);
      DatesOfCons(series[0], rest);
      LtIffNotLe(d, series[0].date);
      LtIffNotLe(series[0].date, d);
      KeepHeadAscending(series, d, rest);
      assert DatesOf(series) == [series[0].date] + DatesOf(series)[1..];
      [series[0]] + rest
  }

  /** A date before the first date of a sorted series can go in front. */
  lemma PrependAscending(series: seq<DailyPoint>, d: string)
    requires StrictlyAscending(DatesOf(series))
    requires series != [] && Lt(d, series[0].date)
    ensures StrictlyAscending([d] + DatesOf(series))
  {
    forall y | y in DatesOf(series) ensures Lt(d, y) {
      var k :| 0 <= k < |series| && DatesOf(series)[k] == y;
      if k > 0 {
        LtTransitive(d, series[0].date, y);
      }
    }
    AscendingCons(d, DatesOf(series));
  }

  /** The first point stays in front when the new date comes after it. */
  lemma KeepHeadAscending(series: seq<DailyPoint>, d: string, rest: seq<DailyPoint>)
    requires StrictlyAscending(DatesOf(series))
    requires series != [] && Lt(series[0].date, d)
    requires StrictlyAscending(DatesOf(rest))
    requires forall x :: x in DatesOf(rest) <==> x in DatesOf(series[1..]) || x == d
    ensures StrictlyAscending([series[0].date] + DatesOf(rest))
  {
    DatesOfTail(series);
    forall y | y in DatesOf(rest) ensures Lt(series[0].date, y) {
      if y != d {
        assert y in DatesOf(series)[1..];
        var k :| 1 <= k < |series| && DatesOf(series)[k] == y;
      }
    }
    AscendingCons(series[0].date, DatesOf(rest));
  }

  /**
   * The daily revenue series (a group-by on the date with a sum of the
   * amounts): one point per distinct date among `rows`, in ascending date order.
   */
  function DailyRevenue(rows: seq<Record>): (series: seq<DailyPoint>)
    ensures StrictlyAscending(DatesOf(series))
  {
    if rows == [] then [] else AddToSeries(DailyRevenue(rows[1..]), rows[0].date, rows[0].amount)
  }

  /** A series with distinct dates holds nothing for a date it does not list. */
  lemma {:induction false} RevenueOnAbsent(series: seq<DailyPoint>, d: string)
    requires d !in DatesOf(series)
    ensures RevenueOn(series, d) == 0
    decreases |series|
  {
    if series != [] {
      DatesOfTail(series);
      assert DatesOf(series)[0] == series[0].date;
      RevenueOnAbsent(series[1..], d);
    }
  }

  /** In a series with distinct dates, the value of a point is everything the series holds for its date. */
  lemma {:induction false} RevenueOnPoint(series: seq<DailyPoint>, i: nat)
    requires StrictlyAscending(DatesOf(series))
    requires i < |series|
    ensures RevenueOn(series, series[i].date) == series[i].revenue
    decreases |series|
  {
    DatesOfTail(series);
    var dates := DatesOf(series);
    if i == 0 {
      assert series[0].date !in DatesOf(series[1..]);
      RevenueOnAbsent(series[1..], series[0].date);
    } else {
      assert Lt(dates[0], dates[i]);
      assert series[1..][i - 1] == series[i];
      RevenueOnPoint(series[1..], i - 1);
    }
  }

  /** The series holds, for every date, the total amount of that date's rows. */
  lemma {:induction false} DailyRevenueOn(rows: seq<Record>, d: string)
    ensures RevenueOn(DailyRevenue(rows), d) == DayTotal(rows, d)
    decreases |rows|
  {
    if rows != [] {
      DailyRevenueOn(rows[1..], d);
      TotalWhereCons(rows, (r: Record) => r.date == d);
    }
  }

  /**
   * The daily revenue series as the line chart receives it: its dates are
   * exactly the distinct dates among `rows`, each point carries the total
   * amount of its date's rows, and the points add up to the total of `rows`.
   */
  lemma {:induction false} DailyRevenueGroupsByDate(rows: seq<Record>)
    ensures forall d :: d in DatesOf(DailyRevenue(rows)) <==> d in DatesIn(rows)
    ensures forall i | 0 <= i < |DailyRevenue(rows)| ::
              DailyRevenue(rows)[i].revenue == DayTotal(rows, DailyRevenue(rows)[i].date)
    ensures SeriesTotal(DailyRevenue(rows)) == Total(rows)
    decreases |rows|
  {
    var series := DailyRevenue(rows);
    if rows != [] {
      DailyRevenueGroupsByDate(rows[1..]);
      assert rows == [rows[0]] + rows[1..];
      assert DatesIn(rows) == {rows[0].date} + DatesIn(rows[1..]);
    }
    forall i | 0 <= i < |series| ensures series[i].revenue == DayTotal(rows, series[i].date) {
      RevenueOnPoint(series, i);
      DailyRevenueOn(rows, series[i].date);
    }
  }

  /** One step of `ServiceTotal`: the first row counts exactly when it is for service `s`. */
  lemma ServiceTotalCons(rows: seq<Record>, s: string)
    requires rows != []
    ensures ServiceTotal(rows, s)
         == (if rows[0].service == s then rows[0].amount else 0) + ServiceTotal(rows[1..], s)
  {
    TotalWhereCons(rows, (r: Record) => r.service == s);
  }

  lemma ServicesInCons(rows: seq<Record>)
    requires rows != []
    ensures ServicesIn(rows) == {rows[0].service} + ServicesIn(rows[1..])
  {
    assert rows == [rows[0]] + rows[1..];
  }

  /** A service that no row mentions has total 0. */
  lemma ServiceTotalAbsent(rows: seq<Record>, s: string)
    requires s !in ServicesIn(rows)
    ensures ServiceTotal(rows, s) == 0
  {
    var kept := Where(rows, (r: Record) => r.service == s);
    if kept != [] {
      assert kept[0] in kept;
    }
  }

  /**
   * The data of the service pie chart: for every service among `rows`, the
   * total amount of its rows, and no other key.
   */
  function RevenueByService(rows: seq<Record>): (bySvc: map<string, int>)
    ensures bySvc.Keys == ServicesIn(rows)
    ensures forall s | s in bySvc :: bySvc[s] == ServiceTotal(rows, s)
  {
    if rows == [] then
      assert ServicesIn(rows) == {};
      map[]
    else
      var rest := RevenueByService(rows[1..]);
      AddServiceAmount(rows, rest);
      AddAmount(rest, rows[0].service, rows[0].amount)
  }

  /** Adds `a` to the value under key `s`, starting from 0 for a new key. */
  function AddAmount(m: map<string, int>, s: string, a: int): map<string, int>
  {
    m[s := (if s in m then m[s] else 0) + a]
  }

  /** The induction step of `RevenueByService`: adding the first row's amount under its service. */
  lemma AddServiceAmount(rows: seq<Record>, rest: map<string, int>)
    requires rows != []
    requires rest.Keys == ServicesIn(rows[1..])
    requires forall s | s in rest :: rest[s] == ServiceTotal(rows[1..], s)
    ensures AddAmount(rest, rows[0].service, rows[0].amount).Keys == ServicesIn(rows)
    ensures forall t | t in AddAmount(rest, rows[0].service, rows[0].amount) ::
              AddAmount(rest, rows[0].service, rows[0].amount)[t] == ServiceTotal(rows, t)
  {
    var s := rows[0].service;
    var m := AddAmount(rest, s, rows[0].amount);
    ServicesInCons(rows);
    forall t | t in m ensures m[t] == ServiceTotal(rows, t) {
      ServiceTotalCons(rows, t);
      if t == s && s !in rest {
        ServiceTotalAbsent(rows[1..], s);
      }
    }
  }

  /**
   * `avg` is the mean of `count` amounts adding up to `total`: absent when
   * there are none, otherwise the value that, times `count`, gives `total`.
   */
  predicate IsMean(avg: Option<real>, count: nat, total: int)
  {
    && (avg.None? <==> count == 0)
    && (avg.Some? ==> avg.value * (count as real) == total as real)
  }

  /**
   * The mean amount: `None` where pandas yields NaN (no rows); otherwise the
   * value that, times the number of rows, gives their total.
   */
  function AverageTicket(rows: seq<Record>): (avg: Option<real>)
    ensures IsMean(avg, |rows|, Total(rows))
  {
    if rows == [] then None else Some(Total(rows) as real / |rows| as real)
  }
}
