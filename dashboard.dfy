/**
 * The dashboard callback `update_dashboard`: filter the dataset by the city
 * and date-range selectors, then derive the KPI figures, the two chart
 * series and the table rows; and the sorted city list offered by the
 * city selector.
 */
module Dashboard {
  import opened Wrappers
  import opened StringOrder
  import opened Transactions
  import opened Aggregates

  /** Python truthiness of a selector value: an unset selector (`None`) and `""` are both false. */
  predicate Truthy(sel: Option<string>)
  {
    sel.Some? && sel.value != ""
  }

  /** The city mask: the row's city equals `c` exactly. */
  function InCity(c: string): Record -> bool
  {
    (r: Record) => r.city == c
  }

  /** The date mask: the row's date lies between `lo` and `hi`, both included, compared as text. */
  function InDateRange(lo: string, hi: string): Record -> bool
  {
    (r: Record) => Le(lo, r.date) && Le(r.date, hi)
  }

  /**
   * Whether a row passes the selectors, stated in one piece: the city must
   * match when a city is chosen, and the date must lie in the closed range
   * only when both ends of the range are given.
   */
  predicate Selected(city: Option<string>, startDate: Option<string>, endDate: Option<string>, r: Record)
  {
    && (Truthy(city) ==> r.city == city.value)
    && (Truthy(startDate) && Truthy(endDate) ==> Le(startDate.value, r.date) && Le(r.date, endDate.value))
  }

  function Selection(city: Option<string>, startDate: Option<string>, endDate: Option<string>): Record -> bool
  {
    (r: Record) => Selected(city, startDate, endDate, r)
  }

  /**
   * The filtering of `update_dashboard` as the code performs it: first by
   * city when a city is chosen, then by date range when both ends are given.
   */
  function TwoStageFilter(ds: seq<Record>, city: Option<string>, startDate: Option<string>, endDate: Option<string>): seq<Record>
  {
    var byCity := if Truthy(city) then Where(ds, InCity(city.value)) else ds;
    if Truthy(startDate) && Truthy(endDate)
    then Where(byCity, InDateRange(startDate.value, endDate.value))
    else byCity
  }

  /**
   * The rows the callback keeps. They are the selection of the dataset by
   * the single mask `Selected`: an order-preserving subsequence holding
   * every copy of every passing row and nothing else.
   */
  function FilterRows(ds: seq<Record>, city: Option<string>, startDate: Option<string>, endDate: Option<string>): (dff: seq<Record>)
    ensures dff == Where(ds, Selection(city, startDate, endDate))
    ensures IsSubsequence(dff, ds)
    ensures forall r :: r in dff <==> r in ds && Selected(city, startDate, endDate, r)
    ensures forall r :: multiset(dff)[r] == if Selected(city, startDate, endDate, r) then multiset(ds)[r] else 0
  {
    FilterRowsIsOneMask(ds, city, startDate, endDate);
    WhereIsSubsequence(ds, Selection(city, startDate, endDate));
    WhereMultiset(ds, Selection(city, startDate, endDate));
    TwoStageFilter(ds, city, startDate, endDate)
  }

  /** The two filtering stages together select with the single mask `Selected`. */
  lemma FilterRowsIsOneMask(ds: seq<Record>, city: Option<string>, startDate: Option<string>, endDate: Option<string>)
    ensures TwoStageFilter(ds, city, startDate, endDate) == Where(ds, Selection(city, startDate, endDate))
  {
    var sel := Selection(city, startDate, endDate);
    if Truthy(city) && Truthy(startDate) && Truthy(endDate) {
      WhereTwice(ds, InCity(city.value), InDateRange(startDate.value, endDate.value), sel);
    } else if Truthy(city) {
      WhereSameMask(ds, InCity(city.value), sel);
    } else if Truthy(startDate) && Truthy(endDate) {
      WhereSameMask(ds, InDateRange(startDate.value, endDate.value), sel);
    } else {
      WhereAll(ds, sel);
    }
  }

  /** The distinct `City` values of the dataset. */
  function CitiesIn(ds: seq<Record>): set<string>
  {
    set r | r in ds :: r.city
  }

  /**
   * The sorted distinct cities, the options of the city selector:
   * ascending, without duplicates, and holding exactly the dataset's cities.
   */
  function CityOptions(ds: seq<Record>): (cities: seq<string>)
    ensures StrictlyAscending(cities)
    ensures forall c :: c in cities <==> c in CitiesIn(ds)
  {
    if ds == [] then []
    else
      assert ds == [ds[0]] + ds[1..];
      assert CitiesIn(ds) == {ds[0].city} + CitiesIn(ds[1..]);
      InsertDistinct(CityOptions(ds[1..]), ds[0].city)
  }

  /**
   * The city options are THE sorted list of distinct cities: no other
   * ascending list holds the same cities, and no city appears twice.
   */
  lemma CityOptionsIsSortedUnique(ds: seq<Record>, other: seq<string>)
    requires StrictlyAscending(other)
    requires forall c :: c in other <==> c in CitiesIn(ds)
    ensures other == CityOptions(ds)
    ensures forall i, j | 0 <= i < j < |CityOptions(ds)| :: CityOptions(ds)[i] != CityOptions(ds)[j]
  {
    AscendingUnique(other, CityOptions(ds));
    AscendingHasNoDuplicates(CityOptions(ds));
  }

  /** What the callback hands to the page: the KPI figures, the two charts' data and the table rows. */
  datatype DashboardView = DashboardView(
    totalRevenue: int,
    totalTransactions: nat,
    avgTicket: Option<real>,
    revenueByService: map<string, int>,
    dailyRevenue: seq<DailyPoint>,
    tableData: seq<Record>)

  /**
   * `update_dashboard(city, start_date, end_date)` on the dataset `ds`.
   * The table shows the selected rows in dataset order; the transaction
   * count is their number and the revenue the sum of their amounts, which
   * the daily series splits by ascending date and the service map by service.
   */
  function UpdateDashboard(ds: seq<Record>, city: Option<string>, startDate: Option<string>, endDate: Option<string>): (v: DashboardView)
    ensures v.tableData == Where(ds, Selection(city, startDate, endDate))
    ensures IsSubsequence(v.tableData, ds)
    ensures forall r :: r in v.tableData <==> r in ds && Selected(city, startDate, endDate, r)
    ensures forall r :: multiset(v.tableData)[r] == if Selected(city, startDate, endDate, r) then multiset(ds)[r] else 0
    ensures v.totalTransactions == |v.tableData|
    ensures v.totalRevenue == Total(v.tableData)
    ensures IsMean(v.avgTicket, v.totalTransactions, v.totalRevenue)
    ensures StrictlyAscending(DatesOf(v.dailyRevenue))
    ensures forall d :: d in DatesOf(v.dailyRevenue) <==> d in DatesIn(v.tableData)
    ensures forall i | 0 <= i < |v.dailyRevenue| ::
              v.dailyRevenue[i].revenue == DayTotal(v.tableData, v.dailyRevenue[i].date)
    ensures SeriesTotal(v.dailyRevenue) == v.totalRevenue
    ensures v.revenueByService.Keys == ServicesIn(v.tableData)
    ensures forall s | s in v.revenueByService :: v.revenueByService[s] == ServiceTotal(v.tableData, s)
  {
    var dff := FilterRows(ds, city, startDate, endDate);
    var count := |dff|;
    var revenue := Total(dff);
    var avg := AverageTicket(dff);
    DailyRevenueGroupsByDate(dff);
    DashboardView(revenue, count, avg, RevenueByService(dff), DailyRevenue(dff), dff)
  }

  /** With no city and no complete date range the table is the whole dataset, in order. */
  lemma NoSelectionKeepsAll(ds: seq<Record>, city: Option<string>, startDate: Option<string>, endDate: Option<string>)
    requires !Truthy(city) && !(Truthy(startDate) && Truthy(endDate))
    ensures FilterRows(ds, city, startDate, endDate) == ds
    ensures UpdateDashboard(ds, city, startDate, endDate).totalTransactions == |ds|
  {
  }

  /**
   * The city step: with a city chosen, every kept row is of that city, and
   * every row of that city is kept, as often as it occurs in the dataset.
   */
  lemma CityStepKeepsExactlyThatCity(ds: seq<Record>, c: string)
    requires c != ""
    ensures forall r | r in FilterRows(ds, Some(c), None, None) :: r.city == c
    ensures forall r :: multiset(FilterRows(ds, Some(c), None, None))[r]
                     == if r.city == c then multiset(ds)[r] else 0
  {
    WhereMultiset(ds, InCity(c));
  }

  /**
   * Only a complete range filters dates: with either end missing or empty,
   * the rows are those of the city step alone.
   */
  lemma IncompleteRangeIgnored(ds: seq<Record>, city: Option<string>, startDate: Option<string>, endDate: Option<string>)
    requires !(Truthy(startDate) && Truthy(endDate))
    ensures FilterRows(ds, city, startDate, endDate) == FilterRows(ds, city, None, None)
  {
  }

  /**
   * With both ends given, a row of the city step is kept exactly when
   * `lo <= date <= hi` on text; in particular rows dated on either end are kept.
   */
  lemma DateRangeIsInclusive(ds: seq<Record>, city: Option<string>, lo: string, hi: string)
    requires lo != "" && hi != ""
    ensures forall r :: r in FilterRows(ds, city, Some(lo), Some(hi))
                    <==> r in FilterRows(ds, city, None, None) && Le(lo, r.date) && Le(r.date, hi)
    ensures Le(lo, hi) ==>
              forall r | r in FilterRows(ds, city, None, None) && (r.date == lo || r.date == hi) ::
                r in FilterRows(ds, city, Some(lo), Some(hi))
  {
    LeReflexive(lo);
    LeReflexive(hi);
  }

  /**
   * Choosing a city splits the dataset: the rows of that city and the rows
   * of every other city add up to all rows, in count and in revenue.
   */
  lemma CityAndRestPartition(ds: seq<Record>, c: string)
    requires c != ""
    ensures |FilterRows(ds, Some(c), None, None)| + |Where(ds, (r: Record) => r.city != c)| == |ds|
    ensures Total(FilterRows(ds, Some(c), None, None)) + Total(Where(ds, (r: Record) => r.city != c)) == Total(ds)
  {
    WherePartition(ds, InCity(c), (r: Record) => r.city != c);
  }

  /**
   * A city that is not in the dataset (a stale selector) is not an error:
   * every figure takes its no-data value and the average is absent.
   */
  lemma UnknownCityGivesEmptyView(ds: seq<Record>, city: Option<string>, startDate: Option<string>, endDate: Option<string>)
    requires Truthy(city) && city.value !in CitiesIn(ds)
    ensures var v := UpdateDashboard(ds, city, startDate, endDate);
            && v.tableData == [] && v.totalTransactions == 0 && v.totalRevenue == 0
            && v.avgTicket == None && v.dailyRevenue == [] && v.revenueByService == map[]
  {
  }

  /** Every non-empty city the selector offers selects at least one row, all of that city. */
  lemma OfferedCitySelectsRows(ds: seq<Record>, c: string)
    requires c in CityOptions(ds) && c != ""
    ensures FilterRows(ds, Some(c), None, None) != []
    ensures forall r | r in FilterRows(ds, Some(c), None, None) :: r.city == c
  {
    var r :| r in ds && r.city == c;
    assert r in FilterRows(ds, Some(c), None, None);
  }

  /**
   * Two transactions, one in NY for 100 and one in LA for 50: choosing NY
   * gives revenue 100 from one transaction, an average of 100 and only NY's
   * service in the pie chart.
   */
  lemma TwoCityExample()
    ensures var ny := Record("NY", "2024-01-05", "Full Detail", 100);
            var la := Record("LA", "2024-01-06", "Exterior Wash", 50);
            var v := UpdateDashboard([ny, la], Some("NY"), None, None);
            && v.tableData == [ny]
            && v.totalRevenue == 100 && v.totalTransactions == 1 && v.avgTicket == Some(100.0)
            && v.revenueByService == map["Full Detail" := 100]
            && v.dailyRevenue == [DailyPoint("2024-01-05", 100)]
  {
    var ny := Record("NY", "2024-01-05", "Full Detail", 100);
    var la := Record("LA", "2024-01-06", "Exterior Wash", 50);
    var sel := Selection(Some("NY"), None, None);
    assert sel(ny) && !sel(la);
    assert [ny, la][1..] == [la];
    assert Where([la], sel) == [] by {
      assert [la][1..] == [];
    }
    assert Where([ny, la], sel) == [ny];
    assert FilterRows([ny, la], Some("NY"), None, None) == [ny];
    assert [ny][1..] == [];
    assert Total([ny]) == 100;
    assert AverageTicket([ny]) == Some(100.0);
    assert RevenueByService([ny]) == map["Full Detail" := 100];
    assert DailyRevenue([ny]) == [DailyPoint("2024-01-05", 100)];
  }
}
