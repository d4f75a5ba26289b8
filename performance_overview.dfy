/**
 * The selections the performance dashboard makes from a report
 * (app/dashboard/performance-tracking/_components/PerformanceOverview.jsx): the top performers,
 * the chart series and the first rows of the two tables. Formatting and drawing are not part
 * of this model.
 */
module PerformanceOverview {
  import opened Wrappers
  import opened Seqs
  import opened PerformanceData

  const RevenueChartSize: nat := 10
  const RatingChartSize: nat := 10
  const TopPerformerCount: nat := 5
  const TableRows: nat := 5

  /** `lead.totalRevenue > 0`: a NULL revenue compares false. */
  predicate HasRevenue(r: RevenueRow) {
    r.totalRevenue.Some? && r.totalRevenue.value > 0
  }

  /** The comparator `(b.totalRevenue || 0) - (a.totalRevenue || 0)` as an ascending key. */
  function NegatedRevenue(r: RevenueRow): int { -RevenueOrZero(r) }

  /** The leads with positive revenue, by non-increasing revenue (`Array.prototype.sort` is stable). */
  function ByRevenue(revenueData: seq<RevenueRow>): seq<RevenueRow> {
    SortByKey(Filter(revenueData, HasRevenue), NegatedRevenue)
  }

  function TopPerformers(revenueData: seq<RevenueRow>): seq<RevenueRow> {
    Take(ByRevenue(revenueData), TopPerformerCount)
  }

  /**
   * `topPerformers`: at most five leads of `revenueData`, each with positive revenue, in
   * non-increasing revenue order; any lead with positive revenue left out earns no more than
   * each one listed.
   */
  lemma TopPerformersSpec(revenueData: seq<RevenueRow>)
    ensures |TopPerformers(revenueData)| <= TopPerformerCount
    ensures forall r :: r in TopPerformers(revenueData) ==> r in revenueData && HasRevenue(r)
    ensures forall i, j :: 0 <= i < j < |TopPerformers(revenueData)| ==>
              RevenueOrZero(TopPerformers(revenueData)[j]) <= RevenueOrZero(TopPerformers(revenueData)[i])
    ensures forall x, y ::
              x in revenueData && HasRevenue(x) && x !in TopPerformers(revenueData) && y in TopPerformers(revenueData)
              ==> RevenueOrZero(x) <= RevenueOrZero(y)
  {
    var sorted := ByRevenue(revenueData);
    var top := TopPerformers(revenueData);
    TakeKeepsSorted(sorted, NegatedRevenue, TopPerformerCount);
    TakeOfSortedIsSmallest(sorted, NegatedRevenue, TopPerformerCount);
    forall r | r in top ensures r in revenueData && HasRevenue(r) {
      assert r in multiset(sorted);
    }
    forall x | x in revenueData && HasRevenue(x) ensures x in sorted {
      assert x in multiset(Filter(revenueData, HasRevenue));
    }
    assert forall i, j :: 0 <= i < j < |top| ==> NegatedRevenue(top[i]) <= NegatedRevenue(top[j]);
  }

  /** `totalRevenue`: the sum of the top performers' revenues. */
  function TotalRevenue(revenueData: seq<RevenueRow>): (total: int)
    ensures total >= 0
    ensures TopPerformers(revenueData) != [] ==> total > 0
    ensures total == SumBy(TopPerformers(revenueData), RevenueOrZero)
  {
    var top := TopPerformers(revenueData);
    TopPerformersSpec(revenueData);
    PositiveSum(top);
    SumBy(top, RevenueOrZero)
  }

  lemma {:induction false} PositiveSum(rows: seq<RevenueRow>)
    requires forall r :: r in rows ==> HasRevenue(r)
    ensures SumBy(rows, RevenueOrZero) >= 0
    ensures rows != [] ==> SumBy(rows, RevenueOrZero) > 0
  {
    if rows != [] {
      assert rows[0] in rows;
      assert forall r :: r in rows[1..] ==> r in rows;
      PositiveSum(rows[1..]);
    }
  }

  datatype RevenueChartEntry = RevenueChartEntry(name: string, revenue: int)

  function ChartEntry(r: RevenueRow): RevenueChartEntry {
    RevenueChartEntry(r.restaurantName, RevenueOrZero(r))
  }

  function ChartEntries(rows: seq<RevenueRow>): (r: seq<RevenueChartEntry>)
    ensures |r| == |rows|
    ensures forall i :: 0 <= i < |rows| ==> r[i] == ChartEntry(rows[i])
  {
    if rows == [] then [] else [ChartEntry(rows[0])] + ChartEntries(rows[1..])
  }

  /** `revenueChartData`: the same selection as the top performers, ten instead of five. */
  function RevenueChartData(revenueData: seq<RevenueRow>): seq<RevenueChartEntry> {
    ChartEntries(Take(ByRevenue(revenueData), RevenueChartSize))
  }

  /**
   * The revenue chart has at most ten bars, all positive and non-increasing, and its first
   * bars are the top performers.
   */
  lemma RevenueChartSpec(revenueData: seq<RevenueRow>)
    ensures |RevenueChartData(revenueData)| <= RevenueChartSize
    ensures forall e :: e in RevenueChartData(revenueData) ==> e.revenue > 0
    ensures forall i, j :: 0 <= i < j < |RevenueChartData(revenueData)| ==>
              RevenueChartData(revenueData)[j].revenue <= RevenueChartData(revenueData)[i].revenue
    ensures |TopPerformers(revenueData)| <= |RevenueChartData(revenueData)|
    ensures forall i :: 0 <= i < |TopPerformers(revenueData)| ==>
              RevenueChartData(revenueData)[i] == ChartEntry(TopPerformers(revenueData)[i])
  {
    var sorted := ByRevenue(revenueData);
    var ten := Take(sorted, RevenueChartSize);
    TakeKeepsSorted(sorted, NegatedRevenue, RevenueChartSize);
    ByRevenuePositive(revenueData);
    assert forall i :: 0 <= i < |ten| ==> ten[i] == sorted[i];
    ChartOfRanked(ten);
    var top := TopPerformers(revenueData);
    assert forall i :: 0 <= i < |top| ==> top[i] == sorted[i];
  }

  /** The bars of leads ranked by revenue are positive and non-increasing. */
  lemma ChartOfRanked(rows: seq<RevenueRow>)
    requires SortedBy(rows, NegatedRevenue)
    requires forall i :: 0 <= i < |rows| ==> HasRevenue(rows[i])
    ensures forall e :: e in ChartEntries(rows) ==> e.revenue > 0
    ensures forall i, j :: 0 <= i < j < |ChartEntries(rows)| ==>
              ChartEntries(rows)[j].revenue <= ChartEntries(rows)[i].revenue
  {
    var chart := ChartEntries(rows);
    forall e | e in chart ensures e.revenue > 0 {
      var i :| 0 <= i < |chart| && chart[i] == e;
    }
    forall i, j | 0 <= i < j < |chart| ensures chart[j].revenue <= chart[i].revenue {
      assert NegatedRevenue(rows[i]) <= NegatedRevenue(rows[j]);
    }
  }

  /** Only leads with positive revenue are ranked. */
  lemma ByRevenuePositive(revenueData: seq<RevenueRow>)
    ensures forall i :: 0 <= i < |ByRevenue(revenueData)| ==> HasRevenue(ByRevenue(revenueData)[i])
  {
    var sorted := ByRevenue(revenueData);
    forall i | 0 <= i < |sorted| ensures HasRevenue(sorted[i]) {
      assert sorted[i] in multiset(sorted);
    }
  }

  /** `avgRating || 0` kept as a fraction: a NULL average (no rating) is drawn as 0 / 1. */
  datatype RatingChartEntry = RatingChartEntry(name: string, ratingSum: int, ratedCount: nat)

  function RatingEntry(r: RatingRow): (e: RatingChartEntry)
    ensures e.ratedCount > 0
    ensures r.ratedCount > 0 ==> e.ratingSum == r.ratingSum && e.ratedCount == r.ratedCount
    ensures r.ratedCount == 0 ==> e.ratingSum == 0
  {
    if r.ratedCount == 0 then RatingChartEntry(r.restaurantName, 0, 1)
    else RatingChartEntry(r.restaurantName, r.ratingSum, r.ratedCount)
  }

  function RatingEntries(rows: seq<RatingRow>): (r: seq<RatingChartEntry>)
    ensures |r| == |rows|
    ensures forall i :: 0 <= i < |rows| ==> r[i] == RatingEntry(rows[i])
  {
    if rows == [] then [] else [RatingEntry(rows[0])] + RatingEntries(rows[1..])
  }

  /** `ratingChartData`: the first ten rating rows, in the order received. */
  function RatingChartData(ratingData: seq<RatingRow>): (r: seq<RatingChartEntry>)
    ensures |r| == if |ratingData| < RatingChartSize then |ratingData| else RatingChartSize
    ensures forall i :: 0 <= i < |r| ==> r[i] == RatingEntry(ratingData[i])
  {
    RatingEntries(Take(ratingData, RatingChartSize))
  }

  datatype MonthlyChartEntry = MonthlyChartEntry(date: int, revenue: int)

  function DateOf(d: DailyRevenue): int { d.date }

  function MonthlyEntries(rows: seq<DailyRevenue>): (r: seq<MonthlyChartEntry>)
    ensures |r| == |rows|
    ensures forall i :: 0 <= i < |rows| ==> r[i] == MonthlyChartEntry(rows[i].date, rows[i].dailyRevenue)
  {
    if rows == [] then [] else [MonthlyChartEntry(rows[0].date, rows[0].dailyRevenue)] + MonthlyEntries(rows[1..])
  }

  /** `monthlyRevenueChartData`: the breakdown sorted by date, one point per day. */
  function MonthlyRevenueChartData(breakdown: seq<DailyRevenue>): seq<MonthlyChartEntry> {
    MonthlyEntries(SortByKey(breakdown, DateOf))
  }

  /**
   * The breakdown already arrives in ascending date order, so the chart's sort changes
   * nothing: the chart has one point per breakdown row, in the same order, with its revenue.
   */
  lemma MonthlyChartFollowsBreakdown(breakdown: seq<DailyRevenue>)
    requires DatesAscending(breakdown)
    ensures MonthlyRevenueChartData(breakdown) == MonthlyEntries(breakdown)
    ensures forall i, j :: 0 <= i < j < |MonthlyRevenueChartData(breakdown)| ==>
              MonthlyRevenueChartData(breakdown)[i].date < MonthlyRevenueChartData(breakdown)[j].date
  {
    assert SortedBy(breakdown, DateOf);
    SortByKeyOfSorted(breakdown, DateOf);
  }

  /** The revenue table and the low-performing table: the first five rows, as received. */
  function RevenueTable(data: PerformanceReport): (r: seq<RevenueRow>)
    ensures |r| <= TableRows && |r| <= |data.revenueData| && r == data.revenueData[..|r|]
  {
    Take(data.revenueData, TableRows)
  }

  function LowPerformingTable(data: PerformanceReport): (r: seq<RevenueRow>)
    ensures |r| <= TableRows && |r| <= |data.lowPerformingLeads| && r == data.lowPerformingLeads[..|r|]
  {
    Take(data.lowPerformingLeads, TableRows)
  }
}
