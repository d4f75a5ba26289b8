/**
 * The performance report (app/actions/fetchPerformanceData.jsx): five read queries over the
 * store and the in-memory "low-performing leads" derivation. No table is written.
 *
 * Money stays in integer cents, so the report's sums are exact where the source casts them to
 * floating point. Averages are kept as numerator and denominator.
 */
module PerformanceData {
  import opened Wrappers
  import opened Seqs
  import opened Schema
  import opened Database

  const SecondsPerDay: int := 86400

  /**
   * The instants the report is computed against: "now", and the first instants of the
   * current and of the next calendar month, which the host's calendar supplies.
   */
  datatype Clock = Clock(now: Timestamp, startOfMonth: Timestamp, startOfNextMonth: Timestamp)

  /**
   * `new Date(year, month + 1, 0)`: day 0 of the next month, which is 00:00 on the LAST day
   * of this month, not its final instant.
   */
  function EndOfMonth(c: Clock): Timestamp {
    c.startOfNextMonth - SecondsPerDay
  }

  /** `DATE(ts)`: the day a timestamp falls on. */
  function Day(t: Timestamp): int {
    t / SecondsPerDay
  }

  // =========================================================================================
  // Revenue by lead: LEADS LEFT JOIN ORDERS, grouped by lead, ORDER BY SUM(total) DESC
  // =========================================================================================

  datatype RevenueRow = RevenueRow(
    leadId: nat,
    restaurantName: string,
    totalRevenue: Option<Cents>,      // SUM(total_amount): NULL when the lead has no order
    orderCount: nat,                  // COUNT(orders.id): 0 when the lead has no order
    lastOrderDate: Option<Timestamp>) // MAX(order_date)

  function OrderAmount(o: Order): int { o.totalAmount }
  function OrderDateOf(o: Order): Option<Timestamp> { o.orderDate }
  function TotalRevenueOf(r: RevenueRow): Option<int> { r.totalRevenue }

  function SumAmounts(os: seq<Order>): int {
    SumBy(os, OrderAmount)
  }

  /** The orders the left join pairs with a lead: those whose `leadId` is the lead's id. */
  function OrdersOfLead(orders: seq<Order>, leadId: int): seq<Order> {
    Filter(orders, (o: Order) => o.leadId == leadId)
  }

  /** One lead's group. `SUM` over no rows is NULL while `COUNT` is 0. */
  function RevenueRowFor(lead: Lead, orders: seq<Order>): (r: RevenueRow)
    ensures r.leadId == lead.id && r.restaurantName == lead.restaurantName
    ensures r.orderCount == |OrdersOfLead(orders, lead.id)|
    ensures r.totalRevenue.None? <==> r.orderCount == 0
    ensures r.totalRevenue.Some? ==> r.totalRevenue.value == SumAmounts(OrdersOfLead(orders, lead.id))
  {
    var os := OrdersOfLead(orders, lead.id);
    RevenueRow(lead.id, lead.restaurantName,
               if os == [] then None else Some(SumAmounts(os)),
               |os|, MaxOf(os, OrderDateOf))
  }

  /** The groups, one per lead, in the leads' order. */
  function RevenueRollup(leads: seq<Lead>, orders: seq<Order>): (r: seq<RevenueRow>)
    ensures |r| == |leads|
    ensures forall i :: 0 <= i < |leads| ==> r[i] == RevenueRowFor(leads[i], orders)
  {
    if leads == [] then [] else [RevenueRowFor(leads[0], orders)] + RevenueRollup(leads[1..], orders)
  }

  /** `revenueData`: the groups by descending revenue, the NULL-revenue leads first. */
  function RevenueData(leads: seq<Lead>, orders: seq<Order>): seq<RevenueRow> {
    DescNullsFirst(RevenueRollup(leads, orders), TotalRevenueOf)
  }

  /**
   * `revenueData` has exactly one row per lead, including the leads without orders; each row
   * is that lead's group; and the rows run from NULL revenue through descending revenue.
   */
  lemma RevenueDataRows(leads: seq<Lead>, orders: seq<Order>)
    ensures |RevenueData(leads, orders)| == |leads|
    ensures forall lead :: lead in leads ==> RevenueRowFor(lead, orders) in RevenueData(leads, orders)
    ensures forall r :: r in RevenueData(leads, orders) ==>
              exists lead :: lead in leads && r == RevenueRowFor(lead, orders)
    ensures NullsFirstDescending(RevenueData(leads, orders), TotalRevenueOf)
  {
    var rollup := RevenueRollup(leads, orders);
    var r := RevenueData(leads, orders);
    DescNullsFirstOrders(rollup, TotalRevenueOf);
    forall lead | lead in leads ensures RevenueRowFor(lead, orders) in r {
      var i :| 0 <= i < |leads| && leads[i] == lead;
      assert rollup[i] in multiset(rollup);
    }
    forall x | x in r ensures exists lead :: lead in leads && x == RevenueRowFor(lead, orders) {
      assert x in multiset(rollup);
      var i :| 0 <= i < |rollup| && rollup[i] == x;
      assert leads[i] in leads;
    }
  }

  // =========================================================================================
  // Rating by lead: LEADS LEFT JOIN INTERACTIONS, grouped by lead, ORDER BY AVG(rating) DESC
  // =========================================================================================

  /** `AVG(rating)` is `ratingSum / ratedCount`, NULL when `ratedCount` is 0. */
  datatype RatingRow = RatingRow(
    leadId: nat,
    restaurantName: string,
    ratingSum: int,           // SUM of the non-null ratings
    ratedCount: nat,          // how many ratings are non-null
    interactionCount: nat,    // COUNT(interactions.id)
    lastInteractionDate: Option<Timestamp>)

  function RatingOrZero(i: Interaction): int { i.rating.GetOr(0) }
  function CreatedAtOf(i: Interaction): Option<Timestamp> { i.createdAt }

  function InteractionsOfLead(interactions: seq<Interaction>, leadId: int): seq<Interaction> {
    Filter(interactions, (i: Interaction) => i.leadId == leadId)
  }

  function Rated(interactions: seq<Interaction>): seq<Interaction> {
    Filter(interactions, (i: Interaction) => i.rating.Some?)
  }

  /** One lead's group; the average covers only the interactions that carry a rating. */
  function RatingRowFor(lead: Lead, interactions: seq<Interaction>): (r: RatingRow)
    ensures r.leadId == lead.id && r.restaurantName == lead.restaurantName
    ensures r.interactionCount == |InteractionsOfLead(interactions, lead.id)|
    ensures r.ratedCount == |Rated(InteractionsOfLead(interactions, lead.id))|
    ensures r.ratingSum == SumBy(Rated(InteractionsOfLead(interactions, lead.id)), RatingOrZero)
  {
    var its := InteractionsOfLead(interactions, lead.id);
    var rated := Rated(its);
    RatingRow(lead.id, lead.restaurantName, SumBy(rated, RatingOrZero), |rated|, |its|,
              MaxOf(its, CreatedAtOf))
  }

  function RatingRollup(leads: seq<Lead>, interactions: seq<Interaction>): (r: seq<RatingRow>)
    ensures |r| == |leads|
    ensures forall i :: 0 <= i < |leads| ==> r[i] == RatingRowFor(leads[i], interactions)
  {
    if leads == [] then [] else [RatingRowFor(leads[0], interactions)] + RatingRollup(leads[1..], interactions)
  }

  /** `a`'s average rating is at least `b`'s (both averages non-NULL), by cross-multiplication. */
  predicate AvgAtLeast(a: RatingRow, b: RatingRow) {
    a.ratingSum * b.ratedCount >= b.ratingSum * a.ratedCount
  }

  ghost predicate AvgDescending(s: seq<RatingRow>) {
    forall i :: 0 <= i < |s| - 1 ==> AvgAtLeast(s[i], s[i + 1])
  }

  function InsertByAvg(x: RatingRow, s: seq<RatingRow>): (r: seq<RatingRow>)
    ensures |r| == |s| + 1
    ensures multiset(r) == multiset(s) + multiset{x}
    ensures r[0] == x || (s != [] && r[0] == s[0])
    ensures AvgDescending(s) ==> AvgDescending(r)
  {
    if s == [] || AvgAtLeast(x, s[0]) then [x] + s
    else
      assert s == [s[0]] + s[1..];
      [s[0]] + InsertByAvg(x, s[1..])
  }

  /** Insertion sort by descending average rating. */
  function SortByAvgDesc(s: seq<RatingRow>): (r: seq<RatingRow>)
    ensures multiset(r) == multiset(s)
    ensures AvgDescending(r)
  {
    if s == [] then []
    else
      assert s == [s[0]] + s[1..];
      InsertByAvg(s[0], SortByAvgDesc(s[1..]))
  }

  function Unrated(rollup: seq<RatingRow>): seq<RatingRow> {
    Filter(rollup, (r: RatingRow) => r.ratedCount == 0)
  }

  function RatedRows(rollup: seq<RatingRow>): seq<RatingRow> {
    Filter(rollup, (r: RatingRow) => r.ratedCount > 0)
  }

  /** `ratingData`: the leads without any rating first (NULLS FIRST), then by descending average. */
  function RatingData(leads: seq<Lead>, interactions: seq<Interaction>): seq<RatingRow> {
    var rollup := RatingRollup(leads, interactions);
    Unrated(rollup) + SortByAvgDesc(RatedRows(rollup))
  }

  /** Splitting the groups into unrated and rated ones, and sorting the latter, loses no row. */
  lemma RatingPartition(rollup: seq<RatingRow>)
    ensures multiset(Unrated(rollup) + SortByAvgDesc(RatedRows(rollup))) == multiset(rollup)
  {
    var u := Unrated(rollup);
    var v := SortByAvgDesc(RatedRows(rollup));
    forall x ensures multiset(u + v)[x] == multiset(rollup)[x] {
      assert multiset(u + v)[x] == multiset(u)[x] + multiset(v)[x];
    }
  }

  /** `ratingData` holds one row per lead, each that lead's group. */
  lemma RatingDataRows(leads: seq<Lead>, interactions: seq<Interaction>)
    ensures |RatingData(leads, interactions)| == |leads|
    ensures forall lead :: lead in leads ==> RatingRowFor(lead, interactions) in RatingData(leads, interactions)
    ensures forall r :: r in RatingData(leads, interactions) ==>
              exists lead :: lead in leads && r == RatingRowFor(lead, interactions)
  {
    var rollup := RatingRollup(leads, interactions);
    var r := RatingData(leads, interactions);
    RatingPartition(rollup);
    assert |r| == |multiset(r)| == |multiset(rollup)| == |leads|;
    forall lead | lead in leads ensures RatingRowFor(lead, interactions) in r {
      var i :| 0 <= i < |leads| && leads[i] == lead;
      assert rollup[i] in multiset(rollup);
    }
    forall x | x in r ensures exists lead :: lead in leads && x == RatingRowFor(lead, interactions) {
      assert x in multiset(rollup);
      var i :| 0 <= i < |rollup| && rollup[i] == x;
      assert leads[i] in leads;
    }
  }

  /** Some prefix holds exactly the unrated groups, and the rest is by non-increasing average. */
  ghost predicate UnratedFirstThenByAvg(r: seq<RatingRow>) {
    exists k :: 0 <= k <= |r|
      && (forall i :: 0 <= i < k ==> r[i].ratedCount == 0)
      && (forall i :: k <= i < |r| ==> r[i].ratedCount > 0)
      && AvgDescending(r[k..])
  }

  lemma UnratedThenByAvg(rollup: seq<RatingRow>)
    ensures UnratedFirstThenByAvg(Unrated(rollup) + SortByAvgDesc(RatedRows(rollup)))
  {
    var unrated := Unrated(rollup);
    var sorted := SortByAvgDesc(RatedRows(rollup));
    var r := unrated + sorted;
    var k := |unrated|;
    forall i | k <= i < |r| ensures r[i].ratedCount > 0 {
      assert r[i] == sorted[i - k];
      assert sorted[i - k] in multiset(sorted);
    }
    forall i | 0 <= i < k ensures r[i].ratedCount == 0 {
      assert r[i] == unrated[i] && unrated[i] in unrated;
    }
    assert r[k..] == sorted;
  }

  /** In `ratingData` the unrated leads come first, the rated ones by non-increasing average. */
  lemma RatingDataOrder(leads: seq<Lead>, interactions: seq<Interaction>)
    ensures UnratedFirstThenByAvg(RatingData(leads, interactions))
  {
    var rollup := RatingRollup(leads, interactions);
    UnratedThenByAvg(rollup);
    assert RatingData(leads, interactions) == Unrated(rollup) + SortByAvgDesc(RatedRows(rollup));
  }

  // =========================================================================================
  // Monthly revenue: orders with startOfMonth <= order_date <= endOfMonth
  // =========================================================================================

  datatype MonthlyRevenue = MonthlyRevenue(totalRevenue: Option<Cents>, orderCount: nat)

  /** The WHERE clause; a NULL order date compares as unknown, so such an order is left out. */
  predicate InMonth(o: Order, c: Clock) {
    o.orderDate.Some? && c.startOfMonth <= o.orderDate.value <= EndOfMonth(c)
  }

  function MonthlyOrders(orders: seq<Order>, c: Clock): seq<Order> {
    Filter(orders, (o: Order) => InMonth(o, c))
  }

  function MonthlyRevenueOf(orders: seq<Order>, c: Clock): (m: MonthlyRevenue)
    ensures m.orderCount == |MonthlyOrders(orders, c)|
    ensures m.totalRevenue.None? <==> m.orderCount == 0
    ensures m.totalRevenue.Some? ==> m.totalRevenue.value == SumAmounts(MonthlyOrders(orders, c))
  {
    var os := MonthlyOrders(orders, c);
    MonthlyRevenue(if os == [] then None else Some(SumAmounts(os)), |os|)
  }

  /**
   * The month's range as written: an order at 00:00 on the first day is counted, but one
   * placed any time after 00:00 on the last day is not, although it is still in the month.
   */
  lemma MonthRangeAsWritten(o: Order, c: Clock)
    requires c.startOfMonth + SecondsPerDay < c.startOfNextMonth
    ensures o.orderDate == Some(c.startOfMonth) ==> InMonth(o, c)
    ensures o.orderDate.Some? && EndOfMonth(c) < o.orderDate.value < c.startOfNextMonth ==> !InMonth(o, c)
    ensures o.orderDate.Some? && o.orderDate.value >= c.startOfNextMonth ==> !InMonth(o, c)
  {
  }

  // =========================================================================================
  // Monthly breakdown: the month's orders grouped by DATE(order_date), ascending by date
  // =========================================================================================

  datatype DailyRevenue = DailyRevenue(date: int, dailyRevenue: Cents)

  function DailyAmount(d: DailyRevenue): int { d.dailyRevenue }
  function OrderDay(o: Order): int { Day(o.orderDate.GetOr(0)) }

  ghost predicate DatesAscending(b: seq<DailyRevenue>) {
    forall i, j :: 0 <= i < j < |b| ==> b[i].date < b[j].date
  }

  /** The revenue the breakdown `b` reports for day `d` (0 when it has no row for `d`). */
  function RevenueOn(b: seq<DailyRevenue>, d: int): int {
    if b == [] then 0 else (if b[0].date == d then b[0].dailyRevenue else 0) + RevenueOn(b[1..], d)
  }

  predicate HasDay(b: seq<DailyRevenue>, d: int) {
    b != [] && (b[0].date == d || HasDay(b[1..], d))
  }

  function OrdersOnDay(os: seq<Order>, d: int): seq<Order> {
    Filter(os, (o: Order) => OrderDay(o) == d)
  }

  /** Adds one order's amount to its day's group, opening the group if the day is new. */
  function AddToDay(b: seq<DailyRevenue>, day: int, amount: Cents): (r: seq<DailyRevenue>)
    requires DatesAscending(b)
    ensures DatesAscending(r)
    ensures forall d :: HasDay(r, d) <==> HasDay(b, d) || d == day
    ensures forall d :: RevenueOn(r, d) == RevenueOn(b, d) + (if d == day then amount else 0)
    ensures SumBy(r, DailyAmount) == SumBy(b, DailyAmount) + amount
    decreases |b|
  {
    if b == [] then
      [DailyRevenue(day, amount)]
    else if b[0].date == day then
      var r := [b[0].(dailyRevenue := b[0].dailyRevenue + amount)] + b[1..];
      assert r[1..] == b[1..];
      r
    else if day < b[0].date then
      var r := [DailyRevenue(day, amount)] + b;
      assert r[1..] == b;
      forall d | HasDay(b, d) ensures day < d {
        HasDayAfter(b, d);
      }
      r
    else
      var rest := AddToDay(b[1..], day, amount);
      var r := [b[0]] + rest;
      assert r[1..] == rest;
      forall d | HasDay(rest, d) ensures b[0].date < d {
        if d != day {
          HasDayAfter(b[1..], d);
          assert b[1..][0] == b[1];
        }
      }
      forall j | 0 < j < |r| ensures b[0].date < r[j].date {
        HasDayAt(rest, j - 1);
      }
      r
  }

  lemma {:induction false} HasDayAt(b: seq<DailyRevenue>, i: nat)
    requires i < |b|
    ensures HasDay(b, b[i].date)
  {
    if i > 0 {
      HasDayAt(b[1..], i - 1);
    }
  }

  /** In an ascending breakdown every day it holds is at least its first day. */
  lemma {:induction false} HasDayAfter(b: seq<DailyRevenue>, d: int)
    requires DatesAscending(b) && HasDay(b, d)
    ensures b[0].date <= d
  {
    if b[0].date != d {
      HasDayAfter(b[1..], d);
      assert b[1..][0] == b[1];
    }
  }

  /** The grouping: one row per day, folded over the orders; the dates stay ascending. */
  function Breakdown(os: seq<Order>): (r: seq<DailyRevenue>)
    ensures DatesAscending(r)
  {
    if os == [] then [] else AddToDay(Breakdown(os[1..]), OrderDay(os[0]), os[0].totalAmount)
  }

  lemma OrdersOnDayCons(os: seq<Order>, d: int)
    requires os != []
    ensures OrdersOnDay(os, d) == (if OrderDay(os[0]) == d then [os[0]] else []) + OrdersOnDay(os[1..], d)
  {
  }

  /**
   * The grouping has a row for exactly the days that have an order, each day's revenue is the
   * sum of that day's orders, and the rows add up to the sum of all orders.
   */
  lemma {:induction false} BreakdownGroups(os: seq<Order>)
    ensures forall d :: HasDay(Breakdown(os), d) <==> OrdersOnDay(os, d) != []
    ensures forall d :: RevenueOn(Breakdown(os), d) == SumAmounts(OrdersOnDay(os, d))
    ensures SumBy(Breakdown(os), DailyAmount) == SumAmounts(os)
  {
    if os != [] {
      var o := os[0];
      BreakdownGroups(os[1..]);
      forall d
        ensures HasDay(Breakdown(os), d) <==> OrdersOnDay(os, d) != []
        ensures RevenueOn(Breakdown(os), d) == SumAmounts(OrdersOnDay(os, d))
      {
        OrdersOnDayCons(os, d);
        var rest := OrdersOnDay(os[1..], d);
        if OrderDay(o) == d {
          assert ([o] + rest)[0] == o && ([o] + rest)[1..] == rest;
        } else {
          assert [] + rest == rest;
        }
      }
      assert SumAmounts(os) == o.totalAmount + SumAmounts(os[1..]);
    }
  }

  function MonthlyBreakdown(orders: seq<Order>, c: Clock): seq<DailyRevenue> {
    Breakdown(MonthlyOrders(orders, c))
  }

  /** In an ascending breakdown a row's amount is the revenue reported for its date. */
  lemma {:induction false} RowIsRevenueOn(b: seq<DailyRevenue>, i: nat)
    requires DatesAscending(b) && i < |b|
    ensures b[i].dailyRevenue == RevenueOn(b, b[i].date)
  {
    if i == 0 {
      NoRevenueBefore(b[1..], b[0].date);
    } else {
      RowIsRevenueOn(b[1..], i - 1);
      assert b[1..][i - 1] == b[i];
    }
  }

  lemma {:induction false} NoRevenueBefore(b: seq<DailyRevenue>, d: int)
    requires DatesAscending(b) && forall i :: 0 <= i < |b| ==> d < b[i].date
    ensures RevenueOn(b, d) == 0
  {
    if b != [] {
      NoRevenueBefore(b[1..], d);
    }
  }

  /**
   * `monthlyRevenueBreakdown` has one row per day that has an order in the month's range, in
   * ascending date order; each row's revenue is the sum of that day's orders; and the rows
   * add up to `monthlyRevenue.totalRevenue` (to 0 and no rows when that is NULL).
   */
  lemma MonthlyBreakdownAddsUp(orders: seq<Order>, c: Clock)
    ensures DatesAscending(MonthlyBreakdown(orders, c))
    ensures forall i :: 0 <= i < |MonthlyBreakdown(orders, c)| ==>
              MonthlyBreakdown(orders, c)[i].dailyRevenue
                == SumAmounts(OrdersOnDay(MonthlyOrders(orders, c), MonthlyBreakdown(orders, c)[i].date))
    ensures forall d :: HasDay(MonthlyBreakdown(orders, c), d) <==> OrdersOnDay(MonthlyOrders(orders, c), d) != []
    ensures SumBy(MonthlyBreakdown(orders, c), DailyAmount) == MonthlyRevenueOf(orders, c).totalRevenue.GetOr(0)
    ensures MonthlyBreakdown(orders, c) == [] <==> MonthlyRevenueOf(orders, c).totalRevenue.None?
  {
    var os := MonthlyOrders(orders, c);
    var b := Breakdown(os);
    BreakdownGroups(os);
    forall i | 0 <= i < |b|
      ensures b[i].dailyRevenue == SumAmounts(OrdersOnDay(os, b[i].date))
    {
      RowIsRevenueOn(b, i);
    }
    if os != [] {
      assert OrdersOnDay(os, OrderDay(os[0])) != [] by {
        assert os[0] in OrdersOnDay(os, OrderDay(os[0]));
      }
      assert HasDay(b, OrderDay(os[0]));
    }
  }

  // =========================================================================================
  // Potential revenue: potential orders whose expected date is after now
  // =========================================================================================

  datatype PotentialRevenue = PotentialRevenue(totalPotentialRevenue: Option<Cents>, potentialOrderCount: nat)

  function EstimateOrZero(p: PotentialOrder): int { p.estimatedAmount.GetOr(0) }

  function FuturePotentialOrders(ps: seq<PotentialOrder>, now: Timestamp): seq<PotentialOrder> {
    Filter(ps, (p: PotentialOrder) => p.expectedDate > now)
  }

  /** `SUM(estimated_amount)`: the NULL estimates are skipped, and the sum is NULL when all are. */
  function EstimatedTotal(ps: seq<PotentialOrder>): (r: Option<Cents>)
    ensures r.None? <==> forall p :: p in ps ==> p.estimatedAmount.None?
    ensures r.GetOr(0) == SumBy(ps, EstimateOrZero)
  {
    if ps == [] then None
    else
      var rest := EstimatedTotal(ps[1..]);
      assert ps == [ps[0]] + ps[1..];
      assert forall p :: p in ps <==> p == ps[0] || p in ps[1..];
      match ps[0].estimatedAmount
      case None => rest
      case Some(v) => Some(v + rest.GetOr(0))
  }

  /**
   * Counts every potential order expected strictly after now and sums the estimates of those
   * that have one.
   */
  function PotentialRevenueOf(ps: seq<PotentialOrder>, now: Timestamp): (r: PotentialRevenue)
    ensures r.potentialOrderCount == |FuturePotentialOrders(ps, now)|
    ensures forall p :: p in FuturePotentialOrders(ps, now) <==> p in ps && p.expectedDate > now
    ensures r.totalPotentialRevenue.None? <==>
              forall p :: p in ps && p.expectedDate > now ==> p.estimatedAmount.None?
    ensures r.totalPotentialRevenue.GetOr(0) == SumBy(FuturePotentialOrders(ps, now), EstimateOrZero)
  {
    var future := FuturePotentialOrders(ps, now);
    PotentialRevenue(EstimatedTotal(future), |future|)
  }

  // =========================================================================================
  // Low-performing leads: filter revenueData in memory, then sort by revenue ascending
  // =========================================================================================

  /** `ratingData.find(r => r.leadId === leadId)`: the first row for the lead. */
  function FindRating(ratingData: seq<RatingRow>, leadId: int): (r: Option<RatingRow>)
    ensures r.Some? ==> r.value in ratingData && r.value.leadId == leadId
    ensures r.None? ==> forall x :: x in ratingData ==> x.leadId != leadId
  {
    if ratingData == [] then None
    else if ratingData[0].leadId == leadId then Some(ratingData[0])
    else
      assert forall x :: x in ratingData ==> x == ratingData[0] || x in ratingData[1..];
      FindRating(ratingData[1..], leadId)
  }

  /** When several rows carry the lead's id, `find` returns the first of them. */
  lemma {:induction false} FindRatingIsFirst(ratingData: seq<RatingRow>, leadId: int, i: nat)
    requires i < |ratingData| && ratingData[i].leadId == leadId
    requires forall j :: 0 <= j < i ==> ratingData[j].leadId != leadId
    ensures FindRating(ratingData, leadId) == Some(ratingData[i])
  {
    if i > 0 {
      FindRatingIsFirst(ratingData[1..], leadId, i - 1);
    }
  }

  /**
   * `(rating?.avgRating || 0) < 3`: a missing rating row and a NULL average both count as 0;
   * otherwise the average is compared exactly (sum < 3 * count).
   */
  predicate RatingBelowThree(rating: Option<RatingRow>) {
    match rating
    case None => true
    case Some(r) => r.ratedCount == 0 || r.ratingSum < 3 * r.ratedCount
  }

  predicate IsLowPerforming(lead: RevenueRow, ratingData: seq<RatingRow>) {
    lead.orderCount < 5 || RatingBelowThree(FindRating(ratingData, lead.leadId))
  }

  /** `a.totalRevenue || 0`. */
  function RevenueOrZero(r: RevenueRow): int { r.totalRevenue.GetOr(0) }

  function LowPerformingFilter(revenueData: seq<RevenueRow>, ratingData: seq<RatingRow>): seq<RevenueRow> {
    Filter(revenueData, (l: RevenueRow) => IsLowPerforming(l, ratingData))
  }

  function LowPerformingLeads(revenueData: seq<RevenueRow>, ratingData: seq<RatingRow>): seq<RevenueRow> {
    SortByKey(LowPerformingFilter(revenueData, ratingData), RevenueOrZero)
  }

  /**
   * `lowPerformingLeads` keeps a row of `revenueData` iff it has fewer than 5 orders or an
   * average rating below 3 (missing counting as 0), each kept row as often as it occurs; it is
   * ascending by revenue (NULL as 0); and rows with equal revenue keep their `revenueData` order.
   */
  lemma LowPerformingLeadsSpec(revenueData: seq<RevenueRow>, ratingData: seq<RatingRow>)
    ensures forall l :: l in LowPerformingLeads(revenueData, ratingData) <==>
              l in revenueData && IsLowPerforming(l, ratingData)
    ensures multiset(LowPerformingLeads(revenueData, ratingData)) == multiset(LowPerformingFilter(revenueData, ratingData))
    ensures multiset(LowPerformingLeads(revenueData, ratingData)) <= multiset(revenueData)
    ensures SortedBy(LowPerformingLeads(revenueData, ratingData), RevenueOrZero)
    ensures IsSubsequence(LowPerformingFilter(revenueData, ratingData), revenueData)
    ensures forall k :: WithKey(LowPerformingLeads(revenueData, ratingData), RevenueOrZero, k)
                          == WithKey(LowPerformingFilter(revenueData, ratingData), RevenueOrZero, k)
  {
    var f := LowPerformingFilter(revenueData, ratingData);
    var r := LowPerformingLeads(revenueData, ratingData);
    forall l ensures l in r <==> l in f {
      assert l in r <==> l in multiset(r);
      assert l in f <==> l in multiset(f);
    }
    assert multiset(f) <= multiset(revenueData);
  }

  /** A lead without any rated interaction is always low-performing, whatever its order count. */
  lemma UnratedLeadIsLowPerforming(lead: RevenueRow, revenueData: seq<RevenueRow>, ratingData: seq<RatingRow>)
    requires lead in revenueData
    requires forall r :: r in ratingData && r.leadId == lead.leadId ==> r.ratedCount == 0
    ensures lead in LowPerformingLeads(revenueData, ratingData)
  {
    LowPerformingLeadsSpec(revenueData, ratingData);
  }

  /**
   * Three cases of the rule at fetchPerformanceData.jsx:60-62: 3 orders and average 4 is kept
   * (order-count rule); 10 orders and average 2 is kept (rating rule); 10 orders and average 4
   * is dropped.
   */
  lemma LowPerformingExamples(a: RevenueRow, b: RevenueRow, c: RevenueRow)
    requires a == RevenueRow(1, "A", Some(100), 3, None)
    requires b == RevenueRow(2, "B", Some(200), 10, None)
    requires c == RevenueRow(3, "C", Some(300), 10, None)
    ensures LowPerformingLeads([a, b, c], ExampleRatings()) == [a, b]
  {
    ExampleFilter(a, b, c);
    assert [a, b][1..] == [b] && [b][1..] == [];
    assert SortByKey([b], RevenueOrZero) == [b];
    assert InsertByKey(a, [b], RevenueOrZero) == [a, b];
  }

  /** The filter step of the examples: the first two leads are kept, the third dropped. */
  lemma ExampleFilter(a: RevenueRow, b: RevenueRow, c: RevenueRow)
    requires a == RevenueRow(1, "A", Some(100), 3, None)
    requires b == RevenueRow(2, "B", Some(200), 10, None)
    requires c == RevenueRow(3, "C", Some(300), 10, None)
    ensures LowPerformingFilter([a, b, c], ExampleRatings()) == [a, b]
  {
    var ratings := ExampleRatings();
    ExampleClassification(a, b, c);
    assert [a, b, c][1..] == [b, c] && [b, c][1..] == [c] && [c][1..] == [];
    assert LowPerformingFilter([c], ratings) == [];
    assert LowPerformingFilter([b, c], ratings) == [b];
  }

  /** Lead 1 is low on orders, lead 2 on rating, lead 3 on neither. */
  lemma ExampleClassification(a: RevenueRow, b: RevenueRow, c: RevenueRow)
    requires a == RevenueRow(1, "A", Some(100), 3, None)
    requires b == RevenueRow(2, "B", Some(200), 10, None)
    requires c == RevenueRow(3, "C", Some(300), 10, None)
    ensures IsLowPerforming(a, ExampleRatings())
    ensures IsLowPerforming(b, ExampleRatings())
    ensures !IsLowPerforming(c, ExampleRatings())
  {
    FindRatingIsFirst(ExampleRatings(), 2, 1);
    FindRatingIsFirst(ExampleRatings(), 3, 2);
  }

  /** Average ratings 4, 2 and 4 for leads 1, 2 and 3. */
  function ExampleRatings(): seq<RatingRow> {
    [RatingRow(1, "A", 8, 2, 2, None), RatingRow(2, "B", 4, 2, 2, None), RatingRow(3, "C", 8, 2, 2, None)]
  }

  // =========================================================================================
  // The whole report
  // =========================================================================================

  datatype PerformanceReport = PerformanceReport(
    revenueData: seq<RevenueRow>,
    ratingData: seq<RatingRow>,
    lowPerformingLeads: seq<RevenueRow>,
    monthlyRevenue: MonthlyRevenue,
    potentialRevenue: PotentialRevenue,
    monthlyRevenueBreakdown: seq<DailyRevenue>)

  /**
   * `fetchPerformanceData`, read against one state of the store. The low-performing list is
   * derived from the very `revenueData` and `ratingData` it returns, and the daily breakdown
   * adds up to the monthly total.
   */
  function FetchPerformanceData(db: Store, c: Clock): (r: PerformanceReport)
    reads db
    ensures |r.revenueData| == |db.leads| && |r.ratingData| == |db.leads|
    ensures r.lowPerformingLeads == LowPerformingLeads(r.revenueData, r.ratingData)
    ensures multiset(r.lowPerformingLeads) <= multiset(r.revenueData)
    ensures SumBy(r.monthlyRevenueBreakdown, DailyAmount) == r.monthlyRevenue.totalRevenue.GetOr(0)
    ensures r.monthlyRevenueBreakdown == [] <==> r.monthlyRevenue.orderCount == 0
  {
    var revenueData := RevenueData(db.leads, db.orders);
    var ratingData := RatingData(db.leads, db.interactions);
    RevenueDataRows(db.leads, db.orders);
    RatingDataRows(db.leads, db.interactions);
    LowPerformingLeadsSpec(revenueData, ratingData);
    MonthlyBreakdownAddsUp(db.orders, c);
    PerformanceReport(
      revenueData,
      ratingData,
      LowPerformingLeads(revenueData, ratingData),
      MonthlyRevenueOf(db.orders, c),
      PotentialRevenueOf(db.potentialOrders, c.now),
      MonthlyBreakdown(db.orders, c))
  }
}
