/**
 * The three read-only API routes of the call-planning and interaction pages: the five most
 * recent orders (app/api/call/recent-orders/route.jsx), the five earliest potential orders
 * (app/api/call/potential-orders/route.jsx) and the interaction count of every lead
 * (app/api/interactions/count-by-lead/route.jsx).
 */
module ReadRoutes {
  import opened Wrappers
  import opened Seqs
  import opened Schema
  import opened Database

  /** How many rows the two call-planning lists return (`.limit(5)`). */
  const ListLimit: nat := 5

  /**
   * The lead an `INNER JOIN leads ON leads.id = x.lead_id` pairs a row with. Lead ids are
   * unique, so a row joins with at most one lead.
   */
  function JoinedLead(leads: seq<Lead>, leadId: int): (r: Option<Lead>)
    ensures r.Some? ==> r.value in leads && r.value.id == leadId
    ensures r.None? ==> forall l :: l in leads ==> l.id != leadId
  {
    match IndexOf(leads, LeadKey, leadId)
    case None => None
    case Some(i) => Some(leads[i])
  }

  // --- Recent orders: INNER JOIN leads, ORDER BY order_date DESC, LIMIT 5 ---

  datatype RecentOrder = RecentOrder(id: nat, orderDate: Option<Timestamp>, totalAmount: Cents,
                                     status: string, restaurantName: string)

  function RecentOrderDate(r: RecentOrder): Option<int> { r.orderDate }

  function RecentRow(o: Order, l: Lead): RecentOrder {
    RecentOrder(o.id, o.orderDate, o.totalAmount, o.status, l.restaurantName)
  }

  /** The inner join: an order whose lead does not exist is dropped. */
  function JoinOrders(orders: seq<Order>, leads: seq<Lead>): (r: seq<RecentOrder>)
    ensures |r| <= |orders|
    ensures forall x :: x in r <==>
              (exists o :: o in orders && JoinedLead(leads, o.leadId).Some? && x == RecentRow(o, JoinedLead(leads, o.leadId).value))
  {
    if orders == [] then []
    else
      var o := orders[0];
      var rest := JoinOrders(orders[1..], leads);
      assert forall p :: p in orders <==> p == o || p in orders[1..];
      match JoinedLead(leads, o.leadId)
      case None => rest
      case Some(l) => [RecentRow(o, l)] + rest
  }

  function RecentOrders(orders: seq<Order>, leads: seq<Lead>): seq<RecentOrder> {
    Take(DescNullsFirst(JoinOrders(orders, leads), RecentOrderDate), ListLimit)
  }

  /**
   * At most five joined orders, the most recent ones: the list runs from NULL dates through
   * descending dates, and every joined order left out is no more recent than any listed one
   * (and is undated only if all listed ones are). Fewer than five are listed only when fewer
   * than five orders have a lead.
   */
  lemma RecentOrdersAreLatest(orders: seq<Order>, leads: seq<Lead>)
    ensures |RecentOrders(orders, leads)| == if |JoinOrders(orders, leads)| < ListLimit then |JoinOrders(orders, leads)| else ListLimit
    ensures forall x :: x in RecentOrders(orders, leads) ==> x in JoinOrders(orders, leads)
    ensures NullsFirstDescending(RecentOrders(orders, leads), RecentOrderDate)
    ensures forall x, y :: x in JoinOrders(orders, leads) && x !in RecentOrders(orders, leads) && y in RecentOrders(orders, leads) ==>
              (x.orderDate.None? ==> y.orderDate.None?) &&
              (x.orderDate.Some? && y.orderDate.Some? ==> x.orderDate.value <= y.orderDate.value)
  {
    var joined := JoinOrders(orders, leads);
    var sorted := DescNullsFirst(joined, RecentOrderDate);
    var r := Take(sorted, ListLimit);
    DescNullsFirstOrders(joined, RecentOrderDate);
    TakeOfNullsFirstIsLatest(sorted, RecentOrderDate, ListLimit);
    TakeKeepsNullsFirst(sorted, RecentOrderDate, ListLimit);
    forall x | x in r ensures x in joined {
      assert x in multiset(sorted);
    }
    forall x | x in joined ensures x in sorted {
      assert x in multiset(joined);
    }
  }

  /** GET /api/call/recent-orders: the five most recent orders that have a lead, with its name. */
  function GetRecentOrders(db: Store): (r: seq<RecentOrder>)
    reads db
    ensures |r| == if |JoinOrders(db.orders, db.leads)| < ListLimit then |JoinOrders(db.orders, db.leads)| else ListLimit
    ensures forall x :: x in r ==> x in JoinOrders(db.orders, db.leads)
    ensures NullsFirstDescending(r, RecentOrderDate)
    ensures forall x, y :: x in JoinOrders(db.orders, db.leads) && x !in r && y in r ==>
              (x.orderDate.None? ==> y.orderDate.None?) &&
              (x.orderDate.Some? && y.orderDate.Some? ==> x.orderDate.value <= y.orderDate.value)
  {
    RecentOrdersAreLatest(db.orders, db.leads);
    RecentOrders(db.orders, db.leads)
  }

  // --- Potential orders: INNER JOIN leads, ORDER BY expected_date ASC, LIMIT 5 ---

  /** Every potential order is listed, the date is not compared with today. */
  datatype UpcomingPotentialOrder = UpcomingPotentialOrder(
    id: nat, expectedDate: Timestamp, estimatedAmount: Option<Cents>, probability: Option<int>, restaurantName: string)

  function ExpectedDateOf(p: UpcomingPotentialOrder): int { p.expectedDate }

  function PotentialRow(p: PotentialOrder, l: Lead): UpcomingPotentialOrder {
    UpcomingPotentialOrder(p.id, p.expectedDate, p.estimatedAmount, p.probability, l.restaurantName)
  }

  function JoinPotentialOrders(ps: seq<PotentialOrder>, leads: seq<Lead>): (r: seq<UpcomingPotentialOrder>)
    ensures |r| <= |ps|
    ensures forall x :: x in r <==>
              (exists p :: p in ps && JoinedLead(leads, p.leadId).Some? && x == PotentialRow(p, JoinedLead(leads, p.leadId).value))
  {
    if ps == [] then []
    else
      var p := ps[0];
      var rest := JoinPotentialOrders(ps[1..], leads);
      assert forall q :: q in ps <==> q == p || q in ps[1..];
      match JoinedLead(leads, p.leadId)
      case None => rest
      case Some(l) => [PotentialRow(p, l)] + rest
  }

  function PotentialOrdersList(ps: seq<PotentialOrder>, leads: seq<Lead>): seq<UpcomingPotentialOrder> {
    Take(SortByKey(JoinPotentialOrders(ps, leads), ExpectedDateOf), ListLimit)
  }

  /**
   * At most five joined potential orders, the earliest expected: ascending by date, and every
   * joined potential order left out is expected no earlier than any listed one. Past dates are
   * not excluded.
   */
  lemma PotentialOrdersAreEarliest(ps: seq<PotentialOrder>, leads: seq<Lead>)
    ensures |PotentialOrdersList(ps, leads)| == if |JoinPotentialOrders(ps, leads)| < ListLimit then |JoinPotentialOrders(ps, leads)| else ListLimit
    ensures forall x :: x in PotentialOrdersList(ps, leads) ==> x in JoinPotentialOrders(ps, leads)
    ensures SortedBy(PotentialOrdersList(ps, leads), ExpectedDateOf)
    ensures forall x, y ::
              x in JoinPotentialOrders(ps, leads) && x !in PotentialOrdersList(ps, leads) && y in PotentialOrdersList(ps, leads)
              ==> y.expectedDate <= x.expectedDate
  {
    var joined := JoinPotentialOrders(ps, leads);
    var sorted := SortByKey(joined, ExpectedDateOf);
    var r := Take(sorted, ListLimit);
    TakeOfSortedIsSmallest(sorted, ExpectedDateOf, ListLimit);
    TakeKeepsSorted(sorted, ExpectedDateOf, ListLimit);
    forall x | x in r ensures x in joined {
      assert x in multiset(sorted);
    }
    forall x | x in joined ensures x in sorted {
      assert x in multiset(joined);
    }
  }

  // --- Interaction counts: LEADS LEFT JOIN INTERACTIONS, one row per lead, ORDER BY count DESC ---

  datatype LeadInteractionCount = LeadInteractionCount(leadId: nat, restaurantName: string, interactionCount: nat)

  function CountRowFor(lead: Lead, interactions: seq<Interaction>): LeadInteractionCount {
    LeadInteractionCount(lead.id, lead.restaurantName, |Filter(interactions, (i: Interaction) => i.leadId == lead.id)|)
  }

  function CountRows(leads: seq<Lead>, interactions: seq<Interaction>): (r: seq<LeadInteractionCount>)
    ensures |r| == |leads|
    ensures forall i :: 0 <= i < |leads| ==> r[i] == CountRowFor(leads[i], interactions)
  {
    if leads == [] then [] else [CountRowFor(leads[0], interactions)] + CountRows(leads[1..], interactions)
  }

  function NegatedCount(r: LeadInteractionCount): int { -(r.interactionCount as int) }

  function CountByLead(leads: seq<Lead>, interactions: seq<Interaction>): seq<LeadInteractionCount> {
    SortByKey(CountRows(leads, interactions), NegatedCount)
  }

  /**
   * One row per lead, leads without interactions included with count 0, each counting the
   * interactions whose `leadId` is the lead's, by non-increasing count.
   */
  lemma CountByLeadSpec(leads: seq<Lead>, interactions: seq<Interaction>)
    ensures |CountByLead(leads, interactions)| == |leads|
    ensures multiset(CountByLead(leads, interactions)) == multiset(CountRows(leads, interactions))
    ensures forall lead :: lead in leads ==> CountRowFor(lead, interactions) in CountByLead(leads, interactions)
    ensures forall i, j :: 0 <= i < j < |CountByLead(leads, interactions)| ==>
              CountByLead(leads, interactions)[j].interactionCount <= CountByLead(leads, interactions)[i].interactionCount
  {
    var rows := CountRows(leads, interactions);
    var r := CountByLead(leads, interactions);
    forall lead | lead in leads ensures CountRowFor(lead, interactions) in r {
      var i :| 0 <= i < |leads| && leads[i] == lead;
      assert rows[i] in multiset(rows);
    }
    assert forall i, j :: 0 <= i < j < |r| ==> NegatedCount(r[i]) <= NegatedCount(r[j]);
  }

  /** A lead's count is exactly the number of its interactions, 0 when it has none. */
  lemma CountRowCounts(lead: Lead, interactions: seq<Interaction>)
    ensures CountRowFor(lead, interactions).interactionCount == 0 <==> forall i :: i in interactions ==> i.leadId != lead.id
    ensures CountRowFor(lead, interactions).interactionCount
              == |Filter(interactions, (i: Interaction) => i.leadId == lead.id)|
  {
    var f := Filter(interactions, (i: Interaction) => i.leadId == lead.id);
    if |f| != 0 {
      assert f[0] in f;
    }
  }
}
