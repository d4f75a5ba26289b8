/**
 * Recording a call from the call-planning page (app/api/call/route.jsx): optionally stores an
 * order, resolves the contact, and stores the interaction pointing at the order. The writes
 * are separate statements, not one transaction: a failure after the order insert leaves the
 * order stored.
 */
module CallRoute {
  import opened Wrappers
  import opened Seqs
  import opened Schema
  import opened Database

  /** `body.order`: present (any object is truthy) or absent. */
  datatype OrderPayload = OrderPayload(totalAmount: Option<Cents>, notes: Option<string>)

  /** The request body; a missing property is None. */
  datatype CallPayload = CallPayload(
    leadId: Option<int>,
    contactId: Option<int>,
    kind: Option<string>,       // `type`
    status: Option<string>,
    notes: Option<string>,
    duration: Option<int>,
    rating: Option<int>,
    isPrimaryContact: bool,     // already reduced to its truthiness
    order: Option<OrderPayload>)

  /** The longest value the interactions table's `type` and `status` columns hold. */
  const KindStatusLength: nat := 50

  /**
   * The order insert fails on a NULL in a `notNull` column (lead, amount) or an amount a
   * `decimal(10, 2)` cannot hold.
   */
  predicate OrderInsertFails(body: CallPayload) {
    body.order.Some? &&
      (body.leadId.None? || body.order.value.totalAmount.None? || !FitsMoney(body.order.value.totalAmount.value))
  }

  /** The order stored for the request: status 'Pending', order date and stamps `now`. */
  function OrderRow(body: CallPayload, now: Timestamp): Order
    requires body.order.Some? && !OrderInsertFails(body)
  {
    Order(0, body.leadId.value, Some(now), body.order.value.totalAmount.value, DefaultOrderStatus,
          body.order.value.notes, Some(now), Some(now))
  }

  /**
   * The contact the interaction is stored with: for a primary contact the lead's own id (None
   * when no lead has the body's lead id, which fails the request), otherwise the body's.
   */
  function ResolvedContact(leads: seq<Lead>, body: CallPayload): (r: Option<int>)
    ensures body.isPrimaryContact ==>
              (r.Some? <==> body.leadId.Some? && exists l :: l in leads && l.id == body.leadId.value)
    ensures body.isPrimaryContact && r.Some? ==> r.value == body.leadId.value
    ensures !body.isPrimaryContact ==> r == body.contactId
  {
    if !body.isPrimaryContact then body.contactId
    else if body.leadId.None? then None
    else match IndexOf(leads, LeadKey, body.leadId.value)
      case None => None
      case Some(i) => Some(leads[i].id)
  }

  /** The primary-contact lookup fails when the lead is missing. */
  predicate LeadLookupFails(leads: seq<Lead>, body: CallPayload) {
    body.isPrimaryContact && ResolvedContact(leads, body).None?
  }

  /**
   * The interaction insert fails on a NULL in a `notNull` column, or a type or status longer
   * than 50 characters unless the excess is spaces.
   */
  predicate InteractionInsertFails(leads: seq<Lead>, body: CallPayload) {
    || body.leadId.None? || ResolvedContact(leads, body).None? || body.kind.None? || body.status.None?
    || !FitsVarchar(body.kind.value, KindStatusLength) || !FitsVarchar(body.status.value, KindStatusLength)
  }

  /**
   * POST. With an order, the order is inserted first (a failing insert ends the request with
   * 500 and nothing written). Then the contact is resolved and the interaction inserted with
   * `orderId` set to the new order's id; if either fails the answer is 500 but the order stays.
   * On success the answer is the stored interaction.
   */
  method PostCall(db: Store, body: CallPayload, now: Timestamp) returns (res: Response<Interaction>)
    requires db.Valid()
    modifies db`orders, db`nextOrderId, db`interactions, db`nextInteractionId
    ensures db.Valid()
    ensures res.Ok? || res.ServerError?
    ensures res.Ok? <==> !OrderInsertFails(body) && !LeadLookupFails(old(db.leads), body)
                         && !InteractionInsertFails(old(db.leads), body)
    // the order, kept even when a later step fails
    ensures body.order.Some? && !OrderInsertFails(body) ==>
              && db.orders == old(db.orders) + [OrderRow(body, now).(id := old(db.nextOrderId))]
              && db.nextOrderId == old(db.nextOrderId) + 1
    ensures body.order.None? || OrderInsertFails(body) ==>
              db.orders == old(db.orders) && db.nextOrderId == old(db.nextOrderId)
    // the interaction, only on success
    ensures !res.Ok? ==> db.interactions == old(db.interactions) && db.nextInteractionId == old(db.nextInteractionId)
    ensures res.Ok? ==>
              && res.body == Interaction(old(db.nextInteractionId), body.leadId.value,
                                         ResolvedContact(old(db.leads), body).value,
                                         Varchar(body.kind.value, KindStatusLength), Varchar(body.status.value, KindStatusLength),
                                         body.notes, body.duration, body.rating,
                                         if body.order.Some? then Some(old(db.nextOrderId)) else None, Some(now))
              && db.interactions == old(db.interactions) + [res.body]
              && db.nextInteractionId == old(db.nextInteractionId) + 1
    // an interaction that records an order points at the order stored by the same request
    ensures res.Ok? ==> Truncates(body.kind.value, res.body.kind, KindStatusLength)
                        && Truncates(body.status.value, res.body.status, KindStatusLength)
    ensures res.Ok? && body.order.Some? ==>
              res.body.orderId == Some(db.orders[|db.orders| - 1].id) && db.orders[|db.orders| - 1].leadId == res.body.leadId
  {
    var orderId: Option<int> := None;
    if body.order.Some? {
      if OrderInsertFails(body) {
        return ServerError;
      }
      var order := db.InsertOrder(OrderRow(body, now));
      orderId := Some(order.id);
    }
    var contactId := ResolvedContact(db.leads, body);
    if body.isPrimaryContact && contactId.None? {
      return ServerError;
    }
    if InteractionInsertFails(db.leads, body) {
      return ServerError;
    }
    var row := db.InsertInteraction(
      Interaction(0, body.leadId.value, contactId.value,
                  Varchar(body.kind.value, KindStatusLength), Varchar(body.status.value, KindStatusLength),
                  body.notes, body.duration, body.rating, orderId, Some(now)));
    res := Ok(row);
  }
}
