/**
 * Marking an order complete (app/api/call/mark-complete/[orderId]/route.jsx): the path's id is
 * parsed with `parseInt`, and every order with that id gets the status 'Completed'. A matching
 * order is not required: the UPDATE then changes nothing and the answer is still 200.
 */
module MarkCompleteRoute {
  import opened Wrappers
  import opened Seqs
  import opened Schema
  import opened Database

  const CompletedOrderStatus: string := "Completed"

  /**
   * PUT: 400 when `parseInt` gives NaN (None), otherwise 200. The order with the id, if there
   * is one, gets the status 'Completed' and keeps every other column, and no other order
   * changes.
   */
  method MarkOrderComplete(db: Store, orderId: Option<int>) returns (res: Response<()>)
    requires db.Valid()
    modifies db`orders
    ensures db.Valid()
    ensures res.BadRequest? <==> orderId.None?
    ensures res.Ok? <==> orderId.Some?
    ensures |db.orders| == |old(db.orders)|
    ensures forall i :: 0 <= i < |db.orders| ==>
              db.orders[i] == if orderId.Some? && old(db.orders)[i].id == orderId.value
                              then old(db.orders)[i].(status := CompletedOrderStatus)
                              else old(db.orders)[i]
    ensures res.Ok? ==> forall o :: o in db.orders && o.id == orderId.value ==> o.status == CompletedOrderStatus
  {
    if orderId.None? {
      return BadRequest;
    }
    var found := IndexOf(db.orders, OrderKey, orderId.value);
    if found.Some? {
      var i := found.value;
      forall j | 0 <= j < |db.orders| && db.orders[j].id == orderId.value
        ensures j == i
      {
        KeyIsUnique(db.orders, OrderKey, db.nextOrderId, i, j);
      }
      db.ReplaceOrder(i, db.orders[i].(status := CompletedOrderStatus));
    }
    res := Ok(());
  }

  /** Marking the same order twice leaves it as marking it once did. */
  method MarkOrderCompleteTwice(db: Store, orderId: int) returns (first: Response<()>, second: Response<()>)
    requires db.Valid()
    modifies db`orders
    ensures db.Valid()
    ensures first.Ok? && second.Ok?
    ensures |db.orders| == |old(db.orders)|
    ensures forall i :: 0 <= i < |db.orders| ==>
              db.orders[i] == if old(db.orders)[i].id == orderId
                              then old(db.orders)[i].(status := CompletedOrderStatus)
                              else old(db.orders)[i]
  {
    first := MarkOrderComplete(db, Some(orderId));
    second := MarkOrderComplete(db, Some(orderId));
  }
}
