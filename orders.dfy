/** The order handlers over the store: placing an order, listing the
    caller's orders, fetching one order, cancelling it, and the admin-only
    status update. */
module Orders {
  import opened Outcomes
  import opened Models
  import opened Middleware
  import opened Placement

  /** A handler's response together with the order table it leaves behind. */
  datatype Effect<+T> = Effect(outcome: Outcome<T>, orders: map<nat, Order>)

  /** The status update body is accepted only when it names a status an
      order may be moved to: "Completed" or "Cancelled". */
  function ParseTarget(s: string): (r: Option<Status>)
    ensures r.Some? <==> s == "Completed" || s == "Cancelled"
    ensures r.Some? ==> StatusName(r.value) == s && r.value != Pending
  {
    if s == "Completed" then Some(Completed)
    else if s == "Cancelled" then Some(Cancelled)
    else None
  }

  /** Every target status round-trips through its name. */
  lemma TargetNamesParse(t: Status)
    ensures ParseTarget(StatusName(t)) == if t == Pending then None else Some(t)
  {
  }

  /** Cancelling order `id`; `saveOk` says whether writing the row back succeeds. */
  function Cancellation(orders: map<nat, Order>, id: nat, saveOk: bool): (e: Effect<string>)
    ensures id !in orders ==> e == Effect(Fail(NotFound("Order not found")), orders)
    ensures id in orders && orders[id].status != Pending ==>
      e == Effect(Fail(BadRequest("Only pending orders can be cancelled")), orders)
    ensures id in orders && orders[id].status == Pending && !saveOk ==>
      e == Effect(Fail(InternalError("Failed to cancel order")), orders)
    ensures e.outcome.Ok? <==> id in orders && orders[id].status == Pending && saveOk
    ensures e.outcome.Ok? ==>
      && e.outcome.value == "Order cancelled successfully"
      && e.orders == orders[id := orders[id].(status := Cancelled)]
    ensures !e.outcome.Ok? ==> e.orders == orders
  {
    if id !in orders then Effect(Fail(NotFound("Order not found")), orders)
    else if orders[id].status != Pending then Effect(Fail(BadRequest("Only pending orders can be cancelled")), orders)
    else if !saveOk then Effect(Fail(InternalError("Failed to cancel order")), orders)
    else Effect(Ok("Order cancelled successfully"), orders[id := orders[id].(status := Cancelled)])
  }

  /** Setting the status of order `id` from the request body. The order is
      looked up before the body is read, and the prior status is not
      consulted. The reply is the order row as loaded, without its line
      items, carrying the new status. */
  function StatusChange(orders: map<nat, Order>, id: nat, body: Bound<string>, saveOk: bool): (e: Effect<Order>)
    ensures id !in orders ==> e == Effect(Fail(NotFound("Order not found")), orders)
    ensures id in orders && body.BindError? ==> e == Effect(Fail(BadRequest(body.message)), orders)
    ensures id in orders && body.Parsed? && body.value != "Completed" && body.value != "Cancelled" ==>
      e == Effect(Fail(BadRequest("Invalid status")), orders)
    ensures id in orders && body.Parsed? && (body.value == "Completed" || body.value == "Cancelled") && !saveOk ==>
      e == Effect(Fail(InternalError("Failed to update order status")), orders)
    ensures e.outcome.Ok? <==>
      id in orders && body.Parsed? && (body.value == "Completed" || body.value == "Cancelled") && saveOk
    ensures e.outcome.Ok? ==>
      && e.orders.Keys == orders.Keys
      && StatusName(e.orders[id].status) == body.value
      && e.orders[id] == orders[id].(status := e.orders[id].status)
      && (forall other :: other in orders && other != id ==> e.orders[other] == orders[other])
      && e.outcome.value == e.orders[id].(products := [])
    ensures !e.outcome.Ok? ==> e.orders == orders
  {
    if id !in orders then Effect(Fail(NotFound("Order not found")), orders)
    else match body
      case BindError(message) => Effect(Fail(BadRequest(message)), orders)
      case Parsed(text) =>
        match ParseTarget(text)
        case None => Effect(Fail(BadRequest("Invalid status")), orders)
        case Some(target) =>
          var updated := orders[id].(status := target);
          if !saveOk then Effect(Fail(InternalError("Failed to update order status")), orders)
          else Effect(Ok(updated.(products := [])), orders[id := updated])
  }

  /** A cancelled order cannot be cancelled a second time. */
  lemma CancelOnlyOnce(orders: map<nat, Order>, id: nat, first: bool, second: bool)
    requires Cancellation(orders, id, first).outcome.Ok?
    ensures Cancellation(Cancellation(orders, id, first).orders, id, second).outcome
      == Fail(BadRequest("Only pending orders can be cancelled"))
  {
  }

  /** Neither handler ever moves an order back to Pending. */
  lemma PendingNeverReentered(orders: map<nat, Order>, id: nat, body: Bound<string>, saveOk: bool)
    requires id in orders && orders[id].status != Pending
    ensures Cancellation(orders, id, saveOk).orders[id].status != Pending
    ensures StatusChange(orders, id, body, saveOk).orders[id].status != Pending
  {
  }

  /** The status update sets a terminal order's status too: a cancelled
      order can be completed, and a completed one cancelled. */
  lemma TerminalStatusReopened(orders: map<nat, Order>, id: nat, target: Status)
    requires id in orders && orders[id].status != Pending && target != Pending
    ensures StatusChange(orders, id, Parsed(StatusName(target)), true).orders[id].status == target
  {
  }

  /** The product and order tables, with the next order id the store will assign. */
  class Store {
    var products: map<nat, Product>
    var orders: map<nat, Order>
    var nextOrderId: nat

    /** Rows are stored under their own ids, order ids are below the next
        id to assign, and each order's line items point back at it. */
    ghost predicate Valid()
      reads this
    {
      && Keyed(products)
      && forall id :: id in orders ==> orders[id].id == id && id < nextOrderId && LineItemsBelong(orders[id])
    }

    constructor (catalog: map<nat, Product>)
      requires Keyed(catalog)
      ensures Valid() && products == catalog && orders == map[] && nextOrderId == 1
    {
      products := catalog;
      orders := map[];
      nextOrderId := 1;
    }

    /** The orders owned by `userId`, and no others. */
    function ListUserOrders(userId: nat): (r: map<nat, Order>)
      reads this
      ensures r.Keys <= orders.Keys
      ensures forall id :: id in orders ==> (id in r <==> orders[id].userId == userId)
      ensures forall id :: id in r ==> r[id] == orders[id] && r[id].userId == userId
    {
      map id | id in orders && orders[id].userId == userId :: orders[id]
    }

    /** Any stored order by id, whoever owns it. */
    function GetOrder(id: nat): (r: Outcome<Order>)
      reads this
      ensures r.Ok? <==> id in orders
      ensures r.Ok? ==> r.value == orders[id]
      ensures !r.Ok? ==> r == Fail(NotFound("Order not found"))
    {
      if id in orders then Ok(orders[id]) else Fail(NotFound("Order not found"))
    }

    /** The line-item loop of order placement: takes each requested pair
        in turn, writes each accepted stock decrement to the product table
        at once, and stops at the first pair that fails. Returns the total,
        the recorded line items and the failure, if any. */
    method Walk(req: seq<LineRequest>) returns (total: int, items: seq<OrderProduct>, failure: Option<Failure>)
      modifies this`products
      ensures Progress(products, total, items, failure) == Process(old(products), req)
    {
      total, items, failure := 0, [], None;
      var i := 0;
      while i < |req|
        invariant 0 <= i <= |req|
        invariant Process(old(products), req[..i]) == Progress(products, total, items, None)
      {
        var line := req[i];
        if line.productId !in products {
          failure := Some(NotFound("Product not found"));
          StopsAt(old(products), req, i);
          return;
        }
        var product := products[line.productId];
        if product.stock < line.quantity {
          failure := Some(BadRequest("Insufficient stock"));
          StopsAt(old(products), req, i);
          return;
        }
        ghost var before := Progress(products, total, items, None);
        product := product.(stock := product.stock - line.quantity);
        products := products[line.productId := product];
        total := total + line.quantity * product.price;
        items := items + [OrderProduct(0, line.productId, line.quantity)];
        assert Step(before, line) == Progress(products, total, items, None);
        StepAt(old(products), req, i);
        i := i + 1;
      }
      assert req[..i] == req;
    }

    /** Place an order for `userId`. `createOk` says whether inserting the
        order row succeeds. Stock decrements are written as each line item
        is accepted and are kept whatever happens afterwards. */
    method PlaceOrder(body: Bound<seq<LineRequest>>, userId: nat, createOk: bool) returns (r: Outcome<Order>)
      requires Valid()
      modifies this
      ensures Valid()
      ensures Stocked(old(products)) ==> Stocked(products)
      ensures body.BindError? ==>
        r == Fail(BadRequest(body.message)) && products == old(products) && orders == old(orders) && nextOrderId == old(nextOrderId)
      ensures body.Parsed? ==>
        var w := Process(old(products), body.value);
        && products == w.products
        && (w.failure.Some? ==> r == Fail(w.failure.value) && orders == old(orders) && nextOrderId == old(nextOrderId))
        && (w.failure.None? && !createOk ==>
              r == Fail(InternalError("Failed to place order")) && orders == old(orders) && nextOrderId == old(nextOrderId))
        && (w.failure.None? && createOk ==>
              var o := NewOrder(old(nextOrderId), userId, w);
              r == Created(o) && orders == old(orders)[o.id := o] && nextOrderId == old(nextOrderId) + 1)
    {
      if body.BindError? {
        r := Fail(BadRequest(body.message));
        return;
      }
      var total, items, failure := Walk(body.value);
      StaysKeyed(old(products), body.value);
      if Stocked(old(products)) { StockStaysNonNegative(old(products), body.value); }
      if failure.Some? {
        r := Fail(failure.value);
        return;
      }
      if !createOk {
        r := Fail(InternalError("Failed to place order"));
        return;
      }
      var order := NewOrder(nextOrderId, userId, Progress(products, total, items, None));
      orders := orders[order.id := order];
      nextOrderId := nextOrderId + 1;
      r := Created(order);
    }

    /** Cancel order `id`; `saveOk` says whether writing the row back succeeds. */
    method CancelOrder(id: nat, saveOk: bool) returns (r: Outcome<string>)
      requires Valid()
      modifies this
      ensures Valid()
      ensures r == Cancellation(old(orders), id, saveOk).outcome
      ensures orders == Cancellation(old(orders), id, saveOk).orders
      ensures products == old(products) && nextOrderId == old(nextOrderId)
    {
      if id !in orders {
        r := Fail(NotFound("Order not found"));
        return;
      }
      var order := orders[id];
      if order.status != Pending {
        r := Fail(BadRequest("Only pending orders can be cancelled"));
        return;
      }
      order := order.(status := Cancelled);
      if !saveOk {
        r := Fail(InternalError("Failed to cancel order"));
        return;
      }
      orders := orders[id := order];
      r := Ok("Order cancelled successfully");
    }

    /** Set the status of order `id` from the request body; `saveOk` says
        whether writing the row back succeeds. */
    method UpdateOrderStatus(id: nat, body: Bound<string>, saveOk: bool) returns (r: Outcome<Order>)
      requires Valid()
      modifies this
      ensures Valid()
      ensures r == StatusChange(old(orders), id, body, saveOk).outcome
      ensures orders == StatusChange(old(orders), id, body, saveOk).orders
      ensures products == old(products) && nextOrderId == old(nextOrderId)
    {
      if id !in orders {
        r := Fail(NotFound("Order not found"));
        return;
      }
      var order := orders[id];
      if body.BindError? {
        r := Fail(BadRequest(body.message));
        return;
      }
      var target := ParseTarget(body.value);
      if target.None? {
        r := Fail(BadRequest("Invalid status"));
        return;
      }
      order := order.(status := target.value);
      if !saveOk {
        r := Fail(InternalError("Failed to update order status"));
        return;
      }
      orders := orders[id := order];
      r := Ok(order.(products := []));
    }

    /** The status update route: the admin gate runs first, and when it
        refuses, the handler never runs and nothing changes. */
    method AdminUpdateOrderStatus(claims: Option<Claims>, id: nat, body: Bound<string>, saveOk: bool) returns (r: Outcome<Order>)
      requires Valid() && claims.Some?
      modifies this
      ensures Valid()
      ensures products == old(products) && nextOrderId == old(nextOrderId)
      ensures AdminMiddleware(claims).Abort? ==>
        r == Fail(Forbidden("Admin access required")) && orders == old(orders)
      ensures AdminMiddleware(claims).Next? ==>
        r == StatusChange(old(orders), id, body, saveOk).outcome && orders == StatusChange(old(orders), id, body, saveOk).orders
    {
      var verdict := AdminMiddleware(claims);
      if verdict.Abort? {
        r := Fail(verdict.failure);
        return;
      }
      r := UpdateOrderStatus(id, body, saveOk);
    }
  }
}
