/** The order-placement walk, as a function of the product table and the
    requested line items. Line items are taken in request order; each one
    sees the table as earlier line items left it, and the first line item
    that fails ends the walk with the table as it then stands. */
module Placement {
  import opened Outcomes
  import opened Models

  /** One requested `(product_id, quantity)` pair. */
  datatype LineRequest = LineRequest(productId: nat, quantity: int)

  /** The state of the walk: the product table, the running total, the line
      items recorded so far, and the failure that stopped the walk, if any. */
  datatype Progress = Progress(products: map<nat, Product>, total: int, items: seq<OrderProduct>, failure: Option<Failure>)

  /** Every product row is stored under its own id. */
  predicate Keyed(products: map<nat, Product>)
  {
    forall id :: id in products ==> products[id].id == id
  }

  /** No product has negative stock. */
  predicate Stocked(products: map<nat, Product>)
  {
    forall id :: id in products ==> products[id].stock >= 0
  }

  /** Every requested product id names a product of the table. */
  predicate Known(products: map<nat, Product>, req: seq<LineRequest>)
  {
    forall k :: 0 <= k < |req| ==> req[k].productId in products
  }

  /** Handle one line item: look the product up, check its stock, take the
      quantity off the stock, add quantity times price to the total and
      record the line item. */
  function Step(p: Progress, line: LineRequest): Progress
  {
    if p.failure.Some? then p
    else if line.productId !in p.products then p.(failure := Some(NotFound("Product not found")))
    else
      var product := p.products[line.productId];
      if product.stock < line.quantity then p.(failure := Some(BadRequest("Insufficient stock")))
      else
        Progress(
          p.products[line.productId := product.(stock := product.stock - line.quantity)],
          p.total + line.quantity * product.price,
          p.items + [OrderProduct(0, line.productId, line.quantity)],
          None)
  }

  /** A line item is accepted exactly when its product exists and the
      requested quantity is at most the current stock; an accepted line item
      lowers that product's stock by the quantity, never below zero, and
      leaves every other row alone; a rejected one changes nothing. */
  lemma StepOutcome(p: Progress, line: LineRequest)
    ensures p.failure.Some? ==> Step(p, line) == p
    ensures p.failure.None? ==>
      (Step(p, line).failure.None? <==> line.productId in p.products && line.quantity <= p.products[line.productId].stock)
    ensures p.failure.None? && line.productId !in p.products ==>
      Step(p, line) == p.(failure := Some(NotFound("Product not found")))
    ensures p.failure.None? && line.productId in p.products && Step(p, line).failure.Some? ==>
      Step(p, line) == p.(failure := Some(BadRequest("Insufficient stock")))
    ensures p.failure.None? && Step(p, line).failure.None? ==>
      && Step(p, line).products.Keys == p.products.Keys
      && Step(p, line).products[line.productId].stock == p.products[line.productId].stock - line.quantity >= 0
      && (forall id :: id in p.products && id != line.productId ==> Step(p, line).products[id] == p.products[id])
  {
  }

  /** The walk over the whole request, defined on its prefixes. */
  function Process(products: map<nat, Product>, req: seq<LineRequest>): (r: Progress)
    ensures r.products.Keys == products.Keys
    ensures |r.items| <= |req|
    ensures r.failure.None? ==> |r.items| == |req|
    decreases |req|
  {
    if req == [] then Progress(products, 0, [], None)
    else Step(Process(products, req[..|req| - 1]), req[|req| - 1])
  }

  /** The quantity of product `id` that the request asks for in all. */
  function Demand(req: seq<LineRequest>, id: nat): int
    decreases |req|
  {
    if req == [] then 0
    else Demand(req[..|req| - 1], id) + (if req[|req| - 1].productId == id then req[|req| - 1].quantity else 0)
  }

  /** The sum of quantity times price over the request, priced from `products`. */
  function Cost(products: map<nat, Product>, req: seq<LineRequest>): int
    requires Known(products, req)
    decreases |req|
  {
    if req == [] then 0
    else
      var last := req[|req| - 1];
      Cost(products, req[..|req| - 1]) + last.quantity * products[last.productId].price
  }

  /** The order placed for `userId` from a walk that completed: its line
      items are attached to the new id and its status is the column default. */
  function NewOrder(id: nat, userId: nat, w: Progress): (o: Order)
    ensures LineItemsBelong(o) && o.id == id && o.userId == userId
    ensures o.status == Pending && o.totalAmount == w.total && |o.products| == |w.items|
    ensures forall k :: 0 <= k < |o.products| ==>
      o.products[k].productId == w.items[k].productId && o.products[k].quantity == w.items[k].quantity
  {
    Order(id, userId, seq(|w.items|, k requires 0 <= k < |w.items| => w.items[k].(orderId := id)), DefaultStatus, w.total)
  }

  lemma PrefixOfPrefix(req: seq<LineRequest>, k: nat)
    requires 0 < k <= |req|
    ensures req[..k][..k - 1] == req[..k - 1] && req[..k][k - 1] == req[k - 1]
  {
  }

  /** Extending a prefix by one line item is one more step of the walk. */
  lemma StepAt(products: map<nat, Product>, req: seq<LineRequest>, k: nat)
    requires k < |req|
    ensures Process(products, req[..k + 1]) == Step(Process(products, req[..k]), req[k])
  {
    PrefixOfPrefix(req, k + 1);
  }

  /** Once a line item has failed, the rest of the request changes nothing. */
  lemma {:induction false} FailureIsFinal(products: map<nat, Product>, req: seq<LineRequest>, k: nat)
    requires k <= |req| && Process(products, req[..k]).failure.Some?
    ensures Process(products, req) == Process(products, req[..k])
    decreases |req| - k
  {
    if k == |req| {
      assert req[..k] == req;
    } else {
      PrefixOfPrefix(req, k + 1);
      assert Process(products, req[..k + 1]) == Process(products, req[..k]);
      FailureIsFinal(products, req, k + 1);
    }
  }

  /** When line item `k` is the first to fail, the walk ends with that
      failure, and with the table, total and line items as the line items
      before `k` left them. */
  lemma {:induction false} StopsAt(products: map<nat, Product>, req: seq<LineRequest>, k: nat)
    requires k < |req| && Process(products, req[..k]).failure.None?
    requires Step(Process(products, req[..k]), req[k]).failure.Some?
    ensures Process(products, req) == Process(products, req[..k]).(failure := Step(Process(products, req[..k]), req[k]).failure)
  {
    StepAt(products, req, k);
    FailureIsFinal(products, req, k + 1);
  }

  /** A walk that reached its end without failure: every product exists, the
      line items are the request's pairs in order, the total is the priced
      sum, each product's stock is down by exactly the quantity requested of
      it, and nothing but stock changes. */
  lemma {:induction false} Completed(products: map<nat, Product>, req: seq<LineRequest>)
    requires Process(products, req).failure.None?
    ensures Known(products, req)
    ensures Process(products, req).total == Cost(products, req)
    ensures |Process(products, req).items| == |req|
    ensures forall k :: 0 <= k < |req| ==> Process(products, req).items[k] == OrderProduct(0, req[k].productId, req[k].quantity)
    ensures forall id :: id in products ==>
      Process(products, req).products[id] == products[id].(stock := products[id].stock - Demand(req, id))
  {
    CompletedItems(products, req);
    CompletedTotal(products, req);
    CompletedStock(products, req);
  }

  lemma {:induction false} CompletedItems(products: map<nat, Product>, req: seq<LineRequest>)
    requires Process(products, req).failure.None?
    ensures Known(products, req)
    ensures |Process(products, req).items| == |req|
    ensures forall k :: 0 <= k < |req| ==> Process(products, req).items[k] == OrderProduct(0, req[k].productId, req[k].quantity)
    decreases |req|
  {
    if req != [] {
      var n := |req| - 1;
      var front := req[..n];
      CompletedItems(products, front);
      assert Process(products, req) == Step(Process(products, front), req[n]);
      forall k | 0 <= k < n
        ensures req[k].productId in products
        ensures Process(products, req).items[k] == OrderProduct(0, req[k].productId, req[k].quantity)
      {
        assert req[k] == front[k];
      }
    }
  }

  lemma {:induction false} CompletedTotal(products: map<nat, Product>, req: seq<LineRequest>)
    requires Process(products, req).failure.None?
    requires Known(products, req)
    ensures Process(products, req).total == Cost(products, req)
    decreases |req|
  {
    if req != [] {
      var n := |req| - 1;
      var front := req[..n];
      assert Known(products, front) by {
        forall k | 0 <= k < n ensures front[k].productId in products {
          assert front[k] == req[k];
        }
      }
      CompletedTotal(products, front);
      CompletedStock(products, front);
      assert Process(products, req) == Step(Process(products, front), req[n]);
    }
  }

  lemma {:induction false} CompletedStock(products: map<nat, Product>, req: seq<LineRequest>)
    requires Process(products, req).failure.None?
    ensures forall id :: id in products ==>
      Process(products, req).products[id] == products[id].(stock := products[id].stock - Demand(req, id))
    decreases |req|
  {
    if req != [] {
      var n := |req| - 1;
      var front := req[..n];
      CompletedStock(products, front);
      assert Process(products, req) == Step(Process(products, front), req[n]);
    }
  }

  /** The order placed from a completed walk belongs to the caller, is
      Pending, lists the request's pairs in request order under its own id,
      and totals quantity times price over them. */
  lemma {:induction false} PlacedOrder(products: map<nat, Product>, req: seq<LineRequest>, id: nat, userId: nat)
    requires Process(products, req).failure.None?
    ensures Known(products, req)
    ensures
      var o := NewOrder(id, userId, Process(products, req));
      && o.userId == userId && o.status == Pending
      && o.totalAmount == Cost(products, req)
      && |o.products| == |req|
      && forall k :: 0 <= k < |req| ==> o.products[k] == OrderProduct(id, req[k].productId, req[k].quantity)
  {
    Completed(products, req);
  }

  /** Only products named in a completed request change. */
  lemma {:induction false} UntouchedProducts(products: map<nat, Product>, req: seq<LineRequest>, id: nat)
    requires Process(products, req).failure.None? && id in products
    requires forall k :: 0 <= k < |req| ==> req[k].productId != id
    ensures Process(products, req).products[id] == products[id]
  {
    Completed(products, req);
    DemandOfAbsent(req, id);
  }

  lemma {:induction false} DemandOfAbsent(req: seq<LineRequest>, id: nat)
    requires forall k :: 0 <= k < |req| ==> req[k].productId != id
    ensures Demand(req, id) == 0
    decreases |req|
  {
    if req != [] {
      var front := req[..|req| - 1];
      forall k | 0 <= k < |front| ensures front[k].productId != id {
        assert front[k] == req[k];
      }
      DemandOfAbsent(front, id);
    }
  }

  /** Line item `k` is judged against the stock that earlier line items
      (including earlier ones for the same product) left behind. */
  lemma {:induction false} SeesEarlierDecrements(products: map<nat, Product>, req: seq<LineRequest>, k: nat)
    requires k < |req| && Process(products, req[..k]).failure.None?
    requires req[k].productId in products
    ensures Process(products, req[..k + 1]).failure.None? <==>
      req[k].quantity <= products[req[k].productId].stock - Demand(req[..k], req[k].productId)
  {
    StepAt(products, req, k);
    Completed(products, req[..k]);
  }

  /** A request that fails at line item `k` fails as a whole, and leaves in
      the table exactly the decrements of the line items before `k`. */
  lemma {:induction false} PartialEffect(products: map<nat, Product>, req: seq<LineRequest>, k: nat)
    requires k < |req|
    requires Process(products, req[..k]).failure.None? && Process(products, req[..k + 1]).failure.Some?
    ensures Process(products, req).failure.Some?
    ensures forall id :: id in products ==>
      Process(products, req).products[id] == products[id].(stock := products[id].stock - Demand(req[..k], id))
  {
    PrefixOfPrefix(req, k + 1);
    FailureIsFinal(products, req, k + 1);
    Completed(products, req[..k]);
  }

  /** Starting from a table with no negative stock, the walk never drives
      any stock below zero, whether it completes or stops at a failure. */
  lemma {:induction false} StockStaysNonNegative(products: map<nat, Product>, req: seq<LineRequest>)
    requires Stocked(products)
    ensures Stocked(Process(products, req).products)
    decreases |req|
  {
    if req != [] {
      var p := Process(products, req[..|req| - 1]);
      StockStaysNonNegative(products, req[..|req| - 1]);
      var r := Step(p, req[|req| - 1]);
      forall id | id in r.products ensures r.products[id].stock >= 0 {
        if p.failure.None? && r.failure.None? && id == req[|req| - 1].productId {
        } else {
          assert r.products[id] == p.products[id];
        }
      }
    }
  }

  /** The walk keeps every product row under its own id. */
  lemma {:induction false} StaysKeyed(products: map<nat, Product>, req: seq<LineRequest>)
    requires Keyed(products)
    ensures Keyed(Process(products, req).products)
    decreases |req|
  {
    if req != [] {
      StaysKeyed(products, req[..|req| - 1]);
    }
  }

  /** Zero quantities for existing products whose stock is not negative are
      accepted and change nothing. */
  lemma {:induction false} ZeroQuantitiesChangeNothing(products: map<nat, Product>, req: seq<LineRequest>)
    requires forall k :: 0 <= k < |req| ==>
      req[k].productId in products && req[k].quantity == 0 && products[req[k].productId].stock >= 0
    ensures Process(products, req).failure.None?
    ensures Process(products, req).products == products
    ensures Process(products, req).total == 0
    decreases |req|
  {
    if req != [] {
      var front := req[..|req| - 1];
      forall k | 0 <= k < |front|
        ensures front[k].productId in products && front[k].quantity == 0 && products[front[k].productId].stock >= 0
      {
        assert front[k] == req[k];
      }
      ZeroQuantitiesChangeNothing(products, front);
      var line := req[|req| - 1];
      assert products[line.productId := products[line.productId]] == products;
    }
  }

  /** A negative quantity passes the stock check exactly when the stock is at
      least that quantity (for example, when it is not negative), and then
      raises the stock. */
  lemma NegativeQuantityRestocks(products: map<nat, Product>, id: nat, q: int)
    requires id in products && q < 0
    ensures Process(products, [LineRequest(id, q)]).failure.None? <==> q <= products[id].stock
    ensures Process(products, [LineRequest(id, q)]).failure.None? ==>
      Process(products, [LineRequest(id, q)]).products[id].stock == products[id].stock - q > products[id].stock
  {
  }

  /** Two products priced 10 and 5 with quantities 2 and 1: the total is 25
      and the two stocks drop by 2 and by 1. */
  lemma TwoProductExample()
    ensures
      var products := map[1 := Product(1, "A", "", 10, 5), 2 := Product(2, "B", "", 5, 3)];
      var w := Process(products, [LineRequest(1, 2), LineRequest(2, 1)]);
      w.failure.None? && w.total == 25 && w.products[1].stock == 3 && w.products[2].stock == 2
  {
  }

  /** Two line items of one unit each against a stock of one: the second
      fails, and the first one's decrement stays in the table. */
  lemma SharedStockExample()
    ensures
      var products := map[7 := Product(7, "C", "", 100, 1)];
      var w := Process(products, [LineRequest(7, 1), LineRequest(7, 1)]);
      w.failure == Some(BadRequest("Insufficient stock")) && w.products[7].stock == 0
  {
  }
}
