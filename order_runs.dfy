/**
 * Sequences of order-handler calls, one after the other, against the same
 * two tables. Each call sees the tables the previous call left behind.
 * Concurrent, interleaved calls are not modelled here.
 */
module OrderRuns {
  import opened Records
  import opened OrderHandler

  /** One invocation: the event and the fresh id that call would draw. */
  datatype Call = Call(event: OrderEvent, orderId: string)

  /** The responses of a sequence of calls, in order, and the final tables. */
  datatype Run = Run(responses: seq<Response>, products: map<string, Product>, orders: map<string, Order>)

  /** The calls, handled in order, each on the tables the previous one left. */
  function RunCalls(products: map<string, Product>, orders: map<string, Order>, calls: seq<Call>): (r: Run)
    ensures |r.responses| == |calls|
    ensures r.products.Keys == products.Keys
    decreases |calls|
  {
    if calls == [] then Run([], products, orders)
    else
      var first := Admit(products, orders, calls[0].event, calls[0].orderId);
      var rest := RunCalls(first.products, first.orders, calls[1..]);
      Run([first.response] + rest.responses, rest.products, rest.orders)
  }

  /** The stock the handler would read for `productId`; 0 for an unknown product. */
  function Available(products: map<string, Product>, productId: string): int {
    if productId in products then StockOf(products[productId]) else 0
  }

  /** The quantity of `productId` that a response reports as ordered. */
  function ReservedBy(response: Response, productId: string): int {
    if response.statusCode == 201 && response.body.OrderItem? && response.body.order.productId == productId
    then response.body.order.qty
    else 0
  }

  /** The quantity of `productId` that a sequence of responses reports as ordered. */
  function TotalReserved(responses: seq<Response>, productId: string): int
    decreases |responses|
  {
    if responses == [] then 0 else ReservedBy(responses[0], productId) + TotalReserved(responses[1..], productId)
  }

  /** One call moves exactly the quantity it reports from the product's stock into an order. */
  lemma AdmitConservesStock(products: map<string, Product>, orders: map<string, Order>,
                            event: OrderEvent, orderId: string, productId: string)
    ensures var r := Admit(products, orders, event, orderId);
      Available(r.products, productId) + ReservedBy(r.response, productId) == Available(products, productId)
    ensures var r := Admit(products, orders, event, orderId);
      ReservedBy(r.response, productId) >= 0
    ensures var r := Admit(products, orders, event, orderId);
      Available(products, productId) < 0 ==> ReservedBy(r.response, productId) == 0
  {
  }

  /** Across any sequence of calls, no product's stock becomes negative if none was. */
  lemma {:induction false} RunKeepsStockNonNegative(products: map<string, Product>, orders: map<string, Order>,
                                                    calls: seq<Call>)
    requires StockNonNegative(products)
    ensures StockNonNegative(RunCalls(products, orders, calls).products)
    decreases |calls|
  {
    if calls != [] {
      var first := Admit(products, orders, calls[0].event, calls[0].orderId);
      RunKeepsStockNonNegative(first.products, first.orders, calls[1..]);
    }
  }

  /**
   * Each accepted order's quantity was taken from its product's stock exactly
   * once: final stock plus everything reported as ordered is the initial stock.
   */
  lemma {:induction false} RunConservesStock(products: map<string, Product>, orders: map<string, Order>,
                                             calls: seq<Call>, productId: string)
    ensures var r := RunCalls(products, orders, calls);
      Available(r.products, productId) + TotalReserved(r.responses, productId) == Available(products, productId)
    decreases |calls|
  {
    if calls != [] {
      var first := Admit(products, orders, calls[0].event, calls[0].orderId);
      AdmitConservesStock(products, orders, calls[0].event, calls[0].orderId, productId);
      RunConservesStock(first.products, first.orders, calls[1..], productId);
      var r := RunCalls(products, orders, calls);
      assert r.responses[1..] == RunCalls(first.products, first.orders, calls[1..]).responses;
    }
  }

  /**
   * A product's stock never rises, and never falls below 0 when it started at
   * 0 or more; stock that started below 0 admits no order.
   */
  lemma {:induction false} RunStockFloor(products: map<string, Product>, orders: map<string, Order>,
                                         calls: seq<Call>, productId: string)
    ensures var r := RunCalls(products, orders, calls);
      Available(r.products, productId) <= Available(products, productId)
    ensures var r := RunCalls(products, orders, calls);
      Available(products, productId) >= 0 ==> Available(r.products, productId) >= 0
    ensures var r := RunCalls(products, orders, calls);
      Available(products, productId) < 0 ==> TotalReserved(r.responses, productId) == 0
    decreases |calls|
  {
    if calls != [] {
      var first := Admit(products, orders, calls[0].event, calls[0].orderId);
      AdmitConservesStock(products, orders, calls[0].event, calls[0].orderId, productId);
      RunStockFloor(first.products, first.orders, calls[1..], productId);
      var r := RunCalls(products, orders, calls);
      assert r.responses[1..] == RunCalls(first.products, first.orders, calls[1..]).responses;
    }
  }

  /**
   * No oversell: the quantities of all orders accepted for a product add up
   * to at most the stock it had before the first call.
   */
  lemma NoOversell(products: map<string, Product>, orders: map<string, Order>,
                   calls: seq<Call>, productId: string)
    ensures var r := RunCalls(products, orders, calls);
      0 <= TotalReserved(r.responses, productId) <= (if Available(products, productId) < 0 then 0 else Available(products, productId))
  {
    RunConservesStock(products, orders, calls, productId);
    RunStockFloor(products, orders, calls, productId);
  }

  /** Every call id is new to the orders table and to the other calls. */
  ghost predicate FreshIds(orders: map<string, Order>, calls: seq<Call>) {
    && (forall i :: 0 <= i < |calls| ==> calls[i].orderId !in orders)
    && (forall i, j :: 0 <= i < j < |calls| ==> calls[i].orderId != calls[j].orderId)
  }

  /**
   * With fresh ids, the final orders table keeps every order that was there
   * and holds each accepted order under its call's id; a rejected call's id
   * is never used.
   */
  lemma {:induction false} RunRecordsAcceptedOrders(products: map<string, Product>, orders: map<string, Order>,
                                                    calls: seq<Call>)
    requires FreshIds(orders, calls)
    ensures var r := RunCalls(products, orders, calls);
      forall k :: k in orders ==> k in r.orders && r.orders[k] == orders[k]
    ensures var r := RunCalls(products, orders, calls);
      forall k :: k !in orders && (forall i :: 0 <= i < |calls| ==> calls[i].orderId != k) ==> k !in r.orders
    ensures var r := RunCalls(products, orders, calls);
      forall i :: 0 <= i < |calls| ==>
        if r.responses[i].statusCode == 201
        then calls[i].orderId in r.orders && r.responses[i].body == OrderItem(r.orders[calls[i].orderId])
        else calls[i].orderId !in r.orders
    decreases |calls|
  {
    if calls != [] {
      var c := calls[0];
      var first := Admit(products, orders, c.event, c.orderId);
      var rest := calls[1..];
      assert FreshIds(first.orders, rest) by {
        forall i | 0 <= i < |rest|
          ensures rest[i].orderId !in first.orders
        {
          assert rest[i] == calls[i + 1];
        }
        forall i, j | 0 <= i < j < |rest|
          ensures rest[i].orderId != rest[j].orderId
        {
          assert rest[i] == calls[i + 1] && rest[j] == calls[j + 1];
        }
      }
      RunRecordsAcceptedOrders(first.products, first.orders, rest);
      var tail := RunCalls(first.products, first.orders, rest);
      var r := RunCalls(products, orders, calls);
      assert r.orders == tail.orders;
      forall i | 0 <= i < |calls|
        ensures if r.responses[i].statusCode == 201
                then calls[i].orderId in r.orders && r.responses[i].body == OrderItem(r.orders[calls[i].orderId])
                else calls[i].orderId !in r.orders
      {
        if i == 0 {
          assert c.orderId !in orders;
          forall j | 0 <= j < |rest| ensures rest[j].orderId != c.orderId {
            assert rest[j] == calls[j + 1];
          }
        } else {
          assert calls[i] == rest[i - 1];
          assert r.responses[i] == tail.responses[i - 1];
        }
      }
    }
  }

  /** Two calls in a row are the second call on the tables the first one left. */
  lemma RunTwo(products: map<string, Product>, orders: map<string, Order>, c1: Call, c2: Call)
    ensures var a := Admit(products, orders, c1.event, c1.orderId);
      var b := Admit(a.products, a.orders, c2.event, c2.orderId);
      RunCalls(products, orders, [c1, c2]) == Run([a.response, b.response], b.products, b.orders)
  {
    var a := Admit(products, orders, c1.event, c1.orderId);
    var b := Admit(a.products, a.orders, c2.event, c2.orderId);
    assert [c2][1..] == [];
    assert RunCalls(a.products, a.orders, [c2]) == Run([b.response], b.products, b.orders);
    assert [c1, c2][1..] == [c2];
  }

  /** Stock 100: an order of 100 is accepted and empties it; a following order of 1 is refused. */
  lemma DrainThenRefuse(p: Product, orders: map<string, Order>, customer: string, id1: string, id2: string)
    requires p.stock == Some(100)
    ensures var products := map[p.id := p];
      var calls := [Call(OrderEvent(Some("POST"), Fields(OrderFields(Some(p.id), QtyValue(100), Some(customer)))), id1),
                    Call(OrderEvent(Some("POST"), Fields(OrderFields(Some(p.id), QtyValue(1), Some(customer)))), id2)];
      var r := RunCalls(products, orders, calls);
      && r.responses[0].statusCode == 201
      && r.responses[1] == Response(400, Message("Insufficient stock"))
      && StockOf(r.products[p.id]) == 0
  {
    var products := map[p.id := p];
    var c1 := Call(OrderEvent(Some("POST"), Fields(OrderFields(Some(p.id), QtyValue(100), Some(customer)))), id1);
    var c2 := Call(OrderEvent(Some("POST"), Fields(OrderFields(Some(p.id), QtyValue(1), Some(customer)))), id2);
    RunTwo(products, orders, c1, c2);
    var a := Admit(products, orders, c1.event, c1.orderId);
    assert StockOf(a.products[p.id]) == 0;
  }

  /** Stock 100: of two orders of 60, handled one after the other, only the first is accepted. */
  lemma TwoOfSixty(p: Product, orders: map<string, Order>, customer: string, id1: string, id2: string)
    requires p.stock == Some(100)
    ensures var products := map[p.id := p];
      var sixty := OrderEvent(None, Fields(OrderFields(Some(p.id), QtyValue(60), Some(customer))));
      var r := RunCalls(products, orders, [Call(sixty, id1), Call(sixty, id2)]);
      && r.responses[0].statusCode == 201
      && r.responses[1] == Response(400, Message("Insufficient stock"))
      && StockOf(r.products[p.id]) == 40
  {
    var products := map[p.id := p];
    var sixty := OrderEvent(None, Fields(OrderFields(Some(p.id), QtyValue(60), Some(customer))));
    RunTwo(products, orders, Call(sixty, id1), Call(sixty, id2));
    var a := Admit(products, orders, sixty, id1);
    assert StockOf(a.products[p.id]) == 40;
  }
}
