/**
 * The order Lambda (`order_handler.handler`): admits an order for one product
 * when the product exists and has enough stock, writes the order item and
 * then subtracts the ordered quantity from the product's stock.
 *
 * `Admit` is the whole effect of one call on the two tables, as a function of
 * the tables before the call; `HandleOrder` performs the same steps one store
 * call at a time on the two table objects and is proved equal to `Admit`.
 * The fresh order id that `uuid.uuid4()` draws is a parameter.
 */
module OrderHandler {
  import opened Records

  /** The `qty` field of the decoded body. */
  datatype QtyField =
    | QtyAbsent                       // no "qty" key: the handler uses 1
    | QtyValue(n: int)                // `int(...)` succeeded
    | QtyInvalid(reason: string)      // `int(...)` raised; `reason` is its message

  /** The fields of a decoded JSON body that the handler looks at. */
  datatype OrderFields = OrderFields(productId: Option<string>, qty: QtyField, customer: Option<string>)

  /** The request body after `json.loads`. */
  datatype OrderBody =
    | NoBody                          // body missing or empty: decoded as "{}"
    | Unparsable(reason: string)      // `json.loads` raised, or the value is not an object; `reason` is the message
    | Fields(fields: OrderFields)

  /** What the handler reads of the API Gateway event. */
  datatype OrderEvent = OrderEvent(httpMethod: Option<string>, body: OrderBody)

  /** The three inputs of an admission once they have been read from the body. */
  datatype OrderRequest = OrderRequest(productId: string, qty: int, customer: string)

  /** One call's response and the two tables after it. */
  datatype Outcome = Outcome(response: Response, products: map<string, Product>, orders: map<string, Order>)

  /** Python's message for a failed `body[key]` lookup (`str(KeyError(key))`). */
  function KeyErrorText(key: string): string {
    "'" + key + "'"
  }

  /**
   * Reads productId, qty and customer in the handler's order; the first
   * exception raised becomes the failure.
   */
  function ReadRequest(body: OrderBody): (r: Result<OrderRequest>)
    // an undecodable body fails with the decoder's message
    ensures body.Unparsable? ==> r == Failure(body.reason)
    // a missing or empty body, or one without productId, fails on `body["productId"]`
    ensures body.NoBody? ==> r == Failure("'productId'")
    ensures body.Fields? && body.fields.productId.None? ==> r == Failure("'productId'")
    // with productId present, an unreadable qty fails before customer is looked up
    ensures body.Fields? && body.fields.productId.Some? && body.fields.qty.QtyInvalid? ==>
              r == Failure(body.fields.qty.reason)
    // with productId and a readable qty, a missing customer fails on `body["customer"]`
    ensures body.Fields? && body.fields.productId.Some? && !body.fields.qty.QtyInvalid? && body.fields.customer.None? ==>
              r == Failure("'customer'")
    ensures r.Success? <==>
      (body.Fields? && body.fields.productId.Some? && !body.fields.qty.QtyInvalid? && body.fields.customer.Some?)
    ensures r.Success? ==>
      && r.value.productId == body.fields.productId.value
      && r.value.customer == body.fields.customer.value
      && r.value.qty == (if body.fields.qty.QtyValue? then body.fields.qty.n else 1)
  {
    assert KeyErrorText("productId") == "'productId'" && KeyErrorText("customer") == "'customer'";
    var fields := match body
      case NoBody => OrderFields(None, QtyAbsent, None)
      case Unparsable(_) => OrderFields(None, QtyAbsent, None)
      case Fields(f) => f;
    if body.Unparsable? then Failure(body.reason)
    else if fields.productId.None? then Failure(KeyErrorText("productId"))
    else if fields.qty.QtyInvalid? then Failure(fields.qty.reason)
    else if fields.customer.None? then Failure(KeyErrorText("customer"))
    else
      var qty := if fields.qty.QtyValue? then fields.qty.n else 1;
      Success(OrderRequest(fields.productId.value, qty, fields.customer.value))
  }

  /** The product item after `SET stock = stock - :q`. */
  function Decremented(p: Product, qty: int): (r: Product)
    // DynamoDB refuses `stock - :q` on an item without a stock attribute
    requires p.stock.Some?
    ensures r.stock.Some?
    ensures r.id == p.id && r.name == p.name && r.price == p.price
    ensures StockOf(r) == StockOf(p) - qty
  {
    p.(stock := Some(StockOf(p) - qty))
  }

  /** The effect of one call of the handler on the two tables. */
  function Admit(products: map<string, Product>, orders: map<string, Order>,
                 event: OrderEvent, orderId: string): (r: Outcome)
    // a call adds no product and removes none
    ensures r.products.Keys == products.Keys
    // only an accepted call writes, and it writes exactly the order it returns
    ensures r.response.statusCode != 201 ==> r.products == products && r.orders == orders
    ensures r.response.statusCode == 201 ==>
      && r.response.body.OrderItem?
      && r.response.body.order.id == orderId
      && r.orders == orders[orderId := r.response.body.order]
    // the stock guard comes first, so stock that was non-negative stays so
    ensures StockNonNegative(products) ==> StockNonNegative(r.products)
    ensures ProductsKeyed(products) ==> ProductsKeyed(r.products)
    ensures OrdersKeyed(orders) ==> OrdersKeyed(r.orders)
  {
    if event.httpMethod.GetOr("POST") != "POST" then
      Outcome(Response(405, Message("Method Not Allowed")), products, orders)
    else
      match ReadRequest(event.body)
      case Failure(e) =>
        Outcome(Response(500, Message(e)), products, orders)
      case Success(req) =>
        if req.productId !in products then
          Outcome(Response(400, Message("Invalid productId")), products, orders)
        else
          var stock := StockOf(products[req.productId]);
          if req.qty <= 0 || req.qty > stock then
            Outcome(Response(400, Message("Insufficient stock")), products, orders)
          else
            var item := Order(orderId, req.productId, req.qty, req.customer, CREATED);
            var orders' := orders[orderId := item];
            var products' := products[req.productId := Decremented(products[req.productId], req.qty)];
            Outcome(Response(201, OrderItem(item)), products', orders')
  }

  /**
   * The handler, one store call at a time: read the product, check the stock,
   * `put_item` the order, then `update_item` the product's stock.
   */
  method HandleOrder(products: ProductTable, orders: OrderTable, event: OrderEvent, orderId: string)
    returns (response: Response)
    modifies products, orders
    ensures response == Admit(old(products.items), old(orders.items), event, orderId).response
    ensures products.items == Admit(old(products.items), old(orders.items), event, orderId).products
    ensures orders.items == Admit(old(products.items), old(orders.items), event, orderId).orders
    ensures old(StockNonNegative(products.items)) ==> StockNonNegative(products.items)
    ensures old(products.Valid()) ==> products.Valid()
    ensures old(orders.Valid()) ==> orders.Valid()
  {
    var httpMethod := event.httpMethod.GetOr("POST");
    if httpMethod != "POST" {
      return Response(405, Message("Method Not Allowed"));
    }
    var parsed := ReadRequest(event.body);
    if parsed.Failure? {
      return Response(500, Message(parsed.error));
    }
    var req := parsed.value;
    if req.productId !in products.items {
      return Response(400, Message("Invalid productId"));
    }
    var prod := products.items[req.productId];
    var stock := StockOf(prod);
    if req.qty <= 0 || req.qty > stock {
      return Response(400, Message("Insufficient stock"));
    }
    var item := Order(orderId, req.productId, req.qty, req.customer, CREATED);
    orders.items := orders.items[orderId := item];
    // unconditional `SET stock = stock - :q` on the stored item
    var current := products.items[req.productId];
    products.items := products.items[req.productId := Decremented(current, req.qty)];
    response := Response(201, OrderItem(item));
  }

  /** The request a POST with a well-formed body carries. */
  ghost predicate CarriesRequest(event: OrderEvent, req: OrderRequest) {
    event.httpMethod.GetOr("POST") == "POST" && ReadRequest(event.body) == Success(req)
  }

  /** A method other than POST is answered 405 and nothing is written. */
  lemma NonPostRejected(products: map<string, Product>, orders: map<string, Order>,
                        event: OrderEvent, orderId: string)
    requires event.httpMethod.Some? && event.httpMethod.value != "POST"
    ensures Admit(products, orders, event, orderId)
         == Outcome(Response(405, Message("Method Not Allowed")), products, orders)
  {
  }

  /** An event without a method is handled as a POST. */
  lemma MissingMethodIsPost(products: map<string, Product>, orders: map<string, Order>,
                            body: OrderBody, orderId: string)
    ensures Admit(products, orders, OrderEvent(None, body), orderId)
         == Admit(products, orders, OrderEvent(Some("POST"), body), orderId)
  {
  }

  /** A body without "qty" orders one unit. */
  lemma QtyDefaultsToOne(products: map<string, Product>, orders: map<string, Order>,
                         httpMethod: Option<string>, productId: Option<string>,
                         customer: Option<string>, orderId: string)
    ensures Admit(products, orders, OrderEvent(httpMethod, Fields(OrderFields(productId, QtyAbsent, customer))), orderId)
         == Admit(products, orders, OrderEvent(httpMethod, Fields(OrderFields(productId, QtyValue(1), customer))), orderId)
  {
  }

  /**
   * A POST whose body cannot be read (undecodable JSON, no productId, a qty
   * that `int` refuses, no customer) is answered 500 before any store call,
   * with the message of the first exception.
   */
  lemma UnreadableBodyFails(products: map<string, Product>, orders: map<string, Order>,
                            event: OrderEvent, orderId: string)
    requires event.httpMethod.GetOr("POST") == "POST"
    requires ReadRequest(event.body).Failure?
    ensures Admit(products, orders, event, orderId)
         == Outcome(Response(500, Message(ReadRequest(event.body).error)), products, orders)
  {
  }

  /** An unknown product id is answered 400 "Invalid productId" and nothing is written. */
  lemma UnknownProductRejected(products: map<string, Product>, orders: map<string, Order>,
                               event: OrderEvent, req: OrderRequest, orderId: string)
    requires CarriesRequest(event, req) && req.productId !in products
    ensures Admit(products, orders, event, orderId)
         == Outcome(Response(400, Message("Invalid productId")), products, orders)
  {
  }

  /**
   * A quantity that is not positive or exceeds the stock is answered 400
   * "Insufficient stock" and nothing is written.
   */
  lemma InsufficientStockRejected(products: map<string, Product>, orders: map<string, Order>,
                                  event: OrderEvent, req: OrderRequest, orderId: string)
    requires CarriesRequest(event, req) && req.productId in products
    requires req.qty <= 0 || req.qty > StockOf(products[req.productId])
    ensures Admit(products, orders, event, orderId)
         == Outcome(Response(400, Message("Insufficient stock")), products, orders)
  {
  }

  /** A product item without a stock attribute admits no order at all. */
  lemma MissingStockAdmitsNothing(products: map<string, Product>, orders: map<string, Order>,
                                  event: OrderEvent, req: OrderRequest, orderId: string)
    requires CarriesRequest(event, req) && req.productId in products
    requires products[req.productId].stock.None?
    ensures Admit(products, orders, event, orderId).response == Response(400, Message("Insufficient stock"))
  {
  }

  /** A call is accepted exactly when the product is known and 0 < qty <= stock. */
  lemma AcceptedIff(products: map<string, Product>, orders: map<string, Order>,
                    event: OrderEvent, req: OrderRequest, orderId: string)
    requires CarriesRequest(event, req)
    ensures Admit(products, orders, event, orderId).response.statusCode == 201 <==>
              req.productId in products && 0 < req.qty <= StockOf(products[req.productId])
  {
  }

  /**
   * An accepted call answers 201 with the order it adds: one new item under
   * the fresh id, with the request's product, quantity and customer and
   * status CREATED; every order that was there before is unchanged.
   */
  lemma AcceptedAddsOneOrder(products: map<string, Product>, orders: map<string, Order>,
                             event: OrderEvent, req: OrderRequest, orderId: string)
    requires CarriesRequest(event, req) && req.productId in products
    requires 0 < req.qty <= StockOf(products[req.productId])
    requires orderId !in orders
    ensures var r := Admit(products, orders, event, orderId);
      && r.response == Response(201, OrderItem(Order(orderId, req.productId, req.qty, req.customer, CREATED)))
      && r.orders.Keys == orders.Keys + {orderId}
      && |r.orders| == |orders| + 1
      && r.orders[orderId] == r.response.body.order
      && (forall k :: k in orders ==> r.orders[k] == orders[k])
  {
  }

  /**
   * An accepted call lowers the ordered product's stock by exactly qty, to a
   * value that is still non-negative, and changes no other product.
   */
  lemma AcceptedDecrementsStock(products: map<string, Product>, orders: map<string, Order>,
                                event: OrderEvent, req: OrderRequest, orderId: string)
    requires CarriesRequest(event, req) && req.productId in products
    requires 0 < req.qty <= StockOf(products[req.productId])
    ensures var r := Admit(products, orders, event, orderId);
      && StockOf(r.products[req.productId]) == StockOf(products[req.productId]) - req.qty >= 0
      && r.products[req.productId].name == products[req.productId].name
      && r.products[req.productId].price == products[req.productId].price
      && (forall k :: k in products && k != req.productId ==> r.products[k] == products[k])
  {
  }
}
