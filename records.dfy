/**
 * The records the two Lambda handlers exchange with their DynamoDB tables and
 * with API Gateway, and the two tables themselves.
 *
 * Each table is a map from the item's key (its "id" attribute) to the item.
 * JSON encoding and decoding are not modelled: request bodies arrive already
 * decoded and response bodies are values of `Body`.
 */
module Records {

  datatype Option<+T> = None | Some(value: T)
  {
    /** The value, or `default` when absent (Python's `dict.get(key, default)`). */
    function GetOr(default: T): T {
      match this
      case Some(v) => v
      case None => default
    }
  }

  /** A computation that either yields a value or raises an exception with a message. */
  datatype Result<+T> = Success(value: T) | Failure(error: string)

  /**
   * An item of the products table. `price` is carried along untouched; `stock`
   * is `None` when the item has no stock attribute.
   */
  datatype Product = Product(id: string, name: string, price: real, stock: Option<int>)

  /** An item of the orders table. */
  datatype Order = Order(id: string, productId: string, qty: int, customer: string, status: string)

  const CREATED := "CREATED"

  /** The JSON value a handler puts in the response body. */
  datatype Body =
    | Message(text: string)             // {"message": text}
    | OrderItem(order: Order)           // the order item just written
    | ProductItem(product: Product)     // one products-table item
    | ProductItems(items: set<Product>) // every item a scan returns, in no particular order

  datatype Response = Response(statusCode: int, body: Body)

  /** The stock the order handler reads from a product item: `int(prod.get("stock", 0))`. */
  function StockOf(p: Product): int {
    p.stock.GetOr(0)
  }

  /** Every product item is stored under its own id. */
  ghost predicate ProductsKeyed(m: map<string, Product>) {
    forall k :: k in m ==> m[k].id == k
  }

  /** Every order item is stored under its own id. */
  ghost predicate OrdersKeyed(m: map<string, Order>) {
    forall k :: k in m ==> m[k].id == k
  }

  /** No product in the table has negative stock. */
  ghost predicate StockNonNegative(m: map<string, Product>) {
    forall k :: k in m ==> StockOf(m[k]) >= 0
  }

  /** The products table (`PRODUCTS_TABLE`), keyed by product id. */
  class ProductTable {
    var items: map<string, Product>

    ghost predicate Valid()
      reads this
    {
      ProductsKeyed(items)
    }
  }

  /** The orders table (`ORDERS_TABLE`), keyed by order id. */
  class OrderTable {
    var items: map<string, Order>

    ghost predicate Valid()
      reads this
    {
      OrdersKeyed(items)
    }
  }
}
