# farmacia-aws: order admission and catalog, modelled in Dafny

The repository is two AWS Lambda handlers over two DynamoDB tables. The
products table holds items with an id, a name, a price and a stock count. The
orders table holds items with an id, a product id, a quantity, a customer and
a status.

- The **order handler** (`order_handler.handler`) accepts a POST whose body
  names a product, a quantity (default 1) and a customer. It refuses an
  unknown product, a quantity that is not positive and a quantity larger than
  the stock. Otherwise it writes an order with status `CREATED` under a fresh
  id, then subtracts the quantity from the product's stock. Its status codes
  are 405, 400, 201 and 500.
- The **catalog handler** (`catalog_handler.handler`) first seeds the
  products table with three demo products when it is empty. It then answers a
  GET under `/products` with the product named by the `id` path parameter
  (404 if it is not stored), or with every product when there is no `id`.
  Anything else gets 400.

The model:

- `records.dfy` (module `Records`): the items, the response bodies, and the
  two tables as classes `ProductTable` and `OrderTable`. Each class has one
  `map` field that the handlers reassign.
- `order_handler.dfy` (module `OrderHandler`): `Admit` is the effect of one
  call on both tables, as a function of the tables before the call.
  `HandleOrder` runs the same steps one store call at a time on the two table
  objects (put the order, then decrement the stock) and is proved equal to
  `Admit`. Lemmas state each branch of the handler.
- `order_runs.dfy` (module `OrderRuns`): sequences of calls, each on the
  tables the previous call left. It proves that stock never goes negative,
  that every accepted quantity leaves the stock exactly once, that there is no
  oversell, and, given fresh and distinct order ids, that every accepted order
  is recorded.
- `catalog_handler.dfy` (module `CatalogHandler`): seeding as a spec function
  `Seeded` and as the loop `SeedIfEmpty` that writes the demo items one by one.
  Routing is the pure function `Route`. `Handle` seeds, then routes.

Inputs the model takes as parameters:

- The fresh order id that `uuid.uuid4()` would draw is a parameter of each call.
- The request body arrives already decoded. A failing `json.loads` or a
  failing `int(...)` is an input value that carries the exception's message.
- A missing key fails with Python's `KeyError` text, such as `'productId'`.

Points worth knowing about the code, which the model follows:

- The code looks the product up before it checks the quantity. It answers a
  non-positive quantity with the same "Insufficient stock" message as a
  quantity above the stock. There is no separate invalid-quantity error.
- The code writes the order first and then subtracts the stock
  unconditionally. It has no conditional update and no retry.
- The code seeds the catalog at the start of every catalog call.

A product item without a `stock` attribute counts as stock 0, as the code's
`prod.get("stock", 0)` does. Such an item therefore admits no order.

## Model

| member | source | states |
|---|---|---|
| `OrderHandler.ReadRequest` | farmacia-aws/src/lambda/order_handler.py:19-22 | The body is read as productId, qty, customer, in that order, and the first failure wins. An undecodable body fails with the decoder's message. A missing or empty body, or one without productId, fails with `'productId'` (Python's `KeyError` text, built by `KeyErrorText`). With productId present, a qty that `int` refuses fails with its own message, before customer is looked up. With productId and a readable qty, a missing customer fails with `'customer'`. Reading succeeds exactly when none of these happens, and the request then carries the fields, with qty 1 when qty is absent. |
| `OrderHandler.Decremented` | farmacia-aws/src/lambda/order_handler.py:44-48 | `SET stock = stock - :q` applies only to an item that has a stock attribute, and the result has one too. It lowers the stock by exactly q and keeps the id, name and price. |
| `OrderHandler.Admit` | farmacia-aws/src/lambda/order_handler.py:13-52 | The stock read is `StockOf`, which is 0 for an item without a stock attribute. One call never adds or removes a product. A response other than 201 leaves both tables unchanged. A 201 returns an order with the fresh id and adds exactly that order under that id. Stock that was non-negative for every product stays non-negative. Both tables stay keyed by item id. |
| `OrderHandler.HandleOrder` | farmacia-aws/src/lambda/order_handler.py:13-52 | Running the handler step by step (the product read, the guards, `put_item`, then `update_item`) gives `Admit`'s response and tables. It keeps stock non-negative and both tables keyed by id. |
| `OrderHandler.NonPostRejected` | farmacia-aws/src/lambda/order_handler.py:14-16 | A method other than POST gets 405 "Method Not Allowed" and both tables are unchanged. |
| `OrderHandler.MissingMethodIsPost` | farmacia-aws/src/lambda/order_handler.py:14 | An event without a method is handled exactly as a POST. |
| `OrderHandler.QtyDefaultsToOne` | farmacia-aws/src/lambda/order_handler.py:21 | A body without qty is handled exactly as one with qty 1. |
| `OrderHandler.UnreadableBodyFails` | farmacia-aws/src/lambda/order_handler.py:18-22 | A POST whose body cannot be read gets 500 with the first exception's message. Neither table is written. |
| `OrderHandler.UnknownProductRejected` | farmacia-aws/src/lambda/order_handler.py:25-27 | An unknown productId gets 400 "Invalid productId". No order is written and no stock changes. |
| `OrderHandler.InsufficientStockRejected` | farmacia-aws/src/lambda/order_handler.py:29-31 | qty <= 0 or qty above the product's stock gets 400 "Insufficient stock" with no write. |
| `OrderHandler.MissingStockAdmitsNothing` | farmacia-aws/src/lambda/order_handler.py:29-31 | A product without a stock attribute counts as stock 0, so every order for it gets 400 "Insufficient stock". |
| `OrderHandler.AcceptedIff` | farmacia-aws/src/lambda/order_handler.py:25-31 | A readable POST is accepted (201) if and only if the product is stored and 0 < qty <= stock. |
| `OrderHandler.AcceptedAddsOneOrder` | farmacia-aws/src/lambda/order_handler.py:33-50 | An accepted call with a fresh id answers 201. The body is the order (fresh id, productId, qty, customer, CREATED). That order is the one new item of the orders table, and every earlier order is unchanged. |
| `OrderHandler.AcceptedDecrementsStock` | farmacia-aws/src/lambda/order_handler.py:30-48 | An accepted call lowers the ordered product's stock by exactly qty, to a value that is still >= 0. Its name and price are kept and no other product changes. |
| `OrderRuns.RunCalls` | farmacia-aws/src/lambda/order_handler.py:13-52 | A sequence of calls handled one after another gives one response per call and never changes the set of products. |
| `OrderRuns.AdmitConservesStock` | farmacia-aws/src/lambda/order_handler.py:29-48 | For every product, one call's stock after plus the quantity its response reports as ordered equals the stock before. That quantity is never negative. Stock below 0 admits nothing. |
| `OrderRuns.RunKeepsStockNonNegative` | farmacia-aws/src/lambda/order_handler.py:29-48 | Across any sequence of calls, if every product's stock was >= 0 at the start, it is >= 0 at the end. |
| `OrderRuns.RunConservesStock` | farmacia-aws/src/lambda/order_handler.py:29-48 | Across any sequence of calls, a product's final stock plus the quantities of its accepted orders equals its initial stock. Each accepted order is decremented exactly once. |
| `OrderRuns.RunStockFloor` | farmacia-aws/src/lambda/order_handler.py:29-48 | Across any sequence of calls, stock never rises. Stock that starts >= 0 ends >= 0. Stock that starts below 0 admits no order. |
| `OrderRuns.NoOversell` | farmacia-aws/src/lambda/order_handler.py:29-48 | Across any sequence of calls, the accepted quantities for a product add up to at most its initial stock, or to 0 if that stock is negative. |
| `OrderRuns.RunRecordsAcceptedOrders` | farmacia-aws/src/lambda/order_handler.py:33-41 | With fresh, distinct ids, the final orders table keeps every earlier order. It holds each accepted response's order under its call's id, and no rejected call's id appears in it. |
| `OrderRuns.DrainThenRefuse` | farmacia-aws/src/lambda/order_handler.py:29-48 | With stock 100, an order of 100 is accepted and leaves stock 0. A following order of 1 gets 400 "Insufficient stock". |
| `OrderRuns.TwoOfSixty` | farmacia-aws/src/lambda/order_handler.py:29-48 | With stock 100, two orders of 60 in a row: the first is accepted and the second is refused, leaving stock 40. |
| `CatalogHandler.PutAll` | farmacia-aws/src/lambda/catalog_handler.py:22-24 | Batch-putting items keeps every existing key and stores every item's id. Each stored value is either one of the items or the one already there. A table keyed by id stays keyed. Which value wins is stated by the next two rows. |
| `CatalogHandler.PutAllKeepsOthers` | farmacia-aws/src/lambda/catalog_handler.py:22-24 | A key that no item of the batch names keeps the value it had. |
| `CatalogHandler.PutAllLastWins` | farmacia-aws/src/lambda/catalog_handler.py:22-24 | The last item of the batch put under an id is the one stored under that id. |
| `CatalogHandler.SeedItemsTable` | farmacia-aws/src/lambda/catalog_handler.py:17-24 | Putting the three demo items into an empty table gives exactly products "1", "2" and "3" with their names, prices and stocks 100, 80 and 50. |
| `CatalogHandler.Seeded` | farmacia-aws/src/lambda/catalog_handler.py:13-24 | An empty table becomes exactly the three demo products of `SEED_ITEMS` (ids "1", "2", "3", stocks 100, 80, 50). A non-empty table is unchanged. No existing product is ever changed, the result is never empty, and keys and non-negative stock are kept. |
| `CatalogHandler.SeedIfEmpty` | farmacia-aws/src/lambda/catalog_handler.py:13-24 | The emptiness check and the put loop leave the products table equal to `Seeded` of the old one. |
| `CatalogHandler.Route` | farmacia-aws/src/lambda/catalog_handler.py:29-47 | The answer is 200, 400 or 404. A 200 carries either a stored product or exactly the set of all stored products. A 404 carries "Not found" and a 400 carries "Bad Request". |
| `CatalogHandler.Handle` | farmacia-aws/src/lambda/catalog_handler.py:26-47 | The handler's only write is seeding. No existing product changes, and the response is `Route` of the seeded table. In a table keyed by id, a by-id answer carries the product with the requested id. |
| `CatalogHandler.GetByIdFound` | farmacia-aws/src/lambda/catalog_handler.py:33-40 | A GET under "/products" with a stored `id` gets 200 and the item stored under that id. In a keyed table that item's id is the requested one. |
| `CatalogHandler.GetByIdMissing` | farmacia-aws/src/lambda/catalog_handler.py:33-39 | A GET under "/products" with an `id` that is not stored gets 404 "Not found". |
| `CatalogHandler.ListAll` | farmacia-aws/src/lambda/catalog_handler.py:42-45 | A GET under "/products" without an `id` gets 200 and every stored product. |
| `CatalogHandler.BadRequestIff` | farmacia-aws/src/lambda/catalog_handler.py:33-47 | The answer is 400 "Bad Request" exactly when the method is not GET or the path does not start with "/products". |
| `CatalogHandler.RouteDefaults` | farmacia-aws/src/lambda/catalog_handler.py:29-31 | A missing method is GET, a missing path is "/products" and missing path parameters are none. |
| `CatalogHandler.SeedIdempotent` | farmacia-aws/src/lambda/catalog_handler.py:15-16 | Seeding twice gives the same table as seeding once. |

## Left out

- The boto3 client, the environment variables and the module-level table handles are replaced by the two table objects.
- JSON decoding and encoding and `DecimalEncoder` are left out. Bodies are values of `Body`. The price is an opaque `real` and is not converted to a float.
- `int(...)` on arbitrary values (strings, floats, booleans) is not modelled. A qty is either an already-converted integer or a conversion failure with its message.
- `uuid.uuid4()` is not modelled. The fresh id is a parameter, and the lemmas that need it new say so in their `requires`.
- Concurrent invocations are not modelled; every property is about calls handled one after another. Between the stock check and the unconditional decrement the code holds nothing, so two interleaved calls could both pass the check and drive stock below 0. The model does not capture this.
- Store failures are not modelled: a `get_item`, `put_item` or `update_item` that raises, which the handler turns into 500. This includes a failure after the order is written but before the stock is decremented. The model keeps that order of the two writes.
- `CatalogHandler.SeedIfEmpty`, `CatalogHandler.Handle`: every store call of the catalog handler (the seeding scan and batch write, `get_item`, `scan`) is assumed to succeed. The handler has no `try`, so a failing call would end the invocation with an error and no response; this is not modelled. The demo items carry Python float prices, and boto3's DynamoDB serializer refuses floats (it asks for `Decimal`) when the batch writer flushes. So seeding an empty table may, as written, raise and store nothing. This is a reading of library behaviour, not executed; the model treats prices as opaque values and lets seeding succeed.
- An empty-string productId: DynamoDB refuses an empty key, so `get_item` raises and the handler answers 500; the model answers 400 "Invalid productId".
- A body that decodes to JSON that is not an object (`null`, `[]`, `5`) raises `TypeError` at `body["productId"]`; the model folds this into `Unparsable`, whose message is the exception's.
- Scan pagination, the `Limit=1` emptiness probe (modelled as "the table has no item") and the event envelope beyond method, path, path parameters and body are not modelled.
- `CatalogHandler.Route`: the list answer is the set of stored items, because a scan returns items in no order this model fixes.
- `update_item` creating an item that does not exist is not modelled; the handler only updates a product it has just read.
