/**
 * The catalog Lambda (`catalog_handler.handler`): on every call it first
 * seeds the products table with three demo products if the table is empty,
 * then answers GET requests on the products path with one product or all of
 * them. It never writes to the orders table and never changes a product that
 * is already stored.
 */
module CatalogHandler {
  import opened Records

  /** What the handler reads of the API Gateway event. */
  datatype CatalogEvent = CatalogEvent(httpMethod: Option<string>, path: Option<string>,
                                       pathParameters: Option<map<string, string>>)

  /** The three demo products `seed_if_empty` writes, in the order it writes them. */
  const SEED_ITEMS: seq<Product> := [
    Product("1", "Paracetamol 750mg", 12.9, Some(100)),
    Product("2", "Dipirona 500mg", 9.5, Some(80)),
    Product("3", "Vitamina C 1g", 19.9, Some(50))
  ]

  const PRODUCTS_PATH := "/products"

  /** The table after putting each item in turn under its id; a later put replaces an earlier one. */
  function PutAll(table: map<string, Product>, items: seq<Product>): (r: map<string, Product>)
    ensures table.Keys <= r.Keys
    ensures forall i :: 0 <= i < |items| ==> items[i].id in r
    ensures forall k :: k in r ==> r[k] in items || (k in table && r[k] == table[k])
    ensures ProductsKeyed(table) ==> ProductsKeyed(r)
    decreases |items|
  {
    if items == [] then table
    else
      var last := items[|items| - 1];
      PutAll(table, items[..|items| - 1])[last.id := last]
  }

  /** A key that no item names keeps the value it had. */
  lemma {:induction false} PutAllKeepsOthers(table: map<string, Product>, items: seq<Product>, k: string)
    requires k in table
    requires forall i :: 0 <= i < |items| ==> items[i].id != k
    ensures PutAll(table, items)[k] == table[k]
    decreases |items|
  {
    if items != [] {
      var init := items[..|items| - 1];
      assert forall j :: 0 <= j < |init| ==> init[j] == items[j];
      PutAllKeepsOthers(table, init, k);
    }
  }

  /** The last item put under an id is the one stored under it. */
  lemma {:induction false} PutAllLastWins(table: map<string, Product>, items: seq<Product>, i: int)
    requires 0 <= i < |items|
    requires forall j :: i < j < |items| ==> items[j].id != items[i].id
    ensures PutAll(table, items)[items[i].id] == items[i]
    decreases |items|
  {
    if i < |items| - 1 {
      var init := items[..|items| - 1];
      assert forall j :: 0 <= j < |init| ==> init[j] == items[j];
      PutAllLastWins(table, init, i);
    }
  }

  /** The three demo items put into an empty table. */
  const SEED_TABLE := map[
    "1" := Product("1", "Paracetamol 750mg", 12.9, Some(100)),
    "2" := Product("2", "Dipirona 500mg", 9.5, Some(80)),
    "3" := Product("3", "Vitamina C 1g", 19.9, Some(50))]

  /** Writing the demo items into an empty table gives exactly the three demo products. */
  lemma SeedItemsTable()
    ensures PutAll(map[], SEED_ITEMS) == SEED_TABLE
  {
  }

  /** The products table after `seed_if_empty`. */
  function Seeded(table: map<string, Product>): (r: map<string, Product>)
    // an empty table receives exactly the three demo products
    ensures |table| == 0 ==> r == SEED_TABLE
    // a table with any item is left as it is
    ensures |table| != 0 ==> r == table
    ensures forall k :: k in table ==> k in r && r[k] == table[k]
    ensures |r| != 0
    ensures ProductsKeyed(table) ==> ProductsKeyed(r)
    ensures StockNonNegative(table) ==> StockNonNegative(r)
  {
    if |table| == 0 then
      SeedItemsTable();
      PutAll(map[], SEED_ITEMS)
    else table
  }

  /**
   * `seed_if_empty`: a scan for one item; if it finds none, the demo items are
   * written one by one through the batch writer.
   */
  method SeedIfEmpty(table: ProductTable)
    modifies table
    ensures table.items == Seeded(old(table.items))
  {
    if |table.items| == 0 {
      var items := SEED_ITEMS;
      for i := 0 to |items|
        invariant table.items == PutAll(map[], items[..i])
      {
        assert items[..i + 1][..i] == items[..i];
        table.items := table.items[items[i].id := items[i]];
      }
      assert items[..|items|] == items;
    }
  }

  /** The answer to one request, given the products table after seeding. */
  function Route(table: map<string, Product>, event: CatalogEvent): (r: Response)
    ensures r.statusCode in {200, 400, 404}
    ensures r.statusCode == 200 ==>
      (r.body.ProductItem? && r.body.product in table.Values) || r.body == ProductItems(table.Values)
    ensures r.statusCode == 404 ==> r.body == Message("Not found")
    ensures r.statusCode == 400 ==> r.body == Message("Bad Request")
  {
    var route := event.path.GetOr(PRODUCTS_PATH);
    var httpMethod := event.httpMethod.GetOr("GET");
    var pathParams := event.pathParameters.GetOr(map[]);
    if httpMethod == "GET" && PRODUCTS_PATH <= route then
      if "id" in pathParams then
        var itemId := pathParams["id"];
        if itemId !in table then Response(404, Message("Not found"))
        else Response(200, ProductItem(table[itemId]))
      else
        Response(200, ProductItems(table.Values))
    else
      Response(400, Message("Bad Request"))
  }

  /** The handler: seed, then route. */
  method Handle(table: ProductTable, event: CatalogEvent) returns (response: Response)
    modifies table
    ensures table.items == Seeded(old(table.items))
    ensures response == Route(table.items, event)
    ensures forall k :: k in old(table.items) ==> k in table.items && table.items[k] == old(table.items)[k]
    ensures old(table.Valid()) ==> table.Valid()
    // in a table keyed by id, a by-id answer carries the requested id
    ensures old(table.Valid()) && response.body.ProductItem? ==>
              IdParam(event).Some? && response.body.product.id == IdParam(event).value
  {
    SeedIfEmpty(table);
    response := Route(table.items, event);
  }

  /** A request the handler routes to the products listing (method GET, path under "/products"). */
  predicate IsProductsGet(event: CatalogEvent) {
    event.httpMethod.GetOr("GET") == "GET" && PRODUCTS_PATH <= event.path.GetOr(PRODUCTS_PATH)
  }

  /** The "id" path parameter, if the event has one. */
  function IdParam(event: CatalogEvent): Option<string> {
    var params := event.pathParameters.GetOr(map[]);
    if "id" in params then Some(params["id"]) else None
  }

  /** A GET by a stored id answers 200 with the item stored under that id. */
  lemma GetByIdFound(table: map<string, Product>, event: CatalogEvent)
    requires IsProductsGet(event) && IdParam(event).Some? && IdParam(event).value in table
    ensures Route(table, event) == Response(200, ProductItem(table[IdParam(event).value]))
    ensures ProductsKeyed(table) ==> Route(table, event).body.product.id == IdParam(event).value
  {
  }

  /** A GET by an id that is not stored answers 404 "Not found". */
  lemma GetByIdMissing(table: map<string, Product>, event: CatalogEvent)
    requires IsProductsGet(event) && IdParam(event).Some? && IdParam(event).value !in table
    ensures Route(table, event) == Response(404, Message("Not found"))
  {
  }

  /** A GET without an id answers 200 with every stored item. */
  lemma ListAll(table: map<string, Product>, event: CatalogEvent)
    requires IsProductsGet(event) && IdParam(event).None?
    ensures Route(table, event) == Response(200, ProductItems(table.Values))
    ensures forall k :: k in table ==> table[k] in Route(table, event).body.items
  {
  }

  /** Exactly the requests that are not a GET under "/products" answer 400 "Bad Request". */
  lemma BadRequestIff(table: map<string, Product>, event: CatalogEvent)
    ensures Route(table, event).statusCode == 400 <==> !IsProductsGet(event)
    ensures !IsProductsGet(event) ==> Route(table, event) == Response(400, Message("Bad Request"))
  {
  }

  /** A missing method counts as GET, a missing path as "/products", missing path parameters as none. */
  lemma RouteDefaults(table: map<string, Product>, event: CatalogEvent)
    ensures Route(table, event.(httpMethod := None)) == Route(table, event.(httpMethod := Some("GET")))
    ensures Route(table, event.(path := None)) == Route(table, event.(path := Some(PRODUCTS_PATH)))
    ensures Route(table, event.(pathParameters := None)) == Route(table, event.(pathParameters := Some(map[])))
  {
  }

  /** Seeding twice is seeding once. */
  lemma SeedIdempotent(table: map<string, Product>)
    ensures Seeded(Seeded(table)) == Seeded(table)
  {
  }
}
