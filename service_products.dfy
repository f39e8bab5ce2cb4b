/**
 * The product service's model (`services/product-service/models/product.js`):
 * a products table keyed by id, seeded with five samples when empty, read
 * with `null` on store errors, written by `createProduct` and by a stock-only
 * `updateProduct`.  Prices are in cents; clock readings are parameters.
 */
module ProductService {
  import opened Wrappers

  /** The descriptive fields of a product; a record created by an update has none. */
  datatype Details = Details(name: string, price: int, description: string, image: string)

  datatype ServiceProduct = ServiceProduct(
    id: int, details: Option<Details>, stock: int, createdAt: Option<int>, updatedAt: Option<int>)

  /** The body a caller gives `createProduct`; `id` is optional. */
  datatype ProductData = ProductData(id: Option<int>, details: Option<Details>, stock: int)

  datatype UpdateResult = Updated(product: ServiceProduct) | UpdateFailed

  /** Every record is stored under its own id. */
  predicate KeyedById(products: map<int, ServiceProduct>)
  {
    forall id :: id in products ==> products[id].id == id
  }

  /** The five seed products, each stamped with creation time `now`. */
  function SeedProducts(now: int): (s: seq<ServiceProduct>)
    ensures |s| == 5
    ensures forall i :: 0 <= i < |s| ==>
      s[i].id == i + 1 && s[i].stock >= 0 && s[i].details.Some? && s[i].createdAt == Some(now) && s[i].updatedAt.None?
  {
    [
      ServiceProduct(1, Some(Details("Laptop", 99999, "High-performance laptop", "/images/laptop.jpg")), 10, Some(now), None),
      ServiceProduct(2, Some(Details("Smartphone", 69999, "Latest smartphone", "/images/smartphone.jpg")), 15, Some(now), None),
      ServiceProduct(3, Some(Details("Headphones", 19999, "Wireless headphones", "/images/headphones.jpg")), 20, Some(now), None),
      ServiceProduct(4, Some(Details("Tablet", 39999, "Portable tablet", "/images/tablet.jpg")), 12, Some(now), None),
      ServiceProduct(5, Some(Details("Smartwatch", 29999, "Fitness smartwatch", "/images/smartwatch.jpg")), 8, Some(now), None)
    ]
  }

  /** A run of `put`s, in order: each replaces the record under its id. */
  function PutAll(products: map<int, ServiceProduct>, rows: seq<ServiceProduct>): map<int, ServiceProduct>
  {
    if |rows| == 0 then products
    else PutAll(products, rows[..|rows| - 1])[rows[|rows| - 1].id := rows[|rows| - 1]]
  }

  /** How many seed `put`s complete when the one at index `failingPut` (if any) throws. */
  function SeedPuts(failingPut: Option<nat>): nat
  {
    if failingPut.Some? && failingPut.value < 5 then failingPut.value else 5
  }

  /**
   * `initializeProducts`: a failed scan or a non-empty table writes nothing;
   * otherwise the samples are put in order until one put throws.
   */
  function Seeded(products: map<int, ServiceProduct>, now: int, scanFault: bool, failingPut: Option<nat>): map<int, ServiceProduct>
  {
    if scanFault || |products| > 0 then products
    else PutAll(products, SeedProducts(now)[..SeedPuts(failingPut)])
  }

  /** Putting distinct-id rows into an empty table stores exactly those rows under their ids. */
  lemma {:induction false} PutAllDistinct(rows: seq<ServiceProduct>)
    requires forall i, j :: 0 <= i < j < |rows| ==> rows[i].id != rows[j].id
    ensures forall id :: id in PutAll(map[], rows) <==> exists i :: 0 <= i < |rows| && rows[i].id == id
    ensures forall i :: 0 <= i < |rows| ==> PutAll(map[], rows)[rows[i].id] == rows[i]
  {
    if |rows| > 0 {
      var front := rows[..|rows| - 1];
      PutAllDistinct(front);
      assert forall i :: 0 <= i < |front| ==> front[i] == rows[i];
    }
  }

  /**
   * Seeding an empty table with no failure stores the five samples under ids
   * 1..5; a put failing at index k leaves exactly ids 1..k; a non-empty table
   * or a failed scan is left as it was.
   */
  lemma SeedContents(products: map<int, ServiceProduct>, now: int, scanFault: bool, failingPut: Option<nat>)
    ensures scanFault || |products| > 0 ==> Seeded(products, now, scanFault, failingPut) == products
    ensures !scanFault && |products| == 0 ==>
      var t := Seeded(products, now, scanFault, failingPut);
      && (forall id :: id in t <==> 1 <= id <= SeedPuts(failingPut))
      && (forall id :: id in t ==> t[id] == SeedProducts(now)[id - 1])
  {
    if !scanFault && |products| == 0 {
      var s := SeedProducts(now);
      var rows := s[..SeedPuts(failingPut)];
      assert products == map[];
      PutAllDistinct(rows);
      var t := PutAll(map[], rows);
      forall id | id in t
        ensures 1 <= id <= SeedPuts(failingPut) && t[id] == s[id - 1]
      {
        var i :| 0 <= i < |rows| && rows[i].id == id;
      }
      forall id | 1 <= id <= SeedPuts(failingPut)
        ensures id in t
      {
        assert rows[id - 1].id == id;
      }
    }
  }

  /**
   * A scan of the whole products table (`getAllProducts` sets no limit):
   * every stored record once, each as stored.
   */
  predicate IsProductScan(rows: seq<ServiceProduct>, products: map<int, ServiceProduct>)
  {
    && (forall i :: 0 <= i < |rows| ==> rows[i].id in products && products[rows[i].id] == rows[i])
    && (forall i, j :: 0 <= i < j < |rows| ==> rows[i].id != rows[j].id)
    && (forall id :: id in products ==> exists i :: 0 <= i < |rows| && rows[i].id == id)
  }

  /** `createProduct`: a clock id unless the data carries one, the data's fields, and a creation stamp. */
  function NewProduct(data: ProductData, now: int): (p: ServiceProduct)
    ensures p.id == (if data.id.Some? then data.id.value else now)
    ensures p.details == data.details && p.stock == data.stock
    ensures p.createdAt == Some(now) && p.updatedAt.None?
  {
    ServiceProduct(data.id.GetOr(now), data.details, data.stock, Some(now), None)
  }

  /** The attribute-name placeholders `updateProduct`'s expression uses. */
  const UsedNames: set<string> := {"#stock"}

  /**
   * An `UpdateItem` that sets `stock` and `updatedAt` on `id`, with the
   * expression's placeholder definitions `names`.  The store rejects an
   * expression that uses an undefined placeholder; otherwise it writes the
   * two attributes, creating a bare record when `id` is absent.
   */
  function ApplyStockUpdate(
    products: map<int, ServiceProduct>, id: int, stock: int, now: int, fault: bool, names: map<string, string>
  ): (UpdateResult, map<int, ServiceProduct>)
  {
    if fault || !(UsedNames <= names.Keys) then (UpdateFailed, products)
    else
      var rec := if id in products then products[id].(stock := stock, updatedAt := Some(now))
                 else ServiceProduct(id, None, stock, None, Some(now));
      (Updated(rec), products[id := rec])
  }

  /** `updateProduct` as written: `#stock` is used but no placeholder is defined. */
  function UpdateAsWritten(products: map<int, ServiceProduct>, id: int, stock: int, now: int, fault: bool): (UpdateResult, map<int, ServiceProduct>)
  {
    ApplyStockUpdate(products, id, stock, now, fault, map[])
  }

  /** As written, every stock update is rejected and the table never changes. */
  lemma UpdateAsWrittenAlwaysFails(products: map<int, ServiceProduct>, id: int, stock: int, now: int, fault: bool)
    ensures UpdateAsWritten(products, id, stock, now, fault) == (UpdateFailed, products)
  {
    assert "#stock" in UsedNames;
  }

  /** `updateProduct` with `#stock` defined as `stock`, the update the rest of the model uses. */
  function UpdateSpec(products: map<int, ServiceProduct>, id: int, stock: int, now: int, fault: bool): (UpdateResult, map<int, ServiceProduct>)
  {
    ApplyStockUpdate(products, id, stock, now, fault, map["#stock" := "stock"])
  }

  /**
   * The corrected update succeeds unless the store fails, sets exactly `stock`
   * and `updatedAt` of record `id` (a bare record when absent) and leaves every
   * other field and every other record as it was.
   */
  lemma UpdateSetsStockOnly(products: map<int, ServiceProduct>, id: int, stock: int, now: int, fault: bool)
    requires KeyedById(products)
    ensures KeyedById(UpdateSpec(products, id, stock, now, fault).1)
    ensures var (r, t) := UpdateSpec(products, id, stock, now, fault);
      && (r.Updated? <==> !fault)
      && (fault ==> t == products)
      && (!fault ==>
           && t.Keys == products.Keys + {id}
           && r.product == t[id]
           && t[id].id == id && t[id].stock == stock && t[id].updatedAt == Some(now)
           && (id in products ==> t[id].details == products[id].details && t[id].createdAt == products[id].createdAt
                                  && t[id].id == products[id].id)
           && (id !in products ==> t[id].details.None? && t[id].createdAt.None?)
           && (forall other :: other in products && other != id ==> t[other] == products[other]))
  {
    assert UsedNames <= map["#stock" := "stock"].Keys;
  }

  /** The products table of the service. */
  class ProductTable {
    var products: map<int, ServiceProduct>

    /** Records are stored under their own id. */
    ghost predicate Valid()
      reads this
    {
      KeyedById(products)
    }

    constructor ()
      ensures products == map[] && Valid()
    {
      products := map[];
    }

    /** `getProductById`: the stored record, or nothing when absent or when the read fails. */
    function GetProductById(id: int, fault: bool): (r: Option<ServiceProduct>)
      reads this
      requires Valid()
      ensures r.Some? <==> !fault && id in products
      ensures r.Some? ==> r.value == products[id] && r.value.id == id
    {
      if fault || id !in products then None else Some(products[id])
    }

    /**
     * `getAllProducts`: every stored record exactly once; none when the scan
     * fails or yields no items, where the monolith falls back to samples.
     */
    function GetAllProducts(scanned: Option<seq<ServiceProduct>>, fault: bool): (r: seq<ServiceProduct>)
      reads this
      requires scanned.Some? ==> IsProductScan(scanned.value, products)
      ensures fault || scanned.None? ==> r == []
      ensures !fault && scanned.Some? ==> forall p: ServiceProduct :: p in r <==> p.id in products && products[p.id] == p
      ensures forall i, j :: 0 <= i < j < |r| ==> r[i].id != r[j].id
    {
      if fault || scanned.None? then []
      else
        var rows := scanned.value;
        assert forall p: ServiceProduct :: p.id in products && products[p.id] == p ==> p in rows by {
          forall p: ServiceProduct | p.id in products && products[p.id] == p
            ensures p in rows
          {
            var i :| 0 <= i < |rows| && rows[i].id == p.id;
          }
        }
        rows
    }

    method InitializeProducts(now: int, scanFault: bool, failingPut: Option<nat>)
      requires Valid()
      modifies this
      ensures Valid()
      ensures products == Seeded(old(products), now, scanFault, failingPut)
    {
      if scanFault || |products| > 0 {
        return;
      }
      var samples := SeedProducts(now);
      var i := 0;
      while i < |samples|
        invariant 0 <= i <= |samples| && i <= SeedPuts(failingPut)
        invariant products == PutAll(old(products), samples[..i])
        invariant Valid()
      {
        if failingPut == Some(i) {
          return;
        }
        products := products[samples[i].id := samples[i]];
        assert samples[..i + 1][..i] == samples[..i];
        i := i + 1;
      }
      assert samples[..i] == samples;
    }

    method CreateProduct(data: ProductData, now: int, fault: bool) returns (r: Option<ServiceProduct>)
      requires Valid()
      modifies this
      ensures Valid()
      ensures fault ==> r.None? && products == old(products)
      ensures !fault ==> r == Some(NewProduct(data, now)) && products == old(products)[r.value.id := r.value]
    {
      if fault {
        return None;
      }
      var product := NewProduct(data, now);
      products := products[product.id := product];
      r := Some(product);
    }

    method UpdateProduct(id: int, stock: int, now: int, fault: bool) returns (r: UpdateResult)
      requires Valid()
      modifies this
      ensures Valid()
      ensures (r, products) == UpdateSpec(old(products), id, stock, now, fault)
    {
      UpdateSetsStockOnly(products, id, stock, now, fault);
      var (result, table) := UpdateSpec(products, id, stock, now, fault);
      r, products := result, table;
    }
  }
}
