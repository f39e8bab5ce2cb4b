/**
 * The monolith's product model (`models/product.js`): a products table keyed
 * by id, a fixed five-product sample catalogue that reads fall back to, a
 * merging update, and seeding of an empty table.  Prices are in cents.
 */
module Catalog {
  import opened Wrappers

  datatype Product = Product(id: int, name: string, price: int, description: string, image: string, stock: int)

  /** The fields an `updateProduct` call overwrites; `None` keeps the stored value. */
  datatype ProductUpdate = ProductUpdate(
    id: Option<int>, name: Option<string>, price: Option<int>,
    description: Option<string>, image: Option<string>, stock: Option<int>)

  /** What `updateProduct` reports: the merged record, `null` for an absent id, or a rethrown store error. */
  datatype Written = Updated(product: Product) | NotStored | StoreFailed

  /** The default `Limit` a scan of the table is given. */
  const ScanLimit := 1000

  /** The `{ stock: newStock }` update the cart controller sends. */
  function StockUpdate(stock: int): ProductUpdate
  {
    ProductUpdate(None, None, None, None, None, Some(stock))
  }

  /** The built-in catalogue. */
  const SampleProducts: seq<Product> :=
    [
      Product(1, "Smartphone X12 Pro", 69999,
        "Experience the future with our flagship X12 Pro smartphone.",
        "/images/smartphone.jpg", 50),
      Product(2, "UltraBook Pro 16", 129999,
        "Meet the UltraBook Pro 16 - the ultimate productivity powerhouse.",
        "/images/laptop.jpg", 30),
      Product(3, "SoundWave Elite Headphones", 19999,
        "Immerse yourself in audio perfection with SoundWave Elite wireless headphones.",
        "/images/headphones.jpg", 100),
      Product(4, "FitTech Pro Smartwatch", 24999,
        "Transform your fitness journey with the FitTech Pro Smartwatch.",
        "/images/smartwatch.jpg", 45),
      Product(5, "SlimTab Ultra", 49999,
        "Unleash your creativity with the SlimTab Ultra.",
        "/images/tablet.jpg", 25)
    ]

  /** The built-in catalogue holds five products with ids 1..5 and no negative price or stock. */
  lemma SampleFacts()
    ensures |SampleProducts| == 5
    ensures forall i :: 0 <= i < 5 ==>
      SampleProducts[i].id == i + 1 && SampleProducts[i].price >= 0 && SampleProducts[i].stock >= 0
  {
  }

  /** `ps.find(p => p.id === id)`. */
  function FindById(ps: seq<Product>, id: int): (r: Option<Product>)
    ensures r.Some? ==> r.value in ps && r.value.id == id
    ensures r.None? <==> forall i :: 0 <= i < |ps| ==> ps[i].id != id
  {
    if |ps| == 0 then None
    else if ps[0].id == id then Some(ps[0])
    else FindById(ps[1..], id)
  }

  /** In a list whose ids run consecutively from `first`, `find` answers by position. */
  lemma {:induction false} FindConsecutive(ps: seq<Product>, first: int, id: int)
    requires forall i :: 0 <= i < |ps| ==> ps[i].id == first + i
    ensures FindById(ps, id) == if first <= id < first + |ps| then Some(ps[id - first]) else None
  {
    if |ps| > 0 && ps[0].id != id {
      FindConsecutive(ps[1..], first + 1, id);
    }
  }

  /** `sampleProducts.find(p => p.id === id)` answers exactly the ids 1..5, each with its own entry. */
  lemma SampleLookup(id: int)
    ensures FindById(SampleProducts, id) == SampleEntry(id)
  {
    SampleFacts();
    FindConsecutive(SampleProducts, 1, id);
  }

  /** The sample catalogue as a table: the records `initializeProducts` writes. */
  function SampleTable(): (m: map<int, Product>)
    ensures m.Keys == {1, 2, 3, 4, 5}
    ensures KeyedById(m)
    ensures forall id :: id in m ==> m[id] == SampleProducts[id - 1]
  {
    var s := SampleProducts;
    map[1 := s[0], 2 := s[1], 3 := s[2], 4 := s[3], 5 := s[4]]
  }

  /** Every record is stored under its own id. */
  predicate KeyedById(products: map<int, Product>)
  {
    forall id :: id in products ==> products[id].id == id
  }

  /**
   * `rows` is one page of a scan of the table: at most 1000 distinct stored
   * records, possibly fewer when the page reaches 1 MB, and at least one when
   * the table is not empty.
   */
  predicate IsScanOf(rows: seq<Product>, products: map<int, Product>)
  {
    && |rows| <= ScanLimit
    && (|products| > 0 ==> |rows| > 0)
    && (forall i :: 0 <= i < |rows| ==> rows[i].id in products && products[rows[i].id] == rows[i])
    && (forall i, j :: 0 <= i < j < |rows| ==> rows[i].id != rows[j].id)
  }

  /** The sample catalogue's entry for `id`, if it has one. */
  function SampleEntry(id: int): Option<Product>
  {
    if 1 <= id <= 5 then Some(SampleProducts[id - 1]) else None
  }

  /** A store read of product `id` that succeeded: the stored record, else the sample one. */
  function Lookup(products: map<int, Product>, id: int): (r: Option<Product>)
    ensures id in products ==> r == Some(products[id])
    ensures id !in products ==> r == SampleEntry(id)
  {
    if id in products then Some(products[id]) else SampleEntry(id)
  }

  /** `{ ...product, ...updates }`. */
  function Merge(p: Product, u: ProductUpdate): Product
  {
    Product(u.id.GetOr(p.id), u.name.GetOr(p.name), u.price.GetOr(p.price),
            u.description.GetOr(p.description), u.image.GetOr(p.image), u.stock.GetOr(p.stock))
  }

  /** A stock-only update changes the stock and nothing else. */
  lemma MergeStock(p: Product, s: int)
    ensures Merge(p, StockUpdate(s)) == p.(stock := s)
  {
  }

  /** Applying the same update twice is the same as applying it once. */
  lemma MergeIdempotent(p: Product, u: ProductUpdate)
    ensures Merge(Merge(p, u), u) == Merge(p, u)
  {
  }

  /** `updateProduct(id, updates)` on the table `products`: the report and the new table. */
  function UpdateSpec(products: map<int, Product>, id: int, u: ProductUpdate, fault: bool): (r: (Written, map<int, Product>))
    ensures r.0.Updated? <==> !fault && id in products
    ensures r.0.Updated? ==> r.0.product == Merge(products[id], u)
    ensures r.0.Updated? ==> r.1.Keys == products.Keys + {r.0.product.id} && r.1[r.0.product.id] == r.0.product
    ensures !r.0.Updated? ==> r.1 == products
    ensures forall k :: k in products && !(r.0.Updated? && k == r.0.product.id) ==> r.1[k] == products[k]
    ensures KeyedById(products) ==> KeyedById(r.1)
  {
    if fault then (StoreFailed, products)
    else if id in products then
      var m := Merge(products[id], u);
      (Updated(m), products[m.id := m])
    else (NotStored, products)
  }

  /** The table after a stock-only write: a stored record gets the new stock; an absent id changes nothing. */
  function Restock(products: map<int, Product>, id: int, stock: int): map<int, Product>
  {
    if id in products then products[id := products[id].(stock := stock)] else products
  }

  /** On a table keyed by id, `updateProduct(id, { stock })` is exactly that stock-only write. */
  lemma UpdateStock(products: map<int, Product>, id: int, s: int)
    requires KeyedById(products)
    ensures UpdateSpec(products, id, StockUpdate(s), false).1 == Restock(products, id, s)
  {
    if id in products {
      MergeStock(products[id], s);
    }
  }

  class ProductStore {
    var products: map<int, Product>

    ghost predicate Valid()
      reads this
    {
      KeyedById(products)
    }

    constructor (initial: map<int, Product>)
      requires KeyedById(initial)
      ensures Valid() && products == initial
    {
      products := initial;
    }

    /** `initializeProducts`: seed the sample catalogue into an empty table; a store error is logged and ignored. */
    method InitializeProducts(fault: bool)
      requires Valid()
      modifies this
      ensures Valid()
      ensures products == if !fault && |old(products)| == 0 then SampleTable() else old(products)
    {
      if fault {
        return;
      }
      if |products| == 0 {
        products := SampleTable();
      }
    }

    /** `getAllProducts`: the scanned rows, or the sample catalogue when the table is empty or the scan fails. */
    function GetAllProducts(rows: seq<Product>, fault: bool): (r: seq<Product>)
      reads this
      requires IsScanOf(rows, products)
      ensures |r| > 0
      ensures !fault && |products| > 0 ==> r == rows
      ensures fault || |products| == 0 ==> r == SampleProducts
    {
      if fault then SampleProducts
      else if |rows| > 0 then
        assert rows[0].id in products;
        rows
      else SampleProducts
    }

    /** `getProductById`: the stored record, else the sample one; a failed read answers from the samples. */
    function GetProductById(id: int, fault: bool): (r: Option<Product>)
      reads this
      requires Valid()
      ensures !fault && id in products ==> r == Some(products[id])
      ensures fault || id !in products ==> r == SampleEntry(id)
      ensures r.Some? ==> r.value.id == id
      ensures r.None? <==> (fault || id !in products) && !(1 <= id <= 5)
    {
      SampleLookup(id);
      if fault then FindById(SampleProducts, id) else if id in products then Some(products[id]) else FindById(SampleProducts, id)
    }

    /** `updateProduct`: merge `updates` into the stored record and write it back. */
    method UpdateProduct(id: int, updates: ProductUpdate, fault: bool) returns (w: Written)
      requires Valid()
      modifies this
      ensures Valid()
      ensures (w, products) == UpdateSpec(old(products), id, updates, fault)
    {
      if fault {
        return StoreFailed;
      }
      if id in products {
        var merged := Merge(products[id], updates);
        products := products[merged.id := merged];
        return Updated(merged);
      }
      return NotStored;
    }
  }
}
