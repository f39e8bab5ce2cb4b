/**
 * The cart service's request handlers
 * (`services/cart-service/controllers/cartController.js`), with the product
 * service called directly instead of over HTTP.  The cart page drops entries
 * whose product cannot be fetched; adding writes the product's stock before
 * the cart, so a cart write that then fails keeps the stock decrement;
 * updating, removing and clearing change the cart only.
 */
module CartApi {
  import opened Wrappers
  import opened CartItems
  import opened ProductService
  import opened CartModel

  /** A cart page line: the product, the quantity and `price * quantity` (no value where the source has NaN). */
  datatype ViewLine = ViewLine(product: ServiceProduct, quantity: int, itemTotal: Option<int>)

  /** The cart page: the lines, their total (no value when NaN) and their count. */
  datatype CartView = CartView(items: seq<ViewLine>, total: Option<int>, count: int)

  datatype AddResponse = AddedItems(items: seq<CartItem>) | BadRequest | ProductNotFound | InsufficientStock | ServerError

  /** A product record without a price (one an update created) multiplies to NaN. */
  function ViewLineFor(p: ServiceProduct, item: CartItem): ViewLine
  {
    ViewLine(p, item.quantity, if p.details.Some? then Some(p.details.value.price * item.quantity) else None)
  }

  /** The entries whose product fetch succeeds, in cart order. */
  function Resolvable(products: map<int, ServiceProduct>, items: seq<CartItem>): (r: seq<CartItem>)
    ensures |r| <= |items|
    ensures forall it :: it in r <==> it in items && it.productId in products
  {
    if |items| == 0 then []
    else if items[|items| - 1].productId in products then Resolvable(products, items[..|items| - 1]) + [items[|items| - 1]]
    else Resolvable(products, items[..|items| - 1])
  }

  /** When every product resolves, no entry is dropped. */
  lemma {:induction false} ResolvableAll(products: map<int, ServiceProduct>, items: seq<CartItem>)
    requires forall i :: 0 <= i < |items| ==> items[i].productId in products
    ensures Resolvable(products, items) == items
  {
    if |items| > 0 {
      ResolvableAll(products, items[..|items| - 1]);
      assert items == items[..|items| - 1] + [items[|items| - 1]];
    }
  }

  /** The running `sum + item.itemTotal`; NaN, once reached, stays NaN. */
  function ViewTotal(lines: seq<ViewLine>): Option<int>
  {
    if |lines| == 0 then Some(0)
    else match ViewTotal(lines[..|lines| - 1])
      case None => None
      case Some(t) => if lines[|lines| - 1].itemTotal.Some? then Some(t + lines[|lines| - 1].itemTotal.value) else None
  }

  /** The total is a number exactly when every line's total is. */
  lemma {:induction false} ViewTotalDefined(lines: seq<ViewLine>)
    ensures ViewTotal(lines).Some? <==> forall i :: 0 <= i < |lines| ==> lines[i].itemTotal.Some?
  {
    if |lines| > 0 {
      var front := lines[..|lines| - 1];
      ViewTotalDefined(front);
      assert forall i :: 0 <= i < |front| ==> front[i] == lines[i];
    }
  }

  /**
   * `getCart`: one line per entry whose product resolves, in cart order, each
   * with the product and `price * quantity`; the count is the number of those
   * lines and the total their sum.
   */
  function GetCartView(products: map<int, ServiceProduct>, items: seq<CartItem>): (v: CartView)
    ensures var res := Resolvable(products, items);
      && |v.items| == |res| == v.count
      && (forall i :: 0 <= i < |res| ==> res[i].productId in products && v.items[i] == ViewLineFor(products[res[i].productId], res[i]))
      && v.total == ViewTotal(v.items)
  {
    var res := Resolvable(products, items);
    var lines := seq(|res|, i requires 0 <= i < |res| => ViewLineFor(products[res[i].productId], res[i]));
    CartView(lines, ViewTotal(lines), |lines|)
  }

  /** The default quantity: 1 only when the body carries none. */
  function RequestedQuantity(quantity: Option<int>): int
  {
    quantity.GetOr(1)
  }

  /** `!productId || quantity <= 0 || quantity > 99` is false. */
  predicate ValidRequest(productId: Option<int>, quantity: Option<int>)
  {
    productId.Some? && productId.value != 0 && 0 < RequestedQuantity(quantity) <= 99
  }

  /**
   * `addToCart` on the products and carts tables: validate, fetch the product
   * (404 when absent), check stock, write `stock - quantity`, then `addItem`.
   */
  function AddSpec(
    products: map<int, ServiceProduct>, carts: map<string, seq<CartItem>>, user: string,
    productId: Option<int>, quantity: Option<int>, now: int, updateFault: bool, readFault: bool, writeFault: bool
  ): (AddResponse, map<int, ServiceProduct>, map<string, seq<CartItem>>)
  {
    if !ValidRequest(productId, quantity) then (BadRequest, products, carts)
    else
      var pid, q := productId.value, RequestedQuantity(quantity);
      if pid !in products then (ProductNotFound, products, carts)
      else if products[pid].stock < q then (InsufficientStock, products, carts)
      else
        var (u, lowered) := UpdateSpec(products, pid, products[pid].stock - q, now, updateFault);
        if u.UpdateFailed? then (ServerError, products, carts)
        else
          var read := if readFault then [] else StoredCart(carts, user);
          match AddItemSpec(read, pid, q)
          case None => (ServerError, lowered, carts)
          case Some(items) =>
            if writeFault then (ServerError, lowered, carts)
            else (AddedItems(items), lowered, carts[user := items])
  }

  /**
   * The request checks: 400 exactly for a missing or zero product id or a
   * quantity outside 1..99 (a missing quantity is 1, an explicit 0 is refused),
   * 404 exactly for a valid request naming an absent product, and no write on
   * any of these or on insufficient stock.
   */
  lemma AddChecks(
    products: map<int, ServiceProduct>, carts: map<string, seq<CartItem>>, user: string,
    productId: Option<int>, quantity: Option<int>, now: int, updateFault: bool, readFault: bool, writeFault: bool)
    ensures var (r, p, c) := AddSpec(products, carts, user, productId, quantity, now, updateFault, readFault, writeFault);
      && (r == BadRequest <==> !ValidRequest(productId, quantity))
      && (r == ProductNotFound <==> ValidRequest(productId, quantity) && productId.value !in products)
      && (r == InsufficientStock <==>
           ValidRequest(productId, quantity) && productId.value in products
           && products[productId.value].stock < RequestedQuantity(quantity))
      && (r == BadRequest || r == ProductNotFound || r == InsufficientStock ==> p == products && c == carts)
    ensures quantity.None? ==> RequestedQuantity(quantity) == 1
    ensures quantity == Some(0) ==> !ValidRequest(productId, quantity)
  {
  }

  /**
   * Once the stock write succeeds its decrement stays, whatever happens to the
   * cart: a full cart or a failed cart write answers 500 with the stock already
   * lowered and the cart unchanged; on success the cart gains the units the
   * stock lost.
   */
  lemma AddTakesStockFirst(
    products: map<int, ServiceProduct>, carts: map<string, seq<CartItem>>, user: string,
    productId: Option<int>, quantity: Option<int>, now: int, readFault: bool, writeFault: bool)
    requires KeyedById(products)
    requires ValidRequest(productId, quantity) && productId.value in products
    requires products[productId.value].stock >= RequestedQuantity(quantity)
    ensures var pid, q := productId.value, RequestedQuantity(quantity);
      var (r, p, c) := AddSpec(products, carts, user, productId, quantity, now, false, readFault, writeFault);
      var read := if readFault then [] else StoredCart(carts, user);
      && p == products[pid := products[pid].(stock := products[pid].stock - q, updatedAt := Some(now))]
      && (|read| >= MaxCartEntries || writeFault ==> r == ServerError && c == carts)
      && (r.AddedItems? ==> c == carts[user := r.items] && Qty(r.items, pid) == Qty(read, pid) + q)
  {
    var pid, q := productId.value, RequestedQuantity(quantity);
    UpdateSetsStockOnly(products, pid, products[pid].stock - q, now, false);
    var read := if readFault then [] else StoredCart(carts, user);
    AddItemEffect(read, pid, q);
    var p := AddSpec(products, carts, user, productId, quantity, now, false, readFault, writeFault).1;
    assert p == products[pid := products[pid].(stock := products[pid].stock - q, updatedAt := Some(now))];
  }

  /**
   * Removing never gives stock back: after a successful add and a removal of
   * the same product, its stock stays lowered and the cart holds none of it,
   * so `stock + units in cart` has dropped by
   * the added quantity plus whatever the cart held before.
   */
  lemma AddThenRemoveLosesUnits(
    products: map<int, ServiceProduct>, carts: map<string, seq<CartItem>>, user: string,
    productId: Option<int>, quantity: Option<int>, now: int)
    requires KeyedById(products)
    ensures var (r, p, c) := AddSpec(products, carts, user, productId, quantity, now, false, false, false);
      r.AddedItems? ==>
        var pid := productId.value;
        var after := Without(StoredCart(c, user), pid);
        && Qty(after, pid) == 0
        && p[pid].stock == products[pid].stock - RequestedQuantity(quantity)
  {
    var (r, p, c) := AddSpec(products, carts, user, productId, quantity, now, false, false, false);
    if r.AddedItems? {
      var pid := productId.value;
      AddTakesStockFirst(products, carts, user, productId, quantity, now, false, false);
      QtyWithout(StoredCart(c, user), pid, pid);
    }
  }

  /** The cart service's handlers over the product and cart tables. */
  class CartService {
    const catalog: ProductTable
    const store: CartStore

    constructor (catalog: ProductTable, store: CartStore)
      ensures this.catalog == catalog && this.store == store
    {
      this.catalog := catalog;
      this.store := store;
    }

    method AddToCart(user: string, productId: Option<int>, quantity: Option<int>,
                     now: int, updateFault: bool, readFault: bool, writeFault: bool) returns (res: AddResponse)
      requires catalog.Valid()
      modifies catalog, store
      ensures catalog.Valid()
      ensures (res, catalog.products, store.carts)
           == AddSpec(old(catalog.products), old(store.carts), user, productId, quantity, now, updateFault, readFault, writeFault)
    {
      if !ValidRequest(productId, quantity) {
        return BadRequest;
      }
      var pid, q := productId.value, RequestedQuantity(quantity);
      var product := catalog.GetProductById(pid, false);
      if product.None? {
        return ProductNotFound;
      }
      if product.value.stock < q {
        return InsufficientStock;
      }
      var updated := catalog.UpdateProduct(pid, product.value.stock - q, now, updateFault);
      if updated.UpdateFailed? {
        return ServerError;
      }
      var added := store.AddItem(user, pid, q, readFault, writeFault);
      res := if added.Saved? then AddedItems(added.items) else ServerError;
    }

    method UpdateCartItem(user: string, pid: int, q: int, readFault: bool, writeFault: bool) returns (r: CartResult)
      modifies store
      ensures catalog.products == old(catalog.products)
      ensures var items := UpdateItemSpec(old(store.GetCart(user, readFault)), pid, q);
        if writeFault then r == WriteError && store.carts == old(store.carts)
        else r == Saved(items) && store.carts == old(store.carts)[user := items]
    {
      r := store.UpdateItem(user, pid, q, readFault, writeFault);
    }

    method RemoveFromCart(user: string, pid: int, readFault: bool, writeFault: bool) returns (r: CartResult)
      modifies store
      ensures catalog.products == old(catalog.products)
      ensures var items := Without(old(store.GetCart(user, readFault)), pid);
        if writeFault then r == WriteError && store.carts == old(store.carts)
        else r == Saved(items) && store.carts == old(store.carts)[user := items]
    {
      r := store.RemoveItem(user, pid, readFault, writeFault);
    }

    method ClearCart(user: string, writeFault: bool) returns (r: CartResult)
      modifies store
      ensures catalog.products == old(catalog.products)
      ensures writeFault ==> r == WriteError && store.carts == old(store.carts)
      ensures !writeFault ==> r == Saved([]) && store.carts == old(store.carts)[user := []]
    {
      r := store.ClearCart(user, writeFault);
    }
  }
}
