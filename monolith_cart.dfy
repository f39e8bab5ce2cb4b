/**
 * The monolith's cart controller (`controllers/cartController.js`).
 *
 * Adding to a cart takes units out of a product's stock; updating, removing
 * and clearing put them back, so for every stored product
 * `stock + units in the cart` stays the same.  Each request is modelled twice:
 * as a step function on a `State` (the products table and the caller's cart),
 * on which conservation and the cart caps are proved, and as a method of
 * `CartController` that performs the source's reads and writes in order and is
 * proved to produce exactly the step's result.
 */
module MonolithCart {
  import opened Wrappers
  import opened CartItems
  import opened Catalog

  const MaxCartEntries := 50
  const MaxItemQuantity := 99

  /** The products table and one user's cart. */
  datatype State = State(products: map<int, Product>, cart: seq<CartItem>)

  datatype AddOutcome =
    | Added(quantity: int)
    | InvalidProductId
    | InvalidQuantity
    | CartFull
    | QuantityCapReached
    | ProductNotFound
    | InsufficientStock

  datatype UpdateOutcome = NotInCart | LookupFailed | RemovedItem | QuantitySet

  /** One line of the cart page: the product, the quantity and `price * quantity`. */
  datatype CartLine = CartLine(product: Product, quantity: int, itemTotal: int)

  /** What the request handlers keep true of every stored cart. */
  predicate CartInvariant(cart: seq<CartItem>)
  {
    && UniqueIds(cart)
    && |cart| <= MaxCartEntries
    && forall i :: 0 <= i < |cart| ==> cart[i].quantity >= 1
  }

  predicate CartsValid(carts: map<string, seq<CartItem>>)
  {
    forall u :: u in carts ==> CartInvariant(carts[u])
  }

  /**
   * `t` arises from `s` by stock moves only: the same products, unchanged except
   * for their stock, and for each of them stock plus cart units is the same.
   */
  predicate Conserved(s: State, t: State)
  {
    && t.products.Keys == s.products.Keys
    && (forall id :: id in s.products ==> t.products[id] == s.products[id].(stock := t.products[id].stock))
    && (forall id :: id in s.products ==> t.products[id].stock + Qty(t.cart, id) == s.products[id].stock + Qty(s.cart, id))
  }

  /** `parseInt(req.body.quantity) || 1`: a missing (or unparseable) or zero quantity means 1. */
  function RequestedQuantity(raw: Option<int>): int
  {
    if raw.Some? && raw.value != 0 then raw.value else 1
  }

  /** The request quantity after the per-item cap: what still fits under 99, at least 0. */
  function Capped(cart: seq<CartItem>, k: int, q: int): int
    requires -1 <= k < |cart|
  {
    if k >= 0 && cart[k].quantity + q > MaxItemQuantity then
      (if MaxItemQuantity - cart[k].quantity > 0 then MaxItemQuantity - cart[k].quantity else 0)
    else q
  }

  /** `addToCart`: validate, cap, check stock, take the units out of stock, then put them in the cart. */
  function AddStep(s: State, pid: int, raw: Option<int>): (AddOutcome, State)
  {
    if pid <= 0 then (InvalidProductId, s)
    else
      var q0 := RequestedQuantity(raw);
      if q0 <= 0 || q0 > MaxItemQuantity then (InvalidQuantity, s)
      else if |s.cart| >= MaxCartEntries then (CartFull, s)
      else
        var k := IndexOf(s.cart, pid);
        var q := Capped(s.cart, k, q0);
        if q == 0 then (QuantityCapReached, s)
        else match Lookup(s.products, pid)
          case None => (ProductNotFound, s)
          case Some(p) =>
            if p.stock < q then (InsufficientStock, s)
            else (Added(q), Take(s, pid, k, q, p))
  }

  /** The writes of a successful add: stock down by `q`, then the entry at `k` (or a new one) up by `q`. */
  function Take(s: State, pid: int, k: int, q: int, p: Product): State
    requires -1 <= k < |s.cart|
  {
    var products := Restock(s.products, pid, p.stock - q);
    var cart := if k >= 0 then SetQuantity(s.cart, k, s.cart[k].quantity + q)
                else s.cart + [CartItem(pid, q)];
    State(products, cart)
  }

  /** `updateCartItem`: a quantity <= 0 removes the entry, any other sets it; stock absorbs the difference. */
  function UpdateStep(s: State, pid: int, n: int): (UpdateOutcome, State)
  {
    var k := IndexOf(s.cart, pid);
    if k < 0 then (NotInCart, s)
    else match Lookup(s.products, pid)
      case None => (LookupFailed, s)
      case Some(p) =>
        var current := s.cart[k].quantity;
        if n <= 0 then
          (RemovedItem, State(Restock(s.products, pid, p.stock + current), Without(s.cart, pid)))
        else
          (QuantitySet, State(Restock(s.products, pid, p.stock + (current - n)), SetQuantity(s.cart, k, n)))
  }

  /** `removeFromCart`: give the entry's units back to stock when the product resolves, then drop the entry. */
  function RemoveStep(s: State, pid: int): State
  {
    var k := IndexOf(s.cart, pid);
    var products :=
      if k < 0 then s.products
      else match Lookup(s.products, pid)
        case None => s.products
        case Some(p) => Restock(s.products, pid, p.stock + s.cart[k].quantity);
    State(products, Without(s.cart, pid))
  }

  /** One iteration of `clearCart`'s loop: give one entry's units back to its product. */
  function RestoreOne(products: map<int, Product>, item: CartItem): map<int, Product>
  {
    match Lookup(products, item.productId)
    case None => products
    case Some(p) => Restock(products, item.productId, p.stock + item.quantity)
  }

  /** `clearCart`'s loop over the entries, in cart order. */
  function RestoreAll(products: map<int, Product>, items: seq<CartItem>): map<int, Product>
  {
    if |items| == 0 then products
    else RestoreOne(RestoreAll(products, items[..|items| - 1]), items[|items| - 1])
  }

  /** One more entry restored is one more iteration of the loop. */
  lemma RestoreAllSnoc(products: map<int, Product>, items: seq<CartItem>, i: nat)
    requires i < |items|
    ensures RestoreAll(products, items[..i + 1]) == RestoreOne(RestoreAll(products, items[..i]), items[i])
  {
    assert items[..i + 1][..i] == items[..i];
  }

  /** `clearCart`: every entry's units go back to stock and the cart is emptied. */
  function ClearStep(s: State): State
  {
    State(RestoreAll(s.products, s.cart), [])
  }

  /** The cart-page line for an entry whose product resolved to `p`. */
  function LineOf(p: Product, item: CartItem): CartLine
  {
    CartLine(p, item.quantity, p.price * item.quantity)
  }

  /**
   * The lines `viewCart` renders: one per entry, in cart order, or nothing when
   * some entry's product does not resolve (the source then fails with a 500).
   */
  function CartView(products: map<int, Product>, items: seq<CartItem>): (r: Option<seq<CartLine>>)
    ensures r.Some? ==> |r.value| == |items|
  {
    if |items| == 0 then Some([])
    else
      var last := items[|items| - 1];
      match CartView(products, items[..|items| - 1])
      case None => None
      case Some(front) =>
        match Lookup(products, last.productId)
        case None => None
        case Some(p) => Some(front + [LineOf(p, last)])
  }

  /**
   * The cart page renders exactly when every entry's product resolves, and then
   * line `i` shows entry `i`'s product, its quantity and `price * quantity`.
   */
  lemma {:induction false} CartViewLines(products: map<int, Product>, items: seq<CartItem>)
    ensures CartView(products, items).Some? <==>
      forall i :: 0 <= i < |items| ==> Lookup(products, items[i].productId).Some?
    ensures CartView(products, items).Some? ==> forall i :: 0 <= i < |items| ==>
      CartView(products, items).value[i] == LineOf(Lookup(products, items[i].productId).value, items[i])
  {
    if |items| > 0 {
      var front, last := items[..|items| - 1], items[|items| - 1];
      CartViewLines(products, front);
      assert forall i :: 0 <= i < |front| ==> front[i] == items[i];
      if CartView(products, items).Some? {
        var lines, frontLines := CartView(products, items).value, CartView(products, front).value;
        assert lines == frontLines + [LineOf(Lookup(products, last.productId).value, last)];
        forall i | 0 <= i < |items|
          ensures lines[i] == LineOf(Lookup(products, items[i].productId).value, items[i])
        {
          if i < |front| {
            assert lines[i] == frontLines[i];
          }
        }
      } else if CartView(products, front).Some? {
        assert !Lookup(products, items[|items| - 1].productId).Some?;
      }
    }
  }

  /** One more resolved entry adds its line to the page and its line total to the sum. */
  lemma CartViewSnoc(products: map<int, Product>, items: seq<CartItem>, i: nat, lines: seq<CartLine>)
    requires i < |items| && CartView(products, items[..i]) == Some(lines)
    requires Lookup(products, items[i].productId).Some?
    ensures var line := LineOf(Lookup(products, items[i].productId).value, items[i]);
      && CartView(products, items[..i + 1]) == Some(lines + [line])
      && LinesTotal(lines + [line]) == LinesTotal(lines) + line.itemTotal
  {
    assert items[..i + 1][..i] == items[..i];
    var line := LineOf(Lookup(products, items[i].productId).value, items[i]);
    assert (lines + [line])[..|lines|] == lines;
  }

  /** An entry whose product does not resolve stops the whole page. */
  lemma CartViewStop(products: map<int, Product>, items: seq<CartItem>, i: nat)
    requires i < |items| && Lookup(products, items[i].productId).None?
    ensures CartView(products, items).None?
  {
    CartViewLines(products, items);
  }

  /** The sum of the line totals. */
  function LinesTotal(lines: seq<CartLine>): int
  {
    if |lines| == 0 then 0 else LinesTotal(lines[..|lines| - 1]) + lines[|lines| - 1].itemTotal
  }

  // ---------------------------------------------------------------------------
  // Properties of the steps

  /** Each validation rejects exactly the requests it is meant to, in the source's order. */
  lemma AddValidation(s: State, pid: int, raw: Option<int>)
    ensures AddStep(s, pid, raw).0 == InvalidProductId <==> pid <= 0
    ensures AddStep(s, pid, raw).0 == InvalidQuantity
        <==> pid > 0 && !(1 <= RequestedQuantity(raw) <= MaxItemQuantity)
    ensures AddStep(s, pid, raw).0 == CartFull
        <==> pid > 0 && 1 <= RequestedQuantity(raw) <= MaxItemQuantity && |s.cart| >= MaxCartEntries
    ensures raw.None? || raw == Some(0) ==> RequestedQuantity(raw) == 1
  {
  }

  /** A rejected add writes nothing: stock and cart are as they were. */
  lemma AddRejectionWritesNothing(s: State, pid: int, raw: Option<int>)
    ensures !AddStep(s, pid, raw).0.Added? ==> AddStep(s, pid, raw).1 == s
  {
  }

  /** A full cart refuses even a product it already holds. */
  lemma AddFullCartRefusesExisting(s: State, pid: int, raw: Option<int>)
    requires pid > 0 && 1 <= RequestedQuantity(raw) <= MaxItemQuantity
    requires |s.cart| >= MaxCartEntries && IndexOf(s.cart, pid) >= 0
    ensures AddStep(s, pid, raw) == (CartFull, s)
  {
  }

  /**
   * Past the id, quantity and cart-size checks, an add whose capped quantity
   * is 0 is refused at the cap, an unknown product is not found, and a
   * product whose stock is below the capped quantity is refused for stock;
   * an add succeeds exactly when all checks pass, and it moves the capped
   * quantity, which the stock covered.
   */
  lemma AddStockCheck(s: State, pid: int, raw: Option<int>)
    ensures var out := AddStep(s, pid, raw).0;
      var passed := pid > 0 && 1 <= RequestedQuantity(raw) <= MaxItemQuantity && |s.cart| < MaxCartEntries;
      var q := Capped(s.cart, IndexOf(s.cart, pid), RequestedQuantity(raw));
      var p := Lookup(s.products, pid);
      && (out == QuantityCapReached <==> passed && q == 0)
      && (out == ProductNotFound <==> passed && q != 0 && p.None?)
      && (out == InsufficientStock <==> passed && q != 0 && p.Some? && p.value.stock < q)
      && (out.Added? <==> passed && q != 0 && p.Some? && p.value.stock >= q)
      && (out.Added? ==> out.quantity == q && p.value.stock >= out.quantity)
  {
  }

  /** Updating or removing a product that is not in the cart changes neither stock nor cart. */
  lemma NotInCartChangesNothing(s: State, pid: int, n: int)
    ensures IndexOf(s.cart, pid) < 0 ==> UpdateStep(s, pid, n) == (NotInCart, s) && RemoveStep(s, pid) == s
  {
    if IndexOf(s.cart, pid) < 0 {
      WithoutAbsent(s.cart, pid);
    }
  }

  /**
   * A successful add moves exactly the (capped) request quantity: the cart
   * gains `q` units of the product, the stored stock loses `q`, and the amount
   * is the request clamped so that the product's units in the cart reach at
   * most 99.
   */
  lemma {:induction false} AddMovesUnits(s: State, pid: int, raw: Option<int>)
    requires UniqueIds(s.cart)
    ensures var (out, t) := AddStep(s, pid, raw);
      out.Added? ==>
        && 1 <= out.quantity <= MaxItemQuantity
        && Qty(t.cart, pid) == Qty(s.cart, pid) + out.quantity
        && Qty(t.cart, pid) <= MaxItemQuantity
        && out.quantity == (if Qty(s.cart, pid) + RequestedQuantity(raw) > MaxItemQuantity
                            then MaxItemQuantity - Qty(s.cart, pid) else RequestedQuantity(raw))
        && (pid in s.products ==> t.products[pid].stock == s.products[pid].stock - out.quantity)
        && (pid !in s.products ==> t.products == s.products)
  {
    var (out, t) := AddStep(s, pid, raw);
    if out.Added? {
      var k := IndexOf(s.cart, pid);
      var q := out.quantity;
      if k >= 0 {
        QtyAt(s.cart, k);
        QtySet(s.cart, k, s.cart[k].quantity + q, pid);
      } else {
        QtyAbsent(s.cart, pid);
        QtyAppend(s.cart, CartItem(pid, q), pid);
      }
    }
  }

  /** Adding to the cart conserves stock plus cart units for every stored product. */
  lemma {:induction false} AddConserves(s: State, pid: int, raw: Option<int>)
    requires UniqueIds(s.cart)
    ensures Conserved(s, AddStep(s, pid, raw).1)
  {
    var (out, t) := AddStep(s, pid, raw);
    if out.Added? {
      var k := IndexOf(s.cart, pid);
      var q := out.quantity;
      forall id | id in s.products
        ensures t.products[id].stock + Qty(t.cart, id) == s.products[id].stock + Qty(s.cart, id)
      {
        if k >= 0 {
          QtySet(s.cart, k, s.cart[k].quantity + q, id);
        } else {
          QtyAppend(s.cart, CartItem(pid, q), id);
        }
      }
    }
  }

  /** Adding keeps the cart free of duplicates, within 50 entries and with positive quantities. */
  lemma {:induction false} AddKeepsInvariant(s: State, pid: int, raw: Option<int>)
    requires CartInvariant(s.cart)
    ensures CartInvariant(AddStep(s, pid, raw).1.cart)
  {
    var (out, t) := AddStep(s, pid, raw);
    if out.Added? && IndexOf(s.cart, pid) < 0 {
      assert t.cart == s.cart + [CartItem(pid, out.quantity)];
    }
  }

  /** Updating conserves stock plus cart units for every stored product. */
  lemma {:induction false} UpdateConserves(s: State, pid: int, n: int)
    requires UniqueIds(s.cart)
    ensures Conserved(s, UpdateStep(s, pid, n).1)
  {
    var (out, t) := UpdateStep(s, pid, n);
    var k := IndexOf(s.cart, pid);
    if out == RemovedItem || out == QuantitySet {
      var current := s.cart[k].quantity;
      QtyAt(s.cart, k);
      forall id | id in s.products
        ensures t.products[id].stock + Qty(t.cart, id) == s.products[id].stock + Qty(s.cart, id)
      {
        if n <= 0 {
          QtyWithout(s.cart, pid, id);
        } else {
          QtySet(s.cart, k, n, id);
        }
      }
    }
  }

  /**
   * Updating sets the quantity to exactly the new value, with no stock and no
   * 99 check; a quantity <= 0 removes the product from the cart.
   */
  lemma UpdateSetsQuantity(s: State, pid: int, n: int)
    requires UniqueIds(s.cart)
    ensures UpdateStep(s, pid, n).0 == QuantitySet ==> Qty(UpdateStep(s, pid, n).1.cart, pid) == n
    ensures UpdateStep(s, pid, n).0 == RemovedItem ==> Qty(UpdateStep(s, pid, n).1.cart, pid) == 0
    ensures UpdateStep(s, pid, n).0 == NotInCart <==> IndexOf(s.cart, pid) < 0
    ensures UpdateStep(s, pid, n).0 == QuantitySet ==> n > 0
  {
    var k := IndexOf(s.cart, pid);
    if k >= 0 {
      if n > 0 {
        QtyAt(s.cart, k);
        QtySet(s.cart, k, n, pid);
      } else {
        QtyWithout(s.cart, pid, pid);
      }
    }
  }

  /** Updating keeps the cart invariant: the entry set changes only by filtering or a positive quantity. */
  lemma UpdateKeepsInvariant(s: State, pid: int, n: int)
    requires CartInvariant(s.cart)
    ensures CartInvariant(UpdateStep(s, pid, n).1.cart)
  {
    UniqueWithout(s.cart, pid);
  }

  /** Removing conserves stock plus cart units for every stored product. */
  lemma {:induction false} RemoveConserves(s: State, pid: int)
    requires UniqueIds(s.cart)
    ensures Conserved(s, RemoveStep(s, pid))
  {
    var t := RemoveStep(s, pid);
    var k := IndexOf(s.cart, pid);
    if k >= 0 {
      QtyAt(s.cart, k);
    } else {
      QtyAbsent(s.cart, pid);
    }
    forall id | id in s.products
      ensures t.products[id].stock + Qty(t.cart, id) == s.products[id].stock + Qty(s.cart, id)
    {
      QtyWithout(s.cart, pid, id);
    }
  }

  /** Removing keeps the cart invariant and leaves no entry for the product. */
  lemma RemoveKeepsInvariant(s: State, pid: int)
    requires CartInvariant(s.cart)
    ensures CartInvariant(RemoveStep(s, pid).cart)
    ensures forall i :: 0 <= i < |RemoveStep(s, pid).cart| ==> RemoveStep(s, pid).cart[i].productId != pid
  {
    UniqueWithout(s.cart, pid);
  }

  /** Setting the quantity to 0 or less does what removing does, whenever the product resolves. */
  lemma UpdateToZeroIsRemove(s: State, pid: int, n: int)
    requires n <= 0
    requires IndexOf(s.cart, pid) >= 0 ==> Lookup(s.products, pid).Some?
    ensures UpdateStep(s, pid, n).1 == RemoveStep(s, pid)
  {
    if IndexOf(s.cart, pid) < 0 {
      WithoutAbsent(s.cart, pid);
    }
  }

  /** The restoring loop adds each product's cart units back to its stored stock and changes nothing else. */
  lemma {:induction false} RestoreAllAdds(products: map<int, Product>, items: seq<CartItem>)
    ensures KeyedById(products) ==> KeyedById(RestoreAll(products, items))
    ensures RestoreAll(products, items).Keys == products.Keys
    ensures forall id :: id in products ==>
      RestoreAll(products, items)[id] == products[id].(stock := products[id].stock + Qty(items, id))
  {
    if |items| > 0 {
      var front, last := items[..|items| - 1], items[|items| - 1];
      assert items == front + [last];
      RestoreAllAdds(products, front);
      forall id | id in products
        ensures RestoreAll(products, items)[id] == products[id].(stock := products[id].stock + Qty(items, id))
      {
        QtyAppend(front, last, id);
      }
    }
  }

  /** Clearing gives every unit back: stock plus cart units is conserved and the cart is empty. */
  lemma ClearConserves(s: State)
    ensures Conserved(s, ClearStep(s))
    ensures ClearStep(s).cart == []
  {
    RestoreAllAdds(s.products, s.cart);
  }

  /**
   * The worked example: with product 1 at stock 50, add 5 (stock 45), update to
   * 2 (stock 48), remove (stock 50, empty cart), add 50 (stock 0), and a
   * further add of 1 is refused for insufficient stock.
   */
  lemma Walkthrough(p: Product)
    requires p.id == 1 && p.stock == 50
    ensures var s0 := State(map[1 := p], []);
      var (o1, s1) := AddStep(s0, 1, Some(5));
      var (o2, s2) := UpdateStep(s1, 1, 2);
      var s3 := RemoveStep(s2, 1);
      var (o4, s4) := AddStep(s3, 1, Some(50));
      var (o5, s5) := AddStep(s4, 1, Some(1));
      && o1 == Added(5) && s1 == State(map[1 := p.(stock := 45)], [CartItem(1, 5)])
      && o2 == QuantitySet && s2 == State(map[1 := p.(stock := 48)], [CartItem(1, 2)])
      && s3 == State(map[1 := p.(stock := 50)], [])
      && o4 == Added(50) && s4 == State(map[1 := p.(stock := 0)], [CartItem(1, 50)])
      && o5 == InsufficientStock && s5 == s4
  {
    var s0 := State(map[1 := p], []);
    var s1 := AddStep(s0, 1, Some(5)).1;
    assert s1 == State(map[1 := p.(stock := 45)], [CartItem(1, 5)]);
    var s2 := UpdateStep(s1, 1, 2).1;
    assert s2 == State(map[1 := p.(stock := 48)], [CartItem(1, 2)]);
    var s3 := RemoveStep(s2, 1);
    assert s3 == State(map[1 := p.(stock := 50)], []);
    var s4 := AddStep(s3, 1, Some(50)).1;
    assert s4 == State(map[1 := p.(stock := 0)], [CartItem(1, 50)]);
  }

  // ---------------------------------------------------------------------------
  // The stores and the request handlers

  /** The carts table: one item list per user id; a user without a record has an empty cart. */
  class CartTable {
    var carts: map<string, seq<CartItem>>

    constructor ()
      ensures carts == map[]
    {
      carts := map[];
    }

    /** `getCartFromDB`. */
    function CartOf(user: string): seq<CartItem>
      reads this
    {
      StoredCart(carts, user)
    }

    /** `saveCartToDB`: overwrite the user's record. */
    method Save(user: string, items: seq<CartItem>)
      modifies this
      ensures carts == old(carts)[user := items]
    {
      carts := carts[user := items];
    }
  }

  class CartController {
    const catalog: ProductStore
    const table: CartTable

    ghost predicate Valid()
      reads catalog, table
    {
      catalog.Valid() && CartsValid(table.carts)
    }

    constructor (catalog: ProductStore, table: CartTable)
      ensures this.catalog == catalog && this.table == table
    {
      this.catalog := catalog;
      this.table := table;
    }

    /** `viewCart`: the cart page's lines, their sum and the number of entries. */
    method ViewCart(user: string) returns (lines: Option<seq<CartLine>>, total: int, count: int)
      requires Valid()
      ensures count == |table.CartOf(user)|
      ensures lines == CartView(catalog.products, table.CartOf(user))
      ensures lines.Some? ==> total == LinesTotal(lines.value)
    {
      var cartItems := table.CartOf(user);
      count := |cartItems|;
      var acc: seq<CartLine> := [];
      total := 0;
      var i := 0;
      while i < |cartItems|
        invariant 0 <= i <= |cartItems|
        invariant CartView(catalog.products, cartItems[..i]) == Some(acc)
        invariant total == LinesTotal(acc)
      {
        var item := cartItems[i];
        var product := catalog.GetProductById(item.productId, false);
        if product.None? {
          CartViewStop(catalog.products, cartItems, i);
          return None, total, count;
        }
        var line := LineOf(product.value, item);
        CartViewSnoc(catalog.products, cartItems, i, acc);
        total := total + line.itemTotal;
        acc := acc + [line];
        i := i + 1;
      }
      assert cartItems[..i] == cartItems;
      lines := Some(acc);
    }

    method AddToCart(user: string, pid: int, raw: Option<int>) returns (out: AddOutcome)
      requires Valid()
      modifies catalog, table
      ensures Valid()
      ensures (out, State(catalog.products, table.CartOf(user)))
           == AddStep(State(old(catalog.products), old(table.CartOf(user))), pid, raw)
      ensures !out.Added? ==> unchanged(catalog, table)
      ensures out.Added? ==> table.carts == old(table.carts)[user := table.CartOf(user)]
    {
      ghost var s := State(catalog.products, table.CartOf(user));
      if pid <= 0 {
        return InvalidProductId;
      }
      var quantity := RequestedQuantity(raw);
      if quantity <= 0 || quantity > MaxItemQuantity {
        return InvalidQuantity;
      }
      var cartItems := table.CartOf(user);
      if |cartItems| >= MaxCartEntries {
        return CartFull;
      }
      var existing := IndexOf(cartItems, pid);
      if existing >= 0 && cartItems[existing].quantity + quantity > MaxItemQuantity {
        quantity := if MaxItemQuantity - cartItems[existing].quantity > 0
                    then MaxItemQuantity - cartItems[existing].quantity else 0;
        if quantity == 0 {
          return QuantityCapReached;
        }
      }
      var product := catalog.GetProductById(pid, false);
      if product.None? {
        return ProductNotFound;
      }
      if product.value.stock < quantity {
        return InsufficientStock;
      }
      TakeUnits(user, pid, quantity, product.value);
      AddKeepsInvariant(s, pid, raw);
      out := Added(quantity);
    }

    /** The writing half of `addToCart`: lower the stock, then re-read, update and save the cart. */
    method TakeUnits(user: string, pid: int, quantity: int, product: Product)
      requires catalog.Valid()
      modifies catalog, table
      ensures catalog.Valid()
      ensures State(catalog.products, table.CartOf(user))
           == Take(State(old(catalog.products), old(table.CartOf(user))), pid, IndexOf(old(table.CartOf(user)), pid), quantity, product)
      ensures table.carts == old(table.carts)[user := table.CartOf(user)]
    {
      var newStock := product.stock - quantity;
      WriteStock(pid, newStock);
      var cartItems := table.CartOf(user);
      var index := IndexOf(cartItems, pid);
      if index >= 0 {
        cartItems := SetQuantity(cartItems, index, cartItems[index].quantity + quantity);
      } else {
        cartItems := cartItems + [CartItem(pid, quantity)];
      }
      table.Save(user, cartItems);
      assert table.CartOf(user) == cartItems;
    }

    method UpdateCartItem(user: string, pid: int, n: int) returns (out: UpdateOutcome)
      requires Valid()
      modifies catalog, table
      ensures Valid()
      ensures (out, State(catalog.products, table.CartOf(user)))
           == UpdateStep(State(old(catalog.products), old(table.CartOf(user))), pid, n)
      ensures out == LookupFailed ==> unchanged(catalog, table)
      ensures out != LookupFailed ==> table.carts == old(table.carts)[user := table.CartOf(user)]
    {
      ghost var s := State(catalog.products, table.CartOf(user));
      var cartItems := table.CartOf(user);
      var itemIndex := IndexOf(cartItems, pid);
      if itemIndex >= 0 {
        var currentQuantity := cartItems[itemIndex].quantity;
        var product := catalog.GetProductById(pid, false);
        if product.None? {
          return LookupFailed;
        }
        assert product == Lookup(s.products, pid);
        if n <= 0 {
          WriteStock(pid, product.value.stock + currentQuantity);
          cartItems := Without(cartItems, pid);
          out := RemovedItem;
        } else {
          WriteStock(pid, product.value.stock + (currentQuantity - n));
          cartItems := SetQuantity(cartItems, itemIndex, n);
          out := QuantitySet;
        }
      } else {
        out := NotInCart;
      }
      table.Save(user, cartItems);
      assert table.CartOf(user) == cartItems;
      UpdateKeepsInvariant(s, pid, n);
    }

    method RemoveFromCart(user: string, pid: int)
      requires Valid()
      modifies catalog, table
      ensures Valid()
      ensures State(catalog.products, table.CartOf(user))
           == RemoveStep(State(old(catalog.products), old(table.CartOf(user))), pid)
      ensures table.carts == old(table.carts)[user := table.CartOf(user)]
    {
      ghost var s := State(catalog.products, table.CartOf(user));
      var cartItems := table.CartOf(user);
      var k := IndexOf(cartItems, pid);
      if k >= 0 {
        var product := catalog.GetProductById(pid, false);
        if product.Some? {
          WriteStock(pid, product.value.stock + cartItems[k].quantity);
        }
      }
      cartItems := Without(cartItems, pid);
      table.Save(user, cartItems);
      RemoveKeepsInvariant(s, pid);
    }

    method ClearCart(user: string)
      requires Valid()
      modifies catalog, table
      ensures Valid()
      ensures State(catalog.products, table.CartOf(user))
           == ClearStep(State(old(catalog.products), old(table.CartOf(user))))
      ensures table.carts == old(table.carts)[user := []]
    {
      var cartItems := table.CartOf(user);
      var i := 0;
      while i < |cartItems|
        invariant 0 <= i <= |cartItems|
        invariant catalog.Valid()
        invariant catalog.products == RestoreAll(old(catalog.products), cartItems[..i])
        invariant table.carts == old(table.carts)
      {
        RestoreAllSnoc(old(catalog.products), cartItems, i);
        RestoreEntry(cartItems[i]);
        i := i + 1;
      }
      assert cartItems[..i] == cartItems;
      table.Save(user, []);
    }

    /** `updateProduct(pid, { stock })` as the controller issues it: only the stock of a stored record changes. */
    method WriteStock(pid: int, stock: int)
      requires catalog.Valid()
      modifies catalog
      ensures catalog.Valid()
      ensures catalog.products == Restock(old(catalog.products), pid, stock)
    {
      UpdateStock(catalog.products, pid, stock);
      var written := catalog.UpdateProduct(pid, StockUpdate(stock), false);
    }

    /** The body of `clearCart`'s loop: read the entry's product and, if it resolves, raise its stock. */
    method RestoreEntry(item: CartItem)
      requires catalog.Valid()
      modifies catalog
      ensures catalog.Valid()
      ensures catalog.products == RestoreOne(old(catalog.products), item)
    {
      var product := catalog.GetProductById(item.productId, false);
      if product.Some? {
        WriteStock(item.productId, product.value.stock + item.quantity);
      }
    }
  }
}
