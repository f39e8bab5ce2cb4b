/**
 * The monolith's order controller (`controllers/orderController.js`): checkout,
 * placing an order from the caller's cart, the owner-only confirmation page,
 * and listing and clearing the caller's orders.
 *
 * An order is written under the clock value `now` as its id; its lines
 * snapshot each product's id, name and price; the cart is emptied only after
 * the order write succeeds, and no stock is given back.
 */
module MonolithOrders {
  import opened Wrappers
  import opened CartItems
  import opened Catalog
  import opened MonolithCart

  datatype Customer = Customer(name: string, email: string, address: string)
  datatype ProductSnapshot = ProductSnapshot(id: int, name: string, price: int)
  datatype OrderLine = OrderLine(product: ProductSnapshot, quantity: int, itemTotal: int)
  datatype Order = Order(
    id: int, userId: string, date: string, customer: Customer,
    items: seq<OrderLine>, total: int, status: string)

  const Confirmed := "Confirmed"

  datatype CheckoutPage = RedirectToCart | CheckoutForm(cartCount: nat)

  datatype PlaceOutcome = EmptyCart | ProductMissing | OrderWriteFailed | Placed(orderId: int)

  datatype Confirmation = Found(order: Order) | NotFound | Failed

  /** `checkout`: an empty cart sends the user back to the cart page. */
  function Checkout(cart: seq<CartItem>): (r: CheckoutPage)
    ensures r == RedirectToCart <==> |cart| == 0
    ensures r.CheckoutForm? ==> r.cartCount == |cart|
  {
    if |cart| == 0 then RedirectToCart else CheckoutForm(|cart|)
  }

  function Snapshot(p: Product): ProductSnapshot
  {
    ProductSnapshot(p.id, p.name, p.price)
  }

  /** The order line for one cart entry whose product resolved to `p`. */
  function LineFor(p: Product, item: CartItem): OrderLine
  {
    OrderLine(Snapshot(p), item.quantity, p.price * item.quantity)
  }

  /**
   * The lines `placeOrder` builds: one per cart entry, in cart order, or
   * nothing when some entry's product does not resolve (the source then fails
   * inside `Promise.all` before any write).
   */
  function OrderLines(products: map<int, Product>, items: seq<CartItem>): (r: Option<seq<OrderLine>>)
    ensures r.Some? ==> |r.value| == |items|
  {
    if |items| == 0 then Some([])
    else
      var last := items[|items| - 1];
      match OrderLines(products, items[..|items| - 1])
      case None => None
      case Some(front) =>
        match Lookup(products, last.productId)
        case None => None
        case Some(p) => Some(front + [LineFor(p, last)])
  }

  /** The lines are built exactly when every entry's product resolves. */
  lemma {:induction false} OrderLinesResolved(products: map<int, Product>, items: seq<CartItem>)
    ensures OrderLines(products, items).Some? <==>
      forall i :: 0 <= i < |items| ==> Lookup(products, items[i].productId).Some?
  {
    if |items| > 0 {
      var front, last := items[..|items| - 1], items[|items| - 1];
      OrderLinesResolved(products, front);
      assert items == front + [last];
      var all := forall i :: 0 <= i < |items| ==> Lookup(products, items[i].productId).Some?;
      var allFront := forall i :: 0 <= i < |front| ==> Lookup(products, front[i].productId).Some?;
      assert all <==> allFront && Lookup(products, last.productId).Some?;
    }
  }

  /** One more resolved entry adds its line to the list and its line total to the sum. */
  lemma OrderLinesSnoc(products: map<int, Product>, items: seq<CartItem>, i: nat, lines: seq<OrderLine>)
    requires i < |items| && OrderLines(products, items[..i]) == Some(lines)
    requires Lookup(products, items[i].productId).Some?
    ensures var line := LineFor(Lookup(products, items[i].productId).value, items[i]);
      && OrderLines(products, items[..i + 1]) == Some(lines + [line])
      && OrderTotal(lines + [line]) == OrderTotal(lines) + line.itemTotal
  {
    assert items[..i + 1][..i] == items[..i];
    var line := LineFor(Lookup(products, items[i].productId).value, items[i]);
    assert (lines + [line])[..|lines|] == lines;
  }

  /** An entry whose product does not resolve stops the whole list. */
  lemma OrderLinesStop(products: map<int, Product>, items: seq<CartItem>, i: nat)
    requires i < |items| && Lookup(products, items[i].productId).None?
    ensures OrderLines(products, items).None?
  {
    OrderLinesResolved(products, items);
  }

  /** Each built line is the snapshot line of the cart entry at the same position. */
  lemma {:induction false} OrderLinesSnapshot(products: map<int, Product>, items: seq<CartItem>)
    requires OrderLines(products, items).Some?
    ensures forall i :: 0 <= i < |items| ==>
      Lookup(products, items[i].productId).Some? &&
      OrderLines(products, items).value[i] == LineFor(Lookup(products, items[i].productId).value, items[i])
  {
    if |items| > 0 {
      var front, last := items[..|items| - 1], items[|items| - 1];
      OrderLinesSnapshot(products, front);
      var lines, frontLines := OrderLines(products, items).value, OrderLines(products, front).value;
      assert lines == frontLines + [LineFor(Lookup(products, last.productId).value, last)];
      forall i | 0 <= i < |items|
        ensures Lookup(products, items[i].productId).Some?
        ensures lines[i] == LineFor(Lookup(products, items[i].productId).value, items[i])
      {
        if i < |front| {
          assert items[i] == front[i];
          assert lines[i] == frontLines[i];
        }
      }
    }
  }

  /** The sum of the line totals. */
  function OrderTotal(lines: seq<OrderLine>): int
  {
    if |lines| == 0 then 0 else OrderTotal(lines[..|lines| - 1]) + lines[|lines| - 1].itemTotal
  }

  /**
   * `placeOrder` on the orders table and the carts table: the result, the new
   * orders and the new carts.  `orderFault` is a failing order write (500, cart
   * kept); `cartFault` is a failing cart write, which `saveCartToDB` swallows.
   */
  function PlaceSpec(
    products: map<int, Product>, orders: map<int, Order>, carts: map<string, seq<CartItem>>,
    user: string, customer: Customer, now: int, date: string, orderFault: bool, cartFault: bool
  ): (PlaceOutcome, map<int, Order>, map<string, seq<CartItem>>)
  {
    var cart := StoredCart(carts, user);
    if |cart| == 0 then (EmptyCart, orders, carts)
    else match OrderLines(products, cart)
      case None => (ProductMissing, orders, carts)
      case Some(lines) =>
        if orderFault then (OrderWriteFailed, orders, carts)
        else
          var order := Order(now, user, date, customer, lines, OrderTotal(lines), Confirmed);
          (Placed(now), orders[now := order], if cartFault then carts else carts[user := []])
  }

  /** Anything short of a written order leaves both tables as they were; an empty cart is refused. */
  lemma PlaceFailureWritesNothing(
    products: map<int, Product>, orders: map<int, Order>, carts: map<string, seq<CartItem>>,
    user: string, customer: Customer, now: int, date: string, orderFault: bool, cartFault: bool)
    ensures var (out, o, c) := PlaceSpec(products, orders, carts, user, customer, now, date, orderFault, cartFault);
      && (out == EmptyCart <==> |StoredCart(carts, user)| == 0)
      && (!out.Placed? ==> o == orders && c == carts)
      && (out == OrderWriteFailed <==> |StoredCart(carts, user)| > 0 && OrderLines(products, StoredCart(carts, user)).Some? && orderFault)
  {
  }

  /**
   * A placed order belongs to the caller, is confirmed, has one snapshot line
   * per cart entry with the entry's quantity and `price * quantity`, and its
   * total is the sum of those; the cart is emptied unless its write failed, and
   * no other user's cart or other order changes.
   */
  lemma PlacedOrder(
    products: map<int, Product>, orders: map<int, Order>, carts: map<string, seq<CartItem>>,
    user: string, customer: Customer, now: int, date: string, orderFault: bool, cartFault: bool)
    ensures var (out, o, c) := PlaceSpec(products, orders, carts, user, customer, now, date, orderFault, cartFault);
      var cart := StoredCart(carts, user);
      out.Placed? ==>
        && out.orderId == now && now in o
        && o[now].userId == user && o[now].status == Confirmed && o[now].id == now
        && |o[now].items| == |cart|
        && (forall i :: 0 <= i < |cart| ==>
             Lookup(products, cart[i].productId).Some? &&
             var p := Lookup(products, cart[i].productId).value;
             o[now].items[i] == OrderLine(ProductSnapshot(p.id, p.name, p.price), cart[i].quantity, p.price * cart[i].quantity))
        && o[now].total == OrderTotal(o[now].items)
        && (forall id :: id in orders && id != now ==> id in o && o[id] == orders[id])
        && (forall u :: u != user ==> StoredCart(c, u) == StoredCart(carts, u))
        && StoredCart(c, user) == (if cartFault then cart else [])
  {
    var cart := StoredCart(carts, user);
    OrderLinesResolved(products, cart);
    if |cart| > 0 && OrderLines(products, cart).Some? {
      OrderLinesSnapshot(products, cart);
    }
  }

  /** `orderConfirmation`: only the owner sees an order; a missing or foreign order is not found. */
  function OrderConfirmation(orders: map<int, Order>, user: string, id: int, fault: bool): (r: Confirmation)
    ensures r == Failed <==> fault
    ensures r.Found? <==> !fault && id in orders && orders[id].userId == user
    ensures r.Found? ==> r.order == orders[id]
  {
    if fault then Failed
    else if id !in orders || orders[id].userId != user then NotFound
    else Found(orders[id])
  }

  /**
   * One page of a scan of the orders table with the default limit: at most
   * 1000 distinct stored rows.  The page may end earlier, at 1 MB of data,
   * so it need not hold every stored order even below 1000.
   */
  predicate IsOrderScan(rows: seq<Order>, orders: map<int, Order>)
  {
    && |rows| <= ScanLimit
    && (forall i :: 0 <= i < |rows| ==> rows[i].id in orders && orders[rows[i].id] == rows[i])
    && (forall i, j :: 0 <= i < j < |rows| ==> rows[i].id != rows[j].id)
  }

  /** The page holds every stored order: the table fits both the row limit and the page size. */
  predicate HoldsAll(rows: seq<Order>, orders: map<int, Order>)
  {
    forall id :: id in orders ==> exists i :: 0 <= i < |rows| && rows[i].id == id
  }

  /**
   * The scan's `userId = :userId` filter, which runs on the rows the limit let
   * through; `owner` reads a row's `userId`.
   */
  function Owned<T(!new)>(rows: seq<T>, owner: T -> string, user: string): (r: seq<T>)
    ensures |r| <= |rows|
    ensures forall o :: o in r <==> o in rows && owner(o) == user
  {
    if |rows| == 0 then []
    else if owner(rows[|rows| - 1]) == user then Owned(rows[..|rows| - 1], owner, user) + [rows[|rows| - 1]]
    else Owned(rows[..|rows| - 1], owner, user)
  }

  /** The owner of a monolith order. */
  function OwnerOf(o: Order): string
  {
    o.userId
  }

  /** `getOrdersFromDB`: the caller's orders, or none when the scan fails. */
  function ViewOrders(rows: seq<Order>, user: string, fault: bool): seq<Order>
  {
    if fault then [] else Owned(rows, OwnerOf, user)
  }

  /** The ids of a list of orders. */
  function OrderIds(s: seq<Order>): set<int>
  {
    if |s| == 0 then {} else OrderIds(s[..|s| - 1]) + {s[|s| - 1].id}
  }

  lemma {:induction false} OrderIdsMembers(s: seq<Order>)
    ensures forall id :: id in OrderIds(s) <==> exists i :: 0 <= i < |s| && s[i].id == id
  {
    if |s| > 0 {
      var front := s[..|s| - 1];
      OrderIdsMembers(front);
      assert forall i :: 0 <= i < |front| ==> front[i] == s[i];
    }
  }

  /** Listing one more order adds its id. */
  lemma OrderIdsSnoc(s: seq<Order>, i: nat)
    requires i < |s|
    ensures OrderIds(s[..i + 1]) == OrderIds(s[..i]) + {s[i].id}
  {
    assert s[..i + 1][..i] == s[..i];
  }

  /**
   * `viewOrders` lists only stored orders of the caller, and every order of
   * the caller on the scanned page; when the page holds the whole table it
   * lists every one of them, and a failed scan lists none.
   */
  lemma ViewOrdersOwned(rows: seq<Order>, orders: map<int, Order>, user: string, fault: bool)
    requires IsOrderScan(rows, orders)
    ensures forall o :: o in ViewOrders(rows, user, fault) ==>
      o.userId == user && o.id in orders && orders[o.id] == o
    ensures fault ==> ViewOrders(rows, user, fault) == []
    ensures !fault ==> forall o :: o in rows && o.userId == user ==> o in ViewOrders(rows, user, fault)
    ensures !fault && HoldsAll(rows, orders) ==>
      forall id :: id in orders && orders[id].userId == user ==> orders[id] in ViewOrders(rows, user, fault)
  {
    if !fault && HoldsAll(rows, orders) {
      forall id | id in orders && orders[id].userId == user
        ensures orders[id] in ViewOrders(rows, user, fault)
      {
        var i :| 0 <= i < |rows| && rows[i].id == id;
        assert rows[i] in rows;
      }
    }
  }

  /** The table after `clearOrders`: every order `viewOrders` would list is deleted. */
  function ClearedOrders(orders: map<int, Order>, rows: seq<Order>, user: string, fault: bool): map<int, Order>
  {
    orders - OrderIds(ViewOrders(rows, user, fault))
  }

  /** `clearOrders` never deletes another user's order, never alters a kept one, and deletes nothing when the scan fails. */
  lemma ClearKeepsOthers(orders: map<int, Order>, rows: seq<Order>, user: string, fault: bool)
    requires IsOrderScan(rows, orders)
    ensures var t := ClearedOrders(orders, rows, user, fault);
      && (forall id :: id in orders && orders[id].userId != user ==> id in t && t[id] == orders[id])
      && (forall id :: id in t ==> id in orders && t[id] == orders[id])
      && (fault ==> t == orders)
  {
    var owned := ViewOrders(rows, user, fault);
    ViewOrdersOwned(rows, orders, user, fault);
    OrderIdsMembers(owned);
  }

  /**
   * `clearOrders` deletes exactly the caller's orders on the scanned page: one
   * of the caller's orders survives exactly when the page missed it, so when
   * the page holds the whole table none of them is left.
   */
  lemma ClearRemovesOwn(orders: map<int, Order>, rows: seq<Order>, user: string)
    requires IsOrderScan(rows, orders)
    ensures forall id :: id in orders && orders[id].userId == user ==>
      (id in ClearedOrders(orders, rows, user, false) <==> id !in OrderIds(rows))
    ensures HoldsAll(rows, orders) ==>
      forall id :: id in ClearedOrders(orders, rows, user, false) ==> orders[id].userId != user
  {
    var owned := ViewOrders(rows, user, false);
    ViewOrdersOwned(rows, orders, user, false);
    OrderIdsMembers(owned);
    OrderIdsMembers(rows);
    forall id | id in orders && orders[id].userId == user
      ensures id in OrderIds(owned) <==> id in OrderIds(rows)
    {
      if id in OrderIds(rows) {
        var i :| 0 <= i < |rows| && rows[i].id == id;
        assert rows[i] in rows;
        var k :| 0 <= k < |owned| && owned[k] == rows[i];
      }
      if id in OrderIds(owned) {
        var k :| 0 <= k < |owned| && owned[k].id == id;
        assert owned[k] in owned;
        var i :| 0 <= i < |rows| && rows[i] == owned[k];
      }
    }
    if HoldsAll(rows, orders) {
      forall id | id in orders && orders[id].userId == user
        ensures id in OrderIds(rows)
      {
        var i :| 0 <= i < |rows| && rows[i].id == id;
      }
    }
  }

  // ---------------------------------------------------------------------------

  class OrderTable {
    var orders: map<int, Order>

    constructor ()
      ensures orders == map[]
    {
      orders := map[];
    }

    /** `put`: the order replaces any order stored under its id. */
    method Put(order: Order)
      modifies this
      ensures orders == old(orders)[order.id := order]
    {
      orders := orders[order.id := order];
    }

    method Delete(id: int)
      modifies this
      ensures orders == old(orders) - {id}
    {
      orders := orders - {id};
    }
  }

  class OrderController {
    const catalog: ProductStore
    const carts: CartTable
    const table: OrderTable

    constructor (catalog: ProductStore, carts: CartTable, table: OrderTable)
      ensures this.catalog == catalog && this.carts == carts && this.table == table
    {
      this.catalog := catalog;
      this.carts := carts;
      this.table := table;
    }

    /** `placeOrder`: build the lines and total, write the order, then empty the cart. */
    method PlaceOrder(user: string, customer: Customer, now: int, date: string, orderFault: bool, cartFault: bool)
      returns (out: PlaceOutcome)
      requires catalog.Valid() && CartsValid(carts.carts)
      modifies carts, table
      ensures CartsValid(carts.carts)
      ensures catalog.products == old(catalog.products)
      ensures (out, table.orders, carts.carts)
           == PlaceSpec(catalog.products, old(table.orders), old(carts.carts), user, customer, now, date, orderFault, cartFault)
    {
      var cartItems := carts.CartOf(user);
      if |cartItems| == 0 {
        return EmptyCart;
      }
      var built, total := BuildLines(cartItems);
      if built.None? {
        return ProductMissing;
      }
      if orderFault {
        return OrderWriteFailed;
      }
      table.Put(Order(now, user, date, customer, built.value, total, Confirmed));
      if !cartFault {
        carts.Save(user, []);
      }
      out := Placed(now);
    }

    /** The `Promise.all` over the cart: resolve each entry's product and build its line, summing as it goes. */
    method BuildLines(items: seq<CartItem>) returns (lines: Option<seq<OrderLine>>, total: int)
      requires catalog.Valid()
      ensures lines == OrderLines(catalog.products, items)
      ensures lines.Some? ==> total == OrderTotal(lines.value)
    {
      var acc: seq<OrderLine> := [];
      total := 0;
      var i := 0;
      while i < |items|
        invariant 0 <= i <= |items|
        invariant OrderLines(catalog.products, items[..i]) == Some(acc)
        invariant total == OrderTotal(acc)
      {
        var item := items[i];
        var product := catalog.GetProductById(item.productId, false);
        if product.None? {
          OrderLinesStop(catalog.products, items, i);
          return None, total;
        }
        var line := LineFor(product.value, item);
        OrderLinesSnoc(catalog.products, items, i, acc);
        total := total + line.itemTotal;
        acc := acc + [line];
        i := i + 1;
      }
      assert items[..i] == items;
      lines := Some(acc);
    }

    /** `clearOrders`: delete, one by one, every order `viewOrders` lists for the caller. */
    method ClearOrders(user: string, rows: seq<Order>, fault: bool)
      modifies table
      ensures table.orders == ClearedOrders(old(table.orders), rows, user, fault)
    {
      var owned := ViewOrders(rows, user, fault);
      var i := 0;
      while i < |owned|
        invariant 0 <= i <= |owned|
        invariant table.orders == old(table.orders) - OrderIds(owned[..i])
      {
        table.Delete(owned[i].id);
        OrderIdsSnoc(owned, i);
        i := i + 1;
      }
      assert owned[..i] == owned;
    }
  }
}
