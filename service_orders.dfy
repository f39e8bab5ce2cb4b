/**
 * The order service: its model (`services/order-service/models/order.js`) and
 * its handlers (`services/order-service/controllers/orderController.js`), with
 * the cart service called directly.  An order is built from the cart page,
 * one item per page line; the cart is cleared only after the order is stored;
 * and an order is returned to whoever asks for its id.
 */
module OrderService {
  import opened Wrappers
  import opened CartItems
  import opened ProductService
  import opened CartModel
  import opened CartApi
  import MonolithOrders

  type Customer = MonolithOrders.Customer

  /** `{id, name, price}` copied from a cart page line; name and price are absent on a bare record. */
  datatype ProductRef = ProductRef(id: int, name: Option<string>, price: Option<int>)
  datatype OrderItem = OrderItem(product: ProductRef, quantity: int, itemTotal: Option<int>)

  /** What a caller hands `createOrder`; `id` and `status` are optional. */
  datatype OrderData = OrderData(
    id: Option<int>, userId: string, customer: Customer, items: seq<OrderItem>, total: Option<int>, status: Option<string>)

  datatype ServiceOrder = ServiceOrder(
    id: int, userId: string, customer: Customer, items: seq<OrderItem>, total: Option<int>, createdAt: int, status: string)

  datatype CreateResponse = Created(order: ServiceOrder) | CartEmpty | OrderFailed

  /**
   * `createOrder`'s record: the clock id unless the data carries one, the
   * data's fields, a creation stamp, and status `Confirmed` whatever the data says.
   */
  function BuildOrder(data: OrderData, now: int): (o: ServiceOrder)
    ensures o.id == (if data.id.Some? then data.id.value else now)
    ensures o.status == MonolithOrders.Confirmed
    ensures o.userId == data.userId && o.customer == data.customer && o.items == data.items && o.total == data.total
    ensures o.createdAt == now
  {
    ServiceOrder(data.id.GetOr(now), data.userId, data.customer, data.items, data.total, now, MonolithOrders.Confirmed)
  }

  /** The order item for one cart page line. */
  function ItemFor(line: ViewLine): OrderItem
  {
    var d := line.product.details;
    OrderItem(
      ProductRef(line.product.id, if d.Some? then Some(d.value.name) else None, if d.Some? then Some(d.value.price) else None),
      line.quantity, line.itemTotal)
  }

  /** `cartItems.map(...)`: one order item per page line, in order. */
  function OrderItems(lines: seq<ViewLine>): (r: seq<OrderItem>)
    ensures |r| == |lines|
    ensures forall i :: 0 <= i < |lines| ==> r[i] == ItemFor(lines[i])
  {
    seq(|lines|, i requires 0 <= i < |lines| => ItemFor(lines[i]))
  }

  /**
   * `createOrder` (handler) on the three tables: read the cart page, refuse an
   * empty one, store the order, then clear the cart.  `createFault` fails the
   * order write; `clearFault` fails the cart write that follows it.
   */
  function CreateSpec(
    products: map<int, ServiceProduct>, carts: map<string, seq<CartItem>>, orders: map<int, ServiceOrder>,
    user: string, customer: Customer, now: int, createFault: bool, clearFault: bool
  ): (CreateResponse, map<int, ServiceOrder>, map<string, seq<CartItem>>)
  {
    var view := GetCartView(products, StoredCart(carts, user));
    if |view.items| == 0 then (CartEmpty, orders, carts)
    else if createFault then (OrderFailed, orders, carts)
    else
      var order := BuildOrder(OrderData(None, user, customer, OrderItems(view.items), view.total, None), now);
      (if clearFault then OrderFailed else Created(order), orders[order.id := order], if clearFault then carts else carts[user := []])
  }

  /**
   * A cart page without lines is refused with no write, even when the stored
   * cart has entries whose products no longer resolve; a failed order write
   * writes nothing.
   */
  lemma CreateRefusals(
    products: map<int, ServiceProduct>, carts: map<string, seq<CartItem>>, orders: map<int, ServiceOrder>,
    user: string, customer: Customer, now: int, createFault: bool, clearFault: bool)
    ensures var (r, o, c) := CreateSpec(products, carts, orders, user, customer, now, createFault, clearFault);
      && (r == CartEmpty <==> |Resolvable(products, StoredCart(carts, user))| == 0)
      && (r == CartEmpty ==> o == orders && c == carts)
      && (createFault ==> o == orders && c == carts && !r.Created?)
  {
  }

  /**
   * A created order belongs to the caller, is confirmed, carries the clock id,
   * has one item per cart page line with that line's product id, name and
   * price (none for a bare record), quantity and line total, and the page's
   * total; the cart is then empty and
   * no other order or cart changed.  If clearing fails the order stays stored
   * and the cart is kept.
   */
  lemma CreatedOrder(
    products: map<int, ServiceProduct>, carts: map<string, seq<CartItem>>, orders: map<int, ServiceOrder>,
    user: string, customer: Customer, now: int, createFault: bool, clearFault: bool)
    ensures var (r, o, c) := CreateSpec(products, carts, orders, user, customer, now, createFault, clearFault);
      var view := GetCartView(products, StoredCart(carts, user));
      && (r.Created? <==> |view.items| > 0 && !createFault && !clearFault)
      && (r.Created? ==>
           && r.order.id == now && r.order.userId == user && r.order.status == MonolithOrders.Confirmed
           && r.order.items == OrderItems(view.items)
           && |r.order.items| == |view.items|
           && (forall i :: 0 <= i < |view.items| ==>
                var d := view.items[i].product.details;
                && r.order.items[i].product.id == view.items[i].product.id
                && r.order.items[i].product.name == (if d.Some? then Some(d.value.name) else None)
                && r.order.items[i].product.price == (if d.Some? then Some(d.value.price) else None)
                && r.order.items[i].quantity == view.items[i].quantity
                && r.order.items[i].itemTotal == view.items[i].itemTotal)
           && r.order.total == view.total
           && o == orders[now := r.order]
           && c == carts[user := []])
      && (|view.items| > 0 && !createFault && clearFault ==> r == OrderFailed && now in o && o[now].userId == user && c == carts)
  {
  }

  /** `getOrderById` (handler): the stored order for any caller; 404 when absent or when the read fails. */
  function GetOrderResponse(orders: map<int, ServiceOrder>, id: int, fault: bool): (r: Option<ServiceOrder>)
    ensures r.Some? <==> !fault && id in orders
    ensures r.Some? ==> r.value == orders[id]
  {
    if fault || id !in orders then None else Some(orders[id])
  }

  /**
   * Unlike the monolith's confirmation page, the order service shows an order
   * to a caller who does not own it.
   */
  lemma NoOwnershipCheck(order: ServiceOrder, caller: string, m: MonolithOrders.Order)
    requires caller != order.userId && m.userId == order.userId && m.id == order.id
    ensures GetOrderResponse(map[order.id := order], order.id, false) == Some(order)
    ensures MonolithOrders.OrderConfirmation(map[m.id := m], caller, m.id, false) == MonolithOrders.NotFound
  {
  }

  /** A scan of the whole orders table (no limit is set): every stored order once. */
  predicate IsFullScan(rows: seq<ServiceOrder>, orders: map<int, ServiceOrder>)
  {
    && (forall i :: 0 <= i < |rows| ==> rows[i].id in orders && orders[rows[i].id] == rows[i])
    && (forall i, j :: 0 <= i < j < |rows| ==> rows[i].id != rows[j].id)
    && (forall id :: id in orders ==> exists i :: 0 <= i < |rows| && rows[i].id == id)
  }

  /** The owner of a stored order, for the `userId = :userId` filter. */
  function OwnerOf(o: ServiceOrder): string
  {
    o.userId
  }

  /** The orders table of the service. */
  class OrderStore {
    var orders: map<int, ServiceOrder>

    constructor ()
      ensures orders == map[]
    {
      orders := map[];
    }

    /** `getOrdersByUserId`: exactly the caller's stored orders; none when the scan fails. */
    function GetOrdersByUserId(rows: seq<ServiceOrder>, user: string, fault: bool): (r: seq<ServiceOrder>)
      reads this
      requires IsFullScan(rows, orders)
      ensures fault ==> r == []
      ensures forall o :: o in r ==> o.userId == user && o.id in orders && orders[o.id] == o
      ensures !fault ==> forall id :: id in orders && orders[id].userId == user ==> orders[id] in r
    {
      if fault then []
      else
        var r := MonolithOrders.Owned(rows, OwnerOf, user);
        assert forall id :: id in orders && orders[id].userId == user ==> orders[id] in r by {
          forall id | id in orders && orders[id].userId == user
            ensures orders[id] in r
          {
            var i :| 0 <= i < |rows| && rows[i].id == id;
            assert rows[i] in rows;
          }
        }
        r
    }

    /** `Order.createOrder`: store the built order; a failed write is rethrown. */
    method CreateOrder(data: OrderData, now: int, fault: bool) returns (r: Option<ServiceOrder>)
      modifies this
      ensures fault ==> r.None? && orders == old(orders)
      ensures !fault ==> r == Some(BuildOrder(data, now)) && orders == old(orders)[r.value.id := r.value]
    {
      if fault {
        return None;
      }
      var order := BuildOrder(data, now);
      orders := orders[order.id := order];
      r := Some(order);
    }
  }

  class OrderApi {
    const catalog: ProductTable
    const store: CartStore
    const table: OrderStore

    constructor (catalog: ProductTable, store: CartStore, table: OrderStore)
      ensures this.catalog == catalog && this.store == store && this.table == table
    {
      this.catalog := catalog;
      this.store := store;
      this.table := table;
    }

    method CreateOrder(user: string, customer: Customer, now: int, createFault: bool, clearFault: bool)
      returns (res: CreateResponse)
      modifies store, table
      ensures catalog.products == old(catalog.products)
      ensures (res, table.orders, store.carts)
           == CreateSpec(catalog.products, old(store.carts), old(table.orders), user, customer, now, createFault, clearFault)
    {
      var view := GetCartView(catalog.products, store.GetCart(user, false));
      if |view.items| == 0 {
        return CartEmpty;
      }
      var orderData := OrderData(None, user, customer, OrderItems(view.items), view.total, None);
      var order := table.CreateOrder(orderData, now, createFault);
      if order.None? {
        return OrderFailed;
      }
      var cleared := store.ClearCart(user, clearFault);
      res := if cleared.Saved? then Created(order.value) else OrderFailed;
    }
  }
}
