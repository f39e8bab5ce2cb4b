/**
 * The application wiring in `app.js`: the three limiter instances guarding
 * the routes, and the per-request middleware that gives every session a cart
 * and an order list and trims them to bounded sizes.
 */
module App {
  import opened Wrappers
  import opened RateLimiter

  /** `/orders`: 10 requests per 15 minutes. */
  const OrderWindowMs := 15 * 60 * 1000
  const OrderMax := 10
  /** `/products`, `/shop`, `/cart`, `/api/ai`: 100 requests per 15 minutes. */
  const GeneralWindowMs := 15 * 60 * 1000
  const GeneralMax := 100
  /** `/stress`: 50 requests per minute. */
  const StressWindowMs := 60 * 1000
  const StressMax := 50

  /** The session cart keeps at most its first 50 entries, the order list its last 100. */
  const MaxSessionCart := 50
  const MaxSessionOrders := 100

  /** `n` true verdicts followed by `m` false ones. */
  function Verdicts(n: nat, m: nat): seq<bool>
  {
    seq(n, _ => true) + seq(m, _ => false)
  }

  /** A burst of `n` requests at one instant against a fresh limiter admits exactly `max` of them. */
  lemma BurstAdmitsMax(windowMs: int, max: nat, extra: nat, key: string, now: int)
    requires windowMs > 0
    ensures Burst(Table([], map[]), key, now, windowMs, max, max + extra).0 == Verdicts(max, extra)
  {
    if max + extra > 0 {
      BurstFromEmpty(key, now, windowMs, max, max + extra);
    }
  }

  /** The order limiter admits ten simultaneous requests from one client and refuses the eleventh. */
  lemma OrderLimit(key: string, now: int)
    ensures Burst(Table([], map[]), key, now, OrderWindowMs, OrderMax, 11).0 == Verdicts(10, 1)
  {
    BurstAdmitsMax(OrderWindowMs, OrderMax, 1, key, now);
  }

  /** The general limiter admits a hundred simultaneous requests and refuses the next. */
  lemma GeneralLimit(key: string, now: int)
    ensures Burst(Table([], map[]), key, now, GeneralWindowMs, GeneralMax, 101).0 == Verdicts(100, 1)
  {
    BurstAdmitsMax(GeneralWindowMs, GeneralMax, 1, key, now);
  }

  /** The stress limiter admits fifty simultaneous requests and refuses the next. */
  lemma StressLimit(key: string, now: int)
    ensures Burst(Table([], map[]), key, now, StressWindowMs, StressMax, 51).0 == Verdicts(50, 1)
  {
    BurstAdmitsMax(StressWindowMs, StressMax, 1, key, now);
  }

  /** A refused order request is admitted again once the window has passed over every earlier one. */
  lemma OrderLimitRecovers(t: Table, key: string, now: int)
    requires forall x :: x in TimesOf(t, key) ==> x <= now - OrderWindowMs
    ensures Admit(t, key, now, OrderWindowMs, OrderMax, false).0
  {
    ExpiredKeyAdmitted(t, key, now, OrderWindowMs, OrderMax, false);
  }

  /** `s.slice(0, n)` for `n` >= 0. */
  function KeepFirst<T>(s: seq<T>, n: nat): (r: seq<T>)
    ensures |r| == if |s| <= n then |s| else n
    ensures r <= s
  {
    if |s| > n then s[..n] else s
  }

  /** `s.slice(-n)` when `s` is longer than `n`, otherwise `s` itself. */
  function KeepLast<T>(s: seq<T>, n: nat): (r: seq<T>)
    ensures |r| == if |s| <= n then |s| else n
    ensures forall i :: 0 <= i < |r| ==> r[i] == s[|s| - |r| + i]
  {
    if |s| > n then s[|s| - n..] else s
  }

  /** The session's cart and order list after the middleware: present, and within bounds. */
  function Normalized<C, O>(cart: Option<seq<C>>, orders: Option<seq<O>>): (seq<C>, seq<O>)
  {
    (KeepFirst(cart.GetOr([]), MaxSessionCart), KeepLast(orders.GetOr([]), MaxSessionOrders))
  }

  /**
   * The middleware leaves a missing cart or order list empty, a short one as
   * it was, and a long one trimmed to the first 50 cart entries and the most
   * recent 100 orders; running it again changes nothing.
   */
  lemma NormalizedBounds<C, O>(cart: Option<seq<C>>, orders: Option<seq<O>>)
    ensures cart.None? ==> Normalized(cart, orders).0 == []
    ensures orders.None? ==> Normalized(cart, orders).1 == []
    ensures cart.Some? && |cart.value| <= MaxSessionCart ==> Normalized(cart, orders).0 == cart.value
    ensures orders.Some? && |orders.value| <= MaxSessionOrders ==> Normalized(cart, orders).1 == orders.value
    ensures cart.Some? && |cart.value| > MaxSessionCart ==> Normalized(cart, orders).0 == cart.value[..MaxSessionCart]
    ensures orders.Some? && |orders.value| > MaxSessionOrders
      ==> Normalized(cart, orders).1 == orders.value[|orders.value| - MaxSessionOrders..]
    ensures Normalized(Some(Normalized(cart, orders).0), Some(Normalized(cart, orders).1)) == Normalized(cart, orders)
  {
  }

  /** The session fields the middleware touches; a missing field is `None`. */
  class Session<C, O> {
    var cart: Option<seq<C>>
    var orders: Option<seq<O>>

    constructor (cart: Option<seq<C>>, orders: Option<seq<O>>)
      ensures this.cart == cart && this.orders == orders
    {
      this.cart := cart;
      this.orders := orders;
    }

    /** The session-initialisation middleware. */
    method Normalize()
      modifies this
      ensures (cart, orders) == (Some(Normalized(old(cart), old(orders)).0), Some(Normalized(old(cart), old(orders)).1))
    {
      if cart.None? {
        cart := Some([]);
      }
      if orders.None? {
        orders := Some([]);
      }
      if |cart.value| > MaxSessionCart {
        cart := Some(cart.value[..MaxSessionCart]);
      }
      if |orders.value| > MaxSessionOrders {
        orders := Some(orders.value[|orders.value| - MaxSessionOrders..]);
      }
    }
  }
}
