/**
 * Cart entries `{productId, quantity}` and the list operations both cart
 * implementations perform on them: `findIndex`, `filter`, an in-place
 * quantity change and `push`.  `Qty` is the number of units of one product a
 * cart holds; the lemmas say how each list operation changes it, which is what
 * the stock-conservation proofs need.
 */
module CartItems {

  datatype CartItem = CartItem(productId: int, quantity: int)

  /** `items.findIndex(item => item.productId === pid)`: the first match, or -1. */
  function IndexOf(items: seq<CartItem>, pid: int): (r: int)
    ensures -1 <= r < |items|
    ensures r == -1 <==> forall i :: 0 <= i < |items| ==> items[i].productId != pid
    ensures r >= 0 ==> items[r].productId == pid
    ensures r >= 0 ==> forall i :: 0 <= i < r ==> items[i].productId != pid
  {
    if |items| == 0 then -1
    else if items[0].productId == pid then 0
    else
      var k := IndexOf(items[1..], pid);
      if k == -1 then -1 else k + 1
  }

  /** Units of product `pid` the entries hold, summed over every entry for it. */
  function Qty(items: seq<CartItem>, pid: int): int
  {
    if |items| == 0 then 0
    else (if items[0].productId == pid then items[0].quantity else 0) + Qty(items[1..], pid)
  }

  /** `items.filter(item => item.productId !== pid)`. */
  function Without(items: seq<CartItem>, pid: int): (r: seq<CartItem>)
    ensures |r| <= |items|
    ensures forall i :: 0 <= i < |r| ==> r[i].productId != pid
    ensures forall it :: it in r <==> it in items && it.productId != pid
  {
    if |items| == 0 then []
    else if items[0].productId == pid then Without(items[1..], pid)
    else [items[0]] + Without(items[1..], pid)
  }

  /** `items[k].quantity = q`, done in place on the array. */
  function SetQuantity(items: seq<CartItem>, k: int, q: int): (r: seq<CartItem>)
    requires 0 <= k < |items|
    ensures |r| == |items| && r[k] == CartItem(items[k].productId, q)
    ensures forall i :: 0 <= i < |items| && i != k ==> r[i] == items[i]
  {
    items[k := items[k].(quantity := q)]
  }

  /** A cart record read from the carts table: a user without a record has an empty cart. */
  function StoredCart(carts: map<string, seq<CartItem>>, user: string): seq<CartItem>
  {
    if user in carts then carts[user] else []
  }

  /** No two entries name the same product. */
  predicate UniqueIds(items: seq<CartItem>)
  {
    forall i, j :: 0 <= i < j < |items| ==> items[i].productId != items[j].productId
  }

  lemma {:induction false} QtyAbsent(items: seq<CartItem>, pid: int)
    requires forall i :: 0 <= i < |items| ==> items[i].productId != pid
    ensures Qty(items, pid) == 0
  {
    if |items| > 0 {
      QtyAbsent(items[1..], pid);
    }
  }

  /** In a cart without duplicates, an entry's quantity is all the cart holds of its product. */
  lemma {:induction false} QtyAt(items: seq<CartItem>, k: int)
    requires UniqueIds(items) && 0 <= k < |items|
    ensures Qty(items, items[k].productId) == items[k].quantity
  {
    if k == 0 {
      QtyAbsent(items[1..], items[0].productId);
    } else {
      QtyAt(items[1..], k - 1);
    }
  }

  /** Changing one entry's quantity changes only its product's total, by the difference. */
  lemma {:induction false} QtySet(items: seq<CartItem>, k: int, q: int, pid: int)
    requires 0 <= k < |items|
    ensures Qty(SetQuantity(items, k, q), pid)
         == Qty(items, pid) + (if items[k].productId == pid then q - items[k].quantity else 0)
  {
    var r := SetQuantity(items, k, q);
    if k == 0 {
      assert r[1..] == items[1..];
    } else {
      assert r[1..] == SetQuantity(items[1..], k - 1, q);
      QtySet(items[1..], k - 1, q, pid);
    }
  }

  /** Appending an entry adds its quantity to its own product only. */
  lemma {:induction false} QtyAppend(items: seq<CartItem>, x: CartItem, pid: int)
    ensures Qty(items + [x], pid) == Qty(items, pid) + (if x.productId == pid then x.quantity else 0)
  {
    if |items| == 0 {
      assert items + [x] == [x];
    } else {
      assert (items + [x])[1..] == items[1..] + [x];
      QtyAppend(items[1..], x, pid);
    }
  }

  /** Filtering out `pid` drops all its units and keeps every other product's. */
  lemma {:induction false} QtyWithout(items: seq<CartItem>, pid: int, other: int)
    ensures Qty(Without(items, pid), other) == if other == pid then 0 else Qty(items, other)
  {
    if |items| > 0 {
      QtyWithout(items[1..], pid, other);
      if items[0].productId != pid {
        assert ([items[0]] + Without(items[1..], pid))[1..] == Without(items[1..], pid);
      }
    }
  }

  lemma {:induction false} UniqueWithout(items: seq<CartItem>, pid: int)
    requires UniqueIds(items)
    ensures UniqueIds(Without(items, pid))
  {
    if |items| > 0 {
      UniqueWithout(items[1..], pid);
      if items[0].productId != pid {
        var r := Without(items[1..], pid);
        forall i | 0 <= i < |r| ensures r[i].productId != items[0].productId {
          assert r[i] in items[1..];
        }
      }
    }
  }

  /** Filtering out a product that is absent leaves the list as it was. */
  lemma {:induction false} WithoutAbsent(items: seq<CartItem>, pid: int)
    requires forall i :: 0 <= i < |items| ==> items[i].productId != pid
    ensures Without(items, pid) == items
  {
    if |items| > 0 {
      WithoutAbsent(items[1..], pid);
    }
  }

  /** Filtering distributes over concatenation: it keeps the remaining entries in their order. */
  lemma {:induction false} WithoutConcat(a: seq<CartItem>, b: seq<CartItem>, pid: int)
    ensures Without(a + b, pid) == Without(a, pid) + Without(b, pid)
  {
    if |a| == 0 {
      assert a + b == b;
    } else {
      assert (a + b)[1..] == a[1..] + b;
      WithoutConcat(a[1..], b, pid);
    }
  }
}
