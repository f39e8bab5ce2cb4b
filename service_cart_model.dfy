/**
 * The cart service's model (`services/cart-service/models/cart.js`): list
 * operations on one user's cart record.  Unlike the monolith, adding has no
 * per-item cap and none of these operations touch product stock.  A failed
 * read yields an empty cart; a failed write is rethrown.
 */
module CartModel {
  import opened Wrappers
  import opened CartItems

  const MaxCartEntries := 50

  datatype CartResult = Saved(items: seq<CartItem>) | CartFullError | WriteError

  /** `addItem` on the read list: refused at 50 entries, else add to the first match or append. */
  function AddItemSpec(items: seq<CartItem>, pid: int, q: int): Option<seq<CartItem>>
  {
    if |items| >= MaxCartEntries then None
    else
      var k := IndexOf(items, pid);
      Some(if k >= 0 then SetQuantity(items, k, items[k].quantity + q) else items + [CartItem(pid, q)])
  }

  /** `updateItem` on the read list: a quantity <= 0 filters the product out, any other sets its first entry. */
  function UpdateItemSpec(items: seq<CartItem>, pid: int, q: int): seq<CartItem>
  {
    if q <= 0 then Without(items, pid)
    else
      var k := IndexOf(items, pid);
      if k >= 0 then SetQuantity(items, k, q) else items
  }

  /**
   * Adding is refused exactly when the cart has 50 or more entries, whether or
   * not the product is in it; otherwise the product gains exactly `q` units,
   * no other product's units change, and a product already present keeps the
   * entry count.
   */
  lemma {:induction false} AddItemEffect(items: seq<CartItem>, pid: int, q: int)
    ensures AddItemSpec(items, pid, q).None? <==> |items| >= MaxCartEntries
    ensures AddItemSpec(items, pid, q).Some? ==>
      var r := AddItemSpec(items, pid, q).value;
      && Qty(r, pid) == Qty(items, pid) + q
      && (forall other :: other != pid ==> Qty(r, other) == Qty(items, other))
      && |r| == (if IndexOf(items, pid) >= 0 then |items| else |items| + 1)
      && |r| <= MaxCartEntries
  {
    if |items| < MaxCartEntries {
      var r := AddItemSpec(items, pid, q).value;
      var k := IndexOf(items, pid);
      if k >= 0 {
        QtySet(items, k, items[k].quantity + q, pid);
        forall other | other != pid
          ensures Qty(r, other) == Qty(items, other)
        {
          QtySet(items, k, items[k].quantity + q, other);
        }
      } else {
        QtyAppend(items, CartItem(pid, q), pid);
        forall other | other != pid
          ensures Qty(r, other) == Qty(items, other)
        {
          QtyAppend(items, CartItem(pid, q), other);
        }
      }
    }
  }

  /** Adding keeps product ids unique. */
  lemma AddItemKeepsUnique(items: seq<CartItem>, pid: int, q: int)
    requires UniqueIds(items)
    ensures AddItemSpec(items, pid, q).Some? ==> UniqueIds(AddItemSpec(items, pid, q).value)
  {
  }

  /** There is no per-item cap: 99 units plus one more makes an entry of 100. */
  lemma AddItemHasNoCap()
    ensures AddItemSpec([CartItem(1, 99)], 1, 1) == Some([CartItem(1, 100)])
  {
    var items := [CartItem(1, 99)];
    assert IndexOf(items, 1) == 0;
    var r := SetQuantity(items, 0, 100);
    assert |r| == 1 && r[0] == CartItem(1, 100);
    assert r == [CartItem(1, 100)];
  }

  /**
   * Updating to a quantity <= 0 leaves no entry of the product and keeps the
   * others in order; a positive quantity sets the first entry and nothing else,
   * or changes nothing when the product is absent.
   */
  lemma UpdateItemEffect(items: seq<CartItem>, pid: int, q: int)
    ensures q <= 0 ==> UpdateItemSpec(items, pid, q) == Without(items, pid)
    ensures q <= 0 ==> forall i :: 0 <= i < |UpdateItemSpec(items, pid, q)| ==> UpdateItemSpec(items, pid, q)[i].productId != pid
    ensures q > 0 && IndexOf(items, pid) < 0 ==> UpdateItemSpec(items, pid, q) == items
    ensures q > 0 && IndexOf(items, pid) >= 0 ==>
      var k := IndexOf(items, pid);
      var r := UpdateItemSpec(items, pid, q);
      |r| == |items| && r[k] == CartItem(pid, q) && forall i :: 0 <= i < |items| && i != k ==> r[i] == items[i]
  {
  }

  /** With unique ids, the product ends with exactly the requested units (none for a quantity <= 0). */
  lemma UpdateItemQuantity(items: seq<CartItem>, pid: int, q: int)
    requires UniqueIds(items)
    ensures Qty(UpdateItemSpec(items, pid, q), pid) == (if q <= 0 || IndexOf(items, pid) < 0 then 0 else q)
    ensures forall other :: other != pid ==> Qty(UpdateItemSpec(items, pid, q), other) == Qty(items, other)
  {
    var k := IndexOf(items, pid);
    if q <= 0 {
      QtyWithout(items, pid, pid);
      forall other | other != pid
        ensures Qty(UpdateItemSpec(items, pid, q), other) == Qty(items, other)
      {
        QtyWithout(items, pid, other);
      }
    } else if k >= 0 {
      QtySet(items, k, q, pid);
      forall other | other != pid
        ensures Qty(UpdateItemSpec(items, pid, q), other) == Qty(items, other)
      {
        QtySet(items, k, q, other);
      }
    } else {
      QtyAbsent(items, pid);
    }
  }

  /** The carts table of the service. */
  class CartStore {
    var carts: map<string, seq<CartItem>>

    constructor ()
      ensures carts == map[]
    {
      carts := map[];
    }

    /** `getCart`: the stored items, or an empty list when there is no record or the read fails. */
    function GetCart(user: string, readFault: bool): (r: seq<CartItem>)
      reads this
      ensures readFault || user !in carts ==> r == []
      ensures !readFault && user in carts ==> r == carts[user]
    {
      if readFault then [] else StoredCart(carts, user)
    }

    /** `saveCart`: store the list and return exactly it; a failed write is rethrown. */
    method SaveCart(user: string, items: seq<CartItem>, writeFault: bool) returns (r: Option<seq<CartItem>>)
      modifies this
      ensures writeFault ==> r.None? && carts == old(carts)
      ensures !writeFault ==> r == Some(items) && carts == old(carts)[user := items]
    {
      if writeFault {
        return None;
      }
      carts := carts[user := items];
      r := Some(items);
    }

    method AddItem(user: string, pid: int, q: int, readFault: bool, writeFault: bool) returns (r: CartResult)
      modifies this
      ensures var read := old(GetCart(user, readFault));
        match AddItemSpec(read, pid, q)
        case None => r == CartFullError && carts == old(carts)
        case Some(items) =>
          if writeFault then r == WriteError && carts == old(carts)
          else r == Saved(items) && carts == old(carts)[user := items]
    {
      var cartItems := GetCart(user, readFault);
      if |cartItems| >= MaxCartEntries {
        return CartFullError;
      }
      var existingItemIndex := IndexOf(cartItems, pid);
      if existingItemIndex >= 0 {
        cartItems := SetQuantity(cartItems, existingItemIndex, cartItems[existingItemIndex].quantity + q);
      } else {
        cartItems := cartItems + [CartItem(pid, q)];
      }
      var saved := SaveCart(user, cartItems, writeFault);
      r := if saved.Some? then Saved(saved.value) else WriteError;
    }

    method UpdateItem(user: string, pid: int, q: int, readFault: bool, writeFault: bool) returns (r: CartResult)
      modifies this
      ensures var items := UpdateItemSpec(old(GetCart(user, readFault)), pid, q);
        if writeFault then r == WriteError && carts == old(carts)
        else r == Saved(items) && carts == old(carts)[user := items]
    {
      var cartItems := GetCart(user, readFault);
      if q <= 0 {
        cartItems := Without(cartItems, pid);
      } else {
        var itemIndex := IndexOf(cartItems, pid);
        if itemIndex >= 0 {
          cartItems := SetQuantity(cartItems, itemIndex, q);
        }
      }
      var saved := SaveCart(user, cartItems, writeFault);
      r := if saved.Some? then Saved(saved.value) else WriteError;
    }

    method RemoveItem(user: string, pid: int, readFault: bool, writeFault: bool) returns (r: CartResult)
      modifies this
      ensures var items := Without(old(GetCart(user, readFault)), pid);
        if writeFault then r == WriteError && carts == old(carts)
        else r == Saved(items) && carts == old(carts)[user := items]
    {
      var cartItems := GetCart(user, readFault);
      var updatedItems := Without(cartItems, pid);
      var saved := SaveCart(user, updatedItems, writeFault);
      r := if saved.Some? then Saved(saved.value) else WriteError;
    }

    method ClearCart(user: string, writeFault: bool) returns (r: CartResult)
      modifies this
      ensures writeFault ==> r == WriteError && carts == old(carts)
      ensures !writeFault ==> r == Saved([]) && carts == old(carts)[user := []]
    {
      var saved := SaveCart(user, [], writeFault);
      r := if saved.Some? then Saved(saved.value) else WriteError;
    }
  }
}
