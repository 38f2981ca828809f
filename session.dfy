/**
 * `$_SESSION['cart']` and the helpers of includes/functions.php that
 * change it in place. `cart` is `None` until something creates the array.
 */
module SessionCart {
  import opened Wrappers
  import opened MapSum
  import opened Catalog
  import Cart

  class Session {
    var cart: Option<Cart.Cart>

    /** A fresh session: no cart array yet. */
    constructor ()
      ensures cart == None
    {
      cart := None;
    }

    /** The cart as the helpers see it: an unset cart reads as empty. */
    function Contents(): Cart.Cart
      reads this
    {
      cart.GetOr(map[])
    }

    /** `getCartItemsCount`: 0 without a cart, otherwise the sum of quantities. */
    ghost function ItemsCount(): (n: int)
      reads this
      ensures cart.None? ==> n == 0
      ensures cart == Some(map[]) ==> n == 0
    {
      if cart.None? then 0 else Cart.ItemCount(cart.value)
    }

    /** `addToCart`: creates the cart when unset, then adds. */
    method AddToCart(productId: int, quantity: int)
      modifies this
      ensures cart == Some(Cart.Add(old(Contents()), productId, quantity))
      ensures ItemsCount() == old(ItemsCount()) + quantity
    {
      if cart.None? {
        cart := Some(map[]);
      }
      var c := cart.value;
      if productId in c {
        cart := Some(c[productId := c[productId] + quantity]);
      } else {
        cart := Some(c[productId := quantity]);
      }
      Cart.ItemCountAfterAdd(old(Contents()), productId, quantity);
    }

    /** `removeFromCart`: unsets the entry if it is set; an unset cart stays unset. */
    method RemoveFromCart(productId: int)
      modifies this
      ensures cart.Some? == old(cart).Some?
      ensures Contents() == Cart.Remove(old(Contents()), productId)
    {
      if cart.Some? && productId in cart.value {
        cart := Some(cart.value - {productId});
      }
    }

    /** `updateCartQuantity`: removal for q <= 0, otherwise an overwrite that
        creates the cart array when it is unset. */
    method UpdateCartQuantity(productId: int, quantity: int)
      modifies this
      ensures cart.Some? == (old(cart).Some? || quantity > 0)
      ensures Contents() == Cart.Update(old(Contents()), productId, quantity)
      ensures quantity > 0 ==> productId in Contents() && Contents()[productId] > 0
    {
      if quantity <= 0 {
        RemoveFromCart(productId);
      } else {
        cart := Some(Contents()[productId := quantity]);
      }
    }

    /** `clearCart`: an empty array, whatever was there (so twice is once). */
    method ClearCart()
      modifies this
      ensures cart == Some(map[])
    {
      cart := Some(map[]);
    }

    /** `getCartTotal`: one lookup per entry; entries whose product is not
        found add nothing. */
    method CartTotal(table: seq<Product>) returns (total: int)
      ensures total == Cart.Total(Contents(), table)
    {
      total := 0;
      if cart.None? || cart.value == map[] {
        Cart.EmptyCartSums(table);
        return;
      }
      var c := cart.value;
      ghost var priced := Cart.Priced(c, table);
      var todo := c.Keys;
      while todo != {}
        invariant todo <= c.Keys
        invariant total == SumValues(map k | k in c.Keys - todo :: priced[k])
        decreases todo
      {
        HasMember(todo);
        var id :| id in todo;
        ghost var before := map k | k in c.Keys - todo :: priced[k];
        var product := Lookup(table, id);
        if product.Some? {
          total := total + product.value.price * c[id];
        }
        todo := todo - {id};
        ghost var after := map k | k in c.Keys - todo :: priced[k];
        assert after == before[id := priced[id]];
        SumValuesUpdate(before, id, priced[id]);
      }
      assert (map k | k in c.Keys - todo :: priced[k]) == priced;
    }
  }
}
