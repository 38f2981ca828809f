/**
 * cart.php: the action dispatch onto the session cart, then the
 * reconciliation of the cart into `cart_items` and `total` for display.
 */
module CartPage {
  import opened Wrappers
  import opened Catalog
  import opened SessionCart
  import opened Reconcile
  import Cart

  /** The request as the page reads it: whether it is a POST, and
      the posted action, product id and quantity (ids as integers), None
      where a field is not set. */
  datatype CartRequest = CartRequest(
    isPost: bool, action: Option<string>, productId: Option<int>, quantity: Option<int>)

  datatype CartView = CartView(message: string, error: string, items: seq<LineItem>, total: int)

  /** The effect of the `switch` on the (initialised) cart. */
  function Dispatch(c: Cart.Cart, req: CartRequest): Cart.Cart {
    if !req.isPost || req.action.None? then c
    else
      var id := req.productId.GetOr(0);
      match req.action.value
      case "update" => Cart.Update(c, id, req.quantity.GetOr(0))
      case "remove" => Cart.Remove(c, id)
      case "clear" => map[]
      case _ => c
  }

  function ActionMessage(req: CartRequest): string {
    if !req.isPost || req.action.None? then ""
    else
      match req.action.value
      case "update" => "Cart updated successfully"
      case "remove" => "Item removed from cart"
      case "clear" => "Cart cleared"
      case _ => ""
  }

  /** The page: initialise the cart, dispatch, then reconcile unless the cart
      is empty. `readFault` is the message of a PDOException thrown by the
      reconciliation query, if it throws. */
  method HandleCart(session: Session, table: seq<Product>, req: CartRequest,
                    readFault: Option<string>)
    returns (view: CartView)
    modifies session
    ensures session.cart == Some(Dispatch(old(session.Contents()), req))
    ensures view.message == ActionMessage(req)
    ensures session.Contents() == map[] ==>
      view.items == [] && view.total == 0 && view.error == ""
    ensures session.Contents() != map[] && readFault.None? ==>
      view.items == Reconciled(table, session.Contents()) &&
      view.total == SumSubtotals(view.items) && view.error == ""
    ensures session.Contents() != map[] && readFault.None? && UniqueIds(table) ==>
      view.total == Cart.Total(session.Contents(), table)
    ensures session.Contents() != map[] && readFault.Some? ==>
      view.items == [] && view.total == 0 &&
      view.error == "Error fetching cart items: " + readFault.value
  {
    if session.cart.None? {
      session.cart := Some(map[]);
    }
    var message := "";
    if req.isPost && req.action.Some? {
      var productId := req.productId.GetOr(0);
      match req.action.value {
        case "update" =>
          var quantity := req.quantity.GetOr(0);
          session.UpdateCartQuantity(productId, quantity);
          message := "Cart updated successfully";
        case "remove" =>
          session.RemoveFromCart(productId);
          message := "Item removed from cart";
        case "clear" =>
          session.ClearCart();
          message := "Cart cleared";
        case _ =>
      }
    }
    var items: seq<LineItem> := [];
    var total := 0;
    var error := "";
    if session.cart.value != map[] {
      if readFault.Some? {
        error := "Error fetching cart items: " + readFault.value;
      } else {
        items, total := ReconcileCart(table, session.cart.value);
      }
    }
    view := CartView(message, error, items, total);
  }

  /** An `update` without a quantity field passes 0 and so removes the entry. */
  lemma UpdateWithoutQuantityRemoves(c: Cart.Cart, id: int)
    ensures Dispatch(c, CartRequest(true, Some("update"), Some(id), None)) == Cart.Remove(c, id)
    ensures id !in Dispatch(c, CartRequest(true, Some("update"), Some(id), None))
  {
  }

  /** `remove` and `clear` are removeFromCart and clearCart; a missing
      product id means id 0. */
  lemma RemoveAndClearActions(c: Cart.Cart, id: Option<int>, q: Option<int>)
    ensures Dispatch(c, CartRequest(true, Some("remove"), id, q)) == Cart.Remove(c, id.GetOr(0))
    ensures Dispatch(c, CartRequest(true, Some("clear"), id, q)) == map[]
  {
  }

  /** A GET, a POST without an action, and an unrecognised action leave the
      cart as it was. */
  lemma OtherRequestsKeepCart(c: Cart.Cart, req: CartRequest)
    requires !req.isPost || req.action.None? ||
             req.action.value !in {"update", "remove", "clear"}
    ensures Dispatch(c, req) == c
    ensures ActionMessage(req) == ""
  {
  }
}
