/**
 * checkout.php: the empty-cart guard, the reconciliation, the address
 * check, and the transaction that writes the order header, one order line
 * and one stock overwrite per reconciled item, clears the cart and commits,
 * or rolls back when a statement throws.
 */
module Checkout {
  import opened Wrappers
  import opened PhpText
  import opened Storage
  import opened Catalog
  import opened Store
  import opened SessionCart
  import opened Reconcile
  import Cart

  /** The five posted address fields, "" when missing. */
  datatype AddressForm = AddressForm(
    address: string, city: string, state: string, zip: string, country: string)

  datatype CheckoutRequest = Show | Submit(form: AddressForm)

  datatype Outcome =
    | RedirectToCart
    | Page(items: seq<LineItem>, total: int, error: string)
    | Placed(orderId: int)

  /** The validation: any of the five raw fields empty in PHP's sense. */
  predicate MissingField(f: AddressForm) {
    Empty(f.address) || Empty(f.city) || Empty(f.state) || Empty(f.zip) || Empty(f.country)
  }

  /** The stored address: the five sanitized fields joined by newlines. */
  function ShippingAddress(f: AddressForm, sanitize: string -> string): string {
    sanitize(f.address) + "\n" + sanitize(f.city) + "\n" + sanitize(f.state) + "\n" +
    sanitize(f.zip) + "\n" + sanitize(f.country)
  }

  /** The lines the page holds before any POST is processed: none when the
      reconciliation query threw. */
  function ReadItems(table: seq<Product>, c: Cart.Cart, readFault: Option<string>): seq<LineItem> {
    if readFault.Some? then [] else Reconciled(table, c)
  }

  function ReadError(readFault: Option<string>): string {
    if readFault.Some? then "Error processing cart: " + readFault.value else ""
  }

  /** The order_items rows inserted for an order, one per line, price frozen. */
  function OrderLines(orderId: int, items: seq<LineItem>): seq<OrderItem> {
    seq(|items|, i requires 0 <= i < |items| =>
      OrderItem(orderId, items[i].id, items[i].quantity, items[i].price))
  }

  /** The sum over order lines of price times quantity. */
  function LinesTotal(lines: seq<OrderItem>): int {
    if lines == [] then 0
    else LinesTotal(lines[..|lines| - 1]) + lines[|lines| - 1].price * lines[|lines| - 1].quantity
  }

  /** The products table after the stock overwrites, item by item: each
      sets the stock read at reconciliation minus the quantity. */
  function StockAfter(table: seq<Product>, items: seq<LineItem>): seq<Product> {
    if items == [] then table
    else
      var last := items[|items| - 1];
      SetStock(StockAfter(table, items[..|items| - 1]), last.id, last.stock - last.quantity)
  }

  /** Statement numbering inside the transaction: 0 inserts the order, then
      1 + 2i inserts line i and 2 + 2i overwrites its stock; the commit comes last. */
  function CommitStep(items: seq<LineItem>): nat {
    1 + 2 * |items|
  }

  predicate Aborts(fault: Fault, items: seq<LineItem>) {
    fault.FailAt? && fault.step <= CommitStep(items)
  }

  method PlaceOrder(db: Database, session: Session, userId: int, req: CheckoutRequest,
                    sanitize: string -> string, readFault: Option<string>, fault: Fault)
    returns (outcome: Outcome)
    requires db.Valid()
    modifies db, session
    ensures db.Valid()
    // the empty-cart guard: nothing is read or written
    ensures old(session.Contents()) == map[] ==>
      outcome == RedirectToCart && session.cart == old(session.cart) &&
      db.State() == old(db.State())
    // a GET, or a POST with an empty field: the page, and no write
    ensures old(session.Contents()) != map[] && (req.Show? || MissingField(req.form)) ==>
      var items := ReadItems(old(db.products), old(session.Contents()), readFault);
      outcome == Page(items, SumSubtotals(items),
                      if req.Show? then ReadError(readFault) else "All fields are required") &&
      session.cart == old(session.cart) && db.State() == old(db.State())
    // the transaction commits
    ensures old(session.Contents()) != map[] && req.Submit? && !MissingField(req.form) &&
            !Aborts(fault, ReadItems(old(db.products), old(session.Contents()), readFault)) ==>
      var items := ReadItems(old(db.products), old(session.Contents()), readFault);
      var address := ShippingAddress(req.form, sanitize);
      && outcome == Placed(old(db.nextOrderId))
      && db.State() == old(db.State()).(
           products := StockAfter(old(db.products), items),
           orders := old(db.orders) + [Order(old(db.nextOrderId), userId, SumSubtotals(items),
                                             address, address, "pending", "paid")],
           orderItems := old(db.orderItems) + OrderLines(old(db.nextOrderId), items),
           nextOrderId := old(db.nextOrderId) + 1)
      && session.cart == Some(map[])
    // a statement throws: everything rolls back, but a failed commit comes
    // after the cart was cleared
    ensures old(session.Contents()) != map[] && req.Submit? && !MissingField(req.form) &&
            Aborts(fault, ReadItems(old(db.products), old(session.Contents()), readFault)) ==>
      var items := ReadItems(old(db.products), old(session.Contents()), readFault);
      && outcome == Page(items, SumSubtotals(items), "Error processing order: " + fault.message)
      && db.State() == old(db.State())
      && session.cart == if fault.step == CommitStep(items) then Some(map[]) else old(session.cart)
  {
    if session.cart.None? || session.cart.value == map[] {
      return RedirectToCart;
    }
    var items: seq<LineItem> := [];
    var total := 0;
    var error := "";
    if readFault.Some? {
      error := "Error processing cart: " + readFault.value;
    } else {
      items, total := ReconcileCart(db.products, session.cart.value);
    }
    if req.Show? {
      return Page(items, total, error);
    }
    var form := req.form;
    var address := sanitize(form.address) + "\n" + sanitize(form.city) + "\n" +
                   sanitize(form.state) + "\n" + sanitize(form.zip) + "\n" + sanitize(form.country);
    if Empty(form.address) || Empty(form.city) || Empty(form.state) ||
       Empty(form.zip) || Empty(form.country) {
      return Page(items, total, "All fields are required");
    }

    var orderId, failed := Transaction(db, session, userId, items, total, address, fault);
    if failed {
      return Page(items, total, "Error processing order: " + fault.message);
    }
    return Placed(orderId);
  }

  /** The transaction: begin, insert the order header, write the lines and
      stock, clear the cart, commit; on any exception, roll back. */
  method Transaction(db: Database, session: Session, userId: int, items: seq<LineItem>,
                     total: int, address: string, fault: Fault)
    returns (orderId: int, failed: bool)
    requires db.Valid()
    modifies db, session
    ensures db.Valid()
    ensures failed == Aborts(fault, items)
    ensures orderId == old(db.nextOrderId)
    ensures !failed ==>
      && db.State() == old(db.State()).(
           products := StockAfter(old(db.products), items),
           orders := old(db.orders) + [Order(orderId, userId, total, address, address, "pending", "paid")],
           orderItems := old(db.orderItems) + OrderLines(orderId, items),
           nextOrderId := old(db.nextOrderId) + 1)
      && session.cart == Some(map[])
    ensures failed ==>
      && db.State() == old(db.State())
      && session.cart == if fault.step == CommitStep(items) then Some(map[]) else old(session.cart)
  {
    // beginTransaction: remember what a rollback restores
    var savedProducts, savedOrders, savedOrderItems, savedNext :=
      db.products, db.orders, db.orderItems, db.nextOrderId;
    orderId := db.nextOrderId;
    failed := Fails(fault, 0);
    if !failed {
      db.orders := db.orders + [Order(orderId, userId, total, address, address, "pending", "paid")];
      db.nextOrderId := db.nextOrderId + 1;
      failed := WriteLines(db, orderId, items, fault);
      if !failed {
        session.ClearCart();
        failed := Fails(fault, CommitStep(items));
      }
    }
    if failed {
      // rollBack
      db.products, db.orders, db.orderItems, db.nextOrderId :=
        savedProducts, savedOrders, savedOrderItems, savedNext;
    } else {
      StockAfterKeepsKeys(savedProducts, items);
    }
  }

  /** The loop over the items: insert the line, then overwrite the stock
      with the stock read minus the quantity; stops at the first exception. */
  method WriteLines(db: Database, orderId: int, items: seq<LineItem>, fault: Fault)
    returns (failed: bool)
    modifies db
    ensures failed == (fault.FailAt? && 1 <= fault.step < CommitStep(items))
    // only the lines and the stock are written
    ensures db.State().(products := old(db.products), orderItems := old(db.orderItems)) ==
            old(db.State())
    ensures !failed ==>
      db.State() == old(db.State()).(
        products := StockAfter(old(db.products), items),
        orderItems := old(db.orderItems) + OrderLines(orderId, items))
  {
    failed := false;
    var i := 0;
    while i < |items| && !failed
      invariant 0 <= i <= |items|
      invariant db.orders == old(db.orders) && db.nextOrderId == old(db.nextOrderId)
      invariant db.categories == old(db.categories)
      invariant db.nextProductId == old(db.nextProductId) && db.nextCategoryId == old(db.nextCategoryId)
      invariant !failed ==> db.orderItems == old(db.orderItems) + OrderLines(orderId, items[..i])
      invariant !failed ==> db.products == StockAfter(old(db.products), items[..i])
      invariant !failed ==> !(fault.FailAt? && 1 <= fault.step < 1 + 2 * i)
      invariant failed ==> fault.FailAt? && 1 <= fault.step < CommitStep(items)
      decreases |items| - i, !failed
    {
      if Fails(fault, 1 + 2 * i) {
        failed := true;
      } else {
        var item := items[i];
        db.orderItems := db.orderItems + [OrderItem(orderId, item.id, item.quantity, item.price)];
        if Fails(fault, 2 + 2 * i) {
          failed := true;
        } else {
          db.products := SetStock(db.products, item.id, item.stock - item.quantity);
          assert items[..i + 1][..i] == items[..i];
          assert OrderLines(orderId, items[..i + 1]) ==
                 OrderLines(orderId, items[..i]) + [OrderItem(orderId, item.id, item.quantity, item.price)];
          i := i + 1;
        }
      }
    }
    if !failed {
      assert items[..i] == items;
    }
  }

  /** The stock overwrites keep the set of ids and the primary key. */
  lemma {:induction false} StockAfterKeepsKeys(table: seq<Product>, items: seq<LineItem>)
    ensures Ids(StockAfter(table, items)) == Ids(table)
    ensures UniqueIds(table) ==> UniqueIds(StockAfter(table, items))
    ensures forall p :: p in StockAfter(table, items) ==> p.id in Ids(table)
  {
    if items != [] {
      var last := items[|items| - 1];
      StockAfterKeepsKeys(table, items[..|items| - 1]);
      SetStockEffect(StockAfter(table, items[..|items| - 1]), last.id, last.stock - last.quantity);
    }
  }

  /** The line with that id that was written last, if any. */
  function FindItem(items: seq<LineItem>, id: int): (r: Option<LineItem>)
    ensures r.Some? ==> r.value in items && r.value.id == id
    ensures r.None? <==> forall l :: l in items ==> l.id != id
  {
    if items == [] then None
    else if items[|items| - 1].id == id then Some(items[|items| - 1])
    else FindItem(items[..|items| - 1], id)
  }

  /** After the overwrites, a product's stock is the stock carried by the
      last line for it minus that line's quantity; products without a line
      are untouched. */
  lemma {:induction false} StockAfterLookup(table: seq<Product>, items: seq<LineItem>, k: int)
    ensures Lookup(StockAfter(table, items), k) ==
      if FindItem(items, k).Some? && Lookup(table, k).Some?
      then Some(Lookup(table, k).value.(stock := FindItem(items, k).value.stock - FindItem(items, k).value.quantity))
      else Lookup(table, k)
  {
    if items != [] {
      var front, last := items[..|items| - 1], items[|items| - 1];
      StockAfterLookup(table, front, k);
      SetStockLookup(StockAfter(table, front), last.id, last.stock - last.quantity, k);
    }
  }

  /** The stock effect of a committed checkout: every cart product the
      reconciliation found loses exactly its cart quantity from the stock
      read, and every other product keeps its row. */
  lemma CheckoutStock(table: seq<Product>, c: Cart.Cart, k: int)
    requires UniqueIds(table)
    ensures Lookup(StockAfter(table, Reconciled(table, c)), k) ==
      if k in c && Lookup(table, k).Some?
      then Some(Lookup(table, k).value.(stock := Lookup(table, k).value.stock - c[k]))
      else Lookup(table, k)
  {
    var items := Reconciled(table, c);
    var found := FindItem(items, k);
    if found.Some? {
      assert k in c && Lookup(table, k).Some? &&
             found.value == LineFor(Lookup(table, k).value, c) by {
        ReconciledLines(table, c, k);
      }
    } else {
      assert !(k in c && Lookup(table, k).Some?) by {
        ReconciledLines(table, c, k);
      }
    }
    StockAfterLookup(table, items, k);
  }

  /** Nothing checks the stock: a cart quantity above the stock drives it
      below zero. */
  lemma NegativeStockPossible()
    ensures var table := [Product(1, "Runner", "runner", "", 5000, 1, 1, "")];
            Lookup(StockAfter(table, Reconciled(table, map[1 := 3])), 1).value.stock == -2
  {
    var table := [Product(1, "Runner", "runner", "", 5000, 1, 1, "")];
    assert UniqueIds(table);
    CheckoutStock(table, map[1 := 3], 1);
  }

  /** The order total is the sum of its lines' price times quantity. */
  lemma OrderTotalMatchesLines(orderId: int, table: seq<Product>, c: Cart.Cart,
                               readFault: Option<string>)
    ensures var items := ReadItems(table, c, readFault);
            LinesTotal(OrderLines(orderId, items)) == SumSubtotals(items)
  {
    var items := ReadItems(table, c, readFault);
    assert forall l :: l in Reconciled(table, c) ==> l.subtotal == l.price * l.quantity;
    LinesTotalOfPriced(orderId, items);
  }

  lemma {:induction false} LinesTotalOfPriced(orderId: int, items: seq<LineItem>)
    requires forall l :: l in items ==> l.subtotal == l.price * l.quantity
    ensures LinesTotal(OrderLines(orderId, items)) == SumSubtotals(items)
  {
    if items != [] {
      var front := items[..|items| - 1];
      assert OrderLines(orderId, items)[..|items| - 1] == OrderLines(orderId, front);
      assert items[|items| - 1] in items;
      LinesTotalOfPriced(orderId, front);
    }
  }

  /** When the cart could not be read, or none of its products exists, the
      checkout still goes ahead: an order with no lines and a total of 0. */
  lemma EmptyOrderPossible(table: seq<Product>, c: Cart.Cart, readFault: Option<string>)
    requires readFault.Some? || forall id :: id in c ==> Lookup(table, id).None?
    ensures ReadItems(table, c, readFault) == []
    ensures SumSubtotals(ReadItems(table, c, readFault)) == 0
    ensures forall orderId :: OrderLines(orderId, ReadItems(table, c, readFault)) == []
  {
    if readFault.None? {
      NothingResolves(table, c);
    }
  }
}
