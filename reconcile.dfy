/**
 * Reconciliation of the cart against the products table, as both cart.php
 * and checkout.php do it: one `WHERE id IN (...)` query over the cart's ids,
 * then one priced line per returned row. Rows that are not returned are
 * dropped silently; the session cart itself is not touched.
 */
module Reconcile {
  import opened Wrappers
  import opened MapSum
  import opened Catalog
  import Cart

  /** A product row merged with `quantity` and `subtotal`. */
  datatype LineItem = LineItem(
    id: int, name: string, price: int, stock: int, quantity: int, subtotal: int)

  function LineFor(p: Product, c: Cart.Cart): LineItem
    requires p.id in c
  {
    LineItem(p.id, p.name, p.price, p.stock, c[p.id], p.price * c[p.id])
  }

  function Lines(rows: seq<Product>, c: Cart.Cart): seq<LineItem>
    requires forall p :: p in rows ==> p.id in c
  {
    seq(|rows|, i requires 0 <= i < |rows| => LineFor(rows[i], c))
  }

  /** The rows the query returns for a cart. */
  function Rows(table: seq<Product>, c: Cart.Cart): (rows: seq<Product>)
    ensures forall p :: p in rows <==> p in table && p.id in c
  {
    SelectInRows(table, c.Keys);
    SelectIn(table, c.Keys)
  }

  /** The lines a successful reconciliation yields. */
  function Reconciled(table: seq<Product>, c: Cart.Cart): seq<LineItem> {
    Lines(Rows(table, c), c)
  }

  /** The sum of the `subtotal` column, accumulated in line order. */
  function SumSubtotals(items: seq<LineItem>): int {
    if items == [] then 0
    else SumSubtotals(items[..|items| - 1]) + items[|items| - 1].subtotal
  }

  /** The reconciliation loop (cart.php:53-62, checkout.php:37-46). */
  method ReconcileCart(table: seq<Product>, c: Cart.Cart)
    returns (items: seq<LineItem>, total: int)
    ensures items == Reconciled(table, c)
    ensures total == SumSubtotals(items)
    ensures UniqueIds(table) ==> total == Cart.Total(c, table)
  {
    var rows := Rows(table, c);
    items, total := [], 0;
    for i := 0 to |rows|
      invariant items == Lines(rows[..i], c)
      invariant total == SumSubtotals(items)
    {
      var product := rows[i];
      var quantity := c[product.id];
      var subtotal := product.price * quantity;
      total := total + subtotal;
      items := items + [LineItem(product.id, product.name, product.price,
                                 product.stock, quantity, subtotal)];
      assert items[..|items| - 1] == Lines(rows[..i], c);
    }
    assert rows[..|rows|] == rows;
    if UniqueIds(table) {
      ReconciledTotal(table, c);
    }
  }

  /** The displayed total is getCartTotal's: the sum over the cart entries
      whose product exists of price times quantity (ids are a primary key). */
  lemma {:induction false} ReconciledTotal(table: seq<Product>, c: Cart.Cart)
    requires UniqueIds(table)
    ensures SumSubtotals(Reconciled(table, c)) == Cart.Total(c, table)
  {
    if table == [] {
      Cart.EmptyCartSums([]);
      assert Cart.Priced(c, []) == map id | id in c :: 0;
      ZeroSum(c);
    } else {
      var front, r := table[..|table| - 1], table[|table| - 1];
      assert table == front + [r];
      assert UniqueIds(front);
      assert r.id !in Ids(front);
      ReconciledTotal(front, c);
      Cart.TotalSnoc(c, front, r);
      var before := Reconciled(front, c);
      if r.id in c {
        assert Reconciled(table, c) == before + [LineFor(r, c)];
        assert (before + [LineFor(r, c)])[..|before|] == before;
      } else {
        assert Reconciled(table, c) == before;
      }
    }
  }

  lemma {:induction false} ZeroSum(c: Cart.Cart)
    ensures SumValues(map id | id in c :: 0) == 0
    decreases |c|
  {
    var z := map id | id in c :: 0;
    if z.Keys != {} {
      var k := SomeKey(z);
      SumValuesPick(z, k);
      assert z - {k} == map id | id in c - {k} :: 0;
      ZeroSum(c - {k});
    }
  }

  /** A line exists for an id exactly when the cart holds the id and the
      product is found; each line is that product's row priced with the
      session quantity. Unresolved ids stay in the cart but get no line. */
  lemma ReconciledLines(table: seq<Product>, c: Cart.Cart, id: int)
    requires UniqueIds(table)
    ensures (exists i :: 0 <= i < |Reconciled(table, c)| && Reconciled(table, c)[i].id == id)
            <==> id in c && Lookup(table, id).Some?
    ensures forall l :: l in Reconciled(table, c) ==>
      l.id in c && Lookup(table, l.id).Some? && l == LineFor(Lookup(table, l.id).value, c)
  {
    var rows := Rows(table, c);
    var items := Reconciled(table, c);
    LookupFinds(table, id);
    if id in c && Lookup(table, id).Some? {
      var p := Lookup(table, id).value;
      assert p in rows;
      var i :| 0 <= i < |rows| && rows[i] == p;
      assert items[i].id == id;
    }
    forall l | l in items
      ensures l.id in c && Lookup(table, l.id).Some? && l == LineFor(Lookup(table, l.id).value, c)
    {
      var i :| 0 <= i < |items| && items[i] == l;
      assert rows[i] in table;
      var j :| 0 <= j < |table| && table[j] == rows[i];
      LookupUnique(table, j);
    }
  }

  /** When no id of the cart resolves, there is no line and the total is 0. */
  lemma NothingResolves(table: seq<Product>, c: Cart.Cart)
    requires forall id :: id in c ==> Lookup(table, id).None?
    ensures Reconciled(table, c) == []
    ensures SumSubtotals(Reconciled(table, c)) == 0
  {
    var rows := Rows(table, c);
    if rows != [] {
      LookupFinds(table, rows[0].id);
    }
  }
}
