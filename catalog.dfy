/**
 * The `products` table. A table is a sequence of rows in storage order;
 * `id` is its primary key. Prices are integer minor units.
 */
module Catalog {
  import opened Wrappers

  datatype Product = Product(
    id: int, name: string, slug: string, description: string,
    price: int, stock: int, categoryId: int, image: string)

  function Ids(table: seq<Product>): set<int> {
    set p | p in table :: p.id
  }

  /** The primary-key constraint. */
  ghost predicate UniqueIds(table: seq<Product>) {
    forall i, j :: 0 <= i < j < |table| ==> table[i].id != table[j].id
  }

  /** A query by primary key that keeps the first row it returns. */
  function Lookup(table: seq<Product>, id: int): (r: Option<Product>)
    ensures r.Some? ==> r.value in table && r.value.id == id
  {
    if table == [] then None
    else if table[0].id == id then Some(table[0])
    else Lookup(table[1..], id)
  }

  /** A query for every row whose id is in a set, rows in storage order. */
  function SelectIn(table: seq<Product>, ids: set<int>): seq<Product>
  {
    if table == [] then []
    else
      var rest := SelectIn(table[..|table| - 1], ids);
      var last := table[|table| - 1];
      if last.id in ids then rest + [last] else rest
  }

  /** The stock update of one product, by id. */
  function SetStock(table: seq<Product>, id: int, stock: int): seq<Product>
  {
    seq(|table|, i requires 0 <= i < |table| =>
      if table[i].id == id then table[i].(stock := stock) else table[i])
  }

  /** A lookup finds a row exactly when a row with that id exists. */
  lemma {:induction false} LookupFinds(table: seq<Product>, id: int)
    ensures Lookup(table, id).Some? <==> id in Ids(table)
  {
    if table != [] {
      LookupFinds(table[1..], id);
      assert Ids(table) == {table[0].id} + Ids(table[1..]);
    }
  }

  /** With unique ids, the lookup returns the one row that carries the id. */
  lemma {:induction false} LookupUnique(table: seq<Product>, i: int)
    requires UniqueIds(table) && 0 <= i < |table|
    ensures Lookup(table, table[i].id) == Some(table[i])
  {
    if i > 0 {
      LookupUnique(table[1..], i - 1);
    }
  }

  /** Appending a row whose id is new does not change earlier lookups. */
  lemma {:induction false} LookupSnoc(table: seq<Product>, r: Product, id: int)
    requires r.id !in Ids(table)
    ensures Lookup(table + [r], id) ==
      if id == r.id then Some(r) else Lookup(table, id)
  {
    LookupFinds(table, id);
    if table != [] {
      assert (table + [r])[1..] == table[1..] + [r];
      assert Ids(table) == {table[0].id} + Ids(table[1..]);
      LookupSnoc(table[1..], r, id);
    }
  }

  /** The query returns exactly the rows whose id was asked for, in order. */
  lemma {:induction false} SelectInRows(table: seq<Product>, ids: set<int>)
    ensures forall p :: p in SelectIn(table, ids) <==> p in table && p.id in ids
    ensures |SelectIn(table, ids)| <= |table|
  {
    if table != [] {
      var front := table[..|table| - 1];
      SelectInRows(front, ids);
      assert table == front + [table[|table| - 1]];
    }
  }

  /** The stock update touches only the stock of the rows with that id. */
  lemma SetStockEffect(table: seq<Product>, id: int, stock: int)
    ensures Ids(SetStock(table, id, stock)) == Ids(table)
    ensures UniqueIds(table) ==> UniqueIds(SetStock(table, id, stock))
    ensures forall k :: Lookup(SetStock(table, id, stock), k) ==
                        (if k == id && Lookup(table, k).Some?
                         then Some(Lookup(table, k).value.(stock := stock))
                         else Lookup(table, k))
  {
    var t := SetStock(table, id, stock);
    assert Ids(t) == Ids(table) by {
      forall x | x in Ids(table) ensures x in Ids(t) {
        var i :| 0 <= i < |table| && table[i].id == x;
        assert t[i].id == x;
      }
    }
    forall k ensures Lookup(t, k) ==
                       (if k == id && Lookup(table, k).Some?
                        then Some(Lookup(table, k).value.(stock := stock))
                        else Lookup(table, k))
    {
      SetStockLookup(table, id, stock, k);
    }
  }

  lemma {:induction false} SetStockLookup(table: seq<Product>, id: int, stock: int, k: int)
    ensures Lookup(SetStock(table, id, stock), k) ==
      if k == id && Lookup(table, k).Some? then Some(Lookup(table, k).value.(stock := stock))
      else Lookup(table, k)
  {
    if table != [] {
      assert SetStock(table, id, stock)[1..] == SetStock(table[1..], id, stock);
      SetStockLookup(table[1..], id, stock, k);
    }
  }
}
