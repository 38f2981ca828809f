/**
 * The session cart as a value: `$_SESSION['cart']`, an array from product
 * id to quantity. These functions are what the cart helpers in
 * includes/functions.php do to that array; the `Session` class applies them
 * in place.
 */
module Cart {
  import opened Wrappers
  import opened MapSum
  import opened Catalog

  type Cart = map<int, int>

  /** `addToCart`: increment an existing entry, or create it. */
  function Add(c: Cart, id: int, quantity: int): Cart {
    if id in c then c[id := c[id] + quantity] else c[id := quantity]
  }

  /** `removeFromCart`: unset the entry when it is set. */
  function Remove(c: Cart, id: int): Cart {
    if id in c then c - {id} else c
  }

  /** `updateCartQuantity`: a quantity of zero or less removes the entry. */
  function Update(c: Cart, id: int, quantity: int): Cart {
    if quantity <= 0 then Remove(c, id) else c[id := quantity]
  }

  /** `getCartItemsCount` on a set cart: `array_sum` of the quantities. */
  ghost function ItemCount(c: Cart): int {
    SumValues(c)
  }

  /** What one entry adds to `getCartTotal`: price times quantity, or nothing
      when the product is not found. */
  function LineValue(table: seq<Product>, id: int, quantity: int): int {
    match Lookup(table, id)
    case Some(p) => p.price * quantity
    case None => 0
  }

  function Priced(c: Cart, table: seq<Product>): map<int, int> {
    map id | id in c :: LineValue(table, id, c[id])
  }

  /** `getCartTotal`: the sum over the entries of price times quantity. */
  ghost function Total(c: Cart, table: seq<Product>): int {
    SumValues(Priced(c, table))
  }

  // ----- addToCart -----

  /** An absent id is created with exactly the given quantity (which may be
      zero or negative); a present one grows by it. */
  lemma AddEntry(c: Cart, id: int, quantity: int)
    ensures id in Add(c, id, quantity)
    ensures Add(c, id, quantity)[id] == (if id in c then c[id] + quantity else quantity)
    ensures forall k :: k != id ==> (k in Add(c, id, quantity) <==> k in c)
    ensures forall k :: k != id && k in c ==> Add(c, id, quantity)[k] == c[k]
  {
  }

  /** Two adds of n and then m for one id give n + m when the id was absent,
      and leave every other entry alone. */
  lemma AddTwice(c: Cart, id: int, n: int, m: int)
    requires id !in c
    ensures Add(Add(c, id, n), id, m) == c[id := n + m]
  {
  }

  /** The item badge grows by exactly the quantity added. */
  lemma ItemCountAfterAdd(c: Cart, id: int, quantity: int)
    ensures ItemCount(Add(c, id, quantity)) == ItemCount(c) + quantity
  {
    SumValuesUpdate(c, id, if id in c then c[id] + quantity else quantity);
  }

  // ----- removeFromCart -----

  /** Remove deletes the key when present, is a no-op otherwise, and keeps
      every other entry. */
  lemma RemoveEntry(c: Cart, id: int)
    ensures id !in Remove(c, id)
    ensures id !in c ==> Remove(c, id) == c
    ensures forall k :: k != id ==> (k in Remove(c, id) <==> k in c)
    ensures forall k :: k != id && k in c ==> Remove(c, id)[k] == c[k]
  {
  }

  lemma ItemCountAfterRemove(c: Cart, id: int)
    ensures ItemCount(Remove(c, id)) == ItemCount(c) - (if id in c then c[id] else 0)
  {
    SumValuesRemove(c, id);
  }

  // ----- updateCartQuantity -----

  /** A non-positive quantity is exactly a removal; a positive one sets the
      entry, whatever it held, to a positive value. */
  lemma UpdateEntry(c: Cart, id: int, quantity: int)
    ensures quantity <= 0 ==> Update(c, id, quantity) == Remove(c, id)
    ensures quantity > 0 ==> id in Update(c, id, quantity) &&
                             Update(c, id, quantity)[id] == quantity > 0
    ensures forall k :: k != id ==> (k in Update(c, id, quantity) <==> k in c)
    ensures forall k :: k != id && k in c ==> Update(c, id, quantity)[k] == c[k]
  {
  }

  /** After an update the badge counts the new quantity instead of the old. */
  lemma ItemCountAfterUpdate(c: Cart, id: int, quantity: int)
    ensures ItemCount(Update(c, id, quantity)) ==
      ItemCount(c) - (if id in c then c[id] else 0) + (if quantity > 0 then quantity else 0)
  {
    if quantity <= 0 {
      ItemCountAfterRemove(c, id);
    } else {
      SumValuesUpdate(c, id, quantity);
    }
  }

  /** Updates and removals keep the invariant that every quantity is
      positive; adds do not, since addToCart accepts any quantity. */
  lemma UpdateKeepsPositive(c: Cart, id: int, quantity: int)
    requires forall k :: k in c ==> c[k] > 0
    ensures forall k :: k in Update(c, id, quantity) ==> Update(c, id, quantity)[k] > 0
    ensures forall k :: k in Remove(c, id) ==> Remove(c, id)[k] > 0
  {
  }

  lemma AddBreaksPositive()
    ensures Add(map[], 7, 0)[7] == 0
    ensures Add(map[7 := 2], 7, -5)[7] == -3
  {
  }

  // ----- clearCart, getCartItemsCount, getCartTotal -----

  lemma EmptyCartSums(table: seq<Product>)
    ensures ItemCount(map[]) == 0
    ensures Total(map[], table) == 0
  {
    assert Priced(map[], table) == map[];
  }

  /** Entries whose product is missing contribute nothing: removing them
      leaves the total unchanged. */
  lemma {:induction false} MissingProductsAddNothing(c: Cart, table: seq<Product>, id: int)
    requires Lookup(table, id).None?
    ensures Total(Remove(c, id), table) == Total(c, table)
  {
    if id in c {
      var p := Priced(c, table);
      SumValuesRemove(p, id);
      assert Priced(Remove(c, id), table) == p - {id};
    }
  }

  /** A row appended to the table with a fresh id adds its own line to the
      total and nothing else. */
  lemma TotalSnoc(c: Cart, table: seq<Product>, r: Product)
    requires r.id !in Ids(table)
    ensures Total(c, table + [r]) ==
      Total(c, table) + (if r.id in c then r.price * c[r.id] else 0)
  {
    var t' := table + [r];
    forall k ensures Lookup(t', k) == if k == r.id then Some(r) else Lookup(table, k) {
      LookupSnoc(table, r, k);
    }
    LookupFinds(table, r.id);
    var before := Priced(c, table);
    if r.id in c {
      assert before[r.id] == 0;
      assert Priced(c, t') == before[r.id := r.price * c[r.id]];
      SumValuesUpdate(before, r.id, r.price * c[r.id]);
    } else {
      assert Priced(c, t') == before;
    }
  }
}
