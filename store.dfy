/**
 * The tables the core writes: products, categories, orders and order_items,
 * with their AUTO_INCREMENT counters. Rows are kept in storage order.
 */
module Store {
  import opened Wrappers
  import opened Catalog

  datatype Category = Category(
    id: int, name: string, slug: string, description: string, parentId: Option<int>)

  datatype Order = Order(
    id: int, userId: int, totalAmount: int, shippingAddress: string,
    billingAddress: string, status: string, paymentStatus: string)

  /** One order line; `price` is the unit price frozen at order time. */
  datatype OrderItem = OrderItem(orderId: int, productId: int, quantity: int, price: int)

  ghost predicate UniqueCategoryIds(rows: seq<Category>) {
    forall i, j :: 0 <= i < j < |rows| ==> rows[i].id != rows[j].id
  }

  /** Everything the database holds, as one value: what a rollback restores
      and what a statement that does not run leaves alone. */
  datatype Tables = Tables(
    products: seq<Product>, categories: seq<Category>, orders: seq<Order>,
    orderItems: seq<OrderItem>, nextProductId: int, nextCategoryId: int, nextOrderId: int)

  class Database {
    var products: seq<Product>
    var categories: seq<Category>
    var orders: seq<Order>
    var orderItems: seq<OrderItem>
    var nextProductId: int
    var nextCategoryId: int
    var nextOrderId: int

    /** Primary keys are unique, and every counter is above the ids in use. */
    ghost predicate Valid()
      reads this
    {
      && UniqueIds(products)
      && (forall p :: p in products ==> p.id < nextProductId)
      && UniqueCategoryIds(categories)
      && (forall c :: c in categories ==> c.id < nextCategoryId)
      && (forall o :: o in orders ==> o.id < nextOrderId)
    }

    function State(): Tables
      reads this
    {
      Tables(products, categories, orders, orderItems, nextProductId, nextCategoryId, nextOrderId)
    }

    constructor ()
      ensures Valid()
      ensures products == [] && categories == [] && orders == [] && orderItems == []
    {
      products, categories, orders, orderItems := [], [], [], [];
      nextProductId, nextCategoryId, nextOrderId := 1, 1, 1;
    }
  }
}
