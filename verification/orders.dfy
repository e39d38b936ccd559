/**
  Data model of the order persistence store as the create-order endpoint
  sees it: an `orders` table whose ids the store assigns, and an
  `order_items` table whose rows point at an order. All amounts are integer
  cents.
 */
module Orders {

  type UserId = string
  type OrderId = nat

  /** Money in integer cents. */
  type Cents = int

  /** One line of a create-order request body. */
  datatype LineInput = LineInput(productId: string, quantity: int, priceAtPurchase: Cents)

  /** A row of the `orders` table. */
  datatype Order = Order(id: OrderId, userId: UserId, total: Cents, status: string, createdAt: string)

  /** A row of the `order_items` table. */
  datatype OrderItemRow = OrderItemRow(orderId: OrderId, productId: string, quantity: int, priceAtPurchase: Cents)

  /**
    The two tables, plus the store's id generator: `nextId` is the id the next
    successful order insert receives.
   */
  datatype Store = Store(orders: map<OrderId, Order>, orderItems: seq<OrderItemRow>, nextId: OrderId)

  /**
    What the store guarantees between requests: every order is filed under its
    own id, every id handed out is below `nextId`, and every item row refers to
    an existing order.
   */
  predicate Consistent(s: Store) {
    && (forall id :: id in s.orders ==> id < s.nextId && s.orders[id].id == id)
    && (forall i :: 0 <= i < |s.orderItems| ==> s.orderItems[i].orderId in s.orders)
  }

  /** The rows among `rows` that belong to order `id`, in table order. */
  function RowsOf(rows: seq<OrderItemRow>, id: OrderId): (r: seq<OrderItemRow>)
    ensures |r| <= |rows|
    ensures forall i :: 0 <= i < |r| ==> r[i].orderId == id
    ensures (forall i :: 0 <= i < |rows| ==> rows[i].orderId == id) ==> r == rows
    ensures (forall i :: 0 <= i < |rows| ==> rows[i].orderId != id) ==> r == []
  {
    if |rows| == 0 then []
    else if rows[0].orderId == id then [rows[0]] + RowsOf(rows[1..], id)
    else RowsOf(rows[1..], id)
  }

  lemma {:induction false} RowsOfAppend(a: seq<OrderItemRow>, b: seq<OrderItemRow>, id: OrderId)
    ensures RowsOf(a + b, id) == RowsOf(a, id) + RowsOf(b, id)
    decreases |a|
  {
    if |a| > 0 {
      assert (a + b)[1..] == a[1..] + b;
      RowsOfAppend(a[1..], b, id);
    } else {
      assert a + b == b;
    }
  }

  /**
    A successful insert into `orders`: the store files the header under a
    fresh id and returns the stored row.
   */
  function InsertOrder(s: Store, userId: UserId, total: Cents, status: string, createdAt: string): (r: (Store, Order))
    ensures r.0.orders == s.orders[r.1.id := r.1]
    ensures r.0.orderItems == s.orderItems
    ensures (r.1.userId, r.1.total, r.1.status, r.1.createdAt) == (userId, total, status, createdAt)
    ensures Consistent(s) ==> r.1.id !in s.orders && Consistent(r.0)
  {
    var order := Order(s.nextId, userId, total, status, createdAt);
    (Store(s.orders[s.nextId := order], s.orderItems, s.nextId + 1), order)
  }

  /** A successful bulk insert into `order_items`: all rows are appended, in order. */
  function InsertItems(s: Store, rows: seq<OrderItemRow>): Store {
    s.(orderItems := s.orderItems + rows)
  }

  /** A successful `delete ... where id = id` on `orders`. */
  function DeleteOrder(s: Store, id: OrderId): Store {
    s.(orders := s.orders - {id})
  }
}
