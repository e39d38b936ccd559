/**
  What one create-order request does to the store and what it answers, path
  by path: rejected by validation, header insert refused, item insert refused
  (with the compensating delete), and success.
 */
module CreateOrderProperties {
  import opened Fields
  import opened Orders
  import opened CreateOrder

  /**
    A request with a falsy `user_id` or an absent or empty `items` is refused
    with the missing-fields message before the store is called at all; and a
    request that reaches the store was one with all three present.
   */
  lemma ValidationBeforeEffects(req: Request, s: Store, o: Oracle)
    ensures var h := HandleCreateOrder(req, s, o);
            (!Present(req.userId) || req.items.None? || |req.items.value| == 0) <==> h.calls == []
    ensures var h := HandleCreateOrder(req, s, o);
            h.calls == [] ==>
              && h.store == s
              && h.response.status == StatusInternalError
              && h.response.body == Body(false, None, Some(MissingFieldsMessage))
  {
  }

  /**
    A request that passes validation first issues exactly one header insert,
    carrying its `user_id`, the derived total and status "pending".
   */
  lemma HeaderInsertedFirst(req: Request, s: Store, o: Oracle)
    requires Present(req.userId) && req.items.Some? && |req.items.value| > 0
    ensures var h := HandleCreateOrder(req, s, o);
            && |h.calls| >= 1
            && h.calls[0] == InsertOrderCall(req.userId.value, DeriveTotal(req.total, req.items.value), "pending")
            && forall i :: 1 <= i < |h.calls| ==> !h.calls[i].InsertOrderCall?
  {
  }

  /**
    A caller's total of 0 counts as absent, whatever else the body holds: the
    order total is recomputed from the lines, and the as-written parse agrees.
   */
  lemma ZeroTotalRecomputed(userId: Option<UserId>, items: Option<seq<LineInput>>, s: Store, o: Oracle)
    ensures HandleCreateOrder(Request(userId, items, Some(0)), s, o)
         == HandleCreateOrder(Request(userId, items, None), s, o)
    ensures ParseAsWritten(Request(userId, items, Some(0))) == ParseAsWritten(Request(userId, items, None))
  {
  }

  /**
    When the header insert is refused, nothing else is attempted, the store
    is as before, and the error is the store's message behind "Failed to create order: ".
   */
  lemma HeaderFailureStops(req: Request, s: Store, o: Oracle)
    requires Present(req.userId) && req.items.Some? && |req.items.value| > 0
    requires o.orderInsert.Err?
    ensures var h := HandleCreateOrder(req, s, o);
            && h.calls == [InsertOrderCall(req.userId.value, DeriveTotal(req.total, req.items.value), "pending")]
            && h.store == s
            && h.response.status == StatusInternalError
            && h.response.body == Body(false, None, Some("Failed to create order: " + o.orderInsert.message))
  {
  }

  /**
    When the item insert is refused after the header was stored, the endpoint
    issues one delete, of exactly the new order's id, as its last call, and
    reports "Failed to create order items: " and the store's message. If the
    delete succeeds, the tables are as they were before the request; if not,
    the only trace left is the new pending header, with no rows under it.
   */
  lemma ItemsFailureCompensates(req: Request, s: Store, o: Oracle)
    requires Consistent(s)
    requires Present(req.userId) && req.items.Some? && |req.items.value| > 0
    requires o.orderInsert.Ok? && o.itemsInsert.Err?
    ensures var h := HandleCreateOrder(req, s, o);
            var order := InsertOrder(s, req.userId.value, DeriveTotal(req.total, req.items.value), "pending", o.createdAt).1;
            && order.id !in s.orders
            && h.calls == [ InsertOrderCall(req.userId.value, DeriveTotal(req.total, req.items.value), "pending"),
                            InsertItemsCall(BuildRows(order.id, req.items.value)),
                            DeleteOrderCall(order.id) ]
            && h.response.status == StatusInternalError
            && h.response.body == Body(false, None, Some("Failed to create order items: " + o.itemsInsert.message))
            && h.store.orderItems == s.orderItems
            && RowsOf(h.store.orderItems, order.id) == []
            && (o.orderDelete.Ok? ==> h.store.orders == s.orders)
            && (o.orderDelete.Err? ==> h.store.orders == s.orders[order.id := order])
  {
    var v := Validate(req).value;
    var (s1, order) := InsertOrder(s, v.userId, v.total, Pending, o.createdAt);
    assert forall i :: 0 <= i < |s.orderItems| ==> s.orderItems[i].orderId != order.id;
    if o.orderDelete.Ok? {
      assert s.orders[order.id := order] - {order.id} == s.orders;
    }
  }

  /** How the compensating delete went changes neither the calls issued nor the answer. */
  lemma DeleteOutcomeIgnored(req: Request, s: Store, o: Oracle, d: CallResult)
    ensures var h := HandleCreateOrder(req, s, o);
            var h' := HandleCreateOrder(req, s, o.(orderDelete := d));
            h.calls == h'.calls && h.response == h'.response
  {
  }

  /**
    The compensating delete is issued at most once, and only as the call
    right after a refused item insert.
   */
  lemma DeleteOnlyAfterItemFailure(req: Request, s: Store, o: Oracle)
    ensures var h := HandleCreateOrder(req, s, o);
            forall i :: 0 <= i < |h.calls| && h.calls[i].DeleteOrderCall? ==>
              && i == |h.calls| - 1 == 2
              && o.orderInsert.Ok? && o.itemsInsert.Err?
  {
  }

  /**
    When both inserts succeed: a 201 envelope whose order carries the stored
    header (fresh id, the request's `user_id`, the derived total, "pending",
    the store's timestamp) and exactly the inserted rows; the store gains
    exactly that one order and those rows, appended after the existing ones.
   */
  lemma SuccessCreatesOneOrder(req: Request, s: Store, o: Oracle)
    requires Consistent(s)
    requires Present(req.userId) && req.items.Some? && |req.items.value| > 0
    requires o.orderInsert.Ok? && o.itemsInsert.Ok?
    ensures var h := HandleCreateOrder(req, s, o);
            var order := InsertOrder(s, req.userId.value, DeriveTotal(req.total, req.items.value), "pending", o.createdAt).1;
            var rows := BuildRows(order.id, req.items.value);
            && order.id !in s.orders
            && h.response.status == StatusCreated
            && h.response.body == Body(true, Some(OrderView(order.id, req.userId.value, DeriveTotal(req.total, req.items.value), "pending", o.createdAt, rows)), None)
            && h.calls == [InsertOrderCall(req.userId.value, DeriveTotal(req.total, req.items.value), "pending"), InsertItemsCall(rows)]
            && h.store.orders == s.orders[order.id := order]
            && |h.store.orders| == |s.orders| + 1
            && h.store.orderItems == s.orderItems + rows
            && RowsOf(h.store.orderItems, order.id) == rows
  {
    var v := Validate(req).value;
    var (s1, order) := InsertOrder(s, v.userId, v.total, Pending, o.createdAt);
    var rows := BuildRows(order.id, v.items);
    assert forall i :: 0 <= i < |s.orderItems| ==> s.orderItems[i].orderId != order.id;
    RowsOfAppend(s.orderItems, rows, order.id);
  }

  /** Every request, whatever the store answers, leaves a consistent store consistent. */
  lemma ConsistencyPreserved(req: Request, s: Store, o: Oracle)
    requires Consistent(s)
    ensures Consistent(HandleCreateOrder(req, s, o).store)
  {
    match Validate(req)
    case Failure(_) =>
    case Success(v) =>
      if o.orderInsert.Ok? {
        var (s1, order) := InsertOrder(s, v.userId, v.total, Pending, o.createdAt);
        var rows := BuildRows(order.id, v.items);
        var h := HandleCreateOrder(req, s, o);
        if o.itemsInsert.Ok? {
          assert h.store == InsertItems(s1, rows);
          forall i | 0 <= i < |h.store.orderItems|
            ensures h.store.orderItems[i].orderId in h.store.orders
          {
            if i >= |s1.orderItems| {
              assert h.store.orderItems[i] == rows[i - |s1.orderItems|];
            }
          }
        } else if o.orderDelete.Ok? {
          assert h.store == DeleteOrder(s1, order.id);
          assert forall i :: 0 <= i < |s.orderItems| ==> s.orderItems[i].orderId != order.id;
        }
      }
  }

  /**
    Identical requests are not deduplicated: two successful calls in a row
    create two different orders, both kept by the store.
   */
  lemma NotIdempotent(req: Request, s: Store, o1: Oracle, o2: Oracle)
    requires Consistent(s)
    requires Present(req.userId) && req.items.Some? && |req.items.value| > 0
    requires o1.orderInsert.Ok? && o1.itemsInsert.Ok?
    requires o2.orderInsert.Ok? && o2.itemsInsert.Ok?
    ensures var h1 := HandleCreateOrder(req, s, o1);
            var h2 := HandleCreateOrder(req, h1.store, o2);
            && h1.response.body.order.Some? && h2.response.body.order.Some?
            && h1.response.body.order.value.id != h2.response.body.order.value.id
            && h1.response.body.order.value.id in h2.store.orders
            && h2.response.body.order.value.id in h2.store.orders
            && |h2.store.orders| == |s.orders| + 2
  {
    var h1 := HandleCreateOrder(req, s, o1);
    SuccessCreatesOneOrder(req, s, o1);
    ConsistencyPreserved(req, s, o1);
    SuccessCreatesOneOrder(req, h1.store, o2);
  }

  /** The rows carry the request lines unchanged: dropping their order id gives the lines back. */
  lemma {:induction false} RowsRoundTrip(orderId: OrderId, items: seq<LineInput>)
    ensures LinesOf(BuildRows(orderId, items)) == items
    decreases |items|
  {
    var rows := BuildRows(orderId, items);
    if |items| > 0 {
      var tail := BuildRows(orderId, items[1..]);
      assert rows == [RowFor(orderId, items[0])] + tail;
      assert rows[1..] == tail;
      RowsRoundTrip(orderId, items[1..]);
      assert LinesOf(rows) == [items[0]] + items[1..];
      assert [items[0]] + items[1..] == items;
    }
  }

  /**
    Two lines of 2 x 10.00 and 1 x 5.00 with no total give an order total of 25.00;
    one line of 2 x 19.99 gives 39.98 and a single row.
   */
  lemma WorkedTotals(s: Store, o: Oracle)
    requires o.orderInsert.Ok? && o.itemsInsert.Ok?
    ensures var h := HandleCreateOrder(Request(Some("u1"), Some([LineInput("p1", 2, 1000), LineInput("p2", 1, 500)]), None), s, o);
            h.response.body.order.Some? && h.response.body.order.value.total == 2500
    ensures var h := HandleCreateOrder(Request(Some("u1"), Some([LineInput("p1", 2, 1999)]), None), s, o);
            h.response.body.order.Some?
            && h.response.body.order.value.total == 3998
            && |h.response.body.order.value.items| == 1
  {
    var two := [LineInput("p1", 2, 1000), LineInput("p2", 1, 500)];
    assert two[..1] == [LineInput("p1", 2, 1000)];
    assert LineSum(two) == 2500;
    var one := [LineInput("p1", 2, 1999)];
    assert LineSum(one) == 3998;
  }

  /**
    As written, a request without `items` never reaches the missing-fields
    check: it fails with the runtime's TypeError message instead. Requests
    that do carry `items` are parsed exactly as `Validate` does.
   */
  lemma MissingItemsAsWritten(req: Request)
    ensures req.items.None? ==>
              && ParseAsWritten(req).Failure?
              && Message(ParseAsWritten(req).error) != MissingFieldsMessage
              && Validate(req) == Failure(MissingFields)
    ensures req.items.Some? ==> ParseAsWritten(req) == Validate(req)
  {
    if req.items.None? {
      var p := if Truthy(req.total) then "length" else "reduce";
      var prefix := "Cannot read properties of undefined (reading '";
      var m := Message(ParseAsWritten(req).error);
      assert m == prefix + p + "')";
      assert |m| == |prefix| + 8 != |MissingFieldsMessage|;
    }
  }
}
