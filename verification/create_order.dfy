/**
  The create-order endpoint: validate the request body, derive the order
  total, insert the order header, insert its item rows, delete the header
  again when the item insert fails, and answer with a success or failure
  envelope.

  The store's answers to the three remote calls are not computed here: they
  arrive as an `Oracle`, so one pure function maps (request, store, answers)
  to (new store, response, calls issued).
 */
module CreateOrder {
  import opened Fields
  import opened Orders

  /** The JSON body. An absent field is `None`. */
  datatype Request = Request(userId: Option<UserId>, items: Option<seq<LineInput>>, total: Option<Cents>)

  const Pending := "pending"
  const MissingFieldsMessage := "Missing required fields: user_id or items"
  const OrderInsertPrefix := "Failed to create order: "
  const ItemsInsertPrefix := "Failed to create order items: "
  const StatusCreated := 201
  const StatusInternalError := 500

  /** Why a request failed. */
  datatype Error =
    | MissingFields
      /** The runtime's TypeError for reading `property` of an absent `items`. */
    | ItemsUndefined(property: string)
    | OrderInsertFailed(cause: string)
    | ItemsInsertFailed(cause: string)

  /** The `error.message` the failure envelope carries. */
  function Message(e: Error): string {
    match e
    case MissingFields => MissingFieldsMessage
    case ItemsUndefined(p) => "Cannot read properties of undefined (reading '" + p + "')"
    case OrderInsertFailed(m) => OrderInsertPrefix + m
    case ItemsInsertFailed(m) => ItemsInsertPrefix + m
  }

  /** JavaScript truthiness of the optional `total`: absent and 0 are both falsy. */
  predicate Truthy(total: Option<Cents>) {
    total.Some? && total.value != 0
  }

  /** JavaScript truthiness of `user_id`: absent and "" are both falsy. */
  predicate Present(userId: Option<UserId>) {
    userId.Some? && userId.value != ""
  }

  /** Sum of quantity times price over `items`, folded from the left like `reduce` from 0. */
  function LineSum(items: seq<LineInput>): Cents {
    if |items| == 0 then 0
    else
      var last := items[|items| - 1];
      LineSum(items[..|items| - 1]) + last.quantity * last.priceAtPurchase
  }

  /** The `reduce` loop that computes the line sum. */
  method ReduceLineSum(items: seq<LineInput>) returns (sum: Cents)
    ensures sum == LineSum(items)
  {
    sum := 0;
    var i := 0;
    while i < |items|
      invariant 0 <= i <= |items|
      invariant sum == LineSum(items[..i])
    {
      assert items[..i + 1][..i] == items[..i];
      sum := sum + items[i].quantity * items[i].priceAtPurchase;
      i := i + 1;
    }
    assert items[..|items|] == items;
  }

  /**
    The order total: the caller's `total` when one other than 0 was sent;
    when it was left out or sent as 0, the line sum.
   */
  function DeriveTotal(total: Option<Cents>, items: seq<LineInput>): (r: Cents)
    ensures total.None? ==> r == LineSum(items)
    ensures total == Some(0) ==> r == LineSum(items)
    ensures total.Some? && total.value != 0 ==> r == total.value
  {
    if Truthy(total) then total.value else LineSum(items)
  }

  /** A request that passed validation, with its derived total. */
  datatype Validated = Validated(userId: UserId, items: seq<LineInput>, total: Cents)

  /**
    Validation with every missing field reported as missing: a request is
    rejected exactly when `user_id` is falsy or `items` is absent or empty.
   */
  function Validate(req: Request): (r: Result<Validated, Error>)
    ensures r.Failure? <==> !Present(req.userId) || req.items.None? || |req.items.value| == 0
    ensures r.Failure? ==> r.error == MissingFields
    ensures r.Success? ==>
              && Some(r.value.userId) == req.userId
              && Some(r.value.items) == req.items
              && |r.value.items| > 0
              && r.value.total == DeriveTotal(req.total, r.value.items)
  {
    if req.items.None? || !Present(req.userId) || |req.items.value| == 0 then Failure(MissingFields)
    else Success(Validated(req.userId.value, req.items.value, DeriveTotal(req.total, req.items.value)))
  }

  /**
    Parsing and validation in the order the endpoint evaluates them: the
    total is derived and `items.length` is read before the field check, so an
    absent `items` throws a TypeError first.
   */
  function ParseAsWritten(req: Request): (r: Result<Validated, Error>)
    ensures req.items.None? ==> r.Failure? && r.error.ItemsUndefined?
  {
    match req.items
    case None =>
      // With a falsy total, `items.reduce` throws; otherwise `items.length` does.
      Failure(ItemsUndefined(if Truthy(req.total) then "length" else "reduce"))
    case Some(items) =>
      var total := DeriveTotal(req.total, items);
      if !Present(req.userId) || |items| == 0 then Failure(MissingFields)
      else Success(Validated(req.userId.value, items, total))
  }

  /** The item row for `line` under order `orderId`. */
  function RowFor(orderId: OrderId, line: LineInput): OrderItemRow {
    OrderItemRow(orderId, line.productId, line.quantity, line.priceAtPurchase)
  }

  /** The `order_items` rows for `items`: one per line, in input order, all under `orderId`. */
  function BuildRows(orderId: OrderId, items: seq<LineInput>): (rows: seq<OrderItemRow>)
    ensures |rows| == |items|
    ensures forall i :: 0 <= i < |items| ==>
              && rows[i].orderId == orderId
              && rows[i].productId == items[i].productId
              && rows[i].quantity == items[i].quantity
              && rows[i].priceAtPurchase == items[i].priceAtPurchase
  {
    if |items| == 0 then []
    else [RowFor(orderId, items[0])] + BuildRows(orderId, items[1..])
  }

  /** The request line a row was built from: a row without its order id. */
  function LineOf(row: OrderItemRow): LineInput {
    LineInput(row.productId, row.quantity, row.priceAtPurchase)
  }

  /** The request lines a sequence of rows was built from. */
  function LinesOf(rows: seq<OrderItemRow>): (lines: seq<LineInput>)
    ensures |lines| == |rows|
    ensures forall i :: 0 <= i < |rows| ==> lines[i] == LineOf(rows[i])
  {
    if |rows| == 0 then [] else [LineOf(rows[0])] + LinesOf(rows[1..])
  }

  /** The store's answer to a remote call. */
  datatype CallResult = Ok | Err(message: string)

  /**
    The answers the store gives to this request's calls, in the order they
    may be issued, and the `created_at` it stamps on a new order.
   */
  datatype Oracle = Oracle(orderInsert: CallResult, createdAt: string, itemsInsert: CallResult, orderDelete: CallResult)

  /** A remote call the endpoint issues against the store. */
  datatype StoreCall =
    | InsertOrderCall(userId: UserId, total: Cents, status: string)
    | InsertItemsCall(rows: seq<OrderItemRow>)
    | DeleteOrderCall(id: OrderId)

  /** The `order` object of a success envelope. */
  datatype OrderView = OrderView(id: OrderId, userId: UserId, total: Cents, status: string, createdAt: string, items: seq<OrderItemRow>)

  /** The JSON response body. */
  datatype Body = Body(success: bool, order: Option<OrderView>, error: Option<string>)

  datatype Response = Response(status: int, body: Body)

  /** Everything one request does: the resulting store, the answer, and the calls issued in order. */
  datatype Handled = Handled(store: Store, response: Response, calls: seq<StoreCall>)

  /** The 201 envelope: the stored header's fields plus the inserted rows. */
  function Succeed(order: Order, rows: seq<OrderItemRow>): (r: Response)
    ensures r.status == StatusCreated && r.body.success && r.body.error.None?
    ensures r.body.order.Some?
    ensures var v := r.body.order.value;
            && (v.id, v.userId, v.total, v.status, v.createdAt) == (order.id, order.userId, order.total, order.status, order.createdAt)
            && v.items == rows
  {
    Response(StatusCreated, Body(true, Some(OrderView(order.id, order.userId, order.total, order.status, order.createdAt, rows)), None))
  }

  /** The 500 envelope carrying the error's message. */
  function Fail(e: Error): (r: Response)
    ensures r.status == StatusInternalError && !r.body.success
    ensures r.body.order.None? && r.body.error == Some(Message(e))
  {
    Response(StatusInternalError, Body(false, None, Some(Message(e))))
  }

  /**
    Step two, after the header `order` is stored in `s1`: bulk-insert `rows`;
    when that fails, delete the header (ignoring how the delete went) and
    report the item failure.
   */
  function PlaceItems(s1: Store, order: Order, rows: seq<OrderItemRow>, o: Oracle): (h: Handled)
    ensures |h.calls| >= 1 && h.calls[0] == InsertItemsCall(rows)
    ensures o.itemsInsert.Ok? ==>
              && h.response.body.success
              && h.store.orders == s1.orders
              && h.store.orderItems == s1.orderItems + rows
              && |h.calls| == 1
    ensures o.itemsInsert.Err? ==>
              && !h.response.body.success
              && h.response.body.error == Some(ItemsInsertPrefix + o.itemsInsert.message)
              && h.store.orderItems == s1.orderItems
              && h.calls == [InsertItemsCall(rows), DeleteOrderCall(order.id)]
              && (o.orderDelete.Ok? ==> h.store.orders == s1.orders - {order.id})
              && (o.orderDelete.Err? ==> h.store.orders == s1.orders)
  {
    match o.itemsInsert
    case Ok => Handled(InsertItems(s1, rows), Succeed(order, rows), [InsertItemsCall(rows)])
    case Err(m) =>
      var s2 := if o.orderDelete.Ok? then DeleteOrder(s1, order.id) else s1;
      Handled(s2, Fail(ItemsInsertFailed(m)), [InsertItemsCall(rows), DeleteOrderCall(order.id)])
  }

  /**
    The whole request. Every answer is either a 201 success envelope with an
    order, or a 500 failure envelope with an error message.
   */
  function HandleCreateOrder(req: Request, s: Store, o: Oracle): (h: Handled)
    ensures h.response.body.success <==> h.response.status == StatusCreated
    ensures h.response.body.success ==> h.response.body.order.Some? && h.response.body.error.None?
    ensures !h.response.body.success ==>
              && h.response.status == StatusInternalError
              && h.response.body.order.None?
              && h.response.body.error.Some?
  {
    match Validate(req)
    case Failure(e) => Handled(s, Fail(e), [])
    case Success(v) =>
      var header := InsertOrderCall(v.userId, v.total, Pending);
      match o.orderInsert
      case Err(m) => Handled(s, Fail(OrderInsertFailed(m)), [header])
      case Ok =>
        var (s1, order) := InsertOrder(s, v.userId, v.total, Pending, o.createdAt);
        var step := PlaceItems(s1, order, BuildRows(order.id, v.items), o);
        step.(calls := [header] + step.calls)
  }
}
