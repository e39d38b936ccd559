# Storefront cart and order creation, modelled in Dafny

This project models the two pieces of business logic in a small storefront.

- **The cart store** (`Cart`, in `cart.dfy`). The cart is an ordered list of lines, one per product id. Adding a product bumps its line's quantity, or appends a new line with quantity 1. Removing a product deletes its first line, or does nothing when no line has that id. The unit count is the sum of the quantities.
- **The create-order endpoint** (`Orders` in `orders.dfy`, `CreateOrder` in `create_order.dfy`, `CreateOrderProperties` in `create_order_properties.dfy`). The endpoint:
  1. derives the order total;
  2. validates the request;
  3. inserts an order header with status `"pending"`;
  4. inserts one `order_items` row per request line;
  5. deletes the header again if the row insert fails;
  6. answers with a 201 success envelope or a 500 failure envelope.

Modelling choices:

- **Money is integer cents.** The JavaScript numbers of the source become `int`, so totals are exact.
- **The store is abstract.** It holds an `orders` map keyed by order id and a sequence of `order_items` rows. `nextId` stands for the database's id generator.
- **Remote calls are inputs.** How each call turns out is given as an `Oracle`: the header insert, the row insert, the compensating delete, and the `created_at` timestamp. `HandleCreateOrder` is one pure function from (request, store, oracle) to (new store, response, calls issued).
- **Issued calls are logged.** Each path records its store calls in order. Statements like "no call is made" and "the delete is issued once" are therefore exact.
- **`nextId` is not rolled back.** Compensation restores both tables, but the id generator keeps its advance, as a database sequence does.
- **The store invariant is `Orders.Consistent`.** Every order is filed under its own id, ids lie below `nextId`, and every row refers to an existing order. Every request preserves it.

Behaviour worth noting:

- `cart.js` has no `setItems` action.
- `addItem` does not reject an item without an `id`.
- A validation failure answers 500, like every other failure.

## Model

| member | source | states |
|---|---|---|
| Cart.FindIndex | src/store/cart.js:17-18 | the lookup gives the first line with the id, or -1 exactly when no line has it |
| Cart.AddItem | src/store/cart.js:8-14 | an existing id bumps that line by exactly 1 and leaves the length and every other line alone; a new id appends one line at the end with quantity 1, whatever quantity the incoming item carried |
| Cart.RemoveItem | src/store/cart.js:16-21 | an absent id leaves the cart unchanged; a present id deletes exactly its first line and keeps the order of the remaining lines |
| Cart.ReduceTotalItems | src/store/cart.js:24 | the getter's left-to-right reduce equals the sum of all quantities, and with positive quantities it is at least the number of lines |
| Cart.TotalAfterAdd | src/store/cart.js:8-24 | after any add, the unit count is exactly one higher |
| Cart.TotalAfterRemove | src/store/cart.js:16-24 | removing a present id lowers the unit count by that line's quantity; removing an absent id leaves it unchanged |
| Cart.AddPreservesWellFormed | src/store/cart.js:8-14 | an add keeps one line per id and every quantity at least 1 |
| Cart.RemovePreservesWellFormed | src/store/cart.js:16-21 | a remove keeps one line per id and every quantity at least 1 |
| Cart.TotalItems | src/store/cart.js:24 | the `totalItems` getter: with every quantity positive, the unit count is at least the number of lines; TotalAfterAdd and TotalAfterRemove state how each action changes it, and ReduceTotalItems shows that the getter's reduce computes it |
| Cart.RemoveUndoesFreshAdd | src/store/cart.js:8-21 | adding a product that is not in the cart and then removing it gives back the original cart |
| Cart.AddTwiceMerges | src/store/cart.js:9-13 | in any cart without the product, adding it twice gives the original cart plus one line at the end with quantity 2 |
| Cart.RunPreservesWellFormed | src/store/cart.js:7-24 | any sequence of adds and removes keeps the cart invariant, and the unit count never drops below the line count |
| Cart.ReachableWellFormed | src/store/cart.js:4-24 | every cart reachable from the initial empty `items` by any sequence of adds and removes has one line per id, every quantity at least 1, and a unit count no lower than its line count |
| Orders.InsertOrder | supabase/functions/create-order/index.ts:149-157 | a header insert stores the given user, total, status and timestamp under an id not yet used, leaves the rows alone, and keeps the store consistent |
| CreateOrder.ReduceLineSum | supabase/functions/create-order/index.ts:110 | the reduce over the lines equals the sum of quantity times price at purchase |
| CreateOrder.DeriveTotal | supabase/functions/create-order/index.ts:110 | the total is the caller's `total` when it is sent and not 0; when it is left out or 0, it is the sum of quantity times price at purchase. HeaderInsertedFirst, ZeroTotalRecomputed and WorkedTotals state this on the whole request |
| CreateOrder.Validate | supabase/functions/create-order/index.ts:114-117 | a request is rejected with the missing-fields error exactly when `user_id` is falsy or `items` is absent or empty; otherwise the validated request carries the request's fields and the derived total |
| CreateOrder.ParseAsWritten | supabase/functions/create-order/index.ts:108-117 | in the source's evaluation order, a request without `items` fails with a TypeError before the field check |
| CreateOrder.BuildRows | supabase/functions/create-order/index.ts:198-203 | there is one row per request line, in input order; each row has the new order id and copies the product id, quantity and price at purchase |
| CreateOrder.PlaceItems | supabase/functions/create-order/index.ts:205-215 | the rows are inserted first. If that succeeds, exactly those rows are appended and the orders are untouched. If it fails, the rows are untouched, one delete of the new order follows, and the delete removes the order only if it succeeds; the error is "Failed to create order items: " plus the store's message. ItemsFailureCompensates and SuccessCreatesOneOrder state this on the whole request |
| CreateOrder.Succeed | supabase/functions/create-order/index.ts:263-283 | the success envelope is status 201 with `success` true, no error, and an order carrying the stored header's id, user, total, status and timestamp plus exactly the inserted rows; SuccessCreatesOneOrder states it on the whole request |
| CreateOrder.Fail | supabase/functions/create-order/index.ts:304-317 | the failure envelope is status 500 with `success` false, no order, and the error's message; ValidationBeforeEffects, HeaderFailureStops and ItemsFailureCompensates state which message each path carries |
| CreateOrder.HandleCreateOrder | supabase/functions/create-order/index.ts:263-317 | every answer is either a 201 success envelope with an order, or a 500 failure envelope with an error and no order |
| CreateOrderProperties.ValidationBeforeEffects | supabase/functions/create-order/index.ts:110-117 | no store call is made exactly when a field is missing; the store is then unchanged and the answer is 500 with the missing-fields message |
| CreateOrderProperties.HeaderInsertedFirst | supabase/functions/create-order/index.ts:149-155 | a valid request's first call inserts a header with its `user_id`, the derived total and status "pending"; no second header insert follows |
| CreateOrderProperties.ZeroTotalRecomputed | supabase/functions/create-order/index.ts:110 | for every body, whatever its `user_id` and `items`, a caller-supplied total of 0 gives exactly the same store, response and calls as an absent total, and the as-written parse agrees |
| CreateOrderProperties.HeaderFailureStops | supabase/functions/create-order/index.ts:159-162 | a refused header insert is the only call; the store is unchanged; the error is "Failed to create order: " plus the store's message |
| CreateOrderProperties.ItemsFailureCompensates | supabase/functions/create-order/index.ts:205-214 | a refused row insert is followed by exactly one delete of the new order's id, and the error is "Failed to create order items: " plus the store's message; a successful delete restores both tables, and a failed one leaves only the new pending header, with no rows |
| CreateOrderProperties.DeleteOutcomeIgnored | supabase/functions/create-order/index.ts:210-214 | how the compensating delete turns out changes neither the calls issued nor the response |
| CreateOrderProperties.DeleteOnlyAfterItemFailure | supabase/functions/create-order/index.ts:210-214 | a delete is only ever the third and last call, and only after the header insert succeeded and the row insert failed |
| CreateOrderProperties.SuccessCreatesOneOrder | supabase/functions/create-order/index.ts:263-283 | on success the answer is 201 with the stored header's fields and exactly the inserted rows; the store gains exactly one new order and those rows |
| CreateOrderProperties.ConsistencyPreserved | supabase/functions/create-order/index.ts:149-214 | whatever the store answers, a consistent store stays consistent (ids below the generator, rows only under existing orders) |
| CreateOrderProperties.NotIdempotent | supabase/functions/create-order/index.ts:149-157 | two identical successful requests create two distinct orders, and both remain in the store |
| CreateOrderProperties.RowsRoundTrip | supabase/functions/create-order/index.ts:198-203 | removing the order id from the built rows gives back the request lines, in order |
| CreateOrderProperties.WorkedTotals | supabase/functions/create-order/index.ts:110 | 2 x 10.00 + 1 x 5.00 with no total gives 25.00; 2 x 19.99 gives 39.98 with one row |
| CreateOrderProperties.MissingItemsAsWritten | supabase/functions/create-order/index.ts:108-117 | as written, a missing `items` gives a message other than the missing-fields one, while `Validate` reports missing fields; when `items` is present, both agree |

## Left out

- Observability: the error-tracking SDK's initialisation, tags, logs, breadcrumbs, spans, trace continuation, exception capture and flushes. They have no effect on the store or the response.
- Configuration: the environment-variable check and the database client creation, which run once at start-up.
- Parsing the JSON body. The request arrives already decoded into `Request`.
- Response plumbing: HTTP headers (content type, CORS) and async sequencing.
- Floating point: `quantity * price_at_purchase` on JavaScript numbers, `NaN` totals and rounding. Amounts are integer cents.
- Field types: `items: null` and non-string ids or user ids. Absent fields are `None`. User and product ids are strings, which the cart only compares with `===`; order ids are natural numbers.
- Database-assigned row columns: the id and timestamps of `order_items` rows. The rows the store returns are modelled as the rows that were sent. Column defaults and cascades are not modelled.
- Store-side failures: a header insert that fails after consuming an id. In the model a refused insert leaves `nextId` unchanged.
- CreateOrder.HandleCreateOrder: uses `Validate`, not `ParseAsWritten`. A request without `items` therefore answers with the missing-fields message, not the runtime's TypeError message (see Findings). Every other path follows the code.
- The rest of the repository: the sign-in composable, the storage upload script, the demo API, app bootstrapping, build configuration and the UI/HTTP smoke tests. None of them holds cart or order logic.

## Findings

| source | as written | input that shows it | evidently intended | confidence | as-written member | corrected member |
|---|---|---|---|---|---|---|
| supabase/functions/create-order/index.ts:110-117 | `items.reduce` (line 110) or `items.length` (line 112) is evaluated before the `!items` check on line 115, so an absent `items` throws a TypeError and the 500 envelope carries "Cannot read properties of undefined (reading 'reduce')" | body `{"user_id":"u1"}` | the request is rejected with "Missing required fields: user_id or items" | high; not executed | CreateOrder.ParseAsWritten (discrepancy shown by CreateOrderProperties.MissingItemsAsWritten) | CreateOrder.Validate (intended property shown by CreateOrderProperties.ValidationBeforeEffects) |
