# DineAhead cart, checkout and sign-in form — a Dafny model

This project models two parts of the DineAhead food-ordering application and
proves properties of that model.

* **The backend cart store and order ledger.** Every user has at most one cart.
  A cart is locked to one restaurant. Lines for the same menu item are merged.
  Updates and removals change the cart in place. Checkout turns the cart into an
  order, copying each item's current price, and then deletes the cart. Orders
  can be listed newest first and looked up one at a time. Both reads show a user
  their own orders only.
* **The sign-in/registration form of the frontend.** This covers what
  `validateForm` reports before submitting, how `handleChange` reformats a
  phone number as it is typed, and how typing clears the field's error.

The database is modelled as the class `Store.Db`. It holds a fixed menu
catalog, the carts collection as a `map` keyed by owner, and the orders
collection as a `seq` in insertion order. The cart routes and checkout are
module-level methods that take the database `db: Db` and change only what their
`modifies` names. Each of them is proved equal to a pure function of the stored
state, for example `CartRoutes.Add` or `OrderRoutes.PlaceOrder`. The two order
reads, GET `/orders` and GET `/orders/:id`, change nothing and are functions of
the ledger `seq<Order>` (`OrderRoutes.ListOrders`, `OrderRoutes.GetOrder`).
Every method preserves `Db.Valid()`, which says:

* quantities are at least one;
* no two lines of a cart share a menu item;
* every line resolves in the catalog and comes from the cart's restaurant;
* every cart is keyed by its owner;
* every order has lines and the total of those lines.

The lemmas about the specification functions state the route behaviour:

* merge on add;
* set-not-add on update;
* removal by a negative quantity;
* idempotent remove;
* the lock that outlives removal;
* the price snapshot and total at checkout;
* newest-first listing of exactly the user's orders;
* owner-restricted lookup.

Modules follow the source files:

| file | module | models |
|---|---|---|
| common.dfy | `Common` | option and result values, ids, money in minor units, an abstract clock |
| menu.dfy | `Menu` | the part of a menu item the routes read, and the catalog |
| cart_model.dfy | `CartModel` | `models/Cart.js`: cart lines, cart, the cart invariant, `findIndex`/`filter` on lines |
| order_model.dfy | `OrderModel` | `models/Order.js`: order lines, order, the status enum with its default, totals |
| store.dfy | `Store` | the in-memory database and its invariant |
| cart_routes.dfy | `CartRoutes` | `routes/cart.js`: the five cart routes |
| order_routes.dfy | `OrderRoutes` | `routes/orders.js`: checkout, list, single lookup |
| auth_form.dfy | `AuthForm` | `src/pages/AuthPage.jsx`: `validateForm` and `handleChange` |

The following model choices follow the code where a plain reading could suggest
otherwise:

* PUT `/update` with quantity 0 is rejected with 400 "Quantity required". The
  check at `routes/cart.js:65` is `!quantity`. Only a negative quantity removes
  the line.
* Removing every line leaves the cart's restaurant set. The emptied cart still
  refuses items from another restaurant (`CartRoutes.LockOutlivesRemoval`).
* Checkout takes the order's restaurant from the first line's menu item, not
  from the cart.
* Checkout does not check again whether an item is still available. It only
  reads the item's current price.
* POST `/add` on a stored cart whose restaurant is unset fails. The code calls
  `toString()` on `undefined`, the handler passes the error to `next(err)`, and
  the cart is not changed. The model reports this as `ServerError`.

## Model

| member | source | states |
|---|---|---|
| CartModel.IndexOf | dineahead-backend/routes/cart.js:45 | the index of the first line for the item, or -1 exactly when no line holds it |
| CartModel.Without | dineahead-backend/routes/cart.js:93 | keeps exactly the lines for other items, each taken from the original lines |
| CartModel.WithoutAbsent | dineahead-backend/routes/cart.js:93 | filtering out an item that no line holds leaves the lines as they are |
| CartModel.WithoutConcat | dineahead-backend/routes/cart.js:93 | the filter distributes over concatenation, so the kept lines stay in their order |
| CartModel.WithoutIsSplice | dineahead-backend/routes/cart.js:93 | on distinct lines, filtering out a present item is exactly splicing out its `findIndex` line, so the filter of `/remove` agrees with the splice of `/update` at line 74 |
| CartModel.QuantityOfDistinct | dineahead-backend/models/Cart.js:4-14 | in a cart with distinct lines, an item's units are the quantity of its single line, or none |
| CartModel.WithoutIdempotent | dineahead-backend/routes/cart.js:93 | filtering out an item twice is the same as filtering it out once |
| CartModel.WithoutQuantity | dineahead-backend/routes/cart.js:93 | after the filter the item has no units, and every other item keeps its units |
| CartModel.WithoutDistinct | dineahead-backend/routes/cart.js:93 | the filter keeps distinct lines distinct |
| OrderModel.StatusName | dineahead-backend/models/Order.js:14 | every status is stored as one of the six enum strings, and that string parses back to the status |
| OrderModel.ParseStatus | dineahead-backend/models/Order.js:14 | a stored string is accepted exactly when it is one of the six enum strings |
| OrderModel.ParseThenName | dineahead-backend/models/Order.js:14 | a parsed status string names the status it came from |
| OrderModel.TotalAppend | dineahead-backend/routes/orders.js:17-20 | the total of concatenated lines is the sum of their totals |
| OrderModel.NewOrder | dineahead-backend/models/Order.js:10-17 | a new order has the given owner, lines, amount and restaurant; its status is `created` and its creation time is now |
| Store.Db.constructor | dineahead-backend/models/Cart.js:9-14 | an empty database satisfies the collection invariants |
| Store.Db.SaveOrder | dineahead-backend/routes/orders.js:41 | saving a new order, numbered by its place, appends it to the ledger, leaves the carts alone and keeps the database invariant |
| Store.AppendKeepsLedgerValid | dineahead-backend/routes/orders.js:41 | appending a valid order that carries the next id keeps every order valid and numbered by its place |
| CartRoutes.GetCart | dineahead-backend/routes/cart.js:9-16 | returns the stored cart when the user has one, otherwise the empty cart of that user; never fails |
| CartRoutes.AddQuantity | dineahead-backend/routes/cart.js:23 | the coerced quantity is at least 1; a requested quantity of at least 1 is kept; an absent or smaller one becomes 1 |
| CartRoutes.Add | dineahead-backend/routes/cart.js:19-59 | a missing id gives 400, and an unknown or unavailable item gives 404. Without a cart, a new one is created with the item's restaurant and the single line (item, qty). With a cart, the add succeeds exactly when the restaurants agree; another restaurant gives 400 |
| CartRoutes.MergeEffect | dineahead-backend/routes/cart.js:45-50 | merging raises the item's units by qty and leaves every other line as it was |
| CartRoutes.AddKeepsInvariant | dineahead-backend/routes/cart.js:23-50 | every cart that add saves has quantities of at least 1, distinct lines and one restaurant |
| CartRoutes.AddMerges | dineahead-backend/routes/cart.js:45-50 | a successful add raises the item's units by the coerced quantity, and other items' lines are unchanged |
| CartRoutes.MergeKeepsPlace | dineahead-backend/routes/cart.js:45-50 | the item's line stays at its `findIndex` position, or a line for a new item goes at the end; every other position keeps its line |
| CartRoutes.AddKeepsPlace | dineahead-backend/routes/cart.js:45-50 | a successful add into a stored cart changes the item's line in place, or appends the item's line when the cart lacks it; every other position keeps its line |
| CartRoutes.AddTwiceMerges | dineahead-backend/routes/cart.js:30-50 | adding the same item twice gives one line holding the sum of both quantities |
| CartRoutes.Update | dineahead-backend/routes/cart.js:62-85 | quantity missing or 0 gives 400; no cart gives 404; the item missing from the cart gives 404; on success the owner and restaurant are kept |
| CartRoutes.UpdateKeepsInvariant | dineahead-backend/routes/cart.js:73-77 | every cart that update saves keeps the cart invariant |
| CartRoutes.UpdateNegativeRemoves | dineahead-backend/routes/cart.js:73-74 | a negative quantity drops the item's line and keeps every other line in order |
| CartRoutes.UpdatePositiveSets | dineahead-backend/routes/cart.js:75-76 | a positive quantity sets the item's units to exactly that value and keeps the other lines |
| CartRoutes.UpdateKeepsPlace | dineahead-backend/routes/cart.js:70-76 | a positive update keeps the item's line at its position and the number of lines, and every other position keeps its line |
| CartRoutes.Remove | dineahead-backend/routes/cart.js:88-100 | fails, with 404, only when there is no cart; otherwise the lines are the filtered lines, with owner and restaurant kept |
| CartRoutes.RemoveKeepsInvariant | dineahead-backend/routes/cart.js:93 | every cart that remove saves keeps the cart invariant |
| CartRoutes.RemoveIdempotent | dineahead-backend/routes/cart.js:93 | removing the item again changes no line; the restaurant is kept; only the removed item loses units |
| CartRoutes.LockOutlivesRemoval | dineahead-backend/routes/cart.js:39-43 | any removal (the filter at line 93) keeps the cart's restaurant, so the cart still refuses an item from another restaurant; a removal of its only item leaves no lines |
| CartRoutes.AddItem | dineahead-backend/routes/cart.js:19-59 | the handler answers as `Add`; it stores the new cart only on success; it keeps the database invariant and leaves orders unchanged |
| CartRoutes.UpdateItem | dineahead-backend/routes/cart.js:62-85 | the handler answers as `Update`; it stores the new cart only on success; it keeps the invariant and leaves orders unchanged |
| CartRoutes.RemoveItem | dineahead-backend/routes/cart.js:88-100 | the handler answers as `Remove`; it stores the new cart only on success; it keeps the invariant and leaves orders unchanged |
| CartRoutes.ClearCart | dineahead-backend/routes/cart.js:103-108 | the user's cart is gone whether or not one existed; every other cart and all orders are unchanged |
| OrderRoutes.Snapshot | dineahead-backend/routes/orders.js:18-26 | one order line per cart line, in order, with the same item and quantity and the item's current catalog price |
| OrderRoutes.BuildOrderItems | dineahead-backend/routes/orders.js:17-26 | the loop with its running total yields the snapshot lines and exactly their total |
| OrderRoutes.PlaceOrder | dineahead-backend/routes/orders.js:13-40 | fails, with 400, exactly when there is no cart or it is empty. Otherwise the order has the user, status `created`, the snapshot lines, their total and the first line's restaurant |
| OrderRoutes.SnapshotTotal | dineahead-backend/routes/orders.js:17-20 | the snapshot's total is the sum of current price times quantity over the cart lines |
| OrderRoutes.PlacedOrderValid | dineahead-backend/routes/orders.js:17-38 | an order placed from a valid non-empty cart keeps the order invariant, and its amount is the cart's total at current prices |
| OrderRoutes.CheckoutExample | dineahead-backend/routes/orders.js:17-26 | two lines, 10.00 twice and 5.00 once, make an order of 25.00 with those prices locked in |
| OrderRoutes.Checkout | dineahead-backend/routes/orders.js:10-49 | the handler answers as `PlaceOrder`. It saves through `Db.SaveOrder` and deletes the cart through `ClearCart`. The order is appended only if the save succeeds, and no existing order is changed. Only the user's cart is deleted, and only after a successful save and delete. A failed save or delete passes the error to `next(err)` and is reported as `StorageFailure` |
| OrderRoutes.OwnedBy | dineahead-backend/routes/orders.js:54 | exactly the orders of the user are selected |
| OrderRoutes.Insert | dineahead-backend/routes/orders.js:54 | inserting into a newest-first list keeps it newest first and adds exactly that order |
| OrderRoutes.SortNewestFirst | dineahead-backend/routes/orders.js:54 | the result is newest first and a permutation of the input |
| OrderRoutes.ListOrders | dineahead-backend/routes/orders.js:52-57 | the list is newest first, a permutation of the user's orders, and holds only the user's orders from the ledger |
| OrderRoutes.OwnedByAppend | dineahead-backend/routes/orders.js:54 | saving one more order extends only its owner's selection, by that order |
| OrderRoutes.ListAfterCheckout | dineahead-backend/routes/orders.js:41-54 | after a checkout later than every saved order, the new order heads its owner's list and every other user's list is unchanged |
| OrderRoutes.GetOrder | dineahead-backend/routes/orders.js:60-66 | finds an order exactly when one has both the id and the user as owner; otherwise gives 404 |
| OrderRoutes.GetOrderSeesOnlyOwn | dineahead-backend/routes/orders.js:62-63 | the lookup answers as if the ledger held only the user's orders, so another user's order gives the same 404 as a missing id |
| AuthForm.ValidateForm | dineahead-frontend/src/pages/AuthPage.jsx:23-49 | records, per field, the email, password, name and phone errors with their messages; name and phone are checked only when registering; the form is valid exactly when no error is recorded and exactly when every check passes |
| AuthForm.EmailAtShift | dineahead-frontend/src/pages/AuthPage.jsx:28 | a match at positions (at, dot) becomes a match at the shifted positions when text is put in front |
| AuthForm.EmailAtExtend | dineahead-frontend/src/pages/AuthPage.jsx:28 | a match at positions (at, dot) stays a match there when text is put behind |
| AuthForm.EmailAfterPrefix | dineahead-frontend/src/pages/AuthPage.jsx:28 | text in front of a matching address keeps it matching |
| AuthForm.EmailBeforeSuffix | dineahead-frontend/src/pages/AuthPage.jsx:28 | text behind a matching address keeps it matching |
| AuthForm.EmailUnanchored | dineahead-frontend/src/pages/AuthPage.jsx:28 | the email check is unanchored: text around a matching address keeps it matching |
| AuthForm.EmailExamples | dineahead-frontend/src/pages/AuthPage.jsx:28 | "a@b.c" is accepted; "a@b" and the empty string are not |
| AuthForm.DigitsOnly | dineahead-frontend/src/pages/AuthPage.jsx:76 | the cleaned value holds only digits and is no longer than the input |
| AuthForm.DigitsOnlyOfNonDigits | dineahead-frontend/src/pages/AuthPage.jsx:76 | cleaning a value with no digit gives the empty string |
| AuthForm.DigitsOnlyAppend | dineahead-frontend/src/pages/AuthPage.jsx:76 | cleaning distributes over concatenation |
| AuthForm.DigitsOnlyIdempotent | dineahead-frontend/src/pages/AuthPage.jsx:76 | cleaning twice is cleaning once |
| AuthForm.PhoneGroups | dineahead-frontend/src/pages/AuthPage.jsx:77 | the match exists exactly when there are at most ten digits. Its three groups then concatenate to the digits, hold at most 3, 3 and 4 digits, and fill greedily |
| AuthForm.FormatPhone | dineahead-frontend/src/pages/AuthPage.jsx:76-85 | a new phone value exists exactly when at most ten digits were typed |
| AuthForm.FormatPhoneShape | dineahead-frontend/src/pages/AuthPage.jsx:79-83 | by the number of digits: nothing; "(" + digits; then ") " + the next three; then "-" + the rest |
| AuthForm.FormatKeepsDigits | dineahead-frontend/src/pages/AuthPage.jsx:76-83 | the formatted value holds exactly the typed digits, in order |
| AuthForm.FormatIdempotent | dineahead-frontend/src/pages/AuthPage.jsx:76-83 | formatting a formatted value changes nothing |
| AuthForm.FormattedPassesCheckIffTenDigits | dineahead-frontend/src/pages/AuthPage.jsx:42 | a formatted value passes the registration phone check exactly when ten digits were typed |
| AuthForm.FormatFixesValidPhone | dineahead-frontend/src/pages/AuthPage.jsx:42 | a phone already in the checked format is left as it is by the formatter |
| AuthForm.HandleChange | dineahead-frontend/src/pages/AuthPage.jsx:71-93 | A typed name, email or password is stored as typed. A typed phone is reformatted, or kept as before when it has over ten digits. Other fields are unchanged. The field's error is emptied, other errors are unchanged, and errors without one for the field are left alone |

## Left out

- Persistence: `findOne`, `save`, `populate`, `findOneAndDelete` and `execPopulate` become reads and writes of the in-memory collections. Responses carry the unpopulated documents.
- Database failures in the cart routes (a failed save passed to `next(err)`) are not modelled. In checkout the outcome of the order save and the cart delete is given by the parameters `saveOk` and `deleteOk`.
- Concurrency: each route handler is one atomic step; interleaved requests and their lost updates are not modelled.
- Authentication: the signed-in user's id is a parameter. The auth middleware, the auth and user routes, and the User model are not part of this model.
- Catalog changes: the restaurant and menu routes are not modelled, and the catalog is fixed. As a result a deleted menu item never dangles in a cart, and line resolution is part of `Db.Valid()` instead of a checkout precondition.
- `parseInt`, `NaN` and JavaScript's number coercion: a quantity is an optional integer, and 0 stands for every falsy value. Fractional quantities are not modelled.
- Identifiers: ObjectIds and the string comparisons of `toString()` become plain equality of natural numbers. An order's id is its position in the ledger. Only well-formed ids are modelled: a malformed id makes `findById` (`routes/cart.js:25`) or `findOne({ _id })` (`routes/orders.js:62`) throw a cast error, which the handler passes to `next(err)`. Ids are also taken in their canonical lower-case hex spelling. The lookup at `routes/cart.js:25` goes through an ObjectId cast, but the line matches at `routes/cart.js:45`, `:70` and `:93` compare `toString()` with the raw request string by `===`. An id spelt in upper case would therefore find the menu item and miss its line: add would push a second line for the same item, update would answer 404, and remove would keep the line. `CartModel.Distinct`, and every lemma that relies on it, holds only for canonically spelt ids.
- Money: the source adds JavaScript floating-point numbers (`routes/orders.js:19-20`). The model counts exact integer minor units, so floating-point rounding of prices and totals is not modelled.
- Time: `Date.now()` is a parameter `now` on an abstract natural clock.
- OrderRoutes.SortNewestFirst: orders with equal `createdAt` come out later-saved first. MongoDB leaves that order unspecified.
- Checkout's branch for a menu item without a restaurant (`routes/orders.js:31`) is not reachable in the model, because the catalog is fixed and every menu item in it has a restaurant. In the source, `findByIdAndUpdate(req.params.id, req.body)` at `routes/menus.js:40` runs no schema validators and could unset it; menu updates are not modelled.
- The schema default quantity of 1 (`models/Cart.js:6`, `models/Order.js:6`) is not modelled, because every route supplies a quantity. The defaults for `updatedAt` and `createdAt` are the `now` passed in.
- Menu item name, description, category and creation time are not read by the core and are not modelled. Neither are status changes, since no route changes an order's status.
- AuthForm: the four regular expressions (`AuthPage.jsx:28`, `:42`, `:76`, `:77`) are stated as predicates and functions over the string (`EmailPattern`, `PhonePattern`, `DigitsOnly`, `PhoneGroups`), not run by a regex engine.
- AuthForm: lengths count Unicode characters. JavaScript's `length` counts UTF-16 code units, so a password with characters outside the Basic Multilingual Plane is longer in JavaScript.
- AuthForm: React state updates (`setErrors`, `setFormData`) are returned values. `handleSubmit`, the API call, toasts, navigation and rendering are not part of this model.
