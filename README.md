# Restaurant point of sale: a verified model

This project is a Dafny model of the rule-carrying core of a restaurant point-of-sale
system. The system has a Node/Express server over a relational store and a React browser
client. The model covers the following parts.

- **Order, table and invoice protocol** (server). `createOrder` runs a fixed chain of
  checks, each with its own status. It then writes the order, one item per line and, for
  a dine-in order, the occupation of its table, all in one transaction.
  `updateOrderStatus` stores any status, and a request without one changes nothing. `createInvoice` refuses a second invoice for an
  order. `updateInvoiceStatus` frees the table of a dine-in order when its invoice
  becomes `paid`. The store is the class `Db.Store`: one map from id to row per table,
  plus the auto-increment counters. Its invariant `Valid()` holds the keys, the unique
  columns and the foreign keys.
- **Reports and listing** (server). There are three sales reports: the total over an
  inclusive date range, the completed-order revenue per table, and the invoice amounts
  grouped by creation instant. The menu listing has category, availability and
  case-insensitive search filters, newest-first order, and skip/take pagination with
  `ceil(total / limit)` pages.
- **Request boundary** (server). This covers the `Bearer` header guard (section 2.1 of
  RFC 6750) with the user lookup, the role allow-list, the error-to-status mapping, the
  JSON envelope, and registration and login. Hashing, password comparison, token signing
  and token verification are function parameters.
- **Browser state** (client). This covers:
  - the cart as pure functions (`cartService`) and as a stateful class (`CartProvider`);
  - the checkout panel's guards, request and clean-up;
  - the add-table form validator;
  - the sign-in cache over the browser's key-value storage;
  - the classifier that turns a thrown value into an `AppError`.

The module `Integration` relates the two sides:

- the cart's total is the total the server stores for the order;
- a checkout that passes the panel's checks passes the server's checks once the order
  hook has put in the user id;
- an error answer with a message (one from the error handler, a controller's own refusal,
  or a guard's 401/403) reaches a caller of the browser's error classifier with its status
  and message; the checkout panel is not such a caller: the order hook passes on the
  HTTP client's own text, so the server's reason for refusing an order never reaches the
  panel's toast;
- a login that is cached reads back as a valid user;
- a dine-in order that is created, invoiced and paid leaves every table as it was, with
  its own table `Free`.

As written, the panel never sends a delivery time, and the server turns the missing time
into an invalid date, which the store refuses. So no delivery order placed from the panel
is ever written (`Integration.PanelDeliveryFailsAtWrite`).

Conventions:

- amounts of money are integers (prices in cents), where the source has JavaScript
  numbers (see "## Left out");
- instants are integer milliseconds since the epoch;
- `now` stands for the wall clock;
- JavaScript truthiness is spelled out (`TruthyInt`, `TruthyStr`);
- an omitted (`undefined`) argument with a default is an `Option` resolved by `GetOr`.

## Model

| member | source | states |
|---|---|---|
| ApiResponse.Success | backend/src/utils/apiResponse.js:2-10 | a success envelope carrying the data; message defaults to "Success" and status to 200 |
| ApiResponse.Error | backend/src/utils/apiResponse.js:12-19 | an error envelope without data; message defaults to "Error" and status to 500 |
| ApiResponse.Paginated | backend/src/utils/apiResponse.js:21-30 | a paginated envelope is always status 200 and carries the data and the pagination |
| ApiResponse.PaginatedExtendsSuccess | backend/src/utils/apiResponse.js:2-30 | a paginated envelope is the default success envelope with pagination added |
| ApiResponse.ErrorNeverSuccess | backend/src/utils/apiResponse.js:2-30 | an error envelope never equals a success or paginated one |
| ErrorHandler.NotFound | backend/src/middleware/errorHandler.js:1-5 | the unmatched-route error has status 404 and a message naming the URL |
| ErrorHandler.Handle | backend/src/middleware/errorHandler.js:7-42 | the error reply is never a success; its status equals the body's status code; it has no data; its message is never empty |
| ErrorHandler.Deliver | backend/src/middleware/errorHandler.js:7-42 | a sent reply reaches the client unchanged; a forwarded error becomes a non-success reply |
| ErrorHandler.TokenErrorsWin | backend/src/middleware/errorHandler.js:21-27 | token errors give 401 "Invalid token" or "Token expired", overriding everything else |
| ErrorHandler.StoreCodesMapped | backend/src/middleware/errorHandler.js:12-18 | P2002 gives 409 "Resource already exists"; P2025 gives 404 "Resource not found" |
| ErrorHandler.UnrecognisedErrorsKeepBase | backend/src/middleware/errorHandler.js:8-9 | otherwise the error's truthy status and message are used, with 500 and "Internal Server Error" as fallbacks |
| ErrorHandler.RecordNotFoundIs404 | backend/src/middleware/errorHandler.js:15-17 | the store's missing-row error is answered with 404 |
| ErrorHandler.NotFoundAnswers404 | backend/src/middleware/errorHandler.js:1-9 | an unmatched route is answered with 404 and its "Not found" message |
| Db.Store.InsertTable | backend/src/controllers/tableController.js:4-10 | a new table has status Free unless one is given; assuming the schema makes the table number unique (the controller does not check it), a duplicate number is refused and nothing changes |
| Db.Store.InsertUser | backend/src/controllers/authController.js:20-23 | a new user row under a fresh id; the other tables are unchanged |
| Db.Store.InsertMenuItem | backend/src/controllers/menuController.js:8-15 | a new menu item row under a fresh id; the other tables are unchanged |
| Db.Store.InsertOrder | backend/src/controllers/ordersController.js:57-67 | a new order row under a fresh id; the other tables are unchanged |
| Db.Store.InsertOrderItems | backend/src/controllers/ordersController.js:76-78 | the rows get consecutive fresh ids; the existing items are kept |
| Db.Store.InsertInvoice | backend/src/controllers/invoiceController.js:30-40 | a new invoice for an order that has none, under a fresh id |
| Db.Store.SetTableStatus | backend/src/controllers/ordersController.js:81-86 | only the status of that one table changes |
| Db.Store.SetOrderStatus | backend/src/controllers/ordersController.js:164-167 | only the status of that one order changes |
| Db.Store.SetInvoiceStatus | backend/src/controllers/invoiceController.js:129-144 | only the status of that one invoice changes |
| Db.Numbered | backend/src/controllers/ordersController.js:76-78 | the bulk-inserted rows are numbered consecutively from the counter, in order |
| OrdersController.CalculateTotalAppend | backend/src/controllers/ordersController.js:5-7 | the total of concatenated lines is the sum of their totals |
| OrdersController.CalculateTotalNonNegative | backend/src/controllers/ordersController.js:5-7 | non-negative prices and quantities give a non-negative total |
| OrdersController.MenuItemIds | backend/src/controllers/ordersController.js:44 | the requested ids, one per line, in order |
| OrdersController.FoundCountFull | backend/src/controllers/ordersController.js:44-53 | the count check passes iff every id exists and no id is repeated |
| OrdersController.ValidateAcceptsIff | backend/src/controllers/ordersController.js:13-53 | a request is accepted iff it has a truthy user id and lines, the user exists, a dine-in order names an existing table, and every line names a distinct existing item |
| OrdersController.MissingInputRefusedFirst | backend/src/controllers/ordersController.js:13-17 | a missing user id or empty lines is a 400 whatever the store holds |
| OrdersController.DineInTableChecks | backend/src/controllers/ordersController.js:27-41 | a dine-in order without a table is a 400; one with an unknown table is a 404 |
| OrdersController.NewOrder | backend/src/controllers/ordersController.js:56-67 | the order is pending and its total is the line total; the table is kept only for dine-in; address and time are kept only for delivery |
| OrdersController.ItemsFor | backend/src/controllers/ordersController.js:69-74 | one item per line, copying item, quantity and price, each pointing at the order |
| OrdersController.CreateOrder | backend/src/controllers/ordersController.js:9-97 | a rejection answers with its status and message and writes nothing; an invalid delivery date aborts with nothing written; otherwise the order, its items and (dine-in) the table Occupied are written together, with reply 201 |
| OrdersController.UpdateOrderStatus | backend/src/controllers/ordersController.js:159-184 | any status string is stored and a request without a status leaves the order as it was; no table changes; an unknown order is the missing-row error |
| OrdersController.TableStatusIgnored | backend/src/controllers/ordersController.js:26-41 | the table's status plays no part in accepting an order: an occupied table is accepted like a free one |
| InvoiceController.NewInvoice | backend/src/controllers/invoiceController.js:30-40 | the invoice is unpaid, carries the order's total and copies the billing details |
| InvoiceController.CreateInvoice | backend/src/controllers/invoiceController.js:4-48 | an order that has an invoice gets 400 first, a missing order 404, both writing nothing; otherwise exactly one invoice is added, with reply 201 |
| InvoiceController.OnlyPaymentReleases | backend/src/controllers/invoiceController.js:147-149 | only status "paid" on a dine-in order with a table frees a table; a request without a status frees none |
| InvoiceController.UpdateInvoiceStatus | backend/src/controllers/invoiceController.js:106-165 | a missing invoice is a 404 with nothing written; otherwise the requested status is stored (a request without one leaves the invoice as it was) and the order's table is freed exactly when payment releases it |
| SalesController.DayOf | backend/src/controllers/salesController.js:73 | the date part of an instant: the day that contains it |
| SalesController.TotalSales | backend/src/controllers/salesController.js:5-28 | the sum over the invoices of the inclusive range; 0 when none matches; non-negative for non-negative amounts |
| SalesController.TotalSalesSplit | backend/src/controllers/salesController.js:9-17 | splitting the range at any instant splits the total, and no invoice is counted twice |
| SalesController.TotalSalesIgnoresStatus | backend/src/controllers/salesController.js:9-17 | an invoice's status plays no part in the total |
| SalesController.InvoiceRows | backend/src/controllers/salesController.js:60-69 | every invoice of the range, and only those, contributes a row keyed by its instant |
| SalesController.InvoiceRowsTotal | backend/src/controllers/salesController.js:60-69 | the grouped rows carry exactly the range's total |
| SalesController.GroupKeys | backend/src/controllers/salesController.js:60-69 | the groups are strictly ascending, one per instant present, and no other |
| SalesController.GroupedSum | backend/src/controllers/salesController.js:60-75 | over distinct keys, the sum of the group sums is the sum of the selected rows |
| SalesController.SalesByDayGroups | backend/src/controllers/salesController.js:56-83 | one ascending entry per creation instant of an invoice in the range, and no other |
| SalesController.DailyTotalsSumToTotal | backend/src/controllers/salesController.js:5-83 | for the same range the daily entries add up to the total sales |
| SalesController.SameDayTwice | backend/src/controllers/salesController.js:60-75 | two invoices on one day at different instants give two entries with the same date |
| SalesController.DayEntries | backend/src/controllers/salesController.js:72-75 | one entry per group: its date part and its sum |
| SalesController.TableTotal | backend/src/controllers/salesController.js:33-45 | a table without completed orders reports 0 |
| SalesController.TableTotalIsGroup | backend/src/controllers/salesController.js:33-45 | a table's revenue is the sum of its completed orders' totals |
| SalesController.SalesByTable | backend/src/controllers/salesController.js:31-53 | one entry per table, in table order, carrying the table's number |
| SalesController.SalesByTableEntry | backend/src/controllers/salesController.js:33-45 | each entry is its table's completed revenue, and 0 without completed orders |
| SalesController.SalesByTableSumsCompleted | backend/src/controllers/salesController.js:31-53 | with distinct tables the entries add up to the completed revenue at the listed tables |
| SalesController.GetTotalSales | backend/src/controllers/salesController.js:19-23 | reply 200 carrying the total |
| SalesController.GetSalesByTable | backend/src/controllers/salesController.js:47-49 | reply 200 carrying the per-table entries |
| SalesController.GetSalesByDay | backend/src/controllers/salesController.js:77-79 | reply 200 carrying the daily entries |
| MenuController.MatchesQuery | backend/src/controllers/menuController.js:30-39 | an item is listed iff it is in the given category, its availability equals `available === 'true'` when that is given, and the search term occurs, ignoring case, in its name or description |
| MenuController.OtherAvailableTextSelectsUnavailable | backend/src/controllers/menuController.js:33 | any `available` text other than "true" selects only unavailable items |
| MenuController.SearchIgnoresCase | backend/src/controllers/menuController.js:34-39 | upper-casing the term or the text does not change the match |
| MenuController.EmptyTermEverywhere | backend/src/controllers/menuController.js:34-39 | the empty term occurs in every text |
| MenuController.Filter | backend/src/controllers/menuController.js:42-43 | the listed rows are exactly the matching rows |
| MenuController.SortNewestFirst | backend/src/controllers/menuController.js:51 | a permutation of the rows in descending creation order |
| MenuController.Window | backend/src/controllers/menuController.js:49-50 | at most `take` rows starting at row `skip` |
| MenuController.PageCount | backend/src/controllers/menuController.js:60 | the smallest page count covering the total; no number for limit 0 |
| MenuController.PagesCoverListing | backend/src/controllers/menuController.js:56-61 | pages 1 to `pages` together list every row once, in order |
| MenuController.GetAllMenuItems | backend/src/controllers/menuController.js:25-69 | page 1 and limit 10 by default; a negative skip is the store's error; otherwise reply 200 with the window of the sorted matches and the pagination |
| MenuController.ListingPage | backend/src/controllers/menuController.js:41-65 | a page holds only matching rows, newest first, and the total counts all matches |
| MenuController.DefaultsFirstTen | backend/src/controllers/menuController.js:27-28 | with no parameters the first ten rows are listed |
| MenuController.CreateMenuItem | backend/src/controllers/menuController.js:4-23 | `available` defaults to true; an unknown category is the store's error and writes nothing; otherwise reply 201 |
| MenuController.CreateDefaults | backend/src/controllers/menuController.js:6 | an item created without the flag is available |
| AuthController.ParseRole | backend/src/controllers/authController.js:21 | the store accepts exactly the three role names |
| AuthController.RegisterUser | backend/src/controllers/authController.js:6-31 | a used e-mail is a 400 writing nothing; an unknown role is the store's error; otherwise a user with the hashed password and role STAFF by default, reply 201 |
| AuthController.RoleDefaultsToStaff | backend/src/controllers/authController.js:8 | an omitted role is STAFF |
| AuthController.InvalidCredentials | backend/src/controllers/authController.js:39-51 | 401 "Invalid credentials" |
| AuthController.LoginUser | backend/src/controllers/authController.js:33-74 | an unknown e-mail and a wrong password both give the same 401; otherwise 200 with the user's public fields and a token signed over id and role |
| AuthMiddleware.Split | backend/src/middleware/auth.js:17 | `split` pieces contain no separator |
| AuthMiddleware.SplitJoin | backend/src/middleware/auth.js:17 | splitting loses nothing: joining the pieces gives the text back |
| AuthMiddleware.TokenOf | backend/src/middleware/auth.js:17 | the token is the text after "Bearer " up to the next space |
| AuthMiddleware.BearerTokenRoundTrip | backend/src/middleware/auth.js:8-17 | "Bearer " followed by a token without spaces yields exactly that token |
| AuthMiddleware.AuthenticateDecision | backend/src/middleware/auth.js:4-40 | a missing header or one not starting with "Bearer " is a 401; a token the verifier rejects passes its error on; a verified token whose user is gone is a 401 "User not found"; otherwise the attached user is the id, name, e-mail and role of that user's row |
| AuthMiddleware.Authenticate | backend/src/middleware/auth.js:4-40 | `req.user` is set exactly when the request passes; otherwise the request is unchanged |
| AuthMiddleware.SchemeIsCaseSensitive | backend/src/middleware/auth.js:8 | "bearer …" and a bare "Bearer" are refused |
| AuthMiddleware.Authorize | backend/src/middleware/auth.js:42-64 | pass iff a user is attached and its role is allowed; no user is a 401 (checked first); a role outside the list is a 403 |
| AuthMiddleware.EmptyAllowListRejects | backend/src/middleware/auth.js:53-60 | an empty allow-list turns everybody away with 403 |
| AuthMiddleware.StaffKeptFromSales | backend/src/routes/salesRoutes.js:14 | staff cannot read the sales reports; managers can |
| AuthMiddleware.GuardsInARow | backend/src/middleware/auth.js:4-64 | both guards pass iff the header carries a verified token of an existing user whose role is allowed |
| CartService.FindIndex | frontend/src/services/cartService.ts:27-29 | the first line of the item, or -1 when there is none |
| CartService.AddToCart | frontend/src/services/cartService.ts:26-41 | the first line of the item gains the quantity (default 1), or a new line is appended; nothing else changes |
| CartService.AddKeepsIdsUnique | frontend/src/services/cartService.ts:26-41 | adding keeps the ids in the cart unique |
| CartService.AddToCartTotal | frontend/src/services/cartService.ts:18-41 | adding raises the cart total by quantity times the line's price |
| CartService.ItemsTotalAppend | frontend/src/services/cartService.ts:22-24 | the cart total is additive over concatenation |
| CartService.ItemsTotalUpdate | frontend/src/services/cartService.ts:18-24 | replacing one line changes the total by that line's difference |
| CartService.Without | frontend/src/services/cartService.ts:43-48 | every line of the item goes, the others stay in order; absent ids change nothing |
| CartService.RemovalsCommute | frontend/src/services/cartService.ts:43-48 | removal is idempotent and removals commute |
| CartService.RemoveFromCart | frontend/src/services/cartService.ts:43-48 | only the lines change |
| CartService.SetQuantity | frontend/src/services/cartService.ts:55-57 | the item's lines take the new quantity; the others are unchanged |
| CartService.UpdateQuantity | frontend/src/services/cartService.ts:50-60 | zero or less removes the item; otherwise its lines take the quantity |
| CartService.UpdateQuantityTotal | frontend/src/services/cartService.ts:50-60 | with unique ids, the total changes by (new minus old quantity) times the price |
| CartService.ClearCart | frontend/src/services/cartService.ts:62-65 | an empty dine-in cart without table or address |
| CartService.OrderLines | frontend/src/services/cartService.ts:73-77 | one request line per cart line, with id, quantity and the price shown |
| CartService.CartToOrderRequest | frontend/src/services/cartService.ts:67-78 | the user and the cart's details passed through, with one line per cart line |
| CartProvider.AddLines | frontend/src/context/cart-provider.tsx:13-27 | every line of the item gains the quantity, or a new line is appended |
| CartProvider.AddLinesAgreesWithService | frontend/src/context/cart-provider.tsx:13-27 | with unique ids the provider adds exactly as `addToCart` does |
| CartProvider.ItemCountAppend | frontend/src/context/cart-provider.tsx:67-69 | the item count is additive over concatenation |
| CartProvider.ItemCountUpdate | frontend/src/context/cart-provider.tsx:67-69 | replacing one line changes the count by that line's difference |
| CartProvider.AddRaisesItemCount | frontend/src/context/cart-provider.tsx:13-27 | with unique ids, adding q of an item raises the count by q |
| CartProvider.CartState.constructor | frontend/src/context/cart-provider.tsx:6-11 | an empty, closed dine-in cart |
| CartProvider.CartState.AddItem | frontend/src/context/cart-provider.tsx:13-27 | only the lines change, as `AddLines` says |
| CartProvider.CartState.RemoveItem | frontend/src/context/cart-provider.tsx:29-31 | only the lines change: the item's lines go |
| CartProvider.CartState.UpdateQuantity | frontend/src/context/cart-provider.tsx:33-46 | zero or less removes; otherwise the lines take the quantity; nothing else changes |
| CartProvider.CartState.ClearCart | frontend/src/context/cart-provider.tsx:48-53 | no lines, closed, no table and no address; the order type stays |
| CartProvider.CartState.ToggleCart | frontend/src/context/cart-provider.tsx:55-57 | only the open flag flips |
| CartProvider.CartState.CloseCart | frontend/src/context/cart-provider.tsx:59-61 | only the open flag is cleared |
| CartProvider.CartState.SetOrderType | frontend/src/context/cart-provider.tsx:9 | only the order type changes |
| CartProvider.CartState.SetTableId | frontend/src/context/cart-provider.tsx:10 | only the table changes |
| CartProvider.CartState.SetDeliveryAddress | frontend/src/context/cart-provider.tsx:11 | only the address changes |
| CartProvider.ToggleTwice | frontend/src/context/cart-provider.tsx:55-57 | two toggles restore the panel |
| CartProvider.AddThenTotal | frontend/src/context/cart-provider.tsx:13-27 | `before` is the old total and `after` the new `getTotal()`; the lines become `AddLines` of the old ones, the total rises by quantity times the line's price, ids stay unique, and the other fields are unchanged |
| CartSidebar.CheckoutError | frontend/src/components/layout/CartSidebar.tsx:45-59 | checkout may proceed iff there are lines, a dine-in order has a non-zero table, and a delivery has a non-blank address; the first failure's message otherwise |
| CartSidebar.CheckoutRequest | frontend/src/components/layout/CartSidebar.tsx:61-72 | user 0, the table only for dine-in, the address only for delivery, no delivery time, one line per cart line |
| CartSidebar.CheckedRequestIsComplete | frontend/src/components/layout/CartSidebar.tsx:45-72 | a request that passed the checks has lines, a dine-in table and a delivery address |
| CartSidebar.HandleCheckout | frontend/src/components/layout/CartSidebar.tsx:43-84 | a refused checkout sends nothing and keeps the cart; success empties and closes the cart; failure keeps it and shows the error's message or "Failed to create order" |
| CartSidebar.AvailableTables | frontend/src/components/layout/CartSidebar.tsx:87 | exactly the free tables are offered; none before the list arrives |
| CartSidebar.SelectOrderType | frontend/src/components/layout/CartSidebar.tsx:174-180 | the type changes, and any type but dine-in sets the table to 0 |
| CartSidebar.SwitchBackNeedsTable | frontend/src/components/layout/CartSidebar.tsx:51-54 | after leaving dine-in and coming back, checkout asks for a table |
| Common.TrimEmptyIff | frontend/src/components/layout/CartSidebar.tsx:56 | trimming leaves nothing iff the text is white space only |
| TablesPage.NumberError | frontend/src/pages/TablesPage.tsx:65-71 | blank gives "required"; otherwise not a positive number gives "valid number"; otherwise an existing number gives "already exists"; none iff all pass |
| TablesPage.SeatsError | frontend/src/pages/TablesPage.tsx:73-77 | blank gives "required"; otherwise not a positive number gives "valid number"; none iff both pass |
| TablesPage.SeatsIgnoreExistingTables | frontend/src/pages/TablesPage.tsx:65-77 | only the table number is compared with the existing tables |
| TablesPage.TableForm.ValidateForm | frontend/src/pages/TablesPage.tsx:62-81 | each field carries exactly its first failure's message; the result is true iff there is none |
| ServiceErrors.NewAppError | frontend/src/utils/error-handler.ts:1-11 | status defaults to 500; name is "AppError" |
| ServiceErrors.HandleServiceError | frontend/src/utils/error-handler.ts:26-46 | the server's message, status and code when the response carries a message; else an `Error`'s non-empty message with 500; else "An unexpected error occurred" with 500 |
| ServiceErrors.SilentResponseFallsThrough | frontend/src/utils/error-handler.ts:28-37 | a response without a message is treated as no response |
| ServiceErrors.StatusFromServerOnly | frontend/src/utils/error-handler.ts:26-46 | a status other than 500 comes only from the server's answer |
| AuthService.UserJson | frontend/src/services/authService.ts:31 | the stored user object is valid and carries the user's fields |
| AuthService.ReadUser | frontend/src/services/authService.ts:63-83 | no user entry (or an empty one) gives null with no change; a valid entry is returned and kept; anything else is removed |
| AuthService.ReadUserIdempotent | frontend/src/services/authService.ts:63-83 | reading twice gives the same result and changes nothing more |
| AuthService.AuthStore.Login | frontend/src/services/authService.ts:24-38 | token and user are stored only on a success with data; a thrown call is classified and nothing changes |
| AuthService.AuthStore.Logout | frontend/src/services/authService.ts:55-58 | exactly the two keys are removed |
| AuthService.AuthStore.ClearAuth | frontend/src/services/authService.ts:122-125 | exactly the two keys are removed |
| AuthService.AuthStore.GetCurrentUser | frontend/src/services/authService.ts:63-83 | returns and changes what `ReadUser` says |
| AuthService.AuthStore.GetProfile | frontend/src/services/authService.ts:88-101 | a success with data rewrites only the user entry |
| AuthService.AuthStore.IsAuthenticated | frontend/src/services/authService.ts:113-117 | true iff a non-empty token is stored and the stored user reads as valid |
| AuthService.LoginThenCurrentUser | frontend/src/services/authService.ts:28-32 | after a successful login the cache reads back the user that was stored |
| AuthService.LogoutSignsOut | frontend/src/services/authService.ts:55-58 | after logout there is no token and no user |
| AuthService.UnknownRoleIsInvalid | frontend/src/services/authService.ts:130-140 | a stored user whose role is not one of the three is invalid |
| Integration.CartTotalIsOrderTotal | frontend/src/services/cartService.ts:22-24 | the cart's total equals the server's total of the lines it sends |
| Integration.PanelRequestNeedsUser | frontend/src/components/layout/CartSidebar.tsx:62 | the panel's request alone (user 0) is refused with 400 by the server |
| Integration.CheckedCheckoutAccepted | frontend/src/components/layout/CartSidebar.tsx:43-84 | a checked checkout by an existing user with existing, distinct items and table passes the server's checks |
| Integration.PanelDeliveryFailsAtWrite | frontend/src/components/layout/CartSidebar.tsx:65 | a delivery from the panel has no delivery time, so the server's write fails |
| Integration.RepliesKeepStatusAndMessage | frontend/src/utils/error-handler.ts:28-36 | an error answer with a non-empty message reaches a caller of the classifier with its status and message |
| Integration.HandledErrorsKeepStatusAndMessage | backend/src/middleware/errorHandler.js:8-42 | each answer of the server's error handler reaches a caller of the classifier with its status and message |
| Integration.RefusalsKeepStatusAndMessage | backend/src/utils/apiResponse.js:12-19 | a controller's own refusal with a message reaches a caller of the classifier with its status and message |
| Integration.GuardRefusalsKeepStatusAndMessage | backend/src/middleware/auth.js:42-64 | the role guard's 401 and 403 reach a caller of the classifier with their status and text |
| Integration.OrderHookFailure | frontend/src/hooks/use-orders.ts:39-42 | the order hook hands the panel a failure carrying the caught `Error`'s message, or "Failed to create order" |
| Integration.CheckoutShowsClientText | frontend/src/hooks/use-orders.ts:39-42 | a refused checkout shows the HTTP client's text, which differs from the server's message whenever the two texts differ |
| Integration.SameTableTwice | backend/src/controllers/ordersController.js:26-41 | two dine-in orders for one table, placed one after the other, are both written and the table stays occupied |
| Integration.LoginIsCached | frontend/src/services/authService.ts:28-32 | a server login, cached, reads back as a valid user |
| Integration.DineInLifecycle | backend/src/controllers/invoiceController.js:147-154 | create, invoice and pay a dine-in order: every table ends as it was, except its table, which is Free |

## Left out

- HTTP wiring is left out: routes, CORS, body parsing, logging and process signals. Only
  the sales allow-list is kept, as a constant. As written, the order status route
  (backend/src/routes/ordersRoutes.js:21) passes `authorize` itself rather than the guard
  `authorize(...)` returns; called as a handler it returns a function and never calls
  `next`, so `OrdersController.UpdateOrderStatus` models a handler that the route as
  written does not reach.
- Common.Option: `None` is an absent (`undefined`) field. A JSON `null` is not
  modelled: a default parameter does not replace it, so `role: null` and
  `available: null` reach the store as `null` (where the model gives STAFF and true),
  and `deliveryTime: null` gives the valid date of the epoch rather than an invalid one.
- Money is integer arithmetic. The source's prices are JavaScript numbers (doubles, such
  as 12.99), and `calculateTotal`, the cart totals and the sales sums add doubles, whose
  addition rounds and is not associative. So `OrdersController.CalculateTotalAppend`,
  `SalesController.GroupedSum`, `SalesController.TotalSalesSplit` and
  `SalesController.DailyTotalsSumToTotal` hold for exact amounts only: in the source the
  daily entries can differ from the total by rounding. `Integration.CartTotalIsOrderTotal`
  does not depend on this, since both sides add the same products in the same order.
- Request fields are typed values: a field the body leaves out, or text where a number
  is expected, is not modelled except where listed. The order and invoice status
  updates do model a missing `status` (`None`: nothing is written, no table is freed).
- OrdersController.UpdateOrderStatus: the order id is an integer. A non-numeric id,
  which `parseInt` turns into `NaN` and the store refuses with a 500, is not modelled.
- InvoiceController.UpdateInvoiceStatus: the invoice id is an integer. The `NaN` id
  from non-numeric text, and the store's error for it, is not modelled.
- MenuController.CreateMenuItem: `categoryId` is an optional integer. A non-numeric
  category, which the store refuses with a 500, is not modelled.
- OrdersController.CreateOrder: `orderType` is one of the three types. A request
  without one skips the dine-in checks; what the store then does with the missing type
  is not modelled.
- AuthController.RegisterUser: the e-mail and password are always present. A body
  without them makes the store lookup or the hashing throw, giving a 500; this is not
  modelled.
- AuthController.LoginUser: the e-mail and password are always present. A body without
  them makes the store lookup or the comparison throw, giving a 500; this is not
  modelled.
- Concurrency is left out: each transaction is one atomic method. No race is needed for
  two orders to share a table, since an order never checks its table's status
  (`Integration.SameTableTwice`).
- The relations the server includes in its answers (category, user, table, order items)
  are left out. Replies carry the written row with its id.
- Date handling is reduced to integers: `new Date`, `toISOString` and time zones. The
  date part of an instant is its UTC day.
- JSON text is left out. `JSON.stringify` and `JSON.parse` are function parameters.
- Cryptography is left out. `bcrypt` and `jsonwebtoken` are function parameters. Token
  expiry is folded into the verifier's verdict.
- The browser's key-value storage is a map field. Its quota and storage errors are left
  out.
- The React rendering, toasts (beyond their text), loading flags and the order hook are
  left out. The hook's replacement of the user id is the function `Integration.WithUser`.
- CartService.AddToCart: the source bumps the quantity on the object it shares with the
  input cart, so the caller's cart changes too. The model returns a new cart and leaves
  the input as it was.
- CartProvider.CartState.ToggleCart: the source's toggle reads the flag captured by the
  component's last render. Two toggles within one render would flip it once, and the
  model does not capture this.
- MenuController.GetAllMenuItems: `page` and `limit` are parsed as integers, and the
  limit as a natural number. Non-numeric text (`NaN`) and a negative limit are not
  modelled.
- MenuController.ContainsInsensitive: case folding is ASCII only. The store's Unicode
  case-insensitive comparison is not modelled.
- Common.IsSpace: only ASCII white space. The Unicode spaces that `trim` also removes
  are not modelled.
- TablesPage.TableForm.ValidateForm: JavaScript's `Number` conversion of the text is a
  parameter, and its result is a real or `None` for `NaN`.
- AuthService.AuthStore.Login: the HTTP client's throw on a non-2xx answer is a
  parameter (`Call.Threw`), not derived from the status.
- SalesController.GetTotalSales: the reply carries the bare sum, where the source wraps
  it in an object with one field, `totalSales`.
- SalesController.DayEntries: the date of an entry is the day number, where the source
  has the `YYYY-MM-DD` text of that UTC day.
- OrdersController.CreateOrder: the store's exact error text for an invalid delivery
  date is not modelled.
- The seed script and the other CRUD controllers (categories, tables besides creation,
  menu updates and deletes, order listing) are pure store passthroughs and are not part
  of this model.
