/** How the browser and the server fit together: the totals both sides compute, the order
    request the cart panel builds, the error answers the service layer classifies, the
    login the cache keeps, and the life of a dine-in order from creation to payment. */
module Integration {
  import opened Common
  import opened ApiResponse
  import opened ErrorHandler
  import Db
  import OrdersController
  import InvoiceController
  import AuthController
  import CartService
  import CartSidebar
  import ServiceErrors
  import AuthService
  import AuthMiddleware

  /** The total the cart shows is the total the server stores for the order it sends. */
  lemma {:induction false} CartTotalIsOrderTotal(items: seq<CartService.CartItem>)
    ensures CartService.ItemsTotal(items) == OrdersController.CalculateTotal(CartService.OrderLines(items))
  {
    if |items| > 0 {
      var init := items[..|items| - 1];
      CartTotalIsOrderTotal(init);
      assert CartService.OrderLines(items)[..|items| - 1] == CartService.OrderLines(init);
    }
  }

  /** The request the cart panel builds names user 0, which the server refuses with 400
      before looking at anything else; the order hook replaces the user before sending. */
  lemma PanelRequestNeedsUser(items: seq<CartService.CartItem>, orderType: OrderType, tableId: Option<int>,
                              deliveryAddress: Option<string>, users: map<int, Db.User>,
                              tables: map<int, Db.Table>, menuItems: map<int, Db.MenuItem>)
    ensures OrdersController.Validate(users, tables, menuItems,
                                      CartSidebar.CheckoutRequest(items, orderType, tableId, deliveryAddress))
            == Some(OrdersController.Rejection(400, "User ID and menu items are required"))
  {
  }

  /** `useCreateOrder`: the panel's request with the signed-in user's id. */
  function WithUser(req: CreateOrderRequest, userId: int): (r: CreateOrderRequest)
    ensures r.userId == Some(userId) && r.menuItems == req.menuItems && r.orderType == req.orderType
    ensures r.tableId == req.tableId && r.deliveryAddress == req.deliveryAddress
  {
    req.(userId := Some(userId))
  }

  /** A checkout the panel lets through, sent by a signed-in user whose table exists and
      whose cart lines name distinct existing menu items, passes every server check. */
  lemma CheckedCheckoutAccepted(items: seq<CartService.CartItem>, orderType: OrderType, tableId: Option<int>,
                                deliveryAddress: Option<string>, userId: int, users: map<int, Db.User>,
                                tables: map<int, Db.Table>, menuItems: map<int, Db.MenuItem>)
    requires CartSidebar.CheckoutError(items, orderType, tableId, deliveryAddress).None?
    requires userId != 0 && userId in users
    requires orderType == PLACE ==> tableId.value in tables
    requires forall i :: 0 <= i < |items| ==> items[i].menuItem.id in menuItems
    requires CartService.UniqueIds(items)
    ensures OrdersController.Validate(users, tables, menuItems,
              WithUser(CartSidebar.CheckoutRequest(items, orderType, tableId, deliveryAddress), userId)) == None
  {
    var req := WithUser(CartSidebar.CheckoutRequest(items, orderType, tableId, deliveryAddress), userId);
    var ids := OrdersController.MenuItemIds(req.menuItems);
    assert forall i :: 0 <= i < |items| ==> ids[i] == items[i].menuItem.id;
    OrdersController.ValidateAcceptsIff(users, tables, menuItems, req);
  }

  /** The panel never sends a delivery time, and the server makes an invalid date of the
      missing one, which the store refuses: a delivery checkout that passes every check is
      still never written. */
  lemma PanelDeliveryFailsAtWrite(items: seq<CartService.CartItem>, tableId: Option<int>,
                                  deliveryAddress: Option<string>, userId: int)
    ensures OrdersController.WriteFails(
              WithUser(CartSidebar.CheckoutRequest(items, DELIVERY, tableId, deliveryAddress), userId))
  {
  }

  /** What the HTTP client throws for an error answer: an `Error` carrying the response,
      whose JSON body has the envelope's message and no code. */
  function Rejected<T>(reply: Reply<T>, clientMessage: string): (t: ServiceErrors.Thrown)
    ensures t.isError && t.response.Some? && t.response.value.status == reply.status
  {
    ServiceErrors.Thrown(
      Some(ServiceErrors.ErrorResponse(reply.status, Some(ServiceErrors.ErrorBody(Some(reply.body.message), None)))),
      true, clientMessage)
  }

  /** An error answer whose message is not empty reaches a caller of the classifier with
      its own status and message, whatever text the HTTP client puts on its `Error`. */
  lemma RepliesKeepStatusAndMessage<T>(reply: Reply<T>, clientMessage: string)
    requires reply.body.message != ""
    ensures ServiceErrors.HandleServiceError(Rejected(reply, clientMessage)) ==
            ServiceErrors.AppError(reply.body.message, reply.status, None, "AppError")
  {
  }

  /** The server's error handler never answers with an empty message, so each of its
      answers reaches a caller of the classifier with the same status and message. */
  lemma HandledErrorsKeepStatusAndMessage<T>(err: Err, now: int, clientMessage: string)
    ensures var reply := Handle<T>(err, now);
      ServiceErrors.HandleServiceError(Rejected(reply, clientMessage)) ==
        ServiceErrors.AppError(reply.body.message, reply.status, None, "AppError")
  {
    RepliesKeepStatusAndMessage(Handle<T>(err, now), clientMessage);
  }

  /** A controller's own refusal (`ApiResponse.error` with a message and a status, such
      as "Table not found" or "Invalid credentials") keeps its status and message too. */
  lemma RefusalsKeepStatusAndMessage<T>(status: int, message: string, now: int, clientMessage: string)
    requires message != ""
    ensures ServiceErrors.HandleServiceError(Rejected(Reply(status, Error<T>(Some(message), Some(status), now)), clientMessage)) ==
            ServiceErrors.AppError(message, status, None, "AppError")
  {
    RepliesKeepStatusAndMessage(Reply(status, Error<T>(Some(message), Some(status), now)), clientMessage);
  }

  /** The guards' literal refusals: 401 "Authentication required" and 403 "Insufficient
      permissions" reach a caller of the classifier as they were sent. */
  lemma GuardRefusalsKeepStatusAndMessage(roles: seq<Role>, user: Option<AuthUser>, now: int, clientMessage: string)
    ensures var g := AuthMiddleware.Authorize(roles, user, now);
      g.Respond? ==>
        && ServiceErrors.HandleServiceError(Rejected(g.reply, clientMessage)).statusCode == (if user.None? then 401 else 403)
        && ServiceErrors.HandleServiceError(Rejected(g.reply, clientMessage)).message ==
           (if user.None? then "Authentication required" else "Insufficient permissions")
  {
    var g := AuthMiddleware.Authorize(roles, user, now);
    if g.Respond? {
      RepliesKeepStatusAndMessage(g.reply, clientMessage);
    }
  }

  /** `useCreateOrder`'s catch: the hook rethrows an `Error` carrying the message of what
      it caught when that is an `Error`, and "Failed to create order" otherwise; the panel
      catches that `Error`. The classifier is not called on this path. */
  function OrderHookFailure(t: ServiceErrors.Thrown): (s: CartSidebar.Submitted)
    ensures s.Failed? && s.message.Some?
    ensures s.message.value == (if t.isError then t.message else "Failed to create order")
  {
    CartSidebar.Failed(Some(if t.isError then t.message else "Failed to create order"))
  }

  /** A checkout the server refuses shows the HTTP client's own text, not the server's
      message: unlike a caller of the classifier, the panel never sees the server's
      reason unless the client's text happens to be the same. */
  lemma CheckoutShowsClientText<T>(reply: Reply<T>, clientMessage: string)
    requires reply.body.message != ""
    ensures OrderHookFailure(Rejected(reply, clientMessage)) == CartSidebar.Failed(Some(clientMessage))
    ensures ServiceErrors.HandleServiceError(Rejected(reply, clientMessage)).message == reply.body.message
    ensures clientMessage != reply.body.message ==>
      OrderHookFailure(Rejected(reply, clientMessage)).message.value !=
      ServiceErrors.HandleServiceError(Rejected(reply, clientMessage)).message
  {
    RepliesKeepStatusAndMessage(reply, clientMessage);
  }

  /** The session the browser receives from a successful login. */
  function SessionOf(d: AuthController.LoginData): (s: AuthService.Session)
    ensures s.user == d.user && s.token == d.token
  {
    AuthService.Session(d.user, d.token)
  }

  /** A successful server login, cached by the browser, reads back as a valid user, as
      long as the JSON text round-trips. */
  lemma LoginIsCached(d: AuthController.LoginData, storage: map<string, string>,
                      stringify: AuthService.Json -> string, parse: string -> Option<AuthService.Json>)
    requires stringify(AuthService.UserJson(d.user)) != ""
    requires parse(stringify(AuthService.UserJson(d.user))) == Some(AuthService.UserJson(d.user))
    ensures var after := storage[AuthService.TokenKey := d.token][AuthService.UserKey := stringify(AuthService.UserJson(d.user))];
      var read := AuthService.ReadUser(after, parse);
      read.0 == Some(AuthService.UserJson(d.user)) && AuthService.IsValidUser(read.0.value)
  {
    AuthService.LoginThenCurrentUser(storage, SessionOf(d), stringify, parse);
  }

  /** Two dine-in orders for the same table, one after the other, are both written: the
      first occupies the table and the second is accepted all the same, since the table's
      status is never checked. */
  method SameTableTwice(db: Db.Store, req: CreateOrderRequest, now: int) returns (first: int, second: int)
    requires db.Valid()
    requires req.orderType == PLACE
    requires OrdersController.Validate(db.users, db.tables, db.menuItems, req).None?
    modifies db
    ensures db.Valid()
    ensures first != second && first in db.orders && second in db.orders
    ensures db.orders[first].tableId == req.tableId && db.orders[second].tableId == req.tableId
    ensures req.tableId.value in db.tables && db.tables[req.tableId.value].status == Occupied
  {
    var t := req.tableId.value;
    first := db.nextOrderId;
    var o1 := OrdersController.CreateOrder(db, req, now);
    OrdersController.TableStatusIgnored(old(db.users), old(db.tables), old(db.menuItems), req, t, Occupied);
    second := db.nextOrderId;
    var o2 := OrdersController.CreateOrder(db, req, now);
  }

  /** A dine-in order from creation to payment: the order occupies its table, gets one
      unpaid invoice, and paying that invoice frees the table again; every other table is
      left as it was. */
  method DineInLifecycle(db: Db.Store, req: CreateOrderRequest, billing: InvoiceController.Billing, now: int)
    returns (orderId: int, invoiceId: int)
    requires db.Valid()
    requires req.orderType == PLACE
    requires OrdersController.Validate(db.users, db.tables, db.menuItems, req).None?
    modifies db
    ensures db.Valid()
    ensures orderId in db.orders && invoiceId in db.invoices
    ensures db.invoices[invoiceId].orderId == orderId && db.invoices[invoiceId].status == "paid"
    ensures db.invoices[invoiceId].totalAmount == OrdersController.CalculateTotal(req.menuItems)
    ensures db.tables == old(db.tables)[req.tableId.value := old(db.tables)[req.tableId.value].(status := Free)]
  {
    orderId := db.nextOrderId;
    var created := OrdersController.CreateOrder(db, req, now);
    assert db.orders[orderId].tableId == req.tableId;
    invoiceId := db.nextInvoiceId;
    assert !Db.HasInvoice(db.invoices, orderId);
    var invoiced := InvoiceController.CreateInvoice(db, orderId, billing, now);
    assert InvoiceController.ReleasesTable(Some("paid"), db.orders[orderId]);
    var paid := InvoiceController.UpdateInvoiceStatus(db, invoiceId, Some("paid"), now);
  }
}
