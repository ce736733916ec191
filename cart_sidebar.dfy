/** The cart panel (`CartSidebar`): the checks made before an order is sent, the request
    it sends, what happens to the cart afterwards, the tables it offers and the order-type
    buttons. */
module CartSidebar {
  import opened Common
  import opened CartService
  import CartProvider

  /** The first reason a checkout is refused, or `None` when it may go ahead: an empty
      cart, then a dine-in order without a table (absent or 0), then a delivery without an
      address (absent, empty or white space only). */
  function CheckoutError(items: seq<CartItem>, orderType: OrderType, tableId: Option<int>,
                         deliveryAddress: Option<string>): (e: Option<string>)
    ensures e.None? <==>
      && |items| > 0
      && (orderType == PLACE ==> TruthyInt(tableId))
      && (orderType == DELIVERY ==> deliveryAddress.Some? && !Blank(deliveryAddress.value))
    ensures |items| == 0 ==> e == Some("Cart is empty")
    ensures |items| > 0 && orderType == PLACE && !TruthyInt(tableId) ==>
      e == Some("Please select a table for dine-in orders")
    ensures |items| > 0 && orderType == DELIVERY && (deliveryAddress.None? || Blank(deliveryAddress.value)) ==>
      e == Some("Please enter a delivery address")
  {
    if |items| == 0 then Some("Cart is empty")
    else if orderType == PLACE && !TruthyInt(tableId) then Some("Please select a table for dine-in orders")
    else if orderType == DELIVERY && (!TruthyStr(deliveryAddress) || Trim(deliveryAddress.value) == "") then
      Some("Please enter a delivery address")
    else
      assert deliveryAddress.Some? ==> (Trim(deliveryAddress.value) == "" <==> Blank(deliveryAddress.value)) by {
        if deliveryAddress.Some? { TrimEmptyIff(deliveryAddress.value); }
      }
      None
  }

  /** The request the panel builds: user 0 (the order hook puts the signed-in user's id in
      its place), the table only for a dine-in order, the address only for a delivery, no
      delivery time, and one line per cart line at the price shown in the cart. */
  function CheckoutRequest(items: seq<CartItem>, orderType: OrderType, tableId: Option<int>,
                           deliveryAddress: Option<string>): (req: CreateOrderRequest)
    ensures req == CartToOrderRequest(
      Cart(items, if orderType == PLACE then tableId else None, orderType,
           if orderType == DELIVERY then deliveryAddress else None, None), 0)
    ensures orderType != PLACE ==> req.tableId == None
    ensures orderType != DELIVERY ==> req.deliveryAddress == None
    ensures |req.menuItems| == |items|
  {
    CreateOrderRequest(Some(0), if orderType == PLACE then tableId else None, orderType,
                       if orderType == DELIVERY then deliveryAddress else None, None, OrderLines(items))
  }

  /** A request that passed the checks is complete for its kind: a dine-in request names a
      non-zero table, a delivery request a non-blank address, and its lines carry the
      cart's total. */
  lemma CheckedRequestIsComplete(items: seq<CartItem>, orderType: OrderType, tableId: Option<int>,
                                 deliveryAddress: Option<string>)
    requires CheckoutError(items, orderType, tableId, deliveryAddress).None?
    ensures var req := CheckoutRequest(items, orderType, tableId, deliveryAddress);
      && |req.menuItems| > 0
      && (orderType == PLACE ==> TruthyInt(req.tableId))
      && (orderType == DELIVERY ==> req.deliveryAddress.Some? && !Blank(req.deliveryAddress.value))
  {
  }

  /** What the order hook's call came to: the order was created, or it threw, with the
      message of the `Error` it threw when it was one. */
  datatype Submitted = Created | Failed(message: Option<string>)

  datatype Toast = SuccessToast(text: string) | ErrorToast(text: string)

  /** `handleCheckout`: a refused checkout shows its reason, sends nothing and leaves the
      cart alone; an accepted one sends the request; when the order is created the cart is
      emptied and closed, and when it fails the cart stays as it was and the error's
      message (or a fixed one) is shown. */
  method HandleCheckout(cart: CartProvider.CartState, submit: CreateOrderRequest -> Submitted)
    returns (toast: Toast, sent: Option<CreateOrderRequest>)
    modifies cart
    ensures var e := CheckoutError(old(cart.items), old(cart.orderType), old(cart.tableId), old(cart.deliveryAddress));
      && (e.Some? ==> toast == ErrorToast(e.value) && sent == None)
      && (e.None? ==> sent == Some(CheckoutRequest(old(cart.items), old(cart.orderType), old(cart.tableId), old(cart.deliveryAddress))))
    ensures sent.Some? && submit(sent.value) == Created ==>
      && toast == SuccessToast("Order created successfully!")
      && cart.items == [] && !cart.isOpen && cart.tableId == None && cart.deliveryAddress == None
      && cart.orderType == old(cart.orderType)
    ensures sent.Some? && submit(sent.value).Failed? ==>
      toast == ErrorToast(submit(sent.value).message.GetOr("Failed to create order"))
    ensures (sent.None? || submit(sent.value).Failed?) ==>
      && cart.items == old(cart.items) && cart.isOpen == old(cart.isOpen)
      && cart.orderType == old(cart.orderType) && cart.tableId == old(cart.tableId)
      && cart.deliveryAddress == old(cart.deliveryAddress)
  {
    var e := CheckoutError(cart.items, cart.orderType, cart.tableId, cart.deliveryAddress);
    if e.Some? {
      return ErrorToast(e.value), None;
    }
    var req := CheckoutRequest(cart.items, cart.orderType, cart.tableId, cart.deliveryAddress);
    sent := Some(req);
    match submit(req)
    case Created =>
      toast := SuccessToast("Order created successfully!");
      cart.ClearCart();
      cart.CloseCart();
    case Failed(message) =>
      toast := ErrorToast(message.GetOr("Failed to create order"));
  }

  /** A table as the panel receives it. */
  datatype TableView = TableView(id: int, number: int, seats: int, status: TableStatus)

  /** `availableTables`: the free tables, in the order received; none before the list has
      arrived. */
  function AvailableTables(tables: Option<seq<TableView>>): (r: seq<TableView>)
    ensures tables.None? ==> r == []
    ensures forall t :: t in r <==> tables.Some? && t in tables.value && t.status == Free
    ensures tables.Some? ==> |r| <= |tables.value|
  {
    if tables.None? then [] else FreeTables(tables.value)
  }

  /** The free tables of a list, in their order. */
  function FreeTables(tables: seq<TableView>): (r: seq<TableView>)
    ensures forall t :: t in r <==> t in tables && t.status == Free
    ensures |r| <= |tables|
  {
    if |tables| == 0 then []
    else
      var rest := FreeTables(tables[..|tables| - 1]);
      var last := tables[|tables| - 1];
      assert tables == tables[..|tables| - 1] + [last];
      if last.status == Free then rest + [last] else rest
  }

  /** An order-type button: the type changes, and any type other than dine-in sets the
      table to 0, which the checkout treats as no table. */
  method SelectOrderType(cart: CartProvider.CartState, t: OrderType)
    modifies cart
    ensures cart.orderType == t
    ensures cart.tableId == (if t == PLACE then old(cart.tableId) else Some(0))
    ensures cart.items == old(cart.items) && cart.isOpen == old(cart.isOpen)
    ensures cart.deliveryAddress == old(cart.deliveryAddress)
  {
    cart.SetOrderType(t);
    if t != PLACE {
      cart.SetTableId(0);
    }
  }

  /** After switching away from dine-in and back, the table has to be chosen again: a
      checkout with lines is refused for want of a table. */
  method SwitchBackNeedsTable(cart: CartProvider.CartState, away: OrderType)
    returns (e: Option<string>)
    requires away != PLACE && |cart.items| > 0
    modifies cart
    ensures e == Some("Please select a table for dine-in orders")
  {
    SelectOrderType(cart, away);
    SelectOrderType(cart, PLACE);
    e := CheckoutError(cart.items, cart.orderType, cart.tableId, cart.deliveryAddress);
  }
}
