/** The cart state the browser keeps while an order is assembled (`CartProvider`): the
    lines, whether the cart panel is open, and the order details. Each operation is one
    state update. */
module CartProvider {
  import opened Common
  import opened CartService

  /** The `addItem` update: when the menu item is in the cart already, every line of it
      has the quantity added; otherwise a new line goes at the end. */
  function AddLines(items: seq<CartItem>, m: MenuItem, quantity: int): (r: seq<CartItem>)
    ensures FindIndex(items, m.id) >= 0 ==>
      && |r| == |items|
      && forall j :: 0 <= j < |items| ==>
           r[j] == (if items[j].menuItem.id == m.id then items[j].(quantity := items[j].quantity + quantity) else items[j])
    ensures FindIndex(items, m.id) < 0 ==> r == items + [CartItem(m, quantity)]
  {
    if FindIndex(items, m.id) >= 0 then
      seq(|items|, j requires 0 <= j < |items| =>
        if items[j].menuItem.id == m.id then items[j].(quantity := items[j].quantity + quantity) else items[j])
    else items + [CartItem(m, quantity)]
  }

  /** When the ids in the cart are unique, the provider adds exactly as `addToCart` does:
      the one line of the item is the first line of it. */
  lemma AddLinesAgreesWithService(cart: Cart, m: MenuItem, quantity: Option<int>)
    requires UniqueIds(cart.items)
    ensures AddLines(cart.items, m, quantity.GetOr(1)) == AddToCart(cart, m, quantity).items
  {
    var i := FindIndex(cart.items, m.id);
    if i >= 0 {
      var a := AddLines(cart.items, m, quantity.GetOr(1));
      var b := AddToCart(cart, m, quantity).items;
      forall j | 0 <= j < |a| ensures a[j] == b[j] {
        if j != i {
          assert cart.items[j].menuItem.id != cart.items[i].menuItem.id;
        }
      }
    }
  }

  /** `getItemCount`: the sum of the quantities. */
  function ItemCount(items: seq<CartItem>): (r: int) {
    if |items| == 0 then 0 else ItemCount(items[..|items| - 1]) + items[|items| - 1].quantity
  }

  lemma {:induction false} ItemCountAppend(a: seq<CartItem>, b: seq<CartItem>)
    ensures ItemCount(a + b) == ItemCount(a) + ItemCount(b)
    decreases |b|
  {
    if |b| == 0 {
      assert a + b == a;
    } else {
      assert (a + b)[..|a + b| - 1] == a + b[..|b| - 1];
      ItemCountAppend(a, b[..|b| - 1]);
    }
  }

  lemma {:induction false} ItemCountUpdate(items: seq<CartItem>, i: int, item: CartItem)
    requires 0 <= i < |items|
    ensures ItemCount(items[i := item]) == ItemCount(items) - items[i].quantity + item.quantity
  {
    var n := |items| - 1;
    if i == n {
      assert items[i := item][..n] == items[..n];
    } else {
      assert items[i := item][..n] == items[..n][i := item];
      ItemCountUpdate(items[..n], i, item);
    }
  }

  /** With unique ids, adding `q` of an item raises the item count by `q`. */
  lemma AddRaisesItemCount(items: seq<CartItem>, m: MenuItem, quantity: int)
    requires UniqueIds(items)
    ensures ItemCount(AddLines(items, m, quantity)) == ItemCount(items) + quantity
  {
    var i := FindIndex(items, m.id);
    if i >= 0 {
      AddLinesAgreesWithService(Cart(items, None, PLACE, None, None), m, Some(quantity));
      ItemCountUpdate(items, i, items[i].(quantity := items[i].quantity + quantity));
    } else {
      ItemCountAppend(items, [CartItem(m, quantity)]);
      assert ItemCount([CartItem(m, quantity)]) == ItemCount([]) + quantity;
    }
  }

  class CartState {
    var items: seq<CartItem>
    var isOpen: bool
    var orderType: OrderType
    var tableId: Option<int>
    var deliveryAddress: Option<string>

    /** The initial state: empty, closed, a dine-in order with no table or address. */
    constructor ()
      ensures items == [] && !isOpen && orderType == PLACE && tableId == None && deliveryAddress == None
    {
      items, isOpen, orderType, tableId, deliveryAddress := [], false, PLACE, None, None;
    }

    /** `getTotal`: Σ price × quantity over the lines. */
    function GetTotal(): (r: int)
      reads this
    {
      ItemsTotal(items)
    }

    /** `getItemCount`: Σ quantity over the lines. */
    function GetItemCount(): (r: int)
      reads this
    {
      ItemCount(items)
    }

    /** `addItem` (quantity 1 when omitted). */
    method AddItem(m: MenuItem, quantity: Option<int>)
      modifies this
      ensures items == AddLines(old(items), m, quantity.GetOr(1))
      ensures isOpen == old(isOpen) && orderType == old(orderType)
      ensures tableId == old(tableId) && deliveryAddress == old(deliveryAddress)
    {
      items := AddLines(items, m, quantity.GetOr(1));
    }

    /** `removeItem`: every line of the item goes, the others stay in order. */
    method RemoveItem(id: int)
      modifies this
      ensures items == Without(old(items), id)
      ensures isOpen == old(isOpen) && orderType == old(orderType)
      ensures tableId == old(tableId) && deliveryAddress == old(deliveryAddress)
    {
      items := Without(items, id);
    }

    /** `updateQuantity`: zero or less removes the item; otherwise its lines take the new
      quantity. */
    method UpdateQuantity(id: int, quantity: int)
      modifies this
      ensures quantity <= 0 ==> items == Without(old(items), id)
      ensures quantity > 0 ==> items == SetQuantity(old(items), id, quantity)
      ensures isOpen == old(isOpen) && orderType == old(orderType)
      ensures tableId == old(tableId) && deliveryAddress == old(deliveryAddress)
    {
      if quantity <= 0 {
        RemoveItem(id);
        return;
      }
      items := SetQuantity(items, id, quantity);
    }

    /** `clearCart`: no lines, closed, no table and no address; the order type stays. */
    method ClearCart()
      modifies this
      ensures items == [] && !isOpen && tableId == None && deliveryAddress == None
      ensures orderType == old(orderType)
    {
      items := [];
      isOpen := false;
      tableId := None;
      deliveryAddress := None;
    }

    /** `toggleCart`: the panel flips, so two toggles restore it. */
    method ToggleCart()
      modifies this
      ensures isOpen == !old(isOpen)
      ensures items == old(items) && orderType == old(orderType)
      ensures tableId == old(tableId) && deliveryAddress == old(deliveryAddress)
    {
      isOpen := !isOpen;
    }

    /** `closeCart`. */
    method CloseCart()
      modifies this
      ensures !isOpen
      ensures items == old(items) && orderType == old(orderType)
      ensures tableId == old(tableId) && deliveryAddress == old(deliveryAddress)
    {
      isOpen := false;
    }

    method SetOrderType(t: OrderType)
      modifies this
      ensures orderType == t
      ensures items == old(items) && isOpen == old(isOpen)
      ensures tableId == old(tableId) && deliveryAddress == old(deliveryAddress)
    {
      orderType := t;
    }

    method SetTableId(id: int)
      modifies this
      ensures tableId == Some(id)
      ensures items == old(items) && isOpen == old(isOpen)
      ensures orderType == old(orderType) && deliveryAddress == old(deliveryAddress)
    {
      tableId := Some(id);
    }

    method SetDeliveryAddress(address: string)
      modifies this
      ensures deliveryAddress == Some(address)
      ensures items == old(items) && isOpen == old(isOpen)
      ensures orderType == old(orderType) && tableId == old(tableId)
    {
      deliveryAddress := Some(address);
    }
  }

  /** Two toggles leave the panel as it was, whatever else they see. */
  method ToggleTwice(cart: CartState)
    modifies cart
    ensures cart.isOpen == old(cart.isOpen) && cart.items == old(cart.items)
  {
    cart.ToggleCart();
    cart.ToggleCart();
  }

  /** Adding to a cart keeps the total in step: the panel's total after `addItem` is the
      old total plus the quantity times the price of the item's line. */
  method AddThenTotal(cart: CartState, m: MenuItem, quantity: int) returns (before: int, after: int)
    requires UniqueIds(cart.items)
    modifies cart
    ensures var i := FindIndex(old(cart.items), m.id);
      after == before + quantity * (if i >= 0 then old(cart.items)[i].menuItem.price else m.price)
    ensures before == ItemsTotal(old(cart.items)) && after == cart.GetTotal()
    ensures cart.items == AddLines(old(cart.items), m, quantity) && UniqueIds(cart.items)
    ensures cart.isOpen == old(cart.isOpen) && cart.orderType == old(cart.orderType)
    ensures cart.tableId == old(cart.tableId) && cart.deliveryAddress == old(cart.deliveryAddress)
  {
    before := cart.GetTotal();
    ghost var c := Cart(cart.items, None, PLACE, None, None);
    AddLinesAgreesWithService(c, m, Some(quantity));
    AddToCartTotal(c, m, Some(quantity));
    AddKeepsIdsUnique(c, m, Some(quantity));
    cart.AddItem(m, Some(quantity));
    after := cart.GetTotal();
  }
}
