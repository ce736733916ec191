/** The browser's cart as a value (`cartService`): a list of menu items with quantities,
    keyed by menu item id, plus the order details the checkout sends. Every operation
    returns a new cart. Prices are in cents. */
module CartService {
  import opened Common

  /** The fields of a menu item the cart uses. */
  datatype MenuItem = MenuItem(id: int, name: string, price: int)

  datatype CartItem = CartItem(menuItem: MenuItem, quantity: int)

  /** `deliveryTime` is the instant the client's date text denotes. */
  datatype Cart = Cart(items: seq<CartItem>, tableId: Option<int>, orderType: OrderType,
                       deliveryAddress: Option<string>, deliveryTime: Option<int>)

  /** `calculateItemTotal`: price × quantity. */
  function ItemTotal(item: CartItem): (r: int) {
    item.menuItem.price * item.quantity
  }

  /** The left fold of `ItemTotal` over a list of cart lines. */
  function ItemsTotal(items: seq<CartItem>): (r: int) {
    if |items| == 0 then 0 else ItemsTotal(items[..|items| - 1]) + ItemTotal(items[|items| - 1])
  }

  /** `calculateCartTotal`. */
  function CartTotal(cart: Cart): (r: int) {
    ItemsTotal(cart.items)
  }

  lemma {:induction false} ItemsTotalAppend(a: seq<CartItem>, b: seq<CartItem>)
    ensures ItemsTotal(a + b) == ItemsTotal(a) + ItemsTotal(b)
    decreases |b|
  {
    if |b| == 0 {
      assert a + b == a;
    } else {
      assert (a + b)[..|a + b| - 1] == a + b[..|b| - 1];
      ItemsTotalAppend(a, b[..|b| - 1]);
    }
  }

  /** Replacing one line changes the total by the difference of the two lines. */
  lemma {:induction false} ItemsTotalUpdate(items: seq<CartItem>, i: int, item: CartItem)
    requires 0 <= i < |items|
    ensures ItemsTotal(items[i := item]) == ItemsTotal(items) - ItemTotal(items[i]) + ItemTotal(item)
  {
    var n := |items| - 1;
    if i == n {
      assert items[i := item][..n] == items[..n];
    } else {
      assert items[i := item][..n] == items[..n][i := item];
      ItemsTotalUpdate(items[..n], i, item);
    }
  }

  /** True iff no menu item id occurs on two lines. */
  predicate UniqueIds(items: seq<CartItem>) {
    forall i, j :: 0 <= i < j < |items| ==> items[i].menuItem.id != items[j].menuItem.id
  }

  /** `findIndex`: the first line with this menu item id, or -1. */
  function FindIndex(items: seq<CartItem>, id: int): (i: int)
    ensures -1 <= i < |items|
    ensures i >= 0 ==> items[i].menuItem.id == id && forall j :: 0 <= j < i ==> items[j].menuItem.id != id
    ensures i == -1 ==> forall j :: 0 <= j < |items| ==> items[j].menuItem.id != id
  {
    if |items| == 0 then -1
    else if items[0].menuItem.id == id then 0
    else
      var k := FindIndex(items[1..], id);
      if k == -1 then -1 else k + 1
  }

  /** `addToCart` (quantity 1 when omitted): a menu item already in the cart has the
      quantity added to its first line; otherwise a new line goes at the end. Nothing else
      in the cart changes. */
  function AddToCart(cart: Cart, m: MenuItem, quantity: Option<int>): (r: Cart)
    ensures r == cart.(items := r.items)
    ensures var q := quantity.GetOr(1);
      var i := FindIndex(cart.items, m.id);
      if i >= 0 then
        && |r.items| == |cart.items|
        && r.items[i] == cart.items[i].(quantity := cart.items[i].quantity + q)
        && forall j :: 0 <= j < |r.items| && j != i ==> r.items[j] == cart.items[j]
      else
        r.items == cart.items + [CartItem(m, q)]
  {
    var q := quantity.GetOr(1);
    var i := FindIndex(cart.items, m.id);
    if i >= 0 then cart.(items := cart.items[i := cart.items[i].(quantity := cart.items[i].quantity + q)])
    else cart.(items := cart.items + [CartItem(m, q)])
  }

  /** Adding keeps the menu item ids of the cart unique. */
  lemma AddKeepsIdsUnique(cart: Cart, m: MenuItem, quantity: Option<int>)
    requires UniqueIds(cart.items)
    ensures UniqueIds(AddToCart(cart, m, quantity).items)
  {
    var r := AddToCart(cart, m, quantity).items;
    if FindIndex(cart.items, m.id) == -1 {
      forall i, j | 0 <= i < j < |r| ensures r[i].menuItem.id != r[j].menuItem.id {
        if j == |r| - 1 {
          assert r[i] == cart.items[i];
        } else {
          assert r[i] == cart.items[i] && r[j] == cart.items[j];
        }
      }
    }
  }

  /** Adding `q` of an item raises the total by `q` times the price on the cart's line:
      the price of the line already in the cart, or that of the item added. */
  lemma AddToCartTotal(cart: Cart, m: MenuItem, quantity: Option<int>)
    ensures var q := quantity.GetOr(1);
      var i := FindIndex(cart.items, m.id);
      CartTotal(AddToCart(cart, m, quantity)) ==
        CartTotal(cart) + q * (if i >= 0 then cart.items[i].menuItem.price else m.price)
  {
    var q := quantity.GetOr(1);
    var i := FindIndex(cart.items, m.id);
    if i >= 0 {
      var line := cart.items[i];
      ItemsTotalUpdate(cart.items, i, line.(quantity := line.quantity + q));
      assert ItemTotal(line.(quantity := line.quantity + q)) == ItemTotal(line) + q * line.menuItem.price;
    } else {
      ItemsTotalAppend(cart.items, [CartItem(m, q)]);
      assert ItemsTotal([CartItem(m, q)]) == ItemsTotal([]) + ItemTotal(CartItem(m, q));
    }
  }

  /** The lines without any line of this menu item, the others in their order. */
  function Without(items: seq<CartItem>, id: int): (r: seq<CartItem>)
    ensures |r| <= |items|
    ensures forall x :: x in r <==> x in items && x.menuItem.id != id
    ensures (forall j :: 0 <= j < |items| ==> items[j].menuItem.id != id) ==> r == items
  {
    if |items| == 0 then []
    else
      var last := items[|items| - 1];
      assert items == items[..|items| - 1] + [last];
      Without(items[..|items| - 1], id) + (if last.menuItem.id != id then [last] else [])
  }

  /** Removing an item twice is removing it once, and removals of two items can be done
      in either order. */
  lemma {:induction false} RemovalsCommute(items: seq<CartItem>, id: int, other: int)
    requires other != id
    ensures Without(items, id) == Without(Without(items, id), id)
    ensures Without(Without(items, id), other) == Without(Without(items, other), id)
  {
    if |items| > 0 {
      var front := items[..|items| - 1];
      var last := items[|items| - 1];
      RemovalsCommute(front, id, other);
      var w := Without(items, id);
      if last.menuItem.id != id {
        assert w[..|w| - 1] == Without(front, id);
      } else {
        assert w == Without(front, id);
      }
      var wo := Without(items, other);
      if last.menuItem.id != other {
        assert wo[..|wo| - 1] == Without(front, other);
      } else {
        assert wo == Without(front, other);
      }
      var wwo := Without(w, other);
      if last.menuItem.id != id {
        assert wwo == Without(Without(front, id), other) + (if last.menuItem.id != other then [last] else []);
      }
      var wow := Without(wo, id);
      if last.menuItem.id != other {
        assert wow == Without(Without(front, other), id) + (if last.menuItem.id != id then [last] else []);
      }
    }
  }

  /** `removeFromCart`: every line of the menu item goes, the rest of the cart stays. */
  function RemoveFromCart(cart: Cart, id: int): (r: Cart)
    ensures r == cart.(items := Without(cart.items, id))
    ensures forall x :: x in r.items ==> x.menuItem.id != id
  {
    cart.(items := Without(cart.items, id))
  }

  /** The lines with the quantity of this menu item's lines set. */
  function SetQuantity(items: seq<CartItem>, id: int, quantity: int): (r: seq<CartItem>)
    ensures |r| == |items|
    ensures forall j :: 0 <= j < |items| ==>
      r[j] == (if items[j].menuItem.id == id then items[j].(quantity := quantity) else items[j])
  {
    seq(|items|, j requires 0 <= j < |items| =>
      if items[j].menuItem.id == id then items[j].(quantity := quantity) else items[j])
  }

  /** `updateQuantity`: a quantity of zero or less removes the item; otherwise its lines
      take the new quantity and nothing else changes. */
  function UpdateQuantity(cart: Cart, id: int, quantity: int): (r: Cart)
    ensures quantity <= 0 ==> r == RemoveFromCart(cart, id)
    ensures quantity > 0 ==> r == cart.(items := SetQuantity(cart.items, id, quantity))
  {
    if quantity <= 0 then RemoveFromCart(cart, id)
    else cart.(items := SetQuantity(cart.items, id, quantity))
  }

  /** With unique ids, setting a quantity rewrites the one line of the item. */
  lemma SetQuantityOneLine(items: seq<CartItem>, id: int, quantity: int)
    requires UniqueIds(items) && FindIndex(items, id) >= 0
    ensures var i := FindIndex(items, id);
      SetQuantity(items, id, quantity) == items[i := items[i].(quantity := quantity)]
  {
    var i := FindIndex(items, id);
    var r := SetQuantity(items, id, quantity);
    forall j | 0 <= j < |r| ensures r[j] == items[i := items[i].(quantity := quantity)][j] {
      if j != i {
        assert items[j].menuItem.id != items[i].menuItem.id;
      }
    }
  }

  /** Setting a positive quantity keeps the ids unique and, for an item in the cart,
      changes the total by the difference of quantities times its price. */
  lemma UpdateQuantityTotal(cart: Cart, id: int, quantity: int)
    requires quantity > 0 && UniqueIds(cart.items) && FindIndex(cart.items, id) >= 0
    ensures var i := FindIndex(cart.items, id);
      && UniqueIds(UpdateQuantity(cart, id, quantity).items)
      && CartTotal(UpdateQuantity(cart, id, quantity)) ==
         CartTotal(cart) + (quantity - cart.items[i].quantity) * cart.items[i].menuItem.price
  {
    var i := FindIndex(cart.items, id);
    var line := cart.items[i];
    var updated := line.(quantity := quantity);
    SetQuantityOneLine(cart.items, id, quantity);
    ItemsTotalUpdate(cart.items, i, updated);
    NewQuantityKeepsIds(cart.items, i, quantity);
    NewQuantityTotal(line, quantity);
  }

  /** Changing one line's quantity leaves every id where it was. */
  lemma NewQuantityKeepsIds(items: seq<CartItem>, i: int, quantity: int)
    requires UniqueIds(items) && 0 <= i < |items|
    ensures UniqueIds(items[i := items[i].(quantity := quantity)])
  {
    var r := items[i := items[i].(quantity := quantity)];
    forall a, b | 0 <= a < b < |r| ensures r[a].menuItem.id != r[b].menuItem.id {
      assert r[a].menuItem.id == items[a].menuItem.id && r[b].menuItem.id == items[b].menuItem.id;
    }
  }

  /** A line's total moves by the change of quantity times the price. */
  lemma NewQuantityTotal(line: CartItem, quantity: int)
    ensures ItemTotal(line.(quantity := quantity)) - ItemTotal(line) == (quantity - line.quantity) * line.menuItem.price
  {
    var p := line.menuItem.price;
    assert p * quantity - p * line.quantity == p * (quantity - line.quantity);
  }

  /** `clearCart`: no lines, a dine-in order, no details. */
  function ClearCart(): (r: Cart)
    ensures |r.items| == 0 && r.orderType == PLACE
    ensures r.tableId == None && r.deliveryAddress == None && r.deliveryTime == None
  {
    Cart([], None, PLACE, None, None)
  }

  /** The order lines the checkout sends: one per cart line, in order, with the menu item
      id, the quantity and the price the client currently knows. */
  function OrderLines(items: seq<CartItem>): (lines: seq<LineItem>)
    ensures |lines| == |items|
    ensures forall i :: 0 <= i < |items| ==>
      lines[i] == LineItem(items[i].menuItem.id, items[i].quantity, items[i].menuItem.price)
  {
    seq(|items|, i requires 0 <= i < |items| =>
      LineItem(items[i].menuItem.id, items[i].quantity, items[i].menuItem.price))
  }

  /** `cartToOrderRequest`: the user, the cart's order details passed through unchanged
      and one line per cart line. */
  function CartToOrderRequest(cart: Cart, userId: int): (req: CreateOrderRequest)
    ensures req.userId == Some(userId) && req.orderType == cart.orderType
    ensures req.tableId == cart.tableId && req.deliveryAddress == cart.deliveryAddress
    ensures req.deliveryTime == cart.deliveryTime
    ensures req.menuItems == OrderLines(cart.items)
  {
    CreateOrderRequest(Some(userId), cart.tableId, cart.orderType, cart.deliveryAddress, cart.deliveryTime,
                       OrderLines(cart.items))
  }
}
