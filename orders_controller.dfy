/** Order creation and status update (`ordersController`). An order is written inside one
    store transaction together with its line items and, for a dine-in order, the
    occupation of its table: either every write happens or none does. */
module OrdersController {
  import opened Common
  import opened ApiResponse
  import opened ErrorHandler
  import Db

  /** `calculateTotal`: the left fold of price × quantity over the submitted lines, with
      the prices the client sent. */
  function CalculateTotal(lines: seq<LineItem>): (r: int) {
    if |lines| == 0 then 0
    else CalculateTotal(lines[..|lines| - 1]) + lines[|lines| - 1].price * lines[|lines| - 1].quantity
  }

  /** The total of a concatenation is the sum of the totals: the order of the lines and
      any split of them into batches do not matter. */
  lemma {:induction false} CalculateTotalAppend(a: seq<LineItem>, b: seq<LineItem>)
    ensures CalculateTotal(a + b) == CalculateTotal(a) + CalculateTotal(b)
    decreases |b|
  {
    if |b| == 0 {
      assert a + b == a;
    } else {
      var b' := b[..|b| - 1];
      assert (a + b)[..|a + b| - 1] == a + b';
      assert (a + b)[|a + b| - 1] == b[|b| - 1];
      CalculateTotalAppend(a, b');
    }
  }

  /** When every line has a non-negative price and quantity, so has the total. */
  lemma {:induction false} CalculateTotalNonNegative(lines: seq<LineItem>)
    requires forall i :: 0 <= i < |lines| ==> lines[i].price >= 0 && lines[i].quantity >= 0
    ensures CalculateTotal(lines) >= 0
  {
    if |lines| > 0 {
      CalculateTotalNonNegative(lines[..|lines| - 1]);
    }
  }

  /** The ids the request asks for, duplicates included (`menuItems.map(item => item.menuItemId)`). */
  function MenuItemIds(lines: seq<LineItem>): (ids: seq<int>)
    ensures |ids| == |lines|
    ensures forall i :: 0 <= i < |lines| ==> ids[i] == lines[i].menuItemId
  {
    seq(|lines|, i requires 0 <= i < |lines| => lines[i].menuItemId)
  }

  /** How many rows `findMany({ where: { id: { in: ids } } })` returns: each existing id
      once, however often it is listed. */
  function FoundCount(ids: seq<int>, menuItems: map<int, Db.MenuItem>): (r: nat) {
    |set id | id in ids && id in menuItems|
  }

  /** The set of values in a sequence has at most as many elements as the sequence, and
      exactly as many iff no value repeats. */
  lemma {:induction false} ElementCount(s: seq<int>)
    ensures |set x | x in s| <= |s|
    ensures |set x | x in s| == |s| <==> Distinct(s)
  {
    if |s| > 0 {
      var s' := s[..|s| - 1];
      var x := s[|s| - 1];
      ElementCount(s');
      assert s == s' + [x];
      assert (set y | y in s) == (set y | y in s') + {x};
      if x in s' {
        var k :| 0 <= k < |s'| && s'[k] == x;
        assert s[k] == s[|s| - 1];
        assert !Distinct(s);
      } else {
        assert Distinct(s) <==> Distinct(s') by {
          if Distinct(s') {
            forall i, j | 0 <= i < j < |s| ensures s[i] != s[j] {
              if j == |s| - 1 {
                assert s[i] in s';
              } else {
                assert s'[i] != s'[j];
              }
            }
          }
          if Distinct(s) {
            forall i, j | 0 <= i < j < |s'| ensures s'[i] != s'[j] {
              assert s[i] != s[j];
            }
          }
        }
      }
    }
  }

  /** The store finds as many menu items as were requested exactly when every requested
      id exists and none is requested twice. */
  lemma FoundCountFull(ids: seq<int>, menuItems: map<int, Db.MenuItem>)
    ensures FoundCount(ids, menuItems) == |ids| <==>
            (forall i :: 0 <= i < |ids| ==> ids[i] in menuItems) && Distinct(ids)
  {
    var found := set id | id in ids && id in menuItems;
    var all := set id | id in ids;
    ElementCount(ids);
    assert found <= all;
    if (forall i :: 0 <= i < |ids| ==> ids[i] in menuItems) {
      assert found == all;
    } else {
      var i :| 0 <= i < |ids| && ids[i] !in menuItems;
      assert ids[i] in all - found;
      assert |all| == |found| + |all - found|;
    }
  }

  datatype Rejection = Rejection(status: int, message: string)

  /** The validation chain run before the transaction, first failure wins: user id and
      lines present, user exists, a dine-in order names a table, that table exists, every
      requested menu item is found. */
  function Validate(users: map<int, Db.User>, tables: map<int, Db.Table>,
                    menuItems: map<int, Db.MenuItem>, req: CreateOrderRequest): Option<Rejection>
  {
    if !TruthyInt(req.userId) || |req.menuItems| == 0 then
      Some(Rejection(400, "User ID and menu items are required"))
    else if req.userId.value !in users then
      Some(Rejection(404, "User not found"))
    else if req.orderType == PLACE && !TruthyInt(req.tableId) then
      Some(Rejection(400, "Table ID is required for in-place orders"))
    else if req.orderType == PLACE && req.tableId.value !in tables then
      Some(Rejection(404, "Table not found"))
    else if FoundCount(MenuItemIds(req.menuItems), menuItems) != |req.menuItems| then
      Some(Rejection(400, "One or more menu items do not exist"))
    else
      None
  }

  /** A request is accepted exactly when all the checks pass; in particular a request
      that lists the same menu item twice is refused even though the item exists. */
  lemma ValidateAcceptsIff(users: map<int, Db.User>, tables: map<int, Db.Table>,
                           menuItems: map<int, Db.MenuItem>, req: CreateOrderRequest)
    ensures Validate(users, tables, menuItems, req) == None <==>
      && TruthyInt(req.userId) && |req.menuItems| > 0
      && req.userId.value in users
      && (req.orderType == PLACE ==> TruthyInt(req.tableId) && req.tableId.value in tables)
      && (forall i :: 0 <= i < |req.menuItems| ==> req.menuItems[i].menuItemId in menuItems)
      && Distinct(MenuItemIds(req.menuItems))
  {
    var ids := MenuItemIds(req.menuItems);
    FoundCountFull(ids, menuItems);
    assert (forall i :: 0 <= i < |ids| ==> ids[i] in menuItems) <==>
           (forall i :: 0 <= i < |req.menuItems| ==> req.menuItems[i].menuItemId in menuItems);
  }

  /** A missing user id or an empty list of lines is refused with 400 before any lookup:
      the answer does not depend on the store at all. */
  lemma MissingInputRefusedFirst(users: map<int, Db.User>, tables: map<int, Db.Table>,
                                 menuItems: map<int, Db.MenuItem>, req: CreateOrderRequest)
    requires !TruthyInt(req.userId) || |req.menuItems| == 0
    ensures Validate(users, tables, menuItems, req) == Some(Rejection(400, "User ID and menu items are required"))
  {
  }

  /** For a known user with lines, a dine-in order without a table is a 400 and one whose
      table does not exist a 404. */
  lemma DineInTableChecks(users: map<int, Db.User>, tables: map<int, Db.Table>,
                          menuItems: map<int, Db.MenuItem>, req: CreateOrderRequest)
    requires TruthyInt(req.userId) && |req.menuItems| > 0 && req.userId.value in users
    requires req.orderType == PLACE
    ensures !TruthyInt(req.tableId) ==>
      Validate(users, tables, menuItems, req) == Some(Rejection(400, "Table ID is required for in-place orders"))
    ensures TruthyInt(req.tableId) && req.tableId.value !in tables ==>
      Validate(users, tables, menuItems, req) == Some(Rejection(404, "Table not found"))
  {
  }

  /** The table's status is never consulted: a table that is already occupied, reserved
      or out of order is accepted exactly as a free one would be. */
  lemma TableStatusIgnored(users: map<int, Db.User>, tables: map<int, Db.Table>,
                           menuItems: map<int, Db.MenuItem>, req: CreateOrderRequest,
                           t: int, status: TableStatus)
    requires t in tables
    ensures Validate(users, tables[t := tables[t].(status := status)], menuItems, req) ==
            Validate(users, tables, menuItems, req)
  {
  }

  /** The order row `createOrder` inserts. */
  function NewOrder(req: CreateOrderRequest, now: int): (o: Db.Order)
    requires req.userId.Some?
    ensures o.userId == req.userId.value && o.status == "pending" && o.orderType == req.orderType
    ensures o.total == CalculateTotal(req.menuItems)
    ensures o.tableId == (if req.orderType == PLACE then req.tableId else None)
    ensures req.orderType != DELIVERY ==> o.deliveryAddress == None && o.deliveryTime == None
    ensures req.orderType == DELIVERY ==>
      o.deliveryAddress == req.deliveryAddress && o.deliveryTime == req.deliveryTime
  {
    Db.Order(req.userId.value,
             if req.orderType == PLACE then req.tableId else None,
             CalculateTotal(req.menuItems),
             "pending",
             req.orderType,
             if req.orderType == DELIVERY then req.deliveryAddress else None,
             if req.orderType == DELIVERY then req.deliveryTime else None,
             now)
  }

  /** The item rows of order `orderId` (`menuItems.map(...)`): one per line, in line
      order, copying menu item, quantity and price. */
  function ItemsFor(lines: seq<LineItem>, orderId: int): (items: seq<Db.OrderItem>)
    ensures |items| == |lines|
    ensures forall i :: 0 <= i < |lines| ==>
      items[i] == Db.OrderItem(orderId, lines[i].menuItemId, lines[i].quantity, lines[i].price)
  {
    seq(|lines|, i requires 0 <= i < |lines| =>
      Db.OrderItem(orderId, lines[i].menuItemId, lines[i].quantity, lines[i].price))
  }

  /** `new Date(undefined)` is an invalid date; the store refuses to write it, which
      aborts the transaction. Its exact error text is not part of this model. */
  const InvalidDateError: Err := Err(None, "Invalid value for argument `deliveryTime`", None, "PrismaClientValidationError")

  /** True iff writing the order row fails: a delivery order whose delivery time is not
      a valid date. */
  predicate WriteFails(req: CreateOrderRequest) {
    req.orderType == DELIVERY && req.deliveryTime.None?
  }

  /** `createOrder`. A refused request answers with its rejection and writes nothing; an
      accepted one inserts the order, one item per line and, for a dine-in order, marks
      its table Occupied, all in one transaction that either commits or leaves the store
      as it was. */
  method CreateOrder(db: Db.Store, req: CreateOrderRequest, now: int) returns (o: Outcome<(int, Db.Order)>)
    requires db.Valid()
    modifies db
    ensures db.Valid()
    ensures var rej := Validate(old(db.users), old(db.tables), old(db.menuItems), req);
      rej.Some? ==>
        && o == Sent(Reply(rej.value.status, Error(Some(rej.value.message), Some(rej.value.status), now)))
        && unchanged(db)
    ensures Validate(old(db.users), old(db.tables), old(db.menuItems), req).None? && WriteFails(req) ==>
      o == Forwarded(InvalidDateError) && unchanged(db)
    ensures Validate(old(db.users), old(db.tables), old(db.menuItems), req).None? && !WriteFails(req) ==>
      var id := old(db.nextOrderId);
      var first := old(db.nextOrderItemId);
      var order := NewOrder(req, now);
      && id !in old(db.orders)
      && o == Sent(Reply(201, Success((id, order), Some("Order created successfully"), Some(201), now)))
      && db.orders == old(db.orders)[id := order]
      && (forall k :: k in Db.Numbered(ItemsFor(req.menuItems, id), first) ==> k !in old(db.orderItems))
      && db.orderItems == old(db.orderItems) + Db.Numbered(ItemsFor(req.menuItems, id), first)
      && db.tables == (if req.orderType == PLACE
                       then old(db.tables)[req.tableId.value := old(db.tables)[req.tableId.value].(status := Occupied)]
                       else old(db.tables))
    ensures db.users == old(db.users) && db.menuItems == old(db.menuItems)
    ensures db.invoices == old(db.invoices) && db.categories == old(db.categories)
  {
    var rej := Validate(db.users, db.tables, db.menuItems, req);
    if rej.Some? {
      return Sent(Reply(rej.value.status, Error(Some(rej.value.message), Some(rej.value.status), now)));
    }
    ValidateAcceptsIff(db.users, db.tables, db.menuItems, req);
    if WriteFails(req) {
      // the transaction aborts at its first write: nothing is committed
      return Forwarded(InvalidDateError);
    }

    // the transaction: order row, item rows, table status
    var order := NewOrder(req, now);
    var id := db.InsertOrder(order);
    var items := ItemsFor(req.menuItems, id);
    var first := db.InsertOrderItems(items);
    if req.orderType == PLACE && TruthyInt(req.tableId) {
      db.SetTableStatus(req.tableId.value, Occupied);
    }
    o := Sent(Reply(201, Success((id, order), Some("Order created successfully"), Some(201), now)));
  }

  /** `updateOrderStatus`: any text is stored as the new status and no table changes; a
      body without a status (`undefined` to the store) leaves the order as it was; an
      unknown order id makes the store's update fail with its missing-row error. */
  method UpdateOrderStatus(db: Db.Store, orderId: int, status: Option<string>, now: int) returns (o: Outcome<(int, Db.Order)>)
    requires db.Valid()
    modifies db
    ensures db.Valid()
    ensures orderId !in old(db.orders) ==> o == Forwarded(RecordNotFound) && unchanged(db)
    ensures orderId in old(db.orders) ==>
      var updated := if status.Some? then old(db.orders)[orderId].(status := status.value) else old(db.orders)[orderId];
      && db.orders == old(db.orders)[orderId := updated]
      && o == Sent(Reply(200, Success((orderId, updated), Some("Order status updated successfully"), None, now)))
    ensures db.tables == old(db.tables) && db.users == old(db.users) && db.menuItems == old(db.menuItems)
    ensures db.orderItems == old(db.orderItems) && db.invoices == old(db.invoices) && db.categories == old(db.categories)
  {
    if orderId !in db.orders {
      return Forwarded(RecordNotFound);
    }
    var updated := db.orders[orderId];
    if status.Some? {
      updated := updated.(status := status.value);
      db.SetOrderStatus(orderId, status.value);
    }
    o := Sent(Reply(200, Success((orderId, updated), Some("Order status updated successfully"), None, now)));
  }
}
