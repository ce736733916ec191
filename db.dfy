/** The relational store behind the server, as maps from row id to record. Ids are the
    store's auto-increment keys: they start at 1 and each table has its own counter. */
module Db {
  import opened Common

  datatype User = User(name: string, email: string, passwordHash: string, role: Role, createdAt: int)
  datatype Category = Category(name: string, description: Option<string>)
  datatype Table = Table(number: int, seats: int, status: TableStatus)
  /** `price` in cents. */
  datatype MenuItem = MenuItem(name: string, description: string, price: int,
                               categoryId: Option<int>, available: bool, createdAt: int)
  /** `status` is free text ("pending", "completed", ...); `total` is in cents. */
  datatype Order = Order(userId: int, tableId: Option<int>, total: int, status: string,
                         orderType: OrderType, deliveryAddress: Option<string>,
                         deliveryTime: Option<int>, createdAt: int)
  datatype OrderItem = OrderItem(orderId: int, menuItemId: int, quantity: int, price: int)
  /** `status` is "unpaid", "paid" or "cancelled" in practice, but any text is stored. */
  datatype Invoice = Invoice(orderId: int, billingName: string, billingAddress: string,
                             billingEmail: string, billingPhone: string, totalAmount: int,
                             status: string, createdAt: int)

  /** True iff some user row has this e-mail address. */
  predicate EmailTaken(users: map<int, User>, email: string) {
    exists id :: id in users && users[id].email == email
  }

  /** True iff some invoice row belongs to this order. */
  predicate HasInvoice(invoices: map<int, Invoice>, orderId: int) {
    exists id :: id in invoices && invoices[id].orderId == orderId
  }

  /** Auto-increment keys: every id is positive and below the next one to be handed out. */
  ghost predicate IdsBelow<T>(m: map<int, T>, next: int) {
    1 <= next && forall id :: id in m ==> 1 <= id < next
  }

  ghost predicate UniqueEmails(users: map<int, User>) {
    forall a, b :: a in users && b in users && users[a].email == users[b].email ==> a == b
  }

  /** Table numbers are taken to be a unique key of the schema; no controller checks it. */
  ghost predicate UniqueTableNumbers(tables: map<int, Table>) {
    forall a, b :: a in tables && b in tables && tables[a].number == tables[b].number ==> a == b
  }

  ghost predicate OneInvoicePerOrder(invoices: map<int, Invoice>) {
    forall a, b :: a in invoices && b in invoices && invoices[a].orderId == invoices[b].orderId ==> a == b
  }

  ghost predicate InvoicesReferenceOrders(invoices: map<int, Invoice>, orders: map<int, Order>) {
    forall id :: id in invoices ==> invoices[id].orderId in orders
  }

  ghost predicate OrdersReference(orders: map<int, Order>, users: map<int, User>, tables: map<int, Table>) {
    forall id :: id in orders ==>
      orders[id].userId in users && (orders[id].tableId.Some? ==> orders[id].tableId.value in tables)
  }

  ghost predicate MenuItemsReference(menuItems: map<int, MenuItem>, categories: map<int, Category>) {
    forall id :: id in menuItems && menuItems[id].categoryId.Some? ==> menuItems[id].categoryId.value in categories
  }

  ghost predicate ItemsReference(items: map<int, OrderItem>, orders: map<int, Order>, menuItems: map<int, MenuItem>) {
    forall id :: id in items ==> items[id].orderId in orders && items[id].menuItemId in menuItems
  }

  /** Rows inserted in one batch, numbered consecutively from `first`. */
  function Numbered<T>(rows: seq<T>, first: int): (m: map<int, T>)
    ensures forall k :: k in m <==> first <= k < first + |rows|
    ensures forall k :: k in m ==> m[k] == rows[k - first]
  {
    if |rows| == 0 then map[]
    else Numbered(rows[..|rows| - 1], first)[first + |rows| - 1 := rows[|rows| - 1]]
  }

  /** Appending a numbered batch past every existing id keeps the ids below the new
      counter and the foreign keys of the item rows. */
  lemma NumberedMerge(existing: map<int, OrderItem>, rows: seq<OrderItem>, first: int,
                      orders: map<int, Order>, menuItems: map<int, MenuItem>)
    requires IdsBelow(existing, first) && ItemsReference(existing, orders, menuItems)
    requires forall i :: 0 <= i < |rows| ==> rows[i].orderId in orders && rows[i].menuItemId in menuItems
    ensures forall k :: k in Numbered(rows, first) ==> k !in existing
    ensures IdsBelow(existing + Numbered(rows, first), first + |rows|)
    ensures ItemsReference(existing + Numbered(rows, first), orders, menuItems)
  {
    var batch := Numbered(rows, first);
    var merged := existing + batch;
    forall k | k in merged
      ensures 1 <= k < first + |rows| && merged[k].orderId in orders && merged[k].menuItemId in menuItems
    {
      if k in batch {
        assert merged[k] == rows[k - first];
      }
    }
  }

  class Store {
    var users: map<int, User>
    var categories: map<int, Category>
    var tables: map<int, Table>
    var menuItems: map<int, MenuItem>
    var orders: map<int, Order>
    var orderItems: map<int, OrderItem>
    var invoices: map<int, Invoice>
    var nextUserId: int
    var nextTableId: int
    var nextMenuItemId: int
    var nextOrderId: int
    var nextOrderItemId: int
    var nextInvoiceId: int

    /** The store's keys and constraints: positive auto-increment ids below their
        counters, unique e-mail addresses and table numbers, at most one invoice per
        order, and the foreign keys of menu items, orders, order items and invoices. */
    ghost predicate Valid()
      reads this
    {
      && IdsBelow(users, nextUserId) && IdsBelow(tables, nextTableId)
      && IdsBelow(menuItems, nextMenuItemId) && IdsBelow(orders, nextOrderId)
      && IdsBelow(orderItems, nextOrderItemId) && IdsBelow(invoices, nextInvoiceId)
      && UniqueEmails(users) && UniqueTableNumbers(tables) && OneInvoicePerOrder(invoices)
      && InvoicesReferenceOrders(invoices, orders)
      && MenuItemsReference(menuItems, categories)
      && OrdersReference(orders, users, tables)
      && ItemsReference(orderItems, orders, menuItems)
    }

    /** An empty store (the seed script is not part of this model). */
    constructor ()
      ensures Valid()
      ensures users == map[] && categories == map[] && tables == map[] && menuItems == map[]
      ensures orders == map[] && orderItems == map[] && invoices == map[]
    {
      users, categories, tables, menuItems := map[], map[], map[], map[];
      orders, orderItems, invoices := map[], map[], map[];
      nextUserId, nextTableId, nextMenuItemId, nextOrderId, nextOrderItemId, nextInvoiceId := 1, 1, 1, 1, 1, 1;
    }

    /** The store's insert of a table row (`createTable`). The table number is taken to be
        a unique key of the schema (the controller itself does not check it), so a number
        already in use is refused (the store's P2002 error) and nothing changes. A status
        left out defaults to Free. */
    method InsertTable(number: int, seats: int, status: Option<TableStatus>) returns (id: Option<int>)
      requires Valid()
      modifies this
      ensures Valid()
      ensures id.None? <==> exists t :: t in old(tables) && old(tables)[t].number == number
      ensures id.None? ==> tables == old(tables)
      ensures id.Some? ==> id.value !in old(tables) &&
                           tables == old(tables)[id.value := Table(number, seats, status.GetOr(Free))]
      ensures users == old(users) && categories == old(categories) && menuItems == old(menuItems)
      ensures orders == old(orders) && orderItems == old(orderItems) && invoices == old(invoices)
    {
      if exists t :: t in tables && tables[t].number == number {
        return None;
      }
      id := Some(nextTableId);
      tables := tables[nextTableId := Table(number, seats, status.GetOr(Free))];
      nextTableId := nextTableId + 1;
    }

    /** Insert a user row; the e-mail address must be free (a unique key). */
    method InsertUser(u: User) returns (id: int)
      requires Valid() && !EmailTaken(users, u.email)
      modifies this
      ensures Valid()
      ensures id == old(nextUserId) && id !in old(users) && users == old(users)[id := u]
      ensures tables == old(tables) && menuItems == old(menuItems) && categories == old(categories)
      ensures orders == old(orders) && orderItems == old(orderItems) && invoices == old(invoices)
    {
      id := nextUserId;
      users := users[id := u];
      nextUserId := id + 1;
    }

    /** Insert a menu item row; its category, when it names one, must exist (foreign key). */
    method InsertMenuItem(m: MenuItem) returns (id: int)
      requires Valid()
      requires m.categoryId.Some? ==> m.categoryId.value in categories
      modifies this
      ensures Valid()
      ensures id == old(nextMenuItemId) && id !in old(menuItems) && menuItems == old(menuItems)[id := m]
      ensures users == old(users) && tables == old(tables) && categories == old(categories)
      ensures orders == old(orders) && orderItems == old(orderItems) && invoices == old(invoices)
    {
      id := nextMenuItemId;
      menuItems := menuItems[id := m];
      nextMenuItemId := id + 1;
    }

    /** Insert an order row; its user and table must exist (foreign keys). */
    method InsertOrder(o: Order) returns (id: int)
      requires Valid()
      requires o.userId in users && (o.tableId.Some? ==> o.tableId.value in tables)
      modifies this
      ensures Valid()
      ensures id == old(nextOrderId) && id !in old(orders) && orders == old(orders)[id := o]
      ensures nextOrderItemId == old(nextOrderItemId)
      ensures users == old(users) && tables == old(tables) && menuItems == old(menuItems)
      ensures categories == old(categories) && orderItems == old(orderItems) && invoices == old(invoices)
    {
      id := nextOrderId;
      orders := orders[id := o];
      nextOrderId := id + 1;
    }

    /** Insert a batch of order item rows (`createMany`), numbered from the item counter;
        each row's order and menu item must exist (foreign keys). */
    method InsertOrderItems(rows: seq<OrderItem>) returns (first: int)
      requires Valid()
      requires forall i :: 0 <= i < |rows| ==> rows[i].orderId in orders && rows[i].menuItemId in menuItems
      modifies this
      ensures Valid()
      ensures first == old(nextOrderItemId)
      ensures forall k :: k in Numbered(rows, first) ==> k !in old(orderItems)
      ensures orderItems == old(orderItems) + Numbered(rows, first)
      ensures users == old(users) && tables == old(tables) && menuItems == old(menuItems)
      ensures categories == old(categories) && orders == old(orders) && invoices == old(invoices)
    {
      first := nextOrderItemId;
      NumberedMerge(orderItems, rows, first, orders, menuItems);
      orderItems := orderItems + Numbered(rows, first);
      nextOrderItemId := first + |rows|;
    }

    /** Insert an invoice row; its order must exist and have no invoice yet (unique key). */
    method InsertInvoice(v: Invoice) returns (id: int)
      requires Valid() && v.orderId in orders && !HasInvoice(invoices, v.orderId)
      modifies this
      ensures Valid()
      ensures id == old(nextInvoiceId) && id !in old(invoices) && invoices == old(invoices)[id := v]
      ensures users == old(users) && tables == old(tables) && menuItems == old(menuItems)
      ensures categories == old(categories) && orders == old(orders) && orderItems == old(orderItems)
    {
      id := nextInvoiceId;
      invoices := invoices[id := v];
      nextInvoiceId := id + 1;
    }

    /** Overwrite the status of an existing table row. */
    method SetTableStatus(id: int, status: TableStatus)
      requires Valid() && id in tables
      modifies this
      ensures Valid()
      ensures tables == old(tables)[id := old(tables)[id].(status := status)]
      ensures users == old(users) && menuItems == old(menuItems) && categories == old(categories)
      ensures orders == old(orders) && orderItems == old(orderItems) && invoices == old(invoices)
    {
      tables := tables[id := tables[id].(status := status)];
    }

    /** Overwrite the status of an existing order row. */
    method SetOrderStatus(id: int, status: string)
      requires Valid() && id in orders
      modifies this
      ensures Valid()
      ensures orders == old(orders)[id := old(orders)[id].(status := status)]
      ensures users == old(users) && tables == old(tables) && menuItems == old(menuItems)
      ensures categories == old(categories) && orderItems == old(orderItems) && invoices == old(invoices)
    {
      orders := orders[id := orders[id].(status := status)];
    }

    /** Overwrite the status of an existing invoice row. */
    method SetInvoiceStatus(id: int, status: string)
      requires Valid() && id in invoices
      modifies this
      ensures Valid()
      ensures invoices == old(invoices)[id := old(invoices)[id].(status := status)]
      ensures users == old(users) && tables == old(tables) && menuItems == old(menuItems)
      ensures categories == old(categories) && orders == old(orders) && orderItems == old(orderItems)
    {
      invoices := invoices[id := invoices[id].(status := status)];
    }
  }
}
