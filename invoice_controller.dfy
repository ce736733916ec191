/** Invoice creation and status update (`invoiceController`). Marking the invoice of a
    dine-in order as paid releases its table in the same transaction. */
module InvoiceController {
  import opened Common
  import opened ApiResponse
  import opened ErrorHandler
  import Db

  datatype Billing = Billing(name: string, address: string, email: string, phone: string)

  /** The invoice row `createInvoice` inserts for an order whose total is `orderTotal`. */
  function NewInvoice(orderId: int, billing: Billing, orderTotal: int, now: int): (v: Db.Invoice)
    ensures v.orderId == orderId && v.totalAmount == orderTotal && v.status == "unpaid"
    ensures v.billingName == billing.name && v.billingAddress == billing.address
    ensures v.billingEmail == billing.email && v.billingPhone == billing.phone
    ensures v.createdAt == now
  {
    Db.Invoice(orderId, billing.name, billing.address, billing.email, billing.phone, orderTotal, "unpaid", now)
  }

  /** `createInvoice`: an order that already has an invoice is refused with 400 (this
      check runs first), a missing order with 404; otherwise one unpaid invoice carrying
      the order's total is inserted. */
  method CreateInvoice(db: Db.Store, orderId: int, billing: Billing, now: int) returns (o: Outcome<(int, Db.Invoice)>)
    requires db.Valid()
    modifies db
    ensures db.Valid()
    ensures Db.HasInvoice(old(db.invoices), orderId) ==>
      && o == Sent(Reply(400, Error(Some("Invoice already exists for this order"), Some(400), now)))
      && unchanged(db)
    ensures !Db.HasInvoice(old(db.invoices), orderId) && orderId !in old(db.orders) ==>
      && o == Sent(Reply(404, Error(Some("Order not found"), Some(404), now)))
      && unchanged(db)
    ensures !Db.HasInvoice(old(db.invoices), orderId) && orderId in old(db.orders) ==>
      var id := old(db.nextInvoiceId);
      var v := NewInvoice(orderId, billing, old(db.orders)[orderId].total, now);
      && id !in old(db.invoices)
      && db.invoices == old(db.invoices)[id := v]
      && o == Sent(Reply(201, Success((id, v), Some("Invoice created successfully"), Some(201), now)))
    ensures db.users == old(db.users) && db.tables == old(db.tables) && db.menuItems == old(db.menuItems)
    ensures db.orders == old(db.orders) && db.orderItems == old(db.orderItems) && db.categories == old(db.categories)
  {
    if exists k :: k in db.invoices && db.invoices[k].orderId == orderId {
      return Sent(Reply(400, Error(Some("Invoice already exists for this order"), Some(400), now)));
    }
    if orderId !in db.orders {
      return Sent(Reply(404, Error(Some("Order not found"), Some(404), now)));
    }
    var v := NewInvoice(orderId, billing, db.orders[orderId].total, now);
    var id := db.InsertInvoice(v);
    o := Sent(Reply(201, Success((id, v), Some("Invoice created successfully"), Some(201), now)));
  }

  /** True iff a status update of an invoice of `order` frees the order's table: the
      request's status (`None` when the body has none) is exactly "paid", the order is a
      dine-in order and it has a (truthy) table. */
  predicate ReleasesTable(status: Option<string>, order: Db.Order) {
    status == Some("paid") && order.orderType == PLACE && TruthyInt(order.tableId)
  }

  /** Only payment frees a table: cancelling an invoice, a request without a status, or
      paying for a takeaway or delivery order, leaves every table as it was. */
  lemma OnlyPaymentReleases(status: Option<string>, order: Db.Order)
    ensures ReleasesTable(status, order) ==> status == Some("paid") && order.tableId.Some?
    ensures status == Some("cancelled") || status.None? || order.orderType != PLACE ==> !ReleasesTable(status, order)
  {
  }

  /** `updateInvoiceStatus`: a missing invoice is a 404 and changes nothing; otherwise the
      invoice takes exactly the requested status (a body without one, `undefined` to the
      store, leaves it as it was) and, when that releases the table of its order, the
      table becomes Free, both in one transaction. */
  method UpdateInvoiceStatus(db: Db.Store, id: int, status: Option<string>, now: int) returns (o: Outcome<(int, Db.Invoice)>)
    requires db.Valid()
    modifies db
    ensures db.Valid()
    ensures id !in old(db.invoices) ==>
      o == Sent(Reply(404, Error(Some("Invoice not found"), Some(404), now))) && unchanged(db)
    ensures id in old(db.invoices) ==>
      var updated := if status.Some? then old(db.invoices)[id].(status := status.value) else old(db.invoices)[id];
      var order := old(db.orders)[old(db.invoices)[id].orderId];
      && db.invoices == old(db.invoices)[id := updated]
      && db.tables == (if ReleasesTable(status, order)
                       then old(db.tables)[order.tableId.value := old(db.tables)[order.tableId.value].(status := Free)]
                       else old(db.tables))
      && o == Sent(Reply(200, Success((id, updated), Some("Invoice status updated successfully"), None, now)))
    ensures db.users == old(db.users) && db.menuItems == old(db.menuItems)
    ensures db.orders == old(db.orders) && db.orderItems == old(db.orderItems) && db.categories == old(db.categories)
  {
    if id !in db.invoices {
      return Sent(Reply(404, Error(Some("Invoice not found"), Some(404), now)));
    }
    var order := db.orders[db.invoices[id].orderId];
    // the transaction: invoice status, then the table release
    if status.Some? {
      db.SetInvoiceStatus(id, status.value);
    }
    if ReleasesTable(status, order) {
      db.SetTableStatus(order.tableId.value, Free);
    }
    o := Sent(Reply(200, Success((id, db.invoices[id]), Some("Invoice status updated successfully"), None, now)));
  }
}
