/** Read-side sales reports (`salesController`): the sum of invoice amounts over an
    inclusive date range, the completed-order revenue of each table, and the invoice
    amounts grouped by creation instant. The query results are sequences of rows; dates
    are milliseconds since the epoch. */
module SalesController {
  import opened Common
  import opened ApiResponse
  import Db

  const MsPerDay: int := 86400000

  /** The calendar day (in UTC, counted from the epoch) of an instant: the date part of
      its ISO string. */
  function DayOf(ts: int): (d: int)
    ensures d * MsPerDay <= ts < d * MsPerDay + MsPerDay
  {
    ts / MsPerDay
  }

  /** The store's `createdAt: { gte: start, lte: end }` filter: both bounds included. */
  predicate InRange(ts: int, start: int, end: int) {
    start <= ts <= end
  }

  /** `getTotalSales`: the sum of `totalAmount` over the invoices created in the range,
      whatever their status; 0 when none matches. */
  function TotalSales(invoices: seq<Db.Invoice>, start: int, end: int): (total: int)
    ensures (forall i :: 0 <= i < |invoices| ==> !InRange(invoices[i].createdAt, start, end)) ==> total == 0
    ensures (forall i :: 0 <= i < |invoices| ==> invoices[i].totalAmount >= 0) ==> total >= 0
  {
    if |invoices| == 0 then 0
    else
      var last := invoices[|invoices| - 1];
      TotalSales(invoices[..|invoices| - 1], start, end)
        + (if InRange(last.createdAt, start, end) then last.totalAmount else 0)
  }

  /** An amount attributed to a grouping key: an invoice under its creation instant, a
      completed order under its table. */
  datatype Row = Row(key: int, amount: int)

  function SumAll(rows: seq<Row>): (r: int) {
    if |rows| == 0 then 0 else SumAll(rows[..|rows| - 1]) + rows[|rows| - 1].amount
  }

  /** The sum of the amounts of the rows under one key (`_sum` of one group). */
  function SumKey(rows: seq<Row>, k: int): (r: int) {
    if |rows| == 0 then 0
    else SumKey(rows[..|rows| - 1], k) + (if rows[|rows| - 1].key == k then rows[|rows| - 1].amount else 0)
  }

  /** The sum of the amounts of the rows whose key is one of `keys`. */
  function SumIn(rows: seq<Row>, keys: seq<int>): (r: int) {
    if |rows| == 0 then 0
    else SumIn(rows[..|rows| - 1], keys) + (if rows[|rows| - 1].key in keys then rows[|rows| - 1].amount else 0)
  }

  /** The per-key sums added up over a list of keys. */
  function SumKeys(rows: seq<Row>, keys: seq<int>): (r: int) {
    if |keys| == 0 then 0 else SumKeys(rows, keys[..|keys| - 1]) + SumKey(rows, keys[|keys| - 1])
  }

  /** Adding one new key to the selection adds exactly that key's group. */
  lemma {:induction false} SumInExtend(rows: seq<Row>, keys: seq<int>, k: int)
    requires k !in keys
    ensures SumIn(rows, keys + [k]) == SumIn(rows, keys) + SumKey(rows, k)
  {
    if |rows| > 0 {
      SumInExtend(rows[..|rows| - 1], keys, k);
    }
  }

  /** Grouping loses nothing and counts nothing twice: over distinct keys, the sum of the
      group sums is the sum of the rows whose key is among them. */
  lemma {:induction false} GroupedSum(rows: seq<Row>, keys: seq<int>)
    requires Distinct(keys)
    ensures SumKeys(rows, keys) == SumIn(rows, keys)
  {
    if |keys| == 0 {
      SumInNone(rows, keys);
    } else {
      var prefix := keys[..|keys| - 1];
      var k := keys[|keys| - 1];
      assert keys == prefix + [k];
      assert Distinct(prefix) by {
        forall i, j | 0 <= i < j < |prefix| ensures prefix[i] != prefix[j] {
          assert keys[i] != keys[j];
        }
      }
      assert k !in prefix by {
        forall i | 0 <= i < |prefix| ensures prefix[i] != k {
          assert keys[i] != keys[|keys| - 1];
        }
      }
      GroupedSum(rows, prefix);
      SumInExtend(rows, prefix, k);
    }
  }

  /** Selecting no key selects nothing. */
  lemma {:induction false} SumInNone(rows: seq<Row>, keys: seq<int>)
    requires |keys| == 0
    ensures SumIn(rows, keys) == 0
  {
    if |rows| > 0 {
      SumInNone(rows[..|rows| - 1], keys);
    }
  }

  /** When every row's key is selected, the selection is the whole sum. */
  lemma {:induction false} SumInCoversAll(rows: seq<Row>, keys: seq<int>)
    requires forall i :: 0 <= i < |rows| ==> rows[i].key in keys
    ensures SumIn(rows, keys) == SumAll(rows)
  {
    if |rows| > 0 {
      SumInCoversAll(rows[..|rows| - 1], keys);
    }
  }

  // ---------------------------------------------------------------- sales by day

  /** The invoices of the range as rows keyed by their creation instant: every row comes
      from an invoice of the range, and every invoice of the range has its row. */
  function InvoiceRows(invoices: seq<Db.Invoice>, start: int, end: int): (rows: seq<Row>)
    ensures forall x :: x in invoices && InRange(x.createdAt, start, end) ==> Row(x.createdAt, x.totalAmount) in rows
    ensures forall r :: r in rows ==> InRange(r.key, start, end) && exists x :: x in invoices && x.createdAt == r.key
  {
    if |invoices| == 0 then []
    else
      var last := invoices[|invoices| - 1];
      assert invoices == invoices[..|invoices| - 1] + [last];
      InvoiceRows(invoices[..|invoices| - 1], start, end)
        + (if InRange(last.createdAt, start, end) then [Row(last.createdAt, last.totalAmount)] else [])
  }

  /** The rows of the range carry exactly the range's total. */
  lemma {:induction false} InvoiceRowsTotal(invoices: seq<Db.Invoice>, start: int, end: int)
    ensures SumAll(InvoiceRows(invoices, start, end)) == TotalSales(invoices, start, end)
  {
    if |invoices| > 0 {
      var last := invoices[|invoices| - 1];
      var prefix := InvoiceRows(invoices[..|invoices| - 1], start, end);
      InvoiceRowsTotal(invoices[..|invoices| - 1], start, end);
      if InRange(last.createdAt, start, end) {
        var rows := prefix + [Row(last.createdAt, last.totalAmount)];
        assert rows[..|rows| - 1] == prefix;
      } else {
        assert prefix + [] == prefix;
      }
    }
  }

  /** True iff `s` is in strictly ascending order (so also free of repeats). */
  predicate StrictlyAscending(s: seq<int>) {
    forall i, j :: 0 <= i < j < |s| ==> s[i] < s[j]
  }

  /** Place `k` into an ascending list of keys unless it is already there. */
  function InsertKey(keys: seq<int>, k: int): (r: seq<int>)
    requires StrictlyAscending(keys)
    ensures StrictlyAscending(r)
    ensures forall x :: x in r <==> x in keys || x == k
  {
    if |keys| == 0 then [k]
    else if k < keys[0] then
      FirstBelowRest(k, keys);
      [k] + keys
    else if k == keys[0] then keys
    else
      var rest := InsertKey(keys[1..], k);
      assert forall x :: x in rest ==> keys[0] < x by {
        forall x | x in rest ensures keys[0] < x {
          if x != k {
            var j :| 0 <= j < |keys[1..]| && keys[1..][j] == x;
            assert keys[j + 1] == x;
          }
        }
      }
      FirstBelowRest(keys[0], rest);
      [keys[0]] + rest
  }

  /** A value below every element of an ascending list can go in front of it. */
  lemma FirstBelowRest(h: int, rest: seq<int>)
    requires StrictlyAscending(rest)
    requires forall x :: x in rest ==> h < x
    ensures StrictlyAscending([h] + rest)
  {
    var r := [h] + rest;
    forall i, j | 0 <= i < j < |r| ensures r[i] < r[j] {
      assert r[j] == rest[j - 1];
      if i == 0 {
        assert rest[j - 1] in rest;
      } else {
        assert r[i] == rest[i - 1];
      }
    }
  }

  /** The groups of `groupBy({ by: ['createdAt'], orderBy: { createdAt: 'asc' } })`: each
      key present among the rows once, in ascending order. */
  function GroupKeys(rows: seq<Row>): (keys: seq<int>)
    ensures StrictlyAscending(keys)
    ensures forall k :: k in keys ==> exists r :: r in rows && r.key == k
    ensures forall r :: r in rows ==> r.key in keys
  {
    if |rows| == 0 then []
    else
      assert rows == rows[..|rows| - 1] + [rows[|rows| - 1]];
      InsertKey(GroupKeys(rows[..|rows| - 1]), rows[|rows| - 1].key)
  }

  /** One entry of `getSalesByDay`: the date part of the group's instant and its sum. */
  datatype DaySales = DaySales(date: int, totalSales: int)

  /** One entry per group key, in the order of the keys. */
  function DayEntries(rows: seq<Row>, keys: seq<int>): (r: seq<DaySales>)
    ensures |r| == |keys|
    ensures forall i :: 0 <= i < |keys| ==> r[i] == DaySales(DayOf(keys[i]), SumKey(rows, keys[i]))
  {
    if |keys| == 0 then []
    else DayEntries(rows, keys[..|keys| - 1]) + [DaySales(DayOf(keys[|keys| - 1]), SumKey(rows, keys[|keys| - 1]))]
  }

  /** `getSalesByDay`: the invoices of the range grouped by their exact creation instant,
      ascending, each group reported with the date part of its instant. */
  function SalesByDay(invoices: seq<Db.Invoice>, start: int, end: int): (r: seq<DaySales>)
  {
    var rows := InvoiceRows(invoices, start, end);
    DayEntries(rows, GroupKeys(rows))
  }

  function SumDays(entries: seq<DaySales>): (r: int) {
    if |entries| == 0 then 0 else SumDays(entries[..|entries| - 1]) + entries[|entries| - 1].totalSales
  }

  lemma {:induction false} SumDayEntries(rows: seq<Row>, keys: seq<int>)
    ensures SumDays(DayEntries(rows, keys)) == SumKeys(rows, keys)
  {
    if |keys| > 0 {
      var e := DayEntries(rows, keys);
      assert e[..|e| - 1] == DayEntries(rows, keys[..|keys| - 1]);
      SumDayEntries(rows, keys[..|keys| - 1]);
    }
  }

  /** The groups of `getSalesByDay` are in strictly ascending order of instant, and there
      is one for each instant at which some invoice of the range was created, and no other. */
  lemma SalesByDayGroups(invoices: seq<Db.Invoice>, start: int, end: int)
    ensures var keys := GroupKeys(InvoiceRows(invoices, start, end));
      && StrictlyAscending(keys)
      && |SalesByDay(invoices, start, end)| == |keys|
      && (forall k :: k in keys ==> InRange(k, start, end) && exists x :: x in invoices && x.createdAt == k)
      && (forall x :: x in invoices && InRange(x.createdAt, start, end) ==> x.createdAt in keys)
  {
  }

  /** For the same range the daily amounts add up to the total: every invoice of the range
      falls in exactly one group. */
  lemma DailyTotalsSumToTotal(invoices: seq<Db.Invoice>, start: int, end: int)
    ensures SumDays(SalesByDay(invoices, start, end)) == TotalSales(invoices, start, end)
  {
    var rows := InvoiceRows(invoices, start, end);
    SumDayEntries(rows, GroupKeys(rows));
    GroupKeysTotal(rows);
    InvoiceRowsTotal(invoices, start, end);
  }

  /** The groups together hold every row exactly once. */
  lemma GroupKeysTotal(rows: seq<Row>)
    ensures SumKeys(rows, GroupKeys(rows)) == SumAll(rows)
  {
    var keys := GroupKeys(rows);
    assert Distinct(keys);
    GroupedSum(rows, keys);
    forall i | 0 <= i < |rows| ensures rows[i].key in keys {
      assert rows[i] in rows;
    }
    SumInCoversAll(rows, keys);
  }

  /** Two invoices created at different instants of the same day give two entries with the
      same date: grouping is by instant, not by day. */
  lemma SameDayTwice()
    ensures var morning := Db.Invoice(1, "A", "a", "a@x", "1", 1000, "paid", 36000000);
            var evening := Db.Invoice(2, "B", "b", "b@x", "2", 2500, "unpaid", 72000000);
            SalesByDay([morning, evening], 0, MsPerDay - 1) == [DaySales(0, 1000), DaySales(0, 2500)]
  {
    var morning := Db.Invoice(1, "A", "a", "a@x", "1", 1000, "paid", 36000000);
    var evening := Db.Invoice(2, "B", "b", "b@x", "2", 2500, "unpaid", 72000000);
    var rows := [Row(36000000, 1000), Row(72000000, 2500)];
    SameDayRows(morning, evening);
    SameDayKeys(rows);
    SameDaySums(rows);
    var keys := [36000000, 72000000];
    var e := DayEntries(rows, keys);
    assert e[0] == DaySales(0, 1000) && e[1] == DaySales(0, 2500);
  }

  lemma SameDayRows(morning: Db.Invoice, evening: Db.Invoice)
    requires morning == Db.Invoice(1, "A", "a", "a@x", "1", 1000, "paid", 36000000)
    requires evening == Db.Invoice(2, "B", "b", "b@x", "2", 2500, "unpaid", 72000000)
    ensures InvoiceRows([morning, evening], 0, MsPerDay - 1) == [Row(36000000, 1000), Row(72000000, 2500)]
  {
    var invoices := [morning, evening];
    assert invoices[..1] == [morning];
    assert [morning][..0] == [];
    assert InvoiceRows([morning], 0, MsPerDay - 1) == [] + [Row(36000000, 1000)];
  }

  lemma SameDayKeys(rows: seq<Row>)
    requires rows == [Row(36000000, 1000), Row(72000000, 2500)]
    ensures GroupKeys(rows) == [36000000, 72000000]
  {
    var r1 := rows[0];
    assert rows[..1] == [r1] && [r1][..0] == [];
    assert GroupKeys([r1]) == [36000000];
    assert [36000000][1..] == [];
    assert InsertKey([36000000], 72000000) == [36000000] + [72000000];
  }

  lemma SameDaySums(rows: seq<Row>)
    requires rows == [Row(36000000, 1000), Row(72000000, 2500)]
    ensures SumKey(rows, 36000000) == 1000 && SumKey(rows, 72000000) == 2500
  {
    var r1 := rows[0];
    assert rows[..1] == [r1] && [r1][..0] == [];
    assert SumKey([], 36000000) == 0 && SumKey([], 72000000) == 0;
    assert SumKey([r1], 36000000) == 1000 && SumKey([r1], 72000000) == 0;
  }

  // ------------------------------------------------------------- total sales laws

  /** Splitting the range at any instant splits the total: the bounds are inclusive and
      no instant is counted in both halves. */
  lemma {:induction false} TotalSalesSplit(invoices: seq<Db.Invoice>, start: int, mid: int, end: int)
    requires start <= mid < end
    ensures TotalSales(invoices, start, end) == TotalSales(invoices, start, mid) + TotalSales(invoices, mid + 1, end)
  {
    if |invoices| > 0 {
      TotalSalesSplit(invoices[..|invoices| - 1], start, mid, end);
    }
  }

  /** The status of an invoice plays no part: re-labelling any invoice (paid, unpaid,
      cancelled) leaves the total as it was. */
  lemma {:induction false} TotalSalesIgnoresStatus(invoices: seq<Db.Invoice>, relabelled: seq<Db.Invoice>, start: int, end: int)
    requires |relabelled| == |invoices|
    requires forall i :: 0 <= i < |invoices| ==>
      relabelled[i].createdAt == invoices[i].createdAt && relabelled[i].totalAmount == invoices[i].totalAmount
    ensures TotalSales(relabelled, start, end) == TotalSales(invoices, start, end)
  {
    if |invoices| > 0 {
      TotalSalesIgnoresStatus(invoices[..|invoices| - 1], relabelled[..|relabelled| - 1], start, end);
    }
  }

  // ---------------------------------------------------------------- sales by table

  /** The completed orders that belong to a table, as rows keyed by table id. */
  function CompletedRows(orders: seq<Db.Order>): (rows: seq<Row>)
    ensures |rows| <= |orders|
  {
    if |orders| == 0 then []
    else
      var o := orders[|orders| - 1];
      CompletedRows(orders[..|orders| - 1])
        + (if o.status == "completed" && o.tableId.Some? then [Row(o.tableId.value, o.total)] else [])
  }

  /** The revenue `getSalesByTable` reports for one table: the sum of `total` over that
      table's orders whose status is exactly "completed". */
  function TableTotal(orders: seq<Db.Order>, tableId: int): (total: int)
    ensures (forall i :: 0 <= i < |orders| ==> orders[i].tableId == Some(tableId) ==> orders[i].status != "completed") ==>
            total == 0
  {
    if |orders| == 0 then 0
    else
      var o := orders[|orders| - 1];
      TableTotal(orders[..|orders| - 1], tableId)
        + (if o.tableId == Some(tableId) && o.status == "completed" then o.total else 0)
  }

  lemma {:induction false} TableTotalIsGroup(orders: seq<Db.Order>, tableId: int)
    ensures TableTotal(orders, tableId) == SumKey(CompletedRows(orders), tableId)
  {
    if |orders| > 0 {
      var o := orders[|orders| - 1];
      var prefix := CompletedRows(orders[..|orders| - 1]);
      TableTotalIsGroup(orders[..|orders| - 1], tableId);
      if o.status == "completed" && o.tableId.Some? {
        var rows := prefix + [Row(o.tableId.value, o.total)];
        assert rows[..|rows| - 1] == prefix;
      } else {
        assert prefix + [] == prefix;
      }
    }
  }

  /** One entry of `getSalesByTable`. */
  datatype TableSales = TableSales(tableNumber: int, totalSales: int)

  /** `getSalesByTable`: one entry per table, in the order the tables are listed, carrying
      the table's number and the revenue of its completed orders. */
  function SalesByTable(tables: seq<(int, Db.Table)>, orders: seq<Db.Order>): (r: seq<TableSales>)
    ensures |r| == |tables|
    ensures forall i :: 0 <= i < |tables| ==> r[i].tableNumber == tables[i].1.number
  {
    seq(|tables|, i requires 0 <= i < |tables| => TableSales(tables[i].1.number, TableTotal(orders, tables[i].0)))
  }

  function TableIds(tables: seq<(int, Db.Table)>): (ids: seq<int>)
    ensures |ids| == |tables| && forall i :: 0 <= i < |tables| ==> ids[i] == tables[i].0
  {
    seq(|tables|, i requires 0 <= i < |tables| => tables[i].0)
  }

  function SumTables(entries: seq<TableSales>): (r: int) {
    if |entries| == 0 then 0 else SumTables(entries[..|entries| - 1]) + entries[|entries| - 1].totalSales
  }

  /** Each table reports the completed-order revenue of that table and nothing else; a
      table with no completed order reports 0. */
  lemma SalesByTableEntry(tables: seq<(int, Db.Table)>, orders: seq<Db.Order>, i: int)
    requires 0 <= i < |tables|
    ensures SalesByTable(tables, orders)[i].totalSales == SumKey(CompletedRows(orders), tables[i].0)
    ensures (forall j :: 0 <= j < |orders| ==> orders[j].tableId == Some(tables[i].0) ==> orders[j].status != "completed") ==>
            SalesByTable(tables, orders)[i].totalSales == 0
  {
    TableTotalIsGroup(orders, tables[i].0);
  }

  lemma {:induction false} SumTablesIsSumKeys(tables: seq<(int, Db.Table)>, orders: seq<Db.Order>)
    ensures SumTables(SalesByTable(tables, orders)) == SumKeys(CompletedRows(orders), TableIds(tables))
  {
    if |tables| > 0 {
      var prefix := tables[..|tables| - 1];
      var e := SalesByTable(tables, orders);
      assert e[..|e| - 1] == SalesByTable(prefix, orders);
      assert TableIds(tables)[..|tables| - 1] == TableIds(prefix);
      SumTablesIsSumKeys(prefix, orders);
      TableTotalIsGroup(orders, tables[|tables| - 1].0);
    }
  }

  /** The table report distributes the completed revenue without double counting: with
      distinct table ids, its entries add up to the revenue of the completed orders placed
      at one of the listed tables. */
  lemma SalesByTableSumsCompleted(tables: seq<(int, Db.Table)>, orders: seq<Db.Order>)
    requires Distinct(TableIds(tables))
    ensures SumTables(SalesByTable(tables, orders)) == SumIn(CompletedRows(orders), TableIds(tables))
  {
    SumTablesIsSumKeys(tables, orders);
    GroupedSum(CompletedRows(orders), TableIds(tables));
  }

  // ---------------------------------------------------------------- the replies

  /** The reply of `getTotalSales`. */
  function GetTotalSales(invoices: seq<Db.Invoice>, start: int, end: int, now: int): (r: Reply<int>)
    ensures r.status == 200 && r.body.success
    ensures r.body.data == Some(TotalSales(invoices, start, end))
    ensures r.body.message == "Total sales retrieved successfully"
  {
    Reply(200, Success(TotalSales(invoices, start, end), Some("Total sales retrieved successfully"), None, now))
  }

  /** The reply of `getSalesByTable`. */
  function GetSalesByTable(tables: seq<(int, Db.Table)>, orders: seq<Db.Order>, now: int): (r: Reply<seq<TableSales>>)
    ensures r.status == 200 && r.body.success
    ensures r.body.data == Some(SalesByTable(tables, orders))
    ensures r.body.message == "Sales by table retrieved successfully"
  {
    Reply(200, Success(SalesByTable(tables, orders), Some("Sales by table retrieved successfully"), None, now))
  }

  /** The reply of `getSalesByDay`. */
  function GetSalesByDay(invoices: seq<Db.Invoice>, start: int, end: int, now: int): (r: Reply<seq<DaySales>>)
    ensures r.status == 200 && r.body.success
    ensures r.body.data == Some(SalesByDay(invoices, start, end))
    ensures r.body.message == "Daily sales retrieved successfully"
  {
    Reply(200, Success(SalesByDay(invoices, start, end), Some("Daily sales retrieved successfully"), None, now))
  }
}
