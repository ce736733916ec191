/** The menu listing with its filters, search and pagination (`getAllMenuItems`) and the
    creation of a menu item (`createMenuItem`). The listing reads the menu item rows as a
    sequence of (id, record) pairs. */
module MenuController {
  import opened Common
  import opened ApiResponse
  import opened ErrorHandler
  import Db

  /** The query string of `GET /menu`. `categoryId` is `None` when absent or empty and
      otherwise the number it spells; `page` and `limit` are `None` when absent. */
  datatype MenuQuery = MenuQuery(page: Option<int>, limit: Option<nat>, categoryId: Option<int>,
                                 available: Option<string>, search: Option<string>)

  /** The store filter the controller assembles: each field is `None` when that condition
      is not part of the filter. */
  datatype Where = Where(categoryId: Option<int>, available: Option<bool>, search: Option<string>)

  /** The filter, one condition after the other: a category when one is given, the
      availability flag `available === 'true'` whenever the parameter is present, and the
      search term when it is non-empty. */
  function BuildWhere(q: MenuQuery): (w: Where) {
    var w0 := Where(None, None, None);
    var w1 := if q.categoryId.Some? then w0.(categoryId := q.categoryId) else w0;
    var w2 := if q.available.Some? then w1.(available := Some(q.available.value == "true")) else w1;
    var w3 := if TruthyStr(q.search) then w2.(search := q.search) else w2;
    w3
  }

  function LowerChar(c: char): (r: char) {
    if 'A' <= c <= 'Z' then (c as int + 32) as char else c
  }

  function UpperChar(c: char): (r: char) {
    if 'a' <= c <= 'z' then (c as int - 32) as char else c
  }

  /** ASCII lower-casing, letter by letter. */
  function Lower(s: string): (r: string)
    ensures |r| == |s| && forall i :: 0 <= i < |s| ==> r[i] == LowerChar(s[i])
  {
    seq(|s|, i requires 0 <= i < |s| => LowerChar(s[i]))
  }

  function Upper(s: string): (r: string)
    ensures |r| == |s| && forall i :: 0 <= i < |s| ==> r[i] == UpperChar(s[i])
  {
    seq(|s|, i requires 0 <= i < |s| => UpperChar(s[i]))
  }

  /** `needle` occurs in `hay` starting at index `i`. */
  predicate OccursAt(hay: string, needle: string, i: int) {
    0 <= i && i + |needle| <= |hay| && hay[i..i + |needle|] == needle
  }

  predicate Contains(hay: string, needle: string) {
    exists i :: 0 <= i <= |hay| && OccursAt(hay, needle, i)
  }

  /** `contains` with `mode: 'insensitive'`. */
  predicate ContainsInsensitive(hay: string, needle: string) {
    Contains(Lower(hay), Lower(needle))
  }

  /** True iff a menu item satisfies every condition of the filter; the search term may
      occur in the name or in the description. */
  predicate Matches(w: Where, m: Db.MenuItem) {
    && (w.categoryId.Some? ==> m.categoryId == w.categoryId)
    && (w.available.Some? ==> m.available == w.available.value)
    && (w.search.Some? ==> ContainsInsensitive(m.name, w.search.value) || ContainsInsensitive(m.description, w.search.value))
  }

  /** What the listing keeps, in the query's own terms: the given category only; when
      `available` is present, the items whose flag equals `available == "true"`; when the
      search term is non-empty, the items whose name or description contains it, ignoring
      case. */
  lemma MatchesQuery(q: MenuQuery, m: Db.MenuItem)
    ensures Matches(BuildWhere(q), m) <==>
      && (q.categoryId.Some? ==> m.categoryId == q.categoryId)
      && (q.available.Some? ==> m.available == (q.available.value == "true"))
      && (TruthyStr(q.search) ==>
            ContainsInsensitive(m.name, q.search.value) || ContainsInsensitive(m.description, q.search.value))
  {
  }

  /** Any `available` text other than exactly "true" (such as "false", "yes" or "TRUE")
      selects only the items that are not available. */
  lemma OtherAvailableTextSelectsUnavailable(q: MenuQuery, m: Db.MenuItem)
    requires q.available.Some? && q.available.value != "true"
    requires Matches(BuildWhere(q), m)
    ensures !m.available
  {
  }

  lemma {:induction false} LowerUpper(s: string)
    ensures Lower(Upper(s)) == Lower(s)
  {
    assert forall i :: 0 <= i < |s| ==> LowerChar(UpperChar(s[i])) == LowerChar(s[i]);
  }

  /** The search ignores case: a term and its upper-cased spelling select the same items. */
  lemma SearchIgnoresCase(hay: string, needle: string)
    ensures ContainsInsensitive(hay, Upper(needle)) == ContainsInsensitive(hay, needle)
    ensures ContainsInsensitive(Upper(hay), needle) == ContainsInsensitive(hay, needle)
  {
    LowerUpper(needle);
    LowerUpper(hay);
  }

  /** The empty search term is contained in every text. */
  lemma EmptyTermEverywhere(hay: string)
    ensures ContainsInsensitive(hay, "")
  {
    assert OccursAt(Lower(hay), Lower(""), 0);
  }

  // ---------------------------------------------------------------- filter and order

  /** The rows that satisfy the filter, in their original order. */
  function Filter(items: seq<(int, Db.MenuItem)>, w: Where): (r: seq<(int, Db.MenuItem)>)
    ensures |r| <= |items|
    ensures forall x :: x in r <==> x in items && Matches(w, x.1)
  {
    if |items| == 0 then []
    else
      var last := items[|items| - 1];
      assert items == items[..|items| - 1] + [last];
      Filter(items[..|items| - 1], w) + (if Matches(w, last.1) then [last] else [])
  }

  /** `orderBy: { createdAt: 'desc' }`. */
  predicate NewestFirst(s: seq<(int, Db.MenuItem)>) {
    forall i, j :: 0 <= i < j < |s| ==> s[i].1.createdAt >= s[j].1.createdAt
  }

  function InsertByDate(x: (int, Db.MenuItem), s: seq<(int, Db.MenuItem)>): (r: seq<(int, Db.MenuItem)>)
    requires NewestFirst(s)
    ensures NewestFirst(r)
    ensures |r| == |s| + 1 && (r[0] == x || (|s| > 0 && r[0] == s[0]))
    ensures multiset(r) == multiset(s) + multiset{x}
  {
    if |s| == 0 then [x]
    else if x.1.createdAt >= s[0].1.createdAt then [x] + s
    else
      var rest := InsertByDate(x, s[1..]);
      assert s == [s[0]] + s[1..];
      [s[0]] + rest
  }

  /** The rows newest first: a permutation of its input in descending `createdAt` order. */
  function SortNewestFirst(s: seq<(int, Db.MenuItem)>): (r: seq<(int, Db.MenuItem)>)
    ensures NewestFirst(r)
    ensures multiset(r) == multiset(s)
  {
    if |s| == 0 then []
    else
      assert s == [s[0]] + s[1..];
      InsertByDate(s[0], SortNewestFirst(s[1..]))
  }

  /** Sorting the filtered rows keeps exactly the matching rows of the table. */
  lemma SortedFilterRows(items: seq<(int, Db.MenuItem)>, w: Where)
    ensures |SortNewestFirst(Filter(items, w))| == |Filter(items, w)|
    ensures forall x :: x in SortNewestFirst(Filter(items, w)) <==> x in items && Matches(w, x.1)
  {
    var f := Filter(items, w);
    var sorted := SortNewestFirst(f);
    assert |multiset(sorted)| == |multiset(f)|;
    forall x ensures x in sorted <==> x in f {
      assert x in sorted <==> x in multiset(sorted);
      assert x in f <==> x in multiset(f);
    }
  }

  // ---------------------------------------------------------------- pagination

  function Min(a: int, b: int): (r: int) {
    if a <= b then a else b
  }

  /** `skip`/`take`: at most `take` rows, starting at row `skip`. */
  function Window<T>(s: seq<T>, skip: nat, take: nat): (w: seq<T>)
    ensures |w| == (if skip >= |s| then 0 else Min(take, |s| - skip))
    ensures forall i :: 0 <= i < |w| ==> w[i] == s[skip + i]
  {
    if skip >= |s| then [] else s[skip..Min(skip + take, |s|)]
  }

  /** `Math.ceil(total / limit)`; with a zero limit the division gives no number, which
      the JSON body carries as `null`. */
  function PageCount(total: nat, limit: nat): (pages: Option<int>)
    ensures limit == 0 <==> pages.None?
    ensures limit > 0 ==> (pages.value - 1) * limit < total <= pages.value * limit
  {
    if limit == 0 then None
    else
      var q := (total + limit - 1) / limit;
      var r := (total + limit - 1) % limit;
      assert total + limit - 1 == q * limit + r;
      assert q * limit - limit == (q - 1) * limit;
      Some(q)
  }

  /** Pages 1 to `n` one after the other. */
  function PagesUpTo<T>(s: seq<T>, limit: nat, n: nat): (r: seq<T>) {
    if n == 0 then [] else PagesUpTo(s, limit, n - 1) + Window(s, (n - 1) * limit, limit)
  }

  lemma {:induction false} PagesUpToPrefix<T>(s: seq<T>, limit: nat, n: nat)
    ensures PagesUpTo(s, limit, n) == s[..Min(n * limit, |s|)]
  {
    if n > 0 {
      PagesUpToPrefix(s, limit, n - 1);
      var a := (n - 1) * limit;
      assert n * limit == a + limit;
      PageFollowsPrefix(s, a, limit);
    }
  }

  /** The window after the first `a` rows extends them to the first `a + take` rows. */
  lemma PageFollowsPrefix<T>(s: seq<T>, a: nat, take: nat)
    ensures s[..Min(a, |s|)] + Window(s, a, take) == s[..Min(a + take, |s|)]
  {
    if a < |s| {
      assert s[..Min(a + take, |s|)] == s[..a] + s[a..Min(a + take, |s|)];
    }
  }

  /** Walking through pages 1 to `pages` yields every listed row once, in order. */
  lemma PagesCoverListing<T>(s: seq<T>, limit: nat)
    requires limit > 0
    ensures PagesUpTo(s, limit, PageCount(|s|, limit).value) == s
  {
    var n := PageCount(|s|, limit).value;
    PagesUpToPrefix(s, limit, n);
  }

  // ---------------------------------------------------------------- the listing

  /** The store's refusal of a negative `skip` (a page below 1). */
  const NegativeSkip: Err := Err(None, "Invalid value for argument `skip`", None, "PrismaClientValidationError")

  /** `getAllMenuItems`: `page` defaults to 1 and `limit` to 10; the matching rows newest
      first, from row `(page - 1) * limit`, at most `limit` of them, with the number of all
      matching rows and the page count. A page below 1 gives a negative offset, which the
      store refuses. */
  function GetAllMenuItems(items: seq<(int, Db.MenuItem)>, q: MenuQuery, now: int): (o: Outcome<seq<(int, Db.MenuItem)>>)
    ensures var skip := (q.page.GetOr(1) - 1) * q.limit.GetOr(10);
      && (skip < 0 <==> o.Forwarded?)
      && (o.Forwarded? ==> o.error == NegativeSkip)
      && (o.Sent? ==>
            var body := o.reply.body;
            var matching := SortNewestFirst(Filter(items, BuildWhere(q)));
            && o.reply.status == 200 && body.success
            && body.message == "Menu items retrieved successfully"
            && body.data == Some(Window(matching, skip, q.limit.GetOr(10)))
            && body.pagination == Some(Pagination(q.page.GetOr(1), q.limit.GetOr(10), |matching|,
                                                  PageCount(|matching|, q.limit.GetOr(10)))))
  {
    var page := q.page.GetOr(1);
    var limit := q.limit.GetOr(10);
    var skip := (page - 1) * limit;
    if skip < 0 then Forwarded(NegativeSkip)
    else
      var matching := SortNewestFirst(Filter(items, BuildWhere(q)));
      var pagination := Pagination(page, limit, |matching|, PageCount(|matching|, limit));
      Sent(Reply(200, Paginated(Window(matching, skip, limit), pagination, Some("Menu items retrieved successfully"), now)))
  }

  /** A window of a newest-first listing is newest first and holds rows of the listing. */
  lemma WindowOfListing(s: seq<(int, Db.MenuItem)>, skip: nat, take: nat)
    requires NewestFirst(s)
    ensures NewestFirst(Window(s, skip, take))
    ensures forall x :: x in Window(s, skip, take) ==> x in s
  {
    var w := Window(s, skip, take);
    forall i, j | 0 <= i < j < |w| ensures w[i].1.createdAt >= w[j].1.createdAt {
      assert w[i] == s[skip + i] && w[j] == s[skip + j];
    }
    forall x | x in w ensures x in s {
      var i :| 0 <= i < |w| && w[i] == x;
      assert x == s[skip + i];
    }
  }

  /** What one page holds: only rows of the table that match the filter, newest first, at
      most `limit` of them; `total` counts every matching row, not only the page. */
  lemma ListingPage(items: seq<(int, Db.MenuItem)>, q: MenuQuery, now: int)
    requires GetAllMenuItems(items, q, now).Sent?
    ensures var body := GetAllMenuItems(items, q, now).reply.body;
      && |body.data.value| <= q.limit.GetOr(10)
      && NewestFirst(body.data.value)
      && (forall x :: x in body.data.value ==> x in items && Matches(BuildWhere(q), x.1))
      && body.pagination.value.total == |Filter(items, BuildWhere(q))|
  {
    var skip := (q.page.GetOr(1) - 1) * q.limit.GetOr(10);
    var matching := SortNewestFirst(Filter(items, BuildWhere(q)));
    SortedFilterRows(items, BuildWhere(q));
    WindowOfListing(matching, skip, q.limit.GetOr(10));
  }

  /** With no query parameters the first ten rows are listed. */
  lemma DefaultsFirstTen(items: seq<(int, Db.MenuItem)>, now: int)
    ensures var o := GetAllMenuItems(items, MenuQuery(None, None, None, None, None), now);
      && o.Sent?
      && o.reply.body.pagination.value.page == 1 && o.reply.body.pagination.value.limit == 10
      && o.reply.body.data.value == Window(SortNewestFirst(Filter(items, Where(None, None, None))), 0, 10)
  {
  }

  // ---------------------------------------------------------------- creation

  /** The store's refusal of a menu item whose category does not exist (code P2003, which
      the error handler does not map, so it answers 500). */
  const MissingCategory: Err := Err(None, "Foreign key constraint violated on the field: `categoryId`", Some("P2003"), "PrismaClientKnownRequestError")

  /** `createMenuItem`: `available` defaults to true; a category that does not exist makes
      the store refuse the row and nothing is written. */
  method CreateMenuItem(db: Db.Store, name: string, description: string, price: int,
                        categoryId: Option<int>, available: Option<bool>, now: int)
    returns (o: Outcome<(int, Db.MenuItem)>)
    requires db.Valid()
    modifies db
    ensures db.Valid()
    ensures categoryId.Some? && categoryId.value !in old(db.categories) ==>
      o == Forwarded(MissingCategory) && unchanged(db)
    ensures categoryId.None? || categoryId.value in old(db.categories) ==>
      var id := old(db.nextMenuItemId);
      var m := Db.MenuItem(name, description, price, categoryId, available.GetOr(true), now);
      && id !in old(db.menuItems)
      && db.menuItems == old(db.menuItems)[id := m]
      && o == Sent(Reply(201, Success((id, m), Some("Menu item created successfully"), Some(201), now)))
    ensures db.users == old(db.users) && db.tables == old(db.tables) && db.orders == old(db.orders)
    ensures db.orderItems == old(db.orderItems) && db.invoices == old(db.invoices) && db.categories == old(db.categories)
  {
    if categoryId.Some? && categoryId.value !in db.categories {
      return Forwarded(MissingCategory);
    }
    var m := Db.MenuItem(name, description, price, categoryId, available.GetOr(true), now);
    var id := db.InsertMenuItem(m);
    o := Sent(Reply(201, Success((id, m), Some("Menu item created successfully"), Some(201), now)));
  }

  /** A menu item created without the flag is available; a 500 for a missing category
      reaches the client. */
  lemma CreateDefaults(now: int)
    ensures Db.MenuItem("Soup", "", 450, None, None.GetOr(true), now).available
    ensures Deliver<int>(Forwarded(MissingCategory), now).status == 500
  {
  }
}
