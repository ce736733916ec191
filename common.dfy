/** Values shared by the server and the browser client: optional fields,
    the enumerations of the data model and the JSON body of an order request. */
module Common {

  /** An optional field: `None` stands for an absent (`undefined`) value. A JSON `null` is
      not modelled: default parameters replace only `undefined`. */
  datatype Option<T> = None | Some(value: T) {
    function GetOr(default: T): (r: T) {
      if Some? then value else default
    }
  }

  /** JavaScript truthiness of an optional number: absent and 0 are both falsy. */
  predicate TruthyInt(x: Option<int>) {
    x.Some? && x.value != 0
  }

  /** JavaScript truthiness of an optional string: absent and "" are both falsy. */
  predicate TruthyStr(x: Option<string>) {
    x.Some? && x.value != ""
  }

  datatype OrderType = PLACE | TAKEAWAY | DELIVERY

  datatype Role = ADMIN | MANAGER | STAFF

  /** The name a role has on the wire. */
  function RoleName(r: Role): (s: string)
    ensures s in ["ADMIN", "MANAGER", "STAFF"]
  {
    match r
    case ADMIN => "ADMIN"
    case MANAGER => "MANAGER"
    case STAFF => "STAFF"
  }

  /** The public part of a user, without the password: what a login answers with and
      what the authentication middleware attaches to a request. */
  datatype AuthUser = AuthUser(id: int, name: string, email: string, role: Role)

  datatype TableStatus = Free | Occupied | Reserved | OutOfOrder

  /** One line of an order request; `price` is in cents and supplied by the client. */
  datatype LineItem = LineItem(menuItemId: int, quantity: int, price: int)

  /** The body of `POST /orders/create`. `deliveryTime` is the instant the client's date
      string denotes, or `None` when it is absent or denotes no valid date. */
  datatype CreateOrderRequest = CreateOrderRequest(
    userId: Option<int>,
    tableId: Option<int>,
    orderType: OrderType,
    deliveryAddress: Option<string>,
    deliveryTime: Option<int>,
    menuItems: seq<LineItem>)

  /** The white space `String.prototype.trim` removes, as far as this model goes: space,
      tab, line feed, carriage return, vertical tab and form feed. */
  predicate IsSpace(c: char) {
    c == ' ' || c == '\t' || c == '\n' || c == '\r' || c == '\U{000B}' || c == '\U{000C}'
  }

  /** The text without its leading white space. */
  function TrimStart(s: string): (r: string)
    ensures |r| <= |s| && r == s[|s| - |r|..]
    ensures |r| == 0 || !IsSpace(r[0])
    ensures forall i :: 0 <= i < |s| - |r| ==> IsSpace(s[i])
  {
    if |s| > 0 && IsSpace(s[0]) then TrimStart(s[1..]) else s
  }

  /** The text without its trailing white space. */
  function TrimEnd(s: string): (r: string)
    ensures |r| <= |s| && r == s[..|r|]
    ensures |r| == 0 || !IsSpace(r[|r| - 1])
    ensures forall i :: |r| <= i < |s| ==> IsSpace(s[i])
  {
    if |s| > 0 && IsSpace(s[|s| - 1]) then TrimEnd(s[..|s| - 1]) else s
  }

  /** `s.trim()`. */
  function Trim(s: string): (r: string) {
    TrimEnd(TrimStart(s))
  }

  /** True iff the text is empty or white space only. */
  predicate Blank(s: string) {
    forall i :: 0 <= i < |s| ==> IsSpace(s[i])
  }

  /** Trimming leaves nothing exactly when the text is blank. */
  lemma TrimEmptyIff(s: string)
    ensures Trim(s) == "" <==> Blank(s)
  {
    var t := TrimStart(s);
    if |t| > 0 {
      assert t[0] == s[|s| - |t|];
    }
  }

  /** True iff no value occurs twice in `s`. */
  predicate Distinct<T(==)>(s: seq<T>) {
    forall i, j :: 0 <= i < j < |s| ==> s[i] != s[j]
  }
}
