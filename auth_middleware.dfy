/** The request guards (`authenticate`, `authorize`). `authenticate` accepts a header of
    the form `Bearer <token>` (section 2.1 of RFC 6750), has the token checked by the
    token library (given as a function) and attaches the user it names to the request. */
module AuthMiddleware {
  import opened Common
  import opened ApiResponse
  import opened ErrorHandler
  import Db

  // ---------------------------------------------------------------- splitting the header

  /** `s.split(sep)`: the pieces between separators, empty pieces included. */
  function Split(s: string, sep: char): (parts: seq<string>)
    ensures |parts| >= 1
    ensures forall i :: 0 <= i < |parts| ==> sep !in parts[i]
  {
    if |s| == 0 then [""]
    else if s[0] == sep then [""] + Split(s[1..], sep)
    else
      var rest := Split(s[1..], sep);
      [[s[0]] + rest[0]] + rest[1..]
  }

  /** The pieces joined back with the separator. */
  function Join(parts: seq<string>, sep: char): (r: string)
    requires |parts| >= 1
  {
    if |parts| == 1 then parts[0] else parts[0] + [sep] + Join(parts[1..], sep)
  }

  /** Splitting loses nothing: joining the pieces gives the text back. */
  lemma {:induction false} SplitJoin(s: string, sep: char)
    ensures Join(Split(s, sep), sep) == s
  {
    if |s| > 0 {
      SplitJoin(s[1..], sep);
      var rest := Split(s[1..], sep);
      if s[0] == sep {
        assert Split(s, sep)[1..] == rest;
        assert s == [sep] + s[1..];
      } else if |rest| == 1 {
        assert s == [s[0]] + rest[0];
      } else {
        var parts := Split(s, sep);
        assert parts[1..] == rest[1..];
        assert Join(rest, sep) == rest[0] + [sep] + Join(rest[1..], sep);
        assert s == [s[0]] + s[1..];
      }
    }
  }

  /** A piece without the separator, then the separator: the piece comes first. */
  lemma {:induction false} SplitAfterWord(w: string, sep: char, rest: string)
    requires sep !in w
    ensures Split(w + [sep] + rest, sep) == [w] + Split(rest, sep)
  {
    if |w| == 0 {
      assert w + [sep] + rest == [sep] + rest;
      assert ([sep] + rest)[1..] == rest;
    } else {
      var s := w + [sep] + rest;
      assert s[1..] == w[1..] + [sep] + rest;
      SplitAfterWord(w[1..], sep, rest);
      assert [w[0]] + w[1..] == w;
    }
  }

  /** A text without the separator is a single piece. */
  lemma {:induction false} SplitWord(w: string, sep: char)
    requires sep !in w
    ensures Split(w, sep) == [w]
  {
    if |w| > 0 {
      SplitWord(w[1..], sep);
      assert [w[0]] + w[1..] == w;
    }
  }

  const BearerPrefix: string := "Bearer "

  predicate StartsWith(s: string, prefix: string) {
    |prefix| <= |s| && s[..|prefix|] == prefix
  }

  /** `authHeader.split(' ')[1]`: after `Bearer `, the text up to the next space. */
  function TokenOf(header: string): (token: string)
    requires StartsWith(header, BearerPrefix)
    ensures ' ' !in token
  {
    SplitHeader(header);
    Split(header, ' ')[1]
  }

  lemma SplitHeader(header: string)
    requires StartsWith(header, BearerPrefix)
    ensures |Split(header, ' ')| >= 2
    ensures Split(header, ' ') == ["Bearer"] + Split(header[|BearerPrefix|..], ' ')
  {
    assert header == "Bearer" + [' '] + header[|BearerPrefix|..];
    SplitAfterWord("Bearer", ' ', header[|BearerPrefix|..]);
  }

  /** A header made of `Bearer `, then a token without spaces, yields exactly that token. */
  lemma BearerTokenRoundTrip(token: string)
    requires ' ' !in token
    ensures StartsWith(BearerPrefix + token, BearerPrefix)
    ensures TokenOf(BearerPrefix + token) == token
  {
    var header := BearerPrefix + token;
    assert header[..|BearerPrefix|] == BearerPrefix;
    SplitHeader(header);
    assert header[|BearerPrefix|..] == token;
    SplitWord(token, ' ');
  }

  // ---------------------------------------------------------------- authenticate

  /** What the token library makes of a token: the user id in its payload, or the error it
      throws (an invalid or expired token). */
  datatype Verified = Decoded(userId: int) | Rejected(error: Err)

  /** What a guard does with a request: pass it on, answer it itself, or pass an error on. */
  datatype Guard = Next | Respond(reply: Reply<()>) | NextWithError(error: Err)

  /** The guard's own refusals: a bare envelope with no data. */
  function Refuse(status: int, message: string, now: int): (r: Reply<()>)
    ensures r.status == status && r.body.statusCode == status && !r.body.success
    ensures r.body.message == message && r.body.data == None
  {
    Reply(status, Error(Some(message), Some(status), now))
  }

  /** The decision of `authenticate`: a missing header, or one that does not begin with
      exactly `Bearer `, is refused with 401; a token the library rejects passes the
      library's error on; a token naming a user that no longer exists is refused with 401;
      otherwise the user's public fields. */
  function AuthenticateDecision(header: Option<string>, users: map<int, Db.User>,
                                verify: string -> Verified, now: int): (r: (Guard, Option<AuthUser>))
    ensures r.1.Some? <==> r.0.Next?
    ensures !TruthyStr(header) || !StartsWith(header.value, BearerPrefix) ==>
      r == (Respond(Refuse(401, "Access token required", now)), None)
    ensures r.1.Some? ==>
      && r.1.value.id in users && TruthyStr(header) && StartsWith(header.value, BearerPrefix)
      && verify(TokenOf(header.value)) == Decoded(r.1.value.id)
    ensures r.1.Some? ==>
      var u := users[r.1.value.id];
      r.1.value == AuthUser(r.1.value.id, u.name, u.email, u.role)
    ensures TruthyStr(header) && StartsWith(header.value, BearerPrefix) && verify(TokenOf(header.value)).Rejected? ==>
      r == (NextWithError(verify(TokenOf(header.value)).error), None)
    ensures TruthyStr(header) && StartsWith(header.value, BearerPrefix) && verify(TokenOf(header.value)).Decoded?
            && verify(TokenOf(header.value)).userId !in users ==>
      r == (Respond(Refuse(401, "User not found", now)), None)
  {
    if !TruthyStr(header) || !StartsWith(header.value, BearerPrefix) then
      (Respond(Refuse(401, "Access token required", now)), None)
    else
      match verify(TokenOf(header.value))
      case Rejected(e) => (NextWithError(e), None)
      case Decoded(userId) =>
        if userId !in users then (Respond(Refuse(401, "User not found", now)), None)
        else
          var u := users[userId];
          (Next, Some(AuthUser(userId, u.name, u.email, u.role)))
  }

  /** The incoming request as the guards see it: the `Authorization` header and the user
      `authenticate` attaches. */
  class Request {
    var authorization: Option<string>
    var user: Option<AuthUser>

    constructor (authorization: Option<string>)
      ensures this.authorization == authorization && user == None
    {
      this.authorization := authorization;
      user := None;
    }
  }

  /** `authenticate`: sets `req.user` exactly when the request is let through, and then
      to the public fields of the user the token names; every other outcome leaves the
      request as it was. */
  method Authenticate(req: Request, db: Db.Store, verify: string -> Verified, now: int) returns (g: Guard)
    modifies req
    ensures req.authorization == old(req.authorization)
    ensures (g, if g.Next? then req.user else None) == AuthenticateDecision(req.authorization, db.users, verify, now)
    ensures !g.Next? ==> req.user == old(req.user)
  {
    var decision := AuthenticateDecision(req.authorization, db.users, verify, now);
    g := decision.0;
    if decision.1.Some? {
      req.user := decision.1;
    }
  }

  /** Only a header that begins with exactly `Bearer ` gets past the first check: the
      lower-case scheme and a bare `Bearer` are refused. */
  lemma SchemeIsCaseSensitive(users: map<int, Db.User>, verify: string -> Verified, now: int)
    ensures AuthenticateDecision(Some("bearer abc"), users, verify, now).0 == Respond(Refuse(401, "Access token required", now))
    ensures AuthenticateDecision(Some("Bearer"), users, verify, now).0 == Respond(Refuse(401, "Access token required", now))
  {
    assert !StartsWith("bearer abc", BearerPrefix) by {
      assert "bearer abc"[0] != BearerPrefix[0];
    }
  }

  // ---------------------------------------------------------------- authorize

  /** `authorize(...roles)`: no user on the request is a 401, checked first; a role outside
      the allow-list is a 403; otherwise the request passes. */
  function Authorize(roles: seq<Role>, user: Option<AuthUser>, now: int): (g: Guard)
    ensures g.Next? <==> user.Some? && user.value.role in roles
    ensures user.None? ==> g == Respond(Refuse(401, "Authentication required", now))
    ensures user.Some? && user.value.role !in roles ==> g == Respond(Refuse(403, "Insufficient permissions", now))
  {
    if user.None? then Respond(Refuse(401, "Authentication required", now))
    else if user.value.role !in roles then Respond(Refuse(403, "Insufficient permissions", now))
    else Next
  }

  /** An empty allow-list turns away every authenticated user with 403. */
  lemma EmptyAllowListRejects(user: AuthUser, now: int)
    ensures Authorize([], Some(user), now) == Respond(Refuse(403, "Insufficient permissions", now))
  {
  }

  /** The allow-list of the sales reports. */
  const SalesRoles: seq<Role> := [ADMIN, MANAGER]

  /** Staff cannot read the sales reports; administrators and managers can. */
  lemma StaffKeptFromSales(id: int, name: string, email: string, now: int)
    ensures Authorize(SalesRoles, Some(AuthUser(id, name, email, STAFF)), now).Respond?
    ensures Authorize(SalesRoles, Some(AuthUser(id, name, email, MANAGER)), now) == Next
  {
  }

  /** Both guards in a row: a request reaches the controller exactly when its header
      carries a token the library accepts, naming a user that exists and whose role is on
      the allow-list. */
  lemma GuardsInARow(header: Option<string>, users: map<int, Db.User>, verify: string -> Verified,
                     roles: seq<Role>, now: int)
    ensures var (g, user) := AuthenticateDecision(header, users, verify, now);
      (g.Next? && Authorize(roles, user, now).Next?) <==>
      && TruthyStr(header) && StartsWith(header.value, BearerPrefix)
      && verify(TokenOf(header.value)).Decoded?
      && verify(TokenOf(header.value)).userId in users
      && users[verify(TokenOf(header.value)).userId].role in roles
  {
  }
}
