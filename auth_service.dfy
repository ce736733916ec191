/** The browser's sign-in cache (`AuthService`): the token and the signed-in user are kept
    under two keys of the browser's key-value storage, written on a successful login or
    profile fetch, removed on logout, and the stored user is checked, and dropped when
    it is unreadable or malformed, each time it is read. JSON text is produced and read by
    functions given as parameters. */
module AuthService {
  import opened Common
  import opened ApiResponse
  import opened ServiceErrors

  const TokenKey: string := "authToken"
  const UserKey: string := "user"

  /** A JSON value. */
  datatype Json = JNull | JBool(b: bool) | JNum(n: real) | JStr(s: string) | JArr(elems: seq<Json>)
                | JObj(fields: map<string, Json>)

  /** `isValidUser`: an object whose `id` is a number, whose `name`, `email` and `role` are
      strings, and whose role is one of the three role names. */
  predicate IsValidUser(j: Json) {
    && j.JObj?
    && "id" in j.fields && j.fields["id"].JNum?
    && "name" in j.fields && j.fields["name"].JStr?
    && "email" in j.fields && j.fields["email"].JStr?
    && "role" in j.fields && j.fields["role"].JStr?
    && j.fields["role"].s in ["ADMIN", "MANAGER", "STAFF"]
  }

  /** The user the server sends, as a JSON object. */
  function UserJson(u: AuthUser): (j: Json)
    ensures IsValidUser(j)
    ensures j.fields["id"] == JNum(u.id as real) && j.fields["name"] == JStr(u.name)
    ensures j.fields["email"] == JStr(u.email) && j.fields["role"] == JStr(RoleName(u.role))
  {
    JObj(map["id" := JNum(u.id as real), "name" := JStr(u.name), "email" := JStr(u.email),
             "role" := JStr(RoleName(u.role))])
  }

  /** The answer to a login. */
  datatype Session = Session(user: AuthUser, token: string)

  /** How a service call ended: the server's envelope, or what the HTTP client threw. */
  datatype Call<T> = Answered(body: Envelope<T>) | Threw(error: Thrown)

  /** What a service method hands back: the envelope, or the `AppError` it throws. */
  datatype Outcome<T> = Returned(body: Envelope<T>) | Raised(error: AppError)

  /** The user a read of the cache yields, and the storage after it: nothing is yielded and
      nothing changes without a non-empty `user` entry; an entry that parses to a valid user
      is yielded and kept; any other entry is removed. */
  function ReadUser(storage: map<string, string>, parse: string -> Option<Json>): (r: (Option<Json>, map<string, string>))
    ensures UserKey !in storage || storage[UserKey] == "" ==> r == (None, storage)
    ensures r.0.Some? ==> IsValidUser(r.0.value) && r.1 == storage && parse(storage[UserKey]) == r.0
    ensures r.0.None? && UserKey in storage && storage[UserKey] != "" ==> r.1 == storage - {UserKey}
    ensures r.1.Keys <= storage.Keys && forall k :: k in r.1 ==> r.1[k] == storage[k]
  {
    if UserKey !in storage || storage[UserKey] == "" then (None, storage)
    else
      var parsed := parse(storage[UserKey]);
      if parsed.Some? && IsValidUser(parsed.value) then (parsed, storage)
      else (None, storage - {UserKey})
  }

  /** Reading the cache a second time yields the same and changes nothing more. */
  lemma ReadUserIdempotent(storage: map<string, string>, parse: string -> Option<Json>)
    ensures var (u, s) := ReadUser(storage, parse); ReadUser(s, parse) == (u, s)
  {
  }

  class AuthStore {
    /** The browser's key-value storage. */
    var storage: map<string, string>

    constructor (storage: map<string, string>)
      ensures this.storage == storage
    {
      this.storage := storage;
    }

    /** `login`: a thrown call is classified and rethrown with the storage untouched; an
        answer is returned, and when it reports success with data the token and the user
        (as JSON text) are stored. */
    method Login(call: Call<Session>, stringify: Json -> string) returns (r: Outcome<Session>)
      modifies this
      ensures call.Threw? ==> r == Raised(HandleServiceError(call.error)) && storage == old(storage)
      ensures call.Answered? ==> r == Returned(call.body)
      ensures call.Answered? && call.body.success && call.body.data.Some? ==>
        storage == old(storage)[TokenKey := call.body.data.value.token]
                               [UserKey := stringify(UserJson(call.body.data.value.user))]
      ensures call.Answered? && !(call.body.success && call.body.data.Some?) ==> storage == old(storage)
    {
      if call.Threw? {
        return Raised(HandleServiceError(call.error));
      }
      var body := call.body;
      if body.success && body.data.Some? {
        storage := storage[TokenKey := body.data.value.token];
        storage := storage[UserKey := stringify(UserJson(body.data.value.user))];
      }
      r := Returned(body);
    }

    /** `logout`: both entries go, every other entry stays. */
    method Logout()
      modifies this
      ensures storage == old(storage) - {TokenKey, UserKey}
    {
      storage := storage - {TokenKey};
      storage := storage - {UserKey};
    }

    /** `clearAuth`: the same two removals as `logout`. */
    method ClearAuth()
      modifies this
      ensures storage == old(storage) - {TokenKey, UserKey}
    {
      storage := storage - {TokenKey};
      storage := storage - {UserKey};
    }

    /** `getCurrentUser`. */
    method GetCurrentUser(parse: string -> Option<Json>) returns (user: Option<Json>)
      modifies this
      ensures (user, storage) == ReadUser(old(storage), parse)
    {
      if UserKey !in storage || storage[UserKey] == "" {
        return None;
      }
      var parsed := parse(storage[UserKey]);
      if parsed.Some? && IsValidUser(parsed.value) {
        return parsed;
      }
      storage := storage - {UserKey};
      user := None;
    }

    /** `getProfile`: like `login`, but a successful answer rewrites the user entry only. */
    method GetProfile(call: Call<AuthUser>, stringify: Json -> string) returns (r: Outcome<AuthUser>)
      modifies this
      ensures call.Threw? ==> r == Raised(HandleServiceError(call.error)) && storage == old(storage)
      ensures call.Answered? ==> r == Returned(call.body)
      ensures call.Answered? && call.body.success && call.body.data.Some? ==>
        storage == old(storage)[UserKey := stringify(UserJson(call.body.data.value))]
      ensures call.Answered? && !(call.body.success && call.body.data.Some?) ==> storage == old(storage)
    {
      if call.Threw? {
        return Raised(HandleServiceError(call.error));
      }
      if call.body.success && call.body.data.Some? {
        storage := storage[UserKey := stringify(UserJson(call.body.data.value))];
      }
      r := Returned(call.body);
    }

    /** `getStoredToken`. */
    function GetStoredToken(): (r: Option<string>)
      reads this
    {
      if TokenKey in storage then Some(storage[TokenKey]) else None
    }

    /** `isAuthenticated`: a non-empty token is stored and the stored user reads as valid;
        the read may drop a bad user entry. */
    method IsAuthenticated(parse: string -> Option<Json>) returns (b: bool)
      modifies this
      ensures b <==> TokenKey in old(storage) && old(storage)[TokenKey] != "" && ReadUser(old(storage), parse).0.Some?
      ensures storage == ReadUser(old(storage), parse).1
    {
      var token := GetStoredToken();
      var user := GetCurrentUser(parse);
      b := TruthyStr(token) && user.Some?;
    }
  }

  /** After a successful login, the cache reads back the user that was stored, provided the
      JSON text of the user is non-empty and parses back to the same value. */
  lemma LoginThenCurrentUser(storage: map<string, string>, s: Session, stringify: Json -> string,
                             parse: string -> Option<Json>)
    requires stringify(UserJson(s.user)) != ""
    requires parse(stringify(UserJson(s.user))) == Some(UserJson(s.user))
    ensures var after := storage[TokenKey := s.token][UserKey := stringify(UserJson(s.user))];
      ReadUser(after, parse) == (Some(UserJson(s.user)), after)
  {
  }

  /** After a logout nobody is signed in, and a later read changes nothing. */
  lemma LogoutSignsOut(storage: map<string, string>, parse: string -> Option<Json>)
    ensures var after := storage - {TokenKey, UserKey};
      TokenKey !in after && ReadUser(after, parse) == (None, after)
  {
  }

  /** The stored user must name one of the three roles: an object whose role is anything
      else is not a user. */
  lemma UnknownRoleIsInvalid(fields: map<string, Json>, role: string)
    requires role !in ["ADMIN", "MANAGER", "STAFF"]
    ensures !IsValidUser(JObj(fields["role" := JStr(role)]))
  {
  }
}
