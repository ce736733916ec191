/** Registration and login (`authController`) over the user rows of the store. Password
    hashing, hash comparison and token signing are library calls, given here as
    functions. */
module AuthController {
  import opened Common
  import opened ApiResponse
  import opened ErrorHandler
  import Db

  /** The role names the store's enumeration accepts. */
  function ParseRole(s: string): (r: Option<Role>)
    ensures r == Some(ADMIN) <==> s == "ADMIN"
    ensures r == Some(MANAGER) <==> s == "MANAGER"
    ensures r == Some(STAFF) <==> s == "STAFF"
  {
    if s == "ADMIN" then Some(ADMIN)
    else if s == "MANAGER" then Some(MANAGER)
    else if s == "STAFF" then Some(STAFF)
    else None
  }

  /** The store's refusal of a role outside its enumeration. */
  const InvalidRole: Err := Err(None, "Invalid value for argument `role`. Expected Role.", None, "PrismaClientValidationError")

  /** The user as registration answers it: no password field. */
  datatype RegisteredUser = RegisteredUser(id: int, name: string, email: string, role: Role, createdAt: int)

  /** `registerUser`: an e-mail address already in use is refused with 400 and nothing is
      written; otherwise the user is stored with the hash of the password and the role
      (STAFF when none is given), and the answer leaves the password out. A role name the
      store does not know makes the insert fail. */
  method RegisterUser(db: Db.Store, name: string, email: string, password: string, role: Option<string>,
                      hash: string -> string, now: int) returns (o: Outcome<RegisteredUser>)
    requires db.Valid()
    modifies db
    ensures db.Valid()
    ensures Db.EmailTaken(old(db.users), email) ==>
      o == Sent(Reply(400, Error(Some("Email already in use"), Some(400), now))) && unchanged(db)
    ensures !Db.EmailTaken(old(db.users), email) && ParseRole(role.GetOr("STAFF")).None? ==>
      o == Forwarded(InvalidRole) && unchanged(db)
    ensures !Db.EmailTaken(old(db.users), email) && ParseRole(role.GetOr("STAFF")).Some? ==>
      var id := old(db.nextUserId);
      var r := ParseRole(role.GetOr("STAFF")).value;
      && id !in old(db.users)
      && db.users == old(db.users)[id := Db.User(name, email, hash(password), r, now)]
      && o == Sent(Reply(201, Success(RegisteredUser(id, name, email, r, now), Some("User registered successfully"), Some(201), now)))
    ensures db.tables == old(db.tables) && db.menuItems == old(db.menuItems) && db.orders == old(db.orders)
    ensures db.orderItems == old(db.orderItems) && db.invoices == old(db.invoices) && db.categories == old(db.categories)
  {
    if exists id :: id in db.users && db.users[id].email == email {
      return Sent(Reply(400, Error(Some("Email already in use"), Some(400), now)));
    }
    var hashed := hash(password);
    var r := ParseRole(role.GetOr("STAFF"));
    if r.None? {
      return Forwarded(InvalidRole);
    }
    var id := db.InsertUser(Db.User(name, email, hashed, r.value, now));
    o := Sent(Reply(201, Success(RegisteredUser(id, name, email, r.value, now), Some("User registered successfully"), Some(201), now)));
  }

  /** A registration without a role creates a STAFF user. */
  lemma RoleDefaultsToStaff(role: Option<string>)
    requires role.None?
    ensures ParseRole(role.GetOr("STAFF")) == Some(STAFF)
  {
  }

  /** The payload signed into a token. */
  datatype Claims = Claims(userId: int, role: Role)

  datatype LoginData = LoginData(user: AuthUser, token: string)

  /** The one answer for every failed login, so that a caller cannot tell an unknown
      address from a wrong password. */
  function InvalidCredentials(now: int): (r: Reply<LoginData>)
    ensures r.status == 401 && !r.body.success && r.body.message == "Invalid credentials"
  {
    Reply(401, Error(Some("Invalid credentials"), Some(401), now))
  }

  /** `loginUser`: reads the user with this address; an unknown address and a password
      that does not match its hash get the same 401; otherwise the answer carries the
      public fields of the user and a token signed over its id and role. Nothing is
      written. */
  method LoginUser(db: Db.Store, email: string, password: string,
                   compare: (string, string) -> bool, sign: Claims -> string, now: int)
    returns (o: Outcome<LoginData>)
    requires db.Valid()
    ensures !Db.EmailTaken(db.users, email) ==> o == Sent(InvalidCredentials(now))
    ensures forall id :: id in db.users && db.users[id].email == email ==>
      var u := db.users[id];
      if compare(password, u.passwordHash) then
        o == Sent(Reply(200, Success(LoginData(AuthUser(id, u.name, u.email, u.role), sign(Claims(id, u.role))),
                                     Some("Login successful"), None, now)))
      else
        o == Sent(InvalidCredentials(now))
  {
    if !exists id :: id in db.users && db.users[id].email == email {
      return Sent(InvalidCredentials(now));
    }
    var id :| id in db.users && db.users[id].email == email;
    var u := db.users[id];
    if !compare(password, u.passwordHash) {
      return Sent(InvalidCredentials(now));
    }
    var token := sign(Claims(id, u.role));
    o := Sent(Reply(200, Success(LoginData(AuthUser(id, u.name, u.email, u.role), token), Some("Login successful"), None, now)));
  }
}
