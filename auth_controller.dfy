/**
 * The account handlers: register (a new organisation with its first user), login and logout.
 * Password hashing and token signing are library calls; they enter as the functions of a
 * `Crypto` value.
 */
module AuthController {
  import opened Wrappers
  import opened Js
  import opened Schema
  import opened Models
  import opened Http

  /**
   * The library calls the handlers make: `hash` stands for bcrypt.hash, `matches` for
   * bcrypt.compare, and `sign` for jwt.sign of the three claims with the server's secret.
   */
  datatype Crypto = Crypto(hash: string -> string, matches: (string, string) -> bool, sign: Identity -> string)

  /** bcrypt.compare accepts a password against the hash bcrypt.hash made of it. */
  ghost predicate Sound(c: Crypto) {
    forall p :: c.matches(p, c.hash(p))
  }

  /** The `user` object the register and login replies carry. */
  datatype UserInfo = UserInfo(id: int, name: Option<string>, email: string, organisationId: int, organisationName: string)

  /** The body of a successful register or login reply: the token and the user. */
  datatype Session = Session(token: string, user: UserInfo)

  /** The user a login with these credentials gets in as: the one with that email, if the password matches its hash. */
  function Authenticated(users: seq<User>, c: Crypto, email: string, password: string): (r: Option<User>)
    ensures r.Some? ==> r.value in users && r.value.email == email && c.matches(password, r.value.passwordHash)
    ensures (forall u :: u in users ==> u.email != email) ==> r.None?
  {
    match FindUserByEmail(users, email)
    case None => None
    case Some(u) => if c.matches(password, u.passwordHash) then Some(u) else None
  }

  /** With emails unique, a user whose stored hash was made from a password gets in with that password. */
  lemma RegisteredUserCanLogIn(users: seq<User>, orgs: seq<Organisation>, c: Crypto, u: User, password: string)
    requires UsersValid(users, orgs) && Sound(c)
    requires u in users && u.passwordHash == c.hash(password)
    ensures Authenticated(users, c, u.email, password) == Some(u)
  {
    var found := FindUserByEmail(users, u.email);
    assert found.Some? && found.value == u;
  }

  /** register. */
  method Register(store: Store, c: Crypto, orgName: JsValue, adminName: JsValue, email: JsValue, password: JsValue)
    returns (reply: Reply<Session>)
    requires store.Valid()
    modifies store`organisations, store`nextOrganisationId, store`users, store`nextUserId
    modifies store`logs, store`nextLogId, store`clock
    ensures store.Valid()
    ensures !Truthy(orgName) || !Truthy(email) || !Truthy(password) ==>
      && reply == Reply(400, "Organisation name, email, and password are required", None)
      && store.organisations == old(store.organisations) && store.users == old(store.users) && store.logs == old(store.logs)
    ensures Truthy(orgName) && Truthy(email) && Truthy(password) && FindUserByEmail(old(store.users), email.s).Some? ==>
      && reply == Reply(400, "User with this email already exists", None)
      && store.organisations == old(store.organisations) && store.users == old(store.users) && store.logs == old(store.logs)
    ensures Truthy(orgName) && Truthy(email) && Truthy(password) && FindUserByEmail(old(store.users), email.s).None? ==>
      var org := Organisation(old(store.nextOrganisationId), orgName.s);
      var user := User(old(store.nextUserId), org.id, email.s, c.hash(password.s), OrElse(adminName, Some("Admin")));
      && store.organisations == old(store.organisations) + [org]
      && store.users == old(store.users) + [user]
      && Appended(old(store.logs), store.logs,
           LogRecord(Some(org.id), Some(user.id), "organisation_created", Some(OrganisationCreated(org.id, orgName.s))))
      && reply == Reply(201, "Organisation and admin user created successfully",
           Some(Session(c.sign(Identity(user.id, org.id, email.s)), UserInfo(user.id, user.name, email.s, org.id, orgName.s))))
  {
    if !Truthy(orgName) || !Truthy(email) || !Truthy(password) {
      return Reply(400, "Organisation name, email, and password are required", None);
    }
    if FindUserByEmail(store.users, email.s).Some? {
      return Reply(400, "User with this email already exists", None);
    }
    var org := store.CreateOrganisation(orgName.s);
    var passwordHash := c.hash(password.s);
    assert org.id in OrganisationIds(store.organisations);
    var created := store.CreateUser(org.id, email.s, passwordHash, OrElse(adminName, Some("Admin")));
    assert created.Success?;
    var user := created.value;
    store.CreateLog(Some(org.id), Some(user.id), "organisation_created", Some(OrganisationCreated(org.id, orgName.s)));
    var token := c.sign(Identity(user.id, org.id, user.email));
    reply := Reply(201, "Organisation and admin user created successfully",
      Some(Session(token, UserInfo(user.id, user.name, user.email, org.id, org.name))));
  }

  /**
   * login: an unknown email and a wrong password get the same 401 reply; a success logs the
   * login under the user's organisation and hands out a token for the user's identity.
   */
  method Login(store: Store, c: Crypto, email: JsValue, password: JsValue) returns (reply: Reply<Session>)
    requires store.Valid()
    modifies store`logs, store`nextLogId, store`clock
    ensures store.Valid()
    ensures !Truthy(email) || !Truthy(password) ==>
      reply == Reply(400, "Email and password are required", None) && store.logs == old(store.logs)
    ensures Truthy(email) && Truthy(password) && Authenticated(store.users, c, email.s, password.s).None? ==>
      reply == Reply(401, "Invalid credentials", None) && store.logs == old(store.logs)
    ensures Truthy(email) && Truthy(password) && Authenticated(store.users, c, email.s, password.s).Some? ==>
      var user := Authenticated(store.users, c, email.s, password.s).value;
      && FindOrganisation(store.organisations, user.organisationId).Some?
      && Appended(old(store.logs), store.logs,
           LogRecord(Some(user.organisationId), Some(user.id), "user_login", Some(UserLogin(user.id, user.email))))
      && reply == Reply(200, "Login successful",
           Some(Session(c.sign(Identity(user.id, user.organisationId, user.email)),
             UserInfo(user.id, user.name, user.email, user.organisationId,
               FindOrganisation(store.organisations, user.organisationId).value.name))))
  {
    if !Truthy(email) || !Truthy(password) {
      return Reply(400, "Email and password are required", None);
    }
    var found := FindUserByEmail(store.users, email.s);
    if found.None? {
      return Reply(401, "Invalid credentials", None);
    }
    var user := found.value;
    if !c.matches(password.s, user.passwordHash) {
      return Reply(401, "Invalid credentials", None);
    }
    var org := FindOrganisation(store.organisations, user.organisationId);
    store.CreateLog(Some(user.organisationId), Some(user.id), "user_login", Some(UserLogin(user.id, user.email)));
    var token := c.sign(Identity(user.id, user.organisationId, user.email));
    reply := Reply(200, "Login successful",
      Some(Session(token, UserInfo(user.id, user.name, user.email, user.organisationId, org.value.name))));
  }

  /** logout: only a log row; the token stays valid until it expires. */
  method Logout(store: Store, caller: Identity) returns (reply: Reply<()>)
    requires store.Valid()
    modifies store`logs, store`nextLogId, store`clock
    ensures store.Valid()
    ensures reply == Reply(200, "Logout successful", None)
    ensures Appended(old(store.logs), store.logs,
      LogRecord(Some(caller.orgId), Some(caller.userId), "user_logout", Some(UserLogout(caller.userId))))
  {
    store.CreateLog(Some(caller.orgId), Some(caller.userId), "user_logout", Some(UserLogout(caller.userId)));
    reply := Reply(200, "Logout successful", None);
  }
}
