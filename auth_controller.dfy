/**
 * Sign-up and sign-in over a user table keyed by email. Password hashing,
 * password comparison and token signing are collaborators given as a
 * `Services` value; which of the handler's awaited calls throws, if any, is
 * given as a `Fault`.
 */
module AuthController {
  import opened JsValues

  /** A user row; `password` holds the stored hash. */
  datatype User = User(id: int, email: string, username: string, password: string)

  /** The `user` object of a successful response: no password field. */
  datatype UserSummary = UserSummary(id: int, email: string, username: string)

  datatype AuthBody =
    | Message(text: string)                        // { message: ... }
    | Session(token: string, user: UserSummary)    // { token, user }

  datatype AuthReply = AuthReply(status: int, body: AuthBody)

  /**
   * `hash` stands for `bcrypt.hash(p, 10)`, `compare` for `bcrypt.compare`,
   * `issue` for `jwt.sign({ userId, email }, secret, { expiresIn: "7d" })`.
   */
  datatype Services = Services(
    hash: string -> string,
    compare: (string, string) -> bool,
    issue: (int, string) -> string)

  /** A hash verifies against its own password and is never the password itself. */
  ghost predicate SoundHasher(svc: Services) {
    forall p: string :: svc.compare(p, svc.hash(p)) && svc.hash(p) != p
  }

  /** The awaited call that throws, if any. */
  datatype Fault = NoFault | LookupFails | HashFails | CreateFails | SignFails

  const MinPasswordLength := 6

  const InvalidFields :=
    AuthReply(400, Message("Missing or invalid required fields (password must be at least 6 characters)"))
  const EmailInUse := AuthReply(409, Message("Email already in use"))
  const MissingFields := AuthReply(400, Message("Missing required fields"))
  const InvalidCredentials := AuthReply(401, Message("Invalid credentials"))
  const InternalError := AuthReply(500, Message("Internal server error"))

  function Summary(u: User): UserSummary {
    UserSummary(u.id, u.email, u.username)
  }

  /** `!email || !username || !password || password.length < 6` */
  predicate SignUpFieldsInvalid(body: Body) {
    || !Truthy(Field(body, "email"))
    || !Truthy(Field(body, "username"))
    || !Truthy(Field(body, "password"))
    || LengthBelow(Field(body, "password"), MinPasswordLength)
  }

  /**
   * A sign-up that passes validation, finds no user with that email and gets
   * as far as inserting the row: every field is a string (the ORM and bcrypt
   * refuse anything else) and neither the lookup, the hash nor the insert throws.
   */
  predicate SignUpInserts(users: map<string, User>, body: Body, fault: Fault) {
    && !SignUpFieldsInvalid(body)
    && Field(body, "email").Str? && Field(body, "username").Str? && Field(body, "password").Str?
    && Field(body, "email").s !in users
    && (fault == NoFault || fault == SignFails)
  }

  /**
   * POST /api/auth/sign-in, a read-only function of the user table.
   */
  function SignIn(users: map<string, User>, body: Body, svc: Services, fault: Fault): (r: AuthReply)
    ensures !Truthy(Field(body, "email")) || !Truthy(Field(body, "password")) ==> r == MissingFields
    ensures r.status == 400 <==> !Truthy(Field(body, "email")) || !Truthy(Field(body, "password"))
    ensures (Truthy(Field(body, "email")) && Truthy(Field(body, "password")) &&
             (fault == LookupFails || !Field(body, "email").Str?)) ==> r == InternalError
    ensures (Truthy(Field(body, "email")) && Truthy(Field(body, "password")) && fault != LookupFails &&
             Field(body, "email").Str? && Field(body, "email").s in users &&
             (fault == HashFails || !Field(body, "password").Str?)) ==> r == InternalError
    ensures (Truthy(Field(body, "email")) && Truthy(Field(body, "password")) &&
             Field(body, "email").Str? && Field(body, "email").s in users &&
             Field(body, "password").Str? && fault == SignFails &&
             svc.compare(Field(body, "password").s, users[Field(body, "email").s].password)) ==> r == InternalError
    ensures (Truthy(Field(body, "email")) && Truthy(Field(body, "password")) && fault != LookupFails &&
             Field(body, "email").Str? && Field(body, "email").s !in users) ==> r == InvalidCredentials
    ensures (Truthy(Field(body, "email")) && Truthy(Field(body, "password")) && fault != LookupFails &&
             fault != HashFails && Field(body, "email").Str? && Field(body, "email").s in users &&
             Field(body, "password").Str? &&
             !svc.compare(Field(body, "password").s, users[Field(body, "email").s].password)) ==> r == InvalidCredentials
    ensures r.status in {200, 400, 401, 500}
    ensures r.status == 401 ==> r == InvalidCredentials
    ensures r.status == 500 ==> r == InternalError
    ensures r.status == 200 <==>
            && Truthy(Field(body, "email")) && Field(body, "email").Str?
            && Truthy(Field(body, "password")) && Field(body, "password").Str?
            && fault != LookupFails && fault != HashFails && fault != SignFails
            && Field(body, "email").s in users
            && svc.compare(Field(body, "password").s, users[Field(body, "email").s].password)
    ensures r.status == 200 ==>
            var u := users[Field(body, "email").s];
            r.body == Session(svc.issue(u.id, u.email), Summary(u))
  {
    var email := Field(body, "email");
    var password := Field(body, "password");
    if !Truthy(email) || !Truthy(password) then MissingFields
    // findUnique throws on an outage or on an email that is not a string
    else if fault == LookupFails || !email.Str? then InternalError
    else if email.s !in users then InvalidCredentials
    else
      var user := users[email.s];
      // bcrypt.compare throws on an argument that is not a string
      if fault == HashFails || !password.Str? then InternalError
      else if !svc.compare(password.s, user.password) then InvalidCredentials
      else if fault == SignFails then InternalError
      else AuthReply(200, Session(svc.issue(user.id, user.email), Summary(user)))
  }

  /**
   * An unknown email and a wrong password get the same response, so the
   * response does not tell whether the account exists.
   */
  lemma CredentialFailuresIndistinguishable(
    unknown: map<string, User>, known: map<string, User>, body: Body, svc: Services, fault: Fault)
    requires Truthy(Field(body, "email")) && Field(body, "email").Str?
    requires Truthy(Field(body, "password")) && Field(body, "password").Str?
    requires fault != LookupFails && fault != HashFails
    requires Field(body, "email").s !in unknown
    requires Field(body, "email").s in known
    requires !svc.compare(Field(body, "password").s, known[Field(body, "email").s].password)
    ensures SignIn(unknown, body, svc, fault) == SignIn(known, body, svc, fault) == InvalidCredentials
  {
  }

  /**
   * A truthy password that is not a string (a number, say) does tell the two
   * cases apart: an unknown email gets 401, while for a stored email
   * `bcrypt.compare` throws on the argument and the reply is 500.
   */
  lemma NonStringPasswordRevealsAccount(users: map<string, User>, email: string, password: Value, svc: Services)
    requires email != "" && email in users
    requires Truthy(password) && !password.Str?
    ensures var body := map["email" := Str(email), "password" := password];
            && SignIn(users - {email}, body, svc, NoFault) == InvalidCredentials
            && SignIn(users, body, svc, NoFault) == InternalError
  {
  }

  /**
   * The stored hash reaches the response only through the comparison: two
   * tables that differ only in a user's stored hash, both accepting the
   * password, give the same response.
   */
  lemma SignInHidesStoredHash(
    users: map<string, User>, otherHash: string, body: Body, svc: Services, fault: Fault)
    requires Field(body, "email").Str? && Field(body, "email").s in users
    requires Field(body, "password").Str?
    requires var u := users[Field(body, "email").s];
             svc.compare(Field(body, "password").s, u.password) ==
             svc.compare(Field(body, "password").s, otherHash)
    ensures var e := Field(body, "email").s;
            SignIn(users, body, svc, fault) ==
            SignIn(users[e := users[e].(password := otherHash)], body, svc, fault)
  {
  }

  /**
   * After a user is stored with the hash of a password, signing in with that
   * email and password succeeds and answers with that user's token and summary.
   */
  lemma SignInAfterSignUp(
    users: map<string, User>, id: int, email: string, username: string, password: string,
    body: Body, svc: Services)
    requires SoundHasher(svc)
    requires email != "" && |password| >= MinPasswordLength
    requires Field(body, "email") == Str(email) && Field(body, "password") == Str(password)
    ensures var stored := users[email := User(id, email, username, svc.hash(password))];
            SignIn(stored, body, svc, NoFault) ==
            AuthReply(200, Session(svc.issue(id, email), UserSummary(id, email, username)))
  {
  }

  class UserStore {
    /** The user table, keyed by its unique email column. */
    var users: map<string, User>
    /** The id the database assigns to the next user it inserts. */
    var nextId: int

    ghost predicate Valid()
      reads this
    {
      && (forall e :: e in users ==> users[e].email == e && users[e].id < nextId)
      && (forall e1, e2 :: e1 in users && e2 in users && e1 != e2 ==> users[e1].id != users[e2].id)
    }

    constructor ()
      ensures Valid() && users == map[] && nextId == 1
    {
      users := map[];
      nextId := 1;
    }

    /**
     * POST /api/auth/sign-up.
     */
    method SignUp(body: Body, svc: Services, fault: Fault) returns (r: AuthReply)
      requires Valid()
      modifies this
      ensures Valid()
      ensures SignUpFieldsInvalid(body) ==> r == InvalidFields
      ensures (!SignUpFieldsInvalid(body) && (fault == LookupFails || !Field(body, "email").Str?))
              ==> r == InternalError
      ensures (!SignUpFieldsInvalid(body) && fault != LookupFails && Field(body, "email").Str? &&
               Field(body, "email").s in old(users)) ==> r == EmailInUse
      ensures (!SignUpFieldsInvalid(body) && fault != LookupFails && Field(body, "email").Str? &&
               Field(body, "email").s !in old(users) && !SignUpInserts(old(users), body, fault))
              ==> r == InternalError
      ensures r.status in {201, 400, 409, 500}
      ensures r.status == 201 <==> SignUpInserts(old(users), body, fault) && fault == NoFault
      ensures SignUpInserts(old(users), body, fault) ==>
              forall e :: e in old(users) ==> old(users)[e].id != old(nextId)
      ensures SignUpInserts(old(users), body, fault) ==>
              && var email := Field(body, "email").s;
                 var user := User(old(nextId), email, Field(body, "username").s, svc.hash(Field(body, "password").s));
                 && users == old(users)[email := user]
                 && nextId == old(nextId) + 1
                 && (fault == NoFault ==>
                       r == AuthReply(201, Session(svc.issue(user.id, email), Summary(user))))
                 && (fault == SignFails ==> r == InternalError)
      ensures SignUpInserts(old(users), body, fault) && SoundHasher(svc) ==>
              users[Field(body, "email").s].password != Field(body, "password").s
      ensures !SignUpInserts(old(users), body, fault) ==> users == old(users) && nextId == old(nextId)
    {
      var email := Field(body, "email");
      var username := Field(body, "username");
      var password := Field(body, "password");
      if !Truthy(email) || !Truthy(username) || !Truthy(password) || LengthBelow(password, MinPasswordLength) {
        return InvalidFields;
      }
      // findUnique throws on an outage or on an email that is not a string
      if fault == LookupFails || !email.Str? {
        return InternalError;
      }
      if email.s in users {
        return EmailInUse;
      }
      // bcrypt.hash throws on a password that is not a string
      if fault == HashFails || !password.Str? {
        return InternalError;
      }
      var hashed := svc.hash(password.s);
      // create throws on an outage, on a lost race for the unique email, or on a non-string username
      if fault == CreateFails || !username.Str? {
        return InternalError;
      }
      var user := User(nextId, email.s, username.s, hashed);
      users := users[email.s := user];
      nextId := nextId + 1;
      if fault == SignFails {
        // the row stays inserted
        return InternalError;
      }
      r := AuthReply(201, Session(svc.issue(user.id, user.email), Summary(user)));
    }
  }

  /**
   * A client of the two handlers: a fresh registration followed by a sign-in
   * with the same credentials succeeds and names the user just created.
   */
  method SignUpThenSignIn(store: UserStore, email: string, username: string, password: string, svc: Services)
    returns (up: AuthReply, down: AuthReply)
    requires store.Valid() && SoundHasher(svc)
    requires email != "" && username != "" && |password| >= MinPasswordLength
    requires email !in store.users
    modifies store
    ensures up.status == 201 && down.status == 200
    ensures up.body.Session? && down.body.Session? && down.body.user == up.body.user
    ensures email in store.users && store.users == old(store.users)[email := store.users[email]]
    ensures store.users[email].password == svc.hash(password) != password
  {
    var body := map["email" := Str(email), "username" := Str(username), "password" := Str(password)];
    up := store.SignUp(body, svc, NoFault);
    down := SignIn(store.users, map["email" := Str(email), "password" := Str(password)], svc, NoFault);
  }
}
