/** POST /register and POST /login over the users table. */
module UserRoutes {
  import opened Common
  import opened Crypto
  import opened Schema

  /** The JSON body of a successful register or login: { token, userId, email }. */
  datatype Session = Session(token: string, userId: Id, email: string)

  const CREDENTIALS_REQUIRED: string := "Email and password are required"
  const EMAIL_TAKEN: string := "Email already registered"
  const BAD_CREDENTIALS: string := "Invalid email or password"

  /** The users table holds a row with this email whose stored hash matches the password. */
  ghost predicate CanLogIn(users: map<Id, User>, b: Bcrypt, email: string, password: string)
  {
    exists id :: id in users && users[id].email == email && b.compare(password, users[id].password)
  }

  /** POST /register. Inserts one user whose stored password is the bcrypt hash of the
      given one (with a fresh salt), and answers 201 with a token for { id, email }. */
  method Register(db: Database, b: Bcrypt, j: Jwt, email: Option<string>, password: Option<string>,
                  salt: Salt, now: Time) returns (r: Reply<Session>)
    requires db.Valid()
    modifies db
    ensures db.Valid()
    ensures db.recipes == old(db.recipes) && db.ratings == old(db.ratings) && db.bookmarks == old(db.bookmarks)
    ensures !Truthy(email) || !Truthy(password) ==>
      r == Rejected(400, CREDENTIALS_REQUIRED) && db.users == old(db.users)
    ensures Truthy(email) && Truthy(password) && EmailTaken(old(db.users), email.value) ==>
      r == Rejected(400, EMAIL_TAKEN) && db.users == old(db.users)
    ensures Truthy(email) && Truthy(password) && !EmailTaken(old(db.users), email.value) ==>
      var id := old(db.nextId);
      && id !in old(db.users)
      && db.users == old(db.users)[id := User(id, email.value, b.hash(password.value, SALT_ROUNDS, salt), now, now)]
      && r == Sent(201, Session(j.sign(Claims(id, email.value), TOKEN_LIFETIME), id, email.value))
    ensures r.Sent? && BcryptSound(b) ==> CanLogIn(db.users, b, email.value, password.value)
  {
    if !Truthy(email) || !Truthy(password) {
      return Rejected(400, CREDENTIALS_REQUIRED);
    }
    if EmailTaken(db.users, email.value) {
      return Rejected(400, EMAIL_TAKEN);
    }
    var hashed := b.hash(password.value, SALT_ROUNDS, salt);
    var id := db.FreshId();
    var user := User(id, email.value, hashed, now, now);
    db.users := db.users[id := user];
    r := Sent(201, Session(IssueToken(j, user.id, user.email), user.id, user.email));
    assert db.users[id].email == email.value;
    if BcryptSound(b) {
      assert b.compare(password.value, db.users[id].password);
    }
  }

  /** POST /login. Reads the users table only: an unknown email and a wrong password get
      the same 400 reply; a match gets 200 and a token for that user's { id, email }. */
  method Login(db: Database, b: Bcrypt, j: Jwt, email: Option<string>, password: Option<string>)
    returns (r: Reply<Session>)
    requires db.Valid()
    ensures !Truthy(email) || !Truthy(password) ==> r == Rejected(400, CREDENTIALS_REQUIRED)
    ensures Truthy(email) && Truthy(password) && !CanLogIn(db.users, b, email.value, password.value) ==>
      r == Rejected(400, BAD_CREDENTIALS)
    ensures Truthy(email) && Truthy(password) && CanLogIn(db.users, b, email.value, password.value) ==>
      && r.Sent? && r.status == 200
      && r.body.userId in db.users
      && db.users[r.body.userId].email == email.value
      && b.compare(password.value, db.users[r.body.userId].password)
      && r.body == Session(j.sign(Claims(r.body.userId, email.value), TOKEN_LIFETIME), r.body.userId, email.value)
  {
    if !Truthy(email) || !Truthy(password) {
      return Rejected(400, CREDENTIALS_REQUIRED);
    }
    if !EmailTaken(db.users, email.value) {
      return Rejected(400, BAD_CREDENTIALS);
    }
    var id :| id in db.users && db.users[id].email == email.value;
    var user := db.users[id];
    if !b.compare(password.value, user.password) {
      return Rejected(400, BAD_CREDENTIALS);
    }
    r := Sent(200, Session(IssueToken(j, user.id, user.email), user.id, user.email));
  }

  /** Registering a new email and then logging in with the same credentials succeeds, for
      the same user, and the login token passes the bearer-token gate. */
  method RegisterThenLogin(db: Database, b: Bcrypt, j: Jwt, email: string, password: string,
                           salt: Salt, now: Time) returns (registered: Reply<Session>, loggedIn: Reply<Session>)
    requires db.Valid() && BcryptSound(b)
    requires email != "" && password != "" && !EmailTaken(db.users, email)
    modifies db
    ensures registered.Sent? && registered.status == 201
    ensures loggedIn.Sent? && loggedIn.status == 200
    ensures loggedIn.body.userId == registered.body.userId && loggedIn.body.email == email
  {
    registered := Register(db, b, j, Some(email), Some(password), salt, now);
    loggedIn := Login(db, b, j, Some(email), Some(password));
  }
}
