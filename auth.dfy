/**
 * Sign-up, sign-in and the identity of the signed-in user. Token signing and
 * cookies are not modelled; a session is the id and email it carries.
 */
module Auth {
  import opened Entities

  /** The body fields of a sign-up request. */
  datatype RegisterForm = RegisterForm(
    firstName: Field, lastName: Field, email: Field, gender: Field,
    dateOfBirth: Field, password: Field, confirmPassword: Field)

  predicate Complete(f: RegisterForm) {
    && Truthy(f.firstName) && Truthy(f.lastName) && Truthy(f.email) && Truthy(f.gender)
    && Truthy(f.dateOfBirth) && Truthy(f.password) && Truthy(f.confirmPassword)
  }

  function NewUser(f: RegisterForm, hash: string -> string, now: Time): User
    requires Complete(f)
  {
    User(f.firstName.value, f.lastName.value, f.email.value, f.gender.value, f.dateOfBirth.value,
         hash(f.password.value), None, None, None, None, now, None)
  }

  /**
   * register. `hash` is the password hashing function, `now` the clock and
   * `newId` the id the database generates; the answer is the new user's name.
   */
  function Register(db: Db, f: RegisterForm, hash: string -> string, now: Time, newId: Id): (s: Step<string>)
    ensures !Complete(f) <==> s.out == Fail(Forbidden, MissingFields)
    ensures Complete(f) && f.password.value != f.confirmPassword.value <==> s.out == Fail(BadRequest, PasswordMismatch)
    ensures Complete(f) && f.password.value == f.confirmPassword.value && EmailTaken(db.users, f.email.value, None)
            <==> s.out == Fail(BadRequest, UserExists)
    ensures s.out.Fail? ==> s.db == db
    ensures s.out.Ok? <==>
      Complete(f) && f.password.value == f.confirmPassword.value && !EmailTaken(db.users, f.email.value, None)
      && newId !in db.users
    ensures s.out.Ok? ==>
      && s.db.users.Keys == db.users.Keys + {newId}
      && var u := s.db.users[newId];
      && u.firstName == f.firstName.value && u.lastName == f.lastName.value
      && u.email == f.email.value && u.gender == f.gender.value && u.dateOfBirth == f.dateOfBirth.value
      && u.password == hash(f.password.value)
      && u.bio == None && u.profileImage == None && u.phoneNumber == None && u.socialLinks == None
      && u.lastLogin == None && u.dateJoined == now
      && s.out.value == f.firstName.value + " " + f.lastName.value
      && (forall u :: u in db.users ==> s.db.users[u] == db.users[u])
      && s.db.(users := db.users) == db
  {
    if !Complete(f) then Step(Fail(Forbidden, MissingFields), db)
    else if f.password.value != f.confirmPassword.value then Step(Fail(BadRequest, PasswordMismatch), db)
    else if EmailTaken(db.users, f.email.value, None) then Step(Fail(BadRequest, UserExists), db)
    else if newId in db.users then Step(Fail(ServerError, StoreError), db)
    else
      var u := NewUser(f, hash, now);
      Step(Ok(DisplayName(u)), db.(users := db.users[newId := u]))
  }

  /** Register keeps the store invariant. */
  lemma RegisterKeepsInv(db: Db, f: RegisterForm, hash: string -> string, now: Time, newId: Id)
    requires Inv(db)
    ensures Inv(Register(db, f, hash, now, newId).db)
  {
  }

  /** Signing up twice with the same form never creates a second account with that email. */
  lemma RegisterTwiceRefused(db: Db, f: RegisterForm, hash: string -> string, now: Time, id1: Id, id2: Id)
    requires Register(db, f, hash, now, id1).out.Ok?
    ensures Register(Register(db, f, hash, now, id1).db, f, hash, now, id2).out == Fail(BadRequest, UserExists)
  {
    var first := Register(db, f, hash, now, id1);
    assert first.db.users[id1].email == f.email.value;
  }

  /** The user with this email; unique because the email column has a unique index. */
  function UserWithEmail(users: map<Id, User>, email: string): (u: Id)
    requires EmailsUnique(users)
    requires exists u :: u in users && users[u].email == email
    ensures u in users && users[u].email == email
    ensures forall v :: v in users && users[v].email == email ==> v == u
  {
    var u :| u in users && users[u].email == email; u
  }

  /**
   * login. `matches` is the hash comparison and `now` the clock; the answer
   * is the user's name.
   */
  function Login(db: Db, email: Field, password: Field, matches: (string, string) -> bool, now: Time): (s: Step<string>)
    requires EmailsUnique(db.users)
    ensures !Truthy(email) || !Truthy(password) <==> s.out == Fail(BadRequest, MissingFields)
    ensures Truthy(email) && Truthy(password) && !EmailTaken(db.users, email.value, None)
            <==> s.out == Fail(Unauthorized, NotRegistered)
    ensures s.out.Fail? ==> s.db == db
    ensures s.out.Fail? && s.out.reason !in {MissingFields, NotRegistered} ==> s.out == Fail(Unauthorized, WrongPassword)
    ensures Truthy(email) && Truthy(password) ==>
      forall u :: u in db.users && db.users[u].email == email.value ==>
        && (s.out.Ok? <==> matches(password.value, db.users[u].password))
        && (s.out == Fail(Unauthorized, WrongPassword) <==> !matches(password.value, db.users[u].password))
    ensures s.out.Ok? ==>
      && Truthy(email) && Truthy(password)
      && exists u :: u in db.users && db.users[u].email == email.value
           && matches(password.value, db.users[u].password)
           && s.db.users == db.users[u := db.users[u].(lastLogin := Some(now))]
           && s.out.value == DisplayName(db.users[u])
    ensures s.out.Ok? ==> s.db.(users := db.users) == db && s.db.users.Keys == db.users.Keys
  {
    if !Truthy(email) || !Truthy(password) then Step(Fail(BadRequest, MissingFields), db)
    else if !EmailTaken(db.users, email.value, None) then Step(Fail(Unauthorized, NotRegistered), db)
    else
      var u := UserWithEmail(db.users, email.value);
      if !matches(password.value, db.users[u].password) then Step(Fail(Unauthorized, WrongPassword), db)
      else Step(Ok(DisplayName(db.users[u])), db.(users := db.users[u := db.users[u].(lastLogin := Some(now))]))
  }

  /** Login keeps the store invariant. */
  lemma LoginKeepsInv(db: Db, email: Field, password: Field, matches: (string, string) -> bool, now: Time)
    requires Inv(db)
    ensures Inv(Login(db, email, password, matches, now).db)
  {
  }

  /** What the session carries once its token is verified. */
  datatype Principal = Principal(id: Id, email: string)

  datatype Identity = Identity(name: string, email: string)

  /**
   * currentUser. The email comes from the session, not from the row; a session
   * whose user no longer exists gets the name "undefined undefined".
   */
  function CurrentUser(db: Db, session: Option<Principal>): (r: Outcome<Identity>)
    ensures session.None? || session.value.id == "" || session.value.email == "" <==> r == Fail(BadRequest, NoIdentity)
    ensures r.Fail? ==> r == Fail(BadRequest, NoIdentity)
    ensures r.Ok? ==>
      && r.value.email == session.value.email
      && (session.value.id in db.users ==> r.value.name == DisplayName(db.users[session.value.id]))
      && (session.value.id !in db.users ==> r.value.name == "undefined undefined")
  {
    if session.None? || session.value.id == "" || session.value.email == "" then Fail(BadRequest, NoIdentity)
    else if session.value.id in db.users then Ok(Identity(DisplayName(db.users[session.value.id]), session.value.email))
    else Ok(Identity("undefined undefined", session.value.email))
  }
}
