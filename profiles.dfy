/**
 * The profile handlers of the signed-in user: reading the profile, merging
 * changes into it, and changing the password.
 */
module Profiles {
  import opened Entities

  /** A user row as the profile read returns it: every column but the password hash. */
  datatype Profile = Profile(
    firstName: string, lastName: string, email: string, gender: string, dateOfBirth: string,
    bio: Option<string>, profileImage: Option<string>, phoneNumber: Option<string>,
    socialLinks: Option<string>, dateJoined: Time, lastLogin: Option<Time>)

  function ProfileOf(u: User): Profile {
    Profile(u.firstName, u.lastName, u.email, u.gender, u.dateOfBirth, u.bio, u.profileImage,
            u.phoneNumber, u.socialLinks, u.dateJoined, u.lastLogin)
  }

  /** getUserProfile for the user id the session carries. */
  function GetUserProfile(db: Db, caller: Id): (r: Outcome<Profile>)
    ensures caller !in db.users <==> r == Fail(NotFound, UserNotFound)
    ensures r.Ok? <==> caller in db.users
    ensures r.Ok? ==>
      var u := db.users[caller];
      && r.value.firstName == u.firstName && r.value.lastName == u.lastName
      && r.value.email == u.email && r.value.gender == u.gender && r.value.dateOfBirth == u.dateOfBirth
      && r.value.bio == u.bio && r.value.profileImage == u.profileImage
      && r.value.phoneNumber == u.phoneNumber && r.value.socialLinks == u.socialLinks
      && r.value.dateJoined == u.dateJoined && r.value.lastLogin == u.lastLogin
  {
    if caller !in db.users then Fail(NotFound, UserNotFound) else Ok(ProfileOf(db.users[caller]))
  }

  /** The profile does not depend on the password hash: two rows that differ only there read the same. */
  lemma ProfileHidesPassword(db: Db, caller: Id, password: string)
    requires caller in db.users
    ensures GetUserProfile(db, caller) ==
            GetUserProfile(db.(users := db.users[caller := db.users[caller].(password := password)]), caller)
  {
  }

  /** The body fields of updateUserProfile. `socialLinks` is read but never written. */
  datatype ProfileChanges = ProfileChanges(
    firstName: Field, lastName: Field, bio: Field, profileImage: Field, socialLinks: Field,
    email: Field, phoneNumber: Field, gender: Field)

  /** Every field of the update `data`: the new value when truthy, else the current one. */
  function MergeProfile(u: User, c: ProfileChanges): User {
    u.(firstName := OrElse(c.firstName, u.firstName),
       lastName := OrElse(c.lastName, u.lastName),
       bio := OrKeep(c.bio, u.bio),
       profileImage := OrKeep(c.profileImage, u.profileImage),
       email := OrElse(c.email, u.email),
       phoneNumber := OrKeep(c.phoneNumber, u.phoneNumber),
       gender := OrElse(c.gender, u.gender))
  }

  /**
   * updateUserProfile. It answers with the row as it was read before the
   * update; an email another user already has breaks the unique index and
   * the update throws.
   */
  function UpdateUserProfile(db: Db, caller: Id, c: ProfileChanges): (s: Step<User>)
    ensures caller !in db.users <==> s.out == Fail(NotFound, UserNotFound)
    ensures s.out.Fail? ==> s.db == db
    ensures caller in db.users && EmailTaken(db.users, OrElse(c.email, db.users[caller].email), Some(caller))
            <==> s.out == Fail(ServerError, StoreError)
    ensures s.out.Ok? <==>
      caller in db.users && !EmailTaken(db.users, OrElse(c.email, db.users[caller].email), Some(caller))
    ensures s.out.Ok? ==>
      && caller in db.users && caller in s.db.users
      && var was := db.users[caller];
      var now := s.db.users[caller];
      && s.out.value == was
      && s.db.users.Keys == db.users.Keys
      && (Truthy(c.firstName) ==> now.firstName == c.firstName.value)
      && (!Truthy(c.firstName) ==> now.firstName == was.firstName)
      && (Truthy(c.lastName) ==> now.lastName == c.lastName.value)
      && (!Truthy(c.lastName) ==> now.lastName == was.lastName)
      && (Truthy(c.email) ==> now.email == c.email.value)
      && (!Truthy(c.email) ==> now.email == was.email)
      && (Truthy(c.gender) ==> now.gender == c.gender.value)
      && (!Truthy(c.gender) ==> now.gender == was.gender)
      && (Truthy(c.bio) ==> now.bio == c.bio) && (!Truthy(c.bio) ==> now.bio == was.bio)
      && (Truthy(c.profileImage) ==> now.profileImage == c.profileImage)
      && (!Truthy(c.profileImage) ==> now.profileImage == was.profileImage)
      && (Truthy(c.phoneNumber) ==> now.phoneNumber == c.phoneNumber)
      && (!Truthy(c.phoneNumber) ==> now.phoneNumber == was.phoneNumber)
      && now.password == was.password && now.socialLinks == was.socialLinks
      && now.dateOfBirth == was.dateOfBirth && now.dateJoined == was.dateJoined && now.lastLogin == was.lastLogin
      && (forall u :: u in db.users && u != caller ==> s.db.users[u] == db.users[u])
      && s.db.(users := db.users) == db
  {
    if caller !in db.users then Step(Fail(NotFound, UserNotFound), db)
    else
      var was := db.users[caller];
      var now := MergeProfile(was, c);
      if EmailTaken(db.users, now.email, Some(caller)) then Step(Fail(ServerError, StoreError), db)
      else Step(Ok(was), db.(users := db.users[caller := now]))
  }

  /** UpdateUserProfile keeps the store invariant. */
  lemma UpdateUserProfileKeepsInv(db: Db, caller: Id, c: ProfileChanges)
    requires Inv(db)
    ensures Inv(UpdateUserProfile(db, caller, c).db)
  {
  }

  /** A body with nothing truthy in it leaves the store exactly as it was. */
  lemma EmptyProfileChangeIsNoOp(db: Db, caller: Id, c: ProfileChanges)
    requires Inv(db) && caller in db.users
    requires !Truthy(c.firstName) && !Truthy(c.lastName) && !Truthy(c.bio) && !Truthy(c.profileImage)
    requires !Truthy(c.email) && !Truthy(c.phoneNumber) && !Truthy(c.gender)
    ensures UpdateUserProfile(db, caller, c) == Step(Ok(db.users[caller]), db)
  {
    var was := db.users[caller];
    assert MergeProfile(was, c) == was;
    assert !EmailTaken(db.users, was.email, Some(caller));
    assert db.users[caller := was] == db.users;
  }

  /** Sending the same changes twice leaves the store as sending them once. */
  lemma UpdateUserProfileIdempotent(db: Db, caller: Id, c: ProfileChanges)
    requires UpdateUserProfile(db, caller, c).out.Ok?
    ensures
      var once := UpdateUserProfile(db, caller, c);
      var twice := UpdateUserProfile(once.db, caller, c);
      twice.out.Ok? && twice.db == once.db
  {
    var once := UpdateUserProfile(db, caller, c);
    var now := once.db.users[caller];
    assert MergeProfile(now, c) == now;
    assert once.db.users[caller := now] == once.db.users;
  }

  /**
   * resetPassword for the session's user. `matches` is the hash comparison and
   * `hash` the hashing function, both treated as given functions.
   */
  function ResetPassword(db: Db, caller: Id, oldPassword: Field, newPassword: Field,
                         hash: string -> string, matches: (string, string) -> bool): (s: Step<()>)
    ensures !Truthy(oldPassword) || !Truthy(newPassword) <==> s.out == Fail(Unauthorized, MissingFields)
    ensures Truthy(oldPassword) && Truthy(newPassword) && caller !in db.users <==> s.out == Fail(NotFound, UserNotFound)
    ensures Truthy(oldPassword) && Truthy(newPassword) && caller in db.users
            && !matches(oldPassword.value, db.users[caller].password)
            <==> s.out == Fail(Unauthorized, InvalidCredentials)
    ensures s.out.Ok? <==>
      Truthy(oldPassword) && Truthy(newPassword) && caller in db.users
      && matches(oldPassword.value, db.users[caller].password)
    ensures s.out.Fail? ==> s.db == db
    ensures s.out.Ok? ==>
      && caller in db.users
      && s.db.users == db.users[caller := db.users[caller].(password := hash(newPassword.value))]
      && s.db.(users := db.users) == db
  {
    if !Truthy(newPassword) || !Truthy(oldPassword) then Step(Fail(Unauthorized, MissingFields), db)
    else if caller !in db.users then Step(Fail(NotFound, UserNotFound), db)
    else if !matches(oldPassword.value, db.users[caller].password) then Step(Fail(Unauthorized, InvalidCredentials), db)
    else Step(Ok(()), db.(users := db.users[caller := db.users[caller].(password := hash(newPassword.value))]))
  }

  /** ResetPassword keeps the store invariant. */
  lemma ResetPasswordKeepsInv(db: Db, caller: Id, oldPassword: Field, newPassword: Field,
                              hash: string -> string, matches: (string, string) -> bool)
    requires Inv(db)
    ensures Inv(ResetPassword(db, caller, oldPassword, newPassword, hash, matches).db)
  {
  }
}
