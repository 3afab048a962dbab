/**
 * Properties that span several handlers: a changed password is the one that
 * signs in afterwards, and a planned trip is removed with the book holding it.
 */
module Scenarios {
  import opened Entities
  import Books
  import Itineraries
  import Profiles
  import Auth

  /**
   * After a successful password reset, signing in with the user's email and
   * the new password succeeds, provided the comparison accepts a password
   * against its own hash.
   */
  lemma ResetPasswordThenLogin(db: Db, caller: Id, oldPassword: Field, newPassword: Field,
                               hash: string -> string, matches: (string, string) -> bool, now: Time)
    requires Inv(db)
    requires Profiles.ResetPassword(db, caller, oldPassword, newPassword, hash, matches).out.Ok?
    requires matches(newPassword.value, hash(newPassword.value))
    requires db.users[caller].email != ""
    ensures
      var after := Profiles.ResetPassword(db, caller, oldPassword, newPassword, hash, matches).db;
      && EmailsUnique(after.users)
      && Auth.Login(after, Some(db.users[caller].email), newPassword, matches, now).out == Ok(DisplayName(db.users[caller]))
  {
    Profiles.ResetPasswordKeepsInv(db, caller, oldPassword, newPassword, hash, matches);
    var after := Profiles.ResetPassword(db, caller, oldPassword, newPassword, hash, matches).db;
    var email := db.users[caller].email;
    assert after.users[caller].email == email;
    assert EmailTaken(after.users, email, None);
    assert Auth.UserWithEmail(after.users, email) == caller;
  }

  const Traveller: User := User("Ada", "Lovelace", "ada@example.com", "FEMALE", "1815-12-10", "hash",
                                None, None, None, None, 0, None)

  const Eiffel: Itineraries.NewItinerary :=
    Itineraries.NewItinerary(Some("Eiffel Tower"), Some("Evening visit"), Some("Landmark"),
                             Some("48.8584"), Some("2.2945"), Some("Champ de Mars"), Some("5"), None)

  /**
   * A book "Europe" with a page "Paris" planning the Eiffel Tower: deleting
   * the book deletes the page and the itinerary, and keeps the user.
   */
  lemma DeletingABookDeletesItsPlan()
    ensures
      var db0 := Db(map["u1" := Traveller], map[], map[], map[], map[]);
      var s1 := Books.CreateBook(db0, Some("u1"), Some("Europe"), "b1");
      var s2 := Books.AddPageToBook(s1.db, "b1", Some("Paris"), "p1");
      var s3 := Itineraries.AddNewItinerary(s2.db, "u1", "p1", Eiffel, [], "i1", "e1");
      var s4 := Books.DeleteBook(s3.db, Some("u1"), "b1");
      && s1.out == Ok("b1") && s2.out == Ok("p1") && s3.out == Ok("i1") && s4.out == Ok(())
      && "i1" in s3.db.itineraries && s3.db.itineraries["i1"].pageId == Some("p1")
      && s4.db == db0
  {
    var db0 := Db(map["u1" := Traveller], map[], map[], map[], map[]);
    var s1 := Books.CreateBook(db0, Some("u1"), Some("Europe"), "b1");
    assert s1.db.books.Keys == {"b1"};
    var s2 := Books.AddPageToBook(s1.db, "b1", Some("Paris"), "p1");
    assert s2.db.pages.Keys == {"p1"};
    var s3 := Itineraries.AddNewItinerary(s2.db, "u1", "p1", Eiffel, [], "i1", "e1");
    assert s3.db.itineraries.Keys == {"i1"};
    var s4 := Books.DeleteBook(s3.db, Some("u1"), "b1");
    assert s4.db.itineraries == map[];
    assert s4.db.pages == map[];
    assert s4.db.books == map[];
  }
}
