/**
 * The database as the handlers change it: one object holding the five tables,
 * with one method per mutating handler. Each method runs the handler's guards
 * in order, returns at the first that fails, and otherwise writes the tables
 * in the order the handler's ORM calls do. Each is proved to answer and to
 * leave the tables exactly as the handler's transition function says, and to
 * keep the store invariant.
 */
module Store {
  import opened Entities
  import Books
  import Itineraries
  import Pages
  import Profiles
  import Auth

  class EntityStore {
    var users: map<Id, User>
    var books: map<Id, Book>
    var pages: map<Id, Page>
    var itineraries: map<Id, Itinerary>
    var experiences: map<Id, Experience>

    /** The tables as one value, for the read handlers and the specifications. */
    function Snapshot(): Db
      reads this
    {
      Db(users, books, pages, itineraries, experiences)
    }

    ghost predicate Valid()
      reads this
    {
      Inv(Snapshot())
    }

    constructor ()
      ensures Valid()
      ensures Snapshot() == EmptyDb()
    {
      users, books, pages, itineraries, experiences := map[], map[], map[], map[], map[];
    }

    // -------------------------------------------------------------------------
    // Books

    method CreateBook(caller: Option<Id>, title: Field, newId: Id) returns (r: Outcome<Id>)
      requires Valid()
      modifies this
      ensures Valid()
      ensures Step(r, Snapshot()) == Books.CreateBook(old(Snapshot()), caller, title, newId)
    {
      Books.CreateBookKeepsInv(Snapshot(), caller, title, newId);
      if caller.None? {
        return Fail(Unauthorized, NotLoggedIn);
      }
      if !Truthy(title) {
        return Fail(NotFound, TitleRequired);
      }
      if caller.value !in users || newId in books {
        return Fail(ServerError, StoreError);
      }
      books := books[newId := Books.NewBook(title.value, caller.value)];
      r := Ok(newId);
    }

    method AddBookDetails(caller: Option<Id>, bookId: Id, u: Books.BookUpdate) returns (r: Outcome<Book>)
      requires Valid()
      modifies this
      ensures Valid()
      ensures Step(r, Snapshot()) == Books.AddBookDetails(old(Snapshot()), caller, bookId, u)
    {
      Books.AddBookDetailsKeepsInv(Snapshot(), caller, bookId, u);
      if caller.None? {
        return Fail(Unauthorized, NotLoggedIn);
      }
      if Books.NothingToUpdate(u) {
        return Fail(BadRequest, NoUpdateData);
      }
      if Books.TagsInvalid(u) {
        return Fail(BadRequest, InvalidTags);
      }
      if bookId !in books {
        return Fail(NotFound, BookNotFound);
      }
      if books[bookId].addedById != caller.value {
        return Fail(Forbidden, NotOwner);
      }
      if !Books.EnumsAccepted(u) {
        return Fail(ServerError, StoreError);
      }
      // updateData, field by field
      ghost var db0 := Snapshot();
      var tags := Books.ParsedTags(u);
      var b := books[bookId];
      if Truthy(u.title) {
        b := b.(title := u.title.value);
      }
      if u.description.Some? {
        b := b.(description := if u.description.value == "" then None else u.description);
      }
      if |tags| > 0 {
        b := b.(tags := tags);
      }
      if u.file.Some? {
        b := b.(imageUrl := u.file);
      }
      if Truthy(u.visibility) {
        b := b.(visibility := Books.ParseVisibility(u.visibility.value).value);
      }
      if Truthy(u.status) {
        b := b.(status := Books.ParseStatus(u.status.value).value);
      }
      assert b == Books.MergeBook(db0.books[bookId], u);
      books := books[bookId := b];
      r := Ok(b);
    }

    /** The three deletes of the transaction, in order; a failed guard leaves all tables untouched. */
    method DeleteBook(caller: Option<Id>, bookId: Id) returns (r: Outcome<()>)
      requires Valid()
      modifies this
      ensures Valid()
      ensures Step(r, Snapshot()) == Books.DeleteBook(old(Snapshot()), caller, bookId)
    {
      Books.DeleteBookKeepsInv(Snapshot(), caller, bookId);
      if bookId !in books {
        return Fail(NotFound, BookNotFound);
      }
      if caller != Some(books[bookId].addedById) {
        return Fail(Forbidden, NotOwner);
      }
      var db0 := Snapshot();
      itineraries := map i | i in itineraries && !OnBook(db0, itineraries[i], bookId) :: itineraries[i];
      pages := map p | p in pages && pages[p].bookId != bookId :: pages[p];
      books := books - {bookId};
      r := Ok(());
    }

    method AddPageToBook(bookId: Id, title: Field, newId: Id) returns (r: Outcome<Id>)
      requires Valid()
      modifies this
      ensures Valid()
      ensures Step(r, Snapshot()) == Books.AddPageToBook(old(Snapshot()), bookId, title, newId)
    {
      Books.AddPageToBookKeepsInv(Snapshot(), bookId, title, newId);
      if bookId !in books {
        return Fail(NotFound, BookNotFound);
      }
      if newId in pages {
        return Fail(ServerError, StoreError);
      }
      pages := pages[newId := Books.NewPage(bookId, title)];
      r := Ok(newId);
    }

    /** Detach the page's itineraries, then delete the page, in one transaction. */
    method DeletePageFromBook(bookId: Id, pageId: Id) returns (r: Outcome<()>)
      requires Valid()
      modifies this
      ensures Valid()
      ensures Step(r, Snapshot()) == Books.DeletePageFromBook(old(Snapshot()), bookId, pageId)
    {
      Books.DeletePageFromBookKeepsInv(Snapshot(), bookId, pageId);
      if bookId !in books {
        return Fail(NotFound, BookNotFound);
      }
      if !(pageId in pages && pages[pageId].bookId == bookId) {
        return Fail(NotFound, PageNotInBook);
      }
      ghost var db0 := Snapshot();
      itineraries := map i | i in itineraries ::
        if itineraries[i].pageId == Some(pageId) then itineraries[i].(pageId := None) else itineraries[i];
      assert itineraries == Books.DetachFromPage(db0, pageId).itineraries;
      pages := pages - {pageId};
      r := Ok(());
    }

    // -------------------------------------------------------------------------
    // Itineraries and experiences

    method AddExperience(caller: Option<Id>, itineraryId: Id, comment: Field, newId: Id) returns (r: Outcome<Id>)
      requires Valid()
      modifies this
      ensures Valid()
      ensures Step(r, Snapshot()) == Itineraries.AddExperience(old(Snapshot()), caller, itineraryId, comment, newId)
    {
      Itineraries.AddExperienceKeepsInv(Snapshot(), caller, itineraryId, comment, newId);
      if caller.None? {
        return Fail(Unauthorized, NotLoggedIn);
      }
      if caller.value !in users || itineraryId !in itineraries || newId in experiences {
        return Fail(ServerError, StoreError);
      }
      experiences := experiences[newId := Experience(comment, [], caller.value, itineraryId)];
      r := Ok(newId);
    }

    /** Read the votes, filter or push, and write the list back. */
    method ToggleUpvote(caller: Option<Id>, experienceId: Id) returns (r: Outcome<Itineraries.Toggled>)
      requires Valid()
      modifies this
      ensures Valid()
      ensures Step(r, Snapshot()) == Itineraries.ToggleUpvote(old(Snapshot()), caller, experienceId)
    {
      Itineraries.ToggleUpvoteKeepsInv(Snapshot(), caller, experienceId);
      if caller.None? {
        return Fail(Unauthorized, NotLoggedIn);
      }
      if experienceId !in experiences {
        return Fail(NotFound, ExperienceNotFound);
      }
      var was := experiences[experienceId];
      var hasUpvoted := caller.value in was.upVotes;
      var votes: seq<Id>;
      if hasUpvoted {
        votes := Itineraries.FilterOut(was.upVotes, caller.value);
      } else {
        votes := was.upVotes + [caller.value];
      }
      experiences := experiences[experienceId := was.(upVotes := votes)];
      r := Ok(Itineraries.Toggled(!hasUpvoted, votes, |votes|));
    }

    /** Two inserts, not joined in a transaction: the itinerary stays if the experience insert fails. */
    method AddNewItinerary(creator: Id, pageId: Id, f: Itineraries.NewItinerary, uploads: seq<string>,
                           newId: Id, experienceId: Id) returns (r: Outcome<Id>)
      requires Valid()
      modifies this
      ensures Valid()
      ensures Step(r, Snapshot()) ==
              Itineraries.AddNewItinerary(old(Snapshot()), creator, pageId, f, uploads, newId, experienceId)
    {
      Itineraries.AddNewItineraryKeepsInv(Snapshot(), creator, pageId, f, uploads, newId, experienceId);
      if creator !in users {
        return Fail(NotFound, NotRegistered);
      }
      if pageId !in pages {
        return Fail(NotFound, PageNotFound);
      }
      if newId in itineraries {
        return Fail(ServerError, StoreError);
      }
      itineraries := itineraries[newId := Itineraries.ItineraryRow(f, creator, pageId, uploads)];
      if Truthy(f.experienceComment) {
        if experienceId in experiences {
          return Fail(ServerError, StoreError);
        }
        experiences := experiences[experienceId := Experience(f.experienceComment, [], creator, newId)];
      }
      r := Ok(newId);
    }

    // -------------------------------------------------------------------------
    // Pages

    method AddPageDetails(pageId: Id, title: Field, description: Field, tips: Field, uploads: seq<string>)
      returns (r: Outcome<Page>)
      requires Valid()
      modifies this
      ensures Valid()
      ensures Step(r, Snapshot()) == Pages.AddPageDetails(old(Snapshot()), pageId, title, description, tips, uploads)
    {
      Pages.AddPageDetailsKeepsInv(Snapshot(), pageId, title, description, tips, uploads);
      if pageId !in pages {
        return Fail(NotFound, PageNotFound);
      }
      var was := pages[pageId];
      var upd := was.(title := Supplied(title, was.title), images := uploads,
                      description := Supplied(description, was.description),
                      tips := Supplied(tips, was.tips), status := Explored);
      pages := pages[pageId := upd];
      r := Ok(upd);
    }

    method AddItineraryToPage(pageId: Id, itineraryId: Id) returns (r: Outcome<set<Id>>)
      requires Valid()
      modifies this
      ensures Valid()
      ensures Step(r, Snapshot()) == Pages.AddItineraryToPage(old(Snapshot()), pageId, itineraryId)
    {
      Pages.AddItineraryToPageKeepsInv(Snapshot(), pageId, itineraryId);
      if pageId !in pages || itineraryId !in itineraries {
        return Fail(ServerError, StoreError);
      }
      itineraries := itineraries[itineraryId := itineraries[itineraryId].(pageId := Some(pageId))];
      r := Ok(LinkedTo(Snapshot(), pageId));
    }

    method DeleteItineraryFromPage(pageId: Id, itineraryId: Id) returns (r: Outcome<()>)
      requires Valid()
      modifies this
      ensures Valid()
      ensures Step(r, Snapshot()) == Pages.DeleteItineraryFromPage(old(Snapshot()), pageId, itineraryId)
    {
      Pages.DeleteItineraryFromPageKeepsInv(Snapshot(), pageId, itineraryId);
      if pageId !in pages {
        return Fail(NotFound, PageNotFound);
      }
      if !(itineraryId in itineraries && itineraries[itineraryId].pageId == Some(pageId)) {
        return Fail(NotFound, ItineraryNotOnPage);
      }
      itineraries := itineraries[itineraryId := itineraries[itineraryId].(pageId := None)];
      r := Ok(());
    }

    // -------------------------------------------------------------------------
    // Profiles and accounts

    method UpdateUserProfile(caller: Id, c: Profiles.ProfileChanges) returns (r: Outcome<User>)
      requires Valid()
      modifies this
      ensures Valid()
      ensures Step(r, Snapshot()) == Profiles.UpdateUserProfile(old(Snapshot()), caller, c)
    {
      Profiles.UpdateUserProfileKeepsInv(Snapshot(), caller, c);
      if caller !in users {
        return Fail(NotFound, UserNotFound);
      }
      var user := users[caller];
      var upd := Profiles.MergeProfile(user, c);
      if EmailTaken(users, upd.email, Some(caller)) {
        return Fail(ServerError, StoreError);
      }
      users := users[caller := upd];
      r := Ok(user);
    }

    method ResetPassword(caller: Id, oldPassword: Field, newPassword: Field,
                         hash: string -> string, matches: (string, string) -> bool) returns (r: Outcome<()>)
      requires Valid()
      modifies this
      ensures Valid()
      ensures Step(r, Snapshot()) == Profiles.ResetPassword(old(Snapshot()), caller, oldPassword, newPassword, hash, matches)
    {
      Profiles.ResetPasswordKeepsInv(Snapshot(), caller, oldPassword, newPassword, hash, matches);
      if !Truthy(newPassword) || !Truthy(oldPassword) {
        return Fail(Unauthorized, MissingFields);
      }
      if caller !in users {
        return Fail(NotFound, UserNotFound);
      }
      var user := users[caller];
      if !matches(oldPassword.value, user.password) {
        return Fail(Unauthorized, InvalidCredentials);
      }
      users := users[caller := user.(password := hash(newPassword.value))];
      r := Ok(());
    }

    method Register(f: Auth.RegisterForm, hash: string -> string, now: Time, newId: Id) returns (r: Outcome<string>)
      requires Valid()
      modifies this
      ensures Valid()
      ensures Step(r, Snapshot()) == Auth.Register(old(Snapshot()), f, hash, now, newId)
    {
      Auth.RegisterKeepsInv(Snapshot(), f, hash, now, newId);
      if !Auth.Complete(f) {
        return Fail(Forbidden, MissingFields);
      }
      if f.password.value != f.confirmPassword.value {
        return Fail(BadRequest, PasswordMismatch);
      }
      if EmailTaken(users, f.email.value, None) {
        return Fail(BadRequest, UserExists);
      }
      if newId in users {
        return Fail(ServerError, StoreError);
      }
      var user := Auth.NewUser(f, hash, now);
      users := users[newId := user];
      r := Ok(DisplayName(user));
    }

    method Login(email: Field, password: Field, matches: (string, string) -> bool, now: Time) returns (r: Outcome<string>)
      requires Valid()
      modifies this
      ensures Valid()
      ensures Step(r, Snapshot()) == Auth.Login(old(Snapshot()), email, password, matches, now)
    {
      Auth.LoginKeepsInv(Snapshot(), email, password, matches, now);
      if !Truthy(email) || !Truthy(password) {
        return Fail(BadRequest, MissingFields);
      }
      if !EmailTaken(users, email.value, None) {
        return Fail(Unauthorized, NotRegistered);
      }
      var id :| id in users && users[id].email == email.value;
      assert id == Auth.UserWithEmail(users, email.value);
      var user := users[id];
      if !matches(password.value, user.password) {
        return Fail(Unauthorized, WrongPassword);
      }
      users := users[id := user.(lastLogin := Some(now))];
      r := Ok(DisplayName(user));
    }
  }
}
