/**
 * The book handlers: read views of a user's books, book creation and partial
 * update, the three-step cascading delete, and adding and removing pages.
 */
module Books {
  import opened Entities

  // ---------------------------------------------------------------------------
  // getMyBook: the caller's books, summary fields only

  datatype BookSummary = BookSummary(title: string, imageUrl: Option<string>, visibility: Visibility, status: BookStatus)

  function SummaryOf(b: Book): BookSummary {
    BookSummary(b.title, b.imageUrl, b.visibility, b.status)
  }

  function GetMyBook(db: Db, caller: Option<Id>): (r: Outcome<map<Id, BookSummary>>)
    ensures caller.None? ==> r == Fail(Unauthorized, NotLoggedIn)
    ensures caller.Some? ==> r.Ok? && (forall id :: id in r.value <==> id in db.books && db.books[id].addedById == caller.value)
    ensures r.Ok? ==> forall id :: id in r.value ==> id in db.books && r.value[id] == SummaryOf(db.books[id])
  {
    if caller.None? then Fail(Unauthorized, NotLoggedIn)
    else Ok(map id | id in db.books && db.books[id].addedById == caller.value :: SummaryOf(db.books[id]))
  }

  // ---------------------------------------------------------------------------
  // getBookDescriptionById: public detail with pages and their itineraries

  datatype ItineraryBrief = ItineraryBrief(title: Option<string>, category: Option<string>, location: StoredLocation)

  datatype PageDetail = PageDetail(
    title: Option<string>, description: Option<string>, tips: Option<string>, images: seq<string>,
    itineraries: map<Id, ItineraryBrief>)

  datatype BookDescription = BookDescription(
    title: string, description: Option<string>, tags: seq<string>, imageUrl: Option<string>,
    pages: map<Id, PageDetail>)

  function PageDetailOf(db: Db, pageId: Id): PageDetail
    requires pageId in db.pages
  {
    var p := db.pages[pageId];
    PageDetail(p.title, p.description, p.tips, p.images,
      map i | i in db.itineraries && db.itineraries[i].pageId == Some(pageId) ::
        ItineraryBrief(db.itineraries[i].title, db.itineraries[i].category, db.itineraries[i].location))
  }

  function GetBookDescriptionById(db: Db, bookId: Id): (r: Outcome<BookDescription>)
    ensures bookId !in db.books <==> r == Fail(NotFound, BookNotFound)
    ensures r.Ok? <==> bookId in db.books
    ensures r.Ok? ==>
      var b := db.books[bookId];
      && r.value.title == b.title && r.value.description == b.description
      && r.value.tags == b.tags && r.value.imageUrl == b.imageUrl
      && r.value.pages.Keys == PagesOf(db, bookId)
      && (forall p :: p in r.value.pages ==>
            && r.value.pages[p].title == db.pages[p].title
            && r.value.pages[p].description == db.pages[p].description
            && r.value.pages[p].tips == db.pages[p].tips
            && r.value.pages[p].images == db.pages[p].images
            && r.value.pages[p].itineraries.Keys == LinkedTo(db, p))
      && (forall p, i :: p in r.value.pages && i in r.value.pages[p].itineraries ==>
            && r.value.pages[p].itineraries[i].title == db.itineraries[i].title
            && r.value.pages[p].itineraries[i].category == db.itineraries[i].category
            && r.value.pages[p].itineraries[i].location == db.itineraries[i].location)
  {
    if bookId !in db.books then Fail(NotFound, BookNotFound)
    else
      var b := db.books[bookId];
      Ok(BookDescription(b.title, b.description, b.tags, b.imageUrl,
        map p | p in db.pages && db.pages[p].bookId == bookId :: PageDetailOf(db, p)))
  }

  // ---------------------------------------------------------------------------
  // getPlanningBookById: the owner-only planning view

  datatype PagePlan = PagePlan(title: Option<string>, status: BookStatus, itineraries: map<Id, Option<string>>)

  datatype PlanningBook = PlanningBook(
    title: string, status: BookStatus, description: Option<string>, tags: seq<string>,
    visibility: Visibility, addedById: Id, pages: map<Id, PagePlan>)

  /** The `{ id, title }` selection of the itineraries linked to a page. */
  function TitlesLinkedTo(db: Db, pageId: Id): (r: map<Id, Option<string>>)
    ensures r.Keys == LinkedTo(db, pageId)
    ensures forall i :: i in r ==> r[i] == db.itineraries[i].title
  {
    map i | i in db.itineraries && db.itineraries[i].pageId == Some(pageId) :: db.itineraries[i].title
  }

  /**
   * The handler with each failure answer treated as an early exit. The source
   * as written does not return after its 404 and 401 answers; see
   * PlanningBookRepliesAsWritten.
   */
  function GetPlanningBookById(db: Db, caller: Option<Id>, bookId: Id): (r: Outcome<PlanningBook>)
    ensures caller.None? ==> r == Fail(Unauthorized, NotLoggedIn)
    ensures caller.Some? && bookId !in db.books ==> r == Fail(NotFound, BookNotFound)
    ensures caller.Some? && bookId in db.books && db.books[bookId].addedById != caller.value ==>
              r == Fail(Unauthorized, NotAuthorized)
    ensures r.Ok? <==> caller.Some? && bookId in db.books && db.books[bookId].addedById == caller.value
    ensures r.Ok? ==>
      var b := db.books[bookId];
      && r.value.addedById == caller.value
      && r.value.title == b.title && r.value.status == b.status && r.value.description == b.description
      && r.value.tags == b.tags && r.value.visibility == b.visibility
      && r.value.pages.Keys == PagesOf(db, bookId)
      && (forall p :: p in r.value.pages ==>
            && r.value.pages[p].title == db.pages[p].title && r.value.pages[p].status == db.pages[p].status
            && r.value.pages[p].itineraries.Keys == LinkedTo(db, p))
      && (forall p, i :: p in r.value.pages && i in r.value.pages[p].itineraries ==>
            r.value.pages[p].itineraries[i] == db.itineraries[i].title)
  {
    if caller.None? then Fail(Unauthorized, NotLoggedIn)
    else if bookId !in db.books then Fail(NotFound, BookNotFound)
    else if db.books[bookId].addedById != caller.value then Fail(Unauthorized, NotAuthorized)
    else
      var b := db.books[bookId];
      Ok(PlanningBook(b.title, b.status, b.description, b.tags, b.visibility, b.addedById,
        map p | p in db.pages && db.pages[p].bookId == bookId ::
          PagePlan(db.pages[p].title, db.pages[p].status, TitlesLinkedTo(db, p))))
  }

  /**
   * The status codes the handler as written tries to answer with, in order.
   * It does not return after its 404 and 401 answers, so a second answer
   * throws (the headers are already sent), and the `catch` tries a 500 that
   * throws in turn. Only the first reaches the client.
   */
  function PlanningBookRepliesAsWritten(db: Db, caller: Option<Id>, bookId: Id): (codes: seq<nat>)
    ensures |codes| >= 1
    ensures |codes| > 1 ==> codes[|codes| - 1] == 500
    ensures codes[0] == 200 ==> codes == [200]
  {
    if caller.None? then [401]
    else if bookId !in db.books then [404, 401, 500]
    else if db.books[bookId].addedById != caller.value then [401, 200, 500]
    else [200]
  }

  /** A missing book makes the handler as written try to answer three times. */
  lemma PlanningBookMissingAnswersThrice(db: Db, caller: Id, bookId: Id)
    requires bookId !in db.books
    ensures PlanningBookRepliesAsWritten(db, Some(caller), bookId) == [404, 401, 500]
  {
  }

  /** A non-owner makes the handler as written go on to send the book after its 401. */
  lemma PlanningBookNonOwnerAnswersThrice(db: Db, caller: Id, bookId: Id)
    requires bookId in db.books && db.books[bookId].addedById != caller
    ensures PlanningBookRepliesAsWritten(db, Some(caller), bookId) == [401, 200, 500]
  {
  }

  /**
   * The client sees the first answer of the handler as written, and that is
   * exactly the answer of the early-exit version; the two agree on every
   * request and differ only in the answers attempted after the first.
   */
  lemma PlanningBookFirstReplyAgrees(db: Db, caller: Option<Id>, bookId: Id)
    ensures PlanningBookRepliesAsWritten(db, caller, bookId)[0] == Code(GetPlanningBookById(db, caller, bookId))
    ensures |PlanningBookRepliesAsWritten(db, caller, bookId)| == 1 <==>
              caller.None? || GetPlanningBookById(db, caller, bookId).Ok?
  {
  }

  // ---------------------------------------------------------------------------
  // getBookWithPages: all of the caller's books with their pages

  datatype PageFull = PageFull(
    title: Option<string>, status: BookStatus, images: seq<string>,
    description: Option<string>, tips: Option<string>, itineraries: map<Id, Option<string>>)

  datatype BookWithPages = BookWithPages(
    title: string, status: BookStatus, description: Option<string>, tags: seq<string>,
    imageUrl: Option<string>, visibility: Visibility, pages: map<Id, PageFull>)

  /**
   * `w` shows book `bookId` as selected: the book's fields, exactly its pages with
   * their fields, and exactly each page's linked itineraries with their titles.
   */
  predicate ShowsBook(db: Db, bookId: Id, w: BookWithPages)
    requires bookId in db.books
  {
    && w.title == db.books[bookId].title && w.status == db.books[bookId].status
    && w.description == db.books[bookId].description && w.tags == db.books[bookId].tags
    && w.imageUrl == db.books[bookId].imageUrl && w.visibility == db.books[bookId].visibility
    && w.pages.Keys == PagesOf(db, bookId)
    && (forall p :: p in w.pages ==>
          && w.pages[p].title == db.pages[p].title && w.pages[p].status == db.pages[p].status
          && w.pages[p].images == db.pages[p].images
          && w.pages[p].description == db.pages[p].description
          && w.pages[p].tips == db.pages[p].tips
          && w.pages[p].itineraries.Keys == LinkedTo(db, p)
          && (forall i :: i in w.pages[p].itineraries ==> w.pages[p].itineraries[i] == db.itineraries[i].title))
  }

  function WithPages(db: Db, bookId: Id): (w: BookWithPages)
    requires bookId in db.books
    ensures ShowsBook(db, bookId, w)
  {
    var b := db.books[bookId];
    BookWithPages(b.title, b.status, b.description, b.tags, b.imageUrl, b.visibility,
      map p | p in db.pages && db.pages[p].bookId == bookId ::
        PageFull(db.pages[p].title, db.pages[p].status, db.pages[p].images,
                 db.pages[p].description, db.pages[p].tips, TitlesLinkedTo(db, p)))
  }

  function GetBookWithPages(db: Db, caller: Option<Id>): (r: Outcome<map<Id, BookWithPages>>)
    ensures caller.None? ==> r == Fail(Unauthorized, NotLoggedIn)
    ensures caller.Some? ==>
      (r == Fail(NotFound, NoBooksFound) <==> forall b :: b in db.books ==> db.books[b].addedById != caller.value)
    ensures r.Ok? <==> caller.Some? && exists b :: b in db.books && db.books[b].addedById == caller.value
    ensures r.Ok? ==>
      && caller.Some? && r.value != map[]
      && (forall id :: id in r.value <==> id in db.books && db.books[id].addedById == caller.value)
      && (forall id :: id in r.value ==> id in db.books && ShowsBook(db, id, r.value[id]))
  {
    if caller.None? then Fail(Unauthorized, NotLoggedIn)
    else
      var owned := map id | id in db.books && db.books[id].addedById == caller.value :: WithPages(db, id);
      assert forall b :: b in db.books && db.books[b].addedById == caller.value ==> b in owned;
      if owned == map[] then Fail(NotFound, NoBooksFound) else Ok(owned)
  }

  // ---------------------------------------------------------------------------
  // createBook

  function NewBook(title: string, owner: Id): Book {
    Book(title, None, [], None, DefaultVisibility, Planning, owner)
  }

  /**
   * Creates a book owned by the caller. `newId` is the id the database
   * generates; connecting a missing owner or reusing an id makes the ORM throw.
   */
  function CreateBook(db: Db, caller: Option<Id>, title: Field, newId: Id): (s: Step<Id>)
    ensures s.out.Fail? ==> s.db == db
    ensures caller.None? ==> s.out == Fail(Unauthorized, NotLoggedIn)
    ensures caller.Some? && !Truthy(title) ==> s.out == Fail(NotFound, TitleRequired)
    ensures s.out.Ok? <==> caller.Some? && Truthy(title) && caller.value in db.users && newId !in db.books
    ensures s.out.Ok? ==>
      && s.out.value == newId && newId !in db.books
      && s.db.books.Keys == db.books.Keys + {newId}
      && s.db.books[newId].addedById == caller.value && s.db.books[newId].title == title.value
      && s.db.books[newId].status == Planning
      && (forall b :: b in db.books ==> s.db.books[b] == db.books[b])
      && s.db.(books := db.books) == db
    ensures Inv(db) && s.out.Ok? ==> PagesOf(s.db, newId) == {}
  {
    if caller.None? then Step(Fail(Unauthorized, NotLoggedIn), db)
    else if !Truthy(title) then Step(Fail(NotFound, TitleRequired), db)
    else if caller.value !in db.users || newId in db.books then Step(Fail(ServerError, StoreError), db)
    else Step(Ok(newId), db.(books := db.books[newId := NewBook(title.value, caller.value)]))
  }

  /** CreateBook keeps the store invariant. */
  lemma CreateBookKeepsInv(db: Db, caller: Option<Id>, title: Field, newId: Id)
    requires Inv(db)
    ensures Inv(CreateBook(db, caller, title, newId).db)
  {
  }

  // ---------------------------------------------------------------------------
  // addBookDetails: partial update of a book's fields

  /** The body fields and the uploaded file path of an addBookDetails request. */
  datatype BookUpdate = BookUpdate(
    title: Field, description: Field, tags: Option<Json<seq<string>>>,
    visibility: Field, status: Field, file: Option<string>)

  predicate TagsGiven(u: BookUpdate) {
    u.tags.Some? && u.tags.value.text != ""
  }

  /** The guard `!title && !description && !tags && !visibility && !status && !req.file`. */
  predicate NothingToUpdate(u: BookUpdate) {
    !Truthy(u.title) && !Truthy(u.description) && !TagsGiven(u) && !Truthy(u.visibility) && !Truthy(u.status) && u.file.None?
  }

  /** Truthy tags whose JSON.parse throws. */
  predicate TagsInvalid(u: BookUpdate) {
    TagsGiven(u) && u.tags.value.parsed.None?
  }

  /** The handler's `parsedTags`: the parsed list when tags are given, else empty. */
  function ParsedTags(u: BookUpdate): seq<string>
    requires !TagsInvalid(u)
  {
    if TagsGiven(u) then u.tags.value.parsed.value else []
  }

  function ParseVisibility(s: string): Option<Visibility> {
    if s == "Public" then Some(Public) else if s == "Private" then Some(Private) else None
  }

  function ParseStatus(s: string): Option<BookStatus> {
    if s == "Planning" then Some(Planning) else if s == "Explored" then Some(Explored) else None
  }

  /** The ORM accepts the enum columns' new values (it rejects anything but the enum's names). */
  predicate EnumsAccepted(u: BookUpdate) {
    && (Truthy(u.visibility) ==> ParseVisibility(u.visibility.value).Some?)
    && (Truthy(u.status) ==> ParseStatus(u.status.value).Some?)
  }

  /** The row after `update` with the handler's `updateData`. */
  function MergeBook(b: Book, u: BookUpdate): Book
    requires !TagsInvalid(u) && EnumsAccepted(u)
  {
    var tags := ParsedTags(u);
    b.(title := OrElse(u.title, b.title),
       description := if u.description.Some? then (if u.description.value == "" then None else u.description)
                      else b.description,
       tags := if |tags| > 0 then tags else b.tags,
       imageUrl := if u.file.Some? then u.file else b.imageUrl,
       visibility := if Truthy(u.visibility) then ParseVisibility(u.visibility.value).value else b.visibility,
       status := if Truthy(u.status) then ParseStatus(u.status.value).value else b.status)
  }

  function AddBookDetails(db: Db, caller: Option<Id>, bookId: Id, u: BookUpdate): (s: Step<Book>)
    ensures s.out.Fail? ==> s.db == db
    ensures caller.None? ==> s.out == Fail(Unauthorized, NotLoggedIn)
    ensures caller.Some? && NothingToUpdate(u) ==> s.out == Fail(BadRequest, NoUpdateData)
    ensures caller.Some? && !NothingToUpdate(u) && TagsInvalid(u) ==> s.out == Fail(BadRequest, InvalidTags)
    ensures caller.Some? && !NothingToUpdate(u) && !TagsInvalid(u) && bookId !in db.books ==>
              s.out == Fail(NotFound, BookNotFound)
    ensures caller.Some? && !NothingToUpdate(u) && !TagsInvalid(u) && bookId in db.books
              && db.books[bookId].addedById != caller.value
            ==> s.out == Fail(Forbidden, NotOwner)
    ensures caller.Some? && !NothingToUpdate(u) && !TagsInvalid(u) && bookId in db.books
              && db.books[bookId].addedById == caller.value
            ==> (s.out.Ok? <==> EnumsAccepted(u)) && (!EnumsAccepted(u) ==> s.out == Fail(ServerError, StoreError))
    ensures s.out.Ok? ==>
      var was := db.books[bookId];
      var upd := s.out.value;
      && caller == Some(was.addedById) && !TagsInvalid(u) && EnumsAccepted(u)
      && s.db == db.(books := db.books[bookId := upd])
      && upd.addedById == was.addedById
      && (Truthy(u.title) ==> upd.title == u.title.value)
      && (!Truthy(u.title) ==> upd.title == was.title)
      && (u.description == Some("") ==> upd.description == None)
      && (u.description.Some? && u.description.value != "" ==> upd.description == u.description)
      && (u.description.None? ==> upd.description == was.description)
      && (|ParsedTags(u)| > 0 ==> upd.tags == ParsedTags(u))
      && (|ParsedTags(u)| == 0 ==> upd.tags == was.tags)
      && (u.file.Some? ==> upd.imageUrl == u.file)
      && (u.file.None? ==> upd.imageUrl == was.imageUrl)
      && (!Truthy(u.visibility) ==> upd.visibility == was.visibility)
      && (Truthy(u.visibility) ==> Some(upd.visibility) == ParseVisibility(u.visibility.value))
      && (!Truthy(u.status) ==> upd.status == was.status)
      && (Truthy(u.status) ==> Some(upd.status) == ParseStatus(u.status.value))
  {
    if caller.None? then Step(Fail(Unauthorized, NotLoggedIn), db)
    else if NothingToUpdate(u) then Step(Fail(BadRequest, NoUpdateData), db)
    else if TagsInvalid(u) then Step(Fail(BadRequest, InvalidTags), db)
    else if bookId !in db.books then Step(Fail(NotFound, BookNotFound), db)
    else if db.books[bookId].addedById != caller.value then Step(Fail(Forbidden, NotOwner), db)
    else if !EnumsAccepted(u) then Step(Fail(ServerError, StoreError), db)
    else
      var upd := MergeBook(db.books[bookId], u);
      Step(Ok(upd), db.(books := db.books[bookId := upd]))
  }

  /** AddBookDetails keeps the store invariant. */
  lemma AddBookDetailsKeepsInv(db: Db, caller: Option<Id>, bookId: Id, u: BookUpdate)
    requires Inv(db)
    ensures Inv(AddBookDetails(db, caller, bookId, u).db)
  {
  }

  /** An owner's description-only update changes the description and nothing else. */
  lemma DescriptionOnlyUpdate(db: Db, bookId: Id, d: string)
    requires bookId in db.books && d != ""
    ensures var s := AddBookDetails(db, Some(db.books[bookId].addedById), bookId,
                                    BookUpdate(None, Some(d), None, None, None, None));
            s.out == Ok(db.books[bookId].(description := Some(d)))
  {
  }

  // ---------------------------------------------------------------------------
  // deleteBook: ownership check, then a three-step transaction

  /** Step 1 of the transaction: `itinerary.deleteMany({ where: { page: { bookId } } })`. */
  function DeleteBookItineraries(db: Db, bookId: Id): Db {
    db.(itineraries := map i | i in db.itineraries && !OnBook(db, db.itineraries[i], bookId) :: db.itineraries[i])
  }

  /** Step 2: `page.deleteMany({ where: { bookId } })`. */
  function DeleteBookPages(db: Db, bookId: Id): Db {
    db.(pages := map p | p in db.pages && db.pages[p].bookId != bookId :: db.pages[p])
  }

  /** Step 3: `book.delete({ where: { id: bookId } })`. */
  function DeleteBookRow(db: Db, bookId: Id): Db {
    db.(books := db.books - {bookId})
  }

  function DeleteBook(db: Db, caller: Option<Id>, bookId: Id): (s: Step<()>)
    ensures bookId !in db.books ==> s == Step(Fail(NotFound, BookNotFound), db)
    ensures bookId in db.books && caller != Some(db.books[bookId].addedById) ==> s == Step(Fail(Forbidden, NotOwner), db)
    ensures s.out.Ok? <==> bookId in db.books && caller == Some(db.books[bookId].addedById)
    ensures s.out.Ok? ==>
      && s.db.books.Keys == db.books.Keys - {bookId}
      && (forall b :: b in s.db.books ==> s.db.books[b] == db.books[b])
      && PagesOf(s.db, bookId) == {}
      && (forall p :: p in s.db.pages <==> p in db.pages && db.pages[p].bookId != bookId)
      && (forall p :: p in s.db.pages ==> s.db.pages[p] == db.pages[p])
      && (forall i :: i in s.db.itineraries <==> i in db.itineraries && !OnBook(db, db.itineraries[i], bookId))
      && (forall i :: i in s.db.itineraries ==> s.db.itineraries[i] == db.itineraries[i])
      && s.db.users == db.users && s.db.experiences == db.experiences
  {
    if bookId !in db.books then Step(Fail(NotFound, BookNotFound), db)
    else if caller != Some(db.books[bookId].addedById) then Step(Fail(Forbidden, NotOwner), db)
    else Step(Ok(()), DeleteBookRow(DeleteBookPages(DeleteBookItineraries(db, bookId), bookId), bookId))
  }

  /** DeleteBook keeps the store invariant. */
  lemma DeleteBookKeepsInv(db: Db, caller: Option<Id>, bookId: Id)
    requires Inv(db)
    ensures Inv(DeleteBook(db, caller, bookId).db)
  {
  }

  // ---------------------------------------------------------------------------
  // addPageToBook (no ownership check)

  function NewPage(bookId: Id, title: Field): Page {
    Page(bookId, title, None, None, [], Planning)
  }

  function AddPageToBook(db: Db, bookId: Id, title: Field, newId: Id): (s: Step<Id>)
    ensures s.out.Fail? ==> s.db == db
    ensures bookId !in db.books ==> s.out == Fail(NotFound, BookNotFound)
    ensures s.out.Ok? <==> bookId in db.books && newId !in db.pages
    ensures s.out.Ok? ==>
      && s.out.value == newId
      && s.db.pages.Keys == db.pages.Keys + {newId}
      && s.db.pages[newId].bookId == bookId && s.db.pages[newId].status == Planning
      && s.db.pages[newId].title == title && s.db.pages[newId].images == []
      && (forall p :: p in db.pages ==> s.db.pages[p] == db.pages[p])
      && s.db.(pages := db.pages) == db
    ensures Inv(db) && s.out.Ok? ==> LinkedTo(s.db, newId) == {}
  {
    if bookId !in db.books then Step(Fail(NotFound, BookNotFound), db)
    else if newId in db.pages then Step(Fail(ServerError, StoreError), db)
    else Step(Ok(newId), db.(pages := db.pages[newId := NewPage(bookId, title)]))
  }

  /** AddPageToBook keeps the store invariant. */
  lemma AddPageToBookKeepsInv(db: Db, bookId: Id, title: Field, newId: Id)
    requires Inv(db)
    ensures Inv(AddPageToBook(db, bookId, title, newId).db)
  {
  }

  // ---------------------------------------------------------------------------
  // deletePageFromBook: detach the page's itineraries, then delete the page

  /** Step 1: `itinerary.updateMany({ where: { pageId }, data: { pageId: null } })`. */
  function DetachFromPage(db: Db, pageId: Id): Db {
    db.(itineraries := map i | i in db.itineraries ::
          if db.itineraries[i].pageId == Some(pageId) then db.itineraries[i].(pageId := None) else db.itineraries[i])
  }

  function DeletePageFromBook(db: Db, bookId: Id, pageId: Id): (s: Step<()>)
    ensures bookId !in db.books ==> s == Step(Fail(NotFound, BookNotFound), db)
    ensures bookId in db.books && pageId !in PagesOf(db, bookId) ==> s == Step(Fail(NotFound, PageNotInBook), db)
    ensures s.out.Ok? <==> bookId in db.books && pageId in PagesOf(db, bookId)
    ensures s.out.Ok? ==>
      && s.db.pages == db.pages - {pageId}
      && s.db.itineraries.Keys == db.itineraries.Keys
      && (forall i :: i in db.itineraries && db.itineraries[i].pageId == Some(pageId) ==>
            s.db.itineraries[i] == db.itineraries[i].(pageId := None))
      && (forall i :: i in db.itineraries && db.itineraries[i].pageId != Some(pageId) ==>
            s.db.itineraries[i] == db.itineraries[i])
      && s.db.users == db.users && s.db.books == db.books && s.db.experiences == db.experiences
  {
    if bookId !in db.books then Step(Fail(NotFound, BookNotFound), db)
    else if !(pageId in db.pages && db.pages[pageId].bookId == bookId) then Step(Fail(NotFound, PageNotInBook), db)
    else
      var detached := DetachFromPage(db, pageId);
      Step(Ok(()), detached.(pages := detached.pages - {pageId}))
  }

  /** DeletePageFromBook keeps the store invariant. */
  lemma DeletePageFromBookKeepsInv(db: Db, bookId: Id, pageId: Id)
    requires Inv(db)
    ensures Inv(DeletePageFromBook(db, bookId, pageId).db)
  {
  }
}
