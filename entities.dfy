/**
 * The relational data the Travel Book server keeps through its ORM client:
 * five tables keyed by row id, the request-level result of a handler, and the
 * integrity constraints the database enforces (foreign keys, unique email).
 */
module Entities {

  /** Row ids are the strings the database generates. */
  type Id = string

  /** Milliseconds since the epoch, as `Date.now()` gives them. */
  type Time = int

  datatype Option<T> = None | Some(value: T)

  /** A request body field: absent (JavaScript `undefined`) or the text sent. */
  type Field = Option<string>

  /** JavaScript truthiness of a body field: present and not the empty string. */
  predicate Truthy(f: Field) {
    f.Some? && f.value != ""
  }

  /** `a || b` for a field whose fallback is a non-null column value. */
  function OrElse(f: Field, fallback: string): string {
    if Truthy(f) then f.value else fallback
  }

  /** `a || b` for a field whose fallback is a nullable column value. */
  function OrKeep(f: Field, fallback: Option<string>): Option<string> {
    if Truthy(f) then f else fallback
  }

  /**
   * A field the ORM writes only when it is defined: `undefined` in an update's
   * data leaves the column as it was.
   */
  function Supplied(f: Field, current: Option<string>): Option<string> {
    if f.Some? then f else current
  }

  /** A JSON-encoded body field: its raw text and what `JSON.parse` makes of it (None when it throws). */
  datatype Json<T> = Json(text: string, parsed: Option<T>)

  datatype Visibility = Public | Private
  datatype BookStatus = Planning | Explored

  /** The column default the schema gives a new book's visibility. */
  const DefaultVisibility: Visibility := Private

  /** The value that `parseFloat` reads from a body field; floating point is not interpreted. */
  datatype Float = ParseFloat(source: Field)

  datatype Location = Location(latitude: Float, longitude: Float, address: Field)

  /** The location JSON column: stored either as an object or as JSON text. */
  datatype StoredLocation =
    | Structured(location: Location)
    | Encoded(json: Json<Location>)

  datatype User = User(
    firstName: string,
    lastName: string,
    email: string,
    gender: string,
    dateOfBirth: string,
    password: string,          // a bcrypt hash
    bio: Option<string>,
    profileImage: Option<string>,
    phoneNumber: Option<string>,
    socialLinks: Option<string>,
    dateJoined: Time,
    lastLogin: Option<Time>)

  datatype Book = Book(
    title: string,
    description: Option<string>,
    tags: seq<string>,
    imageUrl: Option<string>,
    visibility: Visibility,
    status: BookStatus,
    addedById: Id)

  datatype Page = Page(
    bookId: Id,
    title: Option<string>,
    description: Option<string>,
    tips: Option<string>,
    images: seq<string>,
    status: BookStatus)

  datatype Itinerary = Itinerary(
    title: Option<string>,
    description: string,
    caption: Option<string>,
    category: Option<string>,
    images: seq<string>,
    location: StoredLocation,
    rating: Float,
    views: int,
    addedById: Id,
    pageId: Option<Id>)     // the detachable link to a page

  datatype Experience = Experience(
    comment: Option<string>,
    upVotes: seq<Id>,
    userId: Id,
    itineraryId: Id)

  /** The whole store: one map per table, keyed by row id. */
  datatype Db = Db(
    users: map<Id, User>,
    books: map<Id, Book>,
    pages: map<Id, Page>,
    itineraries: map<Id, Itinerary>,
    experiences: map<Id, Experience>)

  /** HTTP status classes a handler answers with when it does not succeed. */
  datatype Status =
    | BadRequest      // 400
    | Unauthorized    // 401
    | Forbidden       // 403
    | NotFound        // 404
    | ServerError     // 500: the ORM or JSON.parse threw and the handler's catch answered

  /** Which of the handlers' messages accompanies a failure. */
  datatype Reason =
    | NotLoggedIn | NotAuthorized | NotOwner
    | TitleRequired | NoUpdateData | InvalidTags | MissingFields | PasswordMismatch
    | BookNotFound | NoBooksFound | PageNotFound | PageNotInBook
    | ItineraryNotFound | ItineraryNotOnPage | ExperienceNotFound
    | UserNotFound | NotRegistered | UserExists | WrongPassword | InvalidCredentials
    | NoIdentity
    | StoreError | InvalidJson

  /** What a handler answers: success with its data, or a failure status and message. */
  datatype Outcome<T> = Ok(value: T) | Fail(status: Status, reason: Reason)

  /** The HTTP status code of an outcome (successes are reported as 200). */
  function Code<T>(o: Outcome<T>): (c: nat)
    ensures o.Ok? <==> c == 200
    ensures o.Fail? ==> 400 <= c <= 500
  {
    match o
    case Ok(_) => 200
    case Fail(BadRequest, _) => 400
    case Fail(Unauthorized, _) => 401
    case Fail(Forbidden, _) => 403
    case Fail(NotFound, _) => 404
    case Fail(ServerError, _) => 500
  }

  /** A mutating handler's answer together with the store it leaves behind. */
  datatype Step<T> = Step(out: Outcome<T>, db: Db)

  // ---------------------------------------------------------------------------
  // Relational reads the handlers share

  /** Ids of the pages whose `bookId` is the given book. */
  function PagesOf(db: Db, bookId: Id): (r: set<Id>)
    ensures forall p :: p in r <==> p in db.pages && db.pages[p].bookId == bookId
  {
    set p | p in db.pages && db.pages[p].bookId == bookId
  }

  /** Ids of the itineraries linked to the given page. */
  function LinkedTo(db: Db, pageId: Id): (r: set<Id>)
    ensures forall i :: i in r <==> i in db.itineraries && db.itineraries[i].pageId == Some(pageId)
  {
    set i | i in db.itineraries && db.itineraries[i].pageId == Some(pageId)
  }

  /** The relation filter `page: { bookId }`: the itinerary's page exists and belongs to the book. */
  predicate OnBook(db: Db, it: Itinerary, bookId: Id) {
    it.pageId.Some? && it.pageId.value in db.pages && db.pages[it.pageId.value].bookId == bookId
  }

  /** The display name the handlers build with a template literal. */
  function DisplayName(u: User): (r: string)
    ensures |r| == |u.firstName| + 1 + |u.lastName|
    ensures r[..|u.firstName|] == u.firstName && r[|u.firstName|] == ' ' && r[|u.firstName| + 1..] == u.lastName
  {
    u.firstName + " " + u.lastName
  }

  /** Does some user other than `except` already have this email? */
  predicate EmailTaken(users: map<Id, User>, email: string, except: Option<Id>) {
    exists u :: u in users && Some(u) != except && users[u].email == email
  }

  // ---------------------------------------------------------------------------
  // Integrity constraints the database enforces

  ghost predicate PagesHaveBooks(db: Db) {
    forall p :: p in db.pages ==> db.pages[p].bookId in db.books
  }

  ghost predicate ItinerariesHavePages(db: Db) {
    forall i :: i in db.itineraries && db.itineraries[i].pageId.Some? ==> db.itineraries[i].pageId.value in db.pages
  }

  ghost predicate EmailsUnique(users: map<Id, User>) {
    forall u, v :: u in users && v in users && u != v ==> users[u].email != users[v].email
  }

  ghost predicate OwnersExist(db: Db) {
    && (forall b :: b in db.books ==> db.books[b].addedById in db.users)
    && (forall i :: i in db.itineraries ==> db.itineraries[i].addedById in db.users)
    && (forall e :: e in db.experiences ==> db.experiences[e].userId in db.users)
  }

  /** The store invariant every mutating handler preserves. */
  ghost predicate Inv(db: Db) {
    PagesHaveBooks(db) && ItinerariesHavePages(db) && EmailsUnique(db.users) && OwnersExist(db)
  }

  /** An empty store satisfies the invariant. */
  function EmptyDb(): (db: Db)
    ensures Inv(db) && db.users == map[] && db.books == map[]
  {
    Db(map[], map[], map[], map[], map[])
  }
}
