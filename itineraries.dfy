/**
 * The itinerary handlers: the discovery feed, the itinerary detail view, new
 * experiences, the upvote toggle and itinerary creation.
 */
module Itineraries {
  import opened Entities

  // ---------------------------------------------------------------------------
  // getAllItineraries: every itinerary and every public book

  datatype Name = Name(firstName: string, lastName: string)

  datatype FeedItem = FeedItem(
    title: Option<string>, category: Option<string>, location: Location,
    image: Option<string>, rating: Float, views: int, addedBy: Name)

  datatype PublicBook = PublicBook(title: string, imageUrl: Option<string>, addedBy: Name)

  datatype Feed = Feed(itineraries: map<Id, FeedItem>, books: map<Id, PublicBook>)

  /** `images[0]`: undefined for an empty list. */
  function First(images: seq<string>): Option<string> {
    if |images| > 0 then Some(images[0]) else None
  }

  /** The location as an object: kept when stored as one, else the result of JSON.parse. */
  function Normalise(l: StoredLocation): Option<Location> {
    match l
    case Structured(loc) => Some(loc)
    case Encoded(json) => json.parsed
  }

  function NameOf(u: User): Name {
    Name(u.firstName, u.lastName)
  }

  /** Every itinerary's `addedBy` relation resolves (otherwise the ORM reports an inconsistent result). */
  predicate ItineraryOwnersPresent(db: Db) {
    forall i :: i in db.itineraries ==> db.itineraries[i].addedById in db.users
  }

  predicate LocationsReadable(db: Db) {
    forall i :: i in db.itineraries ==> Normalise(db.itineraries[i].location).Some?
  }

  predicate PublicOwnersPresent(db: Db) {
    forall b :: b in db.books && db.books[b].visibility == Public ==> db.books[b].addedById in db.users
  }

  function FeedItemOf(db: Db, i: Id): FeedItem
    requires i in db.itineraries && ItineraryOwnersPresent(db) && LocationsReadable(db)
  {
    var it := db.itineraries[i];
    FeedItem(it.title, it.category, Normalise(it.location).value, First(it.images), it.rating, it.views,
             NameOf(db.users[it.addedById]))
  }

  function GetAllItineraries(db: Db): (r: Outcome<Feed>)
    ensures r.Fail? ==> r.status == ServerError
    ensures Inv(db) && LocationsReadable(db) ==> r.Ok?
    ensures r.Ok? ==>
      && r.value.itineraries.Keys == db.itineraries.Keys
      && (forall i :: i in r.value.itineraries ==>
            && r.value.itineraries[i].image == First(db.itineraries[i].images)
            && Some(r.value.itineraries[i].location) == Normalise(db.itineraries[i].location)
            && r.value.itineraries[i].title == db.itineraries[i].title
            && r.value.itineraries[i].category == db.itineraries[i].category
            && r.value.itineraries[i].rating == db.itineraries[i].rating
            && r.value.itineraries[i].views == db.itineraries[i].views
            && db.itineraries[i].addedById in db.users
            && r.value.itineraries[i].addedBy == NameOf(db.users[db.itineraries[i].addedById]))
      && (forall b :: b in r.value.books <==> b in db.books && db.books[b].visibility == Public)
      && (forall b :: b in r.value.books ==>
            && r.value.books[b].title == db.books[b].title
            && r.value.books[b].imageUrl == db.books[b].imageUrl
            && db.books[b].addedById in db.users
            && r.value.books[b].addedBy == NameOf(db.users[db.books[b].addedById]))
  {
    if !ItineraryOwnersPresent(db) then Fail(ServerError, StoreError)
    else if !LocationsReadable(db) then Fail(ServerError, InvalidJson)
    else if !PublicOwnersPresent(db) then Fail(ServerError, StoreError)
    else
      Ok(Feed(
        map i | i in db.itineraries :: FeedItemOf(db, i),
        map b | b in db.books && db.books[b].visibility == Public ::
          PublicBook(db.books[b].title, db.books[b].imageUrl, NameOf(db.users[db.books[b].addedById]))))
  }

  // ---------------------------------------------------------------------------
  // getItineraryById: banner, caption, highlights and formatted experiences

  datatype Banner = Banner(image: Option<string>, title: Option<string>, addedBy: string)

  datatype ExperienceView = ExperienceView(experience: Option<string>, upVotes: seq<Id>, name: string, avatar: string)

  datatype ItineraryDetail = ItineraryDetail(
    banner: Banner, caption: string, highlights: seq<string>, experiences: map<Id, ExperienceView>)

  /** `images.slice(1, 6)`: the images after the banner, at most five. */
  function Highlights(images: seq<string>): (r: seq<string>)
    ensures |r| <= 5
    ensures |images| <= 1 ==> r == []
    ensures 1 < |images| ==> |r| == (if |images| < 6 then |images| else 6) - 1
    ensures forall k :: 0 <= k < |r| ==> k + 1 < |images| && r[k] == images[k + 1]
  {
    if |images| <= 1 then [] else images[1..if |images| < 6 then |images| else 6]
  }

  /** Every experience on the itinerary has its `user` relation. */
  predicate CommentersPresent(db: Db, itineraryId: Id) {
    forall e :: e in db.experiences && db.experiences[e].itineraryId == itineraryId ==> db.experiences[e].userId in db.users
  }

  function ExperienceViewOf(db: Db, e: Id): ExperienceView
    requires e in db.experiences && db.experiences[e].userId in db.users
  {
    var x := db.experiences[e];
    var u := db.users[x.userId];
    ExperienceView(x.comment, x.upVotes, DisplayName(u), OrElse(u.profileImage, ""))
  }

  function GetItineraryById(db: Db, id: Id): (r: Outcome<ItineraryDetail>)
    ensures id !in db.itineraries <==> r == Fail(NotFound, ItineraryNotFound)
    ensures id in db.itineraries && Inv(db) ==> r.Ok?
    ensures r.Ok? ==>
      var it := db.itineraries[id];
      && r.value.banner.image == First(it.images)
      && r.value.banner.title == it.title
      && it.addedById in db.users
      && r.value.banner.addedBy == DisplayName(db.users[it.addedById])
      && r.value.caption == OrElse(it.caption, "")
      && r.value.highlights == Highlights(it.images)
      && (forall e :: e in r.value.experiences <==> e in db.experiences && db.experiences[e].itineraryId == id)
      && (forall e :: e in r.value.experiences ==>
            && db.experiences[e].userId in db.users
            && r.value.experiences[e].experience == db.experiences[e].comment
            && r.value.experiences[e].upVotes == db.experiences[e].upVotes
            && r.value.experiences[e].name == DisplayName(db.users[db.experiences[e].userId])
            && r.value.experiences[e].avatar == OrElse(db.users[db.experiences[e].userId].profileImage, ""))
  {
    if id !in db.itineraries then Fail(NotFound, ItineraryNotFound)
    else if db.itineraries[id].addedById !in db.users || !CommentersPresent(db, id) then Fail(ServerError, StoreError)
    else
      var it := db.itineraries[id];
      Ok(ItineraryDetail(
        Banner(First(it.images), it.title, DisplayName(db.users[it.addedById])),
        OrElse(it.caption, ""),
        Highlights(it.images),
        map e | e in db.experiences && db.experiences[e].itineraryId == id :: ExperienceViewOf(db, e)))
  }

  /** The highlights never include the banner position and hold the next five images in order. */
  lemma HighlightsFollowBanner(images: seq<string>)
    requires |images| >= 6
    ensures Highlights(images) == [images[1], images[2], images[3], images[4], images[5]]
  {
  }

  // ---------------------------------------------------------------------------
  // addExperience

  function AddExperience(db: Db, caller: Option<Id>, itineraryId: Id, comment: Field, newId: Id): (s: Step<Id>)
    ensures s.out.Fail? ==> s.db == db
    ensures caller.None? ==> s.out == Fail(Unauthorized, NotLoggedIn)
    ensures s.out.Ok? <==>
      caller.Some? && caller.value in db.users && itineraryId in db.itineraries && newId !in db.experiences
    ensures s.out.Ok? ==>
      && s.out.value == newId
      && s.db.experiences.Keys == db.experiences.Keys + {newId}
      && s.db.experiences[newId].userId == caller.value
      && s.db.experiences[newId].itineraryId == itineraryId
      && s.db.experiences[newId].comment == comment
      && s.db.experiences[newId].upVotes == []
      && (forall e :: e in db.experiences ==> s.db.experiences[e] == db.experiences[e])
      && s.db.(experiences := db.experiences) == db
  {
    if caller.None? then Step(Fail(Unauthorized, NotLoggedIn), db)
    else if caller.value !in db.users || itineraryId !in db.itineraries || newId in db.experiences then
      Step(Fail(ServerError, StoreError), db)
    else Step(Ok(newId), db.(experiences := db.experiences[newId := Experience(comment, [], caller.value, itineraryId)]))
  }

  /** AddExperience keeps the store invariant. */
  lemma AddExperienceKeepsInv(db: Db, caller: Option<Id>, itineraryId: Id, comment: Field, newId: Id)
    requires Inv(db)
    ensures Inv(AddExperience(db, caller, itineraryId, comment, newId).db)
  {
  }

  // ---------------------------------------------------------------------------
  // toggleUpvote

  /** `votes.filter(id => id !== u)`. */
  function Without(votes: seq<Id>, u: Id): (r: seq<Id>)
    ensures u !in r
    ensures forall v :: v != u ==> multiset(r)[v] == multiset(votes)[v]
    ensures u !in votes ==> r == votes
  {
    if votes == [] then []
    else
      assert votes == [votes[0]] + votes[1..];
      (if votes[0] == u then [] else [votes[0]]) + Without(votes[1..], u)
  }

  /** The filter as the handler runs it: one pass keeping every vote that is not the caller's. */
  method FilterOut(votes: seq<Id>, u: Id) returns (r: seq<Id>)
    ensures r == Without(votes, u)
  {
    r := [];
    var i := 0;
    while i < |votes|
      invariant 0 <= i <= |votes|
      invariant r == Without(votes[..i], u)
    {
      assert votes[..i + 1] == votes[..i] + [votes[i]];
      WithoutAppend(votes[..i], [votes[i]], u);
      assert Without([votes[i]], u) == if votes[i] == u then [] else [votes[i]];
      if votes[i] != u {
        r := r + [votes[i]];
      }
      i := i + 1;
    }
    assert votes[..i] == votes;
  }

  /** Filtering distributes over concatenation. */
  lemma {:induction false} WithoutAppend(a: seq<Id>, b: seq<Id>, u: Id)
    ensures Without(a + b, u) == Without(a, u) + Without(b, u)
  {
    if a == [] {
      assert a + b == b;
    } else {
      assert (a + b)[1..] == a[1..] + b;
      WithoutAppend(a[1..], b, u);
    }
  }

  /** The new upvote list: the caller's votes removed when present, else the caller appended. */
  function Toggle(votes: seq<Id>, u: Id): (r: seq<Id>)
    ensures u in votes ==> u !in r
    ensures u !in votes ==> r == votes + [u]
    ensures multiset(r)[u] <= 1
    ensures forall v :: v != u ==> multiset(r)[v] == multiset(votes)[v]
  {
    if u in votes then Without(votes, u) else votes + [u]
  }

  /** Toggling twice from a list without the caller restores the list. */
  lemma ToggleTwiceRestores(votes: seq<Id>, u: Id)
    requires u !in votes
    ensures Toggle(Toggle(votes, u), u) == votes
  {
    WithoutAppend(votes, [u], u);
    assert Without([u], u) == [];
  }

  datatype Toggled = Toggled(added: bool, upVotes: seq<Id>, upvoteCount: nat)

  function ToggleUpvote(db: Db, caller: Option<Id>, experienceId: Id): (s: Step<Toggled>)
    ensures s.out.Fail? ==> s.db == db
    ensures caller.None? ==> s.out == Fail(Unauthorized, NotLoggedIn)
    ensures caller.Some? && experienceId !in db.experiences ==> s.out == Fail(NotFound, ExperienceNotFound)
    ensures s.out.Ok? <==> caller.Some? && experienceId in db.experiences
    ensures s.out.Ok? ==>
      && caller.Some? && experienceId in db.experiences
      && var was := db.experiences[experienceId];
      && s.out.value.added == (caller.value !in was.upVotes)
      && s.out.value.upVotes == Toggle(was.upVotes, caller.value)
      && s.out.value.upvoteCount == |s.out.value.upVotes|
      && s.db == db.(experiences := db.experiences[experienceId := was.(upVotes := s.out.value.upVotes)])
  {
    if caller.None? then Step(Fail(Unauthorized, NotLoggedIn), db)
    else if experienceId !in db.experiences then Step(Fail(NotFound, ExperienceNotFound), db)
    else
      var was := db.experiences[experienceId];
      var hasUpvoted := caller.value in was.upVotes;
      var votes := if hasUpvoted then Without(was.upVotes, caller.value) else was.upVotes + [caller.value];
      Step(Ok(Toggled(!hasUpvoted, votes, |votes|)), db.(experiences := db.experiences[experienceId := was.(upVotes := votes)]))
  }

  /** ToggleUpvote keeps the store invariant. */
  lemma ToggleUpvoteKeepsInv(db: Db, caller: Option<Id>, experienceId: Id)
    requires Inv(db)
    ensures Inv(ToggleUpvote(db, caller, experienceId).db)
  {
  }

  /** Two toggles by the same caller, starting without their vote: added, then removed, store restored. */
  lemma ToggleUpvoteTwiceRestores(db: Db, caller: Id, experienceId: Id)
    requires experienceId in db.experiences && caller !in db.experiences[experienceId].upVotes
    ensures
      var first := ToggleUpvote(db, Some(caller), experienceId);
      var second := ToggleUpvote(first.db, Some(caller), experienceId);
      && first.out.Ok? && first.out.value.added
      && first.out.value.upvoteCount == |db.experiences[experienceId].upVotes| + 1
      && second.out.Ok? && !second.out.value.added
      && second.out.value.upvoteCount == |db.experiences[experienceId].upVotes|
      && second.db == db
  {
    var was := db.experiences[experienceId];
    ToggleTwiceRestores(was.upVotes, caller);
    var votes1 := was.upVotes + [caller];
    var was1 := was.(upVotes := votes1);
    var first := ToggleUpvote(db, Some(caller), experienceId);
    assert first == Step(Ok(Toggled(true, votes1, |votes1|)), db.(experiences := db.experiences[experienceId := was1]));
    assert caller in votes1;
    var votes2 := Without(votes1, caller);
    assert votes2 == was.upVotes;
    var second := ToggleUpvote(first.db, Some(caller), experienceId);
    assert second == Step(Ok(Toggled(false, votes2, |votes2|)),
                          first.db.(experiences := first.db.experiences[experienceId := was1.(upVotes := votes2)]));
    assert was1.(upVotes := votes2) == was;
    assert db.experiences[experienceId := was] == db.experiences;
  }

  // ---------------------------------------------------------------------------
  // addNewItinerary: the itinerary, then (non-transactionally) its first experience

  /** The body fields of an addNewItinerary request; `experienceComment` is `body.experienceComment.comment`. */
  datatype NewItinerary = NewItinerary(
    title: Field, description: Field, category: Field,
    latitude: Field, longitude: Field, address: Field, rating: Field,
    experienceComment: Field)

  function ItineraryRow(f: NewItinerary, creator: Id, pageId: Id, uploads: seq<string>): Itinerary {
    Itinerary(f.title, OrElse(f.description, ""), None, f.category, uploads,
              Structured(Location(ParseFloat(f.latitude), ParseFloat(f.longitude), f.address)),
              ParseFloat(f.rating), 0, creator, Some(pageId))
  }

  /**
   * `uploads` are the stored paths of the uploaded images, in upload order;
   * `newId` and `experienceId` are the ids the database generates.
   */
  function AddNewItinerary(db: Db, creator: Id, pageId: Id, f: NewItinerary, uploads: seq<string>,
                           newId: Id, experienceId: Id): (s: Step<Id>)
    ensures creator !in db.users ==> s == Step(Fail(NotFound, NotRegistered), db)
    ensures creator in db.users && pageId !in db.pages ==> s == Step(Fail(NotFound, PageNotFound), db)
    ensures s.out.Ok? <==>
      && creator in db.users && pageId in db.pages && newId !in db.itineraries
      && (Truthy(f.experienceComment) ==> experienceId !in db.experiences)
    ensures s.out.Ok? ==>
      && s.out.value == newId
      && s.db.itineraries.Keys == db.itineraries.Keys + {newId}
      && var row := s.db.itineraries[newId];
      && row.pageId == Some(pageId) && row.addedById == creator && row.images == uploads
      && row.title == f.title && row.description == OrElse(f.description, "") && row.category == f.category
      && row.location == Structured(Location(ParseFloat(f.latitude), ParseFloat(f.longitude), f.address))
      && row.rating == ParseFloat(f.rating) && row.caption == None && row.views == 0
      && (forall i :: i in db.itineraries ==> s.db.itineraries[i] == db.itineraries[i])
      && s.db.users == db.users && s.db.books == db.books && s.db.pages == db.pages
      && (!Truthy(f.experienceComment) ==> s.db.experiences == db.experiences)
      && (Truthy(f.experienceComment) ==>
            s.db.experiences == db.experiences[experienceId := Experience(f.experienceComment, [], creator, newId)])
    // The second insert is not joined to the first: when it fails the itinerary stays.
    ensures s.out.Fail? ==> s.db.(itineraries := db.itineraries) == db
    ensures s.out.Fail? && s.db != db ==>
      && s.out == Fail(ServerError, StoreError) && Truthy(f.experienceComment)
      && s.db.itineraries == db.itineraries[newId := ItineraryRow(f, creator, pageId, uploads)]
  {
    if creator !in db.users then Step(Fail(NotFound, NotRegistered), db)
    else if pageId !in db.pages then Step(Fail(NotFound, PageNotFound), db)
    else if newId in db.itineraries then Step(Fail(ServerError, StoreError), db)
    else
      var db1 := db.(itineraries := db.itineraries[newId := ItineraryRow(f, creator, pageId, uploads)]);
      if !Truthy(f.experienceComment) then Step(Ok(newId), db1)
      else if experienceId in db1.experiences then Step(Fail(ServerError, StoreError), db1)
      else Step(Ok(newId), db1.(experiences := db1.experiences[experienceId := Experience(f.experienceComment, [], creator, newId)]))
  }

  /** AddNewItinerary keeps the store invariant. */
  lemma AddNewItineraryKeepsInv(db: Db, creator: Id, pageId: Id, f: NewItinerary, uploads: seq<string>,
                                 newId: Id, experienceId: Id)
    requires Inv(db)
    ensures Inv(AddNewItinerary(db, creator, pageId, f, uploads, newId, experienceId).db)
  {
    if creator in db.users && pageId in db.pages && newId !in db.itineraries {
      var db1 := db.(itineraries := db.itineraries[newId := ItineraryRow(f, creator, pageId, uploads)]);
      assert ItinerariesHavePages(db1);
      assert OwnersExist(db1);
      if Truthy(f.experienceComment) && experienceId !in db1.experiences {
        var db2 := db1.(experiences := db1.experiences[experienceId := Experience(f.experienceComment, [], creator, newId)]);
        assert OwnersExist(db2);
        assert AddNewItinerary(db, creator, pageId, f, uploads, newId, experienceId).db == db2;
      } else {
        assert AddNewItinerary(db, creator, pageId, f, uploads, newId, experienceId).db == db1;
      }
    }
  }
}
