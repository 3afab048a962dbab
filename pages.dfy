/**
 * The page handlers: recording what was explored on a page, and attaching
 * an itinerary to a page or detaching it again.
 */
module Pages {
  import opened Entities

  /**
   * addPageDetails. `uploads` are the paths of the uploaded images; the list
   * replaces the page's images even when it is empty.
   */
  function AddPageDetails(db: Db, pageId: Id, title: Field, description: Field, tips: Field,
                          uploads: seq<string>): (s: Step<Page>)
    ensures pageId !in db.pages <==> s.out == Fail(NotFound, PageNotFound)
    ensures s.out.Ok? <==> pageId in db.pages
    ensures s.out.Fail? ==> s.db == db
    ensures s.out.Ok? ==>
      var was := db.pages[pageId];
      && s.db.pages.Keys == db.pages.Keys
      && s.out.value == s.db.pages[pageId]
      && s.out.value.bookId == was.bookId
      && s.out.value.status == Explored
      && s.out.value.images == uploads
      && (title.Some? ==> s.out.value.title == title) && (title.None? ==> s.out.value.title == was.title)
      && (description.Some? ==> s.out.value.description == description)
      && (description.None? ==> s.out.value.description == was.description)
      && (tips.Some? ==> s.out.value.tips == tips) && (tips.None? ==> s.out.value.tips == was.tips)
      && (forall p :: p in db.pages && p != pageId ==> s.db.pages[p] == db.pages[p])
      && s.db.(pages := db.pages) == db
  {
    if pageId !in db.pages then Step(Fail(NotFound, PageNotFound), db)
    else
      var was := db.pages[pageId];
      var upd := was.(title := Supplied(title, was.title), images := uploads,
                      description := Supplied(description, was.description),
                      tips := Supplied(tips, was.tips), status := Explored);
      Step(Ok(upd), db.(pages := db.pages[pageId := upd]))
  }

  /** AddPageDetails keeps the store invariant. */
  lemma AddPageDetailsKeepsInv(db: Db, pageId: Id, title: Field, description: Field, tips: Field,
                                uploads: seq<string>)
    requires Inv(db)
    ensures Inv(AddPageDetails(db, pageId, title, description, tips, uploads).db)
  {
  }

  /** Sending the same details twice leaves the page as sending them once. */
  lemma AddPageDetailsIdempotent(db: Db, pageId: Id, title: Field, description: Field, tips: Field,
                                 uploads: seq<string>)
    ensures
      var once := AddPageDetails(db, pageId, title, description, tips, uploads);
      AddPageDetails(once.db, pageId, title, description, tips, uploads) == once
  {
  }

  /**
   * addItineraryToPage: `connect` links the itinerary to the page (moving it
   * off any other page) and answers with the page's itineraries. A missing page
   * or itinerary makes the update throw.
   */
  function AddItineraryToPage(db: Db, pageId: Id, itineraryId: Id): (s: Step<set<Id>>)
    ensures s.out.Ok? <==> pageId in db.pages && itineraryId in db.itineraries
    ensures s.out.Fail? ==> s.out == Fail(ServerError, StoreError) && s.db == db
    ensures s.out.Ok? ==>
      && s.out.value == LinkedTo(s.db, pageId)
      && s.out.value == LinkedTo(db, pageId) + {itineraryId}
      && s.db.itineraries.Keys == db.itineraries.Keys
      && s.db.itineraries[itineraryId] == db.itineraries[itineraryId].(pageId := Some(pageId))
      && (forall i :: i in db.itineraries && i != itineraryId ==> s.db.itineraries[i] == db.itineraries[i])
      && s.db.(itineraries := db.itineraries) == db
  {
    if pageId !in db.pages || itineraryId !in db.itineraries then Step(Fail(ServerError, StoreError), db)
    else
      var db1 := db.(itineraries := db.itineraries[itineraryId := db.itineraries[itineraryId].(pageId := Some(pageId))]);
      Step(Ok(LinkedTo(db1, pageId)), db1)
  }

  /** AddItineraryToPage keeps the store invariant. */
  lemma AddItineraryToPageKeepsInv(db: Db, pageId: Id, itineraryId: Id)
    requires Inv(db)
    ensures Inv(AddItineraryToPage(db, pageId, itineraryId).db)
  {
  }

  /** Attaching twice is attaching once. */
  lemma AddItineraryToPageIdempotent(db: Db, pageId: Id, itineraryId: Id)
    ensures
      var once := AddItineraryToPage(db, pageId, itineraryId);
      AddItineraryToPage(once.db, pageId, itineraryId) == once
  {
    var once := AddItineraryToPage(db, pageId, itineraryId);
    if once.out.Ok? {
      assert once.db.itineraries[itineraryId := once.db.itineraries[itineraryId].(pageId := Some(pageId))] == once.db.itineraries;
    }
  }

  /** deleteItineraryFromPage: only an itinerary linked to the page is detached. */
  function DeleteItineraryFromPage(db: Db, pageId: Id, itineraryId: Id): (s: Step<()>)
    ensures pageId !in db.pages <==> s.out == Fail(NotFound, PageNotFound)
    ensures pageId in db.pages && itineraryId !in LinkedTo(db, pageId) <==> s.out == Fail(NotFound, ItineraryNotOnPage)
    ensures s.out.Ok? <==> pageId in db.pages && itineraryId in LinkedTo(db, pageId)
    ensures s.out.Fail? ==> s.db == db
    ensures s.out.Ok? ==>
      && LinkedTo(s.db, pageId) == LinkedTo(db, pageId) - {itineraryId}
      && s.db.itineraries.Keys == db.itineraries.Keys
      && s.db.itineraries[itineraryId] == db.itineraries[itineraryId].(pageId := None)
      && (forall i :: i in db.itineraries && i != itineraryId ==> s.db.itineraries[i] == db.itineraries[i])
      && s.db.(itineraries := db.itineraries) == db
  {
    if pageId !in db.pages then Step(Fail(NotFound, PageNotFound), db)
    else if itineraryId !in LinkedTo(db, pageId) then Step(Fail(NotFound, ItineraryNotOnPage), db)
    else Step(Ok(()), db.(itineraries := db.itineraries[itineraryId := db.itineraries[itineraryId].(pageId := None)]))
  }

  /** DeleteItineraryFromPage keeps the store invariant. */
  lemma DeleteItineraryFromPageKeepsInv(db: Db, pageId: Id, itineraryId: Id)
    requires Inv(db)
    ensures Inv(DeleteItineraryFromPage(db, pageId, itineraryId).db)
  {
  }

  /** Attaching an unlinked itinerary and detaching it again restores the store. */
  lemma AttachThenDetachRestores(db: Db, pageId: Id, itineraryId: Id)
    requires pageId in db.pages && itineraryId in db.itineraries && db.itineraries[itineraryId].pageId.None?
    ensures
      var attached := AddItineraryToPage(db, pageId, itineraryId);
      var detached := DeleteItineraryFromPage(attached.db, pageId, itineraryId);
      attached.out.Ok? && detached.out.Ok? && detached.db == db
  {
    var attached := AddItineraryToPage(db, pageId, itineraryId);
    var detached := DeleteItineraryFromPage(attached.db, pageId, itineraryId);
    assert itineraryId in LinkedTo(attached.db, pageId);
    assert detached.db.itineraries[itineraryId] == db.itineraries[itineraryId];
    assert detached.db.itineraries == db.itineraries;
  }
}
