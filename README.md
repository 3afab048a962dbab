# Travel_Book server controllers in Dafny

Travel_Book is a travel-journal web application. Users register and then
write travel books made of pages. They attach itineraries (places of
interest with a location, rating and images) to pages, and comment on
itineraries with experiences that other users can upvote. This project
models the application's server controllers. They are the Express handlers
for books, pages, itineraries, experiences, profiles and authentication,
plus the `formatTimeAgo` helper. The model proves what each handler answers
and how it changes the database.

The model has two layers.

* **Specification layer** (`entities.dfy`, `books.dfy`, `itineraries.dfy`,
  `pages.dfy`, `profiles.dfy`, `auth.dfy`).
  * The database is a value `Db` holding five tables: users, books, pages,
    itineraries and experiences. Each table is a map from row id to row.
  * Each read handler is a function from the database to an
    `Outcome`. An outcome is `Ok(data)` or `Fail(status, reason)`, and the
    status is the HTTP code the handler actually sends.
  * Each mutating handler is a transition function returning a `Step`: the
    outcome plus the new database.
  * ORM calls are written as map updates. `deleteMany` and `updateMany`
    filter or rewrite the matching rows. `connect` and `disconnect` set or
    clear `itinerary.pageId`.
  * An ORM call that throws becomes `Fail(ServerError, StoreError)` and
    leaves the tables as they were. Such calls are a missing foreign key, a
    violated unique index or a reused id.
  * The store invariant `Inv` says four things: every page's book exists,
    every itinerary's page exists, user emails are unique, and every book,
    itinerary and experience owner exists. Every mutating handler has a
    `…KeepsInv` lemma proving it preserves `Inv`.
* **Imperative layer** (`store.dfy`).
  * `Store.EntityStore` is a class whose fields are the five tables.
  * It has one method per mutating handler. Each method runs the handler's
    guards in order and returns at the first that fails. Otherwise it
    reassigns the tables in the order the handler's ORM calls run, including
    the three ordered deletes of `deleteBook`'s transaction and the
    filtering loop of `toggleUpvote`.
  * Each method is proved to produce exactly the specification function's
    answer and new tables, and to keep `Valid()`, which is `Inv` of the
    tables.

`format_date.dfy` models `formatTimeAgo`, taking the elapsed milliseconds as
a parameter. It pairs the formatter with an independent parser of the
rendered text (`ParseAgo`) and proves that the parser reads back the unit and
count that were chosen.

`scenarios.dfy` holds two properties that span several handlers. The first:
a password that was just reset is the one that signs in. The second is a
concrete book, page and itinerary whose deletion restores the starting store
(one user, no books).

Notable behaviour of the code as written, which the model follows:

* `deleteBook` deletes the itineraries on the book's pages; it does not
  detach them.
* `addPageDetails` replaces the page's images with the uploaded list, so a
  request with no uploads clears them.
* `addPageToBook` and `deletePageFromBook` check no ownership.
* `addItineraryToPage` answers 500, not 404, for a missing page or itinerary.
* `createBook` answers 404 for a missing title.
* `register` answers 403 for missing fields.
* Experience upvotes are a list. The filter removes every copy of the
  caller's id, and a push appends one copy.

Conventions:

* A request field is a `Field` (`Option<string>`), where `None` means
  `undefined`.
* JavaScript truthiness of a field is `Truthy`: present and not `""`.
* The caller is the id that the authentication middleware puts on the
  request. It is `None` when the handler checks `req.user` and there is none.
* New row ids, the clock, the password hash and the hash comparison are
  parameters.

## Model

| member | source | states |
|---|---|---|
| `Entities.DisplayName` | server-side/src/controllers/ItineraryController.ts:115 | a display name is the first name, one space, then the last name |
| `Entities.Code` | server-side/src/controllers/BookController.ts:153-171 | an outcome's HTTP code is 200 exactly when it is a success; failures are in 400..500 |
| `Books.GetMyBook` | server-side/src/controllers/BookController.ts:7-47 | no caller gives 401; otherwise the answer holds exactly the caller's books, each as its summary fields |
| `Books.GetBookDescriptionById` | server-side/src/controllers/BookController.ts:50-105 | success exactly when the book exists, else 404; a success carries the book's title, description, tags and image, exactly its pages with each page's title, description, tips and images, and exactly each page's linked itineraries with their title, category and location |
| `Books.GetPlanningBookById` | server-side/src/controllers/BookController.ts:108-180 | the corrected handler: 401 without a caller, 404 for a missing book, 401 for a non-owner, and success exactly for the owner of an existing book; a success carries the book's fields, exactly its pages with their title and status, and exactly each page's linked itineraries with their titles |
| `Books.PlanningBookRepliesAsWritten` | server-side/src/controllers/BookController.ts:153-178 | the answers the handler as written attempts; when more than one is attempted the last is the 500 of the `catch`, and a first answer of 200 is the only one |
| `Books.PlanningBookMissingAnswersThrice` | server-side/src/controllers/BookController.ts:153-165 | a missing book makes the handler as written attempt 404, then 401, then 500 |
| `Books.PlanningBookNonOwnerAnswersThrice` | server-side/src/controllers/BookController.ts:160-178 | a non-owner makes the handler as written attempt 401, then the 200 with the book, then 500 |
| `Books.PlanningBookFirstReplyAgrees` | server-side/src/controllers/BookController.ts:108-180 | the first attempted answer is the corrected handler's status code, and only one answer is attempted exactly when the corrected handler answers 401 for no caller or succeeds |
| `Books.GetBookWithPages` | server-side/src/controllers/BookController.ts:234-297 | no caller gives 401; 404 exactly when the caller owns no book, and success exactly when the caller owns one; a success carries exactly the caller's books with their fields, each with exactly its pages and those pages' title, status, images, description, tips and exactly their linked itineraries with their titles |
| `Books.CreateBook` | server-side/src/controllers/BookController.ts:183-231 | 401 without a caller and 404 without a truthy title, changing nothing; success exactly when the owner exists and the id is fresh, adding one book owned by the caller with the title, status Planning and no pages |
| `Books.CreateBookKeepsInv` | server-side/src/controllers/BookController.ts:204-216 | creating a book keeps the store invariant |
| `Books.AddBookDetails` | server-side/src/controllers/BookController.ts:301-414 | the guards in order (401, 400 nothing to update, 400 bad tags, 404, 403 non-owner) with nothing changed; past them, success exactly when the visibility and status values are enum names, else 500; on success only the book changes: title if truthy, a supplied description replaces the old one, an empty one becoming null, tags if the parsed list is non-empty, imageUrl whenever a file is uploaded, visibility and status if truthy, owner kept |
| `Books.AddBookDetailsKeepsInv` | server-side/src/controllers/BookController.ts:384-388 | a book update keeps the store invariant |
| `Books.DescriptionOnlyUpdate` | server-side/src/controllers/BookController.ts:362-388 | an owner's description-only update returns the book with only its description changed |
| `Books.DeleteBook` | server-side/src/controllers/BookController.ts:417-482 | 404 for a missing book and 403 for a non-owner, changing nothing; on success the book, its pages and the itineraries on its pages are gone, and every other row is unchanged |
| `Books.DeleteBookKeepsInv` | server-side/src/controllers/BookController.ts:445-468 | the three-step delete leaves no page without its book and no itinerary without its page |
| `Books.AddPageToBook` | server-side/src/controllers/BookController.ts:486-529 | 404 for a missing book, changing nothing; on success one new page on that book with the title, status Planning, no images and no itineraries, other pages unchanged |
| `Books.AddPageToBookKeepsInv` | server-side/src/controllers/BookController.ts:502-509 | adding a page keeps the store invariant |
| `Books.DeletePageFromBook` | server-side/src/controllers/BookController.ts:532-579 | 404 for a missing book or a page not in it, changing nothing; on success the page is gone, its itineraries remain with `pageId` cleared, and no other row changes |
| `Books.DeletePageFromBookKeepsInv` | server-side/src/controllers/BookController.ts:551-565 | detaching then deleting a page keeps the store invariant |
| `Itineraries.GetAllItineraries` | server-side/src/controllers/ItineraryController.ts:7-66 | every itinerary appears with its title, category, first image, location as an object, rating, views and its owner's name; the books listed are exactly the Public ones, each with its title, image and owner's name; a well-formed store always succeeds and any failure is a 500 |
| `Itineraries.Highlights` | server-side/src/controllers/ItineraryController.ts:129 | `images.slice(1, 6)`: at most five images, the ones after the banner, in order |
| `Itineraries.GetItineraryById` | server-side/src/controllers/ItineraryController.ts:69-147 | 404 exactly for an unknown id; otherwise the banner is the first image with the title and the owner's name, the caption defaults to "", and there is one formatted experience per stored experience of that itinerary, carrying its comment, upvotes, the commenter's name and the commenter's profile image or "" |
| `Itineraries.HighlightsFollowBanner` | server-side/src/controllers/ItineraryController.ts:108-129 | with six or more images the highlights are exactly images 1 to 5, never the banner |
| `Itineraries.AddExperience` | server-side/src/controllers/ItineraryController.ts:150-191 | no caller gives 401 and changes nothing; success exactly when the caller and itinerary exist and the id is fresh, adding one experience by the caller on that itinerary with the comment and no upvotes |
| `Itineraries.AddExperienceKeepsInv` | server-side/src/controllers/ItineraryController.ts:162-170 | adding an experience keeps the store invariant |
| `Itineraries.Without` | server-side/src/controllers/ItineraryController.ts:226 | the filter removes every vote of the caller and keeps the count of every other voter |
| `Itineraries.FilterOut` | server-side/src/controllers/ItineraryController.ts:226 | the filtering loop computes exactly `Without` |
| `Itineraries.WithoutAppend` | server-side/src/controllers/ItineraryController.ts:226 | filtering a concatenation is concatenating the filtered parts |
| `Itineraries.Toggle` | server-side/src/controllers/ItineraryController.ts:220-228 | a present caller is removed entirely; an absent caller is appended; the caller ends with at most one vote and other voters keep their counts |
| `Itineraries.ToggleTwiceRestores` | server-side/src/controllers/ItineraryController.ts:220-228 | toggling twice from a list without the caller restores the list |
| `Itineraries.ToggleUpvote` | server-side/src/controllers/ItineraryController.ts:194-251 | 401 without a caller and 404 for an unknown experience, changing nothing; success exactly for a caller and an existing experience, and then only that experience's upvotes change, to the toggled list, with `upvoteCount` its length |
| `Itineraries.ToggleUpvoteKeepsInv` | server-side/src/controllers/ItineraryController.ts:222-228 | an upvote toggle keeps the store invariant |
| `Itineraries.ToggleUpvoteTwiceRestores` | server-side/src/controllers/ItineraryController.ts:194-251 | two toggles by one caller first add a vote, then remove it, and restore the store |
| `Itineraries.AddNewItinerary` | server-side/src/controllers/ItineraryController.ts:272-365 | 404 for a missing creator or page, changing nothing; success exactly when both exist, the id is fresh and, when a comment is given, the experience id is fresh; a success adds one itinerary on that page by the creator with the title, `description` or "", category, parsed location and rating, and the uploads in order, plus one experience exactly when a comment is given; a failing second insert leaves the itinerary in place |
| `Itineraries.AddNewItineraryKeepsInv` | server-side/src/controllers/ItineraryController.ts:326-350 | creating an itinerary and its first experience keeps the store invariant |
| `Pages.AddPageDetails` | server-side/src/controllers/PageController.ts:7-61 | 404 exactly for a missing page, changing nothing, and success exactly for an existing page; then only that page changes: status Explored, images replaced by the uploads (even none), title, description and tips replaced when supplied |
| `Pages.AddPageDetailsKeepsInv` | server-side/src/controllers/PageController.ts:36-46 | recording page details keeps the store invariant |
| `Pages.AddPageDetailsIdempotent` | server-side/src/controllers/PageController.ts:36-46 | sending the same details twice is sending them once |
| `Pages.AddItineraryToPage` | server-side/src/controllers/PageController.ts:64-100 | success exactly when page and itinerary exist (else 500, nothing changed); only that itinerary's `pageId` changes, and the answer is the page's links, which gain the itinerary |
| `Pages.AddItineraryToPageKeepsInv` | server-side/src/controllers/PageController.ts:69-77 | connecting an itinerary keeps the store invariant |
| `Pages.AddItineraryToPageIdempotent` | server-side/src/controllers/PageController.ts:69-77 | connecting twice is connecting once |
| `Pages.DeleteItineraryFromPage` | server-side/src/controllers/PageController.ts:105-154 | 404 "page not found" exactly for a missing page and 404 "not on this page" exactly for an unlinked itinerary, changing nothing; success exactly for a linked itinerary, and then only its link is cleared and it still exists |
| `Pages.DeleteItineraryFromPageKeepsInv` | server-side/src/controllers/PageController.ts:133-140 | disconnecting an itinerary keeps the store invariant |
| `Pages.AttachThenDetachRestores` | server-side/src/controllers/PageController.ts:69-140 | connecting an unlinked itinerary and disconnecting it again restores the store |
| `Profiles.GetUserProfile` | server-side/src/controllers/UserProfileController.ts:42-76 | 404 exactly for a missing user and success exactly for an existing one, carrying every column of the row except the password |
| `Profiles.ProfileHidesPassword` | server-side/src/controllers/UserProfileController.ts:46-61 | the profile read does not depend on the stored password hash |
| `Profiles.UpdateUserProfile` | server-side/src/controllers/UserProfileController.ts:90-138 | 404 exactly for a missing user and 500 exactly when the merged email belongs to another user, changing nothing; success in every other case, and then each of the seven fields takes the new value when truthy and keeps the old one otherwise, password and socialLinks are untouched, no other user changes, and the answer is the row as read before the update |
| `Profiles.UpdateUserProfileKeepsInv` | server-side/src/controllers/UserProfileController.ts:109-123 | a profile update keeps emails unique and the store invariant |
| `Profiles.EmptyProfileChangeIsNoOp` | server-side/src/controllers/UserProfileController.ts:109-123 | a body with nothing truthy leaves the store unchanged |
| `Profiles.UpdateUserProfileIdempotent` | server-side/src/controllers/UserProfileController.ts:109-123 | sending the same changes twice is sending them once |
| `Profiles.ResetPassword` | server-side/src/controllers/UserProfileController.ts:145-196 | 401 exactly for a missing field, 404 exactly for a missing user, 401 exactly for a wrong old password, none changing anything; success exactly when the old password matches, and then only the user's password changes, to the hash of the new one |
| `Profiles.ResetPasswordKeepsInv` | server-side/src/controllers/UserProfileController.ts:177-182 | a password reset keeps the store invariant |
| `Auth.Register` | server-side/src/controllers/AuthControllers.ts:22-107 | 403 exactly for a missing field, 400 exactly for mismatched passwords, 400 exactly for a taken email, none changing anything; success exactly when none of these holds and the id is fresh, adding exactly one user with the form's names, email, gender and date of birth, the hashed password, empty optional columns, no last login and the join time, and answering with the form's first and last name |
| `Auth.RegisterKeepsInv` | server-side/src/controllers/AuthControllers.ts:47-73 | sign-up keeps emails unique and the store invariant |
| `Auth.RegisterTwiceRefused` | server-side/src/controllers/AuthControllers.ts:47-56 | a second sign-up with the same form is refused as an existing user |
| `Auth.UserWithEmail` | server-side/src/controllers/AuthControllers.ts:130-132 | the user found by email has that email and is the only such user |
| `Auth.Login` | server-side/src/controllers/AuthControllers.ts:115-187 | 400 exactly for a missing field and 401 exactly for an unknown email, none changing anything; for a known email, success exactly when the password matches that user's hash and 401 exactly when it does not; on success only that user's `lastLogin` changes, to now, and the answer is the user's name |
| `Auth.LoginKeepsInv` | server-side/src/controllers/AuthControllers.ts:153-156 | signing in keeps the store invariant |
| `Auth.CurrentUser` | server-side/src/controllers/AuthControllers.ts:190-229 | 400 exactly when the session lacks an id or email; otherwise the session's email with the user's name, or "undefined undefined" for a missing user |
| `FormatDate.NatToString` | server-side/src/utils/FormatDate/FormatDate.ts:10-12 | a count is written as one or more decimal digits |
| `FormatDate.IntToString` | server-side/src/utils/FormatDate/FormatDate.ts:10-12 | an integer count is written as a non-empty string |
| `FormatDate.Bucket` | server-side/src/utils/FormatDate/FormatDate.ts:4-13 | days exactly when there is a whole day, hours exactly when there is no whole day but a whole hour, else minutes, each with the floor count |
| `FormatDate.NatToStringValue` | server-side/src/utils/FormatDate/FormatDate.ts:10-12 | the digits written denote the count |
| `FormatDate.IntToStringParses` | server-side/src/utils/FormatDate/FormatDate.ts:10-12 | the written count, negative ones included, reads back as that count |
| `FormatDate.RenderParses` | server-side/src/utils/FormatDate/FormatDate.ts:10-12 | every rendered count and unit reads back as that count and unit |
| `FormatDate.FormatTimeAgo` | server-side/src/utils/FormatDate/FormatDate.ts:4-13 | the text of `formatTimeAgo` reads back through the independent parser as exactly the unit and count it chose |
| `FormatDate.Thresholds` | server-side/src/utils/FormatDate/FormatDate.ts:5-8 | days are shown from 86 400 000 ms on, hours from 3 600 000 ms and minutes from 60 000 ms |
| `FormatDate.BucketRanges` | server-side/src/utils/FormatDate/FormatDate.ts:5-12 | for a past time, hours are 1 to 23, minutes 0 to 59, and days at least 1 |
| `FormatDate.CountsMonotone` | server-side/src/utils/FormatDate/FormatDate.ts:5-8 | a larger elapsed time never gives a smaller minutes, hours or days count |
| `Store.EntityStore.constructor` | server-side/src/controllers/BookController.ts:4 | a new store is empty and valid |
| `Store.EntityStore.CreateBook` | server-side/src/controllers/BookController.ts:183-231 | answers and updates the tables exactly as `Books.CreateBook`, keeping the invariant |
| `Store.EntityStore.AddBookDetails` | server-side/src/controllers/BookController.ts:301-414 | answers and updates the tables exactly as `Books.AddBookDetails`, keeping the invariant |
| `Store.EntityStore.DeleteBook` | server-side/src/controllers/BookController.ts:417-482 | runs the three ordered deletes and ends exactly as `Books.DeleteBook`, keeping the invariant |
| `Store.EntityStore.AddPageToBook` | server-side/src/controllers/BookController.ts:486-529 | answers and updates the tables exactly as `Books.AddPageToBook`, keeping the invariant |
| `Store.EntityStore.DeletePageFromBook` | server-side/src/controllers/BookController.ts:532-579 | detaches, then deletes, ending exactly as `Books.DeletePageFromBook`, keeping the invariant |
| `Store.EntityStore.AddExperience` | server-side/src/controllers/ItineraryController.ts:150-191 | answers and updates the tables exactly as `Itineraries.AddExperience`, keeping the invariant |
| `Store.EntityStore.ToggleUpvote` | server-side/src/controllers/ItineraryController.ts:194-251 | filters or pushes, then writes back, ending exactly as `Itineraries.ToggleUpvote`, keeping the invariant |
| `Store.EntityStore.AddNewItinerary` | server-side/src/controllers/ItineraryController.ts:272-365 | two sequential inserts ending exactly as `Itineraries.AddNewItinerary`, keeping the invariant |
| `Store.EntityStore.AddPageDetails` | server-side/src/controllers/PageController.ts:7-61 | answers and updates the tables exactly as `Pages.AddPageDetails`, keeping the invariant |
| `Store.EntityStore.AddItineraryToPage` | server-side/src/controllers/PageController.ts:64-100 | answers and updates the tables exactly as `Pages.AddItineraryToPage`, keeping the invariant |
| `Store.EntityStore.DeleteItineraryFromPage` | server-side/src/controllers/PageController.ts:105-154 | answers and updates the tables exactly as `Pages.DeleteItineraryFromPage`, keeping the invariant |
| `Store.EntityStore.UpdateUserProfile` | server-side/src/controllers/UserProfileController.ts:90-138 | answers and updates the tables exactly as `Profiles.UpdateUserProfile`, keeping the invariant |
| `Store.EntityStore.ResetPassword` | server-side/src/controllers/UserProfileController.ts:145-196 | answers and updates the tables exactly as `Profiles.ResetPassword`, keeping the invariant |
| `Store.EntityStore.Register` | server-side/src/controllers/AuthControllers.ts:22-107 | answers and updates the tables exactly as `Auth.Register`, keeping the invariant |
| `Store.EntityStore.Login` | server-side/src/controllers/AuthControllers.ts:115-187 | answers and updates the tables exactly as `Auth.Login`, keeping the invariant |
| `Scenarios.ResetPasswordThenLogin` | server-side/src/controllers/UserProfileController.ts:177-182 | after a successful reset, signing in with the user's email and the new password succeeds |
| `Scenarios.DeletingABookDeletesItsPlan` | server-side/src/controllers/BookController.ts:445-468 | create book, add page, add an itinerary to it, delete the book: every step succeeds and the store ends as it began |

## Left out

- Token signing and checking (`jwt.sign`, `jwt.verify`), cookies, `logout` (it only clears a cookie), and the passport session. The caller is a parameter.
- bcrypt hashing and comparison. They are function parameters, so nothing is assumed about them beyond what a lemma requires.
- File uploads to cloud storage. Upload results are a given list of path strings.
- `parseFloat` of latitude, longitude and rating. It is the uninterpreted value `ParseFloat(text)`.
- `JSON.parse` of tags and of a string-stored location. These are given parse results (`Json(text, parsed)`).
- `formatDate`, which depends on locale formatting.
- The banner's formatted `lastUpdatedAt` and every `updatedAt` or `createdAt` timestamp. The clock is a parameter only for `dateJoined` and `lastLogin`.
- Response details beyond the status and data: message texts, the `success` flag, and `include`d relations that are not part of the data modelled.
- Row order. Tables are maps, so answers that list rows (books, pages, itineraries, experiences) are maps keyed by id, not ordered lists.
- `Itineraries.GetItineraryById`: does not state that experiences are listed in stored order, because the experience table is a map.
- `Itineraries.Without`: does not state that the filtered list keeps the order of the remaining votes; it states the counts per voter.
- `Itineraries.Toggle`: likewise states counts per voter, not order, when the caller's votes are removed.
- Database schema constraints that are not visible in the controllers: required columns, field lengths, the Gender and Category enums, and whether an invalid value makes the ORM throw. Only the Visibility and BookStatus enums are checked (an unknown value is a 500).
- Column defaults. The controllers do not show them; the model assumes a new book's visibility is Private, and a new itinerary's caption is null and its views 0 (`Entities.DefaultVisibility`, `Itineraries.ItineraryRow`).
- A missing `req.user` in handlers that never check it (`getUserProfile`, `updateUserProfile`, `resetPassword`, `addNewItinerary`). Those take a present caller id. With no caller the ORM's `findFirst` would ignore the undefined filter and match an arbitrary row; this is not modelled.
- The `select: { password: false }` of `getUserProfile` is taken to mean "every column but the password". Whether the ORM accepts a selection with no `true` field is not modelled.
- What deleting an itinerary does to its experiences. The invariant does not require an experience's itinerary to exist.
- Concurrency: the same-user upvote race and transaction isolation. Each handler is one atomic step.
- Routing. These concern the route files, not the handlers. `deleteBook` and `getPlanningBookById` have no route. The `toggleUpvote` route names its parameter `itineraryId` while the handler reads `experienceId`, so a routed request looks up an undefined id. `addBookDetails` is routed at `/add-book-details`, with no `:bookId` and no upload middleware, so a routed request has no book id and never carries a file. The page router's `addItinerariesToPage` path ends in a stray quote, so only a request path that contains that quote reaches the handler. The page routes have no upload middleware either, so `addPageDetails` always sees no uploads. The `/me` route has no authentication middleware and the server sets up no session, so a routed `currentUser` never sees `req.user` and always answers 400.
- Body values other than strings. JSON and form bodies can carry `null`, numbers, arrays or objects; the model takes every request field to be a string or absent.
- `addNewItinerary` reads the first experience as `experienceComment.comment`. The model takes that comment as given and does not model how a multipart form body would encode it.
- The `getPlanningBookById` error path after the first answer. The model lists the attempted answers; the unhandled rejection that the `catch` block's own failure causes is not modelled.
- The commented-out wishlist controller and the map handler in the profile controller, which are not code.

## Findings

| source | as written | input that shows it | evidently intended | confidence | as-written member | corrected member |
|---|---|---|---|---|---|---|
| server-side/src/controllers/BookController.ts:153-171 | the 404 and 401 answers have no `return`, so the handler goes on to answer again; that second answer throws because the headers are already sent, and the `catch` then tries a 500 (a non-owner attempts 401, then the 200 with the book, then 500) | a signed-in caller asks for a book id that does not exist: the handler attempts 404, then 401, then 500 | each failure answer ends the handler, as the 401 for a missing login does | not executed | `Books.PlanningBookRepliesAsWritten` (with `Books.PlanningBookMissingAnswersThrice`, `Books.PlanningBookNonOwnerAnswersThrice`) | `Books.GetPlanningBookById` (with `Books.PlanningBookFirstReplyAgrees`) |
