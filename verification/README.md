# FireStorm Esports — a Dafny model of the tournament and blog core

FireStorm Esports is a small esports site. Its server keeps six tables in
memory: users, tournaments, registrations, blog posts, contact messages and
newsletter subscriptions. It answers a handful of JSON routes. Its pages derive
lists, panels and buttons from the tournaments and posts the server returns.

This project models that core as pure functions over immutable values:

- `Wrappers`, `Text`, `Seqs`, `Tables`: the JavaScript building blocks the code
  relies on. These are `Option`, ASCII `toLowerCase`/`toUpperCase`,
  `startsWith` and `includes`, `filter`/`find`/`slice`/`sort`, and a `Map`
  that remembers its insertion order.
- `Schema`: the records of `shared/schema.ts`, their column defaults, the
  insert shapes, and the zod parsing of the three request bodies.
- `Storage`: `MemStorage`. Each operation takes a store. The getters return
  only their result, `IncrementPostViews` returns only the new store, and
  the other writing operations return the new store together with the
  record they created or updated. Fresh ids and the clock readings are
  parameters.
- `Routes`: the route handlers. Each returns a status code and a body. The
  handlers that write (registration, post view, contact, newsletter) also
  return the store after the request.
- `TournamentCard`, `EventsPage`, `TournamentsPage`, `RegistrationForm`,
  `BlogPage`, `Navigation`: what each client file derives from the data. This
  covers which tournaments are listed, which post or tournament is featured,
  which button a card shows, what the registration form posts, which navigation
  link is highlighted, and when the dialog and the mobile menu are open.

Two invariants run through the model:

- Every tournament is stored under its own id (`Storage.KeysMatch`).
- No tournament holds more players than it admits (`Storage.CapacityOk`).

The registration route keeps the capacity invariant, one request at a time
and along any run of requests. It keeps the id invariant too; while that
holds, its write-back agrees with the corrected one under "## Findings".

Two facts about the code are easy to miss:

- The registration route checks capacity before status (server/routes.ts:40-46),
  so a full tournament that is also completed is reported as full.
- The text fields of the insert schemas only have to be strings; nothing
  requires them to be non-empty (shared/schema.ts:81-100).

## Model

| member | source | states |
|---|---|---|
| `Schema.ParseStatusText` | shared/schema.ts:20 | Reading back a stored status text gives the status that was stored. |
| `Schema.StatusTextParse` | shared/schema.ts:20 | Any status column text survives being read as a status and written back. |
| `Schema.StatusEqualityIsTextEquality` | shared/schema.ts:20 | Two statuses are equal exactly when their column texts are, so comparing with `"live"` and the like is the same as comparing statuses. |
| `Schema.ParseRegistration` | shared/schema.ts:81-87 | An accepted body is exactly the body of an insert with age 10..18 and a well-formed email. A rejected body is the body of no such insert. A consent flag that is neither absent nor a boolean is rejected. |
| `Schema.ParseContact` | shared/schema.ts:96-100 | A contact body is accepted exactly when it is the body of some contact insert, that is when all four fields are strings. |
| `Schema.ParseNewsletter` | shared/schema.ts:102-108 | A newsletter body is accepted exactly when its email is present and well formed, and the insert then carries that email. |
| `Schema.RegistrationRoundTrip` | shared/schema.ts:81-87 | Parsing the body of an insert gives the insert back when it meets the refinements, and a rejection otherwise. |
| `Schema.AgeOutOfRangeRejected` | shared/schema.ts:85 | A body whose age is below 10 or above 18 is rejected. |
| `Schema.ConsentFieldRules` | shared/schema.ts:35 | The consent flag may be left out or be a boolean. Any other value is rejected, and a left-out flag parses to an insert without one. |
| `Schema.BadEmailRejected` | shared/schema.ts:102-108 | A malformed email is rejected both by the registration schema and by the newsletter schema. |
| `Schema.IsFull` | server/routes.ts:40 | A tournament is full exactly when one more player would take the count past the maximum. |
| `Storage.EmptyStore` | server/storage.ts:54-60 | The six empty tables satisfy the table, id and capacity invariants. |
| `Storage.GetUser` | server/storage.ts:193-195 | The lookup finds a user exactly when the id is a key, and then gives that row. |
| `Storage.GetUserByUsername` | server/storage.ts:197-201 | The first user in insertion order whose username matches is returned, and nothing exactly when no user has that username. |
| `Storage.CreateUser` | server/storage.ts:203-208 | The new user carries the fresh id and the given credentials and is stored under that id. No other row or table changes. |
| `Storage.GetTournaments` | server/storage.ts:211-215 | The list is in ascending start date and is a permutation of the stored tournaments. It has one entry per row. |
| `Storage.GetTournament` | server/storage.ts:217-219 | The lookup finds a tournament exactly when the id is a key, and then gives that row. |
| `Storage.NewTournament` | server/storage.ts:221-228 | The created tournament copies every insert field, takes the fresh id and the current time, and starts at 0 players when none are given. |
| `Storage.CreateTournament` | server/storage.ts:221-231 | The new tournament is stored under its fresh id and no other tournament changes. The id and capacity invariants are kept when the new row is within capacity. |
| `Storage.ApplyPatch` | server/storage.ts:237 | Each field of the result is the patch's value when present and the stored value otherwise. |
| `Storage.PatchLaws` | server/storage.ts:237 | The empty patch changes nothing, and applying a patch twice is the same as applying it once. |
| `Storage.UpdateTournament` | server/storage.ts:233-240 | A missing id gives no result and no change. Otherwise the patched tournament is stored and returned under the same key, and every other key is untouched. |
| `Storage.UpdateKeysMatch` | server/storage.ts:233-240 | After an update every tournament is still stored under its own id exactly when the patch leaves `id` alone or sets it to the key. |
| `Storage.UpdateMayBreakCapacity` | server/storage.ts:233-240 | An update can raise the player count past the maximum, so updates do not keep the capacity invariant. |
| `Storage.RegistrationsFor` | server/storage.ts:246 | The result keeps, in order and with their counts, exactly the registrations for the given tournament. |
| `Storage.GetRegistrations` | server/storage.ts:243-249 | A non-empty tournament id gives exactly that tournament's registrations in insertion order. A missing or empty id gives all of them. |
| `Storage.NewRegistration` | server/storage.ts:253-258 | The registration copies the insert, takes the fresh id and the current time, and records consent as false when none is given. |
| `Storage.AddPlayer` | server/storage.ts:264-267 | The player count goes up by exactly one and nothing else changes. |
| `Storage.CreateRegistration` | server/storage.ts:251-272 | The registration is stored under its fresh id. The tournament it names, when present, gains exactly one player under the same key. No other tournament or table changes, and the table and id invariants are kept. |
| `Storage.CreateRegistrationAsWritten` | server/storage.ts:262-268 | The registration and the registrations table are those of the corrected version. The looked-up tournament, one player up, is written under its own `id` field; every other key, and every other table, is unchanged. A missing tournament leaves the tournaments table as it was. Capacity is kept when the tournament has room. |
| `Storage.AsWrittenAgreesWhenKeysMatch` | server/storage.ts:262-268 | Whenever every tournament is stored under its own id, the as-written and corrected versions give the same store. |
| `Storage.AsWrittenMissesRenamedTournament` | server/storage.ts:262-268 | After a tournament's `id` field is changed by an update, the as-written version leaves the counter at 0 and adds a stray row. The corrected version counts the player. |
| `Storage.GetBlogPosts` | server/storage.ts:275-279 | The list is newest first and is a permutation of the stored posts. |
| `Storage.GetBlogPost` | server/storage.ts:281-283 | The lookup finds a post exactly when the id is a key, and then gives that row. |
| `Storage.NewBlogPost` | server/storage.ts:287-294 | The post copies the insert and starts at 0 views. A missing or empty image URL is stored as absent. Creation and update times are two separate clock readings. |
| `Storage.CreateBlogPost` | server/storage.ts:285-297 | The new post is stored under its fresh id. No other post or table changes. |
| `Storage.IncrementPostViews` | server/storage.ts:299-305 | A stored post gains exactly one view and nothing else about it changes. A missing id leaves the store unchanged. |
| `Storage.ViewsCount` | server/storage.ts:299-305 | Incrementing n times adds exactly n views and changes no other field of the post. |
| `Storage.CreateContact` | server/storage.ts:308-318 | The message is stored under its fresh id with status "pending" and the given fields. No other table changes. |
| `Storage.CreateNewsletterSubscription` | server/storage.ts:321-331 | The subscription is stored under its fresh id, active, with the given email. No other table changes. |
| `Storage.SampleTournamentFacts` | server/storage.ts:68-128 | The four sample tournaments have distinct ids and are within capacity. |
| `Storage.SamplePostFacts` | server/storage.ts:134-187 | The four sample posts have distinct ids. |
| `Storage.SampleTournamentTable` | server/storage.ts:66-130 | The tournaments map after seeding lists the four sample tournaments in seeding order, each under its own id and within capacity. |
| `Storage.SamplePostTable` | server/storage.ts:132-189 | The posts map after seeding lists the four sample posts in seeding order, each under its own id. |
| `Storage.InitialStore` | server/storage.ts:66-190 | The seeded store lists the four sample tournaments and the four sample posts in seeding order under their own ids, leaves the users, registrations, contacts and newsletters empty, and satisfies the table, id and capacity invariants. |
| `Routes.ListTournaments` | server/routes.ts:8-15 | The reply is 200 with the stored tournaments, each exactly once (a permutation of the table), in ascending start date. |
| `Routes.ShowTournament` | server/routes.ts:17-27 | The reply is 404 exactly when the id is unknown, and otherwise 200 with that tournament. |
| `Routes.PostRegistration` | server/routes.ts:30-56 | There is one reply and message per failure, checked in the code's order: shape, then existence, then capacity, then status. A 201 happens exactly when all pass, and only a 201 changes the store. That change is `createRegistration` as written. The capacity and id invariants are kept, and while ids match, the write equals the corrected one. |
| `Routes.AcceptedRegistration` | server/routes.ts:34-49 | A valid request for a stored, open tournament with room gets 201. After it there is one more registration, for the named tournament. When every tournament is stored under its own id, that tournament has exactly one more player and no other tournament changes. |
| `Routes.FullBeforeClosed` | server/routes.ts:40-46 | A completed tournament that is also full is answered "Tournament is full", not "closed". |
| `Routes.CapacityAlongRuns` | server/routes.ts:34-48 | Any sequence of registration requests starting from a store within capacity ends in a store within capacity. |
| `Routes.LastPlaceScenario` | server/routes.ts:40-49 | On a store whose tournaments sit under their own ids, when one place is left, the first request gets 201 and fills the tournament. A second request gets "Tournament is full" and changes nothing. |
| `Routes.ListPosts` | server/routes.ts:59-66 | The reply is 200 with the stored posts, each exactly once (a permutation of the table), newest first. |
| `Routes.ShowPost` | server/routes.ts:68-82 | An unknown id gets 404 and no change. A known id gets 200 with the post as it was before the visit, while the stored copy gains exactly one view. No other post and no other table changes. |
| `Routes.PostContact` | server/routes.ts:85-96 | A well-shaped body gets 201 with the new id and stores the message as "pending". Any other body gets 400 and no change. No other contact and no other table changes. |
| `Routes.PostNewsletter` | server/routes.ts:99-110 | A body with a well-formed email gets 201 and stores an active subscription. Any other body gets 400 and no change. No other subscription and no other table changes. |
| `TournamentCard.StatusLabel` | client/src/components/tournament-card.tsx:30-37 | The badge is the status text in upper case, so "LIVE", "UPCOMING" and "COMPLETED" for the three named statuses. |
| `TournamentCard.CanRegister` | client/src/components/tournament-card.tsx:39 | A card can register exactly when the status text is "upcoming" or "live", which is the server's own status test. |
| `TournamentCard.ButtonFor` | client/src/components/tournament-card.tsx:91-107 | A card shows a register button exactly when the tournament is open and not full, "Tournament Full" exactly when full, and "Registration Closed" otherwise. The caption is "Join Now" exactly for live tournaments. |
| `TournamentCard.RegisterShownIffServerAccepts` | client/src/components/tournament-card.tsx:39-40 | For a valid request for a stored tournament, the card offers registration exactly when the server would answer 201. |
| `TournamentCard.DisabledButtonsMatchServerMessages` | client/src/components/tournament-card.tsx:99-106 | A "Full" card matches the server's "Tournament is full" answer, and a "Closed" card matches its "Registration is closed" answer. |
| `EventsPage.LiveTournaments` | client/src/pages/events.tsx:25 | The live section lists exactly the live tournaments, in list order. |
| `EventsPage.UpcomingTournaments` | client/src/pages/events.tsx:26 | The upcoming section lists exactly the upcoming tournaments, in list order, none of them live. |
| `EventsPage.RecentCompletedTournaments` | client/src/pages/events.tsx:27 | The recent section lists the first three completed tournaments, or all of them if fewer. |
| `EventsPage.FeaturedTournament` | client/src/pages/events.tsx:29 | There is a featured event exactly when some tournament is upcoming. It is the first upcoming one with a prize pool of at least 10000 when there is one, and the first upcoming one otherwise. |
| `EventsPage.FirstBigIsFirstInInput` | client/src/pages/events.tsx:29 | Searching the upcoming list for a big prize finds the earliest upcoming big-prize tournament of the whole list. |
| `EventsPage.LiveJoinButton` | client/src/pages/events.tsx:158-164 | A live card's join button is disabled, and reads "Tournament Full", exactly when the tournament is full. |
| `EventsPage.LiveJoinButtonMatchesCard` | client/src/pages/events.tsx:158-164 | For a live tournament, the join button is disabled exactly when the tournament card shows "Tournament Full", and otherwise reads what the card's register button reads. |
| `EventsPage.LiveJoinButtonMatchesServer` | client/src/pages/events.tsx:158-164 | For a stored live tournament and a well-formed request, the join button is enabled exactly when the registration route answers 201, and a disabled button stands for the "Tournament is full" reply. The button has no click handler, so this is agreement of the capacity tests. |
| `TournamentsPage.UpcomingTournaments` | client/src/pages/tournaments.tsx:37 | The open list holds exactly the upcoming and live tournaments, in list order. |
| `TournamentsPage.CompletedTournaments` | client/src/pages/tournaments.tsx:38 | The completed list holds exactly the completed tournaments, in list order. |
| `TournamentsPage.PartitionDisjoint` | client/src/pages/tournaments.tsx:37-38 | The two lists share no tournament and together are no longer than the input. A tournament with any other status is in neither. |
| `TournamentsPage.NextTournament` | client/src/pages/tournaments.tsx:167-177 | The panel appears exactly when some tournament is open. It shows the first open tournament in list order. |
| `TournamentsPage.HandleRegister` | client/src/pages/tournaments.tsx:29-35 | A card's register button opens the dialog for that tournament. |
| `TournamentsPage.OnOpenChange` | client/src/pages/tournaments.tsx:136-139 | Closing the dialog clears the selection. Opening keeps it. |
| `TournamentsPage.OnSuccess` | client/src/pages/tournaments.tsx:156-159 | A successful registration closes the dialog and clears the selection. |
| `TournamentsPage.SelectionFromClick` | client/src/pages/tournaments.tsx:29-31 | After any run of dialog events, a selection is either the one held before or the tournament of a register click during the run. |
| `TournamentsPage.DialogStaysTidy` | client/src/pages/tournaments.tsx:136-159 | From the page's initial state, whatever dialog events happen, a closed dialog holds no selection, and any selection is a tournament whose card was clicked. |
| `RegistrationForm.DefaultForm` | client/src/components/registration-form.tsx:38-48 | The form starts with the preselected tournament or none, empty texts, age 15, and both boxes unticked. |
| `RegistrationForm.Payload` | client/src/components/registration-form.tsx:51-55 | The posted body carries every form field except `terms`. |
| `RegistrationForm.Submit` | client/src/components/registration-form.tsx:16-20 | The form posts exactly when the insert schema holds and the terms are accepted, and what it posts is the payload. |
| `RegistrationForm.DefaultsCannotSubmit` | client/src/components/registration-form.tsx:40-48 | The untouched form cannot be submitted, although its default age is one the server accepts. |
| `RegistrationForm.PayloadParses` | client/src/components/registration-form.tsx:76-78 | The server parses the payload back into the form's insert part, and accepts it exactly when the client's schema part holds. A submitted form therefore never gets the server's shape error. |
| `RegistrationForm.SubmittedFormRegisters` | client/src/components/registration-form.tsx:51-55 | A submitted form for a stored, open tournament with room gets 201. On a store whose tournaments sit under their own ids, that tournament gains one player. |
| `RegistrationForm.AvailableTournaments` | client/src/components/registration-form.tsx:84-86 | The select offers exactly the open tournaments, in list order. This is the same list the tournaments page shows. |
| `BlogPage.FilteredPosts` | client/src/pages/blog.tsx:32-37 | The grid shows, in list order, exactly the posts whose title or excerpt contains the search term case-insensitively and whose category matches. |
| `BlogPage.UnfilteredShowsAll` | client/src/pages/blog.tsx:23-37 | With the initial empty search and "all" category, every post is shown. |
| `BlogPage.SearchIgnoresTermCase` | client/src/pages/blog.tsx:33-34 | Lower-casing the search term does not change the grid. |
| `BlogPage.TitleHitIsShown` | client/src/pages/blog.tsx:33 | A post whose title contains the term verbatim is found. |
| `BlogPage.FeaturedPost` | client/src/pages/blog.tsx:39 | The featured post is the first with more than 2000 views, or the first post when there is none, and nothing for an empty list. |
| `BlogPage.PopularPosts` | client/src/pages/blog.tsx:40 | The popular list holds the first four posts with more than 1500 views, in list order. |
| `BlogPage.RecentPosts` | client/src/pages/blog.tsx:41 | The recent list is the second to fourth posts, and shorter when there are fewer. |
| `BlogPage.FeaturedIsPopular` | client/src/pages/blog.tsx:39-40 | A post featured for its views is also among the popular candidates. |
| `Navigation.ActiveOnOwnPage` | client/src/components/navigation.tsx:21-24 | Every link is highlighted on its own page. |
| `Navigation.ActiveRules` | client/src/components/navigation.tsx:21-24 | The home link is highlighted exactly on "/", and any other link stays highlighted on its sub-pages. |
| `Navigation.IsActive` | client/src/components/navigation.tsx:21-24 | The home link is active exactly on "/". Any other link is active exactly when the location begins, character by character, with its path. |
| `Navigation.OneActiveLinkPerPage` | client/src/components/navigation.tsx:12-24 | On each of the six pages of the bar exactly its own link is highlighted. |
| `Navigation.ToggleMenu` | client/src/components/navigation.tsx:69 | The menu button flips the menu and keeps the location. |
| `Navigation.Navigate` | client/src/components/navigation.tsx:26-30 | Moving to another location closes the menu. Staying on the same location changes nothing. |
| `Navigation.MobileMenuShown` | client/src/components/navigation.tsx:78 | The mobile link list is drawn only when the menu is open and the screen is narrow, and always then. |
| `Navigation.MenuLaws` | client/src/components/navigation.tsx:26-30 | Toggling twice restores the state. The mobile menu is not drawn after moving to another page or on first render. |
| `Text.ContainsIff` | client/src/pages/blog.tsx:33 | The substring scan reports a hit exactly when the term occurs at some position. |
| `Text.ContainsLower` | client/src/pages/blog.tsx:33-34 | An occurrence survives lower-casing both strings. |
| `Seqs.SortBy` | server/storage.ts:212-214 | Sorting by a key gives an ordered permutation of the input. |
| `Seqs.Filter` | client/src/pages/events.tsx:25 | `filter` keeps, in order and each as often as in the input, exactly the elements passing the test. |
| `Seqs.Find` | client/src/pages/events.tsx:29 | `find` gives the first element passing the test, and nothing exactly when none does. |
| `Tables.Table.Set` | server/storage.ts:206 | `Map.set` stores the value under the key, leaves every other key alone, keeps an existing key's position and appends a new key. |
| `Tables.Table.Values` | server/storage.ts:244 | `Array.from(map.values())` lists every stored row once, in key insertion order. |
| `Seqs.Slice` | client/src/pages/blog.tsx:41 | `slice` clamps both bounds to the length and copies the elements in between. |

## Left out

- HTTP transport, `async`/`await` and the 500 replies: the model's storage calls cannot fail, so the catch-all branches are unreachable.
- `randomUUID` and `new Date()`: fresh ids and clock readings are parameters, one per `new Date()` call of the operation (two in `createBlogPost`). A fresh id is required not to be a key already.
- Storage.InitialStore: the four sample tournaments share one `createdAt` reading, while the constructor reads the clock once per tournament; the readings may differ by the time the constructor takes.
- The email regular expression of zod: it is the parameter `emailOk`.
- Non-integer, `NaN` and wrongly typed required body fields: a required field that is missing or not of the declared type is collapsed to `None`, which is rejected either way. `parseInt` on the form's age field is taken to give an integer.
- Date formatting, locale strings, `toLocaleString` of prize pools and the `k` formatting of view counts: they are presentational.
- Floating point: times are integer milliseconds, and prize pools, counts and views are integers.
- Concurrency: the store is single-threaded, and interleavings between the lookup and the write of a registration are not modelled.
- The parental-consent rule for players under 16: no code in the core enforces it.
- The uniqueness constraints of `username` and newsletter `email`: they are database constraints that `MemStorage` does not apply.
- Case mapping outside ASCII: `Text.Lower` and `Text.Upper` map only `A`–`Z` and `a`–`z`.
- Patch fields set explicitly to `undefined`: a `Partial<Tournament>` field is either absent or a value.
- Column defaults of `status` and `eligibilityMinLevel` on tournament inserts: `MemStorage` copies the insert without applying them, so the model's insert shape requires both.
- The page layouts, icons, toasts, query caching and focus handling: they do not change any derived data.
- Storage.GetTournaments: does not state that tournaments with equal start dates keep their insertion order (the sort is stable in JavaScript).
- Storage.GetBlogPosts: does not state that posts with equal creation times keep their insertion order.

## Findings

| source | as written | input that shows it | evidently intended | confidence | as-written member | corrected member |
|---|---|---|---|---|---|---|
| server/storage.ts:262-268 | After a registration, the updated tournament is written back under `tournament.id`, the record's own field, and not under the key it was looked up by. | Create tournament "t1", update it with `{ id: "t2" }`, then register for "t1". The stored "t1" keeps 0 players and a second row "t2" appears. | The player count of the tournament looked up, under the same key. | low, not executed: no route calls `updateTournament`, so the ids cannot diverge through the routes; the registration route follows the code as written and equals the corrected version on every store whose ids match | `Storage.AsWrittenMissesRenamedTournament` | `Storage.CreateRegistration` |
