# Art project: preference notifications, its inputs and its list logic

This project is a Dafny model of the core of a small art-gallery web application. Artists upload artworks into a
two-level category forest. Users subscribe to categories ("art preferences"). A notification job e-mails
each subscriber once about every artwork of a subscribed category created in the last 24 hours.

The centre is the job, `checkSimilarArtworks`, modelled in `similar_artworks.dfy`:
- Its inputs are the preference table joined with users, the artwork table joined with category, parent
  category and artist, and the notification ledger. All are values.
- The clock (`now`) and the application URL are parameters. The clock is read once per run.
- A store error is `abortAt`: the number of (preference, artwork) pairs the job finishes before the
  database throws.
- The method runs the two nested loops with their invariants. It returns the new ledger and the ordered
  trace of its effects: a ledger insert (`Recorded`), then an e-mail (`Emailed`).
- Its `ensures` ties the result to the reference function `Run`. The lemmas about `Run` and `Process` state:
  - exact-category matching;
  - the one-sided time window;
  - deduplication through the ledger;
  - at most one row per key;
  - that the ledger only grows;
  - that each e-mail is paired with the insert before it;
  - idempotence of a re-run;
  - that a failed run does a prefix of the work.

Around the job the model covers:
- **Subscription inputs**:
  - the preference API (`preferences_route.dfy`);
  - the seed script that builds the category forest (`seed.dfy`).
- **The preference screens**. The shared list rules are in `category_tree.dfy`. The two components with their
  state are `preferences_content.dfy` and `preferences_page.dfy`.
- **The notification e-mail** (`email.dfy`).
- **The artwork feed's** filter, sort, pagination and controls (`art_feed.dfy`). It uses a stable reference
  sort (`sorting.dfy`).
- **The artwork API's** query building and upload checks (`artworks_route.dfy`).
- **The validator** (`validation.dfy`).
- **User registration** (`register_route.dfy`).
- **The collection API** (`collections_route.dfy`).
- **Image deletion** (`cloudinary.dfy`).

The route handlers share one `Store.Database` object:
- It holds the tables as sequences, plus an id counter.
- `Valid()` says that ids are fresh and that user e-mail addresses are unique.
- Each handler takes the session as an optional user or e-mail address.
- A body that is not valid JSON is `None`.
- A database error is a flag: `storeFails`, or `lookupFails` and `insertFails` where the handler makes two queries.

## Model

| member | source | states |
|---|---|---|
| SimilarArtworks.CheckSimilarArtworks | lib/jobs/check-similar-artworks.ts:4-82 | the nested loops over preferences and their recent artworks produce exactly the ledger and effect trace of `Run`; a store error after `k` pairs leaves the outcome of the first `k` pairs |
| SimilarArtworks.VisitSubscription | lib/jobs/check-similar-artworks.ts:19-78 | one outer iteration either stops at the store error with the run's final outcome, or leaves the outcome of all pairs of the preferences visited so far |
| SimilarArtworks.NotifySubscriber | lib/jobs/check-similar-artworks.ts:39-77 | the inner loop over one preference's artworks extends the outcome by those artworks' pairs in order, stopping exactly at the failing pair |
| SimilarArtworks.NotifyOnce | lib/jobs/check-similar-artworks.ts:40-71 | a pair whose key is in the ledger changes nothing; otherwise the key is appended, then the e-mail is sent |
| SimilarArtworks.RecentInCategorySpec | lib/jobs/check-similar-artworks.ts:21-27 | an artwork is returned iff it is in the table, its category id equals the preference's, and it was created at or after now − 24h |
| SimilarArtworks.MatchesForSpec | lib/jobs/check-similar-artworks.ts:39 | a preference's pairs are that preference with each of its artworks |
| SimilarArtworks.CandidatesSpec | lib/jobs/check-similar-artworks.ts:19-39 | a pair is visited iff its preference is in the table and its artwork is in the table, in the category, inside the window |
| SimilarArtworks.ParentPreferenceSkipsChild | lib/jobs/check-similar-artworks.ts:21-27 | a preference for a parent category never matches an artwork of its child category |
| SimilarArtworks.FutureArtworkMatches | lib/jobs/check-similar-artworks.ts:24-26 | the window has no upper bound: an artwork stamped after `now` still matches |
| SimilarArtworks.ProcessKeepsLedger | lib/jobs/check-similar-artworks.ts:48-56 | every ledger row before a run stays, in place |
| SimilarArtworks.ProcessNewRows | lib/jobs/check-similar-artworks.ts:48-56 | the rows a run adds are exactly the keys of visited pairs that had no row before |
| SimilarArtworks.ProcessNewRowsDistinct | lib/jobs/check-similar-artworks.ts:39-56 | the rows a run adds are pairwise distinct, even for duplicate preferences |
| SimilarArtworks.NoDuplicateRows | lib/jobs/check-similar-artworks.ts:39-56 | a ledger without duplicate rows has none after the run |
| SimilarArtworks.ProcessCovers | lib/jobs/check-similar-artworks.ts:40-56 | after a run every visited pair has its key in the ledger |
| SimilarArtworks.ProcessEffects | lib/jobs/check-similar-artworks.ts:50-71 | the effects come in pairs, one per new row and in row order: the insert of the key, then an e-mail for a visited pair with that key |
| SimilarArtworks.ExistingRowSuppresses | lib/jobs/check-similar-artworks.ts:40-48 | no effect of a run concerns a key that was already in the ledger: no insert and no e-mail for it |
| SimilarArtworks.ProcessAllRecorded | lib/jobs/check-similar-artworks.ts:40-48 | when every visited pair already has a row, the run changes nothing and sends nothing |
| SimilarArtworks.RerunIsQuiet | lib/jobs/check-similar-artworks.ts:40-48 | a second run with the same preferences, artworks and clock, from the first run's ledger, adds no row and sends no e-mail |
| SimilarArtworks.ProcessAppend | lib/jobs/check-similar-artworks.ts:19-78 | visiting `a + b` is visiting `a`, then `b` from the resulting ledger, with the effects concatenated |
| SimilarArtworks.FailedRunIsPrefix | lib/jobs/check-similar-artworks.ts:79-81 | a run stopped by a store error leaves a prefix of the complete run's ledger and a prefix of its effects; rows already created stay |
| SimilarArtworks.CategoryLabelShape | lib/jobs/check-similar-artworks.ts:59-61 | the label is "Parent - Child" when the category has a parent, else the category's name |
| SimilarArtworks.EmailForPair | lib/jobs/check-similar-artworks.ts:63-71 | the e-mail for a pair goes to the user's address or "", has a subject that starts with the category label, and shows the title and a link to `<appUrl>/artwork/<id>` |
| Email.Compose | lib/email.ts:25-60 | the message is from the fixed sender to `userEmail` with the subject template; the body holds the greeting, image tag, title heading, artist line and link |
| Email.SubjectShape | lib/email.ts:28 | the subject is "New " + category + " Artwork: " + title, with exactly that length |
| Email.GreetingFallback | lib/email.ts:32 | the greeting is "Hi there," for a null or empty user name, else the name verbatim |
| Email.ArtistFallback | lib/email.ts:40 | the artist line is "By Unknown Artist" for a null or empty artist name, else the name verbatim |
| Email.BodyMentionsArtwork | lib/email.ts:36-42 | the body contains the title, the image `src` and the `href` to the artwork URL |
| Email.SendNewArtworkEmail | lib/email.ts:15-65 | the composed message goes to the transport; an error is logged iff the transport rejects it, and is never returned |
| PreferencesRoute.GetPreferences | app/api/preferences/route.ts:5-31 | 401 without a session e-mail; 500 on a store error; otherwise 200 with exactly the rows of the user with that address, or none |
| PreferencesRoute.PostPreference | app/api/preferences/route.ts:33-67 | 401, 404 "User not found" and 500 cases leave the table unchanged; a known user, a known category and no store error always succeed, appending one row (user id, categoryId) with a fresh id and no duplicate check |
| PreferencesRoute.DeletePreference | app/api/preferences/route.ts:69-91 | 401 without a session; 500 for a missing or unknown id or a store error; an existing id with no store error always succeeds, removing the rows with that id, whoever owns them |
| PreferencesRoute.AddPreferenceCounts | app/api/preferences/route.ts:49-57 | each create adds one more identical subscription: the count of (user, category) rows grows by one |
| PreferencesRoute.RemovePreferenceSpec | app/api/preferences/route.ts:76-81 | deletion keeps exactly the rows with another id, in their order |
| PreferencesRoute.RemovePreferenceOne | app/api/preferences/route.ts:76-81 | with unique ids, deleting an existing id removes exactly one row |
| PreferencesRoute.RemovePreferenceKeepsValid | app/api/preferences/route.ts:76-81 | deletion keeps preference ids unique and below the id counter |
| PreferencesRoute.AddedPreferenceListed | app/api/preferences/route.ts:12-23 | after a create, the user's listing contains the new row |
| Store.FindUserByEmail | app/api/preferences/route.ts:41-43 | the user found has the address; none found means no user has it |
| Store.FindUserByEmailUnique | app/api/preferences/route.ts:12-13 | with unique addresses, the lookup returns the one user with that address |
| Store.Database.NewId | prisma/seed.ts:113-128 | a fresh id: the counter's value, the counter advanced, the tables unchanged |
| Store.Database.CreateCategory | prisma/seed.ts:117-122 | `category.create` appends one row with a fresh id and the given fields |
| Store.Database.DeleteAllCategories | prisma/seed.ts:113 | `deleteMany` empties the category table and nothing else |
| Seed.CreateSubcategories | prisma/seed.ts:124-131 | the inner loop appends one row per subcategory, each with the parent's id, consecutive ids |
| Seed.CreateEntry | prisma/seed.ts:116-132 | one outer iteration appends the root row, then its subcategory rows |
| Seed.CreateCategories | prisma/seed.ts:111-134 | after `main` the table is exactly the seeded rows computed from the entry list |
| Seed.SeedMain | prisma/seed.ts:111-134 | `main` on the script's own table leaves the category table equal to its seeded rows |
| Seed.SeedRowsShape | prisma/seed.ts:116-132 | the seeded table is a forest of depth at most one, each parent before its children, ids consecutive |
| Seed.RowsUpToRoots | prisma/seed.ts:117-122 | exactly one row per entry has no parent |
| Seed.SeedCounts | prisma/seed.ts:5-109 | the script creates 63 rows, 8 of them roots |
| CategoryTree.MainCategoriesSpec | app/preferences/preferences-content.tsx:118 | the top-level list is exactly the categories without a parent, in order |
| CategoryTree.SubcategoriesSpec | app/preferences/preferences-content.tsx:119-120 | the children of `p` are exactly the categories whose parent is `p`, in order |
| CategoryTree.FindByCategory | app/preferences/preferences-content.tsx:181-183 | `find` returns a subscription to the category from the list |
| CategoryTree.FindByCategorySpec | app/preferences/page.tsx:170-172 | a category is selected iff `find` succeeds, and `find` returns the first subscription to it |
| CategoryTree.DuplicateStaysSelected | app/preferences/preferences-content.tsx:178-185 | with two subscriptions to one category under different ids, removing through the first leaves the category selected |
| PreferencesContentScreen.PreferencesContent.HandleAddPreference | app/preferences/preferences-content.tsx:59-83 | a 2xx reply appends the returned row; any other leaves the list; loading ends false |
| PreferencesContentScreen.PreferencesContent.HandleRemovePreference | app/preferences/preferences-content.tsx:85-108 | a 2xx reply drops the rows with that id; any other leaves the list; loading ends false |
| PreferencesContentScreen.PreferencesContent.ToggleSubcategory | app/preferences/preferences-content.tsx:166-185 | a selected subcategory is removed through its first subscription, an unselected one is added |
| PreferencesPageScreen.PreferencesPage.Load | app/preferences/page.tsx:33-66 | without a session it redirects and stays loading; otherwise it takes both lists only when both replies are 2xx, and stops loading |
| PreferencesPageScreen.PreferencesPage.HandleAddPreference | app/preferences/page.tsx:68-89 | a 2xx reply appends the returned row; any other leaves the list |
| PreferencesPageScreen.PreferencesPage.HandleRemovePreference | app/preferences/page.tsx:91-111 | a 2xx reply keeps only rows with another id; any other leaves the list |
| PreferencesPageScreen.PreferencesPage.ToggleSubcategory | app/preferences/page.tsx:169-188 | a selected subcategory is removed through its first subscription, an unselected one is added |
| ArtFeed.FilterArtworksSpec | components/art-feed.tsx:61-71 | an artwork is kept iff it meets search, category, price and year, and the kept list is an order-preserving subsequence |
| ArtFeed.EmptyQueryMatches | components/art-feed.tsx:62-64 | the empty query passes every artwork |
| ArtFeed.OpenCriteriaKeepAll | components/art-feed.tsx:61-71 | with an empty query, category "all" and covering ranges, nothing is filtered out |
| ArtFeed.FalsyYearPasses | components/art-feed.tsx:68 | an artwork without a year, or with year 0, passes any year range |
| ArtFeed.Compare | components/art-feed.tsx:75-88 | each comparator case is the difference of one integer key, 0 for an unknown option |
| ArtFeed.SortArtworksSpec | components/art-feed.tsx:75-88 | the sort is a permutation, ordered newest first, oldest first, by price descending or ascending; an unknown option keeps the input order |
| ArtFeed.SortArtworksStable | components/art-feed.tsx:75-88 | artworks the comparator ties keep their relative order |
| ArtFeed.TotalPages | components/art-feed.tsx:91 | `ceil(n / 12)`: the smallest page count whose pages hold `n` items |
| ArtFeed.SliceIndex | components/art-feed.tsx:92-95 | `slice` indices are clamped into the list |
| ArtFeed.PageItemsBounds | components/art-feed.tsx:91-95 | a page has at most 12 items; pages 1 to `totalPages` are non-empty, the next one is empty |
| ArtFeed.PageOfIndex | components/art-feed.tsx:91-95 | item `i` appears as entry `i % 12` of page `i / 12 + 1` |
| ArtFeed.FeedState.constructor | components/art-feed.tsx:52-58 | initial controls: "", "all", "25", [0, 10000], [1900, current year], "newest", page 1 |
| ArtFeed.FeedState.Search | components/art-feed.tsx:135-138 | sets the query and page 1; other controls unchanged |
| ArtFeed.FeedState.ChangeCategory | components/art-feed.tsx:140-143 | sets the category and page 1; other controls unchanged |
| ArtFeed.FeedState.ChangePriceRange | components/art-feed.tsx:145-148 | sets the price range and page 1; other controls unchanged |
| ArtFeed.FeedState.ChangeYearRange | components/art-feed.tsx:150-153 | sets the year range and page 1; other controls unchanged |
| ArtFeed.FeedState.ChangeSort | components/art-feed.tsx:155-158 | sets the sort option and page 1; other controls unchanged |
| ArtFeed.FeedState.ClearFilters | components/art-feed.tsx:160-168 | restores every default |
| ArtFeed.FeedState.PreviousPage | components/art-feed.tsx:405-408 | goes back one page, except on page 1; the criteria are unchanged |
| ArtFeed.FeedState.NextPage | components/art-feed.tsx:421-424 | goes forward one page, except on the last page; the criteria are unchanged |
| ArtFeed.FeedState.GoToPage | components/art-feed.tsx:410-418 | a numbered link sets that page; the criteria are unchanged |
| ArtFeed.FirstPageShown | components/art-feed.tsx:90-95 | on page 1 the feed shows the first twelve of the filtered, sorted list |
| ArtFeed.PageInRangeNotEmpty | components/art-feed.tsx:90-95 | a page from 1 to `totalPages` shows at least one artwork |
| Sorting.SortByKeySorted | components/art-feed.tsx:75-88 | the reference sort orders by its key ascending |
| Sorting.SortByKeyStable | components/art-feed.tsx:75-88 | the reference sort keeps the input order of items with equal keys |
| Sorting.ConstantKeyKeepsOrder | components/art-feed.tsx:85-86 | a comparator that ties every pair leaves the list as it is |
| ArtworksRoute.BuildWhereSpec | app/api/artworks/route.ts:54-62 | a row is selected iff a present query occurs, ignoring case, in its title or description, and a present category equals its own |
| ArtworksRoute.NoParamsSelectAll | app/api/artworks/route.ts:54-62 | missing or empty parameters select every row |
| ArtworksRoute.BuildOrderBySpec | app/api/artworks/route.ts:64-70 | newest, empty or missing → createdAt desc; oldest → asc; price_asc/price_desc → price; anything else → the empty ordering |
| ArtworksRoute.GetArtworks | app/api/artworks/route.ts:47-91 | 500 on a store error; otherwise 200 with the selected rows in the built order |
| ArtworksRoute.FindArtworksSpec | app/api/artworks/route.ts:54-85 | the listing holds each selected row once and no other; it is newest first for a missing, empty or "newest" sort, oldest first for "oldest", by ascending or descending price for "price_asc"/"price_desc" |
| ArtworksRoute.PostArtwork | app/api/artworks/route.ts:8-45 | 401 without a session; 500 for a body that is not a form; 400 for a falsy field; 500 when the upload or store fails; a complete form with an upload and no store error always gets 200 and one row with the form's fields, the uploaded URL and the session user as artist |
| ArtworksRoute.CompletePrice | app/api/artworks/route.ts:19-24 | a price of 0 or NaN is rejected as missing; a negative price passes |
| Validation.CheckText | lib/validation.ts:14-24 | a blank text gets the required message, one longer than the limit in UTF-16 code units the length message, otherwise the record is unchanged |
| Validation.ValidateArtwork | lib/validation.ts:6-38 | per field: an error iff its rule fails, with its message; lengths in UTF-16 code units; the required check comes before the length check; `isValid` iff the record is empty iff every rule holds |
| Validation.JsLength | lib/validation.ts:16 | `.length` counts UTF-16 code units: between one and two per character |
| Validation.JsLengthBmp | lib/validation.ts:16 | text within the Basic Multilingual Plane has one code unit per character |
| Validation.JsLengthAstral | lib/validation.ts:16 | text outside the Basic Multilingual Plane has two code units per character |
| Validation.BoundaryAccepted | lib/validation.ts:14-28 | a 100-character title, a 1000-character description and price 0 are accepted |
| Validation.AstralTitleLength | lib/validation.ts:14-18 | a title of 50 characters outside the Basic Multilingual Plane passes, one of 51 gets the length message |
| RegisterRoute.Register | app/api/auth/register/route.ts:4-53 | 400 for a missing address or password; 500 when the lookup fails; 400 "User already exists" with the table unchanged; 500 when the insert fails; otherwise always 201 and one new row with role "USER"; unique addresses preserved |
| RegisterRoute.PublicOmitsPassword | app/api/auth/register/route.ts:35-45 | the response shows id, e-mail and role of the row and does not depend on its password |
| RegisterRoute.AppendKeepsEmailsUnique | app/api/auth/register/route.ts:15-33 | inserting a user whose address is not taken keeps addresses unique |
| RegisterRoute.SecondRegistrationRefused | app/api/auth/register/route.ts:15-24 | after a registration the address is taken, so a second one is refused |
| RegisterRoute.RegistrationsUnique | app/api/auth/register/route.ts:15-33 | any sequence of successful registrations from an empty table gives unique addresses |
| CollectionsRoute.GetCollections | app/api/collections/route.ts:14-44 | 401 without a session; 500 on a store error; otherwise the caller's collections newest first |
| CollectionsRoute.ListingSpec | app/api/collections/route.ts:21-37 | the listing holds each of the caller's collections once and nobody else's, ordered by createdAt descending |
| CollectionsRoute.PostCollection | app/api/collections/route.ts:46-73 | 401 without a session; 400 "Name is required" for a falsy name; 500 on errors; a truthy name with no store error always succeeds, with one row holding the name and description, owned by the caller |
| CollectionsRoute.CreatedCollectionListed | app/api/collections/route.ts:21-37 | a created collection is in its owner's next listing and changes nobody else's |
| Cloudinary.SplitJoin | lib/cloudinary.ts:40 | `split` loses nothing: joining the pieces gives the string back, and no piece holds the separator |
| Cloudinary.PublicId | lib/cloudinary.ts:40 | the public id holds neither '/' nor '.' |
| Cloudinary.PublicIdSpec | lib/cloudinary.ts:40 | the URL is a prefix ending in '/' (or nothing), then the public id, then a suffix that is empty or starts with '.' and has no '/' |
| Cloudinary.EmptyPublicIdIff | lib/cloudinary.ts:40-43 | the public id is empty iff the URL ends in '/' or its last segment starts with '.' |
| Cloudinary.DeleteImage | lib/cloudinary.ts:37-50 | an empty public id throws "Invalid image URL" before any destroy; otherwise the target is "art-project/" + id, and a destroy error is rethrown |

## Left out

- The database engine is not modelled. Tables are sequences in insertion order, and an `orderBy` breaks ties in table order.
- The schema file is not part of this model. A preference `create` with an unknown category id is taken to fail as a foreign-key error (500). So is a `delete` of a missing id.
- Ids are natural numbers from one counter; the source uses generated strings.
- Sessions (`getServerSession`, `useSession`) are parameters: an optional user or e-mail address.
- The Resend transport is not modelled; its outcome is a parameter of `Email.SendNewArtworkEmail`.
- The Cloudinary upload stream (`uploadImage`) and the destroy call are not modelled. The upload's URL and the destroy's error are parameters.
- `fetch`, JSX rendering, toasts, router redirects and `console` logging are not modelled. The logged text of `Email.SendNewArtworkEmail` is kept; the job's own log lines are not.
- Prices, years and timestamps are integers; a NaN price is `None`. Floating-point rounding is not modelled.
- Lower-casing and `trim` are ASCII only.
- The job reads the clock once per run, through the parameter `now`. The source calls `Date.now()` again for each preference, so in a long run the lower bound of its window moves forward; the model does not capture that drift.
- `Date.now()`, `new Date(...)` parsing and the current year are parameters.
- Concurrency is not modelled: overlapping job runs, the check-then-insert race, and stale React state in handlers that overlap. Every operation is sequential.
- The job has no scheduler, run lock or summary counters, and its matching is not tree-aware. None of these is modelled, because the code has none.
- The job writes the ledger row before it sends the e-mail. A send failure is swallowed, so the row stays and the e-mail is never retried. The model follows the code here, not a record-after-send order.
- An `Emailed` effect carries the pair it was sent for. The message itself is `Email.Compose(EmailFor(pair, appUrl))`.
- The art feed's `fetchArtworks` and `fetchCollections` effects and its loading and error flags are not modelled. `selectedDistance` is set and reset but filters nothing.
- Included relations in API responses (a preference's category, an artwork's artist) are not modelled. Only the rows are returned.
- Seed slug distinctness and repeated names are not modelled. Proving 63 slugs pairwise distinct costs too much solver work for what it adds.
- The seed script's exit on error and its final disconnect are not modelled.
