# MemStorage and the REST routes of a watch-repair website, in Dafny

The back end of the site keeps everything in memory. `MemStorage`, in
server/storage.ts, holds six keyed tables: users, watchmakers, services, quote
requests, contact messages and gallery items. Each table has its own id counter,
which starts at 1. The constructor seeds one watchmaker, four services and three
gallery items. Every `create*` does three things:

- takes the counter's value as the new id and increments the counter;
- fills in the defaults (`|| null`, `?? true`, `?? 0`, `?? false`, status "pending" or "unread");
- stores the record in a JavaScript `Map`.

The reads are lookups by id and filters over `Array.from(map.values())`. The
routes in server/routes.ts do four things:

- use the query string to choose a store read;
- return 404 when a lookup finds nothing;
- validate a POST body before creating anything;
- map a validation error to 400 and any other failure to 500.

The model has six modules.

- `Js` (js.dfy) models the JavaScript semantics the code relies on:
  - `undefined`/`null` as `Option`;
  - the `||` and `??` operators;
  - ASCII `toLowerCase`;
  - `String.prototype.includes`, proved equivalent to "occurs at some offset";
  - `Array.prototype.filter` and `find`, with their order properties.
- `JsMap` (js_map.dfy) models a JavaScript `Map` with number keys. It is a
  `map` plus the sequence of keys in insertion order. `set` on a present key
  keeps that key's position, and `values()` iterates in insertion order.
- `Schema` (schema.dfy) holds the record and insert shapes of shared/schema.ts.
  A nullable column is an `Option`. In an insert shape, a column with a default
  is optional too.
- `Store` (store.dfy) holds the whole store as a value, `StoreState`. Every
  operation of `MemStorage` is a function on that value: each `create*` and
  `update*Status` returns the new state and its result, and each read returns
  its result. The module also holds the store invariant and every property of
  the store as lemmas. The invariant `StoreInv` says, for each table:
  - its keys are distinct and ascending;
  - each record is stored under its own id;
  - every id lies in [1, counter).
- `Storage` (storage.dfy) holds the class `MemStorage`, with the real mutable
  fields. The constructor, `seedData`, the three `forEach` seeding loops, every
  `create*` and both status updates are methods. Each method is proved to keep
  `Valid()` and to leave the fields exactly as the matching `Store` function
  computes from the old state. The reads are the `Store` functions applied to
  `State()`.
- `Routes` (routes.dfy) models each handler as a function from the request
  fields and the store state to a status and a JSON body. The two POST handlers
  also return the new state. `Handle` dispatches a request to its handler.

Where the code and its description differ, the model follows the code.

- `certifications: insertWatchmaker.certifications || null` keeps an empty
  array, because every array is truthy in JavaScript. Only a missing or null
  list becomes null, so `Js.ListOrNull` is the identity.
- The `||` defaults apply to the empty string as well, so a seed
  `imageUrl: ""` is stored as null. Gallery items are different: their
  `beforeImageUrl` and `afterImageUrl` are required columns, so they are
  stored as given.

## Model

Each operation of the source is a function or method of the same name (for example
`Store.CreateQuote`, `Store.UpdateQuoteStatus`, `Routes.PostQuotes`, `Routes.Handle`,
`Js.Includes`, `Js.Filter`, `JsMap.Set`); a row's `…Spec` lemma states the properties of
the function whose name it carries, and the class methods are tied to those functions
by their own contracts.

| member | source | states |
|---|---|---|
| Js.OrNull | server/storage.ts:211-214 | the `or null` default on an optional string is null exactly when the value is undefined, null or empty, and is the value itself otherwise |
| Js.IncludesIff | server/storage.ts:200-204 | `s.includes(t)` holds exactly when `t` occurs in `s` at some offset |
| Js.FilterIsSubsequence | server/storage.ts:192-194 | a filter returns a subsequence of its input, in the input's order |
| Js.FilterKeepsIncreasing | server/storage.ts:192-194 | ids that increase along a listing still increase along any filter of it |
| Js.FilterFilter | server/storage.ts:200-204 | filtering twice is filtering once by the conjunction |
| Js.FirstIndex | server/storage.ts:180-182 | `find` returns the first element that satisfies the predicate, or nothing when none does |
| JsMap.SetNew | server/storage.ts:188 | setting a new key appends the key to the iteration order and its value to `values()` |
| JsMap.SetPresent | server/storage.ts:277 | setting a present key keeps the key order and replaces that one value in place |
| Store.EmptyStoreInv | server/storage.ts:62-74 | empty maps with every counter at 1 satisfy the store invariant |
| Store.GetUserByUsernameSpec | server/storage.ts:180-182 | the result is none exactly when no stored user has the name; otherwise it is a stored user with that name and the smallest id among them |
| Store.CreateUserSpec | server/storage.ts:184-189 | the new user gets the counter's value, which was free before; only that key is added and only the user counter advances, by one; the listing gains the user at its end; the invariant is kept |
| Store.CreateUserAllowsDuplicates | server/storage.ts:184-189 | a username that is already taken is stored again, under a new id, and the lookup by name still returns the earlier user |
| Store.GetAllWatchmakersSpec | server/storage.ts:192-194 | the listing holds exactly the active stored watchmakers, as a subsequence of the map's values, in increasing id order |
| Store.GetWatchmakersBySpecializationSpec | server/storage.ts:200-204 | the search filters the active listing; it holds exactly the active stored watchmakers whose lower-cased specialization contains the lower-cased query, in id order |
| Store.SpecializationSearchIgnoresCase | server/storage.ts:200-204 | two queries that lower-case alike give the same result |
| Store.EmptySpecializationListsAllActive | server/storage.ts:200-204 | a direct call with the empty query returns the whole active listing, because every string includes "" |
| Store.NewWatchmaker | server/storage.ts:206-221 | empty or missing hourlyRate, fixedRate, bio and imageUrl become null; certifications are kept as given; isActive is true unless explicitly false; reviewCount defaults to 0; all other fields are copied |
| Store.CreateWatchmakerSpec | server/storage.ts:206-221 | the new watchmaker gets the counter's value as id; only that key is added; only the watchmaker counter advances, by one; the active listing gains it exactly when it is active; the invariant is kept |
| Store.GetServicesByCategorySpec | server/storage.ts:232-234 | the filter lists exactly the stored services of that category, as a subsequence of all services, in id order |
| Store.NewService | server/storage.ts:236-245 | an empty or missing imageUrl becomes null; all other fields are copied |
| Store.CreateServiceSpec | server/storage.ts:236-245 | fresh id from the counter; only that key and only that counter change; the listing gains the service at its end; the invariant is kept |
| Store.NewQuote | server/storage.ts:256-270 | status is "pending" and createdAt the call time; empty or missing phone, watchModel, preferredService and budget become null; the rest is copied |
| Store.CreateQuoteSpec | server/storage.ts:256-270 | fresh id from the counter; only that key and only the quote counter change; the listing gains the quote at its end; the invariant is kept |
| Store.UpdateQuoteStatusSpec | server/storage.ts:272-279 | for an unknown id the result is none and the store is unchanged; for a stored id only that record's status changes, it keeps its place in the listing, nothing else changes, and the updated record is returned |
| Store.NewContact | server/storage.ts:290-300 | status is "unread" and createdAt the call time; the rest is copied |
| Store.CreateContactSpec | server/storage.ts:290-300 | fresh id from the counter; only that key and only the contact counter change; the listing gains the contact at its end; the invariant is kept |
| Store.UpdateContactStatusSpec | server/storage.ts:302-309 | for an unknown id the result is none and the store is unchanged; for a stored id only that record's status changes, in place, and the updated record is returned |
| Store.GetFeaturedGalleryItemsSpec | server/storage.ts:316-318 | the featured listing holds exactly the featured stored items, as a subsequence of all items, in id order |
| Store.NewGalleryItem | server/storage.ts:324-335 | empty or missing description and completionTime become null; featured is true only when given as true; the rest is copied |
| Store.CreateGalleryItemSpec | server/storage.ts:324-335 | fresh id from the counter; only that key and only that counter change; the listing gains the item at its end; the invariant is kept |
| Store.GetByIdSpec | server/storage.ts:176-178 | for every table, a lookup finds a record exactly when one is stored under that id, and the record found carries that id, which lies below the counter |
| Store.ListingsSpec | server/storage.ts:224-226 | the services, quotes, contacts and gallery listings hold every stored record once, in increasing id (creation) order |
| Store.CreateWatchmakersSpec | server/storage.ts:98 | creating a batch appends one record per input with consecutive ids, advances the counter by the batch size, and leaves the other tables alone |
| Store.CreateServicesSpec | server/storage.ts:136 | the same for a batch of services |
| Store.CreateGalleryItemsSpec | server/storage.ts:172 | the same for a batch of gallery items |
| Store.InitialState | server/storage.ts:62-173 | the constructed store keeps the invariant; it holds watchmaker 1, services 1-4 and gallery items 1-3, in seed order; users, quotes and contacts are empty; the counters stand at 1, 2, 5, 1, 1 and 4 |
| Store.InitialWatchmaker | server/storage.ts:81-98 | the seed watchmaker is active, is listed and found as id 1, and its empty imageUrl is stored as null |
| Store.InitialGallery | server/storage.ts:139-172 | the three seed gallery items are all featured, so the featured listing is the full listing |
| Store.SeedServicesByCategory | server/storage.ts:101-136 | in the seeded store each of the four categories lists exactly its one seed service |
| Store.SeedSpecializationSearch | server/storage.ts:200-204 | the query "movement" finds the seed watchmaker ("Complicated Movements"), and still finds only it after an inactive watchmaker with the same specialization is added |
| Storage.MemStorage.constructor | server/storage.ts:62-77 | the new object is valid and its fields form the seeded initial state |
| Storage.MemStorage.SeedData | server/storage.ts:79-173 | seeds watchmakers, then services, then gallery items, keeping the invariant |
| Storage.MemStorage.CreateWatchmakers | server/storage.ts:98 | the `forEach` loop leaves the state the batch create computes |
| Storage.MemStorage.CreateServices | server/storage.ts:136 | the `forEach` loop leaves the state the batch create computes |
| Storage.MemStorage.CreateGalleryItems | server/storage.ts:172 | the `forEach` loop leaves the state the batch create computes |
| Storage.MemStorage.CreateUser | server/storage.ts:184-189 | the fields and result are those of `Store.CreateUser`; the invariant is kept |
| Storage.MemStorage.CreateWatchmaker | server/storage.ts:206-221 | the fields and result are those of `Store.CreateWatchmaker`; the invariant is kept |
| Storage.MemStorage.CreateService | server/storage.ts:236-245 | the fields and result are those of `Store.CreateService`; the invariant is kept |
| Storage.MemStorage.CreateQuote | server/storage.ts:256-270 | the fields and result are those of `Store.CreateQuote`; the invariant is kept |
| Storage.MemStorage.UpdateQuoteStatus | server/storage.ts:272-279 | the fields and result are those of `Store.UpdateQuoteStatus`; the invariant is kept |
| Storage.MemStorage.CreateContact | server/storage.ts:290-300 | the fields and result are those of `Store.CreateContact`; the invariant is kept |
| Storage.MemStorage.UpdateContactStatus | server/storage.ts:302-309 | the fields and result are those of `Store.UpdateContactStatus`; the invariant is kept |
| Storage.MemStorage.CreateGalleryItem | server/storage.ts:324-335 | the fields and result are those of `Store.CreateGalleryItem`; the invariant is kept |
| Routes.GetWatchmakersSpec | server/routes.ts:9-24 | always 200 with active stored watchmakers; a non-empty string query gives exactly the specialization matches; a missing, empty or non-string query gives the same response as no query, which is the full active list |
| Routes.GetWatchmakerByIdSpec | server/routes.ts:26-39 | 404 "Watchmaker not found" exactly when the id is NaN or not stored; otherwise 200 with the stored record, which carries that id |
| Routes.GetServicesSpec | server/routes.ts:42-57 | always 200 with stored services; a non-empty string query gives exactly that category; any other value gives the same response as no query, which is all services |
| Routes.GetServiceByIdSpec | server/routes.ts:59-72 | 404 "Service not found" exactly when the id is NaN or not stored; otherwise 200 with the stored record |
| Routes.PostQuotesSpec | server/routes.ts:75-89 | a zod error gives 400 "Invalid quote data" with its issues and the store unchanged; any other failure gives 500 "Failed to create quote" with the store unchanged; valid data gives 201 with the created "pending" quote, stored under the old counter value and appended to the listing |
| Routes.GetQuotesSpec | server/routes.ts:91-98 | the quote listing is 200 with every stored quote, in id order |
| Routes.GetContactsSpec | server/routes.ts:132-139 | the contact listing is 200 with every stored contact, in id order |
| Routes.GetQuoteByIdSpec | server/routes.ts:100-113 | 404 "Quote not found" exactly when the id is NaN or not stored; otherwise 200 with the stored record |
| Routes.PostContactsSpec | server/routes.ts:116-130 | a zod error gives 400 "Invalid contact data" and no write; any other failure gives 500 "Failed to create contact" and no write; valid data gives 201 with the created "unread" contact |
| Routes.GetGallerySpec | server/routes.ts:142-157 | exactly the string "true" selects the featured items; every other value lists all items |
| Routes.GetGalleryItemByIdSpec | server/routes.ts:159-172 | 404 "Gallery item not found" exactly when the id is NaN or not stored; otherwise 200 with the stored record |
| Routes.HandleSpec | server/routes.ts:7-176 | every request keeps the invariant; only a POST whose data validated changes the store; the status is always one of 200, 201, 400, 404 and 500; 201 means exactly that a submission was stored; 400 and 500 come only from the POST routes |

## Left out

- Schema validation: `insertQuoteSchema.parse` and `insertContactSchema.parse` (zod and drizzle-zod) are a foreign library. A POST handler takes the parse outcome as an input: validated data, a `ZodError` with its issues, or another exception. The issues are opaque strings.
- Ids and counters are unbounded `nat`. A JavaScript number is a double, so `current*Id++` stops advancing at 2^53 and every later create would reuse that id and overwrite the stored record. The freshness of ids, `StoreInv` and every `Create*Spec` are proved only for unbounded counters; the overflow after 2^53 creates is not modelled.
- `createdAt: new Date()`: the wall-clock time is a parameter `now` of `createQuote` and `createContact`.
- `parseInt`: a by-id handler takes its result as an input, either NaN or an integer. How a string becomes that number is not modelled.
- Express and HTTP plumbing (`createServer`, `res.json`, route matching, unmatched paths) are not modelled; a `Request` names the route and carries the fields its handler reads.
- GET handler `catch` blocks: the in-memory reads cannot throw, so the 500 responses of the GET routes ("Failed to fetch …") cannot occur and are not modelled. The POST routes keep their 500 branch, reached by a non-zod exception.
- Promises and `async`: every store method is modelled as a synchronous call, since nothing interleaves within one.
- Js.Lower: `toLowerCase` is modelled on ASCII letters only; full Unicode case mapping is not modelled.
- Storage.MemStorage.UpdateQuoteStatus: the source mutates the stored object, so an object returned earlier by `createQuote` or `getQuote` sees the new status too. Records here are values, so that aliasing is not captured; the map entry and the returned record are updated. The same holds for Storage.MemStorage.UpdateContactStatus.
- Decimal columns (`hourlyRate`, `fixedRate`, `rating`, `basePrice`) are carried as strings, as the source's types declare; their numeric meaning is not modelled.
- Table declarations in shared/schema.ts: only the record and insert shapes are modelled; the column types and the drizzle table objects are not.
- dist/index.js is a bundled copy of the same code plus server bootstrapping and is not part of this model; neither are the React components under client/src and dist/*.tsx, which are presentation.
