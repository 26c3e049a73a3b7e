/**
 * The request handlers that `registerRoutes` installs (server/routes.ts), each as a
 * function from the request fields and the store state to the response and, for the
 * two POST routes, the new store state. The store is the `storage` singleton: its
 * reads are the functions of module Store applied to the state, its writes are
 * `Store.CreateQuote` and `Store.CreateContact`.
 */
module Routes {
  import opened Js
  import opened Schema
  import opened Store

  /** A query-string value as Express parses it: missing, one string, or an array or object. */
  datatype QueryValue = Absent | Text(value: string) | NonText

  /** The result of `parseInt(req.params.id)`. */
  datatype IdParam = NaN | Int(value: int)

  /** One entry of a zod error's `errors` array; its contents are not modelled. */
  type Issue = string

  /**
   * The outcome of `schema.parse(req.body)`: the validated data, a `ZodError`
   * carrying its issues, or any other exception.
   */
  datatype Parse<T> = Parsed(data: T) | ZodError(errors: seq<Issue>) | OtherError

  /** The JSON bodies the handlers send. */
  datatype Body =
    | WatchmakerList(watchmakers: seq<Watchmaker>)
    | WatchmakerRecord(watchmaker: Watchmaker)
    | ServiceList(services: seq<Service>)
    | ServiceRecord(service: Service)
    | QuoteList(quotes: seq<Quote>)
    | QuoteRecord(quote: Quote)
    | ContactList(contacts: seq<Contact>)
    | ContactRecord(contact: Contact)
    | GalleryList(galleryItems: seq<GalleryItem>)
    | GalleryRecord(galleryItem: GalleryItem)
    | Message(message: string)
    | ValidationFailure(message: string, errors: seq<Issue>)

  /** `res.status(status).json(body)`; a bare `res.json(body)` has status 200. */
  datatype Response = Response(status: nat, body: Body)

  /** `x && typeof x === 'string'`: a string, and not the empty one. */
  predicate NonEmptyText(q: QueryValue)
  {
    q.Text? && q.value != ""
  }

  /** GET /api/watchmakers (routes.ts:9-24). */
  function GetWatchmakers(st: StoreState, specialization: QueryValue): Response
  {
    if NonEmptyText(specialization) then
      Response(200, WatchmakerList(GetWatchmakersBySpecialization(st, specialization.value)))
    else
      Response(200, WatchmakerList(GetAllWatchmakers(st)))
  }

  /** GET /api/watchmakers/:id (routes.ts:26-39). */
  function GetWatchmakerById(st: StoreState, id: IdParam): Response
  {
    var found := if id.NaN? then None else GetWatchmaker(st, id.value);
    if found.None? then Response(404, Message("Watchmaker not found"))
    else Response(200, WatchmakerRecord(found.value))
  }

  /** GET /api/services (routes.ts:42-57). */
  function GetServices(st: StoreState, category: QueryValue): Response
  {
    if NonEmptyText(category) then
      Response(200, ServiceList(GetServicesByCategory(st, category.value)))
    else
      Response(200, ServiceList(GetAllServices(st)))
  }

  /** GET /api/services/:id (routes.ts:59-72). */
  function GetServiceById(st: StoreState, id: IdParam): Response
  {
    var found := if id.NaN? then None else GetService(st, id.value);
    if found.None? then Response(404, Message("Service not found"))
    else Response(200, ServiceRecord(found.value))
  }

  /** POST /api/quotes (routes.ts:75-89): validate, then create. */
  function PostQuotes(st: StoreState, body: Parse<InsertQuote>, now: Timestamp): (StoreState, Response)
  {
    match body
    case Parsed(data) =>
      var (st', quote) := CreateQuote(st, data, now);
      (st', Response(201, QuoteRecord(quote)))
    case ZodError(errors) => (st, Response(400, ValidationFailure("Invalid quote data", errors)))
    case OtherError => (st, Response(500, Message("Failed to create quote")))
  }

  /** GET /api/quotes (routes.ts:91-98). */
  function GetQuotes(st: StoreState): Response
  {
    Response(200, QuoteList(GetAllQuotes(st)))
  }

  /** GET /api/quotes/:id (routes.ts:100-113). */
  function GetQuoteById(st: StoreState, id: IdParam): Response
  {
    var found := if id.NaN? then None else GetQuote(st, id.value);
    if found.None? then Response(404, Message("Quote not found"))
    else Response(200, QuoteRecord(found.value))
  }

  /** POST /api/contacts (routes.ts:116-130): validate, then create. */
  function PostContacts(st: StoreState, body: Parse<InsertContact>, now: Timestamp): (StoreState, Response)
  {
    match body
    case Parsed(data) =>
      var (st', contact) := CreateContact(st, data, now);
      (st', Response(201, ContactRecord(contact)))
    case ZodError(errors) => (st, Response(400, ValidationFailure("Invalid contact data", errors)))
    case OtherError => (st, Response(500, Message("Failed to create contact")))
  }

  /** GET /api/contacts (routes.ts:132-139). */
  function GetContacts(st: StoreState): Response
  {
    Response(200, ContactList(GetAllContacts(st)))
  }

  /** GET /api/gallery (routes.ts:142-157): only the exact string "true" selects the featured items. */
  function GetGallery(st: StoreState, featured: QueryValue): Response
  {
    if featured == Text("true") then Response(200, GalleryList(GetFeaturedGalleryItems(st)))
    else Response(200, GalleryList(GetAllGalleryItems(st)))
  }

  /** GET /api/gallery/:id (routes.ts:159-172). */
  function GetGalleryItemById(st: StoreState, id: IdParam): Response
  {
    var found := if id.NaN? then None else GetGalleryItem(st, id.value);
    if found.None? then Response(404, Message("Gallery item not found"))
    else Response(200, GalleryRecord(found.value))
  }

  /** The routes `registerRoutes` installs, with the request fields each handler reads. */
  datatype Request =
    | ListWatchmakers(specialization: QueryValue)
    | ShowWatchmaker(id: IdParam)
    | ListServices(category: QueryValue)
    | ShowService(id: IdParam)
    | SubmitQuote(quote: Parse<InsertQuote>, now: Timestamp)
    | ListQuotes
    | ShowQuote(id: IdParam)
    | SubmitContact(contact: Parse<InsertContact>, now: Timestamp)
    | ListContacts
    | ListGallery(featured: QueryValue)
    | ShowGalleryItem(id: IdParam)

  /** One request, handled to completion against the store. */
  function Handle(st: StoreState, req: Request): (StoreState, Response)
  {
    match req
    case ListWatchmakers(q) => (st, GetWatchmakers(st, q))
    case ShowWatchmaker(id) => (st, GetWatchmakerById(st, id))
    case ListServices(q) => (st, GetServices(st, q))
    case ShowService(id) => (st, GetServiceById(st, id))
    case SubmitQuote(body, now) => PostQuotes(st, body, now)
    case ListQuotes => (st, GetQuotes(st))
    case ShowQuote(id) => (st, GetQuoteById(st, id))
    case SubmitContact(body, now) => PostContacts(st, body, now)
    case ListContacts => (st, GetContacts(st))
    case ListGallery(q) => (st, GetGallery(st, q))
    case ShowGalleryItem(id) => (st, GetGalleryItemById(st, id))
  }

  // ---------------------------------------------------------------- properties

  /**
   * The watchmaker listing is always a 200 of active stored watchmakers. A
   * non-empty string query narrows it to the case-insensitive specialization
   * matches; any other query value (missing, empty or not a string) lists all of them.
   */
  lemma GetWatchmakersSpec(st: StoreState, specialization: QueryValue)
    requires StoreInv(st)
    ensures var r := GetWatchmakers(st, specialization);
      && r.status == 200 && r.body.WatchmakerList?
      && (forall w :: w in r.body.watchmakers ==> w in st.watchmakers.entries.Values && w.isActive)
      && (!NonEmptyText(specialization) ==>
           r == GetWatchmakers(st, Absent) && r.body.watchmakers == GetAllWatchmakers(st))
      && (NonEmptyText(specialization) ==> forall w :: w in r.body.watchmakers <==>
           && w in st.watchmakers.entries.Values && w.isActive
           && exists i :: OccursAt(Lower(w.specialization), Lower(specialization.value), i))
  {
    GetAllWatchmakersSpec(st);
    if NonEmptyText(specialization) {
      GetWatchmakersBySpecializationSpec(st, specialization.value);
    }
  }

  /**
   * The service listing is always a 200 of stored services. A non-empty string
   * query narrows it to that exact category; any other value lists all of them.
   */
  lemma GetServicesSpec(st: StoreState, category: QueryValue)
    requires StoreInv(st)
    ensures var r := GetServices(st, category);
      && r.status == 200 && r.body.ServiceList?
      && (forall s :: s in r.body.services ==> s in st.services.entries.Values)
      && (!NonEmptyText(category) ==> r == GetServices(st, Absent) && r.body.services == GetAllServices(st))
      && (NonEmptyText(category) ==> forall s :: s in r.body.services <==>
           s in st.services.entries.Values && s.category == category.value)
  {
    TableListing(st.services, st.currentServiceId, ServiceId);
    if NonEmptyText(category) {
      GetServicesByCategorySpec(st, category.value);
    }
  }

  /**
   * The gallery listing is the featured items exactly when the query is the string
   * "true", and every item otherwise.
   */
  lemma GetGallerySpec(st: StoreState, featured: QueryValue)
    requires StoreInv(st)
    ensures var r := GetGallery(st, featured);
      && r.status == 200 && r.body.GalleryList?
      && (forall g :: g in r.body.galleryItems ==> g in st.galleryItems.entries.Values)
      && (featured == Text("true") ==> forall g :: g in r.body.galleryItems <==>
           g in st.galleryItems.entries.Values && g.featured)
      && (featured != Text("true") ==>
           && r.body.galleryItems == GetAllGalleryItems(st)
           && forall g :: g in r.body.galleryItems <==> g in st.galleryItems.entries.Values)
  {
    TableListing(st.galleryItems, st.currentGalleryItemId, GalleryItemId);
    GetFeaturedGalleryItemsSpec(st);
  }

  /** The quote listing is a 200 of every stored quote, in id order. */
  lemma GetQuotesSpec(st: StoreState)
    requires StoreInv(st)
    ensures var r := GetQuotes(st);
      && r.status == 200 && r.body.QuoteList?
      && (forall q :: q in r.body.quotes <==> q in st.quotes.entries.Values)
      && KeysIncrease(r.body.quotes, QuoteId)
  {
    ListingsSpec(st);
  }

  /** The contact listing is a 200 of every stored contact, in id order. */
  lemma GetContactsSpec(st: StoreState)
    requires StoreInv(st)
    ensures var r := GetContacts(st);
      && r.status == 200 && r.body.ContactList?
      && (forall c :: c in r.body.contacts <==> c in st.contacts.entries.Values)
      && KeysIncrease(r.body.contacts, ContactId)
  {
    ListingsSpec(st);
  }

  /**
   * A by-id lookup is a 404 with the fixed message exactly when the id is not a
   * number or no watchmaker is stored under it; otherwise it is a 200 with the
   * stored record, whose id is the one asked for.
   */
  lemma GetWatchmakerByIdSpec(st: StoreState, id: IdParam)
    requires StoreInv(st)
    ensures var r := GetWatchmakerById(st, id);
      && (r.status == 404 <==> id.NaN? || id.value !in st.watchmakers.entries)
      && (r.status == 404 ==> r.body == Message("Watchmaker not found"))
      && (r.status != 404 ==>
           && r.status == 200 && r.body.WatchmakerRecord?
           && r.body.watchmaker == st.watchmakers.entries[id.value] && r.body.watchmaker.id == id.value)
  {
  }

  lemma GetServiceByIdSpec(st: StoreState, id: IdParam)
    requires StoreInv(st)
    ensures var r := GetServiceById(st, id);
      && (r.status == 404 <==> id.NaN? || id.value !in st.services.entries)
      && (r.status == 404 ==> r.body == Message("Service not found"))
      && (r.status != 404 ==>
           && r.status == 200 && r.body.ServiceRecord?
           && r.body.service == st.services.entries[id.value] && r.body.service.id == id.value)
  {
  }

  lemma GetQuoteByIdSpec(st: StoreState, id: IdParam)
    requires StoreInv(st)
    ensures var r := GetQuoteById(st, id);
      && (r.status == 404 <==> id.NaN? || id.value !in st.quotes.entries)
      && (r.status == 404 ==> r.body == Message("Quote not found"))
      && (r.status != 404 ==>
           && r.status == 200 && r.body.QuoteRecord?
           && r.body.quote == st.quotes.entries[id.value] && r.body.quote.id == id.value)
  {
  }

  lemma GetGalleryItemByIdSpec(st: StoreState, id: IdParam)
    requires StoreInv(st)
    ensures var r := GetGalleryItemById(st, id);
      && (r.status == 404 <==> id.NaN? || id.value !in st.galleryItems.entries)
      && (r.status == 404 ==> r.body == Message("Gallery item not found"))
      && (r.status != 404 ==>
           && r.status == 200 && r.body.GalleryRecord?
           && r.body.galleryItem == st.galleryItems.entries[id.value] && r.body.galleryItem.id == id.value)
  {
  }

  /**
   * POST /api/quotes writes to the store only when validation succeeds: a zod
   * error is a 400 carrying its issues and any other exception a 500, both with
   * fixed messages and the store (counter included) unchanged; valid data is a 201
   * with the quote `createQuote` stored under the next id, as "pending".
   */
  lemma PostQuotesSpec(st: StoreState, body: Parse<InsertQuote>, now: Timestamp)
    requires StoreInv(st)
    ensures var (st', r) := PostQuotes(st, body, now);
      && StoreInv(st')
      && (body.ZodError? ==> st' == st && r == Response(400, ValidationFailure("Invalid quote data", body.errors)))
      && (body.OtherError? ==> st' == st && r == Response(500, Message("Failed to create quote")))
      && (body.Parsed? ==>
           && r.status == 201 && r.body.QuoteRecord?
           && (st', r.body.quote) == CreateQuote(st, body.data, now)
           && r.body.quote.id == st.currentQuoteId && r.body.quote.status == "pending"
           && r.body.quote.createdAt == now
           && st'.currentQuoteId == st.currentQuoteId + 1
           && GetQuote(st', r.body.quote.id) == Some(r.body.quote)
           && GetAllQuotes(st') == GetAllQuotes(st) + [r.body.quote])
  {
    if body.Parsed? {
      CreateQuoteSpec(st, body.data, now);
    }
  }

  /** POST /api/contacts follows the same validate-then-create rule, storing the contact as "unread". */
  lemma PostContactsSpec(st: StoreState, body: Parse<InsertContact>, now: Timestamp)
    requires StoreInv(st)
    ensures var (st', r) := PostContacts(st, body, now);
      && StoreInv(st')
      && (body.ZodError? ==> st' == st && r == Response(400, ValidationFailure("Invalid contact data", body.errors)))
      && (body.OtherError? ==> st' == st && r == Response(500, Message("Failed to create contact")))
      && (body.Parsed? ==>
           && r.status == 201 && r.body.ContactRecord?
           && (st', r.body.contact) == CreateContact(st, body.data, now)
           && r.body.contact.id == st.currentContactId && r.body.contact.status == "unread"
           && r.body.contact.createdAt == now
           && st'.currentContactId == st.currentContactId + 1
           && GetContact(st', r.body.contact.id) == Some(r.body.contact)
           && GetAllContacts(st') == GetAllContacts(st) + [r.body.contact])
  {
    if body.Parsed? {
      CreateContactSpec(st, body.data, now);
    }
  }

  predicate IsSubmission(req: Request)
  {
    req.SubmitQuote? || req.SubmitContact?
  }

  /**
   * Every request keeps the store invariant; only the two POST routes can change
   * the store, and only when their data validated; the status is one of 200, 201,
   * 400, 404 and 500, and 201 means exactly that a submission was stored.
   */
  lemma HandleSpec(st: StoreState, req: Request)
    requires StoreInv(st)
    ensures var (st', r) := Handle(st, req);
      && StoreInv(st')
      && (!IsSubmission(req) ==> st' == st)
      && (req.SubmitQuote? && !req.quote.Parsed? ==> st' == st)
      && (req.SubmitContact? && !req.contact.Parsed? ==> st' == st)
      && r.status in {200, 201, 400, 404, 500}
      && (r.status == 201 <==> (req.SubmitQuote? && req.quote.Parsed?) || (req.SubmitContact? && req.contact.Parsed?))
      && (r.status == 400 || r.status == 500 ==> IsSubmission(req))
  {
    match req
    case SubmitQuote(body, now) => PostQuotesSpec(st, body, now);
    case SubmitContact(body, now) => PostContactsSpec(st, body, now);
    case _ =>
  }
}
