/**
 * The state of the in-memory store of server/storage.ts as a value, and every
 * operation of `MemStorage` as a function of that value: the reads return what the
 * class returns, the writes return the new state together with what the class returns.
 * The class in storage.dfy is proved to change its fields exactly as these functions say.
 */
module Store {
  import opened Js
  import opened JsMap
  import opened Schema

  /** The six `Map` fields of `MemStorage` and their six `current*Id` counters. */
  datatype StoreState = StoreState(
    users: OrderedMap<User>,
    watchmakers: OrderedMap<Watchmaker>,
    services: OrderedMap<Service>,
    quotes: OrderedMap<Quote>,
    contacts: OrderedMap<Contact>,
    galleryItems: OrderedMap<GalleryItem>,
    currentUserId: nat,
    currentWatchmakerId: nat,
    currentServiceId: nat,
    currentQuoteId: nat,
    currentContactId: nat,
    currentGalleryItemId: nat)

  function UserId(u: User): nat { u.id }
  function WatchmakerId(w: Watchmaker): nat { w.id }
  function ServiceId(s: Service): nat { s.id }
  function QuoteId(q: Quote): nat { q.id }
  function ContactId(c: Contact): nat { c.id }
  function GalleryItemId(g: GalleryItem): nat { g.id }

  /** The keys are listed in strictly increasing order. */
  ghost predicate Ascending(keys: seq<nat>)
  {
    forall i, j :: 0 <= i < j < |keys| ==> keys[i] < keys[j]
  }

  /** Every key is an id already handed out by the counter, and every record is stored under its own id. */
  ghost predicate IdsIssued<V>(entries: map<nat, V>, next: nat, id: V -> nat)
  {
    forall k :: k in entries ==> 1 <= k < next && id(entries[k]) == k
  }

  /**
   * A table keeps its keys in increasing order (so insertion order is id order),
   * and holds only ids the counter has handed out, each record under its own id.
   */
  ghost predicate TableInv<V>(t: OrderedMap<V>, next: nat, id: V -> nat)
  {
    && Valid(t)
    && 1 <= next
    && Ascending(t.keys)
    && IdsIssued(t.entries, next, id)
  }

  lemma AscendingSnoc(keys: seq<nat>, next: nat)
    requires Ascending(keys) && forall k :: k in keys ==> k < next
    ensures Ascending(keys + [next])
  {
    var keys' := keys + [next];
    forall i, j | 0 <= i < j < |keys'|
      ensures keys'[i] < keys'[j]
    {
      assert keys'[i] == keys[i] && keys[i] in keys;
      if j < |keys| {
        assert keys'[j] == keys[j];
      }
    }
  }

  lemma IdsIssuedInsert<V>(entries: map<nat, V>, next: nat, v: V, id: V -> nat)
    requires IdsIssued(entries, next, id) && 1 <= next && id(v) == next
    ensures IdsIssued(entries[next := v], next + 1, id)
  {
    var entries' := entries[next := v];
    forall k | k in entries'
      ensures 1 <= k < next + 1 && id(entries'[k]) == k
    {
      if k != next {
        assert k in entries && entries'[k] == entries[k];
      }
    }
  }

  ghost predicate StoreInv(st: StoreState)
  {
    && TableInv(st.users, st.currentUserId, UserId)
    && TableInv(st.watchmakers, st.currentWatchmakerId, WatchmakerId)
    && TableInv(st.services, st.currentServiceId, ServiceId)
    && TableInv(st.quotes, st.currentQuoteId, QuoteId)
    && TableInv(st.contacts, st.currentContactId, ContactId)
    && TableInv(st.galleryItems, st.currentGalleryItemId, GalleryItemId)
  }

  /** A listing of a table holds exactly the stored records, in increasing id order. */
  lemma TableListing<V>(t: OrderedMap<V>, next: nat, id: V -> nat)
    requires TableInv(t, next, id)
    ensures forall v :: v in Values(t) <==> v in t.entries.Values
    ensures |Values(t)| == |t.keys|
    ensures forall i :: 0 <= i < |t.keys| ==> id(Values(t)[i]) == t.keys[i]
    ensures KeysIncrease(Values(t), id)
  {
    ValuesMembers(t);
  }

  /** Storing a record under the counter's value appends it to the listing. */
  lemma TableInsert<V>(t: OrderedMap<V>, next: nat, v: V, id: V -> nat)
    requires TableInv(t, next, id) && id(v) == next
    ensures next !in t.entries
    ensures TableInv(Set(t, next, v), next + 1, id)
    ensures Set(t, next, v).keys == t.keys + [next]
    ensures Values(Set(t, next, v)) == Values(t) + [v]
  {
    assert next !in t.entries;
    SetNew(t, next, v);
    AscendingSnoc(t.keys, next);
    IdsIssuedInsert(t.entries, next, v, id);
  }

  /** Replacing a stored record by one with the same id keeps the invariant and the order. */
  lemma TableReplace<V>(t: OrderedMap<V>, next: nat, k: nat, v: V, id: V -> nat)
    requires TableInv(t, next, id) && k in t.entries && id(v) == k
    ensures TableInv(Set(t, k, v), next, id)
    ensures Set(t, k, v).keys == t.keys
    ensures |Values(t)| == |Values(Set(t, k, v))| == |t.keys|
    ensures forall i :: 0 <= i < |t.keys| ==>
      Values(Set(t, k, v))[i] == if t.keys[i] == k then v else Values(t)[i]
  {
    SetPresent(t, k, v);
  }

  /** The store right after the field initialisers of the constructor (storage.ts:63-74). */
  function EmptyStore(): StoreState
  {
    StoreState(Empty(), Empty(), Empty(), Empty(), Empty(), Empty(), 1, 1, 1, 1, 1, 1)
  }

  lemma EmptyStoreInv()
    ensures StoreInv(EmptyStore())
  {
  }

  // ---------------------------------------------------------------- users

  function GetUser(st: StoreState, id: int): Option<User>
  {
    Get(st.users, id)
  }

  function HasUsername(username: string): User -> bool
  {
    (u: User) => u.username == username
  }

  function GetUserByUsername(st: StoreState, username: string): Option<User>
  {
    Find(Values(st.users), HasUsername(username))
  }

  function NewUser(id: nat, u: InsertUser): (r: User)
    ensures r.id == id && r.username == u.username && r.password == u.password
  {
    User(id, u.username, u.password)
  }

  function CreateUser(st: StoreState, u: InsertUser): (StoreState, User)
  {
    var user := NewUser(st.currentUserId, u);
    (st.(users := Set(st.users, user.id, user), currentUserId := st.currentUserId + 1), user)
  }

  lemma CreateUserSpec(st: StoreState, u: InsertUser)
    requires StoreInv(st)
    ensures var (st', user) := CreateUser(st, u);
      && user == NewUser(st.currentUserId, u)
      && GetUser(st, user.id) == None
      && GetUser(st', user.id) == Some(user)
      && (forall k :: k != user.id ==> GetUser(st', k) == GetUser(st, k))
      && Values(st'.users) == Values(st.users) + [user]
      && st' == st.(users := st'.users, currentUserId := st.currentUserId + 1)
      && StoreInv(st')
  {
    TableInsert(st.users, st.currentUserId, NewUser(st.currentUserId, u), UserId);
  }

  /** The lookup by username answers with the oldest user of that name, if any. */
  lemma GetUserByUsernameSpec(st: StoreState, username: string)
    requires StoreInv(st)
    ensures var r := GetUserByUsername(st, username);
      && (r.None? <==> forall u :: u in st.users.entries.Values ==> u.username != username)
      && (r.Some? ==>
            && r.value in st.users.entries.Values
            && r.value.username == username
            && forall u :: u in st.users.entries.Values && u.username == username ==> r.value.id <= u.id)
  {
    var vs := Values(st.users);
    TableListing(st.users, st.currentUserId, UserId);
    var p := HasUsername(username);
    var fi := FirstIndex(vs, p);
    forall u | u in st.users.entries.Values && u.username == username
      ensures fi.Some? && vs[fi.value].id <= u.id
    {
      var j :| 0 <= j < |vs| && vs[j] == u;
      assert p(vs[j]);
      if fi.value < j {
        assert UserId(vs[fi.value]) < UserId(vs[j]);
      }
    }
    if fi.Some? {
      assert vs[fi.value] in vs;
    }
  }

  /** `createUser` does not check uniqueness: a second user of a taken name is stored, and the lookup keeps answering with the first. */
  lemma CreateUserAllowsDuplicates(st: StoreState, u: InsertUser)
    requires StoreInv(st) && GetUserByUsername(st, u.username).Some?
    ensures var (st', user) := CreateUser(st, u);
      && user in st'.users.entries.Values
      && user.username == u.username
      && GetUserByUsername(st', u.username) == GetUserByUsername(st, u.username)
      && GetUserByUsername(st', u.username) != Some(user)
  {
    CreateUserSpec(st, u);
    var (st', user) := CreateUser(st, u);
    FindAppend(Values(st.users), [user], HasUsername(u.username));
    GetUserByUsernameSpec(st, u.username);
    assert user.id == st.currentUserId;
  }

  // ---------------------------------------------------------------- watchmakers

  function IsActive(w: Watchmaker): bool
  {
    w.isActive
  }

  /** `getAllWatchmakers`: the active watchmakers only. */
  function GetAllWatchmakers(st: StoreState): seq<Watchmaker>
  {
    Filter(Values(st.watchmakers), IsActive)
  }

  /** `getWatchmaker`: inactive watchmakers are found by id too. */
  function GetWatchmaker(st: StoreState, id: int): Option<Watchmaker>
  {
    Get(st.watchmakers, id)
  }

  /** The specialization contains the query, both lower-cased. */
  function SpecializationContains(query: string): Watchmaker -> bool
  {
    (w: Watchmaker) => Includes(Lower(w.specialization), Lower(query))
  }

  /** The filter of `getWatchmakersBySpecialization`. */
  function SpecializationMatches(query: string): Watchmaker -> bool
  {
    (w: Watchmaker) => Includes(Lower(w.specialization), Lower(query)) && w.isActive
  }

  function GetWatchmakersBySpecialization(st: StoreState, query: string): seq<Watchmaker>
  {
    Filter(Values(st.watchmakers), SpecializationMatches(query))
  }

  /** A stored string field that the source writes as `field || null`. */
  predicate NullIfFalsy(stored: Option<string>, given: Option<string>)
  {
    (stored.None? <==> FalsyString(given)) && (stored.Some? ==> stored == given)
  }

  function NewWatchmaker(id: nat, w: InsertWatchmaker): (r: Watchmaker)
    ensures r.id == id
    ensures && r.name == w.name && r.email == w.email && r.specialization == w.specialization
            && r.experience == w.experience && r.rating == w.rating && r.availability == w.availability
    ensures && NullIfFalsy(r.hourlyRate, w.hourlyRate) && NullIfFalsy(r.fixedRate, w.fixedRate)
            && NullIfFalsy(r.bio, w.bio) && NullIfFalsy(r.imageUrl, w.imageUrl)
    ensures r.certifications == w.certifications
    ensures r.isActive <==> w.isActive != Some(false)
    ensures w.reviewCount.None? ==> r.reviewCount == 0
    ensures w.reviewCount.Some? ==> r.reviewCount == w.reviewCount.value
  {
    Watchmaker(
      id, w.name, w.email, w.specialization, w.experience,
      OrNull(w.hourlyRate), OrNull(w.fixedRate), w.rating,
      Coalesce(w.reviewCount, 0), w.availability,
      ListOrNull(w.certifications), OrNull(w.bio), OrNull(w.imageUrl),
      Coalesce(w.isActive, true))
  }

  function CreateWatchmaker(st: StoreState, w: InsertWatchmaker): (StoreState, Watchmaker)
  {
    var watchmaker := NewWatchmaker(st.currentWatchmakerId, w);
    (st.(watchmakers := Set(st.watchmakers, watchmaker.id, watchmaker),
         currentWatchmakerId := st.currentWatchmakerId + 1),
     watchmaker)
  }

  lemma CreateWatchmakerSpec(st: StoreState, w: InsertWatchmaker)
    requires StoreInv(st)
    ensures var (st', watchmaker) := CreateWatchmaker(st, w);
      && watchmaker == NewWatchmaker(st.currentWatchmakerId, w)
      && GetWatchmaker(st, watchmaker.id) == None
      && GetWatchmaker(st', watchmaker.id) == Some(watchmaker)
      && (forall k :: k != watchmaker.id ==> GetWatchmaker(st', k) == GetWatchmaker(st, k))
      && st'.watchmakers.keys == st.watchmakers.keys + [watchmaker.id]
      && Values(st'.watchmakers) == Values(st.watchmakers) + [watchmaker]
      && GetAllWatchmakers(st') == GetAllWatchmakers(st) + (if watchmaker.isActive then [watchmaker] else [])
      && st' == st.(watchmakers := st'.watchmakers, currentWatchmakerId := st.currentWatchmakerId + 1)
      && StoreInv(st')
  {
    var watchmaker := NewWatchmaker(st.currentWatchmakerId, w);
    TableInsert(st.watchmakers, st.currentWatchmakerId, watchmaker, WatchmakerId);
    FilterSnoc(Values(st.watchmakers), watchmaker, IsActive);
  }

  /** `getAllWatchmakers` lists exactly the active watchmakers, in insertion order. */
  lemma GetAllWatchmakersSpec(st: StoreState)
    requires StoreInv(st)
    ensures forall w :: w in GetAllWatchmakers(st) <==> w in st.watchmakers.entries.Values && w.isActive
    ensures IsSubsequence(GetAllWatchmakers(st), Values(st.watchmakers))
    ensures KeysIncrease(GetAllWatchmakers(st), WatchmakerId)
  {
    TableListing(st.watchmakers, st.currentWatchmakerId, WatchmakerId);
    FilterIsSubsequence(Values(st.watchmakers), IsActive);
    FilterKeepsIncreasing(Values(st.watchmakers), IsActive, WatchmakerId);
  }

  /**
   * The search lists exactly the active watchmakers whose lower-cased specialization
   * contains the lower-cased query at some offset, as a subsequence of `getAllWatchmakers`.
   */
  lemma GetWatchmakersBySpecializationSpec(st: StoreState, query: string)
    requires StoreInv(st)
    ensures var r := GetWatchmakersBySpecialization(st, query);
      && r == Filter(GetAllWatchmakers(st), SpecializationContains(query))
      && IsSubsequence(r, GetAllWatchmakers(st))
      && KeysIncrease(r, WatchmakerId)
      && forall w :: w in r <==>
           && w in st.watchmakers.entries.Values
           && w.isActive
           && exists i :: OccursAt(Lower(w.specialization), Lower(query), i)
  {
    var vs := Values(st.watchmakers);
    FilterFilter(vs, IsActive, SpecializationContains(query), SpecializationMatches(query));
    GetAllWatchmakersSpec(st);
    TableListing(st.watchmakers, st.currentWatchmakerId, WatchmakerId);
    FilterIsSubsequence(GetAllWatchmakers(st), SpecializationContains(query));
    FilterKeepsIncreasing(vs, SpecializationMatches(query), WatchmakerId);
    forall w: Watchmaker
      ensures Includes(Lower(w.specialization), Lower(query)) <==> exists i :: OccursAt(Lower(w.specialization), Lower(query), i)
    {
      IncludesIff(Lower(w.specialization), Lower(query));
    }
  }

  /** An empty query matches every specialization, since every string includes "". */
  lemma EmptySpecializationListsAllActive(st: StoreState)
    ensures GetWatchmakersBySpecialization(st, "") == GetAllWatchmakers(st)
  {
    var vs := Values(st.watchmakers);
    FilterFilter(vs, IsActive, SpecializationContains(""), SpecializationMatches(""));
    var active := Filter(vs, IsActive);
    forall i | 0 <= i < |active|
      ensures SpecializationContains("")(active[i])
    {
      assert Lower("") == "";
      IncludesEmpty(Lower(active[i].specialization));
    }
    FilterAll(active, SpecializationContains(""));
  }

  /** Queries that lower-case alike give the same search result. */
  lemma SpecializationSearchIgnoresCase(st: StoreState, q1: string, q2: string)
    requires Lower(q1) == Lower(q2)
    ensures GetWatchmakersBySpecialization(st, q1) == GetWatchmakersBySpecialization(st, q2)
  {
    FilterCongruence(Values(st.watchmakers), SpecializationMatches(q1), SpecializationMatches(q2));
  }

  // ---------------------------------------------------------------- services

  function GetAllServices(st: StoreState): seq<Service>
  {
    Values(st.services)
  }

  function GetService(st: StoreState, id: int): Option<Service>
  {
    Get(st.services, id)
  }

  function InCategory(category: string): Service -> bool
  {
    (s: Service) => s.category == category
  }

  function GetServicesByCategory(st: StoreState, category: string): seq<Service>
  {
    Filter(Values(st.services), InCategory(category))
  }

  function NewService(id: nat, s: InsertService): (r: Service)
    ensures r.id == id
    ensures && r.name == s.name && r.description == s.description && r.category == s.category
            && r.basePrice == s.basePrice && r.estimatedDuration == s.estimatedDuration
    ensures NullIfFalsy(r.imageUrl, s.imageUrl)
  {
    Service(id, s.name, s.description, s.category, s.basePrice, s.estimatedDuration, OrNull(s.imageUrl))
  }

  function CreateService(st: StoreState, s: InsertService): (StoreState, Service)
  {
    var service := NewService(st.currentServiceId, s);
    (st.(services := Set(st.services, service.id, service), currentServiceId := st.currentServiceId + 1),
     service)
  }

  lemma CreateServiceSpec(st: StoreState, s: InsertService)
    requires StoreInv(st)
    ensures var (st', service) := CreateService(st, s);
      && service == NewService(st.currentServiceId, s)
      && GetService(st, service.id) == None
      && GetService(st', service.id) == Some(service)
      && (forall k :: k != service.id ==> GetService(st', k) == GetService(st, k))
      && st'.services.keys == st.services.keys + [service.id]
      && GetAllServices(st') == GetAllServices(st) + [service]
      && st' == st.(services := st'.services, currentServiceId := st.currentServiceId + 1)
      && StoreInv(st')
  {
    TableInsert(st.services, st.currentServiceId, NewService(st.currentServiceId, s), ServiceId);
  }

  /** The category filter lists exactly the services of that category, as a subsequence of all services. */
  lemma GetServicesByCategorySpec(st: StoreState, category: string)
    requires StoreInv(st)
    ensures var r := GetServicesByCategory(st, category);
      && (forall s :: s in r <==> s in st.services.entries.Values && s.category == category)
      && IsSubsequence(r, GetAllServices(st))
      && KeysIncrease(r, ServiceId)
  {
    TableListing(st.services, st.currentServiceId, ServiceId);
    FilterIsSubsequence(Values(st.services), InCategory(category));
    FilterKeepsIncreasing(Values(st.services), InCategory(category), ServiceId);
  }

  // ---------------------------------------------------------------- quotes

  function GetAllQuotes(st: StoreState): seq<Quote>
  {
    Values(st.quotes)
  }

  function GetQuote(st: StoreState, id: int): Option<Quote>
  {
    Get(st.quotes, id)
  }

  function NewQuote(id: nat, q: InsertQuote, now: Timestamp): (r: Quote)
    ensures r.id == id && r.createdAt == now && r.status == "pending"
    ensures && r.name == q.name && r.email == q.email && r.watchBrand == q.watchBrand
            && r.watchType == q.watchType && r.issueDescription == q.issueDescription && r.urgency == q.urgency
    ensures && NullIfFalsy(r.phone, q.phone) && NullIfFalsy(r.watchModel, q.watchModel)
            && NullIfFalsy(r.preferredService, q.preferredService) && NullIfFalsy(r.budget, q.budget)
  {
    Quote(
      id, q.name, q.email, OrNull(q.phone), q.watchBrand, OrNull(q.watchModel), q.watchType,
      q.issueDescription, OrNull(q.preferredService), q.urgency, OrNull(q.budget), now, "pending")
  }

  function CreateQuote(st: StoreState, q: InsertQuote, now: Timestamp): (StoreState, Quote)
  {
    var quote := NewQuote(st.currentQuoteId, q, now);
    (st.(quotes := Set(st.quotes, quote.id, quote), currentQuoteId := st.currentQuoteId + 1), quote)
  }

  lemma CreateQuoteSpec(st: StoreState, q: InsertQuote, now: Timestamp)
    requires StoreInv(st)
    ensures var (st', quote) := CreateQuote(st, q, now);
      && quote == NewQuote(st.currentQuoteId, q, now)
      && GetQuote(st, quote.id) == None
      && GetQuote(st', quote.id) == Some(quote)
      && (forall k :: k != quote.id ==> GetQuote(st', k) == GetQuote(st, k))
      && GetAllQuotes(st') == GetAllQuotes(st) + [quote]
      && st' == st.(quotes := st'.quotes, currentQuoteId := st.currentQuoteId + 1)
      && StoreInv(st')
  {
    TableInsert(st.quotes, st.currentQuoteId, NewQuote(st.currentQuoteId, q, now), QuoteId);
  }

  /** `updateQuoteStatus`: the record is changed where it is stored and returned. */
  function UpdateQuoteStatus(st: StoreState, id: int, status: string): (StoreState, Option<Quote>)
  {
    match Get(st.quotes, id)
    case None => (st, None)
    case Some(quote) =>
      var updated := quote.(status := status);
      (st.(quotes := Set(st.quotes, id, updated)), Some(updated))
  }

  lemma UpdateQuoteStatusSpec(st: StoreState, id: int, status: string)
    requires StoreInv(st)
    ensures var (st', r) := UpdateQuoteStatus(st, id, status);
      && StoreInv(st')
      && (GetQuote(st, id).None? ==> st' == st && r.None?)
      && (GetQuote(st, id).Some? ==>
            && r == Some(GetQuote(st, id).value.(status := status))
            && GetQuote(st', id) == r
            && (forall k :: k != id ==> GetQuote(st', k) == GetQuote(st, k))
            && st' == st.(quotes := st'.quotes)
            && |GetAllQuotes(st')| == |GetAllQuotes(st)|
            && forall i :: 0 <= i < |GetAllQuotes(st)| ==>
                 GetAllQuotes(st')[i] == if GetAllQuotes(st)[i].id == id then r.value else GetAllQuotes(st)[i])
  {
    if GetQuote(st, id).Some? {
      var quote := GetQuote(st, id).value;
      TableReplace(st.quotes, st.currentQuoteId, id, quote.(status := status), QuoteId);
      TableListing(st.quotes, st.currentQuoteId, QuoteId);
    }
  }

  // ---------------------------------------------------------------- contacts

  function GetAllContacts(st: StoreState): seq<Contact>
  {
    Values(st.contacts)
  }

  function GetContact(st: StoreState, id: int): Option<Contact>
  {
    Get(st.contacts, id)
  }

  function NewContact(id: nat, c: InsertContact, now: Timestamp): (r: Contact)
    ensures r.id == id && r.createdAt == now && r.status == "unread"
    ensures r.name == c.name && r.email == c.email && r.subject == c.subject && r.message == c.message
  {
    Contact(id, c.name, c.email, c.subject, c.message, now, "unread")
  }

  function CreateContact(st: StoreState, c: InsertContact, now: Timestamp): (StoreState, Contact)
  {
    var contact := NewContact(st.currentContactId, c, now);
    (st.(contacts := Set(st.contacts, contact.id, contact), currentContactId := st.currentContactId + 1),
     contact)
  }

  lemma CreateContactSpec(st: StoreState, c: InsertContact, now: Timestamp)
    requires StoreInv(st)
    ensures var (st', contact) := CreateContact(st, c, now);
      && contact == NewContact(st.currentContactId, c, now)
      && GetContact(st, contact.id) == None
      && GetContact(st', contact.id) == Some(contact)
      && (forall k :: k != contact.id ==> GetContact(st', k) == GetContact(st, k))
      && GetAllContacts(st') == GetAllContacts(st) + [contact]
      && st' == st.(contacts := st'.contacts, currentContactId := st.currentContactId + 1)
      && StoreInv(st')
  {
    TableInsert(st.contacts, st.currentContactId, NewContact(st.currentContactId, c, now), ContactId);
  }

  /** `updateContactStatus`: the record is changed where it is stored and returned. */
  function UpdateContactStatus(st: StoreState, id: int, status: string): (StoreState, Option<Contact>)
  {
    match Get(st.contacts, id)
    case None => (st, None)
    case Some(contact) =>
      var updated := contact.(status := status);
      (st.(contacts := Set(st.contacts, id, updated)), Some(updated))
  }

  lemma UpdateContactStatusSpec(st: StoreState, id: int, status: string)
    requires StoreInv(st)
    ensures var (st', r) := UpdateContactStatus(st, id, status);
      && StoreInv(st')
      && (GetContact(st, id).None? ==> st' == st && r.None?)
      && (GetContact(st, id).Some? ==>
            && r == Some(GetContact(st, id).value.(status := status))
            && GetContact(st', id) == r
            && (forall k :: k != id ==> GetContact(st', k) == GetContact(st, k))
            && st' == st.(contacts := st'.contacts)
            && |GetAllContacts(st')| == |GetAllContacts(st)|
            && forall i :: 0 <= i < |GetAllContacts(st)| ==>
                 GetAllContacts(st')[i] == if GetAllContacts(st)[i].id == id then r.value else GetAllContacts(st)[i])
  {
    if GetContact(st, id).Some? {
      var contact := GetContact(st, id).value;
      TableReplace(st.contacts, st.currentContactId, id, contact.(status := status), ContactId);
      TableListing(st.contacts, st.currentContactId, ContactId);
    }
  }

  // ---------------------------------------------------------------- gallery items

  function GetAllGalleryItems(st: StoreState): seq<GalleryItem>
  {
    Values(st.galleryItems)
  }

  function IsFeatured(g: GalleryItem): bool
  {
    g.featured
  }

  function GetFeaturedGalleryItems(st: StoreState): seq<GalleryItem>
  {
    Filter(Values(st.galleryItems), IsFeatured)
  }

  function GetGalleryItem(st: StoreState, id: int): Option<GalleryItem>
  {
    Get(st.galleryItems, id)
  }

  function NewGalleryItem(id: nat, g: InsertGalleryItem): (r: GalleryItem)
    ensures r.id == id
    ensures && r.title == g.title && r.beforeImageUrl == g.beforeImageUrl && r.afterImageUrl == g.afterImageUrl
            && r.watchmakerName == g.watchmakerName && r.serviceType == g.serviceType
    ensures NullIfFalsy(r.description, g.description) && NullIfFalsy(r.completionTime, g.completionTime)
    ensures r.featured <==> g.featured == Some(true)
  {
    GalleryItem(
      id, g.title, OrNull(g.description), g.beforeImageUrl, g.afterImageUrl, g.watchmakerName,
      g.serviceType, OrNull(g.completionTime), Coalesce(g.featured, false))
  }

  function CreateGalleryItem(st: StoreState, g: InsertGalleryItem): (StoreState, GalleryItem)
  {
    var item := NewGalleryItem(st.currentGalleryItemId, g);
    (st.(galleryItems := Set(st.galleryItems, item.id, item),
         currentGalleryItemId := st.currentGalleryItemId + 1),
     item)
  }

  lemma CreateGalleryItemSpec(st: StoreState, g: InsertGalleryItem)
    requires StoreInv(st)
    ensures var (st', item) := CreateGalleryItem(st, g);
      && item == NewGalleryItem(st.currentGalleryItemId, g)
      && GetGalleryItem(st, item.id) == None
      && GetGalleryItem(st', item.id) == Some(item)
      && (forall k :: k != item.id ==> GetGalleryItem(st', k) == GetGalleryItem(st, k))
      && st'.galleryItems.keys == st.galleryItems.keys + [item.id]
      && GetAllGalleryItems(st') == GetAllGalleryItems(st) + [item]
      && GetFeaturedGalleryItems(st') == GetFeaturedGalleryItems(st) + (if item.featured then [item] else [])
      && st' == st.(galleryItems := st'.galleryItems, currentGalleryItemId := st.currentGalleryItemId + 1)
      && StoreInv(st')
  {
    var item := NewGalleryItem(st.currentGalleryItemId, g);
    TableInsert(st.galleryItems, st.currentGalleryItemId, item, GalleryItemId);
    FilterSnoc(Values(st.galleryItems), item, IsFeatured);
  }

  /** The featured listing holds exactly the featured items, as a subsequence of all items. */
  lemma GetFeaturedGalleryItemsSpec(st: StoreState)
    requires StoreInv(st)
    ensures var r := GetFeaturedGalleryItems(st);
      && (forall g :: g in r <==> g in st.galleryItems.entries.Values && g.featured)
      && IsSubsequence(r, GetAllGalleryItems(st))
      && KeysIncrease(r, GalleryItemId)
  {
    TableListing(st.galleryItems, st.currentGalleryItemId, GalleryItemId);
    FilterIsSubsequence(Values(st.galleryItems), IsFeatured);
    FilterKeepsIncreasing(Values(st.galleryItems), IsFeatured, GalleryItemId);
  }

  // ---------------------------------------------------------------- every table

  /**
   * A lookup by id finds a record exactly when one is stored under that id, and the
   * record found carries that id, which the counter has already handed out.
   */
  lemma GetByIdSpec(st: StoreState, id: int)
    requires StoreInv(st)
    ensures GetUser(st, id).Some? <==> id >= 0 && id in st.users.entries
    ensures GetUser(st, id).Some? ==> GetUser(st, id).value.id == id && 1 <= id < st.currentUserId
    ensures GetWatchmaker(st, id).Some? <==> id >= 0 && id in st.watchmakers.entries
    ensures GetWatchmaker(st, id).Some? ==> GetWatchmaker(st, id).value.id == id && 1 <= id < st.currentWatchmakerId
    ensures GetService(st, id).Some? <==> id >= 0 && id in st.services.entries
    ensures GetService(st, id).Some? ==> GetService(st, id).value.id == id && 1 <= id < st.currentServiceId
    ensures GetQuote(st, id).Some? <==> id >= 0 && id in st.quotes.entries
    ensures GetQuote(st, id).Some? ==> GetQuote(st, id).value.id == id && 1 <= id < st.currentQuoteId
    ensures GetContact(st, id).Some? <==> id >= 0 && id in st.contacts.entries
    ensures GetContact(st, id).Some? ==> GetContact(st, id).value.id == id && 1 <= id < st.currentContactId
    ensures GetGalleryItem(st, id).Some? <==> id >= 0 && id in st.galleryItems.entries
    ensures GetGalleryItem(st, id).Some? ==> GetGalleryItem(st, id).value.id == id && 1 <= id < st.currentGalleryItemId
  {
  }

  /**
   * The unfiltered listings hold every stored record once, in increasing id order,
   * which is the order of creation.
   */
  lemma ListingsSpec(st: StoreState)
    requires StoreInv(st)
    ensures (forall s :: s in GetAllServices(st) <==> s in st.services.entries.Values)
      && |GetAllServices(st)| == |st.services.keys| && KeysIncrease(GetAllServices(st), ServiceId)
    ensures (forall q :: q in GetAllQuotes(st) <==> q in st.quotes.entries.Values)
      && |GetAllQuotes(st)| == |st.quotes.keys| && KeysIncrease(GetAllQuotes(st), QuoteId)
    ensures (forall c :: c in GetAllContacts(st) <==> c in st.contacts.entries.Values)
      && |GetAllContacts(st)| == |st.contacts.keys| && KeysIncrease(GetAllContacts(st), ContactId)
    ensures (forall g :: g in GetAllGalleryItems(st) <==> g in st.galleryItems.entries.Values)
      && |GetAllGalleryItems(st)| == |st.galleryItems.keys| && KeysIncrease(GetAllGalleryItems(st), GalleryItemId)
  {
    TableListing(st.services, st.currentServiceId, ServiceId);
    TableListing(st.quotes, st.currentQuoteId, QuoteId);
    TableListing(st.contacts, st.currentContactId, ContactId);
    TableListing(st.galleryItems, st.currentGalleryItemId, GalleryItemId);
  }

  // ---------------------------------------------------------------- seed data

  /** The watchmaker that `seedData` creates (storage.ts:81-96). */
  const SeedWatchmakers: seq<InsertWatchmaker> := [
    InsertWatchmaker(
      "OUR WATCH REPAIRER", "EMAIL", "Complicated Movements", 22, Some("225.00"), None, "5.0",
      Some(203), "8 weeks", Some(["CERTS"]), Some("BIO"), Some(""), Some(true))
  ]

  /** The four services that `seedData` creates, one per category (storage.ts:101-134). */
  const SeedServices: seq<InsertService> := [
    InsertService(
      "Complete Movement Service",
      "Full disassembly, cleaning, lubrication, and reassembly of mechanical movements",
      "manual", "DISCUSS", "2-3 weeks", Some("/watch5.jpeg")),
    InsertService(
      "Automatic Watch Calibration",
      "Precision adjustment and regulation of automatic watch movements",
      "automatic", "DISCUSS", "1-2 weeks", Some("/watch4.jpeg")),
    InsertService(
      "Vintage Restoration",
      "Specialized restoration of vintage and antique timepieces",
      "vintage", "DISCUSS", "4-6 weeks", Some("/watch6.jpg")),
    InsertService(
      "Luxury Complication Repair",
      "Expert repair of complex complications including perpetual calendars, minute repeaters",
      "luxury", "DISCUSS", "6-12 weeks", Some("/watch3.jpeg"))
  ]

  /** The three gallery items that `seedData` creates (storage.ts:139-170). */
  const SeedGalleryItems: seq<InsertGalleryItem> := [
    InsertGalleryItem(
      "WATCH REPAIR ONE",
      Some("Complete restoration of a vintage Omega Speedmaster including movement service and case refinishing"),
      "", "", "Corbin Groenewald", "Vintage Restoration", Some("5 weeks"), Some(true)),
    InsertGalleryItem(
      "WATCH REPAIR TWO",
      Some("Precision service of a Rolex Submariner 3135 movement with new crown and crystal"),
      "", "", "Corbin Groenewald", "Automatic Service", Some("6 weeks"), Some(true)),
    InsertGalleryItem(
      "WATCH REPAIR 3",
      Some("Expert repair of annual calendar complication on a Patek Philippe 5396"),
      "", "", "Corbin Groenewald", "", Some("10 weeks"), Some(true))
  ]

  /** The ids `first`, `first + 1`, ..., `first + n - 1`. */
  function IdRange(first: nat, n: nat): seq<nat>
  {
    if n == 0 then [] else IdRange(first, n - 1) + [first + n - 1]
  }

  lemma SnocAssoc<T>(a: seq<T>, b: seq<T>, x: T)
    ensures a + b + [x] == a + (b + [x])
  {
  }

  /** `forEach(data => this.createWatchmaker(data))`, one create after the other. */
  function CreateWatchmakers(st: StoreState, ds: seq<InsertWatchmaker>): StoreState
    decreases |ds|
  {
    if ds == [] then st
    else CreateWatchmaker(CreateWatchmakers(st, ds[..|ds| - 1]), ds[|ds| - 1]).0
  }

  /** The records a batch of creates makes when the counter starts at `first`. */
  function NewWatchmakers(first: nat, ds: seq<InsertWatchmaker>): seq<Watchmaker>
    decreases |ds|
  {
    if ds == [] then [] else NewWatchmakers(first, ds[..|ds| - 1]) + [NewWatchmaker(first + |ds| - 1, ds[|ds| - 1])]
  }

  /** A batch makes one record per input, the `i`-th under id `first + i`. */
  lemma {:induction false} NewWatchmakersAt(first: nat, ds: seq<InsertWatchmaker>)
    ensures |NewWatchmakers(first, ds)| == |ds|
    ensures forall i :: 0 <= i < |ds| ==> NewWatchmakers(first, ds)[i] == NewWatchmaker(first + i, ds[i])
    decreases |ds|
  {
    if ds != [] {
      NewWatchmakersAt(first, ds[..|ds| - 1]);
    }
  }

  /** Creating a batch appends one record per input, with consecutive ids, and touches no other table. */
  lemma {:induction false} CreateWatchmakersSpec(st: StoreState, ds: seq<InsertWatchmaker>)
    requires StoreInv(st)
    ensures StoreInv(CreateWatchmakers(st, ds))
    ensures CreateWatchmakers(st, ds) == st.(watchmakers := CreateWatchmakers(st, ds).watchmakers, currentWatchmakerId := st.currentWatchmakerId + |ds|)
    ensures CreateWatchmakers(st, ds).watchmakers.keys == st.watchmakers.keys + IdRange(st.currentWatchmakerId, |ds|)
    ensures Values(CreateWatchmakers(st, ds).watchmakers) == Values(st.watchmakers) + NewWatchmakers(st.currentWatchmakerId, ds)
    decreases |ds|
  {
    if ds != [] {
      var init, last := ds[..|ds| - 1], ds[|ds| - 1];
      var first := st.currentWatchmakerId;
      var n := first + |init|;
      var r := NewWatchmaker(n, last);
      assert IdRange(first, |ds|) == IdRange(first, |init|) + [n];
      assert NewWatchmakers(first, ds) == NewWatchmakers(first, init) + [r];
      var mid := CreateWatchmakers(st, init);
      CreateWatchmakersSpec(st, init);
      assert mid.currentWatchmakerId == n;
      TableInsert(mid.watchmakers, n, r, WatchmakerId);
      var st' := CreateWatchmakers(st, ds);
      assert st' == mid.(watchmakers := Set(mid.watchmakers, n, r), currentWatchmakerId := n + 1);
      SnocAssoc(st.watchmakers.keys, IdRange(first, |init|), n);
      SnocAssoc(Values(st.watchmakers), NewWatchmakers(first, init), r);
    }
  }

  function CreateServices(st: StoreState, ds: seq<InsertService>): StoreState
    decreases |ds|
  {
    if ds == [] then st
    else CreateService(CreateServices(st, ds[..|ds| - 1]), ds[|ds| - 1]).0
  }

  /** The records a batch of creates makes when the counter starts at `first`. */
  function NewServices(first: nat, ds: seq<InsertService>): seq<Service>
    decreases |ds|
  {
    if ds == [] then [] else NewServices(first, ds[..|ds| - 1]) + [NewService(first + |ds| - 1, ds[|ds| - 1])]
  }

  /** A batch makes one record per input, the `i`-th under id `first + i`. */
  lemma {:induction false} NewServicesAt(first: nat, ds: seq<InsertService>)
    ensures |NewServices(first, ds)| == |ds|
    ensures forall i :: 0 <= i < |ds| ==> NewServices(first, ds)[i] == NewService(first + i, ds[i])
    decreases |ds|
  {
    if ds != [] {
      NewServicesAt(first, ds[..|ds| - 1]);
    }
  }

  lemma {:induction false} CreateServicesSpec(st: StoreState, ds: seq<InsertService>)
    requires StoreInv(st)
    ensures StoreInv(CreateServices(st, ds))
    ensures CreateServices(st, ds) == st.(services := CreateServices(st, ds).services, currentServiceId := st.currentServiceId + |ds|)
    ensures CreateServices(st, ds).services.keys == st.services.keys + IdRange(st.currentServiceId, |ds|)
    ensures Values(CreateServices(st, ds).services) == Values(st.services) + NewServices(st.currentServiceId, ds)
    decreases |ds|
  {
    if ds != [] {
      var init, last := ds[..|ds| - 1], ds[|ds| - 1];
      var first := st.currentServiceId;
      var n := first + |init|;
      var r := NewService(n, last);
      assert IdRange(first, |ds|) == IdRange(first, |init|) + [n];
      assert NewServices(first, ds) == NewServices(first, init) + [r];
      var mid := CreateServices(st, init);
      CreateServicesSpec(st, init);
      assert mid.currentServiceId == n;
      TableInsert(mid.services, n, r, ServiceId);
      var st' := CreateServices(st, ds);
      assert st' == mid.(services := Set(mid.services, n, r), currentServiceId := n + 1);
      SnocAssoc(st.services.keys, IdRange(first, |init|), n);
      SnocAssoc(Values(st.services), NewServices(first, init), r);
    }
  }

  function CreateGalleryItems(st: StoreState, ds: seq<InsertGalleryItem>): StoreState
    decreases |ds|
  {
    if ds == [] then st
    else CreateGalleryItem(CreateGalleryItems(st, ds[..|ds| - 1]), ds[|ds| - 1]).0
  }

  /** The records a batch of creates makes when the counter starts at `first`. */
  function NewGalleryItems(first: nat, ds: seq<InsertGalleryItem>): seq<GalleryItem>
    decreases |ds|
  {
    if ds == [] then [] else NewGalleryItems(first, ds[..|ds| - 1]) + [NewGalleryItem(first + |ds| - 1, ds[|ds| - 1])]
  }

  /** A batch makes one record per input, the `i`-th under id `first + i`. */
  lemma {:induction false} NewGalleryItemsAt(first: nat, ds: seq<InsertGalleryItem>)
    ensures |NewGalleryItems(first, ds)| == |ds|
    ensures forall i :: 0 <= i < |ds| ==> NewGalleryItems(first, ds)[i] == NewGalleryItem(first + i, ds[i])
    decreases |ds|
  {
    if ds != [] {
      NewGalleryItemsAt(first, ds[..|ds| - 1]);
    }
  }

  lemma {:induction false} CreateGalleryItemsSpec(st: StoreState, ds: seq<InsertGalleryItem>)
    requires StoreInv(st)
    ensures StoreInv(CreateGalleryItems(st, ds))
    ensures CreateGalleryItems(st, ds) == st.(galleryItems := CreateGalleryItems(st, ds).galleryItems, currentGalleryItemId := st.currentGalleryItemId + |ds|)
    ensures CreateGalleryItems(st, ds).galleryItems.keys == st.galleryItems.keys + IdRange(st.currentGalleryItemId, |ds|)
    ensures Values(CreateGalleryItems(st, ds).galleryItems) == Values(st.galleryItems) + NewGalleryItems(st.currentGalleryItemId, ds)
    decreases |ds|
  {
    if ds != [] {
      var init, last := ds[..|ds| - 1], ds[|ds| - 1];
      var first := st.currentGalleryItemId;
      var n := first + |init|;
      var r := NewGalleryItem(n, last);
      assert IdRange(first, |ds|) == IdRange(first, |init|) + [n];
      assert NewGalleryItems(first, ds) == NewGalleryItems(first, init) + [r];
      var mid := CreateGalleryItems(st, init);
      CreateGalleryItemsSpec(st, init);
      assert mid.currentGalleryItemId == n;
      TableInsert(mid.galleryItems, n, r, GalleryItemId);
      var st' := CreateGalleryItems(st, ds);
      assert st' == mid.(galleryItems := Set(mid.galleryItems, n, r), currentGalleryItemId := n + 1);
      SnocAssoc(st.galleryItems.keys, IdRange(first, |init|), n);
      SnocAssoc(Values(st.galleryItems), NewGalleryItems(first, init), r);
    }
  }

  /** `seedData`: the watchmakers, then the services, then the gallery items. */
  function SeedData(st: StoreState): StoreState
  {
    CreateGalleryItems(CreateServices(CreateWatchmakers(st, SeedWatchmakers), SeedServices), SeedGalleryItems)
  }

  /** The state `new MemStorage()` leaves behind. */
  function Initial(): StoreState
  {
    SeedData(EmptyStore())
  }

  lemma SeedIds()
    ensures IdRange(1, 1) == [1] && IdRange(1, 3) == [1, 2, 3] && IdRange(1, 4) == [1, 2, 3, 4]
  {
    assert IdRange(1, 2) == [1, 2];
  }

  lemma SeedGalleryItemsFeatured()
    ensures Filter(NewGalleryItems(1, SeedGalleryItems), IsFeatured) == NewGalleryItems(1, SeedGalleryItems)
  {
    NewGalleryItemsAt(1, SeedGalleryItems);
    FilterAll(NewGalleryItems(1, SeedGalleryItems), IsFeatured);
  }

  /** The store after the seed watchmakers. */
  lemma SeededWatchmakers()
    ensures var s1 := CreateWatchmakers(EmptyStore(), SeedWatchmakers);
      && StoreInv(s1)
      && s1 == EmptyStore().(watchmakers := s1.watchmakers, currentWatchmakerId := 2)
      && s1.watchmakers.keys == [1]
      && Values(s1.watchmakers) == NewWatchmakers(1, SeedWatchmakers)
  {
    SeedIds();
    EmptyStoreInv();
    CreateWatchmakersSpec(EmptyStore(), SeedWatchmakers);
  }

  /** The store after the seed watchmakers and services. */
  lemma SeededServices()
    ensures var s2 := CreateServices(CreateWatchmakers(EmptyStore(), SeedWatchmakers), SeedServices);
      && StoreInv(s2)
      && s2 == EmptyStore().(watchmakers := s2.watchmakers, currentWatchmakerId := 2,
                             services := s2.services, currentServiceId := 5)
      && s2.watchmakers.keys == [1] && s2.services.keys == [1, 2, 3, 4]
      && Values(s2.watchmakers) == NewWatchmakers(1, SeedWatchmakers)
      && Values(s2.services) == NewServices(1, SeedServices)
  {
    SeedIds();
    SeededWatchmakers();
    CreateServicesSpec(CreateWatchmakers(EmptyStore(), SeedWatchmakers), SeedServices);
  }

  /** The gallery items complete the seed. */
  lemma SeededGallery(s2: StoreState)
    requires StoreInv(s2) && s2.currentGalleryItemId == 1 && s2.galleryItems == Empty()
    ensures var st := CreateGalleryItems(s2, SeedGalleryItems);
      && StoreInv(st)
      && st == s2.(galleryItems := st.galleryItems, currentGalleryItemId := 4)
      && st.galleryItems.keys == [1, 2, 3]
      && Values(st.galleryItems) == NewGalleryItems(1, SeedGalleryItems)
  {
    SeedIds();
    CreateGalleryItemsSpec(s2, SeedGalleryItems);
  }

  /**
   * After construction: one watchmaker, four services and three gallery items under
   * ids from 1, in seed order; the users, quotes and contacts tables are empty; the
   * seeded counters stand at 2, 5 and 4 and the others still at 1.
   */
  lemma InitialState()
    ensures var st := Initial();
      && StoreInv(st)
      && st == EmptyStore().(watchmakers := st.watchmakers, currentWatchmakerId := 2,
                             services := st.services, currentServiceId := 5,
                             galleryItems := st.galleryItems, currentGalleryItemId := 4)
      && st.watchmakers.keys == [1] && st.services.keys == [1, 2, 3, 4] && st.galleryItems.keys == [1, 2, 3]
      && Values(st.watchmakers) == NewWatchmakers(1, SeedWatchmakers)
      && Values(st.services) == NewServices(1, SeedServices)
      && Values(st.galleryItems) == NewGalleryItems(1, SeedGalleryItems)
  {
    SeededServices();
    var s2 := CreateServices(CreateWatchmakers(EmptyStore(), SeedWatchmakers), SeedServices);
    SeededGallery(s2);
  }

  /**
   * The seeded watchmaker is listed and found under id 1; it is active, and its
   * empty `imageUrl` is stored as null.
   */
  lemma InitialWatchmaker()
    ensures var w := NewWatchmaker(1, SeedWatchmakers[0]);
      && GetAllWatchmakers(Initial()) == [w]
      && GetWatchmaker(Initial(), 1) == Some(w)
      && w.isActive && w.imageUrl == None
  {
    var st := Initial();
    var w := NewWatchmaker(1, SeedWatchmakers[0]);
    InitialState();
    NewWatchmakersAt(1, SeedWatchmakers);
    assert Values(st.watchmakers) == [w];
    ValuesMembers(st.watchmakers);
    FilterSnoc([], w, IsActive);
  }

  /** Every seeded gallery item is featured, so the featured listing is the full listing. */
  lemma InitialGallery()
    ensures |GetAllGalleryItems(Initial())| == 3
    ensures GetFeaturedGalleryItems(Initial()) == GetAllGalleryItems(Initial())
  {
    InitialState();
    NewGalleryItemsAt(1, SeedGalleryItems);
    SeedGalleryItemsFeatured();
  }

  lemma MovementInSeedSpecialization()
    ensures Includes(Lower("Complicated Movements"), Lower("movement"))
  {
    var s, t := Lower("Complicated Movements"), Lower("movement");
    assert t == "movement";
    assert s == "complicated movements";
    assert s[12..20] == t;
    assert OccursAt(s, t, 12);
    IncludesIff(s, t);
  }

  /**
   * Searching the seeded store for "movement" finds the seeded watchmaker, whose
   * specialization is "Complicated Movements"; a matching watchmaker created
   * inactive afterwards is not listed.
   */
  lemma SeedSpecializationSearch(x: InsertWatchmaker)
    requires x.specialization == "Complicated Movements" && x.isActive == Some(false)
    ensures var w := NewWatchmaker(1, SeedWatchmakers[0]);
      && GetWatchmakersBySpecialization(Initial(), "movement") == [w]
      && GetWatchmakersBySpecialization(CreateWatchmaker(Initial(), x).0, "movement") == [w]
  {
    var w := NewWatchmaker(1, SeedWatchmakers[0]);
    InitialState();
    NewWatchmakersAt(1, SeedWatchmakers);
    assert Values(Initial().watchmakers) == [w];
    MovementInSeedSpecialization();
    FilterSnoc([], w, SpecializationMatches("movement"));
    CreateWatchmakerSpec(Initial(), x);
    FilterSnoc([w], NewWatchmaker(2, x), SpecializationMatches("movement"));
  }

  function Keep<T>(x: T, p: T -> bool): seq<T>
  {
    if p(x) then [x] else []
  }

  lemma FilterFour<T>(a: T, b: T, c: T, d: T, p: T -> bool)
    ensures Filter([a, b, c, d], p) == Keep(a, p) + Keep(b, p) + Keep(c, p) + Keep(d, p)
  {
    FilterSnoc([], a, p);
    FilterSnoc([a], b, p);
    assert [a] + [b] == [a, b];
    FilterSnoc([a, b], c, p);
    assert [a, b] + [c] == [a, b, c];
    FilterSnoc([a, b, c], d, p);
    assert [a, b, c] + [d] == [a, b, c, d];
  }

  /** Each of the four categories lists exactly its one seeded service. */
  lemma SeedCategory(category: string, k: nat)
    requires k < 4 && category == SeedServices[k].category
    ensures Filter(NewServices(1, SeedServices), InCategory(category)) == [NewService(1 + k, SeedServices[k])]
  {
    var ss := NewServices(1, SeedServices);
    NewServicesAt(1, SeedServices);
    assert ss == [ss[0], ss[1], ss[2], ss[3]];
    FilterFour(ss[0], ss[1], ss[2], ss[3], InCategory(category));
  }

  /** In the seeded store, each seeded category lists exactly its one service. */
  lemma SeedServicesByCategory()
    ensures forall k :: 0 <= k < 4 ==>
      GetServicesByCategory(Initial(), SeedServices[k].category) == [NewService(1 + k, SeedServices[k])]
  {
    InitialState();
    forall k | 0 <= k < 4
      ensures GetServicesByCategory(Initial(), SeedServices[k].category) == [NewService(1 + k, SeedServices[k])]
    {
      SeedCategory(SeedServices[k].category, k);
    }
  }
}
