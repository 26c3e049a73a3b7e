/**
 * The `MemStorage` class of server/storage.ts: six insertion-ordered maps and six
 * id counters, updated in place by the constructor, `seedData`, every `create*`
 * and the two status updates. Each method is proved to leave the fields in the
 * state the matching function of module Store computes from the old state, and to
 * keep the store invariant. The reads are expressions over the maps and are the
 * functions of module Store applied to `State()`.
 */
module Storage {
  import opened Js
  import opened JsMap
  import opened Schema
  import Store

  class MemStorage {
    var users: OrderedMap<User>
    var watchmakers: OrderedMap<Watchmaker>
    var services: OrderedMap<Service>
    var quotes: OrderedMap<Quote>
    var contacts: OrderedMap<Contact>
    var galleryItems: OrderedMap<GalleryItem>
    var currentUserId: nat
    var currentWatchmakerId: nat
    var currentServiceId: nat
    var currentQuoteId: nat
    var currentContactId: nat
    var currentGalleryItemId: nat

    /** The fields as one value. */
    function State(): Store.StoreState
      reads this
    {
      Store.StoreState(
        users, watchmakers, services, quotes, contacts, galleryItems,
        currentUserId, currentWatchmakerId, currentServiceId,
        currentQuoteId, currentContactId, currentGalleryItemId)
    }

    /** Ids are issued by the counters, each record is stored under its id, keys ascend. */
    ghost predicate Valid()
      reads this
    {
      Store.StoreInv(State())
    }

    /** Empty maps, every counter at 1, then the seed data. */
    constructor()
      ensures Valid()
      ensures State() == Store.Initial()
    {
      users := Empty();
      watchmakers := Empty();
      services := Empty();
      quotes := Empty();
      contacts := Empty();
      galleryItems := Empty();
      currentUserId := 1;
      currentWatchmakerId := 1;
      currentServiceId := 1;
      currentQuoteId := 1;
      currentContactId := 1;
      currentGalleryItemId := 1;
      new;
      Store.EmptyStoreInv();
      SeedData();
    }

    /** Creates the seed watchmakers, then the seed services, then the seed gallery items. */
    method SeedData()
      requires Valid()
      modifies this
      ensures Valid()
      ensures State() == Store.SeedData(old(State()))
    {
      CreateWatchmakers(Store.SeedWatchmakers);
      CreateServices(Store.SeedServices);
      CreateGalleryItems(Store.SeedGalleryItems);
    }

    /** `data.forEach(d => this.createWatchmaker(d))` */
    method CreateWatchmakers(data: seq<InsertWatchmaker>)
      requires Valid()
      modifies this
      ensures Valid()
      ensures State() == Store.CreateWatchmakers(old(State()), data)
    {
      ghost var s0 := State();
      for i := 0 to |data|
        invariant Valid()
        invariant State() == Store.CreateWatchmakers(s0, data[..i])
      {
        var _ := CreateWatchmaker(data[i]);
        assert data[..i + 1][..i] == data[..i];
      }
      assert data[..|data|] == data;
    }

    /** `data.forEach(d => this.createService(d))` */
    method CreateServices(data: seq<InsertService>)
      requires Valid()
      modifies this
      ensures Valid()
      ensures State() == Store.CreateServices(old(State()), data)
    {
      ghost var s0 := State();
      for i := 0 to |data|
        invariant Valid()
        invariant State() == Store.CreateServices(s0, data[..i])
      {
        var _ := CreateService(data[i]);
        assert data[..i + 1][..i] == data[..i];
      }
      assert data[..|data|] == data;
    }

    /** `data.forEach(d => this.createGalleryItem(d))` */
    method CreateGalleryItems(data: seq<InsertGalleryItem>)
      requires Valid()
      modifies this
      ensures Valid()
      ensures State() == Store.CreateGalleryItems(old(State()), data)
    {
      ghost var s0 := State();
      for i := 0 to |data|
        invariant Valid()
        invariant State() == Store.CreateGalleryItems(s0, data[..i])
      {
        var _ := CreateGalleryItem(data[i]);
        assert data[..i + 1][..i] == data[..i];
      }
      assert data[..|data|] == data;
    }

    method CreateUser(insertUser: InsertUser) returns (user: User)
      requires Valid()
      modifies this
      ensures Valid()
      ensures (State(), user) == Store.CreateUser(old(State()), insertUser)
    {
      Store.CreateUserSpec(State(), insertUser);
      var id := currentUserId;
      currentUserId := currentUserId + 1;
      user := Store.NewUser(id, insertUser);
      users := Set(users, id, user);
    }

    method CreateWatchmaker(insertWatchmaker: InsertWatchmaker) returns (watchmaker: Watchmaker)
      requires Valid()
      modifies this
      ensures Valid()
      ensures (State(), watchmaker) == Store.CreateWatchmaker(old(State()), insertWatchmaker)
    {
      Store.CreateWatchmakerSpec(State(), insertWatchmaker);
      var id := currentWatchmakerId;
      currentWatchmakerId := currentWatchmakerId + 1;
      watchmaker := Store.NewWatchmaker(id, insertWatchmaker);
      watchmakers := Set(watchmakers, id, watchmaker);
    }

    method CreateService(insertService: InsertService) returns (service: Service)
      requires Valid()
      modifies this
      ensures Valid()
      ensures (State(), service) == Store.CreateService(old(State()), insertService)
    {
      Store.CreateServiceSpec(State(), insertService);
      var id := currentServiceId;
      currentServiceId := currentServiceId + 1;
      service := Store.NewService(id, insertService);
      services := Set(services, id, service);
    }

    /** `now` is the value of `new Date()` at the call. */
    method CreateQuote(insertQuote: InsertQuote, now: Timestamp) returns (quote: Quote)
      requires Valid()
      modifies this
      ensures Valid()
      ensures (State(), quote) == Store.CreateQuote(old(State()), insertQuote, now)
    {
      Store.CreateQuoteSpec(State(), insertQuote, now);
      var id := currentQuoteId;
      currentQuoteId := currentQuoteId + 1;
      quote := Store.NewQuote(id, insertQuote, now);
      quotes := Set(quotes, id, quote);
    }

    /** Sets the status of the stored quote, if there is one under `id`, and returns it. */
    method UpdateQuoteStatus(id: int, status: string) returns (quote: Option<Quote>)
      requires Valid()
      modifies this
      ensures Valid()
      ensures (State(), quote) == Store.UpdateQuoteStatus(old(State()), id, status)
    {
      Store.UpdateQuoteStatusSpec(State(), id, status);
      quote := Get(quotes, id);
      if quote.Some? {
        quote := Some(quote.value.(status := status));
        quotes := Set(quotes, id, quote.value);
      }
    }

    /** `now` is the value of `new Date()` at the call. */
    method CreateContact(insertContact: InsertContact, now: Timestamp) returns (contact: Contact)
      requires Valid()
      modifies this
      ensures Valid()
      ensures (State(), contact) == Store.CreateContact(old(State()), insertContact, now)
    {
      Store.CreateContactSpec(State(), insertContact, now);
      var id := currentContactId;
      currentContactId := currentContactId + 1;
      contact := Store.NewContact(id, insertContact, now);
      contacts := Set(contacts, id, contact);
    }

    /** Sets the status of the stored contact, if there is one under `id`, and returns it. */
    method UpdateContactStatus(id: int, status: string) returns (contact: Option<Contact>)
      requires Valid()
      modifies this
      ensures Valid()
      ensures (State(), contact) == Store.UpdateContactStatus(old(State()), id, status)
    {
      Store.UpdateContactStatusSpec(State(), id, status);
      contact := Get(contacts, id);
      if contact.Some? {
        contact := Some(contact.value.(status := status));
        contacts := Set(contacts, id, contact.value);
      }
    }

    method CreateGalleryItem(insertGalleryItem: InsertGalleryItem) returns (galleryItem: GalleryItem)
      requires Valid()
      modifies this
      ensures Valid()
      ensures (State(), galleryItem) == Store.CreateGalleryItem(old(State()), insertGalleryItem)
    {
      Store.CreateGalleryItemSpec(State(), insertGalleryItem);
      var id := currentGalleryItemId;
      currentGalleryItemId := currentGalleryItemId + 1;
      galleryItem := Store.NewGalleryItem(id, insertGalleryItem);
      galleryItems := Set(galleryItems, id, galleryItem);
    }
  }
}
