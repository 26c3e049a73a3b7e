/**
 * The six record kinds and their insert shapes, as declared in shared/schema.ts.
 * A `notNull` column is a plain field; a nullable column is an `Option`.
 * An insert shape leaves out the serial `id`; a column that is nullable or has a
 * default becomes optional in it (`None` stands for both `undefined` and `null`).
 * Decimal columns are carried as their string form, as the database driver returns them.
 */
module Schema {
  import opened Js

  /** The value of `new Date()`, in milliseconds; supplied by the caller. */
  type Timestamp = nat

  datatype User = User(id: nat, username: string, password: string)

  datatype InsertUser = InsertUser(username: string, password: string)

  datatype Watchmaker = Watchmaker(
    id: nat,
    name: string,
    email: string,
    specialization: string,
    experience: int,
    hourlyRate: Option<string>,
    fixedRate: Option<string>,
    rating: string,
    reviewCount: int,
    availability: string,
    certifications: Option<seq<string>>,
    bio: Option<string>,
    imageUrl: Option<string>,
    isActive: bool)

  datatype InsertWatchmaker = InsertWatchmaker(
    name: string,
    email: string,
    specialization: string,
    experience: int,
    hourlyRate: Option<string>,
    fixedRate: Option<string>,
    rating: string,
    reviewCount: Option<int>,
    availability: string,
    certifications: Option<seq<string>>,
    bio: Option<string>,
    imageUrl: Option<string>,
    isActive: Option<bool>)

  /** `category` is a free-form string ("manual", "automatic", "vintage", "luxury" by convention). */
  datatype Service = Service(
    id: nat,
    name: string,
    description: string,
    category: string,
    basePrice: string,
    estimatedDuration: string,
    imageUrl: Option<string>)

  datatype InsertService = InsertService(
    name: string,
    description: string,
    category: string,
    basePrice: string,
    estimatedDuration: string,
    imageUrl: Option<string>)

  /** `status` is a free-form string; the store starts it at "pending". */
  datatype Quote = Quote(
    id: nat,
    name: string,
    email: string,
    phone: Option<string>,
    watchBrand: string,
    watchModel: Option<string>,
    watchType: string,
    issueDescription: string,
    preferredService: Option<string>,
    urgency: string,
    budget: Option<string>,
    createdAt: Timestamp,
    status: string)

  /** The quote insert shape also leaves out `createdAt` and `status` (shared/schema.ts:90-94). */
  datatype InsertQuote = InsertQuote(
    name: string,
    email: string,
    phone: Option<string>,
    watchBrand: string,
    watchModel: Option<string>,
    watchType: string,
    issueDescription: string,
    preferredService: Option<string>,
    urgency: string,
    budget: Option<string>)

  /** `status` is a free-form string; the store starts it at "unread". */
  datatype Contact = Contact(
    id: nat,
    name: string,
    email: string,
    subject: string,
    message: string,
    createdAt: Timestamp,
    status: string)

  /** The contact insert shape also leaves out `createdAt` and `status` (shared/schema.ts:96-100). */
  datatype InsertContact = InsertContact(
    name: string,
    email: string,
    subject: string,
    message: string)

  datatype GalleryItem = GalleryItem(
    id: nat,
    title: string,
    description: Option<string>,
    beforeImageUrl: string,
    afterImageUrl: string,
    watchmakerName: string,
    serviceType: string,
    completionTime: Option<string>,
    featured: bool)

  datatype InsertGalleryItem = InsertGalleryItem(
    title: string,
    description: Option<string>,
    beforeImageUrl: string,
    afterImageUrl: string,
    watchmakerName: string,
    serviceType: string,
    completionTime: Option<string>,
    featured: Option<bool>)
}
