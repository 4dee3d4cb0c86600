/** The request-body schemas, as predicates over already-typed bodies.
    Each states the length, range, enum and non-empty-list constraints of
    its schema; whether a string is an e-mail address is the caller's
    predicate `isEmail`. Lengths count characters. */
module ValidationSchemas {
  import opened Common
  import UserModel

  datatype RegisterBody = RegisterBody(email: string, password: string, name: string, role: Option<string>)

  /** userRegisterSchema. */
  predicate RegisterSchema(b: RegisterBody, isEmail: string -> bool)
  {
    && isEmail(b.email)
    && |b.password| >= 6
    && |b.name| >= 2
    && (b.role.Some? ==> UserModel.ParseRole(b.role.value).Some?)
  }

  datatype LoginBody = LoginBody(email: string, password: string)

  /** userLoginSchema. */
  predicate LoginSchema(b: LoginBody, isEmail: string -> bool)
  {
    isEmail(b.email) && |b.password| >= 1
  }

  datatype CategoryBody = CategoryBody(name: string, description: string)

  /** categorySchema. */
  predicate CategorySchema(b: CategoryBody)
  {
    |b.name| >= 2 && |b.description| >= 10
  }

  datatype ClientBody = ClientBody(
    name: string, email: string, phone: Option<string>, address: Option<string>,
    notes: Option<string>, customPricing: Option<bool>)

  /** clientSchema; the optional fields carry no further constraint. */
  predicate ClientSchema(b: ClientBody, isEmail: string -> bool)
  {
    |b.name| >= 2 && isEmail(b.email)
  }

  datatype SheetEntryBody = SheetEntryBody(id: string, price: real)

  datatype PriceSheetBody = PriceSheetBody(name: string, description: string, services: seq<SheetEntryBody>)

  /** priceSheetSchema. */
  predicate PriceSheetSchema(b: PriceSheetBody)
  {
    && |b.name| >= 2
    && |b.description| >= 10
    && |b.services| >= 1
    && forall i :: 0 <= i < |b.services| ==> |b.services[i].id| >= 1 && b.services[i].price >= 0.0
  }

  datatype MaterialBody = MaterialBody(name: string, cost: real)

  datatype ServiceBody = ServiceBody(
    name: string, category: string, location: string, basePrice: real,
    description: string, duration: Option<real>, materials: Option<seq<MaterialBody>>)

  /** serviceSchema. */
  predicate ServiceSchema(b: ServiceBody)
  {
    && |b.name| >= 2
    && |b.category| >= 1
    && |b.location| >= 1
    && b.basePrice >= 0.0
    && |b.description| >= 10
    && (b.duration.Some? ==> b.duration.value >= 0.0)
    && (b.materials.Some? ==> forall i :: 0 <= i < |b.materials.value| ==> b.materials.value[i].cost >= 0.0)
  }

  /** One requested line of a quote; `quantity` need not be whole. */
  datatype LineBody = LineBody(service: string, quantity: real, discount: Option<real>)

  datatype QuoteBody = QuoteBody(customerId: string, services: seq<LineBody>, notes: Option<string>)

  predicate LineSchema(l: LineBody)
  {
    && |l.service| >= 1
    && l.quantity >= 1.0
    && (l.discount.Some? ==> 0.0 <= l.discount.value <= 100.0)
  }

  /** quoteSchema. */
  predicate QuoteSchema(b: QuoteBody)
  {
    && |b.customerId| >= 1
    && |b.services| >= 1
    && forall i :: 0 <= i < |b.services| ==> LineSchema(b.services[i])
  }

  datatype EmailProcessBody = EmailProcessBody(subject: string, sender: string, originalHtml: string)

  /** emailQuoteProcessSchema. */
  predicate EmailProcessSchema(b: EmailProcessBody, isEmail: string -> bool)
  {
    |b.subject| >= 1 && isEmail(b.sender) && |b.originalHtml| >= 1
  }

  /** `discount || 0`: an absent discount, like a discount of 0, becomes 0. */
  function DiscountOrZero(l: LineBody): (d: real)
    ensures l.discount.None? ==> d == 0.0
    ensures l.discount.Some? ==> d == l.discount.value
    ensures LineSchema(l) ==> 0.0 <= d <= 100.0
  {
    if l.discount.Some? && l.discount.value != 0.0 then l.discount.value else 0.0
  }
}
