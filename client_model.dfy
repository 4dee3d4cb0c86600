/** The Client record. Its schema declares `customPricing` a Boolean flag,
    while quote creation reads it as a map from service identity to a price
    override; both shapes are represented so that either reading can be
    followed. */
module ClientModel {
  import opened Common
  import Text

  /** A per-service override, as quote creation reads it (`.basePrice`). */
  datatype CustomPrice = CustomPrice(basePrice: real)

  /** `Flag` is what the schema stores; `PriceMap` is what quote creation
      expects to find. */
  datatype CustomPricing = Flag(enabled: bool) | PriceMap(prices: map<Id, CustomPrice>)

  datatype Client = Client(
    id: Id,
    name: string,
    email: string,
    customPricing: CustomPricing,
    phone: Option<string>,
    address: Option<string>,
    active: bool,
    notes: Option<string>)

  /** A non-empty trimmed name and a non-empty e-mail in its stored
      (trimmed, lower-case) form. */
  predicate ValidContact(c: Client)
  {
    && c.name != [] && Text.IsTrimmed(c.name)
    && c.email != [] && Text.NormaliseEmail(c.email) == c.email
  }

  /** What the schema demands of a stored client: valid contact fields and
      a Boolean `customPricing`. */
  predicate ValidClient(c: Client)
  {
    ValidContact(c) && c.customPricing.Flag?
  }

  function TrimOpt(s: Option<string>): (r: Option<string>)
    ensures r.Some? <==> s.Some?
    ensures r.Some? ==> r.value == Text.Trim(s.value) && Text.IsTrimmed(r.value)
  {
    if s.Some? then Some(Text.Trim(s.value)) else None
  }

  /** A client as the schema builds it: strings trimmed, the e-mail also
      lower-cased, `customPricing` false and `active` true unless given. */
  function NewClient(id: Id, name: string, email: string, customPricing: Option<bool>,
                     phone: Option<string>, address: Option<string>, active: Option<bool>,
                     notes: Option<string>): (c: Client)
    ensures c.id == id && c.name == Text.Trim(name) && Text.IsTrimmed(c.name)
    ensures c.email == Text.NormaliseEmail(email)
    ensures c.customPricing == Flag(customPricing == Some(true))
    ensures c.active <==> active != Some(false)
    ensures c.phone.Some? <==> phone.Some?
    ensures phone.Some? ==> c.phone.value == Text.Trim(phone.value)
    ensures c.address.Some? <==> address.Some?
    ensures address.Some? ==> c.address.value == Text.Trim(address.value)
    ensures c.notes.Some? <==> notes.Some?
    ensures notes.Some? ==> c.notes.value == Text.Trim(notes.value)
    ensures Text.Trim(name) != [] && Text.Trim(email) != [] ==> ValidClient(c)
  {
    Text.NormaliseEmailIdempotent(email);
    Client(id, Text.Trim(name), Text.NormaliseEmail(email),
           Flag(if customPricing.Some? then customPricing.value else false),
           TrimOpt(phone), TrimOpt(address),
           if active.Some? then active.value else true,
           TrimOpt(notes))
  }
}
