/** Quote creation and status update: client check, per-line price
    selection (price tier, client override, base price), line assembly, the
    30-day validity and the status allow-list. The stores it reads are a
    snapshot passed in; the quote collection is a class it updates. */
module QuoteController {
  import opened Common
  import opened PriceTierModel
  import opened QuoteModel
  import opened ClientModel
  import opened ServiceModel
  import opened ValidationSchemas
  import Text

  /** 30 * 24 * 60 * 60 * 1000 milliseconds. */
  const ThirtyDaysMs: int := 2592000000

  /** The collections quote creation reads, in store order. */
  datatype Snapshot = Snapshot(clients: seq<Client>, services: seq<Service>, tiers: seq<PriceTier>)

  /** `Client.findById`. */
  function FindClient(clients: seq<Client>, id: Id): (r: Option<Client>)
    ensures r.None? <==> forall i :: 0 <= i < |clients| ==> clients[i].id != id
    ensures r.Some? ==> r.value in clients && r.value.id == id
  {
    Find(clients, (c: Client) => c.id == id)
  }

  /** `Service.findById`. */
  function FindService(services: seq<Service>, id: Id): (r: Option<Service>)
    ensures r.None? <==> forall i :: 0 <= i < |services| ==> services[i].id != id
    ensures r.Some? ==> r.value in services && r.value.id == id
  {
    Find(services, (s: Service) => s.id == id)
  }

  /** The filter of the tier query: this service, `isActive` true, and
      `activeTo` unset or strictly later than now. `activeFrom` plays no part. */
  predicate Qualifies(t: PriceTier, service: Id, now: Millis)
  {
    t.service == service && t.isActive && (t.activeTo.None? || t.activeTo.value > now)
  }

  function TierQuery(service: Id, now: Millis): PriceTier -> bool
  {
    (t: PriceTier) => Qualifies(t, service, now)
  }

  /** `PriceTier.findOne(...)`: the first qualifying tier in store order. */
  function ActiveTier(tiers: seq<PriceTier>, service: Id, now: Millis): (r: Option<PriceTier>)
    ensures r.None? <==> forall i :: 0 <= i < |tiers| ==> !Qualifies(tiers[i], service, now)
    ensures r.Some? ==> exists k :: 0 <= k < |tiers| && tiers[k] == r.value
                                    && Qualifies(tiers[k], service, now)
                                    && forall i :: 0 <= i < k ==> !Qualifies(tiers[i], service, now)
  {
    var k := FirstIndex(tiers, TierQuery(service, now));
    if k == -1 then None else Some(tiers[k])
  }

  /** Moving any tier's `activeFrom`, even into the future, changes neither
      whether a tier is selected nor which one. */
  lemma ActiveTierIgnoresActiveFrom(tiers: seq<PriceTier>, i: nat, from: Millis, service: Id, now: Millis)
    requires i < |tiers|
    ensures var moved := ActiveTier(tiers[i := tiers[i].(activeFrom := from)], service, now);
            var orig := ActiveTier(tiers, service, now);
            moved.Some? == orig.Some?
            && (moved.Some? ==> moved.value.(activeFrom := 0) == orig.value.(activeFrom := 0))
  {
    var t' := tiers[i := tiers[i].(activeFrom := from)];
    FirstIndexPointwise(t', tiers, TierQuery(service, now), TierQuery(service, now));
  }

  /** The overrides the client holds when `customPricing` is a map; none
      otherwise. */
  function Overrides(c: Client): map<Id, CustomPrice>
  {
    if c.customPricing.PriceMap? then c.customPricing.prices else map[]
  }

  /** The unit price, reading `customPricing` as the map of overrides it is
      meant to be. With a qualifying tier: the price of the first band that
      contains the quantity, or else the base price; the override is never
      consulted in that case. Without a tier: the override for this
      service when there is one, or else the base price. */
  function PriceWithOverrides(service: Service, tier: Option<PriceTier>,
                              overrides: map<Id, CustomPrice>, quantity: real): (p: real)
    ensures tier.Some? ==>
      p == (var band := FindPriceForPax(tier.value.priceRanges, quantity);
            if band.Some? then band.value else service.basePrice)
    ensures tier.None? ==>
      p == (if service.id in overrides then overrides[service.id].basePrice else service.basePrice)
  {
    var price := service.basePrice;
    if tier.Some? then
      var band := FindPriceForPax(tier.value.priceRanges, quantity);
      if band.Some? then band.value else price
    else if service.id in overrides then overrides[service.id].basePrice
    else price
  }

  /** With a qualifying tier the overrides do not matter at all. */
  lemma TierIgnoresOverrides(service: Service, tier: PriceTier, m1: map<Id, CustomPrice>,
                             m2: map<Id, CustomPrice>, quantity: real)
    ensures PriceWithOverrides(service, Some(tier), m1, quantity)
         == PriceWithOverrides(service, Some(tier), m2, quantity)
  {
  }

  /** Without a tier or override the base price applies; without a tier an
      override wins over the base price; a covering band wins over both. */
  lemma PricePrecedence(service: Service, tier: PriceTier, overrides: map<Id, CustomPrice>, quantity: real)
    ensures PriceWithOverrides(service, None, map[], quantity) == service.basePrice
    ensures service.id in overrides ==>
              PriceWithOverrides(service, None, overrides, quantity) == overrides[service.id].basePrice
    ensures (exists i :: 0 <= i < |tier.priceRanges| && Covers(tier.priceRanges[i], quantity)) ==>
              PriceWithOverrides(service, Some(tier), overrides, quantity)
              == FindPriceForPax(tier.priceRanges, quantity).value
  {
  }

  /** Every price source is at least 0 when the records are, so the unit
      price meets the line's `min: 0`. */
  lemma PriceNonNegative(service: Service, tier: Option<PriceTier>, overrides: map<Id, CustomPrice>, quantity: real)
    requires ValidService(service)
    requires tier.Some? ==> ValidTier(tier.value)
    requires forall k :: k in overrides ==> overrides[k].basePrice >= 0.0
    ensures PriceWithOverrides(service, tier, overrides, quantity) >= 0.0
  {
  }

  /** The branch at lines 48-58 as written: `client.customPricing.has(...)`
      is only evaluated when no tier qualifies, and on the schema's Boolean
      it is not a function, so that branch throws (None). */
  function UnitPrice(service: Service, tier: Option<PriceTier>, client: Client, quantity: real): (r: Option<real>)
    ensures r.None? <==> tier.None? && client.customPricing.Flag?
    ensures r.Some? ==> r.value == PriceWithOverrides(service, tier, Overrides(client), quantity)
  {
    if tier.None? && client.customPricing.Flag? then None
    else Some(PriceWithOverrides(service, tier, Overrides(client), quantity))
  }

  /** The outcome of one pass of the loop body. */
  datatype LineResult = Priced(line: QuoteLine) | MissingService(id: Id) | PricingThrew

  /** One requested line: look the service up, select the tier, pick the
      price, and build `{service, quantity, price, discount || 0}`. */
  function PriceLine(snap: Snapshot, client: Client, req: LineBody, now: Millis): (r: LineResult)
    ensures r.MissingService? <==> FindService(snap.services, req.service).None?
    ensures r.MissingService? ==> r.id == req.service
    ensures r.PricingThrew? <==>
              && FindService(snap.services, req.service).Some?
              && UnitPrice(FindService(snap.services, req.service).value,
                           ActiveTier(snap.tiers, req.service, now), client, req.quantity).None?
    ensures r.Priced? ==>
      && r.line.service == req.service
      && r.line.quantity == req.quantity
      && r.line.discount == DiscountOrZero(req)
      && FindService(snap.services, req.service).Some?
      && Some(r.line.price) == UnitPrice(FindService(snap.services, req.service).value,
                                         ActiveTier(snap.tiers, req.service, now), client, req.quantity)
  {
    match FindService(snap.services, req.service)
    case None => MissingService(req.service)
    case Some(service) =>
      match UnitPrice(service, ActiveTier(snap.tiers, service.id, now), client, req.quantity)
      case None => PricingThrew
      case Some(price) => Priced(QuoteLine(service.id, req.quantity, price, DiscountOrZero(req)))
  }

  /** Without a qualifying tier, a client stored as its schema says (a
      Boolean `customPricing`) makes the line throw. */
  lemma BooleanCustomPricingThrows(snap: Snapshot, client: Client, req: LineBody, now: Millis)
    requires ValidClient(client)
    requires FindService(snap.services, req.service).Some?
    requires ActiveTier(snap.tiers, req.service, now).None?
    ensures PriceLine(snap, client, req, now) == PricingThrew
  {
  }

  /** A validated line priced from valid records is a valid quote line. */
  lemma PricedLineValid(snap: Snapshot, client: Client, req: LineBody, now: Millis)
    requires LineSchema(req)
    requires forall i :: 0 <= i < |snap.services| ==> ValidService(snap.services[i])
    requires forall i :: 0 <= i < |snap.tiers| ==> ValidTier(snap.tiers[i])
    requires forall k :: k in Overrides(client) ==> Overrides(client)[k].basePrice >= 0.0
    ensures PriceLine(snap, client, req, now).Priced? ==> ValidLine(PriceLine(snap, client, req, now).line)
  {
    var r := PriceLine(snap, client, req, now);
    if r.Priced? {
      var service := FindService(snap.services, req.service).value;
      var tier := ActiveTier(snap.tiers, req.service, now);
      PriceNonNegative(service, tier, Overrides(client), req.quantity);
    }
  }

  /** How the request as a whole ends. */
  datatype LinesResult = Lines(lines: seq<QuoteLine>) | ServiceNotFound(id: Id) | PricingFailed

  /** `r` is how the loop reports the failure of line result `lr`. */
  predicate ReportsFailure(lr: LineResult, r: LinesResult)
  {
    || (lr.MissingService? && r == ServiceNotFound(lr.id))
    || (lr.PricingThrew? && r == PricingFailed)
  }

  /** `lines` holds, in order, the priced line of every requested line. */
  predicate PricedAs(snap: Snapshot, client: Client, reqs: seq<LineBody>, lines: seq<QuoteLine>, now: Millis)
  {
    |lines| == |reqs| && forall i :: 0 <= i < |reqs| ==> PriceLine(snap, client, reqs[i], now) == Priced(lines[i])
  }

  /** Requested line `k` is the first one that cannot be priced. */
  predicate FirstFailing(snap: Snapshot, client: Client, reqs: seq<LineBody>, now: Millis, k: int)
  {
    && 0 <= k < |reqs|
    && !PriceLine(snap, client, reqs[k], now).Priced?
    && forall j :: 0 <= j < k ==> PriceLine(snap, client, reqs[j], now).Priced?
  }

  /** The loop of `createQuote` over the requested lines, in order: the first
      line whose service is unknown (or whose pricing throws) ends it, and
      otherwise there is exactly one priced line per requested line. */
  method PriceLines(snap: Snapshot, client: Client, reqs: seq<LineBody>, now: Millis) returns (r: LinesResult)
    ensures r.Lines? <==> forall i :: 0 <= i < |reqs| ==> PriceLine(snap, client, reqs[i], now).Priced?
    ensures r.Lines? ==> PricedAs(snap, client, reqs, r.lines, now)
    ensures !r.Lines? ==>
      exists k :: FirstFailing(snap, client, reqs, now, k) && ReportsFailure(PriceLine(snap, client, reqs[k], now), r)
  {
    var quoteServices: seq<QuoteLine> := [];
    var i := 0;
    while i < |reqs|
      invariant 0 <= i <= |reqs|
      invariant |quoteServices| == i
      invariant forall j :: 0 <= j < i ==> PriceLine(snap, client, reqs[j], now) == Priced(quoteServices[j])
    {
      var serviceData := reqs[i];
      var service := FindService(snap.services, serviceData.service);
      if service.None? {
        assert FirstFailing(snap, client, reqs, now, i);
        return ServiceNotFound(serviceData.service);
      }
      var priceTier := ActiveTier(snap.tiers, service.value.id, now);
      var price := UnitPrice(service.value, priceTier, client, serviceData.quantity);
      if price.None? {
        assert FirstFailing(snap, client, reqs, now, i);
        return PricingFailed;
      }
      var line := QuoteLine(service.value.id, serviceData.quantity, price.value, DiscountOrZero(serviceData));
      assert PriceLine(snap, client, serviceData, now) == Priced(line);
      quoteServices := quoteServices + [line];
      i := i + 1;
    }
    return Lines(quoteServices);
  }

  /** The quote `createQuote` builds and saves, hook applied: customer
      reference, the priced lines, `validUntil` 30 days after now, the
      request's notes; status and total come from the schema and its hook.
      Customer name and e-mail are never set. */
  function AssembleQuote(id: Id, client: Client, lines: seq<QuoteLine>, notes: Option<string>,
                         now: Millis): (q: Quote)
    ensures q.id == id && q.customerId == Some(client.id) && q.services == lines
    ensures q.validUntil == now + ThirtyDaysMs && q.status == Pending
    ensures q.notes.Some? <==> notes.Some?
    ensures notes.Some? ==> q.notes.value == Text.Trim(notes.value)
    ensures q.customerName.None? && q.customerEmail.None?
    ensures |lines| > 0 ==> q.total == Some(DiscountedSum(lines))
  {
    QuoteModel.PreSave(NewQuote(id, Some(client.id), None, None, lines, now + ThirtyDaysMs, notes))
  }

  /** Whatever the lines, the quote as assembled breaks the schema it is
      saved under: `customerName` and `customerEmail` are required. */
  lemma AssembledQuoteLacksCustomer(id: Id, client: Client, lines: seq<QuoteLine>,
                                    notes: Option<string>, now: Millis)
    ensures !ValidQuote(AssembleQuote(id, client, lines, notes, now))
  {
  }

  /** The assembly with the customer's name and e-mail copied from the client
      record, as the schema's required fields call for. */
  function AssembleQuoteForCustomer(id: Id, client: Client, lines: seq<QuoteLine>,
                                    notes: Option<string>, now: Millis): (q: Quote)
    ensures q == AssembleQuote(id, client, lines, notes, now)
                   .(customerName := q.customerName, customerEmail := q.customerEmail)
    ensures ValidContact(client) && |lines| > 0 && (forall i :: 0 <= i < |lines| ==> ValidLine(lines[i]))
            ==> ValidQuote(q)
  {
    var built := NewQuote(id, Some(client.id), Some(client.name), Some(client.email), lines,
                          now + ThirtyDaysMs, notes);
    CustomerFieldsOnly(id, client, lines, notes, now);
    CustomerQuoteValid(client, built);
    QuoteModel.PreSave(built)
  }

  /** The quote built with the customer fields differs from the one built
      without them in those two fields only, before and after the hook. */
  lemma CustomerFieldsOnly(id: Id, client: Client, lines: seq<QuoteLine>, notes: Option<string>, now: Millis)
    ensures var built := NewQuote(id, Some(client.id), Some(client.name), Some(client.email), lines,
                                  now + ThirtyDaysMs, notes);
            var q := QuoteModel.PreSave(built);
            q == AssembleQuote(id, client, lines, notes, now)
                   .(customerName := q.customerName, customerEmail := q.customerEmail)
  {
    var plain := NewQuote(id, Some(client.id), None, None, lines, now + ThirtyDaysMs, notes);
    var built := NewQuote(id, Some(client.id), Some(client.name), Some(client.email), lines,
                          now + ThirtyDaysMs, notes);
    assert built == plain.(customerName := built.customerName, customerEmail := built.customerEmail);
    var q := QuoteModel.PreSave(built);
    var p := QuoteModel.PreSave(plain);
    assert q.total == p.total;
  }

  /** A valid contact and valid lines make the built quote valid once the
      hook has set its total. */
  lemma CustomerQuoteValid(client: Client, built: Quote)
    requires built.customerName == Some(Text.Trim(client.name))
    requires built.customerEmail == Some(Text.NormaliseEmail(client.email))
    ensures ValidContact(client) && |built.services| > 0
            && (forall i :: 0 <= i < |built.services| ==> ValidLine(built.services[i]))
            ==> ValidQuote(QuoteModel.PreSave(built))
  {
    NameKeptOnSave(client);
  }

  /** A valid contact's name is stored as it is. */
  lemma NameKeptOnSave(client: Client)
    ensures ValidContact(client) ==> Text.Trim(client.name) == client.name
  {
    if ValidContact(client) {
      Text.TrimOfTrimmed(client.name);
    }
  }

  /** A store-wide fact the pre-save hook maintains. */
  predicate TotalMaintained(q: Quote)
  {
    |q.services| > 0 ==> q.total == Some(DiscountedSum(q.services))
  }

  datatype CreateResponse =
    | Created(quote: Quote)
    | ValidationError
    | ClientNotFound
    | ServiceMissing(id: Id)
    | ServerError

  /** `res` is the answer `createQuote` gives for the failed line result `lr`:
      404 naming an unknown service, 500 when pricing throws. */
  predicate Answers(lr: LineResult, res: CreateResponse)
  {
    || (lr.MissingService? && res == ServiceMissing(lr.id))
    || (lr.PricingThrew? && res == ServerError)
  }

  datatype StatusResponse = Updated(quote: Quote) | InvalidStatus | QuoteNotFound

  /** The quote collection, keyed by identity. */
  class QuoteStore {
    var quotes: map<Id, Quote>

    ghost predicate Valid()
      reads this
    {
      forall k :: k in quotes ==> quotes[k].id == k && TotalMaintained(quotes[k])
    }

    constructor ()
      ensures Valid() && quotes == map[]
    {
      quotes := map[];
    }

    /** `createQuote`: validate, find the client, price the lines, then
        build and save the quote under the fresh identity `newId`. Every
        failure leaves the store as it was. */
    method CreateQuote(snap: Snapshot, body: QuoteBody, now: Millis, newId: Id) returns (res: CreateResponse)
      requires Valid() && newId !in quotes
      modifies this
      ensures Valid()
      ensures !res.Created? ==> quotes == old(quotes)
      ensures res == ValidationError <==> !QuoteSchema(body)
      ensures res == ClientNotFound <==> QuoteSchema(body) && FindClient(snap.clients, body.customerId).None?
      ensures QuoteSchema(body) && FindClient(snap.clients, body.customerId).Some? ==>
        var client := FindClient(snap.clients, body.customerId).value;
        (res.Created? <==> forall i :: 0 <= i < |body.services| ==> PriceLine(snap, client, body.services[i], now).Priced?)
      ensures res.ServiceMissing? || res.ServerError? ==>
        && QuoteSchema(body) && FindClient(snap.clients, body.customerId).Some?
        && var client := FindClient(snap.clients, body.customerId).value;
           exists k :: FirstFailing(snap, client, body.services, now, k)
                       && Answers(PriceLine(snap, client, body.services[k], now), res)
      ensures res.Created? ==>
        && QuoteSchema(body) && FindClient(snap.clients, body.customerId).Some?
        && var client := FindClient(snap.clients, body.customerId).value;
           && PricedAs(snap, client, body.services, res.quote.services, now)
           && res.quote == AssembleQuote(newId, client, res.quote.services, body.notes, now)
           && quotes == old(quotes)[newId := res.quote]
    {
      if !QuoteSchema(body) {
        return ValidationError;
      }
      var client := FindClient(snap.clients, body.customerId);
      if client.None? {
        return ClientNotFound;
      }
      var priced := PriceLines(snap, client.value, body.services, now);
      match priced {
        case ServiceNotFound(id) =>
          var k :| FirstFailing(snap, client.value, body.services, now, k)
                   && ReportsFailure(PriceLine(snap, client.value, body.services[k], now), priced);
          assert Answers(PriceLine(snap, client.value, body.services[k], now), ServiceMissing(id));
          return ServiceMissing(id);
        case PricingFailed =>
          var k :| FirstFailing(snap, client.value, body.services, now, k)
                   && ReportsFailure(PriceLine(snap, client.value, body.services[k], now), priced);
          assert Answers(PriceLine(snap, client.value, body.services[k], now), ServerError);
          return ServerError;
        case Lines(quoteServices) =>
          var quote := AssembleQuote(newId, client.value, quoteServices, body.notes, now);
          assert quote.id == newId && TotalMaintained(quote);
          quotes := quotes[newId := quote];
          return Created(quote);
      }
    }

    /** `updateQuoteStatus`: a status outside the allow-list is refused before
        the store is consulted; an unknown identity is not found; otherwise
        only the status of that quote changes, whatever it was before. */
    method UpdateQuoteStatus(id: Id, status: Option<string>) returns (res: StatusResponse)
      requires Valid()
      modifies this
      ensures Valid()
      ensures !res.Updated? ==> quotes == old(quotes)
      ensures status.None? || ParseStatus(status.value).None? ==>
                res == InvalidStatus && quotes == old(quotes)
      ensures status.Some? && ParseStatus(status.value).Some? && id !in old(quotes) ==>
                res == QuoteNotFound && quotes == old(quotes)
      ensures status.Some? && ParseStatus(status.value).Some? && id in old(quotes) ==>
                res.Updated? && res.quote.status == ParseStatus(status.value).value
      ensures res.Updated? ==>
                && status.Some? && id in old(quotes)
                && StatusLabel(res.quote.status) == status.value
                && res.quote == old(quotes)[id].(status := res.quote.status)
                && quotes == old(quotes)[id := res.quote]
    {
      if status.None? || ParseStatus(status.value).None? {
        return InvalidStatus;
      }
      if id !in quotes {
        return QuoteNotFound;
      }
      var quote := quotes[id].(status := ParseStatus(status.value).value);
      quotes := quotes[id := quote];
      return Updated(quote);
    }
  }

  /** Base price 100 and a tier band [1, 5] at 80: five persons pay 80; six
      fall outside the band and pay the base price, not the override. */
  lemma TierExample(service: Service, tier: PriceTier, overrides: map<Id, CustomPrice>)
    requires service.basePrice == 100.0
    requires tier.priceRanges == [PriceRange(1.0, 5.0, 80.0)]
    ensures PriceWithOverrides(service, Some(tier), overrides, 5.0) == 80.0
    ensures PriceWithOverrides(service, Some(tier), overrides, 6.0) == 100.0
  {
  }

  /** An override of 90 on a base price of 100, with no tier: 90. */
  lemma OverrideExample(service: Service)
    requires service.basePrice == 100.0
    ensures PriceWithOverrides(service, None, map[service.id := CustomPrice(90.0)], 3.0) == 90.0
  {
  }
}
