# Quotation back end — a verified model

This project models the core of a small quotation and pricing back end for a
tour operator. It is an Express/Mongoose REST service holding services,
categories, clients, price tiers, price sheets, quotes and users. The main
part of the model is the quote pricing engine:

- `createQuote` checks that the client exists.
- It walks the requested lines in order and picks each unit price from an
  active price tier, the client's custom price or the service's base price.
- It builds the quote with a validity of thirty days.
- The quote's pre-save hook folds the lines into `total`.

Around that engine the model covers:

- the record types with their defaults and constraints;
- the request schemas, as predicates;
- the price-sheet view, which is a MongoDB aggregation;
- the price-sheet create, update and delete operations;
- role changes, registration and login;
- the authentication, role and schema gates.

Modelling conventions:

- **Stored documents are values.** Each document is a `datatype`. Each
  Mongoose pre-save hook is a function from the document to the document it
  saves.
- **Collections the controllers write are classes.** The quotes
  (`QuoteStore`), price sheets (`PriceSheetStore`) and users (`UserTable`) are
  classes whose methods change a `map` or `seq` field. Each such method states
  the whole new state and the invariant it keeps.
- **Collections that are only read are snapshots.** Clients, services, tiers
  and categories are `seq` parameters. `findOne`/`findById` become "first
  match in store order" (`Common.FirstIndex`, `Common.Find`).
- **Numbers are `real`.** Time is an integer number of milliseconds, and the
  current time `now` is a parameter.
- **External results are parameters.** This covers what the code takes from
  libraries: the e-mail format check (`isEmail`), the bcrypt hash and
  comparison, the outcome of `jwt.verify`, the token that is signed, and the
  issues a Zod schema reports.
- **Query setters apply to lookups.** A `findOne({ email })` lookup applies
  the field's trim and lower-case setters to the value it looks up.

Where the program's documented intent and the code differ, the model follows the
code:

- **No range covers the party size.** When an active tier exists but none of
  its ranges covers the party size, the documented intent lets the price fall
  through to the client's custom price. The code uses the service's base price
  and never consults the custom price in that branch (`TierExample`,
  `TierIgnoresOverrides`).
- **Several tiers qualify.** The documented intent asks for a deterministic
  tie-break such as the latest `activeFrom`. The code takes the first
  qualifying tier the query returns, and `activeFrom` is not consulted at all
  (`ActiveTierIgnoresActiveFrom`).
- **Custom pricing.** The documented intent has a per-client custom-price map. The
  client schema stores a Boolean (Finding B).
- **Quote customer fields.** The documented intent has the quote carry the client's
  name and e-mail. The controller never sets them (Finding A).
- **Tier ranges.** The documented intent expects tier ranges to be sorted and
  disjoint. Nothing enforces this: ranges may overlap (the earlier one wins)
  or be inverted (they never match).
- **Lookup by id.** `getPriceSheetById` never answers 404, because the
  aggregation returns an array and an empty array is truthy. For an unknown
  id it answers success with no sheet (`GetPriceSheetById`).
- **Schema lengths and trimming.** The schemas count a string's length before
  trimming and the models trim before checking. A blank name of the right
  length therefore passes the schema but fails the model
  (`BlankNamePassesCategorySchema`).

## Model

| member | source | states |
|---|---|---|
| Documents.ToJson | src/models/price-tier.model.js:47-54 | the serialised document has `id` equal to `_id`, has no `_id` or `__v`, and keeps every other field unchanged (the same transform is in the client, category, service and price-sheet models) |
| Documents.ToJsonTwice | src/models/priceSheet.model.js:43-50 | a serialised document carries neither `_id` nor `__v`; serialising it again only drops `id` |
| Text.Trim | src/models/category.model.js:5-15 | the `trim` setter: the result has no leading or trailing JavaScript white space and is the input with only white space removed at the ends |
| Text.TrimIdempotent | src/models/client.model.js:5-9 | trimming a trimmed string changes nothing |
| Text.NormaliseEmail | src/models/client.model.js:10-16 | the e-mail setters: the result is the input trimmed, then lower-cased; it is trimmed and has no ASCII capital letter |
| Text.NormaliseEmailIdempotent | src/models/user.model.js:6-12 | normalising a stored e-mail leaves it unchanged, so a lookup by a stored e-mail finds it |
| Text.DecimalStringValue | src/middleware/auth.middleware.js:70 | the decimal rendering of a number reads back as that number |
| Text.Split | src/middleware/auth.middleware.js:8 | `split(' ')`: at least one piece, no piece contains the separator, and joining the pieces gives back the input |
| Text.SplitJoin | src/middleware/auth.middleware.js:70 | splitting a join of separator-free pieces gives back the pieces |
| PriceTierModel.ParseDuration | src/models/price-tier.model.js:10-14 | exactly the five labels '15 mins', '35 mins', 'HD', 'FD', '2 Días' are accepted |
| PriceTierModel.DurationRoundTrip | src/models/price-tier.model.js:10-14 | parsing the label of a duration gives it back |
| PriceTierModel.NewPriceTier | src/models/price-tier.model.js:33-43 | `activeFrom` defaults to now, `activeTo` is optional, `isActive` is true unless false is given |
| PriceTierModel.FindPriceForPax | src/models/price-tier.model.js:59-64 | null exactly when no range has minPax ≤ n ≤ maxPax; otherwise the price of the first such range in stored order; never negative when every range meets the schema |
| PriceTierModel.FindPriceForPaxAppend | src/models/price-tier.model.js:60-62 | ranges appended after others only decide the price when none of the earlier ones covers n: overlapping ranges resolve to the earlier one |
| PriceTierModel.InvertedRangeIsInert | src/models/price-tier.model.js:15-32 | a range with maxPax < minPax can be removed without changing any lookup |
| PriceTierModel.BoundsInclusive | src/models/price-tier.model.js:61 | n = minPax and n = maxPax both match; any n outside the band does not |
| QuoteModel.ParseStatus | src/models/quote.model.js:46-50 | exactly 'pending', 'approved', 'rejected', 'expired' are accepted |
| QuoteModel.StatusRoundTrip | src/models/quote.model.js:46-50 | parsing the label of a status gives it back |
| QuoteModel.NewLine | src/models/quote.model.js:20-45 | a line's quantity defaults to 1 and its discount to 0; service and price are kept |
| QuoteModel.NewQuote | src/models/quote.model.js:9-63 | customer name and notes are trimmed, the customer e-mail is trimmed and lower-cased, status is pending and there is no total yet |
| QuoteModel.TotalAppend | src/models/quote.model.js:81-85 | appending a line raises the total by exactly that line's contribution |
| QuoteModel.TotalConcat | src/models/quote.model.js:81-85 | the total of two runs of lines is the sum of their totals |
| QuoteModel.TotalIsDiscountedSum | src/models/quote.model.js:79-88 | the hook's left fold equals Σ price·quantity·(1 − discount/100) |
| QuoteModel.ContributionNonNegative | src/models/quote.model.js:27-44 | a line with price ≥ 0, quantity ≥ 1 and discount in [0, 100] contributes at least 0 |
| QuoteModel.TotalNonNegative | src/models/quote.model.js:51-55 | when every line is within bounds, the total meets the field's `min: 0` |
| QuoteModel.TwoLineExample | src/models/quote.model.js:81-85 | 2 × 50 without discount plus 1 × 30 at 50% gives 115 |
| QuoteModel.DiscountExample | src/models/quote.model.js:81-85 | 3 × 90 at 10% contributes 243 |
| QuoteModel.PreSave | src/models/quote.model.js:79-88 | with at least one line, `total` becomes the discounted sum of the lines, which is at least 0 for lines within bounds; with no lines nothing changes; no other field is touched |
| ServiceModel.NewService | src/models/service.model.js:5-48 | name, location and description are the given ones trimmed, `duration` defaults to 60, `active` defaults to true, and `lastUpdated` is now |
| ServiceModel.PreSave | src/models/service.model.js:64-67 | only `lastUpdated` changes, and it becomes now; validity is unaffected |
| ClientModel.NewClient | src/models/client.model.js:5-36 | `customPricing` is the Boolean flag, false unless true is given; the optional fields stay present or absent as given; name, phone, address and notes are the given ones trimmed and the e-mail is the given one trimmed and lower-cased, so non-blank input gives a valid client |
| CategoryModel.NewCategory | src/models/category.model.js:5-19 | name and description are the given ones trimmed, `active` defaults to true, and non-blank input gives a valid category |
| PriceSheetModel.NewPriceSheet | src/models/priceSheet.model.js:19-40 | name and description are the given ones trimmed, the entries are kept, `active` defaults to true, and `lastUpdated` is now |
| PriceSheetModel.PreSave | src/models/priceSheet.model.js:55-58 | only `lastUpdated` changes, and it becomes now; validity is unaffected |
| UserModel.ParseRole | src/models/user.model.js:23-27 | exactly 'admin' and 'user' are accepted |
| UserModel.NewUser | src/models/user.model.js:6-31 | the e-mail is normalised, the name is trimmed, the role defaults to user, `active` defaults to true, and the record is valid when the fields are non-blank and the password is long enough |
| UserModel.PreSave | src/models/user.model.js:39-49 | the password is replaced by its hash only when it was modified; otherwise the record is unchanged; no other field is touched |
| ValidationSchemas.DiscountOrZero | src/controllers/quote.controller.js:64 | an absent discount is 0 and a given one is kept; under the line schema it lies in [0, 100] |
| SchemaChecks.ServiceSchemaBuildsValidService | src/schemas/validation.schemas.js:48-65 | a service body the schema accepts, with non-blank texts, builds a valid service whose duration is the requested one or 60 |
| SchemaChecks.PriceSheetSchemaBuildsValidSheet | src/schemas/validation.schemas.js:36-45 | a price-sheet body the schema accepts, with non-blank texts, builds a valid sheet |
| SchemaChecks.ClientSchemaBuildsValidClient | src/schemas/validation.schemas.js:26-33 | a client body the schema accepts, with non-blank name and e-mail, builds a valid client with the requested flag |
| SchemaChecks.RegisterSchemaFitsUser | src/schemas/validation.schemas.js:4-9 | an accepted registration has a password of at least 6 characters, and any role it names is one of the enum |
| SchemaChecks.BlankNamePassesCategorySchema | src/schemas/validation.schemas.js:18-23 | a two-space name passes the schema's minimum length but gives a category the model refuses |
| QuoteController.FindClient | src/controllers/quote.controller.js:18-24 | the client is absent exactly when no stored client has the id; a found client is stored and has the id |
| QuoteController.FindService | src/controllers/quote.controller.js:29-35 | the service is absent exactly when no stored service has the id; a found service is stored and has the id |
| QuoteController.ActiveTier | src/controllers/quote.controller.js:38-45 | no tier exactly when no stored tier is for this service, active, and without an `activeTo` at or before now; a found tier is a stored one |
| QuoteController.ActiveTierIgnoresActiveFrom | src/controllers/quote.controller.js:38-45 | changing any tier's `activeFrom` does not change which tier is chosen |
| QuoteController.PriceWithOverrides | src/controllers/quote.controller.js:47-58 | with a tier: the first covering range's price, else the base price; without one: the custom price when the client has one for the service, else the base price |
| QuoteController.TierIgnoresOverrides | src/controllers/quote.controller.js:49-53 | when a tier qualifies, the client's custom prices make no difference |
| QuoteController.PricePrecedence | src/controllers/quote.controller.js:48-58 | a covering tier range beats everything, a custom price beats the base price when no tier qualifies, and the base price is the fallback |
| QuoteController.PriceNonNegative | src/controllers/quote.controller.js:47-58 | with valid services, tiers and custom prices, the unit price is at least 0 |
| QuoteController.UnitPrice | src/controllers/quote.controller.js:47-58 | the pricing as written throws exactly when no tier qualifies and `customPricing` is the stored Boolean; otherwise it gives the precedence price |
| QuoteController.PriceLine | src/controllers/quote.controller.js:29-65 | an unknown service reports its id; pricing throws exactly when the service is found but the precedence price is missing; a priced line keeps the requested service and quantity, has the precedence price and the discount or 0 |
| QuoteController.BooleanCustomPricingThrows | src/controllers/quote.controller.js:54-56 | for a stored client with no qualifying tier, pricing a known service always throws |
| QuoteController.PricedLineValid | src/controllers/quote.controller.js:60-65 | a line the schema accepts, priced from valid records, meets the quote line's bounds |
| QuoteController.PriceLines | src/controllers/quote.controller.js:28-66 | one priced line per requested line, in order, when all are priced; otherwise the first failing line, with every earlier line priced, decides the answer |
| QuoteController.AssembleQuote | src/controllers/quote.controller.js:69-76 | the saved quote references the client, holds the lines, is valid for 30 days from now, is pending, and has the discounted sum as its total; the notes are the given ones trimmed; it has no customer name or e-mail |
| QuoteController.AssembledQuoteLacksCustomer | src/controllers/quote.controller.js:69-74 | the quote as built never meets the schema's required customer fields |
| QuoteController.AssembleQuoteForCustomer | src/controllers/quote.controller.js:69-74 | with the client's name and e-mail copied in, a valid client and valid lines give a quote that meets the whole schema |
| QuoteController.QuoteStore.CreateQuote | src/controllers/quote.controller.js:13-95 | validation error exactly for an invalid body; client not found exactly for a valid body naming no stored client; otherwise the quote is created exactly when every line prices, and the first failing line decides the error (an unknown service is named); a created quote is the assembled one stored under the fresh id; every failure leaves the store unchanged |
| QuoteController.QuoteStore.UpdateQuoteStatus | src/controllers/quote.controller.js:215-248 | a status outside the four is refused and nothing changes; an unknown id is not found; a valid status for a stored quote always succeeds and sets that status, from any status; only that quote changes and any other answer changes nothing |
| QuoteController.TierExample | src/controllers/quote.controller.js:49-53 | base price 100 and a band [1, 5] at 80: five persons pay 80 and six pay 100, whatever the custom prices |
| QuoteController.OverrideExample | src/controllers/quote.controller.js:54-58 | with no tier, a custom price of 90 replaces the base price of 100 |
| PriceSheetController.IndexOfArray | src/controllers/priceSheet.controller.js:58 | `$indexOfArray`: −1 exactly when the value is missing or not in the array; otherwise the first index holding it |
| PriceSheetController.ArrayElemAt | src/controllers/priceSheet.controller.js:56-59 | `$arrayElemAt`: a non-negative index counts from the front, a negative one from the end, and out of range gives nothing |
| PriceSheetController.ElemAtIndexOf | src/controllers/priceSheet.controller.js:55-60 | looking up a present value's index gives back that value |
| PriceSheetController.ElemAtFailedLookup | src/controllers/priceSheet.controller.js:62-65 | a failed lookup (−1) selects the last element of any non-empty array |
| PriceSheetController.JoinedServices | src/controllers/priceSheet.controller.js:29-36 | the joined services are exactly the catalogue services referenced by some entry |
| PriceSheetController.JoinedCategories | src/controllers/priceSheet.controller.js:37-44 | the joined categories are stored ones, include every category of a joined service, and include nothing else |
| PriceSheetController.ProjectEntry | src/controllers/priceSheet.controller.js:52-78 | an output entry copies the stored entry's `id` and `price` |
| PriceSheetController.ProjectSheet | src/controllers/priceSheet.controller.js:45-91 | the view has the sheet's `id` and fields, and exactly one entry per stored entry, in order, with its `id` and `price` |
| PriceSheetController.EntryShowsLastJoined | src/controllers/priceSheet.controller.js:55-73 | each output entry shows the name and description of the last joined service and the name of the last joined category |
| PriceSheetController.ViewRepeatsLastJoined | src/controllers/priceSheet.controller.js:48-81 | every entry of a projected sheet shows the same last joined service, whatever service it refers to |
| PriceSheetController.ViewExample | src/controllers/priceSheet.controller.js:55-66 | a sheet with services "Tour" and "Lunch" shows "Lunch" for both entries |
| PriceSheetController.IntendedEntry | src/controllers/priceSheet.controller.js:55-73 | looked up by the entry's `id`: a name appears exactly when the entry's service was joined |
| PriceSheetController.IntendedEntryShowsOwnService | src/controllers/priceSheet.controller.js:55-73 | with unique identities, each entry shows its own service's name and description and its own category's name |
| PriceSheetController.GetPriceSheetById | src/controllers/priceSheet.controller.js:25-111 | the answer is always success; the sheet is absent exactly when no stored sheet has the id; otherwise it is the projection of a stored sheet with that id |
| PriceSheetController.GetPriceSheets | src/controllers/priceSheet.controller.js:8-22 | exactly the active sheets, each summarised without its entries |
| PriceSheetController.FoundCountStep | src/controllers/priceSheet.controller.js:120-123 | with unique service identities, one more key raises the number found by one exactly when it names a catalogue service not named before |
| PriceSheetController.FoundCountExact | src/controllers/priceSheet.controller.js:119-128 | at most one service is found per key, and the check passes exactly when the keys are distinct and all name catalogue services |
| PriceSheetController.EntryKeys | src/controllers/priceSheet.controller.js:119 | the keys are the entries' `id`s, in order |
| PriceSheetController.UpdateKeys | src/controllers/priceSheet.controller.js:159 | one key per entry, and every key is missing, because the validated entry has no `service` field |
| PriceSheetController.EntryCheckIff | src/controllers/priceSheet.controller.js:119-128 | creation passes the existence check exactly when the entries' `id`s are distinct and all name catalogue services |
| PriceSheetController.UpdateCheckAlwaysFails | src/controllers/priceSheet.controller.js:156-167 | for every body the schema accepts, the existence check of the update as written fails |
| PriceSheetController.Overwrite | src/controllers/priceSheet.controller.js:169-177 | the update stores the given name and description trimmed (the update runs the schema setters) and the given entries, keeps identity and `active`, and runs no save hook |
| PriceSheetController.PriceSheetStore.CreatePriceSheet | src/controllers/priceSheet.controller.js:114-151 | invalid body: 400; a missing service: 400 and nothing saved; otherwise the new sheet, hook applied, is appended and identities stay unique with prices ≥ 0 |
| PriceSheetController.PriceSheetStore.UpdatePriceSheet | src/controllers/priceSheet.controller.js:154-203 | invalid body or a missing service: 400 and nothing changes; an unknown id: 404; otherwise only the first sheet with the id is overwritten |
| PriceSheetController.PriceSheetStore.DeletePriceSheet | src/controllers/priceSheet.controller.js:206-227 | 404 exactly when no sheet has the id, with nothing changed; otherwise that sheet is removed and no sheet with the id remains |
| AuthController.AdminCountAfterRoleChange | src/controllers/auth.controller.js:33-45 | changing one user's role moves the administrator count by what that user stops and starts contributing |
| AuthController.AdminCountAfterAppend | src/controllers/auth.controller.js:90-91 | registering a user raises the administrator count only for an administrator |
| AuthController.FindByEmail | src/controllers/auth.controller.js:72-73 | a user is found exactly when one has the normalised e-mail |
| AuthController.RegisterRole | src/controllers/auth.controller.js:81-87 | the new user is an administrator exactly when one was requested and none exists |
| AuthController.UserTable.UpdateRole | src/controllers/auth.controller.js:10-64 | a role outside admin/user is refused, exactly then and before lookup; not found exactly for a valid role and an unknown user; demoting an administrator is refused exactly while there is at most one; in every other case the role is updated, only that user's role changes, and a refusal changes nothing; an administrator always remains if one existed |
| AuthController.UserTable.Register | src/controllers/auth.controller.js:67-123 | invalid body: 400; a stored e-mail: refused; otherwise one user is appended with normalised e-mail, hashed password, trimmed name and the settled role; an existing administrator count never changes |
| AuthController.UserTable.Login | src/controllers/auth.controller.js:126-178 | invalid body: 400; success exactly when the user exists, is active and the password matches; every other case gives the same 401 'Credenciales inválidas' |
| AuthMiddleware.BearerToken | src/middleware/auth.middleware.js:7-15 | a token exists exactly when the header is present and element 1 of its split on ' ' exists and is non-empty, and the token is that element |
| AuthMiddleware.BearerTokenOfHeader | src/middleware/auth.middleware.js:8 | the second word of a two-word header is the token, whatever the first word |
| AuthMiddleware.NoSpaceNoToken | src/middleware/auth.middleware.js:8-15 | a header without a space gives no token |
| AuthMiddleware.FindUser | src/middleware/auth.middleware.js:18 | the user is absent exactly when no stored user has the id |
| AuthMiddleware.AuthenticateToken | src/middleware/auth.middleware.js:5-44 | no token: 401; `next()` exactly when the token verifies and its user exists and is active; a missing or inactive user: 401; JsonWebTokenError and TokenExpiredError: 401 with their messages; any other error goes to `next(error)` |
| AuthMiddleware.AuthenticatedUserIsActiveAndStored | src/middleware/auth.middleware.js:17-28 | `req.user` is always a stored, active user |
| AuthMiddleware.AuthorizeRole | src/middleware/auth.middleware.js:47-57 | passes exactly when the user's role is listed; otherwise 403 |
| AuthMiddleware.RenderSegment | src/middleware/auth.middleware.js:70 | a key renders as itself; an array index renders as a non-empty run of digits whose decimal value is the index |
| AuthMiddleware.ValidateSchema | src/middleware/auth.middleware.js:60-76 | proceeds exactly when the schema reports no issue; otherwise 400 with one error per issue, in order, carrying its message and its path joined with '.' |
| AuthMiddleware.IssuePathRoundTrip | src/middleware/auth.middleware.js:69-72 | when no key contains a dot, splitting a rendered path on '.' gives back its elements |

## Left out

- Routes, Swagger comments, server bootstrap and the database connection are not modelled: they only wire the handlers together.
- The CRUD controllers for services, clients, categories and accommodations are not modelled: they pass requests straight to Mongoose queries.
- The e-mail quote flow (`processEmailQuote` and the e-mail quote model) is not modelled: its detection step always returns an empty list, so its quote branch never runs. Only its request schema is kept (`EmailProcessSchema`).
- JWT signing and verification and bcrypt hashing and comparison are not modelled; their results are parameters.
- Zod's e-mail format check is a parameter, and its error objects are reduced to a path and a message. String lengths count characters, not UTF-16 code units.
- ObjectId parsing and cast errors, database failures and every `catch` branch that answers 500 are not modelled, except for the `TypeError` of Finding B, which appears as `PricingThrew`/`ServerError`.
- Mongoose save validation, and its running before the pre-save hooks, is not modelled: `CreateQuote`, `CreatePriceSheet` and `Register` store the record they build. As written, validation would refuse every quote, because neither the customer fields (Finding A) nor `total` (computed only in the hook) is set when it runs. `AssembledQuoteLacksCustomer` and `AssembleQuoteForCustomer` state the consequence.
- `populate` after an update and the `createdAt`/`updatedAt` timestamps are not modelled: they do not affect what is stored.
- Unique indexes are stated as store invariants (`KeysUnique`), not enforced as database errors.
- Floating-point rounding is not modelled: prices and totals are exact reals.
- `toLowerCase` is modelled for ASCII letters only.
- Documents are values, so in-place mutation of a document object and aliasing between references to it are not captured.
- Concurrent requests are not modelled; each operation is atomic.
- AuthMiddleware.AuthenticateToken: the assignment to `req.user` and the call to `next()` are the `Next` outcome; the response object is not modelled.
- PriceSheetController.PriceSheetStore.UpdatePriceSheet: checks the existence of the services on each entry's `id`, as creation does. The key as written is kept in `UpdateKeys`, and with it the check always fails (Finding D).
- PriceSheetController.GetPriceSheetById: the response's status and message strings are not modelled, only which sheet view it carries.
- QuoteController.QuoteStore.CreateQuote: stores the quote as the controller builds it, without customer fields (Finding A), because save validation is not modelled.

## Findings

| source | as written | input that shows it | evidently intended | confidence | as-written member | corrected member |
|---|---|---|---|---|---|---|
| src/controllers/quote.controller.js:69-74 | the new quote gets the customer reference, lines, validity and notes, but never `customerName` or `customerEmail`, which src/models/quote.model.js:9-19 makes required | any valid request for a stored client | copy the client's name and e-mail into the quote | not executed | QuoteController.AssembledQuoteLacksCustomer | QuoteController.AssembleQuoteForCustomer |
| src/controllers/quote.controller.js:54-56 | `client.customPricing.has(...)` is called on a field that src/models/client.model.js:17-20 declares Boolean, so it throws and the request ends in 500 | a stored client and a service with no qualifying tier | look the service up in a per-client map of custom prices | not executed | QuoteController.BooleanCustomPricingThrows | QuoteController.PricePrecedence |
| src/controllers/priceSheet.controller.js:58 | the view looks up `$$serviceItem.service`, a field stored entries do not have (their service is in `id`); `$indexOfArray` gives −1 and `$arrayElemAt` at −1 gives the last joined service and category | a sheet with entries for services "Tour" and "Lunch": both entries show "Lunch" | look the entry up by its `id` | not executed | PriceSheetController.ViewRepeatsLastJoined | PriceSheetController.IntendedEntryShowsOwnService |
| src/controllers/priceSheet.controller.js:159 | the existence check maps `item.service`, which the schema strips from every entry, so no service is found and every update answers 400 | any body the schema accepts, with services that exist | map each entry's `id`, as creation does | not executed | PriceSheetController.UpdateCheckAlwaysFails | PriceSheetController.EntryCheckIff |
