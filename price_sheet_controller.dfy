/** The price-sheet controller: the list of active sheets, the by-identity
    view built by an aggregation (a left join of the entries with the
    services and their categories), and create / update / delete over the
    sheet collection with their existence checks. */
module PriceSheetController {
  import opened Common
  import opened PriceSheetModel
  import opened ServiceModel
  import opened CategoryModel
  import opened ValidationSchemas
  import Text

  // ---------------------------------------------------------------------
  // Aggregation operators
  // ---------------------------------------------------------------------

  /** `$indexOfArray`: the first position holding `x`, or -1. A missing
      search value (`None`) equals no element of an array of identities. */
  function IndexOfArray<T(==)>(a: seq<T>, x: Option<T>): (r: int)
    ensures -1 <= r < |a|
    ensures r == -1 <==> x.None? || x.value !in a
    ensures 0 <= r ==> x == Some(a[r]) && x.value !in a[..r]
  {
    if x.None? then -1 else FirstIndex(a, (y: T) => y == x.value)
  }

  /** `$arrayElemAt`: a non-negative index counts from the front, a negative
      one from the back (-1 is the last element); out of bounds there is no
      result. */
  function ArrayElemAt<T>(a: seq<T>, i: int): (r: Option<T>)
    ensures 0 <= i < |a| ==> r == Some(a[i])
    ensures -|a| <= i < 0 ==> r == Some(a[|a| + i])
    ensures r.None? <==> i < -|a| || |a| <= i
  {
    if 0 <= i < |a| then Some(a[i])
    else if -|a| <= i < 0 then Some(a[|a| + i])
    else None
  }

  /** Looking up a value that is present and reading the same array at the
      position found gives that value back. */
  lemma ElemAtIndexOf<T>(a: seq<T>, x: T)
    requires x in a
    ensures ArrayElemAt(a, IndexOfArray(a, Some(x))) == Some(x)
  {
  }

  /** A failed lookup read through `$arrayElemAt` is not "absent": on a
      non-empty array it is the last element. */
  lemma ElemAtFailedLookup<T>(a: seq<T>, b: seq<T>, x: Option<T>)
    requires |b| > 0
    requires x.None? || x.value !in a
    ensures ArrayElemAt(b, IndexOfArray(a, x)) == Some(b[|b| - 1])
  {
  }

  // ---------------------------------------------------------------------
  // The joins
  // ---------------------------------------------------------------------

  function ServiceId(s: Service): Id { s.id }

  function CategoryId(c: Category): Id { c.id }

  /** The `services.id` values of a sheet. */
  function EntryServiceIds(entries: seq<SheetEntry>): (r: seq<Id>)
    ensures |r| == |entries| && forall i :: 0 <= i < |entries| ==> r[i] == entries[i].id
  {
    Map(entries, (e: SheetEntry) => e.id)
  }

  /** The first `$lookup`: every catalogue service that one of the entries
      references, in catalogue order, each once. */
  function JoinedServices(catalog: seq<Service>, entries: seq<SheetEntry>): (r: seq<Service>)
    ensures forall i :: 0 <= i < |r| ==> r[i] in catalog && r[i].id in EntryServiceIds(entries)
    ensures forall i :: 0 <= i < |catalog| && catalog[i].id in EntryServiceIds(entries) ==> catalog[i] in r
  {
    var ids := EntryServiceIds(entries);
    Filter(catalog, (s: Service) => s.id in ids)
  }

  /** The second `$lookup`: every category that one of the joined services
      belongs to, in collection order. */
  function JoinedCategories(categories: seq<Category>, joined: seq<Service>): (r: seq<Category>)
    ensures forall i :: 0 <= i < |r| ==> r[i] in categories
    ensures forall i :: 0 <= i < |r| ==> exists j :: 0 <= j < |joined| && r[i].id == joined[j].category
    ensures forall i, j :: 0 <= i < |categories| && 0 <= j < |joined| && categories[i].id == joined[j].category
                           ==> categories[i] in r
  {
    var ids := Map(joined, (s: Service) => s.category);
    assert forall j :: 0 <= j < |joined| ==> joined[j].category == ids[j];
    Filter(categories, (c: Category) => c.id in ids)
  }

  // ---------------------------------------------------------------------
  // The by-identity view
  // ---------------------------------------------------------------------

  /** One projected entry; a field without a result is `None`. */
  datatype EntryView = EntryView(
    name: Option<string>,
    description: Option<string>,
    id: Id,
    category: Option<string>,
    price: real)

  /** The projected sheet: `id` copied from `_id`; `_id`, `__v` and the two
      join arrays dropped. */
  datatype SheetView = SheetView(
    id: Id,
    name: string,
    description: string,
    active: bool,
    services: seq<EntryView>,
    lastUpdated: Millis)

  /** The value of `$$serviceItem.service`. Stored entries hold only `id`
      and `price`, so the field is always missing. */
  function ServiceField(e: SheetEntry): Option<Id>
  {
    None
  }

  /** The `$mergeObjects` of one entry as the pipeline is written: name and
      description at the index of `ServiceField(e)` among the joined
      services, category name at the index of the same key among the joined
      categories; `id` and `price` copied. */
  function ProjectEntry(joined: seq<Service>, cats: seq<Category>, e: SheetEntry): (v: EntryView)
    ensures v.id == e.id && v.price == e.price
  {
    var si := IndexOfArray(Map(joined, ServiceId), ServiceField(e));
    var ci := IndexOfArray(Map(cats, CategoryId), ServiceField(e));
    EntryView(ArrayElemAt(Map(joined, (s: Service) => s.name), si),
              ArrayElemAt(Map(joined, (s: Service) => s.description), si),
              e.id,
              ArrayElemAt(Map(cats, (c: Category) => c.name), ci),
              e.price)
  }

  /** The whole pipeline after `$match`, for one sheet. */
  function ProjectSheet(sheet: PriceSheet, catalog: seq<Service>, categories: seq<Category>): (v: SheetView)
    ensures v.id == sheet.id && v.name == sheet.name && v.description == sheet.description
    ensures v.active == sheet.active && v.lastUpdated == sheet.lastUpdated
    ensures |v.services| == |sheet.services|
    ensures forall i :: 0 <= i < |sheet.services| ==>
              v.services[i].id == sheet.services[i].id && v.services[i].price == sheet.services[i].price
  {
    var joined := JoinedServices(catalog, sheet.services);
    var cats := JoinedCategories(categories, joined);
    SheetView(sheet.id, sheet.name, sheet.description, sheet.active,
              Map(sheet.services, (e: SheetEntry) => ProjectEntry(joined, cats, e)),
              sheet.lastUpdated)
  }

  /** As written, an entry shows the name and description of the last
      joined service and the name of the last joined category, whatever
      service it references; with nothing joined the fields are absent. */
  lemma EntryShowsLastJoined(joined: seq<Service>, cats: seq<Category>, e: SheetEntry)
    ensures var v := ProjectEntry(joined, cats, e);
            && v.name == (if joined == [] then None else Some(joined[|joined| - 1].name))
            && v.description == (if joined == [] then None else Some(joined[|joined| - 1].description))
            && v.category == (if cats == [] then None else Some(cats[|cats| - 1].name))
  {
    var names := Map(joined, (s: Service) => s.name);
    var descriptions := Map(joined, (s: Service) => s.description);
    var catNames := Map(cats, (c: Category) => c.name);
    var si := IndexOfArray(Map(joined, ServiceId), ServiceField(e));
    var ci := IndexOfArray(Map(cats, CategoryId), ServiceField(e));
    assert si == -1 && ci == -1;
    if joined != [] {
      assert ArrayElemAt(names, si) == Some(names[|names| - 1]);
      assert ArrayElemAt(descriptions, si) == Some(descriptions[|descriptions| - 1]);
    }
    if cats != [] {
      assert ArrayElemAt(catNames, ci) == Some(catNames[|catNames| - 1]);
    }
  }

  /** The same for every entry of a projected sheet. */
  lemma ViewRepeatsLastJoined(sheet: PriceSheet, catalog: seq<Service>, categories: seq<Category>, i: nat)
    requires i < |sheet.services|
    ensures var joined := JoinedServices(catalog, sheet.services);
            var cats := JoinedCategories(categories, joined);
            var v := ProjectSheet(sheet, catalog, categories).services[i];
            && v.name == (if joined == [] then None else Some(joined[|joined| - 1].name))
            && v.description == (if joined == [] then None else Some(joined[|joined| - 1].description))
            && v.category == (if cats == [] then None else Some(cats[|cats| - 1].name))
  {
    var joined := JoinedServices(catalog, sheet.services);
    var cats := JoinedCategories(categories, joined);
    assert ProjectSheet(sheet, catalog, categories).services[i] == ProjectEntry(joined, cats, sheet.services[i]);
    EntryShowsLastJoined(joined, cats, sheet.services[i]);
  }

  /** Two services on one sheet: both entries are shown as the second. */
  lemma ViewExample(a: Service, b: Service)
    requires a.id == "a" && a.name == "Tour" && b.id == "b" && b.name == "Lunch"
    ensures var sheet := PriceSheet("p", "Sheet", "Summer prices", true,
                                    [SheetEntry("a", 10.0), SheetEntry("b", 20.0)], 0);
            var v := ProjectSheet(sheet, [a, b], []);
            v.services[0].name == Some("Lunch") && v.services[1].name == Some("Lunch")
  {
    var sheet := PriceSheet("p", "Sheet", "Summer prices", true,
                            [SheetEntry("a", 10.0), SheetEntry("b", 20.0)], 0);
    var ids := EntryServiceIds(sheet.services);
    assert ids == ["a", "b"];
    var p := (s: Service) => s.id in ids;
    assert [a, b][1..] == [b] && [b][1..] == [];
    assert Filter([a, b], p) == [a] + Filter([b], p) == [a] + [b];
    ViewRepeatsLastJoined(sheet, [a, b], [], 0);
    ViewRepeatsLastJoined(sheet, [a, b], [], 1);
  }

  /** The entry as evidently intended: the service is looked up by the
      entry's own `id`, and the category by that service's `category`. */
  function IntendedEntry(joined: seq<Service>, cats: seq<Category>, e: SheetEntry): (v: EntryView)
    ensures v.id == e.id && v.price == e.price
    ensures v.name.Some? <==> e.id in Map(joined, ServiceId)
  {
    var si := IndexOfArray(Map(joined, ServiceId), Some(e.id));
    if si < 0 then EntryView(None, None, e.id, None, e.price)
    else
      var s := joined[si];
      var ci := IndexOfArray(Map(cats, CategoryId), Some(s.category));
      EntryView(Some(s.name), Some(s.description), e.id,
                if ci < 0 then None else Some(cats[ci].name), e.price)
  }

  /** Looking up a key among a selection of a collection with unique keys
      finds the one element of the collection with that key. */
  lemma LookupInSelection<T>(all: seq<T>, part: seq<T>, key: T -> Id, k: nat)
    requires KeysUnique(all, key) && k < |all| && all[k] in part
    requires forall i :: 0 <= i < |part| ==> part[i] in all
    ensures var si := IndexOfArray(Map(part, key), Some(key(all[k])));
            0 <= si < |part| && part[si] == all[k]
  {
    var keys := Map(part, key);
    var j :| 0 <= j < |part| && part[j] == all[k];
    assert keys[j] == key(all[k]);
    var si := IndexOfArray(keys, Some(key(all[k])));
    var n :| 0 <= n < |all| && all[n] == part[si];
    assert key(all[n]) == key(all[k]);
  }

  /** With unique identities in both collections, the intended entry shows
      the service it references and that service's category. */
  lemma IntendedEntryShowsOwnService(sheet: PriceSheet, catalog: seq<Service>, categories: seq<Category>,
                                     i: nat, k: nat, m: nat)
    requires KeysUnique(catalog, ServiceId) && KeysUnique(categories, CategoryId)
    requires i < |sheet.services| && k < |catalog| && m < |categories|
    requires sheet.services[i].id == catalog[k].id && categories[m].id == catalog[k].category
    ensures var joined := JoinedServices(catalog, sheet.services);
            var v := IntendedEntry(joined, JoinedCategories(categories, joined), sheet.services[i]);
            && v.name == Some(catalog[k].name) && v.description == Some(catalog[k].description)
            && v.category == Some(categories[m].name)
  {
    var joined := JoinedServices(catalog, sheet.services);
    var cats := JoinedCategories(categories, joined);
    assert EntryServiceIds(sheet.services)[i] == catalog[k].id;
    LookupInSelection(catalog, joined, ServiceId, k);
    var j :| 0 <= j < |joined| && joined[j] == catalog[k];
    assert categories[m] in cats;
    LookupInSelection(categories, cats, CategoryId, m);
  }

  /** `getPriceSheetById`. The aggregate yields an array, which is never
      falsy, so the not-found answer is unreachable: the response is always
      a success carrying element 0, absent for an unknown identity. */
  datatype ByIdResponse = Success(sheet: Option<SheetView>) | SheetNotFound

  function GetPriceSheetById(sheets: seq<PriceSheet>, id: Id, catalog: seq<Service>,
                             categories: seq<Category>): (r: ByIdResponse)
    ensures r.Success?
    ensures r.sheet.None? <==> forall i :: 0 <= i < |sheets| ==> sheets[i].id != id
    ensures r.sheet.Some? ==> exists k :: 0 <= k < |sheets| && sheets[k].id == id
                                         && r.sheet.value == ProjectSheet(sheets[k], catalog, categories)
  {
    var matched := Filter(sheets, (s: PriceSheet) => s.id == id);
    var result := Map(matched, (s: PriceSheet) => ProjectSheet(s, catalog, categories));
    Success(if |result| > 0 then Some(result[0]) else None)
  }

  // ---------------------------------------------------------------------
  // The list of sheets
  // ---------------------------------------------------------------------

  /** A sheet without its `services` (`select("-services")`). */
  datatype SheetSummary = SheetSummary(id: Id, name: string, description: string, active: bool,
                                       lastUpdated: Millis)

  function Summary(s: PriceSheet): SheetSummary
  {
    SheetSummary(s.id, s.name, s.description, s.active, s.lastUpdated)
  }

  /** `getPriceSheets`: exactly the active sheets, without entries. */
  function GetPriceSheets(sheets: seq<PriceSheet>): (r: seq<SheetSummary>)
    ensures forall i :: 0 <= i < |r| ==> r[i].active
    ensures forall i :: 0 <= i < |r| ==> exists k :: 0 <= k < |sheets| && r[i] == Summary(sheets[k])
    ensures forall k :: 0 <= k < |sheets| && sheets[k].active ==> Summary(sheets[k]) in r
  {
    var active := Filter(sheets, (s: PriceSheet) => s.active);
    var r := Map(active, Summary);
    assert forall k :: 0 <= k < |sheets| && sheets[k].active ==> Summary(sheets[k]) in r by {
      forall k | 0 <= k < |sheets| && sheets[k].active
        ensures Summary(sheets[k]) in r
      {
        var j :| 0 <= j < |active| && active[j] == sheets[k];
        assert r[j] == Summary(sheets[k]);
      }
    }
    r
  }

  // ---------------------------------------------------------------------
  // The existence check of create and update
  // ---------------------------------------------------------------------

  /** Whether a service is matched by `{ _id: { $in: keys } }`; a missing
      key matches no service. */
  function InKeys(keys: seq<Option<Id>>): Service -> bool
  {
    (s: Service) => Some(s.id) in keys
  }

  /** `existingServices.length` for the given keys. */
  function FoundCount(catalog: seq<Service>, keys: seq<Option<Id>>): nat
  {
    Count(catalog, InKeys(keys))
  }

  /** The check `existingServices.length === serviceIds.length`. */
  predicate ServicesExist(catalog: seq<Service>, keys: seq<Option<Id>>)
  {
    FoundCount(catalog, keys) == |keys|
  }

  /** Some service of the catalogue has identity `k`. */
  predicate Known(catalog: seq<Service>, k: Option<Id>)
  {
    exists j :: 0 <= j < |catalog| && Some(catalog[j].id) == k
  }

  /** One more key adds one found service exactly when it is new and known. */
  lemma FoundCountStep(catalog: seq<Service>, keys: seq<Option<Id>>, k: Option<Id>)
    requires KeysUnique(catalog, ServiceId)
    ensures FoundCount(catalog, keys + [k])
         == FoundCount(catalog, keys) + (if k !in keys && Known(catalog, k) then 1 else 0)
  {
    var p := InKeys(keys);
    var p' := InKeys(keys + [k]);
    if k in keys || k.None? {
      CountPointwise(catalog, p', p);
    } else {
      var q := (s: Service) => s.id == k.value;
      CountSplit(catalog, p, q, p');
      CountUniqueKey(catalog, ServiceId, k.value, q);
    }
  }

  /** Against a catalogue with unique identities, the check passes exactly
      when every key is present, known and different from the others. */
  lemma {:induction false} FoundCountExact(catalog: seq<Service>, keys: seq<Option<Id>>)
    requires KeysUnique(catalog, ServiceId)
    ensures FoundCount(catalog, keys) <= |keys|
    ensures ServicesExist(catalog, keys)
        <==> Distinct(keys) && forall i :: 0 <= i < |keys| ==> Known(catalog, keys[i])
  {
    if |keys| > 0 {
      var init := keys[..|keys| - 1];
      var k := keys[|keys| - 1];
      assert keys == init + [k];
      FoundCountExact(catalog, init);
      FoundCountStep(catalog, init, k);
      assert Distinct(keys) <==> Distinct(init) && k !in init by {
        if Distinct(keys) {
          forall j | 0 <= j < |init|
            ensures init[j] != k
          {
            assert keys[j] == init[j];
          }
        }
      }
    }
  }

  /** The keys `createPriceSheet` checks: each entry's `id`. */
  function EntryKeys(entries: seq<SheetEntryBody>): (r: seq<Option<Id>>)
    ensures |r| == |entries| && forall i :: 0 <= i < |entries| ==> r[i] == Some(entries[i].id)
  {
    Map(entries, (e: SheetEntryBody) => Some(e.id))
  }

  /** The keys `updatePriceSheet` checks: each entry's `service`, a field the
      schema does not have and therefore strips, so every key is missing. */
  function UpdateKeys(entries: seq<SheetEntryBody>): (r: seq<Option<Id>>)
    ensures |r| == |entries| && forall i :: 0 <= i < |r| ==> r[i].None?
  {
    Map(entries, (e: SheetEntryBody) => None)
  }

  /** The check of `createPriceSheet` passes exactly when the entries
      reference distinct services that all exist. */
  lemma EntryCheckIff(catalog: seq<Service>, entries: seq<SheetEntryBody>)
    requires KeysUnique(catalog, ServiceId)
    ensures ServicesExist(catalog, EntryKeys(entries))
        <==> && (forall i, j :: 0 <= i < j < |entries| ==> entries[i].id != entries[j].id)
             && (forall i :: 0 <= i < |entries| ==> exists j :: 0 <= j < |catalog| && catalog[j].id == entries[i].id)
  {
    var keys := EntryKeys(entries);
    FoundCountExact(catalog, keys);
    assert (forall i :: 0 <= i < |keys| ==> Known(catalog, keys[i]))
       <==> (forall i :: 0 <= i < |entries| ==> exists j :: 0 <= j < |catalog| && catalog[j].id == entries[i].id) by {
      forall i | 0 <= i < |entries|
        ensures Known(catalog, keys[i]) <==> exists j :: 0 <= j < |catalog| && catalog[j].id == entries[i].id
      {
        assert keys[i] == Some(entries[i].id);
      }
    }
  }

  /** As written, the check of `updatePriceSheet` fails for every body the
      schema accepts: no service matches a missing key, and the schema
      demands at least one entry. */
  lemma UpdateCheckAlwaysFails(catalog: seq<Service>, body: PriceSheetBody)
    requires PriceSheetSchema(body)
    ensures !ServicesExist(catalog, UpdateKeys(body.services))
  {
    var keys := UpdateKeys(body.services);
    assert forall j :: 0 <= j < |keys| ==> keys[j] == None;
  }

  // ---------------------------------------------------------------------
  // The sheet collection
  // ---------------------------------------------------------------------

  datatype WriteResponse =
    | Created(sheet: PriceSheet)
    | Updated(sheet: PriceSheet)
    | Deleted
    | ValidationFailed
    | ServicesMissing
    | NotFound

  function SheetId(s: PriceSheet): Id { s.id }

  /** The entries a validated body stores. */
  function StoredEntries(entries: seq<SheetEntryBody>): (r: seq<SheetEntry>)
    ensures |r| == |entries|
    ensures forall i :: 0 <= i < |entries| ==> r[i] == SheetEntry(entries[i].id, entries[i].price)
  {
    Map(entries, (e: SheetEntryBody) => SheetEntry(e.id, e.price))
  }

  /** What `findOneAndUpdate` writes: the body's name, description and
      entries, cast through the schema's `trim` setters, with no save hook
      (so `lastUpdated` is kept). */
  function Overwrite(s: PriceSheet, body: PriceSheetBody): (r: PriceSheet)
    ensures r.id == s.id && r.active == s.active && r.lastUpdated == s.lastUpdated
    ensures r.name == Text.Trim(body.name) && r.description == Text.Trim(body.description)
    ensures Text.IsTrimmed(r.name) && Text.IsTrimmed(r.description)
    ensures r.services == StoredEntries(body.services)
  {
    s.(name := Text.Trim(body.name), description := Text.Trim(body.description),
       services := StoredEntries(body.services))
  }

  class PriceSheetStore {
    var sheets: seq<PriceSheet>

    /** Identities are unique and every stored price is at least 0. */
    ghost predicate Valid()
      reads this
    {
      && KeysUnique(sheets, SheetId)
      && forall i, j :: 0 <= i < |sheets| && 0 <= j < |sheets[i].services| ==> sheets[i].services[j].price >= 0.0
    }

    constructor ()
      ensures Valid() && sheets == []
    {
      sheets := [];
    }

    /** `createPriceSheet`: validate, check that the referenced services
        exist, then save the new sheet (hook applied) under `newId`. */
    method CreatePriceSheet(catalog: seq<Service>, body: PriceSheetBody, now: Millis, newId: Id)
      returns (res: WriteResponse)
      requires Valid() && forall i :: 0 <= i < |sheets| ==> sheets[i].id != newId
      modifies this
      ensures Valid()
      ensures !res.Created? ==> sheets == old(sheets)
      ensures !PriceSheetSchema(body) ==> res == ValidationFailed
      ensures PriceSheetSchema(body) && !ServicesExist(catalog, EntryKeys(body.services)) ==> res == ServicesMissing
      ensures PriceSheetSchema(body) && ServicesExist(catalog, EntryKeys(body.services)) ==>
                && res == Created(PriceSheetModel.PreSave(
                     NewPriceSheet(newId, body.name, body.description, None, StoredEntries(body.services), now), now))
                && sheets == old(sheets) + [res.sheet]
    {
      if !PriceSheetSchema(body) {
        return ValidationFailed;
      }
      var serviceIds := EntryKeys(body.services);
      if FoundCount(catalog, serviceIds) != |serviceIds| {
        return ServicesMissing;
      }
      var sheet := PriceSheetModel.PreSave(
        NewPriceSheet(newId, body.name, body.description, None, StoredEntries(body.services), now), now);
      sheets := sheets + [sheet];
      return Created(sheet);
    }

    /** `updatePriceSheet`: validate, check that the referenced services
        exist, then overwrite the first sheet with identity `id`, or answer
        not found. The check reads each entry's `id`, as creation does; the
        check as written reads a missing key and never passes
        (`UpdateCheckAlwaysFails`). */
    method UpdatePriceSheet(catalog: seq<Service>, id: Id, body: PriceSheetBody) returns (res: WriteResponse)
      requires Valid()
      modifies this
      ensures Valid()
      ensures !res.Updated? ==> sheets == old(sheets)
      ensures !PriceSheetSchema(body) ==> res == ValidationFailed
      ensures PriceSheetSchema(body) && !ServicesExist(catalog, EntryKeys(body.services)) ==> res == ServicesMissing
      ensures PriceSheetSchema(body) && ServicesExist(catalog, EntryKeys(body.services)) ==>
                res.Updated? || res == NotFound
      ensures res == NotFound ==> forall i :: 0 <= i < |old(sheets)| ==> old(sheets)[i].id != id
      ensures res.Updated? ==> exists k :: 0 <= k < |old(sheets)| && old(sheets)[k].id == id
                                 && res.sheet == Overwrite(old(sheets)[k], body)
                                 && sheets == old(sheets)[k := res.sheet]
    {
      if !PriceSheetSchema(body) {
        return ValidationFailed;
      }
      var serviceIds := EntryKeys(body.services);
      if FoundCount(catalog, serviceIds) != |serviceIds| {
        return ServicesMissing;
      }
      var k := FirstIndex(sheets, (s: PriceSheet) => s.id == id);
      if k < 0 {
        return NotFound;
      }
      var sheet := Overwrite(sheets[k], body);
      sheets := sheets[k := sheet];
      return Updated(sheet);
    }

    /** `deletePriceSheet`: remove the sheet with identity `id`, or answer
        not found. */
    method DeletePriceSheet(id: Id) returns (res: WriteResponse)
      requires Valid()
      modifies this
      ensures Valid()
      ensures res == Deleted || res == NotFound
      ensures res == NotFound <==> forall i :: 0 <= i < |old(sheets)| ==> old(sheets)[i].id != id
      ensures res == NotFound ==> sheets == old(sheets)
      ensures res == Deleted ==> exists k :: 0 <= k < |old(sheets)| && old(sheets)[k].id == id
                                   && sheets == old(sheets)[..k] + old(sheets)[k + 1..]
      ensures forall i :: 0 <= i < |sheets| ==> sheets[i].id != id
    {
      var k := FirstIndex(sheets, (s: PriceSheet) => s.id == id);
      if k < 0 {
        return NotFound;
      }
      sheets := sheets[..k] + sheets[k + 1..];
      return Deleted;
    }
  }
}
