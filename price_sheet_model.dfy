/** The PriceSheet record: a named list of (service, price) entries, and its
    `lastUpdated` save hook. */
module PriceSheetModel {
  import opened Common
  import Text

  /** One entry: the service reference is kept in field `id`, and the entry
      has no `_id` of its own. */
  datatype SheetEntry = SheetEntry(id: Id, price: real)

  datatype PriceSheet = PriceSheet(
    id: Id,
    name: string,
    description: string,
    active: bool,
    services: seq<SheetEntry>,
    lastUpdated: Millis)

  /** What the schema demands: non-empty name and description, every entry
      priced at least 0. */
  predicate ValidSheet(s: PriceSheet)
  {
    && s.name != [] && s.description != []
    && forall i :: 0 <= i < |s.services| ==> s.services[i].price >= 0.0
  }

  /** A sheet as the schema builds it: strings trimmed, `active` true unless
      given, `lastUpdated` the time of creation. */
  function NewPriceSheet(id: Id, name: string, description: string, active: Option<bool>,
                         services: seq<SheetEntry>, now: Millis): (s: PriceSheet)
    ensures s.id == id && s.services == services && s.lastUpdated == now
    ensures s.name == Text.Trim(name) && s.description == Text.Trim(description)
    ensures Text.IsTrimmed(s.name) && Text.IsTrimmed(s.description)
    ensures s.active <==> active != Some(false)
    ensures Text.Trim(name) != [] && Text.Trim(description) != []
            && (forall i :: 0 <= i < |services| ==> services[i].price >= 0.0)
            ==> ValidSheet(s)
  {
    PriceSheet(id, Text.Trim(name), Text.Trim(description),
               if active.Some? then active.value else true, services, now)
  }

  /** The pre-save hook: `lastUpdated` becomes the time of the save; nothing
      else changes. */
  function PreSave(s: PriceSheet, now: Millis): (r: PriceSheet)
    ensures r.lastUpdated == now
    ensures r.(lastUpdated := s.lastUpdated) == s
    ensures ValidSheet(r) <==> ValidSheet(s)
  {
    s.(lastUpdated := now)
  }
}
