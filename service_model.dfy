/** The Service record of the catalogue and its `lastUpdated` save hook. */
module ServiceModel {
  import opened Common
  import Text

  /** One entry of `materials`; the schema puts no bound on either field. */
  datatype Material = Material(name: Option<string>, cost: Option<real>)

  datatype Service = Service(
    id: Id,
    name: string,
    category: Id,
    location: string,
    basePrice: real,
    description: string,
    active: bool,
    lastUpdated: Millis,
    duration: real,
    materials: seq<Material>)

  /** Duration in minutes when none is given. */
  const DefaultDuration: real := 60.0

  /** What the schema demands of a stored service: the required strings are
      non-empty, `basePrice` and `duration` at least 0. */
  predicate ValidService(s: Service)
  {
    && s.name != [] && s.location != [] && s.description != []
    && s.basePrice >= 0.0
    && s.duration >= 0.0
  }

  /** A service as the schema builds it: strings trimmed, `active` true and
      `duration` 60 unless given, `lastUpdated` the time of creation. */
  function NewService(id: Id, name: string, category: Id, location: string, basePrice: real,
                      description: string, active: Option<bool>, duration: Option<real>,
                      materials: seq<Material>, now: Millis): (s: Service)
    ensures s.id == id && s.category == category && s.basePrice == basePrice && s.materials == materials
    ensures s.name == Text.Trim(name) && s.location == Text.Trim(location) && s.description == Text.Trim(description)
    ensures Text.IsTrimmed(s.name) && Text.IsTrimmed(s.location) && Text.IsTrimmed(s.description)
    ensures s.active <==> active != Some(false)
    ensures s.duration == (if duration.Some? then duration.value else DefaultDuration)
    ensures s.lastUpdated == now
    ensures basePrice >= 0.0 && (duration.Some? ==> duration.value >= 0.0)
            && Text.Trim(name) != [] && Text.Trim(location) != [] && Text.Trim(description) != []
            ==> ValidService(s)
  {
    Service(id, Text.Trim(name), category, Text.Trim(location), basePrice, Text.Trim(description),
            if active.Some? then active.value else true,
            lastUpdated := now,
            duration := if duration.Some? then duration.value else DefaultDuration,
            materials := materials)
  }

  /** The pre-save hook: `lastUpdated` becomes the time of the save; every
      other field, and so the validity of the record, is unchanged. */
  function PreSave(s: Service, now: Millis): (r: Service)
    ensures r.lastUpdated == now
    ensures r.(lastUpdated := s.lastUpdated) == s
    ensures ValidService(r) <==> ValidService(s)
  {
    s.(lastUpdated := now)
  }
}
