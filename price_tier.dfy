/** The PriceTier record: a per-service schedule of price bands by number of
    persons (pax), with an activity window, and its `findPriceForPax`
    method. */
module PriceTierModel {
  import opened Common

  /** The `duration` enum. */
  datatype Duration = FifteenMins | ThirtyFiveMins | HalfDay | FullDay | TwoDays

  function DurationLabel(d: Duration): string
  {
    match d
    case FifteenMins => "15 mins"
    case ThirtyFiveMins => "35 mins"
    case HalfDay => "HD"
    case FullDay => "FD"
    case TwoDays => "2 Días"
  }

  /** The enum check: a stored `duration` must be one of the five labels. */
  function ParseDuration(s: string): (r: Option<Duration>)
    ensures r.Some? ==> DurationLabel(r.value) == s
    ensures r.None? ==> forall d :: DurationLabel(d) != s
  {
    if s == "15 mins" then Some(FifteenMins)
    else if s == "35 mins" then Some(ThirtyFiveMins)
    else if s == "HD" then Some(HalfDay)
    else if s == "FD" then Some(FullDay)
    else if s == "2 Días" then Some(TwoDays)
    else None
  }

  /** Every label reads back as the duration it names. */
  lemma DurationRoundTrip(d: Duration)
    ensures ParseDuration(DurationLabel(d)) == Some(d)
  {
  }

  /** One entry of `priceRanges`. Nothing relates `minPax` and `maxPax`. */
  datatype PriceRange = PriceRange(minPax: real, maxPax: real, pricePerPax: real)

  /** The schema's bounds on a range: `minPax` at least 1, `pricePerPax` at
      least 0; `maxPax` is only required. */
  predicate ValidRange(r: PriceRange)
  {
    r.minPax >= 1.0 && r.pricePerPax >= 0.0
  }

  datatype PriceTier = PriceTier(
    id: Id,
    service: Id,
    duration: Duration,
    priceRanges: seq<PriceRange>,
    activeFrom: Millis,
    activeTo: Option<Millis>,
    isActive: bool)

  predicate ValidTier(t: PriceTier)
  {
    forall i :: 0 <= i < |t.priceRanges| ==> ValidRange(t.priceRanges[i])
  }

  /** A tier as the schema stores it: `activeFrom` defaults to the time of
      creation, `isActive` to true, `activeTo` stays unset unless given. */
  function NewPriceTier(id: Id, service: Id, duration: Duration, ranges: seq<PriceRange>,
                        activeFrom: Option<Millis>, activeTo: Option<Millis>,
                        isActive: Option<bool>, now: Millis): (t: PriceTier)
    ensures t.id == id && t.service == service && t.duration == duration && t.priceRanges == ranges
    ensures t.activeFrom == (if activeFrom.Some? then activeFrom.value else now)
    ensures t.activeTo == activeTo
    ensures t.isActive <==> isActive != Some(false)
  {
    PriceTier(id, service, duration, ranges,
              if activeFrom.Some? then activeFrom.value else now,
              activeTo,
              if isActive.Some? then isActive.value else true)
  }

  /** `numberOfPax >= range.minPax && numberOfPax <= range.maxPax`. */
  predicate Covers(r: PriceRange, pax: real)
  {
    r.minPax <= pax <= r.maxPax
  }

  /** `findPriceForPax`: the price of the first range, in stored order, that
      contains `pax` with both bounds included; null (None) when none does. */
  function FindPriceForPax(ranges: seq<PriceRange>, pax: real): (r: Option<real>)
    ensures r.None? <==> forall i :: 0 <= i < |ranges| ==> !Covers(ranges[i], pax)
    ensures r.Some? ==> exists k :: 0 <= k < |ranges| && Covers(ranges[k], pax)
                                    && r.value == ranges[k].pricePerPax
                                    && forall i :: 0 <= i < k ==> !Covers(ranges[i], pax)
    ensures r.Some? && (forall i :: 0 <= i < |ranges| ==> ValidRange(ranges[i])) ==> r.value >= 0.0
  {
    var k := FirstIndex(ranges, (rg: PriceRange) => Covers(rg, pax));
    if k == -1 then None else Some(ranges[k].pricePerPax)
  }

  /** Earlier ranges win: appending ranges only matters when none of the
      first ones contains `pax`, so overlapping bands resolve to the first. */
  lemma {:induction false} FindPriceForPaxAppend(ranges: seq<PriceRange>, more: seq<PriceRange>, pax: real)
    ensures FindPriceForPax(ranges + more, pax)
         == if FindPriceForPax(ranges, pax).Some? then FindPriceForPax(ranges, pax)
            else FindPriceForPax(more, pax)
  {
    var all := ranges + more;
    var p := (rg: PriceRange) => Covers(rg, pax);
    var k := FirstIndex(ranges, p);
    if k == -1 {
      var m := FirstIndex(more, p);
      assert forall i :: 0 <= i < |ranges| ==> all[i] == ranges[i];
      assert forall i :: 0 <= i < |more| ==> all[|ranges| + i] == more[i];
      if m == -1 {
        assert forall i :: 0 <= i < |all| ==> !p(all[i]) by {
          forall i | 0 <= i < |all| ensures !p(all[i]) {
            if i >= |ranges| { assert all[i] == more[i - |ranges|]; }
          }
        }
      } else {
        assert FirstIndex(all, p) == |ranges| + m by {
          forall i | 0 <= i < |ranges| + m ensures !p(all[i]) {
            if i >= |ranges| { assert all[i] == more[i - |ranges|]; }
          }
        }
      }
    } else {
      assert all[k] == ranges[k];
      assert forall i :: 0 <= i < k ==> all[i] == ranges[i];
      assert FirstIndex(all, p) == k;
    }
  }

  /** A range whose `maxPax` is below its `minPax` never matches, so removing
      it from the list never changes the price found. */
  lemma InvertedRangeIsInert(ranges: seq<PriceRange>, i: nat, pax: real)
    requires i < |ranges| && ranges[i].maxPax < ranges[i].minPax
    ensures FindPriceForPax(ranges[..i] + ranges[i + 1..], pax) == FindPriceForPax(ranges, pax)
  {
    assert ranges == ranges[..i] + ([ranges[i]] + ranges[i + 1..]);
    FindPriceForPaxAppend(ranges[..i], [ranges[i]] + ranges[i + 1..], pax);
    FindPriceForPaxAppend([ranges[i]], ranges[i + 1..], pax);
    FindPriceForPaxAppend(ranges[..i], ranges[i + 1..], pax);
  }

  /** Both bounds of a band are inclusive, and just outside it nothing matches. */
  lemma BoundsInclusive(r: PriceRange, eps: real)
    requires r.minPax <= r.maxPax && eps > 0.0
    ensures FindPriceForPax([r], r.minPax) == Some(r.pricePerPax)
    ensures FindPriceForPax([r], r.maxPax) == Some(r.pricePerPax)
    ensures FindPriceForPax([r], r.minPax - eps) == None
    ensures FindPriceForPax([r], r.maxPax + eps) == None
  {
  }
}
