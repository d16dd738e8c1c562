/** Expiry arithmetic: days remaining until an item's expiry date and the four-band
    classification shown on every item card. Calendar dates are day numbers (days since
    1970-01-01), so the local-midnight normalisation of the app is already applied. */
module Expiry {
  import opened Wrappers

  /** A calendar date, as a count of days since 1970-01-01. */
  type Day = int

  /** What `DaysRemaining` reports for an item without an expiry date. */
  const NoDateDays: int := 9999

  /** Days from `today` until `expiry`: 0 on the expiry day, negative once it has passed. */
  function DaysRemaining(expiry: Option<Day>, today: Day): (days: int)
    ensures expiry.None? ==> days == NoDateDays
    ensures expiry.Some? ==> (days == 0 <==> today == expiry.value)
    ensures expiry.Some? ==> (days < 0 <==> today > expiry.value)
    ensures expiry.Some? ==> days + today == expiry.value
  {
    match expiry
    case None => NoDateDays
    case Some(d) => d - today
  }

  /** The severity bands, most urgent first. */
  datatype Band = Expired | Expiring | Watch | Safe

  /** The classification of one expiry date: its band and the day count it came from. */
  datatype Status = Status(band: Band, days: int)

  /** The band a day count falls into; each band is an interval of day counts. */
  function BandOf(days: int): (b: Band)
    ensures b == Expired <==> days < 0
    ensures b == Expiring <==> 0 <= days <= 30
    ensures b == Watch <==> 31 <= days <= 90
    ensures b == Safe <==> days > 90
  {
    if days < 0 then Expired
    else if days <= 30 then Expiring
    else if days <= 90 then Watch
    else Safe
  }

  /** The label the app shows for a band. */
  function Label(b: Band): (s: string)
    ensures s == "已过期" <==> b == Expired
    ensures s == "临期" <==> b == Expiring
    ensures s == "需关注" <==> b == Watch
    ensures s == "安全" <==> b == Safe
  {
    match b
    case Expired => "已过期"
    case Expiring => "临期"
    case Watch => "需关注"
    case Safe => "安全"
  }

  /** The status of an expiry date on `today`; an undated item is always safe. */
  function ExpiryStatus(expiry: Option<Day>, today: Day): (s: Status)
    ensures s.days == DaysRemaining(expiry, today)
    ensures s.band == BandOf(s.days)
    ensures expiry.None? ==> s.band == Safe
    ensures expiry.Some? && today > expiry.value ==> s.band == Expired
    ensures expiry.Some? && today == expiry.value ==> s.band == Expiring
  {
    var days := DaysRemaining(expiry, today);
    Status(BandOf(days), days)
  }

  /** The boundary table: -1, 0, 30, 31, 90, 91 and the no-date sentinel. */
  lemma BandBoundaries()
    ensures BandOf(-1) == Expired && BandOf(0) == Expiring && BandOf(30) == Expiring
    ensures BandOf(31) == Watch && BandOf(90) == Watch && BandOf(91) == Safe
    ensures BandOf(NoDateDays) == Safe
  {
  }

  /** How urgent a band is: 3 for expired down to 0 for safe. */
  function Urgency(b: Band): nat
  {
    match b
    case Expired => 3
    case Expiring => 2
    case Watch => 1
    case Safe => 0
  }

  /** As days pass, a dated item's band never becomes less urgent: it moves from safe through
      watch and expiring to expired, never back. */
  lemma UrgencyGrows(expiry: Day, today: Day, later: Day)
    requires today <= later
    ensures Urgency(ExpiryStatus(Some(expiry), today).band) <= Urgency(ExpiryStatus(Some(expiry), later).band)
  {
  }
}
