/** The staging, intermediate and fact models of dbt: one row in, one row out
    (dbt/models/staging, dbt/models/intermediate, dbt/models/marts/core). */
module Facts {
  import opened Common
  import opened Ids
  import opened Store
  import I = Identity

  /** aircraft_activity_status */
  datatype Status = OnGround | Unknown | AirborneUnknownRate | Climbing | Descending | LevelFlight

  /** vertical_rate_category */
  datatype RateCategory = UnknownRate | RateUp | RateDown | RateStable

  /** (observation_date, observation_hour), each null when last_contact_at is. */
  datatype Window = Window(date: Option<int>, hour: Option<int>)

  /** A row of fact_aircraft_state (the columns the marts read). */
  datatype Fact = Fact(ingestionId: string, source: string, icao24: string,
                       callsign: Option<string>, originCountry: Option<string>,
                       latitude: Option<real>, longitude: Option<real>,
                       velocityKmh: Option<real>, rateCategory: RateCategory, status: Status,
                       window: Window, lastContactAt: Option<int>)

  /** The date and the hour of a timestamp in the session's time zone. */
  type Calendar = int -> (int, int)

  /** `trim`: spaces only. */
  function Trim(s: string): string {
    I.Strip(s, c => c == ' ')
  }

  /** `lower(trim(icao24))`; `lower` is the character map of `Ids.Key`. */
  function NormalIcao24(raw: string): string {
    Key(Trim(raw))
  }

  /** `nullif(trim(s), '')` */
  function NullIfBlank(s: Option<string>): Option<string> {
    if s.None? || Trim(s.value) == "" then None else Some(Trim(s.value))
  }

  function CategoryOf(rate: Option<real>): RateCategory {
    if rate.None? then UnknownRate
    else if rate.value > 1.0 then RateUp
    else if rate.value < -1.0 then RateDown
    else RateStable
  }

  function StatusOf(onGround: Option<bool>, rate: Option<real>): Status {
    if onGround.Some? && onGround.value then OnGround
    else if onGround.None? then Unknown
    else if rate.None? then AirborneUnknownRate
    else if rate.value > 1.0 then Climbing
    else if rate.value < -1.0 then Descending
    else LevelFlight
  }

  /** `round(x::numeric, 2)`: halves away from zero. */
  function RoundToCents(x: real): real {
    if x >= 0.0 then (x * 100.0 + 0.5).Floor as real / 100.0 else -((0.5 - x * 100.0).Floor as real / 100.0)
  }

  /** `round((velocity_mps * 3.6)::numeric, 2)` */
  function VelocityKmh(velocityMps: Option<real>): Option<real> {
    if velocityMps.None? then None else Some(RoundToCents(velocityMps.value * 3.6))
  }

  function WindowOf(calendar: Calendar, at: Option<int>): Window {
    match at
    case None => Window(None, None)
    case Some(t) => Window(Some(calendar(t).0), Some(calendar(t).1))
  }

  function FactOf(calendar: Calendar, r: Row): Fact {
    var e := r.payload;
    Fact(r.id, r.source, NormalIcao24(r.icao24), NullIfBlank(e.callsign), NullIfBlank(e.originCountry),
         e.latitude, e.longitude, VelocityKmh(e.velocityMps), CategoryOf(e.verticalRateMps),
         StatusOf(e.onGround, e.verticalRateMps),
         WindowOf(calendar, e.lastContact), e.lastContact)
  }

  /** Rounding moves a number by half a cent at most, halves away from zero. */
  lemma RoundedToCents(x: real)
    ensures exists n: int {:trigger n as real} ::
      && RoundToCents(x) == n as real / 100.0
      && (x >= 0.0 ==> n as real - 0.5 <= x * 100.0 < n as real + 0.5)
      && (x < 0.0 ==> n as real - 0.5 < x * 100.0 <= n as real + 0.5)
  {
    var n := if x >= 0.0 then (x * 100.0 + 0.5).Floor else -(0.5 - x * 100.0).Floor;
    assert RoundToCents(x) == n as real / 100.0;
  }

  /** What trimming leaves: a part of the text without a space at either end, and only
      spaces are cut off. */
  lemma TrimMeaning(s: string) returns (i: nat, j: nat)
    ensures i <= j <= |s| && Trim(s) == s[i..j]
    ensures forall k :: 0 <= k < |s| && !(i <= k < j) ==> s[k] == ' '
    ensures i < j ==> s[i] != ' ' && s[j - 1] != ' '
  {
    i, j := I.StripMeaning(s, c => c == ' ');
  }

  /** Column by column, the fact that a stored row becomes. */
  lemma FactColumns(calendar: Calendar, r: Row)
    ensures var f, e := FactOf(calendar, r), r.payload;
      && f.ingestionId == r.id && f.source == r.source && f.icao24 == Key(Trim(r.icao24))
      && f.callsign == (if e.callsign.Some? && Trim(e.callsign.value) != "" then Some(Trim(e.callsign.value)) else None)
      && f.originCountry ==
        (if e.originCountry.Some? && Trim(e.originCountry.value) != "" then Some(Trim(e.originCountry.value)) else None)
      && f.latitude == e.latitude && f.longitude == e.longitude && f.lastContactAt == e.lastContact
      && (e.velocityMps.None? <==> f.velocityKmh.None?)
      && (e.velocityMps.Some? ==> f.velocityKmh.value == RoundToCents(e.velocityMps.value * 3.6))
      && (e.lastContact.None? ==> f.window == Window(None, None))
      && (e.lastContact.Some? ==>
            f.window.date == Some(calendar(e.lastContact.value).0) &&
            f.window.hour == Some(calendar(e.lastContact.value).1))
  {}

  /** The status and the rate category of a row, each by the values that give it. */
  lemma StatusValues(calendar: Calendar, r: Row)
    ensures var f, rate := FactOf(calendar, r), r.payload.verticalRateMps;
      var airborne := r.payload.onGround == Some(false);
      && (f.status == OnGround <==> r.payload.onGround == Some(true))
      && (f.status == Unknown <==> r.payload.onGround == None)
      && (f.status == AirborneUnknownRate <==> airborne && rate == None)
      && (f.status == Climbing <==> airborne && rate.Some? && rate.value > 1.0)
      && (f.status == Descending <==> airborne && rate.Some? && rate.value < -1.0)
      && (f.status == LevelFlight <==> airborne && rate.Some? && -1.0 <= rate.value <= 1.0)
      && (f.rateCategory == UnknownRate <==> rate == None)
      && (f.rateCategory == RateUp <==> rate.Some? && rate.value > 1.0)
      && (f.rateCategory == RateDown <==> rate.Some? && rate.value < -1.0)
      && (f.rateCategory == RateStable <==> rate.Some? && -1.0 <= rate.value <= 1.0)
  {}

  /** fact_aircraft_state over the stored rows. */
  function FactTable(calendar: Calendar, rows: seq<Row>): (facts: seq<Fact>)
    ensures |facts| == |rows|
    ensures forall i :: 0 <= i < |rows| ==> facts[i] == FactOf(calendar, rows[i])
  {
    seq(|rows|, i requires 0 <= i < |rows| => FactOf(calendar, rows[i]))
  }

  /** The join condition on two windows: null meets nothing. */
  predicate SameWindow(a: Window, b: Window) {
    a.date.Some? && a.hour.Some? && a == b
  }
}
