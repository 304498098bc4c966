/** dim_aircraft and mart_aircraft_activity: the per-aircraft and the per-aircraft-and-hour
    aggregates of the same facts, and the join between them. */
module AircraftMart {
  import opened Common
  import opened Relational
  import opened Facts

  // ----- dim_aircraft -----

  datatype Seen = Seen(icao24: string, firstSeenAt: Option<int>, lastSeenAt: Option<int>, observationCount: int,
    sourceCount: int)

  datatype Recent = Recent(icao24: string, latestCallsign: Option<string>, latestOriginCountry: Option<string>)

  datatype Aircraft = Aircraft(seen: Seen, latestCallsign: Option<string>, latestOriginCountry: Option<string>)

  function Negate(a: Option<int>): Option<int> {
    if a.None? then None else Some(-a.value)
  }

  function LastContact(f: Fact): Option<int> {
    f.lastContactAt
  }

  function BackContact(f: Fact): Option<int> {
    Negate(f.lastContactAt)
  }

  function AircraftKey(f: Fact): string {
    f.icao24
  }

  function SourceOf(f: Fact): string {
    f.source
  }

  function SeenOf(icao24: string, g: seq<Fact>): Seen {
    Seen(icao24, Negate(MaxOf(g, BackContact)), MaxOf(g, LastContact), |g|, |Keys(g, SourceOf)|)
  }

  /** A row that `order by last_contact_at desc nulls last` may put first. */
  ghost predicate MostRecent(g: seq<Fact>, f: Fact) {
    f in g && forall h :: h in g ==> AtMost(h.lastContactAt, f.lastContactAt)
  }

  /** `distinct on` keeps some first row; which of several equal ones is not said. */
  ghost predicate PicksMostRecent(pick: seq<Fact> -> Fact) {
    forall g :: g != [] ==> MostRecent(g, pick(g))
  }

  function RecentOf(pick: seq<Fact> -> Fact): (string, seq<Fact>) -> Recent {
    (icao24: string, g: seq<Fact>) => Recent(icao24, pick(g).callsign, pick(g).originCountry)
  }

  predicate SameAircraft(a: Seen, r: Recent) {
    a.icao24 == r.icao24
  }

  function Seens(facts: seq<Fact>): seq<Seen> {
    GroupBy(facts, AircraftKey, SeenOf)
  }

  function Recents(pick: seq<Fact> -> Fact, facts: seq<Fact>): seq<Recent> {
    GroupBy(facts, AircraftKey, RecentOf(pick))
  }

  function AircraftOf(j: Joined<Seen, Recent>): Aircraft
    requires j.left.Some?
  {
    if j.right.Some? then Aircraft(j.left.value, j.right.value.latestCallsign, j.right.value.latestOriginCountry)
    else Aircraft(j.left.value, None, None)
  }

  function DimAircraft(pick: seq<Fact> -> Fact, facts: seq<Fact>): seq<Aircraft> {
    var joined := LeftJoin(Seens(facts), Recents(pick, facts), SameAircraft);
    seq(|joined|, i requires 0 <= i < |joined| => AircraftOf(joined[i]))
  }

  /** One row per icao24: its aggregates, and the callsign and country of its picked row. */
  lemma DimRows(pick: seq<Fact> -> Fact, facts: seq<Fact>)
    ensures var dim, ks := DimAircraft(pick, facts), Keys(facts, AircraftKey);
      |dim| == |ks| && forall i :: 0 <= i < |ks| ==>
        var g := Group(facts, AircraftKey, ks[i]);
        dim[i] == Aircraft(SeenOf(ks[i], g), pick(g).callsign, pick(g).originCountry)
  {
    var ks, seens, recents := Keys(facts, AircraftKey), Seens(facts), Recents(pick, facts);
    assert forall i :: 0 <= i < |ks| ==> recents[i].icao24 == ks[i] && seens[i].icao24 == ks[i];
    forall i | 0 <= i < |seens|
      ensures |Meeting(seens[i], recents, SameAircraft)| <= 1
    {
      MeetingOne(seens[i], recents, SameAircraft);
    }
    NoFanOut(seens, recents, SameAircraft);
    var joined := LeftJoin(seens, recents, SameAircraft);
    forall i | 0 <= i < |ks| ensures joined[i].right == Some(recents[i]) {
      assert recents[i] in recents && seens[i] in seens;
      PartnerIs(seens[i], recents, SameAircraft, recents[i]);
    }
  }

  // ----- mart_aircraft_activity -----

  datatype Slot = Slot(icao24: string, window: Window)

  datatype Activity = Activity(slot: Slot, observationCount: int, climbingCount: int, descendingCount: int,
                               levelFlightCount: int, onGroundCount: int,
                               firstSeenAt: Option<int>, lastSeenAt: Option<int>)

  datatype ActivityRow = ActivityRow(activity: Activity, latestCallsign: Option<string>,
    latestOriginCountry: Option<string>)

  function SlotKey(f: Fact): Slot {
    Slot(f.icao24, f.window)
  }

  function ActivityOf(s: Slot, g: seq<Fact>): Activity {
    Activity(s, |g|, Count(g, (f: Fact) => f.status.Climbing?), Count(g, (f: Fact) => f.status.Descending?),
             Count(g, (f: Fact) => f.status.LevelFlight?), Count(g, (f: Fact) => f.status.OnGround?),
             Negate(MaxOf(g, BackContact)), MaxOf(g, LastContact))
  }

  function Activities(facts: seq<Fact>): seq<Activity> {
    GroupBy(facts, SlotKey, ActivityOf)
  }

  predicate OfAircraft(a: Activity, d: Aircraft) {
    a.slot.icao24 == d.seen.icao24
  }

  function ActivityRowOf(j: Joined<Activity, Aircraft>): ActivityRow
    requires j.left.Some?
  {
    if j.right.Some? then ActivityRow(j.left.value, j.right.value.latestCallsign, j.right.value.latestOriginCountry)
    else ActivityRow(j.left.value, None, None)
  }

  function MartActivity(pick: seq<Fact> -> Fact, facts: seq<Fact>): seq<ActivityRow> {
    var joined := LeftJoin(Activities(facts), DimAircraft(pick, facts), OfAircraft);
    seq(|joined|, i requires 0 <= i < |joined| => ActivityRowOf(joined[i]))
  }

  lemma SlotHasAircraft(pick: seq<Fact> -> Fact, facts: seq<Fact>, a: Activity) returns (d: Aircraft)
    requires a in Activities(facts)
    ensures d in DimAircraft(pick, facts) && OfAircraft(a, d)
  {
    var acts, dim, ks, slots :=
      Activities(facts), DimAircraft(pick, facts), Keys(facts, AircraftKey), Keys(facts, SlotKey);
    DimRows(pick, facts);
    var i :| 0 <= i < |acts| && acts[i] == a;
    assert slots[i] in slots;
    var f := KeyFrom(facts, SlotKey, slots[i]);
    assert AircraftKey(f) in ks;
    var k :| 0 <= k < |ks| && ks[k] == f.icao24;
    d := dim[k];
  }

  /** icao24 is a key of the dimension. */
  lemma OneRowPerAircraft(pick: seq<Fact> -> Fact, facts: seq<Fact>)
    ensures var dim := DimAircraft(pick, facts);
      forall i, j :: 0 <= i < j < |dim| ==> dim[i].seen.icao24 != dim[j].seen.icao24
  {
    var dim, ks := DimAircraft(pick, facts), Keys(facts, AircraftKey);
    DimRows(pick, facts);
    assert forall i :: 0 <= i < |dim| ==> dim[i].seen.icao24 == ks[i];
  }

  /** The join to the dimension keeps the aggregates row by row. */
  lemma DimensionDoesNotFanOut(pick: seq<Fact> -> Fact, facts: seq<Fact>)
    ensures var mart, acts, dim := MartActivity(pick, facts), Activities(facts), DimAircraft(pick, facts);
      && KeepsLeft(acts, dim, OfAircraft, LeftJoin(acts, dim, OfAircraft))
      && |mart| == |acts| && forall i :: 0 <= i < |mart| ==> mart[i].activity == acts[i]
  {
    var acts, dim := Activities(facts), DimAircraft(pick, facts);
    OneRowPerAircraft(pick, facts);
    forall i | 0 <= i < |acts|
      ensures |Meeting(acts[i], dim, OfAircraft)| <= 1
    {
      MeetingOne(acts[i], dim, OfAircraft);
    }
    NoFanOut(acts, dim, OfAircraft);
  }

  /** Each row carries the callsign and country of its aircraft's dimension row. */
  lemma MartShowsLatest(pick: seq<Fact> -> Fact, facts: seq<Fact>, i: nat)
    requires i < |MartActivity(pick, facts)|
    ensures exists d :: d in DimAircraft(pick, facts) && OfAircraft(MartActivity(pick, facts)[i].activity, d)
                        && MartActivity(pick, facts)[i]
                          == ActivityRow(MartActivity(pick, facts)[i].activity, d.latestCallsign, d.latestOriginCountry)
  {
    var acts, dim := Activities(facts), DimAircraft(pick, facts);
    OneRowPerAircraft(pick, facts);
    DimensionDoesNotFanOut(pick, facts);
    var d := SlotHasAircraft(pick, facts, acts[i]);
    PartnerIs(acts[i], dim, OfAircraft, d);
  }

  // ----- the dimension agrees with the mart -----

  /** A column down the mart's rows for one aircraft. */
  function ForAircraft(icao24: string, c: Activity -> int): ActivityRow -> int {
    (m: ActivityRow) => if m.activity.slot.icao24 == icao24 then c(m.activity) else 0
  }

  function Where(icao24: string, p: Fact -> bool): Fact -> bool {
    (f: Fact) => f.icao24 == icao24 && p(f)
  }

  lemma ActivityColumn(pick: seq<Fact> -> Fact, facts: seq<Fact>, icao24: string, c: Activity -> int, p: Fact -> bool)
    requires forall s, g :: c(ActivityOf(s, g)) == Count(g, p)
    ensures SumBy(MartActivity(pick, facts), ForAircraft(icao24, c)) == Count(facts, Where(icao24, p))
  {
    var w := (a: Activity) => if a.slot.icao24 == icao24 then c(a) else 0;
    var q := Where(icao24, p);
    DimensionDoesNotFanOut(pick, facts);
    SumSame(MartActivity(pick, facts), Activities(facts), ForAircraft(icao24, c), w);
    forall s | s in Keys(facts, SlotKey)
      ensures w(ActivityOf(s, Group(facts, SlotKey, s))) == Count(Group(facts, SlotKey, s), q)
    {
      if s.icao24 == icao24 {
        CountSame(Group(facts, SlotKey, s), p, q);
      } else {
        CountNone(Group(facts, SlotKey, s), q);
      }
    }
    GroupByConserves(facts, SlotKey, ActivityOf, w, q);
  }

  lemma {:induction false} GroupCount(facts: seq<Fact>, icao24: string)
    ensures |Group(facts, AircraftKey, icao24)| == Count(facts, (f: Fact) => f.icao24 == icao24)
  {
    if facts != [] { GroupCount(facts[1..], icao24); }
  }

  /** A nullable column of the mart, for one aircraft. */
  function InSlots(icao24: string, c: Activity -> Option<int>): Activity -> Option<int> {
    (a: Activity) => if a.slot.icao24 == icao24 then c(a) else None
  }

  /** The maximum of the window maxima is the maximum. */
  lemma MaxOfWindows(facts: seq<Fact>, icao24: string, v: Fact -> Option<int>, c: Activity -> Option<int>)
    requires forall s, g :: c(ActivityOf(s, g)) == MaxOf(g, v)
    ensures MaxOf(Activities(facts), InSlots(icao24, c))
         == MaxOf(Group(facts, AircraftKey, icao24), v)
  {
    var acts, slots, g := Activities(facts), Keys(facts, SlotKey), Group(facts, AircraftKey, icao24);
    var w := InSlots(icao24, c);
    var m := MaxOf(g, v);
    forall a | a in acts ensures AtMost(w(a), m) {
      var i :| 0 <= i < |acts| && acts[i] == a;
      WindowMaxBelow(facts, icao24, slots[i], v);
    }
    MaxBelow(acts, w, m);
    forall f | f in g ensures AtMost(v(f), MaxOf(acts, w)) {
      var i :| 0 <= i < |slots| && slots[i] == SlotKey(f);
      assert f in Group(facts, SlotKey, slots[i]);
      MaxBounds(Group(facts, SlotKey, slots[i]), v, f);
      MaxBounds(acts, w, acts[i]);
    }
    MaxBelow(g, v, MaxOf(acts, w));
    AtMostBoth(MaxOf(acts, w), m);
  }

  lemma WindowMaxBelow(facts: seq<Fact>, icao24: string, s: Slot, v: Fact -> Option<int>)
    ensures s.icao24 == icao24 ==>
      AtMost(MaxOf(Group(facts, SlotKey, s), v), MaxOf(Group(facts, AircraftKey, icao24), v))
  {
    var g, all := Group(facts, SlotKey, s), Group(facts, AircraftKey, icao24);
    if s.icao24 == icao24 {
      forall f | f in g ensures AtMost(v(f), MaxOf(all, v)) {
        assert f in all;
        MaxBounds(all, v, f);
      }
      MaxBelow(g, v, MaxOf(all, v));
    }
  }

  function InRows(icao24: string, c: Activity -> Option<int>): ActivityRow -> Option<int> {
    (m: ActivityRow) => InSlots(icao24, c)(m.activity)
  }

  function LastSeen(a: Activity): Option<int> {
    a.lastSeenAt
  }

  function FirstSeenBack(a: Activity): Option<int> {
    Negate(a.firstSeenAt)
  }

  lemma {:induction false} MaxSame<A, B>(xs: seq<A>, ys: seq<B>, f: A -> Option<int>, g: B -> Option<int>)
    requires |xs| == |ys| && forall i :: 0 <= i < |xs| ==> f(xs[i]) == g(ys[i])
    ensures MaxOf(xs, f) == MaxOf(ys, g)
  {
    if xs != [] {
      assert forall i :: 0 <= i < |xs[1..]| ==> xs[1..][i] == xs[i + 1] && ys[1..][i] == ys[i + 1];
      MaxSame(xs[1..], ys[1..], f, g);
    }
  }

  lemma DimIn(pick: seq<Fact> -> Fact, facts: seq<Fact>, d: Aircraft)
    requires d in DimAircraft(pick, facts)
    ensures var g := Group(facts, AircraftKey, d.seen.icao24);
      g != [] && d == Aircraft(SeenOf(d.seen.icao24, g), pick(g).callsign, pick(g).originCountry)
  {
    var dim, ks := DimAircraft(pick, facts), Keys(facts, AircraftKey);
    DimRows(pick, facts);
    var i :| 0 <= i < |dim| && dim[i] == d;
    assert ks[i] in ks;
    var f := KeyFrom(facts, AircraftKey, ks[i]);
    assert f in Group(facts, AircraftKey, ks[i]);
  }

  /** An aircraft's observation_count is the number of its facts, which its hourly counts
      total. */
  lemma CountsAgree(pick: seq<Fact> -> Fact, facts: seq<Fact>, d: Aircraft)
    requires d in DimAircraft(pick, facts)
    ensures d.seen.observationCount == Count(facts, (f: Fact) => f.icao24 == d.seen.icao24)
    ensures d.seen.observationCount
      == SumBy(MartActivity(pick, facts), ForAircraft(d.seen.icao24, (a: Activity) => a.observationCount))
  {
    var i := d.seen.icao24;
    DimIn(pick, facts, d);
    GroupCount(facts, i);
    CountSame(facts, (f: Fact) => f.icao24 == d.seen.icao24, (f: Fact) => f.icao24 == i);
    forall s, g
      ensures ((a: Activity) => a.observationCount)(ActivityOf(s, g)) == Count(g, (f: Fact) => true)
    {
      CountAll(g, (f: Fact) => true);
    }
    ActivityColumn(pick, facts, i, (a: Activity) => a.observationCount, (f: Fact) => true);
    CountSame(facts, Where(i, (f: Fact) => true), (f: Fact) => f.icao24 == i);
  }

  lemma DistinctSources(facts: seq<Fact>, icao24: string)
    ensures |Keys(Group(facts, AircraftKey, icao24), SourceOf)|
      == |set f | f in facts && f.icao24 == icao24 :: f.source|
  {
    var g := Group(facts, AircraftKey, icao24);
    var sources := set f | f in facts && f.icao24 == icao24 :: f.source;
    forall x | x in sources ensures exists f :: f in g && SourceOf(f) == x {
      var f :| f in facts && f.icao24 == icao24 && f.source == x;
      assert f in g && SourceOf(f) == x;
    }
    KeySet(g, SourceOf, sources);
  }

  /** Its source_count is the number of different sources among its facts. */
  lemma SourcesCounted(pick: seq<Fact> -> Fact, facts: seq<Fact>, d: Aircraft)
    requires d in DimAircraft(pick, facts)
    ensures d.seen.sourceCount == |set f | f in facts && f.icao24 == d.seen.icao24 :: f.source|
  {
    DimIn(pick, facts, d);
    DistinctSources(facts, d.seen.icao24);
  }

  lemma MaxOverMart(pick: seq<Fact> -> Fact, facts: seq<Fact>, icao24: string, v: Fact -> Option<int>,
                    c: Activity -> Option<int>)
    requires forall s, g :: c(ActivityOf(s, g)) == MaxOf(g, v)
    ensures MaxOf(MartActivity(pick, facts), InRows(icao24, c)) == MaxOf(Group(facts, AircraftKey, icao24), v)
  {
    DimensionDoesNotFanOut(pick, facts);
    MaxOfWindows(facts, icao24, v, c);
    MaxSame(MartActivity(pick, facts), Activities(facts), InRows(icao24, c), InSlots(icao24, c));
  }

  /** Its last sighting is the greatest over its hours. */
  lemma LastSightingAgrees(pick: seq<Fact> -> Fact, facts: seq<Fact>, d: Aircraft)
    requires d in DimAircraft(pick, facts)
    ensures d.seen.lastSeenAt == MaxOf(MartActivity(pick, facts), InRows(d.seen.icao24, LastSeen))
  {
    DimIn(pick, facts, d);
    MaxOverMart(pick, facts, d.seen.icao24, LastContact, LastSeen);
  }

  lemma NegateTwice(a: Option<int>)
    ensures Negate(Negate(a)) == a
  {}

  lemma FirstOverMart(pick: seq<Fact> -> Fact, facts: seq<Fact>, icao24: string)
    ensures MaxOf(MartActivity(pick, facts), InRows(icao24, FirstSeenBack))
      == MaxOf(Group(facts, AircraftKey, icao24), BackContact)
  {
    forall s, g ensures FirstSeenBack(ActivityOf(s, g)) == MaxOf(g, BackContact) { NegateTwice(MaxOf(g, BackContact)); }
    MaxOverMart(pick, facts, icao24, BackContact, FirstSeenBack);
  }

  /** Its first sighting is the least over its hours. */
  lemma FirstSightingAgrees(pick: seq<Fact> -> Fact, facts: seq<Fact>, d: Aircraft)
    requires d in DimAircraft(pick, facts)
    ensures d.seen.firstSeenAt == Negate(MaxOf(MartActivity(pick, facts), InRows(d.seen.icao24, FirstSeenBack)))
  {
    DimIn(pick, facts, d);
    FirstOverMart(pick, facts, d.seen.icao24);
  }

  /** m is the greatest value of the rows that have one, and missing if none has. */
  ghost predicate IsGreatest(rows: seq<Fact>, m: Option<int>) {
    && (forall f :: f in rows && f.lastContactAt.Some? ==> m.Some? && f.lastContactAt.value <= m.value)
    && (m.Some? ==> exists f :: f in rows && f.lastContactAt == m)
  }

  ghost predicate IsLeast(rows: seq<Fact>, m: Option<int>) {
    && (forall f :: f in rows && f.lastContactAt.Some? ==> m.Some? && m.value <= f.lastContactAt.value)
    && (m.Some? ==> exists f :: f in rows && f.lastContactAt == m)
  }

  lemma {:induction false} MaxAttained<R>(rows: seq<R>, v: R -> Option<int>)
    ensures MaxOf(rows, v).Some? ==> exists r :: r in rows && v(r) == MaxOf(rows, v)
  {
    if rows != [] {
      MaxAttained(rows[1..], v);
      if r :| r in rows[1..] && v(r) == MaxOf(rows[1..], v) { assert r in rows; }
      assert rows[0] in rows;
    }
  }

  lemma GreatestContact(g: seq<Fact>)
    ensures IsGreatest(g, MaxOf(g, LastContact))
  {
    forall f | f in g ensures AtMost(f.lastContactAt, MaxOf(g, LastContact)) { MaxBounds(g, LastContact, f); }
    MaxAttained(g, LastContact);
  }

  lemma LeastContact(g: seq<Fact>)
    ensures IsLeast(g, Negate(MaxOf(g, BackContact)))
  {
    forall f | f in g ensures AtMost(BackContact(f), MaxOf(g, BackContact)) { MaxBounds(g, BackContact, f); }
    MaxAttained(g, BackContact);
    if f :| f in g && BackContact(f) == MaxOf(g, BackContact) {
      assert MaxOf(g, BackContact).Some? ==> f.lastContactAt == Negate(MaxOf(g, BackContact));
    }
  }

  /** The facts of a slot or of an aircraft bear out its first and last sighting. */
  lemma SightingsAreExtremes(pick: seq<Fact> -> Fact, facts: seq<Fact>, d: Aircraft)
    requires d in DimAircraft(pick, facts)
    ensures var g := Group(facts, AircraftKey, d.seen.icao24);
      IsLeast(g, d.seen.firstSeenAt) && IsGreatest(g, d.seen.lastSeenAt)
  {
    DimIn(pick, facts, d);
    GreatestContact(Group(facts, AircraftKey, d.seen.icao24));
    LeastContact(Group(facts, AircraftKey, d.seen.icao24));
  }

  /** The latest callsign and country are those of a row seen at last_seen_at. */
  lemma LatestIsLastSeen(pick: seq<Fact> -> Fact, facts: seq<Fact>, d: Aircraft)
    requires PicksMostRecent(pick) && d in DimAircraft(pick, facts)
    ensures exists f :: f in facts && f.icao24 == d.seen.icao24 && f.lastContactAt == d.seen.lastSeenAt
                        && f.callsign == d.latestCallsign && f.originCountry == d.latestOriginCountry
  {
    DimIn(pick, facts, d);
    var g := Group(facts, AircraftKey, d.seen.icao24);
    assert MostRecent(g, pick(g));
    MaxBelow(g, LastContact, pick(g).lastContactAt);
    MaxBounds(g, LastContact, pick(g));
    AtMostBoth(MaxOf(g, LastContact), pick(g).lastContactAt);
  }

  // ----- the status columns -----

  function AircraftWith(icao24: string, s: Status): Fact -> bool {
    (f: Fact) => f.icao24 == icao24 && f.status == s
  }

  function HasStatus(s: Status): Fact -> bool {
    (f: Fact) => f.status == s
  }

  lemma StatusCounts(s: Slot, g: seq<Fact>)
    ensures var a := ActivityOf(s, g);
      && a.climbingCount == Count(g, HasStatus(Climbing)) && a.descendingCount == Count(g, HasStatus(Descending))
      && a.levelFlightCount == Count(g, HasStatus(LevelFlight)) && a.onGroundCount == Count(g, HasStatus(OnGround))
  {
    CountSame(g, (f: Fact) => f.status.Climbing?, HasStatus(Climbing));
    CountSame(g, (f: Fact) => f.status.Descending?, HasStatus(Descending));
    CountSame(g, (f: Fact) => f.status.LevelFlight?, HasStatus(LevelFlight));
    CountSame(g, (f: Fact) => f.status.OnGround?, HasStatus(OnGround));
  }

  lemma StatusColumn(pick: seq<Fact> -> Fact, facts: seq<Fact>, icao24: string, c: Activity -> int, s: Status)
    requires forall slot, g :: c(ActivityOf(slot, g)) == Count(g, HasStatus(s))
    ensures SumBy(MartActivity(pick, facts), ForAircraft(icao24, c)) == Count(facts, AircraftWith(icao24, s))
  {
    ActivityColumn(pick, facts, icao24, c, HasStatus(s));
    CountSame(facts, Where(icao24, HasStatus(s)), AircraftWith(icao24, s));
  }

  lemma ClimbingColumn(pick: seq<Fact> -> Fact, facts: seq<Fact>, icao24: string)
    ensures SumBy(MartActivity(pick, facts), ForAircraft(icao24, (a: Activity) => a.climbingCount))
      == Count(facts, AircraftWith(icao24, Climbing))
  {
    var c := (a: Activity) => a.climbingCount;
    forall s, g ensures c(ActivityOf(s, g)) == Count(g, HasStatus(Climbing)) { StatusCounts(s, g); }
    StatusColumn(pick, facts, icao24, c, Climbing);
  }

  lemma DescendingColumn(pick: seq<Fact> -> Fact, facts: seq<Fact>, icao24: string)
    ensures SumBy(MartActivity(pick, facts), ForAircraft(icao24, (a: Activity) => a.descendingCount))
      == Count(facts, AircraftWith(icao24, Descending))
  {
    var c := (a: Activity) => a.descendingCount;
    forall s, g ensures c(ActivityOf(s, g)) == Count(g, HasStatus(Descending)) { StatusCounts(s, g); }
    StatusColumn(pick, facts, icao24, c, Descending);
  }

  lemma LevelColumn(pick: seq<Fact> -> Fact, facts: seq<Fact>, icao24: string)
    ensures SumBy(MartActivity(pick, facts), ForAircraft(icao24, (a: Activity) => a.levelFlightCount))
      == Count(facts, AircraftWith(icao24, LevelFlight))
  {
    var c := (a: Activity) => a.levelFlightCount;
    forall s, g ensures c(ActivityOf(s, g)) == Count(g, HasStatus(LevelFlight)) { StatusCounts(s, g); }
    StatusColumn(pick, facts, icao24, c, LevelFlight);
  }

  lemma GroundColumn(pick: seq<Fact> -> Fact, facts: seq<Fact>, icao24: string)
    ensures SumBy(MartActivity(pick, facts), ForAircraft(icao24, (a: Activity) => a.onGroundCount))
      == Count(facts, AircraftWith(icao24, OnGround))
  {
    var c := (a: Activity) => a.onGroundCount;
    forall s, g ensures c(ActivityOf(s, g)) == Count(g, HasStatus(OnGround)) { StatusCounts(s, g); }
    StatusColumn(pick, facts, icao24, c, OnGround);
  }

  /** Down the mart's rows of one aircraft each status column totals the aircraft's facts
      with that status. */
  lemma StatusColumns(pick: seq<Fact> -> Fact, facts: seq<Fact>, icao24: string)
    ensures var mart := MartActivity(pick, facts);
      && SumBy(mart, ForAircraft(icao24, (a: Activity) => a.climbingCount))
        == Count(facts, (f: Fact) => f.icao24 == icao24 && f.status == Climbing)
      && SumBy(mart, ForAircraft(icao24, (a: Activity) => a.descendingCount))
        == Count(facts, (f: Fact) => f.icao24 == icao24 && f.status == Descending)
      && SumBy(mart, ForAircraft(icao24, (a: Activity) => a.levelFlightCount))
        == Count(facts, (f: Fact) => f.icao24 == icao24 && f.status == LevelFlight)
      && SumBy(mart, ForAircraft(icao24, (a: Activity) => a.onGroundCount))
        == Count(facts, (f: Fact) => f.icao24 == icao24 && f.status == OnGround)
  {
    hide MartActivity;
    ClimbingColumn(pick, facts, icao24);
    DescendingColumn(pick, facts, icao24);
    LevelColumn(pick, facts, icao24);
    GroundColumn(pick, facts, icao24);
    CountSame(facts, AircraftWith(icao24, Climbing), (f: Fact) => f.icao24 == icao24 && f.status == Climbing);
    CountSame(facts, AircraftWith(icao24, Descending), (f: Fact) => f.icao24 == icao24 && f.status == Descending);
    CountSame(facts, AircraftWith(icao24, LevelFlight), (f: Fact) => f.icao24 == icao24 && f.status == LevelFlight);
    CountSame(facts, AircraftWith(icao24, OnGround), (f: Fact) => f.icao24 == icao24 && f.status == OnGround);
  }

  predicate InSlot(f: Fact, s: Slot) {
    f.icao24 == s.icao24 && f.window == s.window
  }

  /** And in each row: its columns are those of the facts of its aircraft and its hour. */
  lemma SlotColumns(pick: seq<Fact> -> Fact, facts: seq<Fact>, i: nat)
    requires i < |MartActivity(pick, facts)|
    ensures var a := MartActivity(pick, facts)[i].activity;
      && a.observationCount == Count(facts, (f: Fact) => InSlot(f, a.slot))
      && a.climbingCount == Count(facts, (f: Fact) => InSlot(f, a.slot) && f.status == Climbing)
      && a.descendingCount == Count(facts, (f: Fact) => InSlot(f, a.slot) && f.status == Descending)
      && a.levelFlightCount == Count(facts, (f: Fact) => InSlot(f, a.slot) && f.status == LevelFlight)
      && a.onGroundCount == Count(facts, (f: Fact) => InSlot(f, a.slot) && f.status == OnGround)
      && IsLeast(Group(facts, SlotKey, a.slot), a.firstSeenAt)
      && IsGreatest(Group(facts, SlotKey, a.slot), a.lastSeenAt)
  {
    DimensionDoesNotFanOut(pick, facts);
    var a := Activities(facts)[i];
    var g := Group(facts, SlotKey, a.slot);
    StatusCounts(a.slot, g);
    CountAll(g, (f: Fact) => true);
    CountInGroup(facts, SlotKey, a.slot, (f: Fact) => true, (f: Fact) => InSlot(f, a.slot));
    CountInGroup(facts, SlotKey, a.slot, HasStatus(Climbing), (f: Fact) => InSlot(f, a.slot) && f.status == Climbing);
    CountInGroup(facts, SlotKey, a.slot, HasStatus(Descending),
                 (f: Fact) => InSlot(f, a.slot) && f.status == Descending);
    CountInGroup(facts, SlotKey, a.slot, HasStatus(LevelFlight),
                 (f: Fact) => InSlot(f, a.slot) && f.status == LevelFlight);
    CountInGroup(facts, SlotKey, a.slot, HasStatus(OnGround), (f: Fact) => InSlot(f, a.slot) && f.status == OnGround);
    GreatestContact(g);
    LeastContact(g);
  }

  function StatusTotal(a: Activity): int {
    a.climbingCount + a.descendingCount + a.levelFlightCount + a.onGroundCount
  }

  predicate Uncounted(f: Fact) {
    f.status.Unknown? || f.status.AirborneUnknownRate?
  }

  lemma {:induction false} StatusesSplit(g: seq<Fact>)
    ensures Count(g, (f: Fact) => f.status.Climbing?) + Count(g, (f: Fact) => f.status.Descending?)
          + Count(g, (f: Fact) => f.status.LevelFlight?) + Count(g, (f: Fact) => f.status.OnGround?)
         == Count(g, (f: Fact) => !Uncounted(f))
  {
    if g != [] { StatusesSplit(g[1..]); }
  }

  /** The four status counts fall short of observation_count by exactly the rows whose
      status the mart has no column for. */
  lemma StatusesAccountForAll(pick: seq<Fact> -> Fact, facts: seq<Fact>, d: Aircraft)
    requires d in DimAircraft(pick, facts)
    ensures d.seen.observationCount ==
      SumBy(MartActivity(pick, facts), ForAircraft(d.seen.icao24, StatusTotal))
      + Count(facts, Where(d.seen.icao24, Uncounted))
  {
    var i := d.seen.icao24;
    var p := (f: Fact) => !Uncounted(f);
    forall s, g ensures StatusTotal(ActivityOf(s, g)) == Count(g, p) { StatusesSplit(g); }
    DimIn(pick, facts, d);
    GroupCount(facts, i);
    ActivityColumn(pick, facts, i, StatusTotal, p);
    CountSplits(facts, Where(i, p), Where(i, Uncounted), (f: Fact) => f.icao24 == i);
  }
}
