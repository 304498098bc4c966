/** Event identity: the strings hashed into `ingestion_id` by the collector
    (collector/normalizer.py) and by fresh-mode replay (replay/player.py).

    `uuid5` (section 5.5 of RFC 9562) is a parameter, assumed injective on the strings
    it is applied to and assumed to print canonical text; what is proved here is about
    the strings. */
module Identity {
  import opened Common
  import opened Ids
  import opened Store
  import opened Telemetry
  import P = Processor

  // ----- decimal text of a timestamp -----

  function DigitChar(d: nat): char
    requires d < 10
  {
    '0' + d as char
  }

  predicate IsDigit(c: char) {
    '0' <= c <= '9'
  }

  function Digits(n: nat): (s: string)
    ensures s != [] && forall i :: 0 <= i < |s| ==> IsDigit(s[i])
  {
    if n < 10 then [DigitChar(n)] else Digits(n / 10) + [DigitChar(n % 10)]
  }

  function IntText(n: int): string {
    if n < 0 then "-" + Digits(-n) else Digits(n)
  }

  /** The number that decimal digits write. */
  function Number(s: string): nat
    requires forall i :: 0 <= i < |s| ==> IsDigit(s[i])
  {
    if s == [] then 0
    else
      assert IsDigit(s[|s| - 1]);
      10 * Number(s[..|s| - 1]) + (s[|s| - 1] as int - '0' as int)
  }

  lemma {:induction false} DigitsRead(n: nat)
    ensures Number(Digits(n)) == n
    ensures Digits(n)[0] == '0' <==> n == 0
  {
    var s := Digits(n);
    if n < 10 {
      assert s[..0] == [];
    } else {
      DigitsRead(n / 10);
      assert s[..|s| - 1] == Digits(n / 10);
    }
  }

  /** The text of a timestamp reads as the timestamp, without leading zeros. */
  lemma IntTextReads(n: int)
    ensures n >= 0 ==> IntText(n) != [] && (forall c :: c in IntText(n) ==> IsDigit(c)) && Number(IntText(n)) == n
    ensures n < 0 ==>
      && |IntText(n)| > 1 && IntText(n)[0] == '-'
      && (forall i :: 1 <= i < |IntText(n)| ==> IsDigit(IntText(n)[i])) && Number(IntText(n)[1..]) == -n
    ensures |IntText(n)| > 1 ==> IntText(n)[if n < 0 then 1 else 0] != '0'
  {
    var d := if n < 0 then -n else n;
    DigitsRead(d);
    if n < 0 { assert IntText(n)[1..] == Digits(d); }
  }

  lemma IntTextInjective(a: int, b: int)
    requires IntText(a) == IntText(b)
    ensures a == b
  {
    IntTextReads(a);
    IntTextReads(b);
  }

  predicate Free(s: string, c: char) {
    c !in s
  }

  lemma IntTextFree(n: int, c: char)
    requires !IsDigit(c) && c != '-'
    ensures Free(IntText(n), c)
  {}

  // ----- splitting at a separator -----

  lemma FirstSplit(a: string, b: string, x: string, y: string, c: char)
    requires Free(a, c) && Free(x, c) && a + [c] + b == x + [c] + y
    ensures a == x && b == y
  {
    var s := a + [c] + b;
    assert s[|a|] == c && s[|x|] == c;
    assert a == s[..|a|] && x == s[..|x|];
    assert forall k :: 0 <= k < |a| ==> s[k] == a[k] && a[k] != c;
    assert forall k :: 0 <= k < |x| ==> s[k] == x[k] && x[k] != c;
    assert |a| == |x|;
    assert b == s[|a| + 1..] && y == s[|x| + 1..];
  }

  lemma NotAfter(s: string, i: nat, rest: string, j: nat, c: char)
    requires i < |s| && rest == s[i + 1..] && Free(rest, c) && j < |s| && s[j] == c
    ensures j <= i
  {
    forall k | i < k < |s| ensures s[k] != c {
      assert s[k] == rest[k - i - 1];
    }
  }

  lemma LastSplit(a: string, b: string, x: string, y: string, c: char)
    requires Free(b, c) && Free(y, c) && a + [c] + b == x + [c] + y
    ensures a == x && b == y
  {
    var s := a + [c] + b;
    assert s[|a|] == c && s[|x|] == c;
    assert b == s[|a| + 1..] && y == s[|x| + 1..];
    NotAfter(s, |a|, b, |x|, c);
    NotAfter(s, |x|, y, |a|, c);
    assert a == s[..|a|] && x == s[..|x|];
  }

  // ----- the encodings -----

  /** The collector's string. */
  function CollectorText(source: string, icao24: string, lastContact: int): string {
    source + ":" + icao24 + ":" + IntText(lastContact)
  }

  /** Fresh-mode replay's string. */
  function FreshText(salt: string, source: string, icao24: string, lastContact: int): string {
    salt + ":" + source + ":" + icao24 + ":" + IntText(lastContact)
  }

  /** The strings, spelled out. */
  lemma IdTextSpelled()
    ensures CollectorText("opensky", "a1b2c3", 42) == "opensky:a1b2c3:42"
    ensures FreshText("s1", "opensky", "a1b2c3", 42) == "s1:opensky:a1b2c3:42"
  {
    assert Digits(42) == Digits(4) + [DigitChar(2)] == "42";
  }

  /** Colon-free sources: the string determines all three fields, whatever icao24 is. */
  lemma CollectorTextInjective(s1: string, i1: string, l1: int, s2: string, i2: string, l2: int)
    requires Free(s1, ':') && Free(s2, ':')
    requires CollectorText(s1, i1, l1) == CollectorText(s2, i2, l2)
    ensures s1 == s2 && i1 == i2 && l1 == l2
  {
    IntTextFree(l1, ':');
    IntTextFree(l2, ':');
    LastSplit(s1 + ":" + i1, IntText(l1), s2 + ":" + i2, IntText(l2), ':');
    FirstSplit(s1, i1, s2, i2, ':');
    IntTextInjective(l1, l2);
  }

  /** A source with a colon can be confused with another source. */
  lemma ColonInSourceCollides(s: string, t: string, i: string, l: int)
    ensures CollectorText(s + ":" + t, i, l) == CollectorText(s, t + ":" + i, l)
  {
    assert s + ":" + t + ":" + i == s + ":" + (t + ":" + i);
  }

  lemma FreshAsCollector(salt: string, s: string, i: string, l: int)
    ensures FreshText(salt, s, i, l) == CollectorText(salt, s + ":" + i, l)
  {
    assert salt + ":" + s + ":" + i == salt + ":" + (s + ":" + i);
  }

  /** Two runs of fresh mode with different salts share no id text. */
  lemma DifferentSaltsDisjoint(salt1: string, s1: string, i1: string, l1: int, salt2: string, s2: string, i2: string,
                               l2: int)
    requires Free(salt1, ':') && Free(salt2, ':') && salt1 != salt2
    ensures FreshText(salt1, s1, i1, l1) != FreshText(salt2, s2, i2, l2)
  {
    FreshAsCollector(salt1, s1, i1, l1);
    FreshAsCollector(salt2, s2, i2, l2);
    if FreshText(salt1, s1, i1, l1) == FreshText(salt2, s2, i2, l2) {
      CollectorTextInjective(salt1, s1 + ":" + i1, l1, salt2, s2 + ":" + i2, l2);
    }
  }

  /** Within one run the fresh string determines the event's fields. */
  lemma FreshTextInjective(salt: string, s1: string, i1: string, l1: int, s2: string, i2: string, l2: int)
    requires Free(salt, ':') && Free(s1, ':') && Free(s2, ':')
    requires FreshText(salt, s1, i1, l1) == FreshText(salt, s2, i2, l2)
    ensures s1 == s2 && i1 == i2 && l1 == l2
  {
    FreshAsCollector(salt, s1, i1, l1);
    FreshAsCollector(salt, s2, i2, l2);
    CollectorTextInjective(salt, s1 + ":" + i1, l1, salt, s2 + ":" + i2, l2);
    FirstSplit(s1, i1, s2, i2, ':');
  }

  /** A fresh string is a collector string exactly when the salt is that source and the
      collector's icao24 spells the event's source and icao24. */
  lemma FreshMeetsCollectorIff(salt: string, s: string, i: string, l: int, source: string, icao24: string, lc: int)
    requires Free(salt, ':') && Free(source, ':')
    ensures FreshText(salt, s, i, l) == CollectorText(source, icao24, lc) <==>
      salt == source && icao24 == s + ":" + i && l == lc
  {
    FreshAsCollector(salt, s, i, l);
    if FreshText(salt, s, i, l) == CollectorText(source, icao24, lc) {
      CollectorTextInjective(salt, s + ":" + i, l, source, icao24, lc);
    }
  }

  // ----- ids -----

  ghost predicate Injective(uuid5: string -> string) {
    forall a, b :: uuid5(a) == uuid5(b) ==> a == b
  }

  /** `_compute_ingestion_id`; uuid4 stands for the random id drawn. */
  function ComputeIngestionId(uuid5: string -> string, uuid4: string, source: string, icao24: string,
                              lastContact: Option<int>): string {
    match lastContact
    case None => uuid4
    case Some(l) => uuid5(CollectorText(source, icao24, l))
  }

  /** `_fresh_ingestion_id` */
  function FreshIngestionId(uuid5: string -> string, uuid4: string, source: string, icao24: string,
                            lastContact: Option<int>, salt: string): string {
    match lastContact
    case None => uuid4
    case Some(l) => uuid5(FreshText(salt, source, icao24, l))
  }

  /** The event was given its id by the collector. */
  ghost predicate CollectorId(uuid5: string -> string, e: TelemetryEvent) {
    e.lastContact.Some? && e.ingestionId == uuid5(CollectorText(e.source, e.icao24, e.lastContact.value))
  }

  /** Equal ids if and only if equal observations. */
  lemma CollectorIdIff(uuid5: string -> string, d: TelemetryEvent, e: TelemetryEvent)
    requires Injective(uuid5) && CollectorId(uuid5, d) && CollectorId(uuid5, e)
    requires Free(d.source, ':') && Free(e.source, ':')
    ensures d.ingestionId == e.ingestionId <==> P.IdentityOf(d) == P.IdentityOf(e)
  {
    if d.ingestionId == e.ingestionId {
      CollectorTextInjective(d.source, d.icao24, d.lastContact.value, e.source, e.icao24, e.lastContact.value);
    }
  }

  /** So for a batch the collector made, every `last_contact` present, dedupe and sort
      leave no trace in any store. */
  lemma CollectorBatchDedupes(uuid5: string -> string, t: Table, events: seq<TelemetryEvent>)
    requires forall e :: e in events ==> CollectorId(uuid5, e) && Canonical(e.ingestionId)
    ensures InsertAll(t, P.BatchRows(events)) == InsertAll(t, EventRows(P.Normalize(events)))
    ensures Growth(t, P.BatchRows(events)) == Growth(t, EventRows(P.Normalize(events)))
  {
    P.CanonicalIsLeast(events);
    P.DedupeInvisible(t, events);
  }

  // ----- normalize_batch -----

  /** One entry of OpenSky's `states`: an empty array, or its first seventeen fields
      (those used). */
  datatype StateVector = EmptyVector | StateVector(
    icao24: Option<string>,
    callsign: Option<string>,
    originCountry: Option<string>,
    timePosition: Option<int>,
    lastContact: Option<int>,
    longitude: Option<real>,
    latitude: Option<real>,
    baroAltitude: Option<real>,
    onGround: Option<bool>,
    velocity: Option<real>,
    trueTrack: Option<real>,
    verticalRate: Option<real>,
    geoAltitude: Option<real>)

  /** Entries without an icao24, or with an empty one, are skipped. */
  predicate Usable(s: StateVector) {
    s.StateVector? && s.icao24.Some? && s.icao24.value != ""
  }

  predicate Whitespace(c: char) {
    c == ' ' || c == '\t' || c == '\n' || c == '\r'
  }

  /** s without the characters to drop at either end. */
  function Strip(s: string, drop: char -> bool): string
    decreases |s|
  {
    if s != [] && drop(s[0]) then Strip(s[1..], drop)
    else if s != [] && drop(s[|s| - 1]) then Strip(s[..|s| - 1], drop)
    else s
  }

  function CleanCallsign(raw: Option<string>): Option<string> {
    if raw.None? || raw.value == "" then None else Some(Strip(raw.value, Whitespace))
  }

  /** What is left of s, and where: nothing but characters to drop is cut off, and none is
      left at either end. */
  lemma {:induction false} StripMeaning(s: string, drop: char -> bool) returns (i: nat, j: nat)
    ensures i <= j <= |s| && Strip(s, drop) == s[i..j]
    ensures forall k :: 0 <= k < |s| && !(i <= k < j) ==> drop(s[k])
    ensures i < j ==> !drop(s[i]) && !drop(s[j - 1])
    decreases |s|
  {
    if s != [] && drop(s[0]) {
      var rest := s[1..];
      i, j := StripMeaning(rest, drop);
      i, j := i + 1, j + 1;
      forall k | 0 < k < |s| ensures s[k] == rest[k - 1] {}
    } else if s != [] && drop(s[|s| - 1]) {
      i, j := StripMeaning(s[..|s| - 1], drop);
    } else {
      i, j := 0, |s|;
    }
  }

  function NormalizeStateVector(uuid5: string -> string, uuid4: string, s: StateVector, now: string,
                                collectorId: string): TelemetryEvent
    requires Usable(s)
  {
    TelemetryEvent("opensky", s.icao24.value, CleanCallsign(s.callsign), s.originCountry, s.timePosition, s.lastContact,
                   s.longitude, s.latitude, s.baroAltitude, s.geoAltitude, s.velocity, s.trueTrack, s.verticalRate,
                   s.onGround, now, ComputeIngestionId(uuid5, uuid4, "opensky", s.icao24.value, s.lastContact),
                     Some(collectorId))
  }

  function UsableIndices(states: seq<StateVector>): seq<nat> {
    if states == [] then []
    else
      var last := |states| - 1;
      UsableIndices(states[..last]) + (if Usable(states[last]) then [last] else [])
  }

  lemma {:induction false} UsableIndicesMeaning(states: seq<StateVector>)
    ensures var ix := UsableIndices(states);
      && (forall i :: i in ix <==>
            0 <= i < |states| && states[i].StateVector? && states[i].icao24.Some? && states[i].icao24.value != "")
      && (forall k, m :: 0 <= k < m < |ix| ==> ix[k] < ix[m])
  {
    if states != [] {
      var last := |states| - 1;
      UsableIndicesMeaning(states[..last]);
      var ix := UsableIndices(states[..last]);
      forall k | 0 <= k < |ix| ensures ix[k] < last { assert ix[k] in ix; }
      forall i ensures i in UsableIndices(states) <==> 0 <= i < |states| && Usable(states[i]) {
        assert i in UsableIndices(states) <==> i in ix || (i == last && Usable(states[last]));
      }
    }
  }

  /** e is the event of entry s, field by field; the id is the hash of the observation, or the
      random one drawn if the entry has no last_contact. */
  predicate EventOf(uuid5: string -> string, uuid4: string, s: StateVector, now: string, collectorId: string,
                    e: TelemetryEvent) {
    && s.StateVector? && s.icao24 == Some(e.icao24) && e.icao24 != ""
    && e.source == "opensky" && e.ingestedAt == now && e.collectorId == Some(collectorId)
    && (s.callsign.None? || s.callsign.value == "" ==> e.callsign == None)
    && (s.callsign.Some? && s.callsign.value != "" ==> e.callsign == Some(Strip(s.callsign.value, Whitespace)))
    && e.originCountry == s.originCountry && e.timePosition == s.timePosition && e.lastContact == s.lastContact
    && e.longitude == s.longitude && e.latitude == s.latitude
    && e.baroAltitudeM == s.baroAltitude && e.geoAltitudeM == s.geoAltitude
    && e.velocityMps == s.velocity && e.trueTrackDeg == s.trueTrack && e.verticalRateMps == s.verticalRate
    && e.onGround == s.onGround
    && (e.lastContact.None? ==> e.ingestionId == uuid4)
    && (e.lastContact.Some? ==> e.ingestionId == uuid5(CollectorText("opensky", e.icao24, e.lastContact.value)))
  }

  /** One event per usable entry, in order, with the entry's values and the collector's id for
      its own observation; uuid4(i) is the random id entry i would draw. */
  method NormalizeBatch(uuid5: string -> string, uuid4: nat -> string, states: seq<StateVector>, now: string,
                        collectorId: string)
    returns (events: seq<TelemetryEvent>)
    ensures |events| == |UsableIndices(states)|
    ensures forall k :: 0 <= k < |events| ==>
      var i := UsableIndices(states)[k];
      i < |states| && EventOf(uuid5, uuid4(i), states[i], now, collectorId, events[k])
    ensures forall e ::
      e in events && e.lastContact.Some? ==> CollectorId(uuid5, e) && e.source == "opensky" && e.icao24 != ""
  {
    events := [];
    for n := 0 to |states|
      invariant |events| == |UsableIndices(states[..n])|
      invariant forall k :: 0 <= k < |events| ==>
        var i := UsableIndices(states[..n])[k];
        i < n && EventOf(uuid5, uuid4(i), states[i], now, collectorId, events[k])
    {
      assert states[..n + 1][..n] == states[..n];
      if Usable(states[n]) {
        events := events + [NormalizeStateVector(uuid5, uuid4(n), states[n], now, collectorId)];
      }
    }
    assert states[..|states|] == states;
  }
}
