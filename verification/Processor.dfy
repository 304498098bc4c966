/** The work done on one batch before it reaches the store (worker/processor.py). */
module Processor {
  import opened Common
  import opened Ids
  import opened Telemetry
  import opened Store

  /** `_normalize_event`: an absent on_ground flag is filled in from the altitude. */
  function NormalizeEvent(e: TelemetryEvent): TelemetryEvent {
    if e.onGround.None? && e.baroAltitudeM.Some? then
      e.(onGround := Some(e.baroAltitudeM.value <= 0.0))
    else
      e
  }

  function Normalize(events: seq<TelemetryEvent>): (r: seq<TelemetryEvent>)
    ensures |r| == |events|
    ensures forall i :: 0 <= i < |r| ==> r[i] == NormalizeEvent(events[i])
  {
    seq(|events|, i requires 0 <= i < |events| => NormalizeEvent(events[i]))
  }

  /** The tuple `_dedupe_events` compares. */
  type Identity = (string, Option<int>, string)

  function IdentityOf(e: TelemetryEvent): Identity {
    (e.icao24, e.lastContact, e.source)
  }

  ghost predicate Seen(earlier: seq<TelemetryEvent>, e: TelemetryEvent) {
    exists d :: d in earlier && IdentityOf(d) == IdentityOf(e)
  }

  /** The first occurrence of every identity, in batch order. */
  ghost function Dedupe(events: seq<TelemetryEvent>): seq<TelemetryEvent> {
    if events == [] then []
    else
      var front, last := events[..|events| - 1], events[|events| - 1];
      if Seen(front, last) then Dedupe(front) else Dedupe(front) + [last]
  }

  function Identities(events: seq<TelemetryEvent>): set<Identity> {
    set d | d in events :: IdentityOf(d)
  }

  lemma IdentitiesPush(events: seq<TelemetryEvent>, e: TelemetryEvent)
    ensures Identities(events + [e]) == Identities(events) + {IdentityOf(e)}
    ensures Seen(events, e) <==> IdentityOf(e) in Identities(events)
  {
    assert e in events + [e];
    forall d | d in events ensures IdentityOf(d) in Identities(events + [e]) { assert d in events + [e]; }
  }

  method DedupeEvents(events: seq<TelemetryEvent>) returns (deduped: seq<TelemetryEvent>)
    ensures deduped == Dedupe(events)
  {
    var seen: set<Identity> := {};
    deduped := [];
    var i := 0;
    while i < |events|
      invariant 0 <= i <= |events|
      invariant seen == Identities(events[..i])
      invariant deduped == Dedupe(events[..i])
    {
      hide Dedupe, Seen, Identities;
      var key := IdentityOf(events[i]);
      assert events[..i + 1] == events[..i] + [events[i]];
      IdentitiesPush(events[..i], events[i]);
      DedupePush(events[..i], events[i]);
      if key !in seen {
        deduped := deduped + [events[i]];
      }
      seen := seen + {key};
      i := i + 1;
    }
    assert events[..i] == events;
  }

  lemma DedupePush(front: seq<TelemetryEvent>, last: TelemetryEvent)
    ensures Dedupe(front + [last]) == Dedupe(front) + (if Seen(front, last) then [] else [last])
  {
    assert (front + [last])[..|front|] == front;
  }

  ghost predicate DistinctIdentities(events: seq<TelemetryEvent>) {
    forall i, j :: 0 <= i < j < |events| ==> IdentityOf(events[i]) != IdentityOf(events[j])
  }

  lemma {:induction false} DedupeSubset(events: seq<TelemetryEvent>)
    ensures forall d :: d in Dedupe(events) ==> d in events
  {
    if events != [] {
      DedupeSubset(events[..|events| - 1]);
    }
  }

  /** No identity survives twice. */
  lemma {:induction false} DedupeDistinct(events: seq<TelemetryEvent>)
    ensures DistinctIdentities(Dedupe(events))
  {
    if events != [] {
      var front, last := events[..|events| - 1], events[|events| - 1];
      DedupeDistinct(front);
      DedupeSubset(front);
      var kept := Dedupe(front);
      if !Seen(front, last) {
        forall i | 0 <= i < |kept| ensures IdentityOf(kept[i]) != IdentityOf(last) {
          assert kept[i] in kept;
        }
      }
    }
  }

  /** No identity is lost. */
  lemma {:induction false} DedupeCovers(events: seq<TelemetryEvent>, e: TelemetryEvent)
    requires e in events
    ensures Seen(Dedupe(events), e)
  {
    var front, last := events[..|events| - 1], events[|events| - 1];
    assert events == front + [last];
    if e in front {
      DedupeCovers(front, e);
      var d :| d in Dedupe(front) && IdentityOf(d) == IdentityOf(e);
      assert d in Dedupe(events);
    } else if Seen(front, last) {
      var f :| f in front && IdentityOf(f) == IdentityOf(last);
      DedupeCovers(front, f);
      var d :| d in Dedupe(front) && IdentityOf(d) == IdentityOf(f);
      assert d in Dedupe(events);
    } else {
      assert last in Dedupe(events);
    }
  }

  // ----- dedupe and the store -----

  ghost predicate KeySeen(events: seq<TelemetryEvent>, k: string) {
    exists e :: e in events && Key(e.ingestionId) == k
  }

  /** Every dropped event has the UUID of an earlier event of the batch. */
  ghost predicate DroppedKeysSeen(events: seq<TelemetryEvent>) {
    forall j :: 0 <= j < |events| && Seen(events[..j], events[j]) ==> KeySeen(events[..j], Key(events[j].ingestionId))
  }

  predicate CanonicalIds(events: seq<TelemetryEvent>) {
    forall e :: e in events ==> Canonical(e.ingestionId)
  }

  /** The first event with UUID k. */
  ghost function FirstEvent(events: seq<TelemetryEvent>, k: string): Option<TelemetryEvent> {
    if events == [] then None
    else if Key(events[0].ingestionId) == k then Some(events[0])
    else FirstEvent(events[1..], k)
  }

  lemma {:induction false} FirstEventPush(front: seq<TelemetryEvent>, last: TelemetryEvent, k: string)
    ensures FirstEvent(front, k).Some? <==> KeySeen(front, k)
    ensures FirstEvent(front + [last], k) ==
      if FirstEvent(front, k).Some? then FirstEvent(front, k)
      else if Key(last.ingestionId) == k then Some(last) else None
  {
    if front != [] {
      assert (front + [last])[1..] == front[1..] + [last];
      assert front == [front[0]] + front[1..];
      FirstEventPush(front[1..], last, k);
    } else {
      assert (front + [last])[1..] == [];
    }
  }

  lemma {:induction false} FirstEventAt(events: seq<TelemetryEvent>, j: nat)
    requires j < |events| && !KeySeen(events[..j], Key(events[j].ingestionId))
    ensures FirstEvent(events, Key(events[j].ingestionId)) == Some(events[j])
  {
    if j > 0 {
      assert events[..j][0] in events[..j];
      var rest := events[1..];
      forall e | e in rest[..j - 1] ensures e in events[..j] {
        var i :| 0 <= i < j - 1 && rest[i] == e;
        assert events[..j][i + 1] == e;
      }
      FirstEventAt(rest, j - 1);
    }
  }

  /** The row stored for k is made from the first event with UUID k. */
  lemma {:induction false} FirstRowIsFirstEvent(events: seq<TelemetryEvent>, k: string)
    ensures FirstRow(EventRows(events), k) ==
      match FirstEvent(events, k) case None => None case Some(e) => Some(EventToRow(e))
  {
    if events != [] {
      assert EventRows(events)[1..] == EventRows(events[1..]);
      FirstRowIsFirstEvent(events[1..], k);
    }
  }

  lemma PrefixDropped(events: seq<TelemetryEvent>)
    requires events != [] && DroppedKeysSeen(events)
    ensures DroppedKeysSeen(events[..|events| - 1])
  {
    var front := events[..|events| - 1];
    forall j | 0 <= j < |front| && Seen(front[..j], front[j])
      ensures KeySeen(front[..j], Key(front[j].ingestionId))
    {
      assert front[..j] == events[..j];
    }
  }

  /** Dedupe keeps the first event of each UUID, if the UUIDs of dropped events were seen
      before. */
  lemma {:induction false} DedupeKeepsFirsts(events: seq<TelemetryEvent>, k: string)
    requires DroppedKeysSeen(events)
    ensures FirstEvent(Dedupe(events), k) == FirstEvent(events, k)
  {
    if events != [] {
      var front, last := events[..|events| - 1], events[|events| - 1];
      assert events == front + [last];
      PrefixDropped(events);
      DedupeKeepsFirsts(front, k);
      FirstEventPush(front, last, k);
      FirstEventPush(Dedupe(front), last, k);
    }
  }

  /** A dropped event is not among those kept when its UUID is new, even as a value. */
  lemma {:induction false} DroppedNotKept(n: seq<TelemetryEvent>, j: nat)
    requires j < |n| && Seen(n[..j], n[j]) && !KeySeen(n[..j], Key(n[j].ingestionId))
    ensures n[j] !in Dedupe(n)
  {
    var front, last := n[..|n| - 1], n[|n| - 1];
    if j == |n| - 1 {
      DedupeSubset(front);
      assert front == n[..j];
    } else {
      assert front[..j] == n[..j] && front[j] == n[j];
      DroppedNotKept(front, j);
      if !Seen(front, last) {
        assert front[j] in front;
      }
    }
  }

  /** The rows persist_batch inserts for a received batch. */
  ghost function BatchRows(events: seq<TelemetryEvent>): seq<Row> {
    SortRows(EventRows(Dedupe(Normalize(events))))
  }

  ghost predicate DedupeInvisibleIn(t: Table, events: seq<TelemetryEvent>) {
    InsertAll(t, BatchRows(events)) == InsertAll(t, EventRows(Normalize(events)))
  }

  /** An event dropped with a new UUID: the store would have held its row. */
  lemma DroppedRowDiffers(n: seq<TelemetryEvent>, j: nat)
    requires j < |n| && Seen(n[..j], n[j]) && !KeySeen(n[..j], Key(n[j].ingestionId))
    ensures FirstRow(SortRows(EventRows(Dedupe(n))), Key(n[j].ingestionId)) != FirstRow(EventRows(n),
      Key(n[j].ingestionId))
  {
    var k, rows := Key(n[j].ingestionId), EventRows(Dedupe(n));
    FirstEventAt(n, j);
    FirstRowIsFirstEvent(n, k);
    DroppedNotKept(n, j);
    var w := WithKey(SortRows(rows), k);
    if w != [] {
      WithKeyMembers(SortRows(rows), k);
      SortRowsSorts(rows);
      assert w[0] in w && w[0] in rows;
      var i :| 0 <= i < |rows| && rows[i] == w[0];
      assert Dedupe(n)[i] in Dedupe(n);
    }
  }

  lemma SortedKeptFirsts(n: seq<TelemetryEvent>)
    requires DroppedKeysSeen(n)
    ensures SameFirsts(SortRows(EventRows(Dedupe(n))), EventRows(n)) <==> FirstSpellingLeast(EventRows(Dedupe(n)))
  {
    var kept := EventRows(Dedupe(n));
    forall k ensures FirstRow(kept, k) == FirstRow(EventRows(n), k) {
      DedupeKeepsFirsts(n, k);
      FirstRowIsFirstEvent(n, k);
      FirstRowIsFirstEvent(Dedupe(n), k);
    }
    forall k
      ensures FirstRow(SortRows(kept), k) == FirstRow(EventRows(n), k) <==> FirstLeast(WithKey(kept, k))
    {
      SortKeepsFirstRow(kept, k);
    }
    if !FirstSpellingLeast(kept) {
      var k :| !FirstLeast(WithKey(kept, k));
      assert FirstRow(SortRows(kept), k) != FirstRow(EventRows(n), k);
    }
  }

  lemma InvisibleIffSameFirsts(events: seq<TelemetryEvent>)
    ensures (forall t: Table :: DedupeInvisibleIn(t, events)) <==>
      SameFirsts(BatchRows(events), EventRows(Normalize(events)))
  {
    var a, b := BatchRows(events), EventRows(Normalize(events));
    if SameFirsts(a, b) {
      forall t: Table ensures DedupeInvisibleIn(t, events) { SameFirstsInsert(t, a, b); }
    } else {
      var k :| FirstRow(a, k) != FirstRow(b, k);
      FirstRowOfEmpty(a, k);
      FirstRowOfEmpty(b, k);
      assert !DedupeInvisibleIn(map[], events);
    }
  }

  /** Dedupe and sort are invisible in every store, for any ids whatever, if and only if
      each dropped event repeats the UUID of an earlier one and, among the events kept,
      each UUID's first spelling is its least. */
  lemma DedupeInvisibleIff(events: seq<TelemetryEvent>)
    ensures DroppedKeysSeen(Normalize(events)) && FirstSpellingLeast(EventRows(Dedupe(Normalize(events)))) <==>
      forall t: Table :: DedupeInvisibleIn(t, events)
  {
    var n := Normalize(events);
    InvisibleIffSameFirsts(events);
    if DroppedKeysSeen(n) {
      SortedKeptFirsts(n);
    } else {
      var j :| 0 <= j < |n| && Seen(n[..j], n[j]) && !KeySeen(n[..j], Key(n[j].ingestionId));
      DroppedRowDiffers(n, j);
    }
  }

  /** The hypothesis the collector meets: the id is a function of the identity. */
  ghost predicate IdentityGivesId(events: seq<TelemetryEvent>) {
    forall d, e :: d in events && e in events && IdentityOf(d) == IdentityOf(e) ==> d.ingestionId == e.ingestionId
  }

  lemma IdentityGivesSeen(events: seq<TelemetryEvent>)
    requires IdentityGivesId(events)
    ensures DroppedKeysSeen(Normalize(events))
  {
    var n := Normalize(events);
    forall j | 0 <= j < |n| && Seen(n[..j], n[j]) ensures KeySeen(n[..j], Key(n[j].ingestionId)) {
      var i := SeenAt(n[..j], n[j]);
      assert events[i] in events && events[j] in events;
      assert n[..j][i] == n[i] && n[i] in n[..j];
    }
  }

  lemma SeenAt(before: seq<TelemetryEvent>, e: TelemetryEvent) returns (i: nat)
    requires Seen(before, e)
    ensures i < |before| && IdentityOf(before[i]) == IdentityOf(e)
  {
    var d :| d in before && IdentityOf(d) == IdentityOf(e);
    i :| 0 <= i < |before| && before[i] == d;
  }

  lemma CanonicalIsLeast(events: seq<TelemetryEvent>)
    requires CanonicalIds(events)
    ensures FirstSpellingLeast(EventRows(Dedupe(Normalize(events))))
  {
    var n := Normalize(events);
    var rows := EventRows(Dedupe(n));
    DedupeSubset(n);
    forall r | r in rows ensures Key(r.id) == r.id {
      var i :| 0 <= i < |rows| && rows[i] == r;
      assert Dedupe(n)[i] in Dedupe(n);
      var j :| 0 <= j < |n| && n[j] == Dedupe(n)[i];
      assert events[j] in events;
    }
    OneSpellingIsLeast(rows);
  }

  /** Under it, dedupe + sort + insert give the map and the count of inserting the raw
      normalized batch row by row. */
  lemma DedupeInvisible(t: Table, events: seq<TelemetryEvent>)
    requires IdentityGivesId(events) && FirstSpellingLeast(EventRows(Dedupe(Normalize(events))))
    ensures InsertAll(t, BatchRows(events)) == InsertAll(t, EventRows(Normalize(events)))
    ensures Growth(t, BatchRows(events)) == Growth(t, EventRows(Normalize(events)))
  {
    IdentityGivesSeen(events);
    DedupeInvisibleIff(events);
    assert DedupeInvisibleIn(t, events);
  }

  /** Where it fails: two events without last_contact carry distinct random ids, but
      dedupe takes them for one observation and a row is lost. */
  lemma RepeatedIdentityLosesRow(a: TelemetryEvent, b: TelemetryEvent)
    requires Key(a.ingestionId) != Key(b.ingestionId)
    requires IdentityOf(a) == IdentityOf(b) && a.lastContact.None?
    ensures Growth(map[], BatchRows([a, b])) == 1
    ensures Growth(map[], EventRows(Normalize([a, b]))) == 2
  {
    var x, y := NormalizeEvent(a), NormalizeEvent(b);
    var n := Normalize([a, b]);
    var rx, ry := EventToRow(x), EventToRow(y);
    assert n == [x] + [y] && EventRows([x]) == [rx] && EventRows(n) == [rx] + [ry];
    DedupeOfPair(x, y);
    SortedOne(rx);
    InsertOne(map[], rx);
    InsertOne(map[Key(rx.id) := rx], ry);
    InsertAllAppend(map[], [rx], [ry]);
  }

  lemma DedupeOfPair(x: TelemetryEvent, y: TelemetryEvent)
    requires IdentityOf(x) == IdentityOf(y)
    ensures Dedupe([x] + [y]) == [x]
  {
    DedupePush([x], y);
    DedupePush([], x);
    assert [] + [x] == [x] && x in [x];
  }

  lemma SortedOne(r: Row)
    ensures SortRows([r]) == [r]
  {
    assert [r][1..] == [];
  }

  lemma InsertOne(t: Table, r: Row)
    ensures InsertAll(t, [r]) == InsertRow(t, r)
  {
    assert [r][1..] == [];
  }

  // ----- the job function -----

  /** A job's argument: a payload that fails schema validation, or its events. */
  datatype Payload = Invalid | Valid(events: seq<TelemetryEvent>)

  /** How one attempt ends. `Retry` is arq's exception with its delay in seconds; `Failed`
      is an exception the function does not catch. */
  datatype AttemptResult = DeadLettered | Completed(accepted: nat, newlyInserted: int) | Retry(defer: nat) | Failed

  function Pow2(n: nat): nat {
    if n == 0 then 1 else 2 * Pow2(n - 1)
  }

  /** RETRY_BACKOFF_BASE_SECONDS = 2 doubled per attempt, capped at
      RETRY_BACKOFF_MAX_SECONDS = 60. */
  function ComputeBackoffSeconds(attempt: int): nat {
    var delay := 2 * Pow2(if attempt - 1 > 0 then attempt - 1 else 0);
    if delay <= 60 then delay else 60
  }

  /** n is e with the ground flag filled in: a flag that is there is kept; one that is not
      follows from the altitude, or stays absent without one. Nothing else changes. */
  predicate FlagFilled(e: TelemetryEvent, n: TelemetryEvent) {
    && n == e.(onGround := n.onGround)
    && (e.onGround.Some? ==> n.onGround == e.onGround)
    && (e.onGround.None? && e.baroAltitudeM.None? ==> n.onGround == None)
    && (e.onGround.None? && e.baroAltitudeM.Some? && e.baroAltitudeM.value <= 0.0 ==> n.onGround == Some(true))
    && (e.onGround.None? && e.baroAltitudeM.Some? && e.baroAltitudeM.value > 0.0 ==> n.onGround == Some(false))
  }

  lemma NormalizedFlag(e: TelemetryEvent)
    ensures FlagFilled(e, NormalizeEvent(e))
  {}

  method NormalizeEvents(events: seq<TelemetryEvent>) returns (normalized: seq<TelemetryEvent>)
    ensures normalized == Normalize(events)
    ensures |normalized| == |events| && forall i :: 0 <= i < |events| ==> FlagFilled(events[i], normalized[i])
  {
    normalized := [];
    for i := 0 to |events|
      invariant normalized == Normalize(events[..i])
    {
      var e := events[i];
      if e.onGround.None? && e.baroAltitudeM.Some? {
        e := e.(onGround := Some(e.baroAltitudeM.value <= 0.0));
      }
      normalized := normalized + [e];
    }
    assert events[..|events|] == events;
    forall i | 0 <= i < |events| ensures FlagFilled(events[i], normalized[i]) { NormalizedFlag(events[i]); }
  }

  /** The delays: 2 seconds doubled per attempt, 60 at most. */
  lemma BackoffValues(attempt: int)
    ensures ComputeBackoffSeconds(attempt) ==
      if attempt <= 1 then 2 else if attempt == 2 then 4 else if attempt == 3 then 8 else if attempt == 4 then 16
      else if attempt == 5 then 32 else 60
  {
    if attempt > 5 { Pow2AtLeast(attempt - 1); }
  }

  lemma {:induction false} Pow2AtLeast(n: nat)
    requires n >= 5
    ensures Pow2(n) >= 32
  {
    if n > 5 { Pow2AtLeast(n - 1); }
  }

  /** A row stored for event e of the payload: its columns, and e itself with the flag
      filled in. */
  predicate RowOf(e: TelemetryEvent, r: Row) {
    && r.id == e.ingestionId && r.source == e.source && r.icao24 == e.icao24
    && r.collectorId == e.collectorId && r.ingestedAt == e.ingestedAt && FlagFilled(e, r.payload)
  }

  /** What PersistBatch says of the deduplicated batch, said of the payload. */
  lemma StoredFromPayload(before: Table, after: Table, events: seq<TelemetryEvent>, k: string)
    requires k in after
    requires exists n ::
      && n in Dedupe(Normalize(events)) && Key(n.ingestionId) == k
      && after[k].id == n.ingestionId && after[k].source == n.source && after[k].icao24 == n.icao24
      && after[k].collectorId == n.collectorId && after[k].ingestedAt == n.ingestedAt && after[k].payload == n
    ensures exists e :: e in events && Key(e.ingestionId) == k && RowOf(e, after[k])
  {
    var normalized := Normalize(events);
    var n :| n in Dedupe(normalized) && Key(n.ingestionId) == k
             && after[k].id == n.ingestionId && after[k].source == n.source && after[k].icao24 == n.icao24
             && after[k].collectorId == n.collectorId && after[k].ingestedAt == n.ingestedAt && after[k].payload == n;
    DedupeSubset(normalized);
    var i :| 0 <= i < |normalized| && normalized[i] == n;
    NormalizedFlag(events[i]);
    assert events[i] in events && RowOf(events[i], after[k]);
  }

  /** One attempt at a job. A completed attempt has stored the whole batch and reports
      the growth of the table; every other attempt leaves the table as it was, or whole
      batch included when the commit was not acknowledged; only an invalid payload is
      dead-lettered. */
  method ProcessTelemetryBatch(db: RawTelemetry, payload: Payload, attempt: int, fault: Fault)
    returns (r: AttemptResult)
    modifies db
    ensures r.DeadLettered? <==> payload.Invalid?
    ensures payload.Invalid? ==> db.committed == old(db.committed)
    ensures r.Completed? ==>
      && payload.Valid?
      && db.committed == InsertAll(old(db.committed), BatchRows(payload.events))
      && r.newlyInserted == |db.committed| - |old(db.committed)|
      && r.accepted == |Dedupe(Normalize(payload.events))|
    ensures payload.Valid? && !r.Completed? ==>
      || db.committed == old(db.committed)
      || (fault.CommitUnacknowledged? && db.committed == InsertAll(old(db.committed), BatchRows(payload.events)))
    ensures r.Failed? ==>
      && payload.Valid?
      && db.committed == old(db.committed)
      && (!WellFormed(EventRows(Dedupe(Normalize(payload.events)))) || fault.StatementRefused?)
    ensures r.Retry? ==> payload.Valid? && !fault.NoFault? && !fault.StatementRefused?
    ensures r.Retry? ==> r.defer == ComputeBackoffSeconds(attempt)
    ensures forall k :: k in old(db.committed) ==> k in db.committed && db.committed[k] == old(db.committed)[k]
    ensures forall k :: k in db.committed && k !in old(db.committed) ==>
      payload.Valid? && exists e :: e in payload.events && Key(e.ingestionId) == k && RowOf(e, db.committed[k])
    ensures payload.Valid? && fault.NoFault? && WellFormed(EventRows(Dedupe(Normalize(payload.events)))) ==>
      r.Completed?
  {
    match payload
    case Invalid =>
      return DeadLettered;
    case Valid(events) =>
      var normalized := NormalizeEvents(events);
      var deduped := DedupeEvents(normalized);
      ghost var before := db.committed;
      var persisted := db.PersistBatch(deduped, fault);
      forall k | k in db.committed && k !in before
        ensures exists e :: e in events && Key(e.ingestionId) == k && RowOf(e, db.committed[k])
      {
        StoredFromPayload(before, db.committed, events, k);
      }
      match persisted
      case Raised(PersistenceUnavailable) => r := Retry(ComputeBackoffSeconds(attempt));
      case Raised(DataError) => r := Failed;
      case Inserted(n) => r := Completed(|deduped|, n);
  }
}
