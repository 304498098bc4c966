/** mart_telemetry_quality: three aggregates per (date, hour) window, combined by a full
    outer join and a left join in which null windows meet nothing. */
module QualityMart {
  import opened Common
  import opened Relational
  import opened Ids
  import opened Store
  import opened Facts
  import opened Telemetry
  import D = Delivery
  import P = Processor
  import T = Transactions

  datatype FactQuality = FactQuality(window: Window, totalObservations: int, missingCallsign: int,
                                     missingOriginCountry: int, missingPosition: int,
                                     invalidLatitude: int, invalidLongitude: int, invalidVelocity: int)

  datatype DuplicateCheck = DuplicateCheck(window: Window, rowCount: int, distinctObservations: int)

  /** A row of extraction_log; extraction_started_at and success are not null. */
  datatype Extraction = Extraction(startedAt: int, success: bool, recordCount: Option<int>)

  datatype ExtractionQuality = ExtractionQuality(window: Window, cycles: int, failedCycles: int,
    reportedRecords: Option<int>)

  datatype QualityRow = QualityRow(window: Window, facts: Option<FactQuality>,
                                   retryDuplicates: Option<int>, extraction: Option<ExtractionQuality>)

  /** A row of the full outer join. */
  type Pair = Joined<FactQuality, ExtractionQuality>

  predicate MissingPosition(f: Fact) {
    f.latitude.None? || f.longitude.None?
  }

  predicate InvalidLatitude(f: Fact) {
    f.latitude.Some? && (f.latitude.value < -90.0 || f.latitude.value > 90.0)
  }

  predicate InvalidLongitude(f: Fact) {
    f.longitude.Some? && (f.longitude.value < -180.0 || f.longitude.value > 180.0)
  }

  predicate InvalidVelocity(f: Fact) {
    f.velocityKmh.Some? && f.velocityKmh.value < 0.0
  }

  function FactQualityOf(w: Window, g: seq<Fact>): FactQuality {
    FactQuality(w, |g|, Count(g, (f: Fact) => f.callsign.None?), Count(g, (f: Fact) => f.originCountry.None?),
                Count(g, MissingPosition), Count(g, InvalidLatitude), Count(g, InvalidLongitude),
                Count(g, InvalidVelocity))
  }

  function WindowKey(f: Fact): Window {
    f.window
  }

  function FactQualities(facts: seq<Fact>): seq<FactQuality> {
    GroupBy(facts, WindowKey, FactQualityOf)
  }

  /** `icao24 || '|' || last_contact_at::text`, null when last_contact_at is null. */
  function ObservationText(text: int -> string, f: Fact): Option<string> {
    match f.lastContactAt
    case None => None
    case Some(t) => Some(f.icao24 + "|" + text(t))
  }

  /** `count(distinct c)`: null is not counted. */
  function CountDistinct<R>(rows: seq<R>, c: R -> Option<string>): int {
    |Keys(rows, c)| - (if None in Keys(rows, c) then 1 else 0)
  }

  function DuplicateChecks(text: int -> string, facts: seq<Fact>): seq<DuplicateCheck> {
    GroupBy(facts, WindowKey,
      (w: Window, g: seq<Fact>) => DuplicateCheck(w, |g|, CountDistinct(g, f => ObservationText(text, f))))
  }

  function RecordCount(x: Extraction): Option<int> {
    x.recordCount
  }

  function ExtractionQualityOf(w: Window, g: seq<Extraction>): ExtractionQuality {
    ExtractionQuality(w, |g|, Count(g, (x: Extraction) => !x.success), SumOrNull(g, RecordCount))
  }

  function LogKey(calendar: Calendar): Extraction -> Window {
    (x: Extraction) => WindowOf(calendar, Some(x.startedAt))
  }

  function ExtractionQualities(calendar: Calendar, log: seq<Extraction>): seq<ExtractionQuality> {
    GroupBy(log, LogKey(calendar), ExtractionQualityOf)
  }

  predicate FactMeetsExtraction(f: FactQuality, e: ExtractionQuality) {
    SameWindow(f.window, e.window)
  }

  predicate RowMeetsCheck(j: Pair, d: DuplicateCheck) {
    j.left.Some? && SameWindow(j.left.value.window, d.window)
  }

  function Coalesce<T>(a: Option<T>, b: Option<T>): Option<T> {
    if a.Some? then a else b
  }

  /** `coalesce(fq.observation_date, eq.observation_date)`, and the same for the hour. */
  function JoinedWindow(j: Pair): Window {
    var f := if j.left.Some? then j.left.value.window else Window(None, None);
    var e := if j.right.Some? then j.right.value.window else Window(None, None);
    Window(Coalesce(f.date, e.date), Coalesce(f.hour, e.hour))
  }

  function Combined(calendar: Calendar, rows: seq<Row>, log: seq<Extraction>): seq<Pair> {
    FullJoin(FactQualities(FactTable(calendar, rows)), ExtractionQualities(calendar, log), FactMeetsExtraction)
  }

  function QualityRowOf(j: Joined<Pair, DuplicateCheck>): QualityRow
    requires j.left.Some?
  {
    var r := j.left.value;
    QualityRow(JoinedWindow(r), r.left,
               if j.right.Some? then Some(j.right.value.rowCount - j.right.value.distinctObservations) else None,
               r.right)
  }

  /** mart_telemetry_quality */
  function QualityMart(calendar: Calendar, text: int -> string, rows: seq<Row>, log: seq<Extraction>): seq<QualityRow> {
    var joined := LeftJoin(Combined(calendar, rows, log), DuplicateChecks(text, FactTable(calendar, rows)),
      RowMeetsCheck);
    seq(|joined|, i requires 0 <= i < |joined| => QualityRowOf(joined[i]))
  }

  // ----- the joins neither lose nor repeat a row -----

  /** The left join with duplicate_check adds its column and changes nothing else. */
  lemma ChecksDoNotFanOut(calendar: Calendar, text: int -> string, rows: seq<Row>, log: seq<Extraction>)
    ensures var full, mart := Combined(calendar, rows, log), QualityMart(calendar, text, rows, log);
      && KeepsLeft(full, DuplicateChecks(text, FactTable(calendar, rows)), RowMeetsCheck,
                   LeftJoin(full, DuplicateChecks(text, FactTable(calendar, rows)), RowMeetsCheck))
      && |mart| == |full|
      && forall i :: 0 <= i < |mart| ==>
        mart[i].window == JoinedWindow(full[i]) && mart[i].facts == full[i].left && mart[i].extraction == full[i].right
  {
    var facts := FactTable(calendar, rows);
    var full, checks := Combined(calendar, rows, log), DuplicateChecks(text, facts);
    var ws := Keys(facts, WindowKey);
    assert forall i :: 0 <= i < |checks| ==> checks[i].window == ws[i];
    hide Combined, FactTable, DuplicateChecks, Keys;
    forall i | 0 <= i < |full|
      ensures |Meeting(full[i], checks, RowMeetsCheck)| <= 1
    {
      MeetingOne(full[i], checks, RowMeetsCheck);
    }
    NoFanOut(full, checks, RowMeetsCheck);
  }

  lemma FactsMeetOne(calendar: Calendar, rows: seq<Row>, log: seq<Extraction>)
    ensures MeetAtMostOne(FactQualities(FactTable(calendar, rows)), ExtractionQualities(calendar, log),
      FactMeetsExtraction)
  {
    var fs := FactQualities(FactTable(calendar, rows));
    var es := ExtractionQualities(calendar, log);
    var ws := Keys(log, LogKey(calendar));
    assert forall i :: 0 <= i < |es| ==> es[i].window == ws[i];
    forall i | 0 <= i < |fs|
      ensures |Meeting(fs[i], es, FactMeetsExtraction)| <= 1
    {
      MeetingOne(fs[i], es, FactMeetsExtraction);
    }
  }

  lemma ExtractionsMeetOne(calendar: Calendar, rows: seq<Row>, log: seq<Extraction>)
    ensures var fs := FactQualities(FactTable(calendar, rows));
      forall e, i, j ::
        e in ExtractionQualities(calendar, log) && 0 <= i < j < |fs| ==>
          !(FactMeetsExtraction(fs[i], e) && FactMeetsExtraction(fs[j], e))
  {
    var fs := FactQualities(FactTable(calendar, rows));
    var ws := Keys(FactTable(calendar, rows), WindowKey);
    assert forall i :: 0 <= i < |fs| ==> fs[i].window == ws[i];
  }

  /** The values of a column of fact_quality, or of extraction_quality, down the mart;
      a null adds nothing to a sum. */
  function OfFacts(c: FactQuality -> int): QualityRow -> int {
    (q: QualityRow) => OrZero(c, q.facts)
  }

  function OfExtraction(c: ExtractionQuality -> int): QualityRow -> int {
    (q: QualityRow) => OrZero(c, q.extraction)
  }

  /** Any count taken per window over the facts totals, over the mart, the count over
      all facts. */
  lemma FactColumnConserved(calendar: Calendar, text: int -> string, rows: seq<Row>, log: seq<Extraction>,
                            c: FactQuality -> int, p: Fact -> bool)
    requires forall w, g :: c(FactQualityOf(w, g)) == Count(g, p)
    ensures SumBy(QualityMart(calendar, text, rows, log), OfFacts(c)) == Count(FactTable(calendar, rows), p)
  {
    var facts := FactTable(calendar, rows);
    ChecksDoNotFanOut(calendar, text, rows, log);
    SumSame(QualityMart(calendar, text, rows, log), Combined(calendar, rows, log), OfFacts(c),
      (j: Pair) => OrZero(c, j.left));
    FactsMeetOne(calendar, rows, log);
    FullJoinKeepsLeft(FactQualities(facts), ExtractionQualities(calendar, log), FactMeetsExtraction, c,
      (j: Pair) => OrZero(c, j.left));
    GroupByConserves(facts, WindowKey, FactQualityOf, c, p);
  }

  lemma ExtractionColumnConserved(calendar: Calendar, text: int -> string, rows: seq<Row>, log: seq<Extraction>,
                                  c: ExtractionQuality -> int, v: Extraction -> int)
    requires forall w, g :: c(ExtractionQualityOf(w, g)) == SumBy(g, v)
    ensures SumBy(QualityMart(calendar, text, rows, log), OfExtraction(c)) == SumBy(log, v)
  {
    ChecksDoNotFanOut(calendar, text, rows, log);
    SumSame(QualityMart(calendar, text, rows, log), Combined(calendar, rows, log), OfExtraction(c),
      (j: Pair) => OrZero(c, j.right));
    ExtractionsMeetOne(calendar, rows, log);
    FullJoinKeepsRight(FactQualities(FactTable(calendar, rows)), ExtractionQualities(calendar, log),
      FactMeetsExtraction,
                       c, (j: Pair) => OrZero(c, j.right));
    GroupBySums(log, LogKey(calendar), ExtractionQualityOf, c, v);
  }

  lemma ExtractionCountConserved(calendar: Calendar, text: int -> string, rows: seq<Row>, log: seq<Extraction>,
                                 c: ExtractionQuality -> int, p: Extraction -> bool)
    requires forall w, g :: c(ExtractionQualityOf(w, g)) == Count(g, p)
    ensures SumBy(QualityMart(calendar, text, rows, log), OfExtraction(c)) == Count(log, p)
  {
    forall w, g ensures c(ExtractionQualityOf(w, g)) == SumBy(g, Indicator(p)) { CountIsSum(g, p); }
    CountIsSum(log, p);
    ExtractionColumnConserved(calendar, text, rows, log, c, Indicator(p));
  }

  /** The window's reported records, null as nothing. */
  function Reported(e: ExtractionQuality): int {
    if e.reportedRecords.Some? then e.reportedRecords.value else 0
  }

  /** Summed over the mart, every count is the count over all facts (or all of the log):
      windows that met nothing, the null window included, are neither lost nor repeated. */
  lemma MartConserves(calendar: Calendar, text: int -> string, rows: seq<Row>, log: seq<Extraction>)
    ensures var mart, facts := QualityMart(calendar, text, rows, log), FactTable(calendar, rows);
      && SumBy(mart, OfFacts((f: FactQuality) => f.totalObservations)) == |rows|
      && SumBy(mart, OfFacts((f: FactQuality) => f.missingCallsign)) == Count(facts, (f: Fact) => f.callsign.None?)
      && SumBy(mart, OfFacts((f: FactQuality) => f.missingOriginCountry))
        == Count(facts, (f: Fact) => f.originCountry.None?)
      && SumBy(mart, OfFacts((f: FactQuality) => f.missingPosition)) == Count(facts, MissingPosition)
      && SumBy(mart, OfFacts((f: FactQuality) => f.invalidLatitude)) == Count(facts, InvalidLatitude)
      && SumBy(mart, OfFacts((f: FactQuality) => f.invalidLongitude)) == Count(facts, InvalidLongitude)
      && SumBy(mart, OfFacts((f: FactQuality) => f.invalidVelocity)) == Count(facts, InvalidVelocity)
      && SumBy(mart, OfExtraction((e: ExtractionQuality) => e.cycles)) == |log|
      && SumBy(mart, OfExtraction((e: ExtractionQuality) => e.failedCycles))
        == Count(log, (x: Extraction) => !x.success)
      && SumBy(mart, OfExtraction(Reported)) == SumBy(log, OrZeroOf(RecordCount))
  {
    forall w, g
      ensures ((f: FactQuality) => f.totalObservations)(FactQualityOf(w, g)) == Count(g, (f: Fact) => true)
    {
      CountAll(g, (f: Fact) => true);
    }
    CountAll(FactTable(calendar, rows), (f: Fact) => true);
    FactColumnConserved(calendar, text, rows, log, (f: FactQuality) => f.totalObservations, (f: Fact) => true);
    FactColumnConserved(calendar, text, rows, log, (f: FactQuality) => f.missingCallsign,
      (f: Fact) => f.callsign.None?);
    FactColumnConserved(calendar, text, rows, log, (f: FactQuality) => f.missingOriginCountry,
      (f: Fact) => f.originCountry.None?);
    FactColumnConserved(calendar, text, rows, log, (f: FactQuality) => f.missingPosition, MissingPosition);
    FactColumnConserved(calendar, text, rows, log, (f: FactQuality) => f.invalidLatitude, InvalidLatitude);
    FactColumnConserved(calendar, text, rows, log, (f: FactQuality) => f.invalidLongitude, InvalidLongitude);
    forall w, g
      ensures ((e: ExtractionQuality) => e.cycles)(ExtractionQualityOf(w, g)) == Count(g, (x: Extraction) => true)
    {
      CountAll(g, (x: Extraction) => true);
    }
    CountAll(log, (x: Extraction) => true);
    FactColumnConserved(calendar, text, rows, log, (f: FactQuality) => f.invalidVelocity, InvalidVelocity);
    ExtractionCountConserved(calendar, text, rows, log, (e: ExtractionQuality) => e.cycles, (x: Extraction) => true);
    ExtractionCountConserved(calendar, text, rows, log, (e: ExtractionQuality) => e.failedCycles,
      (x: Extraction) => !x.success);
    forall w, g
      ensures Reported(ExtractionQualityOf(w, g)) == SumBy(g, OrZeroOf(RecordCount))
    {
      SumOrNullIsSum(g, RecordCount);
    }
    ExtractionColumnConserved(calendar, text, rows, log, Reported, OrZeroOf(RecordCount));
  }

  // ----- each window once -----

  predicate HasWindow(mart: seq<QualityRow>, w: Window) {
    exists i :: 0 <= i < |mart| && mart[i].window == w
  }

  lemma FactWindows(calendar: Calendar, rows: seq<Row>)
    ensures var fs, ws := FactQualities(FactTable(calendar, rows)), Keys(FactTable(calendar, rows), WindowKey);
      |fs| == |ws| && forall i :: 0 <= i < |fs| ==> fs[i].window == ws[i] && (ws[i].date.None? <==> ws[i].hour.None?)
  {
    var facts := FactTable(calendar, rows);
    var ws := Keys(facts, WindowKey);
    forall i | 0 <= i < |ws| ensures ws[i].date.None? <==> ws[i].hour.None? {
      assert ws[i] in ws;
      var f := KeyFrom(facts, WindowKey, ws[i]);
    }
  }

  lemma ExtractionWindows(calendar: Calendar, log: seq<Extraction>)
    ensures var es, ws := ExtractionQualities(calendar, log), Keys(log, LogKey(calendar));
      |es| == |ws| && forall i :: 0 <= i < |es| ==> es[i].window == ws[i] && ws[i].date.Some? && ws[i].hour.Some?
  {
    var ws := Keys(log, LogKey(calendar));
    forall i | 0 <= i < |ws| ensures ws[i].date.Some? && ws[i].hour.Some? {
      assert ws[i] in ws;
      var x := KeyFrom(log, LogKey(calendar), ws[i]);
    }
  }

  /** Coalescing gives a row with facts the window of its facts. */
  lemma LeftWindow(j: Pair)
    requires j.left.Some? && (j.left.value.window.date.None? <==> j.left.value.window.hour.None?)
    requires j.right.Some? ==> FactMeetsExtraction(j.left.value, j.right.value)
    ensures JoinedWindow(j) == j.left.value.window
  {}

  lemma FactPairs(calendar: Calendar, rows: seq<Row>, log: seq<Extraction>)
    ensures var facts := FactTable(calendar, rows);
      var out := LeftJoin(FactQualities(facts), ExtractionQualities(calendar, log), FactMeetsExtraction);
      var ws := Keys(facts, WindowKey);
      && |out| == |ws|
      && forall i :: 0 <= i < |out| ==> out[i].left.Some? && out[i].left.value.window == JoinedWindow(out[i]) == ws[i]
  {
    var fs, es := FactQualities(FactTable(calendar, rows)), ExtractionQualities(calendar, log);
    FactsMeetOne(calendar, rows, log);
    NoFanOut(fs, es, FactMeetsExtraction);
    FactWindows(calendar, rows);
    var out := LeftJoin(fs, es, FactMeetsExtraction);
    forall i | 0 <= i < |out| ensures JoinedWindow(out[i]) == fs[i].window {
      PartnerMeets(fs[i], es, FactMeetsExtraction);
      LeftWindow(out[i]);
    }
  }

  /** Every row has an extraction side, and no two of them one window. */
  ghost predicate ExtractionsApart(out: seq<Pair>) {
    && (forall i :: 0 <= i < |out| ==> out[i].right.Some?)
    && (forall i, j :: 0 <= i < j < |out| ==> out[i].right.value.window != out[j].right.value.window)
  }

  lemma ApartCons(head: Pair, rest: seq<Pair>)
    requires ExtractionsApart(rest) && head.right.Some?
    requires forall j :: 0 <= j < |rest| ==> rest[j].right.value.window != head.right.value.window
    ensures ExtractionsApart([head] + rest)
  {}

  lemma {:induction false} LeftoverApart(fs: seq<FactQuality>, es: seq<ExtractionQuality>)
    requires forall i, j :: 0 <= i < j < |es| ==> es[i].window != es[j].window
    ensures ExtractionsApart(Leftover(fs, es, FactMeetsExtraction))
  {
    if es != [] {
      var tail := es[1..];
      assert forall i :: 0 <= i < |tail| ==> tail[i] == es[i + 1];
      LeftoverApart(fs, tail);
      var rest := Leftover(fs, tail, FactMeetsExtraction);
      forall j | 0 <= j < |rest| ensures rest[j].right.value.window != es[0].window {
        LeftoverFrom(fs, tail, FactMeetsExtraction, j);
      }
      ApartCons(Joined(None, Some(es[0])), rest);
      assert Leftover(fs, es, FactMeetsExtraction)
        == if Met(fs, es[0], FactMeetsExtraction) then rest else [Joined(None, Some(es[0]))] + rest;
    }
  }

  /** A row without facts shows the window of its extractions, which is no fact window. */
  lemma ExtractionPairs(calendar: Calendar, rows: seq<Row>, log: seq<Extraction>)
    ensures var fs, es := FactQualities(FactTable(calendar, rows)), ExtractionQualities(calendar, log);
      var rest := Leftover(fs, es, FactMeetsExtraction);
      && ExtractionsApart(rest)
      && forall i :: 0 <= i < |rest| ==>
        JoinedWindow(rest[i]) == rest[i].right.value.window &&
          JoinedWindow(rest[i]) !in Keys(FactTable(calendar, rows), WindowKey)
  {
    var fs, es := FactQualities(FactTable(calendar, rows)), ExtractionQualities(calendar, log);
    var rest, ws := Leftover(fs, es, FactMeetsExtraction), Keys(FactTable(calendar, rows), WindowKey);
    FactWindows(calendar, rows);
    ExtractionWindows(calendar, log);
    LeftoverApart(fs, es);
    forall i | 0 <= i < |rest|
      ensures JoinedWindow(rest[i]) == rest[i].right.value.window && JoinedWindow(rest[i]) !in ws
    {
      var e := rest[i].right.value;
      LeftoverFrom(fs, es, FactMeetsExtraction, i);
      forall k | 0 <= k < |ws| ensures ws[k] != e.window {
        assert fs[k].window == ws[k] && !FactMeetsExtraction(fs[k], e);
      }
    }
  }

  /** The rows of the full outer join that have no facts. */
  function Unmatched(calendar: Calendar, rows: seq<Row>, log: seq<Extraction>): seq<Pair> {
    Leftover(FactQualities(FactTable(calendar, rows)), ExtractionQualities(calendar, log), FactMeetsExtraction)
  }

  function WindowsOf(pairs: seq<Pair>): (ws: seq<Window>)
    ensures |ws| == |pairs| && forall i :: 0 <= i < |ws| ==> ws[i] == JoinedWindow(pairs[i])
  {
    seq(|pairs|, i requires 0 <= i < |pairs| => JoinedWindow(pairs[i]))
  }

  lemma WindowsOfAppend(a: seq<Pair>, b: seq<Pair>)
    ensures WindowsOf(a + b) == WindowsOf(a) + WindowsOf(b)
  {}

  /** The windows of the facts, then those only the log has. */
  function ShownWindows(calendar: Calendar, rows: seq<Row>, log: seq<Extraction>): seq<Window> {
    Keys(FactTable(calendar, rows), WindowKey) + WindowsOf(Unmatched(calendar, rows, log))
  }

  lemma PairWindows(calendar: Calendar, rows: seq<Row>, log: seq<Extraction>)
    ensures WindowsOf(Combined(calendar, rows, log)) == ShownWindows(calendar, rows, log)
  {
    var fs, es := FactQualities(FactTable(calendar, rows)), ExtractionQualities(calendar, log);
    var out, rest := LeftJoin(fs, es, FactMeetsExtraction), Unmatched(calendar, rows, log);
    FactPairs(calendar, rows, log);
    assert WindowsOf(out) == Keys(FactTable(calendar, rows), WindowKey);
    WindowsOfAppend(out, rest);
  }

  lemma MartWindows(calendar: Calendar, text: int -> string, rows: seq<Row>, log: seq<Extraction>)
    ensures var mart, shown := QualityMart(calendar, text, rows, log), ShownWindows(calendar, rows, log);
      |mart| == |shown| && forall i :: 0 <= i < |mart| ==> mart[i].window == shown[i]
  {
    ChecksDoNotFanOut(calendar, text, rows, log);
    PairWindows(calendar, rows, log);
  }

  lemma ShownDistinct(calendar: Calendar, rows: seq<Row>, log: seq<Extraction>)
    ensures Unique(ShownWindows(calendar, rows, log))
  {
    var ws, rest := Keys(FactTable(calendar, rows), WindowKey), Unmatched(calendar, rows, log);
    ExtractionPairs(calendar, rows, log);
    UniqueAppend(ws, WindowsOf(rest));
  }

  lemma WindowsDistinct(calendar: Calendar, text: int -> string, rows: seq<Row>, log: seq<Extraction>)
    ensures var mart := QualityMart(calendar, text, rows, log);
      forall i, j :: 0 <= i < j < |mart| ==> mart[i].window != mart[j].window
  {
    MartWindows(calendar, text, rows, log);
    ShownDistinct(calendar, rows, log);
  }

  lemma ShownInMart(calendar: Calendar, text: int -> string, rows: seq<Row>, log: seq<Extraction>, w: Window)
    requires w in ShownWindows(calendar, rows, log)
    ensures HasWindow(QualityMart(calendar, text, rows, log), w)
  {
    var shown := ShownWindows(calendar, rows, log);
    MartWindows(calendar, text, rows, log);
    var k :| 0 <= k < |shown| && shown[k] == w;
    assert QualityMart(calendar, text, rows, log)[k].window == w;
  }

  lemma ExtractionOf(calendar: Calendar, log: seq<Extraction>, x: Extraction) returns (e: ExtractionQuality)
    requires x in log
    ensures e in ExtractionQualities(calendar, log) && e.window == WindowOf(calendar, Some(x.startedAt))
  {
    var ks := Keys(log, LogKey(calendar));
    var es := ExtractionQualities(calendar, log);
    assert WindowOf(calendar, Some(x.startedAt)) in ks;
    var k :| 0 <= k < |ks| && ks[k] == WindowOf(calendar, Some(x.startedAt));
    e := es[k];
  }

  lemma ExtractionFromLog(calendar: Calendar, log: seq<Extraction>, e: ExtractionQuality)
    requires e in ExtractionQualities(calendar, log)
    ensures exists x :: x in log && WindowOf(calendar, Some(x.startedAt)) == e.window
  {
    var ks := Keys(log, LogKey(calendar));
    var es := ExtractionQualities(calendar, log);
    var k :| 0 <= k < |es| && es[k] == e;
    assert ks[k] in ks && ks[k] == e.window;
    var x := KeyFrom(log, LogKey(calendar), e.window);
  }

  lemma LogWindowShown(calendar: Calendar, rows: seq<Row>, log: seq<Extraction>, x: Extraction)
    requires x in log
    ensures WindowOf(calendar, Some(x.startedAt)) in ShownWindows(calendar, rows, log)
  {
    var fs, es := FactQualities(FactTable(calendar, rows)), ExtractionQualities(calendar, log);
    var e := ExtractionOf(calendar, log, x);
    if Met(fs, e, FactMeetsExtraction) {
      var i :| 0 <= i < |fs| && FactMeetsExtraction(fs[i], e);
      FactWindows(calendar, rows);
    } else {
      LeftoverHas(fs, es, FactMeetsExtraction, e);
      var rest := Unmatched(calendar, rows, log);
      var k :| 0 <= k < |rest| && rest[k] == Joined(None, Some(e));
      assert WindowsOf(rest)[k] == e.window;
    }
  }

  lemma NoOtherWindow(calendar: Calendar, rows: seq<Row>, log: seq<Extraction>, w: Window)
    requires w in ShownWindows(calendar, rows, log)
    ensures (exists f :: f in FactTable(calendar, rows) && f.window == w) ||
      (exists x :: x in log && WindowOf(calendar, Some(x.startedAt)) == w)
  {
    var facts := FactTable(calendar, rows);
    var ws, rest := Keys(facts, WindowKey), Unmatched(calendar, rows, log);
    if w in ws {
      var f := KeyFrom(facts, WindowKey, w);
    } else {
      var k :| 0 <= k < |rest| && WindowsOf(rest)[k] == w;
      LeftoverFrom(FactQualities(facts), ExtractionQualities(calendar, log), FactMeetsExtraction, k);
      ExtractionPairs(calendar, rows, log);
      ExtractionFromLog(calendar, log, rest[k].right.value);
    }
  }

  /** The mart's windows are the windows of the facts and of the log, each exactly once,
      although in the joins the null window equals nothing, itself included. */
  lemma EachWindowOnce(calendar: Calendar, text: int -> string, rows: seq<Row>, log: seq<Extraction>)
    ensures var mart, facts := QualityMart(calendar, text, rows, log), FactTable(calendar, rows);
      && (forall i, j :: 0 <= i < j < |mart| ==> mart[i].window != mart[j].window)
      && (forall f :: f in facts ==> HasWindow(mart, f.window))
      && (forall x :: x in log ==> HasWindow(mart, WindowOf(calendar, Some(x.startedAt))))
      && (forall q :: q in mart ==> (exists f :: f in facts && f.window == q.window)
                                    || (exists x :: x in log && WindowOf(calendar, Some(x.startedAt)) == q.window))
  {
    var mart, facts := QualityMart(calendar, text, rows, log), FactTable(calendar, rows);
    WindowsDistinct(calendar, text, rows, log);
    forall f | f in facts ensures HasWindow(mart, f.window) { ShownInMart(calendar, text, rows, log, WindowKey(f)); }
    forall x | x in log ensures HasWindow(mart, WindowOf(calendar, Some(x.startedAt))) {
      LogWindowShown(calendar, rows, log, x);
      ShownInMart(calendar, text, rows, log, WindowOf(calendar, Some(x.startedAt)));
    }
    forall q | q in mart
      ensures (exists f :: f in facts && f.window == q.window) ||
        (exists x :: x in log && WindowOf(calendar, Some(x.startedAt)) == q.window)
    {
      MartWindows(calendar, text, rows, log);
      NoOtherWindow(calendar, rows, log, q.window);
    }
  }

  // ----- each row's columns -----

  /** Both sides of a combined row are aggregates of the row's own window. */
  lemma PairSides(calendar: Calendar, rows: seq<Row>, log: seq<Extraction>, i: nat)
    requires i < |Combined(calendar, rows, log)|
    ensures var j, facts := Combined(calendar, rows, log)[i], FactTable(calendar, rows);
      && (j.left.Some? ==> j.left.value == FactQualityOf(JoinedWindow(j), Group(facts, WindowKey, JoinedWindow(j))))
      && (j.right.Some? ==>
            j.right.value == ExtractionQualityOf(JoinedWindow(j), Group(log, LogKey(calendar), JoinedWindow(j))))
      && (j.right.Some? <==> JoinedWindow(j) in Keys(log, LogKey(calendar)))
  {
    var fs, es := FactQualities(FactTable(calendar, rows)), ExtractionQualities(calendar, log);
    var out, rest := LeftJoin(fs, es, FactMeetsExtraction), Unmatched(calendar, rows, log);
    if i < |out| {
      assert Combined(calendar, rows, log)[i] == out[i];
      MatchedSides(calendar, rows, log, i);
    } else {
      assert Combined(calendar, rows, log)[i] == rest[i - |out|];
      UnmatchedSides(calendar, rows, log, i - |out|);
    }
  }

  lemma ExtractionAt(calendar: Calendar, log: seq<Extraction>, e: ExtractionQuality)
    requires e in ExtractionQualities(calendar, log)
    ensures e == ExtractionQualityOf(e.window, Group(log, LogKey(calendar), e.window))
    ensures e.window in Keys(log, LogKey(calendar)) && e.window.date.Some? && e.window.hour.Some?
  {
    var es, ws := ExtractionQualities(calendar, log), Keys(log, LogKey(calendar));
    ExtractionWindows(calendar, log);
    var k :| 0 <= k < |es| && es[k] == e;
    assert ws[k] in ws && es[k] == ExtractionQualityOf(ws[k], Group(log, LogKey(calendar), ws[k]));
  }

  lemma MatchedSides(calendar: Calendar, rows: seq<Row>, log: seq<Extraction>, i: nat)
    requires i < |LeftJoin(FactQualities(FactTable(calendar, rows)), ExtractionQualities(calendar, log),
                           FactMeetsExtraction)|
    ensures var facts := FactTable(calendar, rows);
      var j := LeftJoin(FactQualities(facts), ExtractionQualities(calendar, log), FactMeetsExtraction)[i];
      && j.left == Some(FactQualityOf(JoinedWindow(j), Group(facts, WindowKey, JoinedWindow(j))))
      && (j.right.Some? ==>
            j.right.value == ExtractionQualityOf(JoinedWindow(j), Group(log, LogKey(calendar), JoinedWindow(j))))
      && (j.right.Some? <==> JoinedWindow(j) in Keys(log, LogKey(calendar)))
  {
    var facts := FactTable(calendar, rows);
    var fs, es, ws := FactQualities(facts), ExtractionQualities(calendar, log), Keys(facts, WindowKey);
    FactPairs(calendar, rows, log);
    FactsMeetOne(calendar, rows, log);
    NoFanOut(fs, es, FactMeetsExtraction);
    assert fs[i] == FactQualityOf(ws[i], Group(facts, WindowKey, ws[i]));
    var j := LeftJoin(fs, es, FactMeetsExtraction)[i];
    assert j == Joined(Some(fs[i]), Partner(fs[i], es, FactMeetsExtraction));
    PartnerMeets(fs[i], es, FactMeetsExtraction);
    if j.right.Some? {
      ExtractionAt(calendar, log, j.right.value);
    } else if ws[i] in Keys(log, LogKey(calendar)) {
      NoneInWindow(calendar, log, fs[i]);
    }
  }

  lemma NoneInWindow(calendar: Calendar, log: seq<Extraction>, f: FactQuality)
    requires forall e :: e in ExtractionQualities(calendar, log) ==> !FactMeetsExtraction(f, e)
    ensures f.window !in Keys(log, LogKey(calendar))
  {
    var es, ws := ExtractionQualities(calendar, log), Keys(log, LogKey(calendar));
    ExtractionWindows(calendar, log);
    if k :| 0 <= k < |ws| && ws[k] == f.window {
      assert es[k] in es && FactMeetsExtraction(f, es[k]);
    }
  }

  lemma UnmatchedSides(calendar: Calendar, rows: seq<Row>, log: seq<Extraction>, i: nat)
    requires i < |Unmatched(calendar, rows, log)|
    ensures var j := Unmatched(calendar, rows, log)[i];
      && j.left.None? && j.right.Some?
      && j.right.value == ExtractionQualityOf(JoinedWindow(j), Group(log, LogKey(calendar), JoinedWindow(j)))
      && JoinedWindow(j) in Keys(log, LogKey(calendar))
  {
    ExtractionPairs(calendar, rows, log);
    LeftoverFrom(FactQualities(FactTable(calendar, rows)), ExtractionQualities(calendar, log), FactMeetsExtraction, i);
    ExtractionAt(calendar, log, Unmatched(calendar, rows, log)[i].right.value);
  }

  lemma RowSides(calendar: Calendar, text: int -> string, rows: seq<Row>, log: seq<Extraction>, q: QualityRow)
    requires q in QualityMart(calendar, text, rows, log)
    ensures var facts := FactTable(calendar, rows);
      && (q.facts.Some? ==> q.facts.value == FactQualityOf(q.window, Group(facts, WindowKey, q.window)))
      && (q.extraction.Some? ==>
            q.extraction.value == ExtractionQualityOf(q.window, Group(log, LogKey(calendar), q.window)))
      && (q.extraction.Some? <==> q.window in Keys(log, LogKey(calendar)))
  {
    var mart := QualityMart(calendar, text, rows, log);
    var i :| 0 <= i < |mart| && mart[i] == q;
    ChecksDoNotFanOut(calendar, text, rows, log);
    PairSides(calendar, rows, log, i);
  }

  /** The columns that a row takes from the facts count the facts of its own window, each by
      the condition on the value. */
  lemma FactColumnsOfRow(calendar: Calendar, text: int -> string, rows: seq<Row>, log: seq<Extraction>, q: QualityRow)
    requires q in QualityMart(calendar, text, rows, log) && q.facts.Some?
    ensures var facts, c := FactTable(calendar, rows), q.facts.value;
      && c.totalObservations == Count(facts, (f: Fact) => f.window == q.window)
      && c.missingCallsign == Count(facts, (f: Fact) => f.window == q.window && f.callsign == None)
      && c.missingOriginCountry == Count(facts, (f: Fact) => f.window == q.window && f.originCountry == None)
      && c.missingPosition
        == Count(facts, (f: Fact) => f.window == q.window && (f.latitude == None || f.longitude == None))
      && c.invalidLatitude == Count(facts, (f: Fact) =>
           f.window == q.window && f.latitude.Some? && !(-90.0 <= f.latitude.value <= 90.0))
      && c.invalidLongitude == Count(facts, (f: Fact) =>
           f.window == q.window && f.longitude.Some? && !(-180.0 <= f.longitude.value <= 180.0))
      && c.invalidVelocity == Count(facts, (f: Fact) =>
           f.window == q.window && f.velocityKmh.Some? && f.velocityKmh.value < 0.0)
  {
    var facts, w := FactTable(calendar, rows), q.window;
    RowSides(calendar, text, rows, log, q);
    CountAll(Group(facts, WindowKey, w), (f: Fact) => true);
    CountInGroup(facts, WindowKey, w, (f: Fact) => true, (f: Fact) => f.window == q.window);
    CountInGroup(facts, WindowKey, w, (f: Fact) => f.callsign.None?,
                 (f: Fact) => f.window == q.window && f.callsign == None);
    CountInGroup(facts, WindowKey, w, (f: Fact) => f.originCountry.None?,
                 (f: Fact) => f.window == q.window && f.originCountry == None);
    CountInGroup(facts, WindowKey, w, MissingPosition,
                 (f: Fact) => f.window == q.window && (f.latitude == None || f.longitude == None));
    CountInGroup(facts, WindowKey, w, InvalidLatitude, (f: Fact) =>
                   f.window == q.window && f.latitude.Some? && !(-90.0 <= f.latitude.value <= 90.0));
    CountInGroup(facts, WindowKey, w, InvalidLongitude, (f: Fact) =>
                   f.window == q.window && f.longitude.Some? && !(-180.0 <= f.longitude.value <= 180.0));
    CountInGroup(facts, WindowKey, w, InvalidVelocity, (f: Fact) =>
                   f.window == q.window && f.velocityKmh.Some? && f.velocityKmh.value < 0.0);
  }

  lemma ExtractionColumns(w: Window, g: seq<Extraction>)
    ensures var e := ExtractionQualityOf(w, g);
      && e.cycles == |g| && e.failedCycles == Count(g, (x: Extraction) => x.success == false)
      && (e.reportedRecords.None? <==> forall x :: x in g ==> x.recordCount == None)
      && (e.reportedRecords.Some? ==>
            e.reportedRecords.value == SumBy(g, (x: Extraction) =>
              if x.recordCount.Some? then x.recordCount.value else 0))
  {
    CountSame(g, (x: Extraction) => !x.success, (x: Extraction) => x.success == false);
    SumSame(g, g, OrZeroOf(RecordCount), (x: Extraction) => if x.recordCount.Some? then x.recordCount.value else 0);
    if forall i :: 0 <= i < |g| ==> RecordCount(g[i]).None? {
      forall x | x in g ensures x.recordCount == None {
        var i :| 0 <= i < |g| && g[i] == x;
        assert RecordCount(g[i]).None?;
      }
    } else {
      var i :| 0 <= i < |g| && !RecordCount(g[i]).None?;
      assert g[i] in g;
    }
  }

  /** And those from the log, null where no extraction started in the window; the reported
      records are null where none of them has a count. */
  lemma ExtractionColumnsOfRow(calendar: Calendar, text: int -> string, rows: seq<Row>, log: seq<Extraction>,
                               q: QualityRow)
    requires q in QualityMart(calendar, text, rows, log)
    ensures var g := Group(log, LogKey(calendar), q.window);
      && (q.extraction.None? <==> g == [])
      && (q.extraction.Some? ==>
            var e := q.extraction.value;
            && e.cycles == |g| && e.failedCycles == Count(g, (x: Extraction) => x.success == false)
            && (e.reportedRecords.None? <==> forall x :: x in g ==> x.recordCount == None)
            && (e.reportedRecords.Some? ==>
                  e.reportedRecords.value == SumBy(g, (x: Extraction) =>
                    if x.recordCount.Some? then x.recordCount.value else 0)))
  {
    RowSides(calendar, text, rows, log, q);
    LogGroup(calendar, log, q.window);
    hide QualityMart, ExtractionQualityOf, Group, Keys;
    ExtractionColumns(q.window, Group(log, LogKey(calendar), q.window));
  }

  lemma LogGroup(calendar: Calendar, log: seq<Extraction>, w: Window)
    ensures w in Keys(log, LogKey(calendar)) <==> Group(log, LogKey(calendar), w) != []
  {
    var g := Group(log, LogKey(calendar), w);
    if w in Keys(log, LogKey(calendar)) {
      var x := KeyFrom(log, LogKey(calendar), w);
      assert x in g;
    }
    if g != [] { assert g[0] in g; }
  }

  // ----- retry_duplicate_count -----

  /** What is used of the text of a timestamp: it determines the timestamp, and has no bar. */
  ghost predicate TimestampText(text: int -> string) {
    && (forall a, b :: text(a) == text(b) ==> a == b)
    && (forall a :: I.Free(text(a), '|'))
  }

  /** Two facts report one (icao24, last_contact). */
  predicate SameObservation(a: Fact, b: Fact) {
    a.icao24 == b.icao24 && a.lastContactAt == b.lastContactAt
  }

  /** The concatenated text tells observations apart, bars inside icao24 or not. */
  lemma ObservationTextInjective(text: int -> string, a: Fact, b: Fact)
    requires TimestampText(text) && a.lastContactAt.Some? && b.lastContactAt.Some?
    ensures ObservationText(text, a) == ObservationText(text, b) <==> SameObservation(a, b)
  {
    if ObservationText(text, a) == ObservationText(text, b) {
      I.LastSplit(a.icao24, text(a.lastContactAt.value), b.icao24, text(b.lastContactAt.value), '|');
    }
  }

  /** Row count minus distinct count of a group with timestamps. */
  lemma GroupDuplicates(text: int -> string, g: seq<Fact>)
    requires TimestampText(text) && forall f :: f in g ==> f.lastContactAt.Some?
    ensures var d := |g| - CountDistinct(g, f => ObservationText(text, f));
      d >= 0 && (d == 0 <==> Apart(g, SameObservation))
  {
    var c := (f: Fact) => ObservationText(text, f);
    KeysCount(g, c);
    if None in Keys(g, c) {
      var f := KeyFrom(g, c, None);
      assert false;
    }
    forall i, j | 0 <= i < j < |g| ensures c(g[i]) == c(g[j]) <==> SameObservation(g[i], g[j]) {
      assert g[i] in g && g[j] in g;
      ObservationTextInjective(text, g[i], g[j]);
    }
  }

  lemma CheckOf(text: int -> string, facts: seq<Fact>, w: Window) returns (d: DuplicateCheck)
    requires w in Keys(facts, WindowKey)
    ensures d in DuplicateChecks(text, facts) && d.window == w
  {
    var ws, checks := Keys(facts, WindowKey), DuplicateChecks(text, facts);
    var k :| 0 <= k < |ws| && ws[k] == w;
    d := checks[k];
  }

  lemma CheckMeaning(text: int -> string, facts: seq<Fact>, d: DuplicateCheck)
    requires d in DuplicateChecks(text, facts)
    ensures var g := Group(facts, WindowKey, d.window);
      d.rowCount - d.distinctObservations == |g| - CountDistinct(g, f => ObservationText(text, f))
  {
    var checks := DuplicateChecks(text, facts);
    var k :| 0 <= k < |checks| && checks[k] == d;
    assert Keys(facts, WindowKey)[k] == d.window;
  }

  /** The duplicate column of one mart row, and where it comes from. */
  lemma DuplicateColumn(calendar: Calendar, text: int -> string, rows: seq<Row>, log: seq<Extraction>, q: QualityRow)
    requires q in QualityMart(calendar, text, rows, log)
    ensures var g := Group(FactTable(calendar, rows), WindowKey, q.window);
      && (q.retryDuplicates.Some? <==> q.facts.Some? && q.window.date.Some?)
      && (q.retryDuplicates.Some? ==> q.retryDuplicates.value == |g| - CountDistinct(g, f => ObservationText(text, f)))
  {
    var facts, full := FactTable(calendar, rows), Combined(calendar, rows, log);
    var mart, checks := QualityMart(calendar, text, rows, log), DuplicateChecks(text, facts);
    ChecksDoNotFanOut(calendar, text, rows, log);
    var i :| 0 <= i < |mart| && mart[i] == q;
    var out := LeftJoin(full, checks, RowMeetsCheck);
    assert out[i] == Joined(Some(full[i]), Partner(full[i], checks, RowMeetsCheck));
    PartnerMeets(full[i], checks, RowMeetsCheck);
    if full[i].left.Some? {
      PairOf(calendar, rows, log, i);
      var w := full[i].left.value.window;
      if w.date.Some? {
        var d := CheckOf(text, facts, w);
        assert RowMeetsCheck(full[i], d);
      }
      if out[i].right.Some? { CheckMeaning(text, facts, out[i].right.value); }
    }
  }

  /** A joined row with facts shows the window of its facts, one of the group keys. */
  lemma PairOf(calendar: Calendar, rows: seq<Row>, log: seq<Extraction>, i: nat)
    requires i < |Combined(calendar, rows, log)| && Combined(calendar, rows, log)[i].left.Some?
    ensures var w := Combined(calendar, rows, log)[i].left.value.window;
      && JoinedWindow(Combined(calendar, rows, log)[i]) == w
      && w in Keys(FactTable(calendar, rows), WindowKey) && (w.date.None? <==> w.hour.None?)
  {
    hide FactTable, FactQualities, ExtractionQualities, Keys, LeftJoin, JoinedWindow;
    var fs, es := FactQualities(FactTable(calendar, rows)), ExtractionQualities(calendar, log);
    var full, out, rest :=
      Combined(calendar, rows, log), LeftJoin(fs, es, FactMeetsExtraction), Unmatched(calendar, rows, log);
    assert forall k :: |out| <= k < |full| ==> full[k] == rest[k - |out|];
    assert full[i] == out[i];
    FactPairs(calendar, rows, log);
    FactWindows(calendar, rows);
  }

  /** retry_duplicate_count is null exactly where there are no facts or no timestamps;
      otherwise it is never negative, and 0 exactly when no two facts of the window
      report one observation. */
  lemma RetryDuplicates(calendar: Calendar, text: int -> string, rows: seq<Row>, log: seq<Extraction>, q: QualityRow)
    requires TimestampText(text) && q in QualityMart(calendar, text, rows, log)
    ensures q.retryDuplicates.Some? <==> q.facts.Some? && q.window.date.Some?
    ensures q.retryDuplicates.Some? ==>
      && q.retryDuplicates.value >= 0
      && (q.retryDuplicates.value == 0 <==> ApartIn(FactTable(calendar, rows), WindowKey, q.window, SameObservation))
  {
    var facts := FactTable(calendar, rows);
    DuplicateColumn(calendar, text, rows, log, q);
    if q.retryDuplicates.Some? {
      var g := Group(facts, WindowKey, q.window);
      forall f | f in g ensures f.lastContactAt.Some? {
        var i :| 0 <= i < |facts| && facts[i] == f;
        assert f == FactOf(calendar, rows[i]);
      }
      GroupDuplicates(text, g);
      GroupApart(facts, WindowKey, q.window, SameObservation);
    }
  }

  // ----- what the unique id says about the mart -----

  /** A stored row of an event with the collector's id (EventToRow of its own payload). */
  ghost predicate CollectorRow(uuid5: string -> string, r: Row) {
    r == EventToRow(r.payload) && I.CollectorId(uuid5, r.payload)
  }

  /** The unique index on ingestion_id. */
  ghost predicate UniqueIds(rows: seq<Row>) {
    forall i, j :: 0 <= i < j < |rows| ==> Key(rows[i].id) != Key(rows[j].id)
  }

  /** The rows differ in source, or in the spelling of icao24 that staging removes. */
  predicate Variants(a: Row, b: Row) {
    a.source != b.source || a.icao24 != b.icao24
  }

  /** Two stored collector rows with one observation cannot be a retry: the ids would be
      equal. */
  lemma SameObservationMeansVariants(uuid5: string -> string, calendar: Calendar, a: Row, b: Row)
    requires CollectorRow(uuid5, a) && CollectorRow(uuid5, b) && Key(a.id) != Key(b.id)
    requires SameObservation(FactOf(calendar, a), FactOf(calendar, b))
    ensures Variants(a, b)
  {}

  /** Two stored rows of window w that report one observation as two variants. */
  ghost predicate VariantPair(calendar: Calendar, rows: seq<Row>, w: Window, i: int, j: int) {
    && 0 <= i < j < |rows| && Variants(rows[i], rows[j])
    && FactOf(calendar, rows[i]).window == FactOf(calendar, rows[j]).window == w
    && SameObservation(FactOf(calendar, rows[i]), FactOf(calendar, rows[j]))
  }

  lemma ApartUnlessVariants(uuid5: string -> string, calendar: Calendar, rows: seq<Row>, w: Window)
    requires UniqueIds(rows) && forall r :: r in rows ==> CollectorRow(uuid5, r)
    ensures !ApartIn(FactTable(calendar, rows), WindowKey, w, SameObservation) <==>
      exists i, j :: VariantPair(calendar, rows, w, i, j)
  {
    var facts := FactTable(calendar, rows);
    if !ApartIn(facts, WindowKey, w, SameObservation) {
      var i, j :| 0 <= i < j < |facts| && WindowKey(facts[i]) == w && WindowKey(facts[j]) == w &&
        SameObservation(facts[i], facts[j]);
      assert rows[i] in rows && rows[j] in rows;
      SameObservationMeansVariants(uuid5, calendar, rows[i], rows[j]);
      assert VariantPair(calendar, rows, w, i, j);
    }
    if i, j :| VariantPair(calendar, rows, w, i, j) {
      assert SameObservation(facts[i], facts[j]) && WindowKey(facts[i]) == w && WindowKey(facts[j]) == w;
    }
  }

  /** Over collector rows the column counts no retries at all: it is positive exactly when
      some window holds one observation under two sources or two spellings of icao24. */
  lemma DuplicatesAreVariants(uuid5: string -> string, calendar: Calendar, text: int -> string, rows: seq<Row>,
                              log: seq<Extraction>, q: QualityRow)
    requires TimestampText(text) && q in QualityMart(calendar, text, rows, log)
    requires UniqueIds(rows) && forall r :: r in rows ==> CollectorRow(uuid5, r)
    ensures q.retryDuplicates.Some? ==>
      (q.retryDuplicates.value > 0 <==> exists i, j :: VariantPair(calendar, rows, q.window, i, j))
  {
    RetryDuplicates(calendar, text, rows, log, q);
    ApartUnlessVariants(uuid5, calendar, rows, q.window);
  }

  /** One source and icao24 text already in its normal form: the column is 0 in every
      window with observations. */
  lemma NoRetryDuplicates(uuid5: string -> string, calendar: Calendar, text: int -> string, rows: seq<Row>,
                          log: seq<Extraction>, source: string, q: QualityRow)
    requires TimestampText(text) && q in QualityMart(calendar, text, rows, log)
    requires UniqueIds(rows)
    requires forall r ::
      r in rows ==> CollectorRow(uuid5, r) && r.source == source && NormalIcao24(r.icao24) == r.icao24
    ensures q.facts.Some? ==> q.retryDuplicates == Some(0)
  {
    hide VariantPair, QualityMart, ApartIn;
    DuplicatesAreVariants(uuid5, calendar, text, rows, log, q);
    RetryDuplicates(calendar, text, rows, log, q);
    NoVariants(calendar, rows, source, q.window);
    if q.facts.Some? {
      FactsShown(calendar, text, rows, log, q);
      KeysHaveTimestamps(calendar, rows, q.window);
    }
  }

  lemma NoVariants(calendar: Calendar, rows: seq<Row>, source: string, w: Window)
    requires forall r :: r in rows ==> r.source == source && NormalIcao24(r.icao24) == r.icao24
    ensures forall i, j :: !VariantPair(calendar, rows, w, i, j)
  {
    forall i | 0 <= i < |rows| ensures rows[i].source == source && NormalIcao24(rows[i].icao24) == rows[i].icao24 {
      assert rows[i] in rows;
    }
  }

  /** A mart row has facts exactly if its window is a window of the facts. */
  lemma FactsShown(calendar: Calendar, text: int -> string, rows: seq<Row>, log: seq<Extraction>, q: QualityRow)
    requires q in QualityMart(calendar, text, rows, log)
    ensures q.facts.Some? <==> q.window in Keys(FactTable(calendar, rows), WindowKey)
  {
    var mart := QualityMart(calendar, text, rows, log);
    var i :| 0 <= i < |mart| && mart[i] == q;
    ChecksDoNotFanOut(calendar, text, rows, log);
    if q.facts.Some? {
      PairOf(calendar, rows, log, i);
    } else {
      FactPairs(calendar, rows, log);
      ExtractionPairs(calendar, rows, log);
    }
  }

  lemma KeysHaveTimestamps(calendar: Calendar, rows: seq<Row>, w: Window)
    requires w in Keys(FactTable(calendar, rows), WindowKey)
    requires forall r :: r in rows ==> r.payload.lastContact.Some?
    ensures w.date.Some?
  {
    var facts := FactTable(calendar, rows);
    var f := KeyFrom(facts, WindowKey, w);
    var k :| 0 <= k < |facts| && facts[k] == f;
    assert rows[k] in rows && f == FactOf(calendar, rows[k]);
  }

  /** Without those hypotheses the column reports duplicates that no retry made: one
      observation reported by two sources is two rows with two ids. */
  lemma TwoSourcesLookLikeARetry(uuid5: string -> string, calendar: Calendar, text: int -> string, a: Row, b: Row)
    requires TimestampText(text) && CollectorRow(uuid5, a) && CollectorRow(uuid5, b)
    requires a.source != b.source && a.icao24 == b.icao24 && a.payload.lastContact == b.payload.lastContact
    requires Key(a.id) != Key(b.id)
    ensures exists q ::
      q in QualityMart(calendar, text, [a, b], []) && q.retryDuplicates.Some? && q.retryDuplicates.value > 0
  {
    var rows, w := [a, b], FactOf(calendar, a).window;
    var facts := FactTable(calendar, rows);
    assert facts[0] == FactOf(calendar, a) && facts[1] == FactOf(calendar, b);
    assert WindowKey(facts[0]) in ShownWindows(calendar, rows, []);
    ShownInMart(calendar, text, rows, [], w);
    var mart := QualityMart(calendar, text, rows, []);
    var i :| 0 <= i < |mart| && mart[i].window == w;
    TwoFactsCounted(calendar, text, rows, mart[i]);
  }

  lemma TwoFactsCounted(calendar: Calendar, text: int -> string, rows: seq<Row>, q: QualityRow)
    requires TimestampText(text) && q in QualityMart(calendar, text, rows, []) && |rows| == 2
    requires q.window.date.Some? && FactOf(calendar, rows[0]).window == FactOf(calendar, rows[1]).window == q.window
    requires SameObservation(FactOf(calendar, rows[0]), FactOf(calendar, rows[1]))
    ensures q.retryDuplicates.Some? && q.retryDuplicates.value > 0
  {
    var facts := FactTable(calendar, rows);
    assert WindowKey(facts[0]) in Keys(facts, WindowKey) by { assert facts[0] in facts; }
    FactsShown(calendar, text, rows, [], q);
    RetryDuplicates(calendar, text, rows, [], q);
    assert WindowKey(facts[0]) == q.window && WindowKey(facts[1]) == q.window && SameObservation(facts[0], facts[1]);
  }

  // ----- end to end -----

  /** rows lists the table, in any order. */
  ghost predicate Lists(rows: seq<Row>, t: Table) {
    && UniqueIds(rows)
    && forall r :: r in rows ==> Key(r.id) in t && t[Key(r.id)] == r
  }

  /** A collector row of this source with its icao24 text in normal form. */
  ghost predicate PlainRow(uuid5: string -> string, source: string, r: Row) {
    CollectorRow(uuid5, r) && r.source == source && NormalIcao24(r.icao24) == r.icao24
  }

  ghost predicate PlainRows(uuid5: string -> string, source: string, rows: seq<Row>) {
    forall i :: 0 <= i < |rows| ==> PlainRow(uuid5, source, rows[i])
  }

  ghost predicate PlainTable(uuid5: string -> string, source: string, t: Table) {
    forall k :: k in t ==> PlainRow(uuid5, source, t[k])
  }

  ghost predicate PlainEvents(uuid5: string -> string, source: string, events: seq<TelemetryEvent>) {
    forall e :: e in events ==>
      I.CollectorId(uuid5, e) && e.source == source && NormalIcao24(e.icao24) == e.icao24
  }

  lemma InsertKeepsPlain(uuid5: string -> string, source: string, t: Table, rows: seq<Row>)
    requires PlainTable(uuid5, source, t) && PlainRows(uuid5, source, rows)
    ensures PlainTable(uuid5, source, InsertAll(t, rows))
  {
    InsertAllMeaning(t, rows);
    forall k | k in InsertAll(t, rows) && k !in t ensures PlainRow(uuid5, source, InsertAll(t, rows)[k]) {
      WithKeyMembers(rows, k);
      assert WithKey(rows, k)[0] in WithKey(rows, k);
    }
  }

  lemma {:induction false} SerialKeepsPlain(uuid5: string -> string, source: string, base: Table,
                                            batches: seq<seq<Row>>)
    requires PlainTable(uuid5, source, base)
    requires forall i :: 0 <= i < |batches| ==> PlainRows(uuid5, source, batches[i])
    ensures PlainTable(uuid5, source, T.Serial(base, batches))
  {
    if batches != [] {
      var n := |batches| - 1;
      SerialKeepsPlain(uuid5, source, base, batches[..n]);
      InsertKeepsPlain(uuid5, source, T.Serial(base, batches[..n]), batches[n]);
    }
  }

  lemma PlainTableReportsNone(uuid5: string -> string, calendar: Calendar, text: int -> string, t: Table,
                              rows: seq<Row>, log: seq<Extraction>, source: string, q: QualityRow)
    requires TimestampText(text) && Lists(rows, t) && PlainTable(uuid5, source, t)
    requires q in QualityMart(calendar, text, rows, log)
    ensures q.facts.Some? ==> q.retryDuplicates == Some(0)
  {
    forall r | r in rows ensures PlainRow(uuid5, source, r) {
      assert t[Key(r.id)] == r;
    }
    NoRetryDuplicates(uuid5, calendar, text, rows, log, source, q);
  }

  /** Whatever concurrent batches of one collector source were committed, over any table of
      such rows, in whatever interleaving and however often each was repeated, the mart
      built on the table reports no retry duplicate. */
  lemma ConcurrentRunsReportNoDuplicates(uuid5: string -> string, calendar: Calendar, text: int -> string,
                                         base: Table, schedule: seq<T.Action>,
                                         rows: seq<Row>, log: seq<Extraction>, source: string, q: QualityRow)
    requires TimestampText(text) && T.Run(T.Initial(base), schedule).Some? && PlainTable(uuid5, source, base)
    requires var end := T.Run(T.Initial(base), schedule).value;
      && Lists(rows, end.table)
      && forall i :: 0 <= i < |T.CommittedBatches(end)| ==> PlainRows(uuid5, source, T.CommittedBatches(end)[i])
    requires q in QualityMart(calendar, text, rows, log)
    ensures q.facts.Some? ==> q.retryDuplicates == Some(0)
  {
    var end := T.Run(T.Initial(base), schedule).value;
    T.Conservation(base, schedule);
    SerialKeepsPlain(uuid5, source, base, T.CommittedBatches(end));
    PlainTableReportsNone(uuid5, calendar, text, end.table, rows, log, source, q);
  }

  lemma NormalizedPlain(uuid5: string -> string, source: string, events: seq<TelemetryEvent>)
    requires PlainEvents(uuid5, source, events)
    ensures PlainEvents(uuid5, source, P.Normalize(events))
  {
    var n := P.Normalize(events);
    forall e | e in n ensures I.CollectorId(uuid5, e) && e.source == source && NormalIcao24(e.icao24) == e.icao24 {
      var i :| 0 <= i < |n| && n[i] == e;
      assert events[i] in events;
    }
  }

  /** What the worker inserts for a collector batch. */
  lemma BatchPlain(uuid5: string -> string, source: string, events: seq<TelemetryEvent>)
    requires PlainEvents(uuid5, source, events)
    ensures PlainRows(uuid5, source, P.BatchRows(events))
  {
    NormalizedPlain(uuid5, source, events);
    var n := P.Normalize(events);
    var kept := P.Dedupe(n);
    P.DedupeSubset(n);
    SortRowsSorts(EventRows(kept));
    var rows := P.BatchRows(events);
    forall i | 0 <= i < |rows| ensures PlainRow(uuid5, source, rows[i]) {
      assert rows[i] in EventRows(kept);
      var j :| 0 <= j < |kept| && EventRows(kept)[j] == rows[i];
      assert kept[j] in kept;
    }
  }

  ghost predicate PlainClients(uuid5: string -> string, source: string, clients: seq<P.Payload>) {
    forall r :: 0 <= r < |clients| && clients[r].Valid? ==> PlainEvents(uuid5, source, clients[r].events)
  }

  lemma ClientBatchesPlain(uuid5: string -> string, source: string, clients: seq<P.Payload>, order: seq<nat>)
    requires PlainClients(uuid5, source, clients)
    ensures forall i :: 0 <= i < |order| ==> PlainRows(uuid5, source, D.Batches(clients, order)[i])
  {
    forall i | 0 <= i < |order| ensures PlainRows(uuid5, source, D.Batches(clients, order)[i]) {
      if order[i] < |clients| && clients[order[i]].Valid? { BatchPlain(uuid5, source, clients[order[i]].events); }
    }
  }

  /** End to end: in every reachable state of the pipeline, with forwards repeated by the
      balancer, batches enqueued twice, jobs redelivered, lost or half done, the mart built
      on the table reports no retry duplicate if the clients are collectors of one source. */
  lemma PipelineReportsNoDuplicates(uuid5: string -> string, calendar: Calendar, text: int -> string,
                                    cfg: D.Config, urls: seq<string>, base: Table, schedule: seq<D.Action>,
                                    rows: seq<Row>, log: seq<Extraction>, source: string, q: QualityRow)
    requires TimestampText(text) && D.Run(cfg, D.Initial(urls, base), schedule).Some?
    requires PlainTable(uuid5, source, base)
    requires var w := D.Run(cfg, D.Initial(urls, base), schedule).value;
      PlainClients(uuid5, source, w.clients) && Lists(rows, w.sys.db.table)
    requires q in QualityMart(calendar, text, rows, log)
    ensures q.facts.Some? ==> q.retryDuplicates == Some(0)
  {
    var w := D.Run(cfg, D.Initial(urls, base), schedule).value;
    var order := D.EveryBatchOnce(cfg, urls, base, schedule);
    ClientBatchesPlain(uuid5, source, w.clients, order);
    SerialKeepsPlain(uuid5, source, base, D.Batches(w.clients, order));
    PlainTableReportsNone(uuid5, calendar, text, w.sys.db.table, rows, log, source, q);
  }
}
