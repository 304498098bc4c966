/** The landing table and the batch insert of worker/persistence.py. */
module Store {
  import opened Common
  import opened Ids
  import opened Telemetry

  /** A row of raw_telemetry in the order of _INSERT_COLUMNS; `payload` keeps the
      whole event. */
  datatype Row = Row(id: string, source: string, icao24: string,
                     collectorId: Option<string>, payload: TelemetryEvent, ingestedAt: string)

  /** raw_telemetry, indexed by the UUID value of ingestion_id. */
  type Table = map<string, Row>

  function EventToRow(e: TelemetryEvent): Row {
    Row(e.ingestionId, e.source, e.icao24, e.collectorId, e, e.ingestedAt)
  }

  function EventRows(events: seq<TelemetryEvent>): (rows: seq<Row>)
    ensures |rows| == |events|
    ensures forall i :: 0 <= i < |rows| ==> rows[i] == EventToRow(events[i])
  {
    seq(|events|, i requires 0 <= i < |events| => EventToRow(events[i]))
  }

  // ----- row-by-row insertion -----

  /** `INSERT ... ON CONFLICT (ingestion_id) DO NOTHING` for one row. */
  function InsertRow(t: Table, r: Row): Table {
    if Key(r.id) in t then t else t[Key(r.id) := r]
  }

  function InsertAll(t: Table, rows: seq<Row>): Table
    decreases rows
  {
    if rows == [] then t else InsertAll(InsertRow(t, rows[0]), rows[1..])
  }

  /** The rows a call of persist_batch adds, which is what it promises to return. */
  function Growth(t: Table, rows: seq<Row>): int {
    |InsertAll(t, rows)| - |t|
  }

  lemma NothingInserted(t: Table)
    ensures InsertAll(t, []) == t
  {}

  ghost function KeysOf(rows: seq<Row>): set<string> {
    set r | r in rows :: Key(r.id)
  }

  /** The rows with key k, in batch order. */
  function WithKey(rows: seq<Row>, k: string): seq<Row> {
    if rows == [] then []
    else if Key(rows[0].id) == k then [rows[0]] + WithKey(rows[1..], k)
    else WithKey(rows[1..], k)
  }

  lemma {:induction false} WithKeyMembers(rows: seq<Row>, k: string)
    ensures forall r :: r in WithKey(rows, k) <==> r in rows && Key(r.id) == k
    ensures WithKey(rows, k) != [] <==> k in KeysOf(rows)
  {
    if rows != [] {
      assert rows == [rows[0]] + rows[1..];
      WithKeyMembers(rows[1..], k);
    }
    if k in KeysOf(rows) {
      var r :| r in rows && Key(r.id) == k;
      assert r in WithKey(rows, k);
    }
    if WithKey(rows, k) != [] {
      var r := WithKey(rows, k)[0];
      assert r in WithKey(rows, k);
      assert r in rows && Key(r.id) == k;
    }
  }

  /** r is the first row of the batch with key k: the one that can be stored. */
  predicate IsFirst(rows: seq<Row>, k: string, r: Row) {
    WithKey(rows, k) != [] && WithKey(rows, k)[0] == r
  }

  lemma {:induction false} WithKeyAppend(a: seq<Row>, b: seq<Row>, k: string)
    ensures WithKey(a + b, k) == WithKey(a, k) + WithKey(b, k)
  {
    if a == [] {
      assert a + b == b;
    } else {
      assert (a + b)[1..] == a[1..] + b;
      WithKeyAppend(a[1..], b, k);
    }
  }

  /** What insertion means, with no reference to the order of steps: old rows stay,
      and each new key gets the first row of the batch that carries it. */
  ghost predicate IsInsertion(t: Table, rows: seq<Row>, u: Table) {
    && u.Keys == t.Keys + KeysOf(rows)
    && (forall k :: k in t ==> u[k] == t[k])
    && (forall k :: k in KeysOf(rows) && k !in t ==> IsFirst(rows, k, u[k]))
  }

  lemma {:induction false} InsertAllMeaning(t: Table, rows: seq<Row>)
    ensures IsInsertion(t, rows, InsertAll(t, rows))
    decreases rows
  {
    if rows != [] {
      var next := InsertRow(t, rows[0]);
      InsertAllMeaning(next, rows[1..]);
      OneRowMore(t, rows, InsertAll(next, rows[1..]));
    } else {
      assert KeysOf(rows) == {};
    }
  }

  /** The description of inserting the rest after the first row describes inserting all. */
  lemma OneRowMore(t: Table, rows: seq<Row>, u: Table)
    requires rows != [] && IsInsertion(InsertRow(t, rows[0]), rows[1..], u)
    ensures IsInsertion(t, rows, u)
  {
    KeysOfSplit(rows);
    forall k | k in KeysOf(rows) && k !in t ensures IsFirst(rows, k, u[k]) {
      FirstOfRest(rows, k);
    }
  }

  lemma FirstOfRest(rows: seq<Row>, k: string)
    requires rows != []
    ensures WithKey(rows, k) == if Key(rows[0].id)
      == k then [rows[0]] + WithKey(rows[1..], k) else WithKey(rows[1..], k)
  {}

  lemma KeysOfSplit(rows: seq<Row>)
    requires rows != []
    ensures KeysOf(rows) == {Key(rows[0].id)} + KeysOf(rows[1..])
  {
    assert rows == [rows[0]] + rows[1..];
    KeysOfAppend([rows[0]], rows[1..]);
    assert KeysOf([rows[0]]) == {Key(rows[0].id)};
  }

  lemma InsertionUnique(t: Table, rows: seq<Row>, u: Table)
    requires IsInsertion(t, rows, u)
    ensures u == InsertAll(t, rows)
  {
    InsertAllMeaning(t, rows);
    MeaningDetermines(t, rows, u, InsertAll(t, rows));
  }

  lemma MeaningDetermines(t: Table, rows: seq<Row>, u: Table, v: Table)
    requires IsInsertion(t, rows, u) && IsInsertion(t, rows, v)
    ensures u == v
  {
    assert u.Keys == v.Keys;
    forall k | k in u.Keys ensures u[k] == v[k] {
      assert k in t || k in KeysOf(rows);
    }
  }

  lemma {:induction false} InsertAllAppend(t: Table, a: seq<Row>, b: seq<Row>)
    ensures InsertAll(t, a + b) == InsertAll(InsertAll(t, a), b)
    decreases a
  {
    if a == [] {
      assert a + b == b;
    } else {
      assert (a + b)[1..] == a[1..] + b;
      InsertAllAppend(InsertRow(t, a[0]), a[1..], b);
    }
  }

  lemma KeysOfAppend(a: seq<Row>, b: seq<Row>)
    ensures KeysOf(a + b) == KeysOf(a) + KeysOf(b)
  {
    forall k ensures k in KeysOf(a + b) <==> k in KeysOf(a) + KeysOf(b) {
      if k in KeysOf(a + b) {
        var r :| r in a + b && Key(r.id) == k;
        assert r in a || r in b;
      }
      if k in KeysOf(a) {
        var r :| r in a && Key(r.id) == k;
        assert r in a + b;
      }
      if k in KeysOf(b) {
        var r :| r in b && Key(r.id) == k;
        assert r in a + b;
      }
    }
  }

  /** Inserting the same rows again changes nothing. */
  lemma InsertAllAbsorbs(t: Table, rows: seq<Row>)
    requires KeysOf(rows) <= t.Keys
    ensures InsertAll(t, rows) == t
  {
    assert IsInsertion(t, rows, t);
    InsertionUnique(t, rows, t);
  }

  // ----- chunked insertion refines row-by-row insertion -----

  /** The final table and the running total of the chunk loop. */
  function InsertChunks(t: Table, stmts: seq<seq<Row>>): (Table, int)
    decreases stmts
  {
    if stmts == [] then (t, 0)
    else
      var (u, n) := InsertChunks(InsertAll(t, stmts[0]), stmts[1..]);
      (u, Growth(t, stmts[0]) + n)
  }

  lemma {:induction false} InsertChunksFlatten(t: Table, stmts: seq<seq<Row>>)
    ensures InsertChunks(t, stmts) == (InsertAll(t, Flatten(stmts)), Growth(t, Flatten(stmts)))
    decreases stmts
  {
    if stmts != [] {
      InsertChunksFlatten(InsertAll(t, stmts[0]), stmts[1..]);
      InsertAllAppend(t, stmts[0], Flatten(stmts[1..]));
    }
  }

  /** For every batch and every chunk size the chunk loop runs ceil(n / size)
      statements and leaves the table and the count of the row-by-row loop. */
  lemma ChunkedInsertRefinesRowByRow(t: Table, rows: seq<Row>, size: nat)
    requires size >= 1
    ensures InsertChunks(t, Chunks(rows, size)) == (InsertAll(t, rows), Growth(t, rows))
    ensures |Chunks(rows, size)| == CeilDiv(|rows|, size)
  {
    InsertChunksFlatten(t, Chunks(rows, size));
    ChunkCount(rows, size);
  }

  // ----- the sort -----

  predicate RowLe(a: Row, b: Row) {
    LexLe(a.id, b.id)
  }

  function SortRows(rows: seq<Row>): (s: seq<Row>)
    ensures multiset(s) == multiset(rows)
    ensures |s| == |rows|
  {
    Sort(rows, RowLe)
  }

  lemma RowLePreorder()
    ensures TotalPreorder(RowLe)
  {
    forall x: Row, y: Row ensures RowLe(x, y) || RowLe(y, x) { LexTotal(x.id, y.id); }
    forall x: Row, y: Row, z: Row | RowLe(x, y) && RowLe(y, z) ensures RowLe(x, z) {
      LexTransitive(x.id, y.id, z.id);
    }
  }

  lemma SortRowsSorts(rows: seq<Row>)
    ensures SortedBy(SortRows(rows), RowLe)
    ensures forall r :: r in SortRows(rows) <==> r in rows
    ensures KeysOf(SortRows(rows)) == KeysOf(rows)
  {
    RowLePreorder();
    SortSorts(rows, RowLe);
    SortKeepsElements(rows, RowLe);
  }

  lemma WithKeyFirst(x: Row, s: seq<Row>, k: string)
    ensures WithKey([x] + s, k) == (if Key(x.id) == k then [x] else []) + WithKey(s, k)
  {
    assert ([x] + s)[1..] == s;
  }

  /** The rows written with exactly this text, in batch order. */
  function WithText(rows: seq<Row>, id: string): seq<Row> {
    if rows == [] then []
    else if rows[0].id == id then [rows[0]] + WithText(rows[1..], id)
    else WithText(rows[1..], id)
  }

  lemma {:induction false} InsertStable(x: Row, s: seq<Row>, id: string)
    ensures WithText(InsertInOrder(x, s, RowLe), id) == (if x.id == id then [x] else []) + WithText(s, id)
  {
    if s == [] || RowLe(x, s[0]) {
      assert ([x] + s)[1..] == s;
    } else {
      LexReflexive(x.id);
      var tail := InsertInOrder(x, s[1..], RowLe);
      InsertStable(x, s[1..], id);
      assert ([s[0]] + tail)[1..] == tail;
    }
  }

  /** Stability: rows with the same text keep their batch order. */
  lemma {:induction false} SortRowsStable(rows: seq<Row>, id: string)
    ensures WithText(SortRows(rows), id) == WithText(rows, id)
  {
    if rows != [] {
      SortRowsStable(rows[1..], id);
      InsertStable(rows[0], SortRows(rows[1..]), id);
    }
  }

  lemma {:induction false} InsertWithKey(x: Row, s: seq<Row>, k: string)
    requires SortedBy(s, RowLe)
    ensures WithKey(InsertInOrder(x, s, RowLe), k) ==
      if Key(x.id) == k then InsertInOrder(x, WithKey(s, k), RowLe) else WithKey(s, k)
  {
    var w := WithKey(s, k);
    if s == [] || RowLe(x, s[0]) {
      WithKeyFirst(x, s, k);
      if w != [] { FirstAbove(x, s, k); }
    } else {
      var tail := InsertInOrder(x, s[1..], RowLe);
      InsertWithKey(x, s[1..], k);
      WithKeyFirst(s[0], tail, k);
    }
  }

  /** Below the least row of a sorted sequence is below the first row of each key. */
  lemma FirstAbove(x: Row, s: seq<Row>, k: string)
    requires SortedBy(s, RowLe) && s != [] && RowLe(x, s[0]) && WithKey(s, k) != []
    ensures RowLe(x, WithKey(s, k)[0])
  {
    var f := WithKey(s, k)[0];
    WithKeyMembers(s, k);
    assert f in WithKey(s, k);
    var i :| 0 <= i < |s| && s[i] == f;
    if i > 0 { LexTransitive(x.id, s[0].id, s[i].id); }
  }

  /** Sorting the batch sorts the rows of each key among themselves. */
  lemma {:induction false} SortWithKey(rows: seq<Row>, k: string)
    ensures WithKey(SortRows(rows), k) == SortRows(WithKey(rows, k))
  {
    if rows != [] {
      SortWithKey(rows[1..], k);
      SortRowsSorts(rows[1..]);
      InsertWithKey(rows[0], SortRows(rows[1..]), k);
      if Key(rows[0].id) == k {
        assert WithKey(rows, k)[1..] == WithKey(rows[1..], k);
      }
    }
  }

  // ----- which batches the store cannot tell apart -----

  function FirstRow(rows: seq<Row>, k: string): Option<Row> {
    var w := WithKey(rows, k);
    if w == [] then None else Some(w[0])
  }

  ghost predicate SameFirsts(a: seq<Row>, b: seq<Row>) {
    forall k :: FirstRow(a, k) == FirstRow(b, k)
  }

  lemma FirstRowOfEmpty(rows: seq<Row>, k: string)
    ensures var u := InsertAll(map[], rows); FirstRow(rows, k) == if k in u then Some(u[k]) else None
  {
    InsertAllMeaning(map[], rows);
    WithKeyMembers(rows, k);
  }

  lemma SameFirstsInsert(t: Table, a: seq<Row>, b: seq<Row>)
    requires SameFirsts(a, b)
    ensures InsertAll(t, a) == InsertAll(t, b)
  {
    forall k ensures k in KeysOf(a) <==> k in KeysOf(b) {
      WithKeyMembers(a, k);
      WithKeyMembers(b, k);
      assert FirstRow(a, k) == FirstRow(b, k);
    }
    assert KeysOf(a) == KeysOf(b);
    InsertAllMeaning(t, a);
    forall k | k in KeysOf(b) && k !in t ensures IsFirst(b, k, InsertAll(t, a)[k]) {
      WithKeyMembers(b, k);
      assert FirstRow(a, k) == FirstRow(b, k);
    }
    InsertionUnique(t, b, InsertAll(t, a));
  }

  /** Two batches leave every table alike if and only if each key has the same first row
      in both. */
  lemma SameFirstsIff(a: seq<Row>, b: seq<Row>)
    ensures SameFirsts(a, b) <==> forall t: Table :: InsertAll(t, a) == InsertAll(t, b)
  {
    if SameFirsts(a, b) {
      forall t: Table ensures InsertAll(t, a) == InsertAll(t, b) { SameFirstsInsert(t, a, b); }
    } else {
      var k :| FirstRow(a, k) != FirstRow(b, k);
      FirstRowOfEmpty(a, k);
      FirstRowOfEmpty(b, k);
      assert InsertAll(map[], a) != InsertAll(map[], b);
    }
  }

  /** Of the spellings of one UUID in the batch, the first row has the least. Batches
      with one spelling of each, as canonical ids give, are of this kind. */
  ghost predicate FirstSpellingLeast(rows: seq<Row>) {
    forall k :: FirstLeast(WithKey(rows, k))
  }

  ghost predicate FirstLeast(w: seq<Row>) {
    forall i :: 0 <= i < |w| ==> RowLe(w[0], w[i])
  }

  lemma SortKeepsFirst(w: seq<Row>)
    requires w != []
    ensures SortRows(w)[0] == w[0] <==> FirstLeast(w)
  {
    var s := SortRows(w);
    SortRowsSorts(w);
    if s[0] == w[0] {
      forall i | 0 <= i < |w| ensures RowLe(w[0], w[i]) {
        assert w[i] in s;
        var j :| 0 <= j < |s| && s[j] == w[i];
        if j == 0 { LexReflexive(w[0].id); }
      }
    }
    if FirstLeast(w) {
      SortRowsSorts(w[1..]);
      var tail := SortRows(w[1..]);
      if tail != [] {
        assert tail[0] in w[1..];
      }
    }
  }

  lemma SortKeepsFirstRow(rows: seq<Row>, k: string)
    ensures FirstRow(SortRows(rows), k) == FirstRow(rows, k) <==> FirstLeast(WithKey(rows, k))
  {
    SortWithKey(rows, k);
    if WithKey(rows, k) != [] { SortKeepsFirst(WithKey(rows, k)); }
  }

  /** Sorting before inserting is invisible, in the stored map and hence in the count of
      every table, if and only if each UUID's first row in the batch has the least text. */
  lemma SortInvisibleIff(rows: seq<Row>)
    ensures FirstSpellingLeast(rows) <==> forall t: Table :: InsertAll(t, SortRows(rows)) == InsertAll(t, rows)
  {
    SameFirstsIff(SortRows(rows), rows);
    if FirstSpellingLeast(rows) {
      forall k ensures FirstRow(SortRows(rows), k) == FirstRow(rows, k) { SortKeepsFirstRow(rows, k); }
    } else {
      var k :| !FirstLeast(WithKey(rows, k));
      SortKeepsFirstRow(rows, k);
    }
  }

  /** Equal keys are written the same way everywhere in the batch. */
  ghost predicate OneSpelling(rows: seq<Row>) {
    forall r, s :: r in rows && s in rows && Key(r.id) == Key(s.id) ==> r.id == s.id
  }

  lemma OneSpellingIsLeast(rows: seq<Row>)
    requires OneSpelling(rows)
    ensures FirstSpellingLeast(rows)
  {
    forall k ensures FirstLeast(WithKey(rows, k)) {
      var w := WithKey(rows, k);
      WithKeyMembers(rows, k);
      forall i | 0 <= i < |w| ensures RowLe(w[0], w[i]) {
        assert w[0] in w && w[i] in w;
        LexReflexive(w[0].id);
      }
    }
  }

  /** Batches on which the sort shows: one UUID in two spellings. Row by row the first row
      would be stored; sorted, the upper-case spelling comes first and its row is, whatever
      the two report. */
  lemma SpellingDecidesRow(r: Row, s: Row)
    requires UuidText(r.id) && r.id[0] == 'a' && s.id == r.id[0 := 'A']
    ensures UuidText(s.id) && Key(s.id) == Key(r.id)
    ensures InsertAll(map[], [r, s]) == map[Key(r.id) := r]
    ensures InsertAll(map[], SortRows([r, s])) == map[Key(r.id) := s]
  {
    assert Key(s.id) == Key(r.id);
    SortSwaps(r, s);
    InsertTwo(r, s);
    InsertTwo(s, r);
  }

  lemma SortSwaps(r: Row, s: Row)
    requires r.id != [] && s.id != [] && s.id[0] < r.id[0]
    ensures SortRows([r, s]) == [s, r]
  {
    assert [r, s][1..] == [s] && [s][1..] == [];
    assert Sort([s], RowLe) == [s];
  }

  lemma InsertTwo(r: Row, s: Row)
    requires Key(r.id) == Key(s.id)
    ensures InsertAll(map[], [r, s]) == map[Key(r.id) := r]
  {
    var one: Table := map[Key(r.id) := r];
    assert [r, s][1..] == [s] && [s][1..] == [];
    assert InsertRow(map[], r) == one && InsertRow(one, s) == one;
    assert InsertAll(one, [s]) == one;
  }

  // ----- persist_batch -----

  /** _INSERT_CHUNK_SIZE */
  const INSERT_CHUNK_SIZE := 2000

  /** What happens to one call: nothing, no connection, a break at the n-th statement, the
      n-th statement refused for a value other than an id (the text of a timestamp, a NUL
      character), a break at commit with the transaction rolled back, or a break at commit
      after the server had committed. */
  datatype Fault =
    | NoFault
    | ConnectFails
    | StatementFails(n: nat)
    | StatementRefused(n: nat)
    | CommitRolledBack
    | CommitUnacknowledged

  /** psycopg.OperationalError, PoolTimeout and OSError become PersistenceUnavailable;
      any other exception (a value the server refuses) leaves persist_batch as it is. */
  datatype PersistError = PersistenceUnavailable | DataError

  datatype PersistResult = Inserted(count: int) | Raised(error: PersistError)

  predicate WellFormed(rows: seq<Row>) {
    forall r :: r in rows ==> UuidText(r.id)
  }

  lemma SliceWellFormed(rows: seq<Row>, lo: nat, hi: nat)
    requires lo <= hi <= |rows| && !WellFormed(rows[lo..hi])
    ensures !WellFormed(rows)
  {
    var r :| r in rows[lo..hi] && !UuidText(r.id);
    assert r in rows;
  }

  lemma ChunkWellFormed(rows: seq<Row>, i: nat, end: nat)
    requires i <= end <= |rows| && WellFormed(rows[..i]) && WellFormed(rows[i..end])
    ensures WellFormed(rows[..end])
  {
    assert rows[..end] == rows[..i] + rows[i..end];
  }

  lemma NoneWellFormed(rows: seq<Row>)
    ensures WellFormed(rows[..0]) && WellFormed(rows[..|rows|]) == WellFormed(rows)
  {
    assert rows[..|rows|] == rows;
  }

  /** Before the statement at row i, `issued` statements have been issued. */
  predicate Issued(total: nat, i: nat, issued: nat) {
    i <= total && i == (if issued * 2000 <= total then issued * 2000 else total) && issued == CeilDiv(i, 2000)
  }

  lemma NextIssued(total: nat, i: nat, issued: nat)
    requires Issued(total, i, issued) && i < total
    ensures i / 2000 == issued < CeilDiv(total, 2000)
    ensures Issued(total, if i + 2000 <= total then i + 2000 else total, issued + 1)
  {}

  /** The fault hits one of the n statements. */
  predicate Hits(fault: Fault, n: nat) {
    (fault.StatementFails? || fault.StatementRefused?) && fault.n < n
  }

  lemma NothingIssued(total: nat, fault: Fault)
    ensures Issued(total, 0, 0) && !Hits(fault, 0)
  {}

  lemma AllIssued(total: nat, i: nat, issued: nat)
    requires Issued(total, i, issued) && i == total
    ensures issued == CeilDiv(total, 2000)
  {}

  /** The statement after `issued` others, of total rows in all. */
  lemma StatementHit(fault: Fault, issued: nat, total: nat)
    requires !Hits(fault, issued) && issued < CeilDiv(total, 2000)
    ensures (fault.StatementFails? || fault.StatementRefused?) && fault.n == issued ==>
      Hits(fault, CeilDiv(total, 2000))
    ensures !((fault.StatementFails? || fault.StatementRefused?) && fault.n == issued) ==> !Hits(fault, issued + 1)
  {}

  lemma SortWellFormed(rows: seq<Row>)
    ensures WellFormed(SortRows(rows)) <==> WellFormed(rows)
  {
    SortKeepsElements(rows, RowLe);
  }

  /** What a call may leave behind: the whole batch, which a count implies, or nothing.
      Ids that are not UUIDs are never stored. */
  ghost predicate PersistOutcome(before: Table, after: Table, events: seq<TelemetryEvent>, r: PersistResult) {
    var stored := after == InsertAll(before, SortRows(EventRows(events)));
    && (r.Inserted? ==> stored && r.count == |after| - |before|)
    && (after == before || stored)
    && (r.Inserted? || after != before ==> WellFormed(EventRows(events)))
  }

  /** The six columns of an event's row. */
  lemma ColumnsOfEvent(e: TelemetryEvent)
    ensures var r := EventToRow(e);
      && r.id == e.ingestionId && r.source == e.source && r.icao24 == e.icao24
      && r.collectorId == e.collectorId && r.payload == e && r.ingestedAt == e.ingestedAt
  {}

  /** A row that a batch brings to the table holds the values of one of its events. */
  lemma NewRowsAreEvents(before: Table, events: seq<TelemetryEvent>, k: string)
    requires var after := InsertAll(before, SortRows(EventRows(events))); k in after && k !in before
    ensures var r := InsertAll(before, SortRows(EventRows(events)))[k];
      exists e :: e in events && Key(e.ingestionId) == k && r == EventToRow(e)
  {
    var rows := SortRows(EventRows(events));
    InsertAllMeaning(before, rows);
    WithKeyMembers(rows, k);
    var r := InsertAll(before, rows)[k];
    assert r in WithKey(rows, k);
    SortKeepsElements(EventRows(events), RowLe);
    var i :| 0 <= i < |EventRows(events)| && EventRows(events)[i] == r;
    assert events[i] in events;
  }

  lemma OldRowsStay(before: Table, events: seq<TelemetryEvent>)
    ensures var after := InsertAll(before, SortRows(EventRows(events)));
      forall k :: k in before ==> k in after && after[k] == before[k]
  {
    InsertAllMeaning(before, SortRows(EventRows(events)));
  }

  /** What the two tables say of a call that stored its batch, or nothing. */
  lemma StoredValues(before: Table, after: Table, events: seq<TelemetryEvent>)
    requires after == before || after == InsertAll(before, SortRows(EventRows(events)))
    ensures forall k :: k in before ==> k in after && after[k] == before[k]
    ensures forall k :: k in after && k !in before ==> exists e ::
      && e in events && Key(e.ingestionId) == k
      && after[k].id == e.ingestionId && after[k].source == e.source && after[k].icao24 == e.icao24
      && after[k].collectorId == e.collectorId && after[k].ingestedAt == e.ingestedAt && after[k].payload == e
  {
    OldRowsStay(before, events);
    forall k | k in after && k !in before
      ensures exists e ::
        && e in events && Key(e.ingestionId) == k
        && after[k].id == e.ingestionId && after[k].source == e.source && after[k].icao24 == e.icao24
        && after[k].collectorId == e.collectorId && after[k].ingestedAt == e.ingestedAt && after[k].payload == e
    {
      NewRowsAreEvents(before, events, k);
      var e :| e in events && Key(e.ingestionId) == k && after[k] == EventToRow(e);
      ColumnsOfEvent(e);
    }
  }

  class RawTelemetry {
    var committed: Table
    var working: Table

    constructor (base: Table)
      ensures committed == base && working == base
    {
      committed := base;
      working := base;
    }

    /** One multi-row `INSERT ... ON CONFLICT DO NOTHING RETURNING ingestion_id`. */
    method Execute(stmt: seq<Row>) returns (returned: seq<string>)
      modifies this`working
      ensures working == InsertAll(old(working), stmt)
      ensures |returned| == Growth(old(working), stmt)
    {
      returned := [];
      var i := 0;
      while i < |stmt|
        invariant 0 <= i <= |stmt|
        invariant working == InsertAll(old(working), stmt[..i])
        invariant |returned| == |working| - |old(working)|
      {
        InsertAllAppend(old(working), stmt[..i], [stmt[i]]);
        assert stmt[..i + 1] == stmt[..i] + [stmt[i]];
        assert InsertAll(working, [stmt[i]]) == InsertRow(working, stmt[i]);
        if Key(stmt[i].id) !in working {
          returned := returned + [stmt[i].id];
          working := working[Key(stmt[i].id) := stmt[i]];
        }
        i := i + 1;
      }
      assert stmt[..|stmt|] == stmt;
    }

    /** The statements of the transaction, one for each chunk, until one fails. */
    method ExecuteChunks(rows: seq<Row>, fault: Fault) returns (newlyInserted: int, error: Option<PersistError>)
      requires working == committed
      modifies this`working
      ensures error.None? ==> working == InsertAll(committed, rows) && newlyInserted == |working| - |committed|
      ensures error.None? ==> WellFormed(rows)
      ensures error == Some(DataError) ==> !WellFormed(rows) || fault.StatementRefused?
      ensures error == Some(PersistenceUnavailable) ==> fault.StatementFails?
      ensures WellFormed(rows) ==> (error.None? <==> !Hits(fault, CeilDiv(|rows|, 2000)))
    {
      hide WellFormed, Issued, CeilDiv, Hits, InsertAll;
      NothingInserted(committed);
      newlyInserted := 0;
      var i := 0;
      ghost var issued: nat := 0;
      NothingIssued(|rows|, fault);
      NoneWellFormed(rows);
      while i < |rows|
        invariant 0 <= i <= |rows|
        invariant working == InsertAll(committed, rows[..i])
        invariant newlyInserted == |working| - |committed|
        invariant WellFormed(rows[..i])
        invariant Issued(|rows|, i, issued) && !Hits(fault, issued)
      {
        NextIssued(|rows|, i, issued);
        StatementHit(fault, issued, |rows|);
        var end := if i + INSERT_CHUNK_SIZE <= |rows| then i + INSERT_CHUNK_SIZE else |rows|;
        var chunkRows := rows[i..end];
        if fault.StatementFails? && fault.n == i / INSERT_CHUNK_SIZE {
          return newlyInserted, Some(PersistenceUnavailable);
        }
        if fault.StatementRefused? && fault.n == i / INSERT_CHUNK_SIZE {
          return newlyInserted, Some(DataError);
        }
        if !WellFormed(chunkRows) {
          SliceWellFormed(rows, i, end);
          return newlyInserted, Some(DataError);
        }
        ChunkWellFormed(rows, i, end);
        InsertAllAppend(committed, rows[..i], chunkRows);
        assert rows[..i] + chunkRows == rows[..end];
        var returned := Execute(chunkRows);
        newlyInserted := newlyInserted + |returned|;
        i, issued := end, issued + 1;
      }
      assert rows[..i] == rows;
      AllIssued(|rows|, i, issued);
      error := None;
    }

    /** All or nothing, whatever the connection does, and the count returned is
        exactly the growth of the table. */
    method PersistBatch(events: seq<TelemetryEvent>, fault: Fault) returns (r: PersistResult)
      modifies this
      ensures r.Inserted? ==>
        && committed == InsertAll(old(committed), SortRows(EventRows(events)))
        && r.count == |committed| - |old(committed)|
      ensures r == Raised(DataError) ==>
        committed == old(committed) && (!WellFormed(EventRows(events)) || fault.StatementRefused?)
      ensures r == Raised(PersistenceUnavailable) ==>
        || (committed == old(committed) && (fault.ConnectFails? || fault.StatementFails? || fault.CommitRolledBack?))
        || (fault.CommitUnacknowledged? && committed == InsertAll(old(committed), SortRows(EventRows(events))))
      ensures events != [] && WellFormed(EventRows(events)) ==>
        (r.Inserted? <==>
         !fault.ConnectFails? && !fault.CommitRolledBack? && !fault.CommitUnacknowledged? &&
         !Hits(fault, CeilDiv(|events|, 2000)))
      ensures r.Inserted? ==> WellFormed(EventRows(events))
      ensures forall k :: k in old(committed) ==> k in committed && committed[k] == old(committed)[k]
      ensures forall k :: k in committed && k !in old(committed) ==> exists e ::
        && e in events && Key(e.ingestionId) == k
        && committed[k].id == e.ingestionId && committed[k].source == e.source && committed[k].icao24 == e.icao24
        && committed[k].collectorId == e.collectorId && committed[k].ingestedAt == e.ingestedAt
        && committed[k].payload == e
      ensures events == [] ==> r == Inserted(0)
      ensures PersistOutcome(old(committed), committed, events, r)
    {
      if events == [] {
        return Inserted(0);
      }
      var rows := SortRows(EventRows(events));
      SortWellFormed(EventRows(events));
      if fault.ConnectFails? {
        return Raised(PersistenceUnavailable);
      }
      working := committed;
      var newlyInserted, error := ExecuteChunks(rows, fault);
      if error.Some? {
        return Raised(error.value);
      }
      if fault.CommitRolledBack? {
        return Raised(PersistenceUnavailable);
      }
      StoredValues(committed, working, events);
      committed := working;
      if fault.CommitUnacknowledged? {
        return Raised(PersistenceUnavailable);
      }
      return Inserted(newlyInserted);
    }
  }
}
