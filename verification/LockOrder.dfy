/** Exactly which batches are safe to run beside every lock-ordered batch, and how
    spelling an id in upper case defeats the sort of worker/persistence.py:163. */
module LockOrder {
  import opened Common
  import opened Ids
  import opened Store
  import opened Telemetry
  import opened Transactions

  /** Two transactions, chunked as persist_batch chunks them, over an empty table. */
  function Pair(b: seq<Row>, c: seq<Row>, size: nat): Db
    requires size >= 1
  {
    Db(map[], [Start(Chunks(b, size)), Start(Chunks(c, size))], [])
  }

  lemma PairInv(b: seq<Row>, c: seq<Row>, size: nat)
    requires size >= 1
    ensures Inv(map[], Pair(b, c, size))
    ensures Pair(b, c, size).txs[0].batch == b && Pair(b, c, size).txs[1].batch == c
  {
    var first, second := Begin(Chunks(b, size)), Begin(Chunks(c, size));
    InitialInv(map[]);
    BeginKeepsInv(map[], Initial(map[]), first);
    var one := Step(Initial(map[]), first).value;
    BeginKeepsInv(map[], one, second);
    assert Step(one, second).value == Pair(b, c, size);
  }

  ghost predicate NoBegin(schedule: seq<Action>) {
    forall a :: a in schedule ==> !a.Begin?
  }

  /** The schedule starts with the two begins of b and c, the only ones in it. */
  ghost predicate TwoCalls(b: seq<Row>, c: seq<Row>, size: nat, schedule: seq<Action>)
    requires size >= 1
  {
    && |schedule| >= 2
    && schedule[0] == Begin(Chunks(b, size)) && schedule[1] == Begin(Chunks(c, size))
    && NoBegin(schedule[2..])
  }

  lemma FromPair(b: seq<Row>, c: seq<Row>, size: nat, rest: seq<Action>) returns (schedule: seq<Action>)
    requires size >= 1 && NoBegin(rest)
    ensures TwoCalls(b, c, size, schedule)
    ensures Run(Initial(map[]), schedule) == Run(Pair(b, c, size), rest)
  {
    var first, second := Begin(Chunks(b, size)), Begin(Chunks(c, size));
    schedule := [first, second] + rest;
    var one := Step(Initial(map[]), first).value;
    assert one == Db(map[], [Start(Chunks(b, size))], []);
    assert Step(one, second).value == Pair(b, c, size);
    assert schedule[1..] == [second] + rest && schedule[1..][1..] == rest && schedule[2..] == rest;
    assert Run(Initial(map[]), schedule) == Run(one, schedule[1..]);
  }

  // ----- a batch in ordered company -----

  /** The rows of b that a call can come to: whole chunks, up to one with an id that is no
      UUID. All of b if its ids are UUIDs. */
  function Attempted(b: seq<Row>, size: nat): seq<Row>
    requires size >= 1
  {
    Ahead(Chunks(b, size))
  }

  lemma AttemptedIsPrefix(b: seq<Row>, size: nat)
    requires size >= 1
    ensures |Attempted(b, size)| <= |b| && Attempted(b, size) == b[..|Attempted(b, size)|]
    ensures WellFormed(Attempted(b, size)) && (WellFormed(b) ==> Attempted(b, size) == b)
  {
    var rest := AheadIsPrefix(Chunks(b, size));
    assert b == Attempted(b, size) + rest;
  }

  /** Every transaction of the schedule carries b or is lock-ordered. */
  ghost predicate OrderedCompany(b: seq<Row>, size: nat, schedule: seq<Action>)
    requires size >= 1
  {
    forall a :: a in schedule && a.Begin? ==> a.statements == Chunks(b, size) || LockOrdered(Ahead(a.statements))
  }

  /** Over any table and beside any number of lock-ordered batches and copies of itself,
      no schedule makes any group of transactions wait for each other. */
  ghost predicate SafeAmong(b: seq<Row>, size: nat)
    requires size >= 1
  {
    forall base: Table, schedule, group ::
      OrderedCompany(b, size, schedule) && Run(Initial(base), schedule).Some? ==>
        !WaitCycle(Run(Initial(base), schedule).value, group)
  }

  lemma NoCycleInRun(base: Table, schedule: seq<Action>, group: set<nat>)
    requires Disciplined(schedule) && Run(Initial(base), schedule).Some?
    ensures !WaitCycle(Run(Initial(base), schedule).value, group)
  {
    InitialInv(base);
    RunKeepsInv(base, Initial(base), schedule);
    RunKeepsLockOrdered(Initial(base), schedule);
    NoWaitCycle(Run(Initial(base), schedule).value, group);
  }

  lemma OrderedIsSafe(b: seq<Row>, size: nat)
    requires size >= 1 && LockOrdered(Attempted(b, size))
    ensures SafeAmong(b, size)
  {
    forall base: Table, schedule, group | OrderedCompany(b, size, schedule) && Run(Initial(base), schedule).Some?
      ensures !WaitCycle(Run(Initial(base), schedule).value, group)
    {
      NoCycleInRun(base, schedule, group);
    }
  }

  // ----- driving one transaction to a given row -----

  /** x is unfinished and has handled at most n of its rows, of which it can handle more. */
  ghost predicate OnItsWay(x: Tx, n: nat) {
    && x.Active()
    && x.batch == x.done + x.Remaining()
    && |x.done| <= n < |x.Prospect()| <= |x.batch|
  }

  /** x stands before its row n. */
  ghost predicate Arrived(x: Tx, n: nat) {
    && x.phase.InStatement? && x.phase.rows != []
    && |x.done| == n < |x.batch|
    && x.batch == x.done + x.Remaining()
  }

  /** No other transaction holds a key of the rows. */
  ghost predicate ClearPath(db: Db, t: nat, rows: seq<Row>) {
    forall u :: 0 <= u < |db.txs| && u != t ==> db.txs[u].inserted.Keys !! KeysOf(rows)
  }

  lemma NextRow(x: Tx)
    requires x.phase.InStatement? && x.phase.rows != [] && x.batch == x.done + x.Remaining()
    ensures |x.done| < |x.batch| && x.batch[|x.done|] == x.phase.rows[0]
    ensures x.batch[..|x.done|] == x.done
  {}

  /** The next own step of x on its way to row n. */
  lemma NextAction(table: Table, x: Tx, t: nat, n: nat) returns (a: Action, y: Tx)
    requires OnItsWay(x, n) && !Arrived(x, n)
    ensures !a.Begin? && !a.Commit? && a.t == t && Local(table, x, a) == Some(y)
    ensures a.Insert? ==> |x.done| < n && NextKey(x) == Key(x.batch[|x.done|].id)
    ensures OnItsWay(y, n) && y.batch == x.batch
    ensures Work(y) < Work(x)
  {
    if x.phase.Idle? {
      a := Issue(t);
    } else if x.phase.rows == [] {
      a := Fetch(t);
    } else {
      NextRow(x);
      a := Insert(t);
    }
    y := Local(table, x, a).value;
    LocalKeepsBatch(table, x, a);
    LocalKeepsProspect(table, x, a);
  }

  lemma QuietStep(db: Db, a: Action, y: Tx)
    requires !a.Begin? && !a.Commit? && a.t < |db.txs| && Local(db.table, db.txs[a.t], a) == Some(y)
    requires a.Insert? ==> !Waiting(db, a.t)
    ensures Step(db, a) == Some(db.(txs := db.txs[a.t := y]))
  {}

  lemma ClearMeansNotWaiting(db: Db, t: nat, rows: seq<Row>, j: nat)
    requires t < |db.txs| && ClearPath(db, t, rows) && j < |rows|
    requires db.txs[t].phase.InStatement? && db.txs[t].phase.rows != [] && NextKey(db.txs[t]) == Key(rows[j].id)
    ensures !Waiting(db, t)
  {
    assert rows[j] in rows;
    assert Key(rows[j].id) in KeysOf(rows);
  }

  lemma {:induction false} Drive(db: Db, t: nat, n: nat) returns (schedule: seq<Action>, y: Tx)
    requires t < |db.txs| && OnItsWay(db.txs[t], n)
    requires ClearPath(db, t, db.txs[t].batch[..n])
    ensures NoBegin(schedule) && Run(db, schedule) == Some(db.(txs := db.txs[t := y]))
    ensures Arrived(y, n) && y.batch == db.txs[t].batch
    decreases Work(db.txs[t]), 0
  {
    var x := db.txs[t];
    if Arrived(x, n) {
      schedule, y := [], x;
      assert db == db.(txs := db.txs[t := y]);
    } else {
      var a, next := NextAction(db.table, x, t, n);
      if a.Insert? { ClearMeansNotWaiting(db, t, x.batch[..n], |x.done|); }
      QuietStep(db, a, next);
      schedule, y := DriveRest(db, t, n, a, next);
    }
  }

  lemma {:induction false} DriveRest(db: Db, t: nat, n: nat, a: Action, next: Tx) returns (schedule: seq<Action>, y: Tx)
    requires t < |db.txs| && OnItsWay(next, n) && next.batch == db.txs[t].batch
    requires !a.Begin? && Step(db, a) == Some(db.(txs := db.txs[t := next]))
    requires ClearPath(db, t, next.batch[..n])
    ensures NoBegin(schedule) && Run(db, schedule) == Some(db.(txs := db.txs[t := y]))
    ensures Arrived(y, n) && y.batch == db.txs[t].batch
    decreases Work(next), 1
  {
    var mid := db.(txs := db.txs[t := next]);
    var rest, last := Drive(mid, t, n);
    schedule, y := [a] + rest, last;
    assert schedule[1..] == rest;
    assert mid.txs[t := y] == db.txs[t := y];
  }

  lemma {:induction false} RunAppend(db: Db, s: seq<Action>, mid: Db, r: seq<Action>)
    requires Run(db, s) == Some(mid)
    ensures Run(db, s + r) == Run(mid, r)
    decreases s
  {
    if s == [] {
      assert s + r == r;
    } else {
      assert (s + r)[1..] == s[1..] + r;
      RunAppend(Step(db, s[0]).value, s[1..], mid, r);
    }
  }

  /** A lock-ordered partner for the inversion at i < j: it takes b's key j first. */
  function Rival(b: seq<Row>, i: nat, j: nat): seq<Row>
    requires i < |b| && j < |b|
  {
    [b[j].(id := Key(b[j].id)), b[i].(id := Key(b[i].id))]
  }

  ghost predicate Inversion(b: seq<Row>, i: nat, j: nat) {
    i < j < |b| && Key(b[j].id) !in KeysOf(b[..j]) && !LexLt(Key(b[i].id), Key(b[j].id))
  }

  lemma RivalOrdered(b: seq<Row>, i: nat, j: nat)
    requires Inversion(b, i, j) && UuidText(b[i].id) && UuidText(b[j].id)
    ensures LockOrdered(Rival(b, i, j)) && WellFormed(Rival(b, i, j))
    ensures Key(Rival(b, i, j)[0].id) == Key(b[j].id) && Key(Rival(b, i, j)[1].id) == Key(b[i].id)
    ensures Key(b[i].id) in KeysOf(b[..j])
  {
    KeyIsCanonical(b[i].id);
    KeyIsCanonical(b[j].id);
    assert b[..j][i] in b[..j];
    LexTotal(Key(b[i].id), Key(b[j].id));
  }

  lemma HeldKeys(x: Tx)
    requires StoreOk(map[], x)
    ensures x.inserted.Keys == KeysOf(x.done)
  {}

  lemma StoreOkInRun(b: seq<Row>, c: seq<Row>, size: nat, schedule: seq<Action>, end: Db, t: nat)
    requires size >= 1 && Run(Pair(b, c, size), schedule) == Some(end)
    requires t < |end.txs| && end.txs[t].Active()
    ensures StoreOk(end.table, end.txs[t])
  {
    PairInv(b, c, size);
    RunKeepsInv(map[], Pair(b, c, size), schedule);
    ActiveStoreOk(end, t);
  }

  lemma ActiveStoreOk(db: Db, t: nat)
    requires TxsOk(db) && t < |db.txs| && db.txs[t].Active()
    ensures StoreOk(db.table, db.txs[t])
  {
    assert TxOk(db.table, db.txs[t]);
  }

  /** Over an empty table an unfinished transaction holds every key it has handled. */
  lemma HeldInRun(b: seq<Row>, c: seq<Row>, size: nat, schedule: seq<Action>, end: Db, t: nat)
    requires size >= 1 && Run(Pair(b, c, size), schedule) == Some(end)
    requires end.table == map[] && t < |end.txs| && end.txs[t].Active()
    ensures end.txs[t].inserted.Keys == KeysOf(end.txs[t].done)
  {
    StoreOkInRun(b, c, size, schedule, end, t);
    HeldKeys(end.txs[t]);
  }

  /** Both stand before a key the other holds. */
  lemma Crossed(x: Tx, y: Tx)
    requires x.phase.InStatement? && x.phase.rows != [] && NextKey(x) in y.inserted
    requires y.phase.InStatement? && y.phase.rows != [] && NextKey(y) in x.inserted
    ensures Deadlocked(Db(map[], [x, y], []))
  {
    var db := Db(map[], [x, y], []);
    assert db.txs[1] == y && db.txs[0] == x;
    assert HeldByOther(db, 0, NextKey(x)) && HeldByOther(db, 1, NextKey(y));
    assert db.txs[0].Active();
  }

  lemma OneRowHandled(y: Tx, c: seq<Row>)
    requires Arrived(y, 1) && y.batch == c && |c| == 2
    ensures y.Active() && y.phase.InStatement? && y.phase.rows != [] && NextKey(y) == Key(c[1].id)
    ensures KeysOf(y.done) == {Key(c[0].id)}
  {
    NextRow(y);
    assert y.done == [c[0]];
  }

  lemma NothingHeld(b: seq<Row>, c: seq<Row>, size: nat)
    requires size >= 1
    ensures ClearPath(Pair(b, c, size), 1, c[..if |c| >= 1 then 1 else 0])
  {}

  /** c handles its first row and stands before the second. */
  lemma FirstLeg(b: seq<Row>, c: seq<Row>, size: nat) returns (s: seq<Action>, y: Tx)
    requires size >= 1 && WellFormed(c) && |c| == 2
    ensures NoBegin(s) && Run(Pair(b, c, size), s) == Some(Db(map[], [Start(Chunks(b, size)), y], []))
    ensures y.phase.InStatement? && y.phase.rows != [] && NextKey(y) == Key(c[1].id)
    ensures y.inserted.Keys == {Key(c[0].id)}
  {
    var start := Pair(b, c, size);
    AttemptedIsPrefix(c, size);
    StartOnItsWay(c, size, 1);
    NothingHeld(b, c, size);
    hide OnItsWay, Arrived, ClearPath, Run, WellFormed, KeysOf, NoBegin;
    s, y := Drive(start, 1, 1);
    OneRowHandled(y, c);
    var mid := Db(map[], [start.txs[0], y], []);
    assert start.txs[1 := y] == mid.txs;
    HeldInRun(b, c, size, s, mid, 1);
  }

  lemma StartOnItsWay(b: seq<Row>, size: nat, j: nat)
    requires size >= 1 && j < |Attempted(b, size)|
    ensures OnItsWay(Start(Chunks(b, size)), j) && Start(Chunks(b, size)).batch == b
  {
    hide Ahead, Flatten;
    AttemptedIsPrefix(b, size);
    StartProspect(Chunks(b, size));
  }

  /** b then handles its first j rows and stands before row j. */
  lemma SecondLeg(b: seq<Row>, c: seq<Row>, size: nat, s: seq<Action>, y: Tx, j: nat) returns (r: seq<Action>, x: Tx)
    requires size >= 1 && j < |Attempted(b, size)| <= |b| && NoBegin(s)
    requires Run(Pair(b, c, size), s) == Some(Db(map[], [Start(Chunks(b, size)), y], []))
    requires y.inserted.Keys !! KeysOf(b[..j])
    ensures NoBegin(r) && Run(Pair(b, c, size), r) == Some(Db(map[], [x, y], []))
    ensures x.phase.InStatement? && x.phase.rows != [] && NextKey(x) == Key(b[j].id)
    ensures x.inserted.Keys == KeysOf(b[..j])
  {
    var s2;
    s2, x := DriveFirst(b, size, y, j);
    r := s + s2;
    RunAppend(Pair(b, c, size), s, Db(map[], [Start(Chunks(b, size)), y], []), s2);
    NextRow(x);
    HeldInRun(b, c, size, r, Db(map[], [x, y], []), 0);
  }

  lemma OtherIsClear(x: Tx, y: Tx, rows: seq<Row>)
    requires y.inserted.Keys !! KeysOf(rows)
    ensures ClearPath(Db(map[], [x, y], []), 0, rows)
  {}

  lemma DriveFirst(b: seq<Row>, size: nat, y: Tx, j: nat) returns (s: seq<Action>, x: Tx)
    requires size >= 1 && j < |Attempted(b, size)| <= |b| && y.inserted.Keys !! KeysOf(b[..j])
    ensures NoBegin(s) && Run(Db(map[], [Start(Chunks(b, size)), y], []), s) == Some(Db(map[], [x, y], []))
    ensures Arrived(x, j) && x.batch == b
  {
    var mid := Db(map[], [Start(Chunks(b, size)), y], []);
    StartOnItsWay(b, size, j);
    OtherIsClear(Start(Chunks(b, size)), y, b[..j]);
    hide OnItsWay, Arrived, ClearPath, Run, Start;
    s, x := Drive(mid, 0, j);
    assert mid.txs[0 := x] == [x, y];
  }

  lemma RowsAttempted(b: seq<Row>, i: nat, j: nat, size: nat)
    requires size >= 1 && i < j < |Attempted(b, size)|
    ensures j < |b| && |Attempted(b, size)| <= |b| && UuidText(b[i].id) && UuidText(b[j].id)
  {
    AttemptedIsPrefix(b, size);
    var a := Attempted(b, size);
    assert b[i] == a[i] && b[j] == a[j];
    assert a[i] in a && a[j] in a;
  }

  /** A schedule of two calls that blocks b and its rival on each other. */
  lemma InversionDeadlocks(b: seq<Row>, i: nat, j: nat, size: nat) returns (schedule: seq<Action>)
    requires size >= 1 && Inversion(b, i, j) && j < |Attempted(b, size)|
    ensures TwoCalls(b, Rival(b, i, j), size, schedule)
    ensures Run(Initial(map[]), schedule).Some? && Deadlocked(Run(Initial(map[]), schedule).value)
  {
    var c := Rival(b, i, j);
    RowsAttempted(b, i, j, size);
    RivalOrdered(b, i, j);
    var s, y := FirstLeg(b, c, size);
    var r, x := SecondLeg(b, c, size, s, y, j);
    Crossed(x, y);
    schedule := FromPair(b, c, size, r);
  }

  lemma TwoCallsCompany(b: seq<Row>, c: seq<Row>, size: nat, schedule: seq<Action>)
    requires size >= 1 && TwoCalls(b, c, size, schedule) && LockOrdered(c) && WellFormed(c)
    ensures OrderedCompany(b, size, schedule)
  {
    forall n | 2 <= n < |schedule| ensures !schedule[n].Begin? {
      assert schedule[n] == schedule[2..][n - 2] && schedule[2..][n - 2] in schedule[2..];
    }
    forall a | a in schedule && a.Begin?
      ensures a.statements == Chunks(b, size) || LockOrdered(Ahead(a.statements))
    {
      AttemptedIsPrefix(c, size);
      var n :| 0 <= n < |schedule| && schedule[n] == a;
    }
  }

  /** Deadlock freedom, exactly: a batch can run over every table beside every company of
      lock-ordered batches without any group of them waiting for each other, if and only
      if the rows it can come to are themselves lock-ordered: all of them if its ids are
      UUIDs, otherwise those of the chunks before the first that fails. */
  lemma LockOrderExact(b: seq<Row>, size: nat)
    requires size >= 1
    ensures LockOrdered(Attempted(b, size)) <==> SafeAmong(b, size)
    ensures WellFormed(b) ==> (LockOrdered(b) <==> SafeAmong(b, size))
  {
    AttemptedIsPrefix(b, size);
    if LockOrdered(Attempted(b, size)) {
      OrderedIsSafe(b, size);
    } else {
      UnorderedIsUnsafe(b, size);
    }
  }

  lemma UnorderedIsUnsafe(b: seq<Row>, size: nat)
    requires size >= 1 && !LockOrdered(Attempted(b, size))
    ensures !SafeAmong(b, size)
  {
    AttemptedIsPrefix(b, size);
    var i, j := FindInversion(Attempted(b, size));
    InversionInPrefix(b, |Attempted(b, size)|, i, j);
    var schedule := InversionDeadlocks(b, i, j, size);
    RowsAttempted(b, i, j, size);
    RivalOrdered(b, i, j);
    TwoCallsCompany(b, Rival(b, i, j), size, schedule);
    StandstillIsCycle(Run(Initial(map[]), schedule).value);
  }

  lemma FindInversion(rows: seq<Row>) returns (i: nat, j: nat)
    requires !LockOrdered(rows)
    ensures Inversion(rows, i, j)
  {
    i, j :| 0 <= i < j < |rows| && Key(rows[j].id) !in KeysOf(rows[..j]) && !LexLt(Key(rows[i].id), Key(rows[j].id));
  }

  lemma InversionInPrefix(b: seq<Row>, n: nat, i: nat, j: nat)
    requires n <= |b| && Inversion(b[..n], i, j)
    ensures Inversion(b, i, j) && j < n
  {
    assert b[..n][..j] == b[..j];
  }

  // ----- what the sort gives -----

  /** The statements persist_batch issues for its rows. */
  function Statements(rows: seq<Row>): seq<seq<Row>> {
    Chunks(SortRows(rows), INSERT_CHUNK_SIZE)
  }

  /** Every transaction of the schedule is a persist_batch call on canonical ids. */
  ghost predicate CanonicalSchedule(schedule: seq<Action>) {
    forall a :: a in schedule && a.Begin? ==> exists rows: seq<Row> ::
      a.statements == Statements(rows) && forall r :: r in rows ==> Canonical(r.id)
  }

  lemma CanonicalIsDisciplined(schedule: seq<Action>)
    requires CanonicalSchedule(schedule)
    ensures Disciplined(schedule)
  {
    forall a | a in schedule && a.Begin? ensures LockOrdered(Ahead(a.statements)) {
      var rows: seq<Row> :| a.statements == Statements(rows) && forall r :: r in rows ==> Canonical(r.id);
      CanonicalSortLockOrdered(rows);
      var rest := AheadIsPrefix(a.statements);
      LockOrderedPrefix(Ahead(a.statements), rest);
    }
  }

  /** With canonical ids no schedule of any number of persist_batch calls deadlocks: no
      group of them ever waits for each other, let alone all of them. */
  lemma CanonicalNeverDeadlocks(base: Table, schedule: seq<Action>)
    requires CanonicalSchedule(schedule) && Run(Initial(base), schedule).Some?
    ensures forall group :: !WaitCycle(Run(Initial(base), schedule).value, group)
    ensures !Deadlocked(Run(Initial(base), schedule).value)
  {
    CanonicalIsDisciplined(schedule);
    var end := Run(Initial(base), schedule).value;
    forall group ensures !WaitCycle(end, group) { NoCycleInRun(base, schedule, group); }
    if Deadlocked(end) { StandstillIsCycle(end); }
  }

  /** Without canonical ids the sort does not prevent the deadlock: B sorts before a as
      text while b sorts after a as a UUID value, and two real persist_batch calls, one on
      such rows and one on the same UUIDs in lower case, block each other. */
  lemma UpperCaseDeadlocks(r: Row, s: Row) returns (schedule: seq<Action>)
    requires UuidText(r.id) && UuidText(s.id) && r.id[0] == 'B' && s.id[0] == 'a'
    ensures |schedule| >= 2 && NoBegin(schedule[2..])
    ensures schedule[0] == Begin(Statements([r, s])) && schedule[1] == Begin(Statements(Rival([r, s], 0, 1)))
    ensures Run(Initial(map[]), schedule).Some? && Deadlocked(Run(Initial(map[]), schedule).value)
  {
    UpperCaseInverted(r, s);
    UpperCaseSorted(r, s);
    AttemptedIsPrefix([r, s], INSERT_CHUNK_SIZE);
    schedule := InversionDeadlocks([r, s], 0, 1, INSERT_CHUNK_SIZE);
  }

  lemma UpperCaseInverted(r: Row, s: Row)
    requires UuidText(r.id) && UuidText(s.id) && r.id[0] == 'B' && s.id[0] == 'a'
    ensures Inversion([r, s], 0, 1)
  {
    var rows := [r, s];
    assert Key(r.id)[0] == 'b' && Key(s.id)[0] == 'a';
    assert rows[..1] == [r];
    forall k ensures k in KeysOf([r]) <==> k == Key(r.id) {
      assert r in [r];
    }
  }

  /** Both batches are already in the order of their texts. */
  lemma UpperCaseSorted(r: Row, s: Row)
    requires UuidText(r.id) && UuidText(s.id) && r.id[0] == 'B' && s.id[0] == 'a'
    ensures SortRows([r, s]) == [r, s] && SortRows(Rival([r, s], 0, 1)) == Rival([r, s], 0, 1)
  {
    var c := Rival([r, s], 0, 1);
    SortedPair(r, s);
    assert Key(r.id)[0] == 'b' && Key(s.id)[0] == 'a' && RowLe(c[0], c[1]);
    SortedPair(c[0], c[1]);
    assert c == [c[0], c[1]];
  }

  lemma SortedPair(r: Row, s: Row)
    requires RowLe(r, s)
    ensures SortRows([r, s]) == [r, s]
  {
    assert [r, s][1..] == [s] && [s][1..] == [];
    assert Sort([s], RowLe) == [s];
  }

  const ZEROS := "0000000-0000-0000-0000-000000000000"

  lemma IdWithFirst(c: char)
    requires HexDigit(c)
    ensures UuidText([c] + ZEROS)
  {
    var t := [c] + ZEROS;
    forall i | 0 < i < 36 ensures t[i] == ZEROS[i - 1] && (if HyphenAt(i) then t[i] == '-' else t[i] == '0') {}
  }

  /** Such rows exist: the event e stored under two ids the schema accepts. */
  lemma UpperCaseInstance(e: TelemetryEvent) returns (schedule: seq<Action>)
    ensures var rows := [EventToRow(e.(ingestionId := "B" + ZEROS)), EventToRow(e.(ingestionId := "a" + ZEROS))];
      && |schedule| >= 2 && NoBegin(schedule[2..])
      && schedule[0] == Begin(Statements(rows)) && schedule[1] == Begin(Statements(Rival(rows, 0, 1)))
      && Run(Initial(map[]), schedule).Some? && Deadlocked(Run(Initial(map[]), schedule).value)
  {
    hide UuidText;
    IdWithFirst('B');
    IdWithFirst('a');
    var r, s := EventToRow(e.(ingestionId := "B" + ZEROS)), EventToRow(e.(ingestionId := "a" + ZEROS));
    schedule := UpperCaseDeadlocks(r, s);
  }
}
