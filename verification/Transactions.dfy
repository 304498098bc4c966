/** Any number of concurrent persist_batch transactions, as step machines over one
    table (worker/persistence.py:163-189).

    The environment's contract: the unique index makes a row wait while another
    unfinished transaction holds its key, skips it once that transaction committed,
    and lets it in once it rolled back; a commit or a rollback is one step. */
module Transactions {
  import opened Common
  import opened Ids
  import opened Store

  /** Between statements, inside one, or finished. */
  datatype Phase = Idle | InStatement(rows: seq<Row>) | Committed | RolledBack

  /** `batch` are the transaction's rows in order; `done` are the rows already handled,
      `pending` the statements not yet issued, `inserted` the uncommitted rows (whose keys
      the transaction holds), `returned` what the current statement has returned so far,
      `newly` the running newly_inserted. */
  datatype Tx = Tx(batch: seq<Row>, done: seq<Row>, pending: seq<seq<Row>>, phase: Phase,
                   inserted: Table, returned: nat, newly: nat)
  {
    predicate Active() {
      phase.Idle? || phase.InStatement?
    }

    function Remaining(): seq<Row> {
      if phase.InStatement? then phase.rows + Flatten(pending) else Flatten(pending)
    }

    /** The rows handled and those that can still be: the rest of the statement and the
        statements before one that is bound to fail. */
    function Prospect(): seq<Row> {
      done + (if phase.InStatement? then phase.rows else []) + Ahead(pending)
    }
  }

  /** The rows of the statements before the first with an id that is not a UUID. */
  function Ahead(statements: seq<seq<Row>>): seq<Row> {
    if statements == [] || !WellFormed(statements[0]) then [] else statements[0] + Ahead(statements[1..])
  }

  /** `log` lists the committed transactions in commit order. */
  datatype Db = Db(table: Table, txs: seq<Tx>, log: seq<nat>)

  datatype Action =
    | Begin(statements: seq<seq<Row>>)
    | Issue(t: nat)
    | Insert(t: nat)
    | Fetch(t: nat)
    | Commit(t: nat)
    | Abort(t: nat)

  /** Another unfinished transaction holds k. */
  ghost predicate HeldByOther(db: Db, t: nat, k: string) {
    exists u :: 0 <= u < |db.txs| && u != t && db.txs[u].Active() && k in db.txs[u].inserted
  }

  ghost predicate Waiting(db: Db, t: nat)
    requires t < |db.txs|
  {
    var x := db.txs[t];
    x.phase.InStatement? && x.phase.rows != [] && HeldByOther(db, t, Key(x.phase.rows[0].id))
  }

  function Start(statements: seq<seq<Row>>): Tx {
    Tx(Flatten(statements), [], statements, Idle, map[], 0, 0)
  }

  /** What one action does to its own transaction, given the table; None if it is not
      enabled. A statement with an id that is not a UUID fails as a whole. */
  function Local(table: Table, x: Tx, a: Action): Option<Tx> {
    match a
    case Begin(_) => None
    case Issue(_) =>
      if x.phase.Idle? && x.pending != [] then
        if WellFormed(x.pending[0]) then
          Some(x.(phase := InStatement(x.pending[0]), pending := x.pending[1..]))
        else
          Some(x.(phase := RolledBack))
      else None
    case Insert(_) =>
      if x.phase.InStatement? && x.phase.rows != [] then
        var r := x.phase.rows[0];
        var next := x.(done := x.done + [r], phase := InStatement(x.phase.rows[1..]));
        if Key(r.id) in table || Key(r.id) in x.inserted then Some(next)
        else Some(next.(inserted := x.inserted[Key(r.id) := r], returned := x.returned + 1))
      else None
    case Fetch(_) =>
      if x.phase.InStatement? && x.phase.rows == [] then
        Some(x.(phase := Idle, newly := x.newly + x.returned, returned := 0))
      else None
    case Commit(_) =>
      if x.phase.Idle? && x.pending == [] then Some(x.(phase := Committed)) else None
    case Abort(_) =>
      if x.Active() then Some(x.(phase := RolledBack)) else None
  }

  ghost function Step(db: Db, a: Action): Option<Db> {
    if a.Begin? then
      Some(db.(txs := db.txs + [Start(a.statements)]))
    else if a.t >= |db.txs| || (a.Insert? && Waiting(db, a.t)) then None
    else
      match Local(db.table, db.txs[a.t], a)
      case None => None
      case Some(x) =>
        var next := db.(txs := db.txs[a.t := x]);
        if a.Commit? then Some(next.(table := db.table + x.inserted, log := db.log + [a.t]))
        else Some(next)
  }

  /** A run is a schedule: the actions in the order they happen. */
  ghost function Run(db: Db, schedule: seq<Action>): Option<Db>
    decreases schedule
  {
    if schedule == [] then Some(db)
    else
      match Step(db, schedule[0])
      case None => None
      case Some(next) => Run(next, schedule[1..])
  }

  function Initial(base: Table): Db {
    Db(base, [], [])
  }

  // ----- the invariant -----

  /** The committed batches, in commit order. */
  ghost function CommittedBatches(db: Db): seq<seq<Row>> {
    seq(|db.log|, i requires 0 <= i < |db.log| => if db.log[i] < |db.txs| then db.txs[db.log[i]].batch else [])
  }

  ghost function CommittedCounts(db: Db): seq<int> {
    seq(|db.log|, i requires 0 <= i < |db.log| => if db.log[i] < |db.txs| then db.txs[db.log[i]].newly else 0)
  }

  /** One batch after another, row by row. */
  function Serial(base: Table, batches: seq<seq<Row>>): Table {
    if batches == [] then base
    else InsertAll(Serial(base, batches[..|batches| - 1]), batches[|batches| - 1])
  }

  /** The growth each batch makes in that serial run. */
  function SerialCounts(base: Table, batches: seq<seq<Row>>): seq<int> {
    if batches == [] then []
    else
      var front := batches[..|batches| - 1];
      SerialCounts(base, front) + [Growth(Serial(base, front), batches[|batches| - 1])]
  }

  /** An unfinished transaction holds exactly the keys it has handled that are not in
      the table, each with the row a row-by-row insert would have chosen. */
  ghost predicate TxOk(table: Table, x: Tx) {
    && x.batch == x.done + x.Remaining()
    && StoreOk(table, x)
    && x.newly + x.returned == |x.inserted|
    && (x.phase.Idle? ==> x.returned == 0)
  }

  ghost predicate StoreOk(table: Table, x: Tx) {
    && x.inserted.Keys !! table.Keys
    && KeysOf(x.done) <= table.Keys + x.inserted.Keys
    && x.inserted.Keys <= KeysOf(x.done)
    && (forall k :: k in x.inserted ==> IsFirst(x.done, k, x.inserted[k]))
  }

  ghost predicate TxsOk(db: Db) {
    forall t :: 0 <= t < |db.txs| && db.txs[t].Active() ==> TxOk(db.table, db.txs[t])
  }

  ghost predicate HoldersDisjoint(db: Db) {
    forall t, u :: 0 <= t < u < |db.txs| && db.txs[t].Active() && db.txs[u].Active() ==>
      db.txs[t].inserted.Keys !! db.txs[u].inserted.Keys
  }

  ghost predicate LogOk(db: Db) {
    && (forall i :: 0 <= i < |db.log| ==> db.log[i] < |db.txs| && db.txs[db.log[i]].phase.Committed?)
    && (forall t :: 0 <= t < |db.txs| && db.txs[t].phase.Committed? ==> t in db.log)
    && (forall i, j :: 0 <= i < j < |db.log| ==> db.log[i] != db.log[j])
  }

  /** The table and the counts are those of running the committed batches one after
      another in commit order. */
  ghost predicate History(base: Table, db: Db) {
    && db.table == Serial(base, CommittedBatches(db))
    && CommittedCounts(db) == SerialCounts(base, CommittedBatches(db))
  }

  ghost predicate Inv(base: Table, db: Db) {
    && TxsOk(db)
    && HoldersDisjoint(db)
    && LogOk(db)
    && History(base, db)
  }

  // ----- one transaction's own step -----

  lemma LocalKeepsBatch(table: Table, x: Tx, a: Action)
    requires Local(table, x, a).Some? && x.batch == x.done + x.Remaining()
    ensures var y := Local(table, x, a).value;
      y.batch == x.batch && (y.Active() ==> y.batch == y.done + y.Remaining())
  {
    var y := Local(table, x, a).value;
    match a
    case Issue(_) =>
      if y.Active() { assert y.Remaining() == x.Remaining(); }
    case Insert(_) =>
      var rows, tail := x.phase.rows, Flatten(x.pending);
      assert x.done + (rows + tail) == (x.done + [rows[0]]) + (rows[1..] + tail);
    case Fetch(_) =>
      assert x.Remaining() == y.Remaining();
    case _ =>
  }

  lemma FirstSurvives(done: seq<Row>, r: Row, k: string, f: Row)
    requires IsFirst(done, k, f)
    ensures IsFirst(done + [r], k, f)
  {
    WithKeyAppend(done, [r], k);
  }

  lemma FirstOfNewKey(done: seq<Row>, r: Row)
    requires Key(r.id) !in KeysOf(done)
    ensures IsFirst(done + [r], Key(r.id), r)
  {
    WithKeyAppend(done, [r], Key(r.id));
    WithKeyMembers(done, Key(r.id));
    WithKeyFirst(r, [], Key(r.id));
    assert [r] + [] == [r];
  }

  lemma InsertKeepsStoreOk(table: Table, x: Tx, a: Action)
    requires StoreOk(table, x) && a.Insert? && Local(table, x, a).Some?
    ensures StoreOk(table, Local(table, x, a).value)
  {
    var y := Local(table, x, a).value;
    var r := x.phase.rows[0];
    KeysOfAppend(x.done, [r]);
    assert KeysOf([r]) == {Key(r.id)};
    forall k | k in y.inserted ensures IsFirst(y.done, k, y.inserted[k]) {
      if k in x.inserted {
        FirstSurvives(x.done, r, k, x.inserted[k]);
      } else {
        FirstOfNewKey(x.done, r);
      }
    }
  }

  lemma LocalKeepsStore(table: Table, x: Tx, a: Action)
    requires StoreOk(table, x) && Local(table, x, a).Some? && Local(table, x, a).value.Active()
    ensures StoreOk(table, Local(table, x, a).value)
  {
    if a.Insert? { InsertKeepsStoreOk(table, x, a); }
  }

  lemma LocalKeepsCounts(table: Table, x: Tx, a: Action)
    requires Local(table, x, a).Some? && Local(table, x, a).value.Active()
    requires x.newly + x.returned == |x.inserted| && (x.phase.Idle? ==> x.returned == 0)
    ensures var y := Local(table, x, a).value;
      y.newly + y.returned == |y.inserted| && (y.phase.Idle? ==> y.returned == 0)
  {}

  lemma LocalKeepsOk(table: Table, x: Tx, a: Action)
    requires TxOk(table, x) && Local(table, x, a).Some? && Local(table, x, a).value.Active()
    ensures TxOk(table, Local(table, x, a).value)
  {
    LocalKeepsBatch(table, x, a);
    LocalKeepsStore(table, x, a);
    LocalKeepsCounts(table, x, a);
  }

  lemma HandledIsInsertion(table: Table, x: Tx)
    requires StoreOk(table, x)
    ensures IsInsertion(table, x.done, table + x.inserted)
  {
    assert (table + x.inserted).Keys == table.Keys + x.inserted.Keys;
  }

  lemma InsertedSize(table: Table, x: Tx)
    requires StoreOk(table, x)
    ensures |table + x.inserted| == |table| + |x.inserted|
  {
    UnionSize(table, x.inserted);
  }

  /** At commit the transaction's rows are what a row-by-row insert of its whole batch
      into the current table would add. */
  lemma CommitIsInsertion(table: Table, x: Tx)
    requires TxOk(table, x) && x.phase.Idle? && x.pending == []
    ensures table + x.inserted == InsertAll(table, x.batch)
    ensures x.newly == Growth(table, x.batch)
  {
    hide StoreOk, IsInsertion;
    assert x.batch == x.done;
    HandledIsInsertion(table, x);
    InsertionUnique(table, x.done, table + x.inserted);
    InsertedSize(table, x);
  }

  lemma UnionSize(a: Table, b: Table)
    requires a.Keys !! b.Keys
    ensures |a + b| == |a| + |b|
  {
    assert (a + b).Keys == a.Keys + b.Keys;
    assert |(a + b).Keys| == |a.Keys| + |b.Keys|;
  }

  // ----- the invariant holds in every run -----

  lemma {:induction false} SerialPush(base: Table, batches: seq<seq<Row>>, b: seq<Row>)
    ensures Serial(base, batches + [b]) == InsertAll(Serial(base, batches), b)
    ensures SerialCounts(base, batches + [b]) == SerialCounts(base, batches) + [Growth(Serial(base, batches), b)]
  {
    assert (batches + [b])[..|batches|] == batches;
  }

  lemma QuietStepKeepsHistory(base: Table, db: Db, next: Db)
    requires LogOk(db) && History(base, db)
    requires next.log == db.log && next.table == db.table && |db.txs| <= |next.txs|
    requires forall t :: 0 <= t < |db.txs| && db.txs[t].phase.Committed? ==> next.txs[t] == db.txs[t]
    ensures History(base, next)
  {
    assert CommittedBatches(next) == CommittedBatches(db);
    assert CommittedCounts(next) == CommittedCounts(db);
  }

  lemma StartOk(table: Table, statements: seq<seq<Row>>)
    ensures TxOk(table, Start(statements))
  {
    var x := Start(statements);
    assert KeysOf([]) == {};
    assert x.batch == [] + x.batch;
  }

  lemma BeginKeepsTxs(db: Db, a: Action)
    requires TxsOk(db) && a.Begin?
    ensures TxsOk(Step(db, a).value)
  {
    var next := Step(db, a).value;
    forall t | 0 <= t < |next.txs| && next.txs[t].Active() ensures TxOk(next.table, next.txs[t]) {
      if t == |db.txs| { StartOk(db.table, a.statements); }
    }
  }

  lemma BeginKeepsOrder(db: Db, a: Action)
    requires HoldersDisjoint(db) && LogOk(db) && a.Begin?
    ensures HoldersDisjoint(Step(db, a).value) && LogOk(Step(db, a).value)
  {}

  lemma BeginKeepsInv(base: Table, db: Db, a: Action)
    requires Inv(base, db) && a.Begin?
    ensures Inv(base, Step(db, a).value)
  {
    BeginKeepsTxs(db, a);
    BeginKeepsOrder(db, a);
    QuietStepKeepsHistory(base, db, Step(db, a).value);
  }

  lemma StepKeepsDisjoint(db: Db, a: Action)
    requires HoldersDisjoint(db) && !a.Begin? && Step(db, a).Some?
    ensures HoldersDisjoint(Step(db, a).value)
  {
    var next := Step(db, a).value;
    var x, y := db.txs[a.t], next.txs[a.t];
    forall u | 0 <= u < |db.txs| && u != a.t && db.txs[u].Active() && y.Active()
      ensures y.inserted.Keys !! db.txs[u].inserted.Keys
    {
      assert x.inserted.Keys !! db.txs[u].inserted.Keys;
      if a.Insert? {
        assert !HeldByOther(db, a.t, Key(x.phase.rows[0].id));
      }
    }
  }

  lemma QuietStepKeepsTxs(db: Db, a: Action)
    requires TxsOk(db) && !a.Begin? && !a.Commit? && Step(db, a).Some?
    ensures TxsOk(Step(db, a).value)
  {
    var next := Step(db, a).value;
    forall t | 0 <= t < |next.txs| && next.txs[t].Active() ensures TxOk(next.table, next.txs[t]) {
      if t == a.t { LocalKeepsOk(db.table, db.txs[t], a); }
    }
  }

  lemma QuietStepKeepsLog(db: Db, a: Action)
    requires LogOk(db) && !a.Begin? && !a.Commit? && Step(db, a).Some?
    ensures LogOk(Step(db, a).value)
    ensures !db.txs[a.t].phase.Committed?
  {}

  lemma QuietStepKeepsInv(base: Table, db: Db, a: Action)
    requires Inv(base, db) && !a.Begin? && !a.Commit? && Step(db, a).Some?
    ensures Inv(base, Step(db, a).value)
  {
    QuietStepKeepsTxs(db, a);
    QuietStepKeepsLog(db, a);
    StepKeepsDisjoint(db, a);
    QuietStepSameHistory(base, db, a);
  }

  lemma QuietStepSameHistory(base: Table, db: Db, a: Action)
    requires LogOk(db) && History(base, db) && !a.Begin? && !a.Commit? && Step(db, a).Some?
    ensures History(base, Step(db, a).value)
  {
    QuietStepKeepsHistory(base, db, Step(db, a).value);
  }

  lemma CommitExtendsHistory(db: Db, a: Action)
    requires LogOk(db) && a.Commit? && Step(db, a).Some?
    ensures CommittedBatches(Step(db, a).value) == CommittedBatches(db) + [db.txs[a.t].batch]
    ensures CommittedCounts(Step(db, a).value) == CommittedCounts(db) + [db.txs[a.t].newly]
  {}

  lemma CommitKeepsHistory(base: Table, db: Db, a: Action)
    requires LogOk(db) && History(base, db) && a.Commit? && Step(db, a).Some?
    requires TxOk(db.table, db.txs[a.t])
    ensures History(base, Step(db, a).value)
  {
    var x := db.txs[a.t];
    CommitExtendsHistory(db, a);
    CommitIsInsertion(db.table, x);
    SerialPush(base, CommittedBatches(db), x.batch);
  }

  lemma CommitKeepsLog(db: Db, a: Action)
    requires LogOk(db) && a.Commit? && Step(db, a).Some?
    ensures LogOk(Step(db, a).value)
  {
    var next := Step(db, a).value;
    assert next.log == db.log + [a.t];
    forall t | 0 <= t < |next.txs| && next.txs[t].phase.Committed? ensures t in next.log {
      if t == a.t { assert next.log[|db.log|] == t; }
    }
  }

  /** Another transaction's commit leaves an unfinished one in order, because their keys
      are disjoint. */
  lemma CommitKeepsOther(table: Table, x: Tx, other: Tx)
    requires StoreOk(table, other) && x.inserted.Keys !! other.inserted.Keys
    ensures StoreOk(table + x.inserted, other)
  {
    assert (table + x.inserted).Keys == table.Keys + x.inserted.Keys;
  }

  lemma CommitKeepsInv(base: Table, db: Db, a: Action)
    requires Inv(base, db) && a.Commit? && Step(db, a).Some?
    ensures Inv(base, Step(db, a).value)
  {
    CommitKeepsHistory(base, db, a);
    CommitKeepsLog(db, a);
    StepKeepsDisjoint(db, a);
    CommitKeepsTxs(db, a);
  }

  lemma CommitShape(db: Db, a: Action)
    requires a.Commit? && Step(db, a).Some?
    ensures var next := Step(db, a).value;
      && a.t < |db.txs| && next.table == db.table + db.txs[a.t].inserted
      && |next.txs| == |db.txs| && !next.txs[a.t].Active() && db.txs[a.t].Active()
      && forall u :: 0 <= u < |db.txs| && u != a.t ==> next.txs[u] == db.txs[u]
  {}

  lemma CommitKeepsTxs(db: Db, a: Action)
    requires TxsOk(db) && HoldersDisjoint(db) && a.Commit? && Step(db, a).Some?
    ensures TxsOk(Step(db, a).value)
  {
    CommitShape(db, a);
    OthersStayOk(db, a.t, Step(db, a).value);
  }

  lemma OthersStayOk(db: Db, t: nat, next: Db)
    requires TxsOk(db) && HoldersDisjoint(db) && t < |db.txs| == |next.txs| && db.txs[t].Active()
    requires next.table == db.table + db.txs[t].inserted && !next.txs[t].Active()
    requires forall u :: 0 <= u < |db.txs| && u != t ==> next.txs[u] == db.txs[u]
    ensures TxsOk(next)
  {
    forall u | 0 <= u < |next.txs| && next.txs[u].Active() ensures TxOk(next.table, next.txs[u]) {
      assert db.txs[t].inserted.Keys !! db.txs[u].inserted.Keys;
      CommitKeepsOther(db.table, db.txs[t], db.txs[u]);
    }
  }

  lemma StepKeepsInv(base: Table, db: Db, a: Action)
    requires Inv(base, db) && Step(db, a).Some?
    ensures Inv(base, Step(db, a).value)
  {
    if a.Begin? {
      BeginKeepsInv(base, db, a);
    } else if a.Commit? {
      CommitKeepsInv(base, db, a);
    } else {
      QuietStepKeepsInv(base, db, a);
    }
  }

  lemma {:induction false} RunKeepsInv(base: Table, db: Db, schedule: seq<Action>)
    requires Inv(base, db) && Run(db, schedule).Some?
    ensures Inv(base, Run(db, schedule).value)
    decreases schedule
  {
    if schedule != [] {
      StepKeepsInv(base, db, schedule[0]);
      RunKeepsInv(base, Step(db, schedule[0]).value, schedule[1..]);
    }
  }

  lemma InitialInv(base: Table)
    ensures Inv(base, Initial(base))
  {}

  /** What no step undoes: batches are fixed, commits and stored rows are final. */
  lemma StepIsMonotone(db: Db, a: Action)
    requires Step(db, a).Some?
    ensures var next := Step(db, a).value;
      && |next.txs| == (if a.Begin? then |db.txs| + 1 else |db.txs|)
      && (forall t :: 0 <= t < |db.txs| ==> next.txs[t].batch == db.txs[t].batch)
      && (forall t :: 0 <= t < |db.txs| && db.txs[t].phase.Committed? ==> next.txs[t] == db.txs[t])
      && db.table.Keys <= next.table.Keys
  {}

  // ----- conservation -----

  function CommittedCount(x: Tx): int {
    if x.phase.Committed? then x.newly else 0
  }

  /** The keys of every committed batch. */
  ghost function CommittedKeys(db: Db): set<string> {
    set t, r | 0 <= t < |db.txs| && db.txs[t].phase.Committed? && r in db.txs[t].batch :: Key(r.id)
  }

  lemma CommitConserves(db: Db, a: Action)
    requires a.Commit? && Step(db, a).Some? && TxOk(db.table, db.txs[a.t])
    ensures var next := Step(db, a).value;
      && a.t < |next.txs| && next.txs == db.txs[a.t := next.txs[a.t]]
      && |next.table| - |db.table| == CommittedCount(next.txs[a.t]) - CommittedCount(db.txs[a.t])
  {
    hide InsertAll, TxOk;
    CommitIsInsertion(db.table, db.txs[a.t]);
  }

  lemma QuietConserves(db: Db, a: Action)
    requires !a.Begin? && !a.Commit? && Step(db, a).Some?
    ensures var next := Step(db, a).value;
      && a.t < |next.txs| && next.txs == db.txs[a.t := next.txs[a.t]]
      && next.table == db.table && CommittedCount(next.txs[a.t]) == CommittedCount(db.txs[a.t]) == 0
  {}

  lemma StepConserves(base: Table, db: Db, a: Action)
    requires Inv(base, db) && Step(db, a).Some?
    ensures var next := Step(db, a).value;
      |next.table| - |db.table| == SumBy(next.txs, CommittedCount) - SumBy(db.txs, CommittedCount)
  {
    var next := Step(db, a).value;
    if a.Begin? {
      SumByPush(db.txs, Start(a.statements), CommittedCount);
    } else if a.Commit? {
      assert TxOk(db.table, db.txs[a.t]);
      hide Inv, TxOk;
      CommitConserves(db, a);
      SumByUpdate(db.txs, a.t, next.txs[a.t], CommittedCount);
    } else {
      hide Inv;
      QuietConserves(db, a);
      SumByUpdate(db.txs, a.t, next.txs[a.t], CommittedCount);
    }
  }

  lemma {:induction false} RunConserves(base: Table, db: Db, schedule: seq<Action>)
    requires Inv(base, db) && Run(db, schedule).Some?
    ensures var end := Run(db, schedule).value;
      |end.table| - |db.table| == SumBy(end.txs, CommittedCount) - SumBy(db.txs, CommittedCount)
    decreases schedule
  {
    if schedule != [] {
      StepKeepsInv(base, db, schedule[0]);
      StepConserves(base, db, schedule[0]);
      RunConserves(base, Step(db, schedule[0]).value, schedule[1..]);
    }
  }

  lemma {:induction false} SerialKeepsBase(base: Table, batches: seq<seq<Row>>)
    ensures forall k :: k in base ==> k in Serial(base, batches) && Serial(base, batches)[k] == base[k]
  {
    if batches != [] {
      var front := batches[..|batches| - 1];
      SerialKeepsBase(base, front);
      InsertAllMeaning(Serial(base, front), batches[|batches| - 1]);
    }
  }

  ghost predicate InSomeBatch(batches: seq<seq<Row>>, k: string) {
    exists i :: 0 <= i < |batches| && k in KeysOf(batches[i])
  }

  lemma InSomeBatchPush(batches: seq<seq<Row>>, b: seq<Row>, k: string)
    ensures InSomeBatch(batches + [b], k) <==> InSomeBatch(batches, k) || k in KeysOf(b)
  {
    var all := batches + [b];
    if i :| 0 <= i < |batches| && k in KeysOf(batches[i]) { assert all[i] == batches[i]; }
    if k in KeysOf(b) { assert all[|batches|] == b; }
  }

  lemma {:induction false} SerialMeaning(base: Table, batches: seq<seq<Row>>)
    ensures forall k :: k in Serial(base, batches) <==> k in base || InSomeBatch(batches, k)
  {
    if batches != [] {
      var front, last := batches[..|batches| - 1], batches[|batches| - 1];
      assert batches == front + [last];
      SerialMeaning(base, front);
      InsertAllMeaning(Serial(base, front), last);
      forall k ensures k in Serial(base, batches) <==> k in base || InSomeBatch(batches, k) {
        InSomeBatchPush(front, last, k);
      }
    }
  }

  lemma CommittedKeysMeaning(db: Db)
    requires LogOk(db)
    ensures forall k :: k in CommittedKeys(db) <==> InSomeBatch(CommittedBatches(db), k)
  {
    var batches := CommittedBatches(db);
    forall k ensures k in CommittedKeys(db) <==> InSomeBatch(batches, k) {
      if i :| 0 <= i < |batches| && k in KeysOf(batches[i]) {
        var r: Row :| r in batches[i] && Key(r.id) == k;
        var t := db.log[i];
        assert r in db.txs[t].batch;
      }
      if k in CommittedKeys(db) {
        var t, r :| 0 <= t < |db.txs| && db.txs[t].phase.Committed? && r in db.txs[t].batch && Key(r.id) == k;
        var i :| 0 <= i < |db.log| && db.log[i] == t;
        assert k in KeysOf(batches[i]);
      }
    }
  }

  lemma TableKeys(base: Table, db: Db)
    requires LogOk(db) && History(base, db)
    ensures db.table.Keys == base.Keys + CommittedKeys(db)
  {
    SerialMeaning(base, CommittedBatches(db));
    CommittedKeysMeaning(db);
  }

  /** Every run, with any number of transactions committed, rolled back or unfinished,
      is equivalent to the serial run of the committed batches in commit order: same
      table, same count for every transaction. Hence the growth of the table is the sum
      of newly_inserted over committed transactions, each new id is stored once, and the
      id set is the base set and all committed batches. */
  lemma Conservation(base: Table, schedule: seq<Action>)
    requires Run(Initial(base), schedule).Some?
    ensures var end := Run(Initial(base), schedule).value;
      && end.table == Serial(base, CommittedBatches(end))
      && CommittedCounts(end) == SerialCounts(base, CommittedBatches(end))
      && |end.table| == |base| + SumBy(end.txs, CommittedCount)
      && end.table.Keys == base.Keys + CommittedKeys(end)
      && (forall k :: k in base ==> k in end.table && end.table[k] == base[k])
  {
    InitialInv(base);
    RunKeepsInv(base, Initial(base), schedule);
    RunConserves(base, Initial(base), schedule);
    var end := Run(Initial(base), schedule).value;
    TableKeys(base, end);
    SerialKeepsBase(base, CommittedBatches(end));
  }

  /** No partial batch is visible: the table holds all keys of a committed batch. */
  lemma CommittedBatchVisible(base: Table, db: Db, t: nat)
    requires Inv(base, db) && t < |db.txs| && db.txs[t].phase.Committed?
    ensures KeysOf(db.txs[t].batch) <= db.table.Keys
  {
    TableKeys(base, db);
  }

  /** A batch whose keys an earlier committed batch already brought inserts nothing. */
  lemma LaterBatchInsertsNothing(base: Table, db: Db, i: nat, j: nat)
    requires LogOk(db) && History(base, db) && i < j < |db.log|
    requires KeysOf(db.txs[db.log[j]].batch) <= KeysOf(db.txs[db.log[i]].batch)
    ensures db.txs[db.log[j]].newly == 0
  {
    var batches := CommittedBatches(db);
    SerialCountAt(base, batches, j);
    SerialMeaning(base, batches[..j]);
    assert batches[..j][i] == batches[i];
    InsertAllAbsorbs(Serial(base, batches[..j]), batches[j]);
    assert CommittedCounts(db)[j] == db.txs[db.log[j]].newly;
  }

  lemma {:induction false} SerialCountAt(base: Table, batches: seq<seq<Row>>, j: nat)
    requires j < |batches|
    ensures |SerialCounts(base, batches)| == |batches|
    ensures SerialCounts(base, batches)[j] == Growth(Serial(base, batches[..j]), batches[j])
  {
    var front := batches[..|batches| - 1];
    if j < |front| {
      SerialCountAt(base, front, j);
      assert front[..j] == batches[..j];
    } else if front != [] {
      SerialCountAt(base, front, 0);
    }
  }

  // ----- deadlock freedom -----

  /** Whenever the batch reaches a key it has not handled yet, that key is above every
      key it may hold. */
  ghost predicate LockOrdered(rows: seq<Row>) {
    forall i, j :: 0 <= i < j < |rows| && Key(rows[j].id) !in KeysOf(rows[..j]) ==>
      LexLt(Key(rows[i].id), Key(rows[j].id))
  }

  /** The sort gives that order when ids are written as `str(uuid)` writes them. */
  lemma CanonicalSortLockOrdered(rows: seq<Row>)
    requires forall r :: r in rows ==> Canonical(r.id)
    ensures LockOrdered(SortRows(rows))
  {
    SortRowsSorts(rows);
    var s := SortRows(rows);
    forall i, j | 0 <= i < j < |s| && Key(s[j].id) !in KeysOf(s[..j])
      ensures LexLt(Key(s[i].id), Key(s[j].id))
    {
      assert s[i] in s && s[j] in s;
      assert RowLe(s[i], s[j]);
      assert s[..j][i] in s[..j];
    }
  }

  ghost predicate SomeActive(db: Db) {
    exists t :: 0 <= t < |db.txs| && db.txs[t].Active()
  }

  /** Every unfinished transaction waits for another. */
  ghost predicate Deadlocked(db: Db) {
    && SomeActive(db)
    && forall t {:trigger Waiting(db, t)} :: 0 <= t < |db.txs| && db.txs[t].Active() ==> Waiting(db, t)
  }

  /** Every unfinished transaction takes the keys it can still come to in order. */
  ghost predicate AllLockOrdered(db: Db) {
    forall t :: 0 <= t < |db.txs| && db.txs[t].Active() ==> LockOrdered(db.txs[t].Prospect())
  }

  lemma LockOrderedPrefix(rows: seq<Row>, more: seq<Row>)
    requires LockOrdered(rows + more)
    ensures LockOrdered(rows)
  {
    var all := rows + more;
    forall i, j | 0 <= i < j < |rows| && Key(rows[j].id) !in KeysOf(rows[..j])
      ensures LexLt(Key(rows[i].id), Key(rows[j].id))
    {
      assert all[..j] == rows[..j] && all[i] == rows[i] && all[j] == rows[j];
    }
  }

  /** Statements that fail are the only ones left out. */
  lemma {:induction false} AheadIsPrefix(statements: seq<seq<Row>>) returns (rest: seq<Row>)
    ensures Flatten(statements) == Ahead(statements) + rest
    ensures WellFormed(Ahead(statements))
    ensures WellFormed(Flatten(statements)) ==> rest == []
  {
    if statements == [] {
      rest := [];
    } else if WellFormed(statements[0]) {
      rest := AheadIsPrefix(statements[1..]);
      assert WellFormed(Flatten(statements)) ==> WellFormed(Flatten(statements[1..])) by {
        forall r | r in Flatten(statements[1..]) ensures r in Flatten(statements) {}
      }
    } else {
      rest := Flatten(statements);
      var r :| r in statements[0] && !UuidText(r.id);
      assert r in Flatten(statements);
    }
  }

  lemma ProspectIsPrefix(x: Tx) returns (rest: seq<Row>)
    requires x.Active() && x.batch == x.done + x.Remaining()
    ensures x.batch == x.Prospect() + rest
  {
    rest := AheadIsPrefix(x.pending);
    AppendAssociates(x.done, if x.phase.InStatement? then x.phase.rows else [], Ahead(x.pending), rest);
  }

  lemma AppendAssociates(a: seq<Row>, b: seq<Row>, c: seq<Row>, d: seq<Row>)
    ensures a + (b + (c + d)) == a + b + c + d
  {}

  lemma StartProspect(statements: seq<seq<Row>>)
    ensures Start(statements).Prospect() == Ahead(statements)
  {
    hide Ahead, Flatten;
    assert [] + [] + Ahead(statements) == Ahead(statements);
  }

  /** A transaction on an ordered batch has only ordered keys ahead. */
  lemma OrderedProspect(x: Tx)
    requires x.Active() && x.batch == x.done + x.Remaining() && LockOrdered(x.batch)
    ensures LockOrdered(x.Prospect())
  {
    var rest := ProspectIsPrefix(x);
    LockOrderedPrefix(x.Prospect(), rest);
  }

  /** No step of its own changes what a transaction can come to. */
  lemma LocalKeepsProspect(table: Table, x: Tx, a: Action)
    requires Local(table, x, a).Some? && Local(table, x, a).value.Active()
    ensures Local(table, x, a).value.Prospect() == x.Prospect()
  {
    match a
    case Issue(_) =>
      var first, tail := x.pending[0], Ahead(x.pending[1..]);
      assert x.done + [] + (first + tail) == x.done + first + tail;
    case Insert(_) =>
      var rows, tail := x.phase.rows, Ahead(x.pending);
      assert x.done + rows + tail == (x.done + [rows[0]]) + rows[1..] + tail;
    case _ =>
  }

  /** The key the next row needs, for a transaction inside a statement. */
  function NextKey(x: Tx): string
    requires x.phase.InStatement? && x.phase.rows != []
  {
    Key(x.phase.rows[0].id)
  }

  /** A transaction that needs a key it neither holds nor finds in the table needs one
      above all the keys it holds. */
  lemma AwaitedAboveHeld(table: Table, x: Tx, k: string)
    requires StoreOk(table, x) && LockOrdered(x.Prospect())
    requires x.phase.InStatement? && x.phase.rows != [] && k in x.inserted
    requires NextKey(x) !in table && NextKey(x) !in x.inserted
    ensures LexLt(k, NextKey(x))
  {
    assert NextKey(x) !in KeysOf(x.done);
    var r :| r in x.done && Key(r.id) == k;
    var i :| 0 <= i < |x.done| && x.done[i] == r;
    var j := |x.done|;
    var rows := x.Prospect();
    assert rows[..j] == x.done && rows[i] == r && rows[j] == x.phase.rows[0];
  }

  /** Along a wait edge the awaited key strictly increases: u holds k, so if u waits it
      waits for a greater key. */
  lemma WaitEdgeIncreases(db: Db, u: nat, k: string)
    requires TxsOk(db) && HoldersDisjoint(db)
    requires u < |db.txs| && db.txs[u].Active() && LockOrdered(db.txs[u].Prospect())
    requires k in db.txs[u].inserted && Waiting(db, u)
    ensures LexLt(k, NextKey(db.txs[u]))
  {
    var next := NextKey(db.txs[u]);
    var h :| 0 <= h < |db.txs| && h != u && db.txs[h].Active() && next in db.txs[h].inserted;
    HeldKeyIsNew(db, h, u, next);
    assert TxOk(db.table, db.txs[u]);
    AwaitedAboveHeld(db.table, db.txs[u], k);
  }

  lemma HeldKeyIsNew(db: Db, h: nat, u: nat, k: string)
    requires TxsOk(db) && HoldersDisjoint(db)
    requires h < |db.txs| && u < |db.txs| && h != u && db.txs[h].Active() && db.txs[u].Active()
    requires k in db.txs[h].inserted
    ensures k !in db.table && k !in db.txs[u].inserted
  {
    assert TxOk(db.table, db.txs[h]);
    assert db.txs[u].inserted.Keys !! db.txs[h].inserted.Keys;
  }

  /** t stands before a key that another transaction of the group holds. */
  ghost predicate WaitsWithin(db: Db, t: nat, group: set<nat>) {
    && t < |db.txs|
    && db.txs[t].phase.InStatement? && db.txs[t].phase.rows != []
    && exists u :: HoldsAwaited(db, t, u) && u in group
  }

  /** u, another unfinished transaction, holds the key t stands before. */
  ghost predicate HoldsAwaited(db: Db, t: nat, u: nat)
    requires t < |db.txs| && db.txs[t].phase.InStatement? && db.txs[t].phase.rows != []
  {
    u != t && u < |db.txs| && db.txs[u].Active() && NextKey(db.txs[t]) in db.txs[u].inserted
  }

  /** Each transaction of the group waits for another of it: what the store reports as
      "deadlock detected", whatever transactions outside the group can still do. */
  ghost predicate WaitCycle(db: Db, group: set<nat>) {
    group != {} && forall t {:trigger WaitsWithin(db, t, group)} :: t in group ==> WaitsWithin(db, t, group)
  }

  /** The key the transaction awaits (only used when it awaits one). */
  ghost function Awaited(x: Tx): string {
    if x.phase.InStatement? && x.phase.rows != [] then NextKey(x) else ""
  }

  /** In a wait cycle, one member waits for the greatest key. */
  lemma TopWaiter(db: Db, group: set<nat>) returns (t: nat)
    requires group != {} && forall t :: t in group ==> t < |db.txs|
    ensures t in group && t < |db.txs|
    ensures forall u :: u in group ==> LexLe(Awaited(db.txs[u]), Awaited(db.txs[t]))
  {
    var keys := set u | u in group && u < |db.txs| :: Awaited(db.txs[u]);
    var first :| first in group;
    assert Awaited(db.txs[first]) in keys;
    var top := LexMaximum(keys);
    t :| t in group && t < |db.txs| && Awaited(db.txs[t]) == top;
    forall u | u in group ensures LexLe(Awaited(db.txs[u]), top) {
      assert Awaited(db.txs[u]) in keys;
    }
  }

  /** t waits within the group for a member that waits too: that one's key is greater. */
  lemma CycleEdge(db: Db, group: set<nat>, t: nat) returns (u: nat)
    requires TxsOk(db) && HoldersDisjoint(db) && AllLockOrdered(db)
    requires WaitCycle(db, group) && t in group && t < |db.txs|
    ensures u in group && u < |db.txs| && LexLt(Awaited(db.txs[t]), Awaited(db.txs[u]))
  {
    assert WaitsWithin(db, t, group);
    u :| HoldsAwaited(db, t, u) && u in group;
    assert WaitsWithin(db, u, group);
    WaitingWithin(db, u, group);
    WaitEdgeIncreases(db, u, NextKey(db.txs[t]));
  }

  lemma WaitingWithin(db: Db, t: nat, group: set<nat>)
    requires WaitsWithin(db, t, group)
    ensures t < |db.txs| && Waiting(db, t)
  {
    var u :| HoldsAwaited(db, t, u) && u in group;
  }

  lemma NoWaitCycle(db: Db, group: set<nat>)
    requires TxsOk(db) && HoldersDisjoint(db) && AllLockOrdered(db)
    ensures !WaitCycle(db, group)
  {
    if WaitCycle(db, group) {
      assert forall t :: t in group ==> WaitsWithin(db, t, group) ==> t < |db.txs|;
      var t := TopWaiter(db, group);
      var u := CycleEdge(db, group, t);
      LexAntisymmetric(Awaited(db.txs[t]), Awaited(db.txs[u]));
    }
  }

  ghost function ActiveSet(db: Db): set<nat> {
    set t: nat | 0 <= t < |db.txs| && db.txs[t].Active()
  }

  /** A standstill of all is one such cycle. */
  lemma StandstillIsCycle(db: Db)
    requires Deadlocked(db)
    ensures WaitCycle(db, ActiveSet(db))
  {
    var t0 :| 0 <= t0 < |db.txs| && db.txs[t0].Active();
    assert t0 in ActiveSet(db);
    forall t | t in ActiveSet(db) ensures WaitsWithin(db, t, ActiveSet(db)) {
      assert Waiting(db, t);
      var u :| 0 <= u < |db.txs| && u != t && db.txs[u].Active() && NextKey(db.txs[t]) in db.txs[u].inserted;
      assert HoldsAwaited(db, t, u) && u in ActiveSet(db);
    }
  }

  lemma NoDeadlockState(db: Db)
    requires TxsOk(db) && HoldersDisjoint(db) && AllLockOrdered(db)
    ensures !Deadlocked(db)
  {
    if Deadlocked(db) {
      StandstillIsCycle(db);
      NoWaitCycle(db, ActiveSet(db));
    }
  }

  /** Every batch begun in the schedule is lock-ordered, as far as it can get. */
  ghost predicate Disciplined(schedule: seq<Action>) {
    forall a :: a in schedule && a.Begin? ==> LockOrdered(Ahead(a.statements))
  }

  lemma StepKeepsLockOrdered(db: Db, a: Action)
    requires AllLockOrdered(db) && Step(db, a).Some? && (a.Begin? ==> LockOrdered(Ahead(a.statements)))
    ensures AllLockOrdered(Step(db, a).value)
  {
    var next := Step(db, a).value;
    forall t | 0 <= t < |next.txs| && next.txs[t].Active() ensures LockOrdered(next.txs[t].Prospect()) {
      if t == |db.txs| {
        StartProspect(a.statements);
      } else if !a.Begin? && t == a.t {
        LocalKeepsProspect(db.table, db.txs[t], a);
      }
    }
  }

  lemma {:induction false} RunKeepsLockOrdered(db: Db, schedule: seq<Action>)
    requires AllLockOrdered(db) && Disciplined(schedule) && Run(db, schedule).Some?
    ensures AllLockOrdered(Run(db, schedule).value)
    decreases schedule
  {
    if schedule != [] {
      assert schedule[0] in schedule;
      StepKeepsLockOrdered(db, schedule[0]);
      RunKeepsLockOrdered(Step(db, schedule[0]).value, schedule[1..]);
    }
  }

  lemma RunnableHasStep(db: Db, t: nat) returns (a: Action)
    requires t < |db.txs| && db.txs[t].Active() && !Waiting(db, t)
    ensures !a.Begin? && !a.Abort? && Step(db, a).Some?
  {
    var x := db.txs[t];
    a := if x.phase.Idle? then (if x.pending == [] then Commit(t) else Issue(t))
         else if x.phase.rows == [] then Fetch(t)
         else Insert(t);
  }

  /** In every reachable state with an unfinished transaction some unfinished transaction
      can take a step of its own, without any being aborted. */
  lemma DeadlockFreedom(base: Table, schedule: seq<Action>) returns (a: Action)
    requires Disciplined(schedule) && Run(Initial(base), schedule).Some?
    requires SomeActive(Run(Initial(base), schedule).value)
    ensures !a.Begin? && !a.Abort? && Step(Run(Initial(base), schedule).value, a).Some?
  {
    InitialInv(base);
    RunKeepsInv(base, Initial(base), schedule);
    RunKeepsLockOrdered(Initial(base), schedule);
    var db := Run(Initial(base), schedule).value;
    NoDeadlockState(db);
    var t :| 0 <= t < |db.txs| && db.txs[t].Active() && !Waiting(db, t);
    a := RunnableHasStep(db, t);
  }

  // ----- termination -----

  /** Steps left at most. */
  function Work(x: Tx): int {
    match x.phase
    case Idle => |Flatten(x.pending)| + 3 * |x.pending| + 1
    case InStatement(rows) => |rows| + |Flatten(x.pending)| + 3 * |x.pending| + 2
    case _ => 0
  }

  lemma StepReducesWork(db: Db, a: Action)
    requires Step(db, a).Some? && !a.Begin?
    ensures 0 <= SumBy(Step(db, a).value.txs, Work) < SumBy(db.txs, Work)
  {
    var next := Step(db, a).value;
    SumByUpdate(db.txs, a.t, next.txs[a.t], Work);
    WorkNonNegative(next.txs);
  }

  lemma {:induction false} WorkNonNegative(txs: seq<Tx>)
    ensures SumBy(txs, Work) >= 0
  {
    if txs != [] { WorkNonNegative(txs[1..]); }
  }

  /** All runs finish: without new transactions a schedule has at most as many actions as
      the rows and statements still to be handled allow. */
  lemma {:induction false} RunsFinish(db: Db, schedule: seq<Action>)
    requires Run(db, schedule).Some?
    requires forall a :: a in schedule ==> !a.Begin?
    ensures |schedule| <= SumBy(db.txs, Work)
    decreases schedule
  {
    if schedule == [] {
      WorkNonNegative(db.txs);
    } else {
      assert schedule[0] in schedule;
      StepReducesWork(db, schedule[0]);
      RunsFinish(Step(db, schedule[0]).value, schedule[1..]);
    }
  }
}
