/** Progress: transactions left to themselves finish, and from every reachable state the
    jobs that are still unfinished can all be completed, in the job machine and in the
    whole pipeline. The outcomes of one call of persist_batch are runs of the machines. */
module Drain {
  import opened Common
  import opened Ids
  import opened Store
  import opened Telemetry
  import opened Processor
  import D = Delivery
  import J = Jobs
  import L = LockOrder
  import T = Transactions

  // ----- one transaction alone -----

  ghost predicate OthersDone(db: T.Db, t: nat) {
    forall u :: 0 <= u < |db.txs| && u != t ==> !db.txs[u].Active()
  }

  /** t is the only unfinished transaction, in good order, with UUIDs throughout. */
  ghost predicate Alone(db: T.Db, t: nat) {
    t < |db.txs| && db.txs[t].Active() && T.TxOk(db.table, db.txs[t]) && WellFormed(db.txs[t].batch) &&
      OthersDone(db, t)
  }

  /** t has committed its whole batch, and nothing else has happened. */
  ghost predicate Finished(db: T.Db, t: nat, end: T.Db)
    requires t < |db.txs|
  {
    && |end.txs| == |db.txs| && (forall u :: 0 <= u < |db.txs| && u != t ==> end.txs[u] == db.txs[u])
    && end.txs[t].phase.Committed? && end.txs[t].batch == db.txs[t].batch
    && end.table == InsertAll(db.table, db.txs[t].batch)
    && end.txs[t].newly == Growth(db.table, db.txs[t].batch)
  }

  lemma PendingWellFormed(x: T.Tx)
    requires x.phase.Idle? && x.pending != [] && WellFormed(x.batch)
    requires x.batch == x.done + x.Remaining()
    ensures WellFormed(x.pending[0])
  {
    forall r | r in x.pending[0] ensures UuidText(r.id) {
      assert r in Flatten(x.pending);
      assert r in x.batch;
    }
  }

  /** The next step of x short of its commit, waiting aside. */
  lemma LocalNext(table: Table, x: T.Tx, t: nat) returns (a: T.Action, y: T.Tx)
    requires x.batch == x.done + x.Remaining() && x.Active() && WellFormed(x.batch)
    requires !(x.phase.Idle? && x.pending == [])
    ensures !a.Begin? && !a.Commit? && !a.Abort? && a.t == t && T.Local(table, x, a) == Some(y)
    ensures y.Active() && y.batch == x.batch && T.Work(y) < T.Work(x)
  {
    if x.phase.Idle? {
      PendingWellFormed(x);
      a := T.Issue(t);
    } else if x.phase.rows == [] {
      a := T.Fetch(t);
    } else {
      a := T.Insert(t);
    }
    y := T.Local(table, x, a).value;
  }

  lemma NotWaiting(db: T.Db, t: nat)
    requires t < |db.txs| && OthersDone(db, t)
    ensures !T.Waiting(db, t)
  {}

  lemma StillAlone(db: T.Db, t: nat, y: T.Tx)
    requires Alone(db, t) && T.TxOk(db.table, y) && y.Active() && y.batch == db.txs[t].batch
    ensures Alone(db.(txs := db.txs[t := y]), t)
  {
    hide T.TxOk, WellFormed;
  }

  /** The step as one of the machine. */
  lemma AloneStep(db: T.Db, t: nat) returns (a: T.Action, y: T.Tx)
    requires Alone(db, t) && !(db.txs[t].phase.Idle? && db.txs[t].pending == [])
    ensures !a.Begin? && T.Step(db, a) == Some(db.(txs := db.txs[t := y]))
    ensures Alone(db.(txs := db.txs[t := y]), t) && y.batch == db.txs[t].batch
    ensures T.Work(y) < T.Work(db.txs[t])
  {
    a, y := LocalNext(db.table, db.txs[t], t);
    T.LocalKeepsOk(db.table, db.txs[t], a);
    NotWaiting(db, t);
    L.QuietStep(db, a, y);
    StillAlone(db, t, y);
  }

  lemma LastStep(db: T.Db, t: nat) returns (end: T.Db)
    requires t < |db.txs| && T.TxOk(db.table, db.txs[t]) && db.txs[t].phase.Idle? && db.txs[t].pending == []
    ensures T.Run(db, [T.Commit(t)]) == Some(end) && Finished(db, t, end)
  {
    T.CommitIsInsertion(db.table, db.txs[t]);
    end := CommitOnly(db, t);
  }

  lemma CommitOnly(db: T.Db, t: nat) returns (end: T.Db)
    requires t < |db.txs| && db.txs[t].phase.Idle? && db.txs[t].pending == []
    ensures T.Run(db, [T.Commit(t)]) == Some(end)
    ensures end.txs == db.txs[t := db.txs[t].(phase := T.Committed)] && end.table == db.table + db.txs[t].inserted
  {
    end := T.Step(db, T.Commit(t)).value;
    assert [T.Commit(t)][1..] == [];
  }

  lemma FinishedLater(db: T.Db, t: nat, y: T.Tx, end: T.Db)
    requires t < |db.txs| && y.batch == db.txs[t].batch
    requires Finished(db.(txs := db.txs[t := y]), t, end)
    ensures Finished(db, t, end)
  {
    var mid := db.(txs := db.txs[t := y]);
    forall u | 0 <= u < |db.txs| && u != t ensures end.txs[u] == db.txs[u] { assert end.txs[u] == mid.txs[u]; }
  }

  /** Left to itself a transaction commits its whole batch. */
  lemma {:induction false} RunAlone(db: T.Db, t: nat) returns (schedule: seq<T.Action>, end: T.Db)
    requires Alone(db, t)
    ensures T.Run(db, schedule) == Some(end) && L.NoBegin(schedule) && Finished(db, t, end)
    decreases T.Work(db.txs[t]), 0
  {
    if db.txs[t].phase.Idle? && db.txs[t].pending == [] {
      schedule := [T.Commit(t)];
      end := LastStep(db, t);
    } else {
      var a, y := AloneStep(db, t);
      schedule, end := RunRest(db, t, a, y);
    }
  }

  lemma {:induction false} RunRest(db: T.Db, t: nat, a: T.Action, y: T.Tx) returns (schedule: seq<T.Action>, end: T.Db)
    requires t < |db.txs| && !a.Begin? && T.Step(db, a) == Some(db.(txs := db.txs[t := y]))
    requires Alone(db.(txs := db.txs[t := y]), t) && y.batch == db.txs[t].batch
    ensures T.Run(db, schedule) == Some(end) && L.NoBegin(schedule) && Finished(db, t, end)
    decreases T.Work(y), 1
  {
    var rest;
    rest, end := RunAlone(db.(txs := db.txs[t := y]), t);
    schedule := [a] + rest;
    assert schedule[1..] == rest;
    FinishedLater(db, t, y, end);
  }

  // ----- all transactions at once -----

  lemma Runnable(base: Table, db: T.Db) returns (a: T.Action)
    requires T.Inv(base, db) && T.AllLockOrdered(db) && T.SomeActive(db)
    ensures !a.Begin? && !a.Abort? && T.Step(db, a).Some?
  {
    T.NoDeadlockState(db);
    var t :| 0 <= t < |db.txs| && db.txs[t].Active() && !T.Waiting(db, t);
    a := T.RunnableHasStep(db, t);
  }

  lemma OrderStays(db: T.Db, a: T.Action)
    requires T.AllLockOrdered(db) && !a.Begin? && T.Step(db, a).Some?
    ensures T.AllLockOrdered(T.Step(db, a).value)
  {
    T.StepKeepsLockOrdered(db, a);
  }

  /** Transactions on ordered batches, left to themselves, all end without an abort from
      outside. */
  lemma {:induction false} Quiesce(base: Table, db: T.Db) returns (schedule: seq<T.Action>, end: T.Db)
    requires T.Inv(base, db) && T.AllLockOrdered(db)
    ensures T.Run(db, schedule) == Some(end) && !T.SomeActive(end)
    ensures forall a :: a in schedule ==> !a.Begin? && !a.Abort?
    decreases SumBy(db.txs, T.Work)
  {
    if T.SomeActive(db) {
      var a := Runnable(base, db);
      var next := T.Step(db, a).value;
      T.StepKeepsInv(base, db, a);
      T.StepReducesWork(db, a);
      OrderStays(db, a);
      var rest;
      rest, end := Quiesce(base, next);
      schedule := [a] + rest;
      assert schedule[1..] == rest;
    } else {
      schedule, end := [], db;
    }
  }

  // ----- one job -----

  /** The store's actions as actions of the job machine. */
  function Stored(schedule: seq<T.Action>): (s: seq<J.Action>)
    ensures |s| == |schedule|
  {
    seq(|schedule|, i requires 0 <= i < |schedule| => J.Store(schedule[i]))
  }

  lemma {:induction false} RunStored(maxTries: nat, sys: J.Sys, schedule: seq<T.Action>, end: T.Db)
    requires T.Run(sys.db, schedule) == Some(end) && L.NoBegin(schedule)
    ensures J.Run(maxTries, sys, Stored(schedule)) == Some(sys.(db := end))
    decreases schedule
  {
    if schedule != [] {
      var a, rest := schedule[0], schedule[1..];
      assert a in schedule;
      var next := sys.(db := T.Step(sys.db, a).value);
      assert J.Step(maxTries, sys, J.Store(a)) == Some(next);
      RunStored(maxTries, next, rest, end);
      assert Stored(schedule) == [J.Store(a)] + Stored(rest);
      assert ([J.Store(a)] + Stored(rest))[1..] == Stored(rest);
    } else {
      assert sys == sys.(db := end);
    }
  }

  lemma RunOne(maxTries: nat, sys: J.Sys, a: J.Action)
    ensures J.Run(maxTries, sys, [a]) == J.Step(maxTries, sys, a)
  {
    assert [a][1..] == [];
  }

  /** No transaction is unfinished. */
  ghost predicate Quiet(sys: J.Sys) {
    |sys.attempts| == |sys.db.txs| && !T.SomeActive(sys.db)
  }

  /** Valid, with UUIDs throughout, and with a claim left. */
  ghost predicate Completable(maxTries: nat, job: J.Job) {
    job.payload.Valid? && WellFormed(J.JobRows(job)) && job.tries < maxTries
  }

  /** The result the job function returns for an attempt that finds this table. */
  ghost function ResultOn(table: Table, job: J.Job): J.JobState
    requires job.payload.Valid?
  {
    J.JobState.Completed(|Dedupe(Normalize(job.payload.events))|, GrowthNat(table, J.JobRows(job)))
  }

  ghost function GrowthNat(table: Table, rows: seq<Row>): nat {
    if Growth(table, rows) >= 0 then Growth(table, rows) else 0
  }

  /** Job j is done and nothing else has changed but the table and the transactions. */
  ghost predicate JobDone(sys: J.Sys, j: nat, end: J.Sys)
    requires j < |sys.jobs| && sys.jobs[j].payload.Valid?
  {
    && |end.jobs| == |sys.jobs| && end.jobs == sys.jobs[j := end.jobs[j]]
    && end.jobs[j].payload == sys.jobs[j].payload
    && end.jobs[j].state == ResultOn(sys.db.table, sys.jobs[j])
    && end.db.table == InsertAll(sys.db.table, J.JobRows(sys.jobs[j]))
  }

  lemma ClaimIt(maxTries: nat, sys: J.Sys, j: nat) returns (next: J.Sys)
    requires j < |sys.jobs| && sys.jobs[j].state.Queued? && sys.jobs[j].tries < maxTries
    ensures J.Run(maxTries, sys, [J.Claim(j)]) == Some(next)
    ensures |next.jobs| == |sys.jobs| && next == sys.(jobs := sys.jobs[j := next.jobs[j]])
    ensures next.jobs[j].payload == sys.jobs[j].payload
    ensures next.jobs[j].state == J.Running(None)
  {
    RunOne(maxTries, sys, J.Claim(j));
    next := J.ClaimStep(maxTries, sys, j).value;
  }

  /** A batch without rows is done at once. */
  lemma ExecuteEmpty(maxTries: nat, sys: J.Sys, j: nat) returns (end: J.Sys)
    requires j < |sys.jobs| && sys.jobs[j].state == J.Running(None) && sys.jobs[j].payload.Valid? &&
      J.JobRows(sys.jobs[j]) == []
    ensures J.Run(maxTries, sys, [J.Execute(j)]) == Some(end)
    ensures JobDone(sys, j, end) && end.db == sys.db && end.attempts == sys.attempts
  {
    RunOne(maxTries, sys, J.Execute(j));
    end := J.ExecuteStep(sys, j).value;
    assert |J.JobRows(sys.jobs[j])| == |Dedupe(Normalize(sys.jobs[j].payload.events))|;
  }

  /** The begin of the job's transaction, alone. */
  lemma ExecuteBegins(maxTries: nat, sys: J.Sys, j: nat) returns (next: J.Sys)
    requires Quiet(sys) && j < |sys.jobs| && sys.jobs[j].state == J.Running(None) && sys.jobs[j].payload.Valid?
    requires J.JobRows(sys.jobs[j]) != [] && WellFormed(J.JobRows(sys.jobs[j]))
    ensures J.Run(maxTries, sys, [J.Execute(j)]) == Some(next)
    ensures |next.jobs| == |sys.jobs| && next.jobs == sys.jobs[j := next.jobs[j]] &&
      next.jobs[j].payload == sys.jobs[j].payload
    ensures next.jobs[j].state == J.Running(Some(|sys.db.txs|)) && next.db.table == sys.db.table
    ensures next.attempts == sys.attempts + [J.Attempt(j, false)] && |next.db.txs| == |sys.db.txs| + 1
    ensures Alone(next.db, |sys.db.txs|) && next.db.txs[|sys.db.txs|].batch == J.JobRows(sys.jobs[j])
  {
    RunOne(maxTries, sys, J.Execute(j));
    next := J.ExecuteStep(sys, j).value;
    J.BegunTransaction(sys, j);
    T.StartOk(sys.db.table, J.BeginBatch(J.JobRows(sys.jobs[j])).statements);
    var n := |sys.db.txs|;
    assert next.db == J.Begun(sys, j).db;
    forall u | 0 <= u < |next.db.txs| && u != n ensures !next.db.txs[u].Active() {
      assert next.db.txs[u] == next.db.txs[..n][u];
    }
  }

  /** The result of a committed attempt is recorded. */
  lemma RecordIt(maxTries: nat, sys: J.Sys, j: nat, n: nat) returns (end: J.Sys)
    requires j < |sys.jobs| && sys.jobs[j].state == J.Running(Some(n)) && sys.jobs[j].payload.Valid?
    requires n < |sys.db.txs| == |sys.attempts| && sys.db.txs[n].phase.Committed?
    ensures J.Run(maxTries, sys, [J.Record(j)]) == Some(end)
    ensures |end.jobs| == |sys.jobs| && end.jobs == sys.jobs[j := end.jobs[j]]
    ensures end.jobs[j].payload == sys.jobs[j].payload
    ensures end.jobs[j].state
      == J.JobState.Completed(|Dedupe(Normalize(sys.jobs[j].payload.events))|, sys.db.txs[n].newly)
    ensures end.db == sys.db && |end.attempts| == |sys.attempts|
  {
    RunOne(maxTries, sys, J.Record(j));
    end := J.RecordStep(sys, j).value;
  }

  /** With nothing else running, an executing job commits its whole batch and records what
      it added. */
  lemma CompleteRows(maxTries: nat, sys: J.Sys, j: nat) returns (schedule: seq<J.Action>, end: J.Sys)
    requires Quiet(sys) && j < |sys.jobs| && sys.jobs[j].state == J.Running(None) && sys.jobs[j].payload.Valid?
    requires J.JobRows(sys.jobs[j]) != [] && WellFormed(J.JobRows(sys.jobs[j]))
    ensures J.Run(maxTries, sys, schedule) == Some(end) && JobDone(sys, j, end) && Quiet(end)
  {
    var n := |sys.db.txs|;
    var begun := ExecuteBegins(maxTries, sys, j);
    var steps, db := RunAlone(begun.db, n);
    RunStored(maxTries, begun, steps, db);
    var committed := begun.(db := db);
    end := RecordIt(maxTries, committed, j, n);
    schedule := ThreeLegs(maxTries, sys, [J.Execute(j)], begun, Stored(steps), committed, [J.Record(j)], end);
    QuietAfter(begun.db, n, db);
    DoneBy(sys, j, begun, n, db, end);
  }

  lemma DoneBy(sys: J.Sys, j: nat, begun: J.Sys, n: nat, db: T.Db, end: J.Sys)
    requires j < |sys.jobs| == |begun.jobs| == |end.jobs| && sys.jobs[j].payload.Valid?
    requires begun.jobs == sys.jobs[j := begun.jobs[j]] && begun.jobs[j].payload == sys.jobs[j].payload
    requires n < |begun.db.txs| && begun.db.txs[n].batch == J.JobRows(sys.jobs[j]) && begun.db.table == sys.db.table
    requires Finished(begun.db, n, db) && end.db == db
    requires end.jobs == begun.jobs[j := end.jobs[j]] && end.jobs[j].payload == begun.jobs[j].payload
    requires end.jobs[j].state == J.JobState.Completed(|Dedupe(Normalize(sys.jobs[j].payload.events))|, db.txs[n].newly)
    ensures JobDone(sys, j, end)
  {}

  lemma QuietAfter(db: T.Db, n: nat, end: T.Db)
    requires Alone(db, n) && Finished(db, n, end)
    ensures !T.SomeActive(end)
  {
    forall u | 0 <= u < |end.txs| ensures !end.txs[u].Active() {
      if u != n { assert end.txs[u] == db.txs[u]; }
    }
  }

  lemma ThreeLegs(maxTries: nat, sys: J.Sys, a: seq<J.Action>, s1: J.Sys, b: seq<J.Action>, s2: J.Sys,
                  c: seq<J.Action>, s3: J.Sys) returns (schedule: seq<J.Action>)
    requires J.Run(maxTries, sys, a) == Some(s1) && J.Run(maxTries, s1, b) == Some(s2) &&
      J.Run(maxTries, s2, c) == Some(s3)
    ensures J.Run(maxTries, sys, schedule) == Some(s3)
  {
    J.RunAppend(maxTries, s1, b, s2, c);
    J.RunAppend(maxTries, sys, a, s1, b + c);
    schedule := a + (b + c);
  }

  /** A completed attempt, as worker/processor.py:80-143 makes it, is a run of the machine:
      from a quiet state a queued job is claimed, stores its whole batch and completes with
      what that added. */
  lemma CompleteQueued(maxTries: nat, sys: J.Sys, j: nat) returns (schedule: seq<J.Action>, end: J.Sys)
    requires Quiet(sys) && j < |sys.jobs| && sys.jobs[j].state.Queued? && Completable(maxTries, sys.jobs[j])
    ensures J.Run(maxTries, sys, schedule) == Some(end) && JobDone(sys, j, end) && Quiet(end)
  {
    var claimed := ClaimIt(maxTries, sys, j);
    var rest;
    if J.JobRows(claimed.jobs[j]) == [] {
      end := ExecuteEmpty(maxTries, claimed, j);
      rest := [J.Execute(j)];
    } else {
      rest, end := CompleteRows(maxTries, claimed, j);
    }
    J.RunAppend(maxTries, sys, [J.Claim(j)], claimed, rest);
    schedule := [J.Claim(j)] + rest;
  }

  // ----- every job -----

  predicate Unfinished(job: J.Job) {
    job.state.Queued? || job.state.Running?
  }

  lemma RedeliverIt(maxTries: nat, sys: J.Sys, j: nat) returns (next: J.Sys)
    requires j < |sys.jobs| && sys.jobs[j].state.Running?
    ensures J.Run(maxTries, sys, [J.Redeliver(j)]) == Some(next)
    ensures next == sys.(jobs := sys.jobs[j := sys.jobs[j].(state := J.Queued)])
  {
    RunOne(maxTries, sys, J.Redeliver(j));
    next := J.RedeliverStep(sys, j).value;
  }

  lemma CompleteJob(maxTries: nat, sys: J.Sys, j: nat) returns (schedule: seq<J.Action>, end: J.Sys)
    requires Quiet(sys) && j < |sys.jobs| && Unfinished(sys.jobs[j]) && Completable(maxTries, sys.jobs[j])
    ensures J.Run(maxTries, sys, schedule) == Some(end) && Quiet(end)
    ensures |end.jobs| == |sys.jobs| && end.jobs == sys.jobs[j := end.jobs[j]] && end.jobs[j].state.Completed?
  {
    if sys.jobs[j].state.Queued? {
      schedule, end := CompleteQueued(maxTries, sys, j);
    } else {
      var queued := RedeliverIt(maxTries, sys, j);
      var rest;
      rest, end := CompleteQueued(maxTries, queued, j);
      J.RunAppend(maxTries, sys, [J.Redeliver(j)], queued, rest);
      schedule := [J.Redeliver(j)] + rest;
    }
  }

  ghost predicate RestCompletable(maxTries: nat, jobs: seq<J.Job>, k: nat) {
    forall j :: k <= j < |jobs| && Unfinished(jobs[j]) ==> Completable(maxTries, jobs[j])
  }

  /** From job k on, what was unfinished is completed and the rest is as it was. */
  ghost predicate DrainedFrom(jobs: seq<J.Job>, k: nat, done: seq<J.Job>) {
    && |done| == |jobs|
    && (forall j :: 0 <= j < |jobs| && (j < k || !Unfinished(jobs[j])) ==> done[j] == jobs[j])
    && (forall j :: k <= j < |jobs| && Unfinished(jobs[j]) ==> done[j].state.Completed?)
  }

  lemma OneFewer(maxTries: nat, jobs: seq<J.Job>, k: nat, next: seq<J.Job>)
    requires k < |jobs| == |next| && next == jobs[k := next[k]] && RestCompletable(maxTries, jobs, k)
    ensures RestCompletable(maxTries, next, k + 1)
  {}

  lemma DrainedOneMore(jobs: seq<J.Job>, k: nat, next: seq<J.Job>, done: seq<J.Job>)
    requires k < |jobs| == |next| && next == jobs[k := next[k]] && next[k].state.Completed?
    requires Unfinished(jobs[k])
    requires DrainedFrom(next, k + 1, done)
    ensures DrainedFrom(jobs, k, done)
  {}

  lemma {:induction false} DrainFrom(maxTries: nat, sys: J.Sys, k: nat) returns (schedule: seq<J.Action>, end: J.Sys)
    requires Quiet(sys) && k <= |sys.jobs| && RestCompletable(maxTries, sys.jobs, k)
    ensures J.Run(maxTries, sys, schedule) == Some(end) && DrainedFrom(sys.jobs, k, end.jobs)
    decreases |sys.jobs| - k
  {
    if k == |sys.jobs| {
      schedule, end := [], sys;
    } else if Unfinished(sys.jobs[k]) {
      var first, mid := CompleteJob(maxTries, sys, k);
      OneFewer(maxTries, sys.jobs, k, mid.jobs);
      var rest;
      rest, end := DrainFrom(maxTries, mid, k + 1);
      J.RunAppend(maxTries, sys, first, mid, rest);
      schedule := first + rest;
      DrainedOneMore(sys.jobs, k, mid.jobs, end.jobs);
    } else {
      schedule, end := DrainFrom(maxTries, sys, k + 1);
    }
  }

  /** The ids of every valid batch are canonical text. */
  ghost predicate CanonicalJobs(jobs: seq<J.Job>) {
    forall j :: 0 <= j < |jobs| && jobs[j].payload.Valid? ==> CanonicalIds(jobs[j].payload.events)
  }

  lemma CanonicalBatch(events: seq<TelemetryEvent>)
    requires CanonicalIds(events)
    ensures T.LockOrdered(BatchRows(events)) && WellFormed(BatchRows(events))
  {
    var n := Normalize(events);
    var rows := EventRows(Dedupe(n));
    DedupeSubset(n);
    forall r | r in rows ensures Canonical(r.id) {
      var i :| 0 <= i < |rows| && rows[i] == r;
      assert Dedupe(n)[i] in Dedupe(n);
      var j :| 0 <= j < |n| && n[j] == Dedupe(n)[i];
      assert events[j] in events;
    }
    T.CanonicalSortLockOrdered(rows);
    SortWellFormed(rows);
  }

  lemma CanonicalTransactions(sys: J.Sys)
    requires J.AttemptsOk(sys) && T.TxsOk(sys.db) && CanonicalJobs(sys.jobs)
    ensures T.AllLockOrdered(sys.db)
  {
    forall t | 0 <= t < |sys.db.txs| && sys.db.txs[t].Active() ensures T.LockOrdered(sys.db.txs[t].Prospect()) {
      CanonicalBatch(sys.jobs[sys.attempts[t].job].payload.events);
      assert T.TxOk(sys.db.table, sys.db.txs[t]);
      T.OrderedProspect(sys.db.txs[t]);
    }
  }

  /** Every unfinished job is valid and has a claim left. */
  predicate CanStillRun(maxTries: nat, jobs: seq<J.Job>) {
    forall j :: 0 <= j < |jobs| && Unfinished(jobs[j]) ==> jobs[j].payload.Valid? && jobs[j].tries < maxTries
  }

  /** A drain can always be reached: from every reachable state with canonical ids, if the
      unfinished jobs are valid and have a claim left, some continuation completes them all
      and leaves the finished ones alone. */
  lemma DrainReachable(maxTries: nat, base: Table, before: seq<J.Action>, sys: J.Sys) returns (schedule: seq<J.Action>)
    requires J.Run(maxTries, J.Initial(base), before) == Some(sys)
    requires CanonicalJobs(sys.jobs) && CanStillRun(maxTries, sys.jobs)
    ensures J.Run(maxTries, sys, schedule).Some?
    ensures DrainedFrom(sys.jobs, 0, J.Run(maxTries, sys, schedule).value.jobs)
  {
    J.ReachableInv(maxTries, base, before);
    var end;
    schedule, end := DrainAll(maxTries, base, sys);
  }

  lemma DrainAll(maxTries: nat, base: Table, sys: J.Sys) returns (schedule: seq<J.Action>, end: J.Sys)
    requires T.Inv(base, sys.db) && J.AttemptsOk(sys)
    requires CanonicalJobs(sys.jobs) && CanStillRun(maxTries, sys.jobs)
    ensures J.Run(maxTries, sys, schedule) == Some(end) && DrainedFrom(sys.jobs, 0, end.jobs)
  {
    CanonicalTransactions(sys);
    var steps, db := Quiesce(base, sys.db);
    RunStored(maxTries, sys, steps, db);
    var quiet := sys.(db := db);
    RunKeepsCount(sys.db, steps);
    AllCompletable(maxTries, sys.jobs);
    var rest;
    rest, end := DrainFrom(maxTries, quiet, 0);
    J.RunAppend(maxTries, sys, Stored(steps), quiet, rest);
    schedule := Stored(steps) + rest;
  }

  lemma AllCompletable(maxTries: nat, jobs: seq<J.Job>)
    requires CanonicalJobs(jobs) && CanStillRun(maxTries, jobs)
    ensures RestCompletable(maxTries, jobs, 0)
  {
    forall j | 0 <= j < |jobs| && Unfinished(jobs[j]) ensures Completable(maxTries, jobs[j]) {
      CanonicalBatch(jobs[j].payload.events);
    }
  }

  lemma {:induction false} RunKeepsCount(db: T.Db, schedule: seq<T.Action>)
    requires T.Run(db, schedule).Some? && L.NoBegin(schedule)
    ensures |T.Run(db, schedule).value.txs| == |db.txs|
    decreases schedule
  {
    if schedule != [] {
      assert schedule[0] in schedule;
      T.StepIsMonotone(db, schedule[0]);
      RunKeepsCount(T.Step(db, schedule[0]).value, schedule[1..]);
    }
  }

  // ----- the whole pipeline -----

  /** The queue's actions as actions of the pipeline. */
  function Worked(schedule: seq<J.Action>): (s: seq<D.Action>)
    ensures |s| == |schedule|
  {
    seq(|schedule|, i requires 0 <= i < |schedule| => D.Work(schedule[i]))
  }

  lemma JobsGrow(maxTries: nat, sys: J.Sys, a: J.Action)
    requires J.Step(maxTries, sys, a).Some?
    ensures |J.Step(maxTries, sys, a).value.jobs| == |sys.jobs| + (if a.Enqueue? then 1 else 0)
  {}

  /** A run that ends with as many jobs as it began with has enqueued none. */
  lemma {:induction false} NoneEnqueued(maxTries: nat, sys: J.Sys, schedule: seq<J.Action>)
    requires J.Run(maxTries, sys, schedule).Some?
    ensures |J.Run(maxTries, sys, schedule).value.jobs| >= |sys.jobs|
    ensures |J.Run(maxTries, sys, schedule).value.jobs| == |sys.jobs| ==> J.NoNewJob(schedule)
    decreases schedule
  {
    if schedule != [] {
      var next := J.Step(maxTries, sys, schedule[0]).value;
      JobsGrow(maxTries, sys, schedule[0]);
      NoneEnqueued(maxTries, next, schedule[1..]);
      forall i | 0 < i < |schedule| ensures schedule[i] == schedule[1..][i - 1] {}
    }
  }

  lemma {:induction false} RunWorked(cfg: D.Config, w: D.World, schedule: seq<J.Action>, end: J.Sys)
    requires J.Run(cfg.maxTries, w.sys, schedule) == Some(end) && J.NoNewJob(schedule)
    ensures D.Run(cfg, w, Worked(schedule)) == Some(w.(sys := end))
    decreases schedule
  {
    hide J.Step;
    if schedule == [] {
      assert w == w.(sys := end);
    } else {
      var a, rest := schedule[0], schedule[1..];
      var next := w.(sys := J.Step(cfg.maxTries, w.sys, a).value);
      assert D.Step(cfg, w, D.Work(a)) == Some(next);
      forall i | 0 <= i < |rest| ensures rest[i] == schedule[i + 1] {}
      RunWorked(cfg, next, rest, end);
      assert Worked(schedule)[0] == D.Work(a) && Worked(schedule)[1..] == Worked(rest);
    }
  }

  ghost predicate CanonicalClients(clients: seq<Payload>) {
    forall r :: 0 <= r < |clients| && clients[r].Valid? ==> CanonicalIds(clients[r].events)
  }

  lemma CanonicalQueue(w: D.World)
    requires D.Tracked(w) && CanonicalClients(w.clients)
    ensures CanonicalJobs(w.sys.jobs)
  {
    forall j | 0 <= j < |w.sys.jobs| ensures CanonicalIds(w.sys.jobs[j].payload.events) {
      assert w.origins[j] < |w.clients|;
    }
  }

  lemma CompletedAll(jobs: seq<J.Job>, done: seq<J.Job>)
    requires DrainedFrom(jobs, 0, done)
    requires forall j :: 0 <= j < |jobs| ==> Unfinished(jobs[j]) || jobs[j].state.Completed?
    ensures J.AllCompleted(done)
  {}

  /** The pipeline drains: from every reachable state whose clients sent canonical ids, if
      the jobs in the queue have a claim left, some continuation of the workers alone
      completes them all, whatever the balancer and the handlers were doing. If no job had
      been lost or exhausted before, all jobs are then completed, which is what
      RetryTransparency and EveryBatchOnce ask for. */
  lemma PipelineDrains(cfg: D.Config, urls: seq<string>, base: Table, before: seq<D.Action>, w: D.World)
    returns (schedule: seq<D.Action>, end: D.World)
    requires D.Run(cfg, D.Initial(urls, base), before) == Some(w) && CanonicalClients(w.clients)
    requires forall j :: 0 <= j < |w.sys.jobs| && Unfinished(w.sys.jobs[j]) ==> w.sys.jobs[j].tries < cfg.maxTries
    ensures D.Run(cfg, w, schedule) == Some(end) && end == w.(sys := end.sys)
    ensures DrainedFrom(w.sys.jobs, 0, end.sys.jobs)
    ensures (forall j :: 0 <= j < |w.sys.jobs| ==> Unfinished(w.sys.jobs[j]) || w.sys.jobs[j].state.Completed?) ==>
      J.AllCompleted(end.sys.jobs)
  {
    D.ReachableInv(cfg, urls, base, before);
    schedule, end := DrainWorld(cfg, base, w);
    if forall j :: 0 <= j < |w.sys.jobs| ==> Unfinished(w.sys.jobs[j]) || w.sys.jobs[j].state.Completed? {
      CompletedAll(w.sys.jobs, end.sys.jobs);
    }
  }

  lemma DrainWorld(cfg: D.Config, base: Table, w: D.World) returns (schedule: seq<D.Action>, end: D.World)
    requires D.Tracked(w) && T.Inv(base, w.sys.db) && J.AttemptsOk(w.sys) && CanonicalClients(w.clients)
    requires forall j :: 0 <= j < |w.sys.jobs| && Unfinished(w.sys.jobs[j]) ==> w.sys.jobs[j].tries < cfg.maxTries
    ensures D.Run(cfg, w, schedule) == Some(end) && end == w.(sys := end.sys)
    ensures DrainedFrom(w.sys.jobs, 0, end.sys.jobs)
  {
    CanonicalQueue(w);
    var work, sys := DrainAll(cfg.maxTries, base, w.sys);
    NoneEnqueued(cfg.maxTries, w.sys, work);
    RunWorked(cfg, w, work, sys);
    schedule, end := Worked(work), w.(sys := sys);
  }

  // ----- one call of persist_batch -----

  /** The begin of the call's transaction over a table nobody else works on. */
  function CallBegin(events: seq<TelemetryEvent>): T.Action {
    T.Begin(Chunks(SortRows(EventRows(events)), INSERT_CHUNK_SIZE))
  }

  lemma CallBegun(before: Table, events: seq<TelemetryEvent>) returns (db: T.Db)
    ensures T.Step(T.Initial(before), CallBegin(events)) == Some(db)
    ensures |db.txs| == 1 && db.table == before && db.txs[0].batch == SortRows(EventRows(events))
    ensures db.txs[0].phase.Idle? && T.TxOk(before, db.txs[0])
  {
    db := T.Step(T.Initial(before), CallBegin(events)).value;
    T.StartOk(before, CallBegin(events).statements);
  }

  lemma CallCommits(before: Table, events: seq<TelemetryEvent>) returns (schedule: seq<T.Action>, end: T.Db)
    requires WellFormed(EventRows(events))
    ensures schedule != [] && schedule[0] == CallBegin(events) && L.NoBegin(schedule[1..])
    ensures T.Run(T.Initial(before), schedule) == Some(end)
    ensures |end.txs| == 1 && end.txs[0].phase.Committed?
    ensures end.table == InsertAll(before, SortRows(EventRows(events))) && end.txs[0].newly == |end.table| - |before|
  {
    var begun := CallBegun(before, events);
    SortWellFormed(EventRows(events));
    var rest;
    rest, end := RunAlone(begun, 0);
    schedule := [CallBegin(events)] + rest;
    assert schedule[1..] == rest;
  }

  lemma CallRollsBack(before: Table, events: seq<TelemetryEvent>) returns (schedule: seq<T.Action>, end: T.Db)
    ensures schedule != [] && schedule[0] == CallBegin(events) && L.NoBegin(schedule[1..])
    ensures T.Run(T.Initial(before), schedule) == Some(end)
    ensures |end.txs| == 1 && end.txs[0].phase.RolledBack? && end.table == before
  {
    var begun := CallBegun(before, events);
    end := RollBackOnly(begun);
    schedule := [CallBegin(events)] + [T.Abort(0)];
    assert schedule[1..] == [T.Abort(0)];
  }

  lemma RollBackOnly(db: T.Db) returns (end: T.Db)
    requires |db.txs| == 1 && db.txs[0].phase.Idle?
    ensures T.Run(db, [T.Abort(0)]) == Some(end)
    ensures |end.txs| == 1 && end.txs[0].phase.RolledBack? && end.table == db.table
  {
    end := T.Step(db, T.Abort(0)).value;
    assert [T.Abort(0)][1..] == [];
  }

  /** The schedule is one call's: a transaction on these rows begins on the table as it was
      and ends, the table is then the given one, and a count is the count it committed. */
  ghost predicate CallRun(before: Table, events: seq<TelemetryEvent>, schedule: seq<T.Action>, after: Table,
                          count: Option<int>) {
    && schedule != [] && schedule[0] == CallBegin(events) && L.NoBegin(schedule[1..])
    && T.Run(T.Initial(before), schedule).Some?
    && var end := T.Run(T.Initial(before), schedule).value;
       && end.table == after && |end.txs| == 1 && !end.txs[0].Active()
       && (count.Some? ==> end.txs[0].phase.Committed? && end.txs[0].newly == count.value)
  }

  lemma CommitIsCallRun(before: Table, events: seq<TelemetryEvent>) returns (schedule: seq<T.Action>)
    requires WellFormed(EventRows(events))
    ensures var after := InsertAll(before, SortRows(EventRows(events)));
      && CallRun(before, events, schedule, after, Some(|after| - |before|))
      && CallRun(before, events, schedule, after, None)
  {
    var end;
    schedule, end := CallCommits(before, events);
  }

  lemma RollBackIsCallRun(before: Table, events: seq<TelemetryEvent>) returns (schedule: seq<T.Action>)
    ensures CallRun(before, events, schedule, before, None)
  {
    var end;
    schedule, end := CallRollsBack(before, events);
  }

  /** Every outcome of PersistBatch on a batch with rows is a run of the transaction
      machine that leaves the same table and, where the call returns one, the same count. */
  lemma OutcomeIsRun(before: Table, after: Table, events: seq<TelemetryEvent>, outcome: PersistResult)
    requires events != [] && PersistOutcome(before, after, events, outcome)
    ensures exists schedule :: CallRun(before, events, schedule, after, CountOf(outcome))
  {
    hide CallRun, WellFormed, InsertAll, SortRows;
    var schedule;
    if after == before && !outcome.Inserted? {
      schedule := RollBackIsCallRun(before, events);
    } else {
      schedule := CommitIsCallRun(before, events);
    }
    assert CallRun(before, events, schedule, after, CountOf(outcome));
  }

  function CountOf(outcome: PersistResult): Option<int> {
    if outcome.Inserted? then Some(outcome.count) else None
  }
}
