/** The job protocol around persist_batch: at-least-once delivery with crashes, retries,
    overlapping attempts and commits whose acknowledgement is lost (worker/processor.py,
    worker/consumer.py).

    The environment's contract: the queue hands out a job again whenever its attempt
    raised Retry or died with its worker, and records a failure, never to hand it out
    again, when the attempt ran into the job timeout or raised anything else; whatever
    happened to that attempt's transaction, which may still be running or may have
    committed. */
module Jobs {
  import opened Common
  import opened Ids
  import opened Store
  import opened Processor
  import T = Transactions

  datatype JobState =
    | Queued
    | Running(tx: Option<nat>)
    | Completed(accepted: nat, newlyInserted: nat)
    | DeadLettered
    | Exhausted
    | Failed
    | Lost

  datatype Job = Job(payload: Payload, tries: nat, state: JobState)

  /** A transaction belongs to a job; `recorded` once its count is in the job's result. */
  datatype Attempt = Attempt(job: nat, recorded: bool)

  datatype Sys = Sys(db: T.Db, jobs: seq<Job>, attempts: seq<Attempt>)

  datatype Action =
    | Enqueue(payload: Payload)
    | Claim(job: nat)
    | Execute(job: nat)
    | Store(action: T.Action)
    | Record(job: nat)
    | Reject(job: nat)
    | Redeliver(job: nat)
    | Lose(job: nat)

  function Initial(base: Table): Sys {
    Sys(T.Initial(base), [], [])
  }

  /** The rows a job inserts; none for an invalid payload. */
  ghost function JobRows(j: Job): seq<Row> {
    if j.payload.Valid? then BatchRows(j.payload.events) else []
  }

  function SetState(sys: Sys, j: nat, s: JobState): Sys
    requires j < |sys.jobs|
  {
    sys.(jobs := sys.jobs[j := sys.jobs[j].(state := s)])
  }

  /** A worker takes the job; a claim past MAX_JOB_ATTEMPTS ends it. */
  function ClaimStep(maxTries: nat, sys: Sys, j: nat): Option<Sys> {
    if j >= |sys.jobs| || !sys.jobs[j].state.Queued? then None
    else if sys.jobs[j].tries >= maxTries then Some(SetState(sys, j, Exhausted))
    else Some(sys.(jobs := sys.jobs[j := sys.jobs[j].(tries := sys.jobs[j].tries + 1, state := Running(None))]))
  }

  /** The job function up to the transaction's begin. */
  ghost function ExecuteStep(sys: Sys, j: nat): Option<Sys> {
    if j >= |sys.jobs| || sys.jobs[j].state != Running(None) then None
    else if sys.jobs[j].payload.Invalid? then Some(SetState(sys, j, JobState.DeadLettered))
    else if JobRows(sys.jobs[j]) == [] then Some(SetState(sys, j, JobState.Completed(0, 0)))
    else
      Some(SetState(sys, j, Running(Some(|sys.db.txs|))).(
             db := T.Step(sys.db, BeginBatch(JobRows(sys.jobs[j]))).value,
             attempts := sys.attempts + [Attempt(j, false)]))
  }

  function BeginBatch(rows: seq<Row>): T.Action {
    T.Begin(Chunks(rows, INSERT_CHUNK_SIZE))
  }

  /** Any transaction, of a live attempt or an abandoned one, takes a step. */
  ghost function StoreStep(sys: Sys, b: T.Action): Option<Sys> {
    if b.Begin? || T.Step(sys.db, b).None? then None
    else Some(sys.(db := T.Step(sys.db, b).value))
  }

  /** The caller saw its commit succeed and the result is recorded. */
  ghost function RecordStep(sys: Sys, j: nat): Option<Sys> {
    if j < |sys.jobs| && sys.jobs[j].state.Running? && sys.jobs[j].state.tx.Some? && sys.jobs[j].payload.Valid? then
      var t := sys.jobs[j].state.tx.value;
      if t < |sys.db.txs| && t < |sys.attempts| && sys.db.txs[t].phase.Committed? then
        var result := JobState.Completed(|Dedupe(Normalize(sys.jobs[j].payload.events))|, sys.db.txs[t].newly);
        Some(SetState(sys, j, result).(attempts := sys.attempts[t := Attempt(j, true)]))
      else None
    else None
  }

  /** An id that is not a UUID: the exception is not Retry, the job fails. */
  ghost function RejectStep(sys: Sys, j: nat): Option<Sys> {
    if j < |sys.jobs| && sys.jobs[j].state.Running? && sys.jobs[j].state.tx.Some? &&
       !WellFormed(JobRows(sys.jobs[j]))
    then
      Some(SetState(sys, j, JobState.Failed))
    else None
  }

  /** Retry or a dead worker: back to the queue, the transaction left alone. */
  function RedeliverStep(sys: Sys, j: nat): Option<Sys> {
    if j < |sys.jobs| && sys.jobs[j].state.Running? then Some(SetState(sys, j, Queued)) else None
  }

  /** The job timeout, or an exception that is not Retry: the job has failed for good, the
      transaction left alone. */
  function LoseStep(sys: Sys, j: nat): Option<Sys> {
    if j < |sys.jobs| && sys.jobs[j].state.Running? then Some(SetState(sys, j, JobState.Lost)) else None
  }

  ghost function Step(maxTries: nat, sys: Sys, a: Action): Option<Sys> {
    match a
    case Enqueue(p) => Some(sys.(jobs := sys.jobs + [Job(p, 0, Queued)]))
    case Claim(j) => ClaimStep(maxTries, sys, j)
    case Execute(j) => ExecuteStep(sys, j)
    case Store(b) => StoreStep(sys, b)
    case Record(j) => RecordStep(sys, j)
    case Reject(j) => RejectStep(sys, j)
    case Redeliver(j) => RedeliverStep(sys, j)
    case Lose(j) => LoseStep(sys, j)
  }

  ghost function Run(maxTries: nat, sys: Sys, schedule: seq<Action>): Option<Sys>
    decreases schedule
  {
    if schedule == [] then Some(sys)
    else
      match Step(maxTries, sys, schedule[0])
      case None => None
      case Some(next) => Run(maxTries, next, schedule[1..])
  }

  // ----- the invariant -----

  /** Every transaction carries the whole batch of a valid job. */
  ghost predicate AttemptsOk(sys: Sys) {
    && |sys.attempts| == |sys.db.txs|
    && forall t :: 0 <= t < |sys.attempts| ==>
         && sys.attempts[t].job < |sys.jobs|
         && sys.jobs[sys.attempts[t].job].payload.Valid?
         && sys.db.txs[t].batch == JobRows(sys.jobs[sys.attempts[t].job])
         && (sys.attempts[t].recorded ==> sys.db.txs[t].phase.Committed?)
  }

  ghost predicate JobOk(maxTries: nat, sys: Sys, j: nat)
    requires j < |sys.jobs|
  {
    var job := sys.jobs[j];
    && job.tries <= maxTries
    && match job.state
       case Queued => true
       case Running(None) => true
       case Running(Some(t)) => t < |sys.attempts| && sys.attempts[t] == Attempt(j, false)
       case Completed(accepted, _) =>
         && job.payload.Valid?
         && accepted == |Dedupe(Normalize(job.payload.events))|
         && KeysOf(JobRows(job)) <= sys.db.table.Keys
       case DeadLettered => job.payload.Invalid?
       case Exhausted => job.tries == maxTries
       case Failed => !WellFormed(JobRows(job))
       case Lost => true
  }

  ghost predicate JobsOk(maxTries: nat, sys: Sys) {
    forall j :: 0 <= j < |sys.jobs| ==> JobOk(maxTries, sys, j)
  }

  function ReportedCount(j: Job): int {
    if j.state.Completed? then j.state.newlyInserted else 0
  }

  /** The sum of newly_inserted over job results. */
  function Reported(sys: Sys): int {
    SumBy(sys.jobs, ReportedCount)
  }

  function UnrecordedCount(p: (T.Tx, Attempt)): int {
    if p.0.phase.Committed? && !p.1.recorded then p.0.newly else 0
  }

  function Paired(txs: seq<T.Tx>, attempts: seq<Attempt>): (s: seq<(T.Tx, Attempt)>)
    requires |txs| == |attempts|
    ensures |s| == |txs| && forall i :: 0 <= i < |s| ==> s[i] == (txs[i], attempts[i])
  {
    seq(|txs|, i requires 0 <= i < |txs| => (txs[i], attempts[i]))
  }

  /** The rows committed by attempts whose result was lost. */
  function Unrecorded(sys: Sys): int
    requires |sys.db.txs| == |sys.attempts|
  {
    SumBy(Paired(sys.db.txs, sys.attempts), UnrecordedCount)
  }

  ghost predicate Books(base: Table, sys: Sys)
    requires |sys.db.txs| == |sys.attempts|
  {
    |sys.db.table| == |base| + Reported(sys) + Unrecorded(sys)
  }

  ghost predicate JInv(maxTries: nat, base: Table, sys: Sys) {
    && T.Inv(base, sys.db)
    && AttemptsOk(sys)
    && JobsOk(maxTries, sys)
    && Books(base, sys)
  }

  // ----- steps that change one job only -----

  lemma JobStepKeepsJobs(maxTries: nat, sys: Sys, j: nat, next: Job)
    requires AttemptsOk(sys) && JobsOk(maxTries, sys) && j < |sys.jobs|
    requires next.payload == sys.jobs[j].payload
    requires var after := sys.(jobs := sys.jobs[j := next]); JobOk(maxTries, after, j)
    ensures var after := sys.(jobs := sys.jobs[j := next]); AttemptsOk(after) && JobsOk(maxTries, after)
  {
    var after := sys.(jobs := sys.jobs[j := next]);
    forall i | 0 <= i < |after.jobs| ensures JobOk(maxTries, after, i) {
      if i != j { assert JobOk(maxTries, sys, i); }
    }
  }

  lemma JobStepKeepsBooks(base: Table, sys: Sys, j: nat, next: Job)
    requires |sys.db.txs| == |sys.attempts| && Books(base, sys) && j < |sys.jobs|
    requires ReportedCount(next) == ReportedCount(sys.jobs[j])
    ensures Books(base, sys.(jobs := sys.jobs[j := next]))
  {
    SumByUpdate(sys.jobs, j, next, ReportedCount);
  }

  lemma PlainStepKeepsInv(maxTries: nat, base: Table, sys: Sys, j: nat, next: Job)
    requires JInv(maxTries, base, sys) && j < |sys.jobs|
    requires next.payload == sys.jobs[j].payload && ReportedCount(next) == ReportedCount(sys.jobs[j]) == 0
    requires var after := sys.(jobs := sys.jobs[j := next]); JobOk(maxTries, after, j)
    ensures JInv(maxTries, base, sys.(jobs := sys.jobs[j := next]))
  {
    hide JobOk, ReportedCount;
    JobStepKeepsJobs(maxTries, sys, j, next);
    JobStepKeepsBooks(base, sys, j, next);
  }

  lemma OneJobOk(maxTries: nat, sys: Sys, j: nat)
    requires JobsOk(maxTries, sys) && j < |sys.jobs|
    ensures JobOk(maxTries, sys, j)
  {}

  /** A job that has no result yet changes its state to one that has none either. */
  lemma StateKeepsInv(maxTries: nat, base: Table, sys: Sys, j: nat, s: JobState)
    requires JInv(maxTries, base, sys) && j < |sys.jobs| && !sys.jobs[j].state.Completed? && !s.Completed?
    requires JobOk(maxTries, SetState(sys, j, s), j)
    ensures JInv(maxTries, base, SetState(sys, j, s))
  {
    PlainStepKeepsInv(maxTries, base, sys, j, sys.jobs[j].(state := s));
  }

  lemma ClaimedOk(maxTries: nat, sys: Sys, j: nat)
    requires ClaimStep(maxTries, sys, j).Some? && JobOk(maxTries, sys, j)
    ensures var after := ClaimStep(maxTries, sys, j).value;
      && j < |sys.jobs| == |after.jobs| && after == sys.(jobs := sys.jobs[j := after.jobs[j]])
      && after.jobs[j].payload == sys.jobs[j].payload
      && ReportedCount(after.jobs[j]) == ReportedCount(sys.jobs[j]) == 0
      && JobOk(maxTries, after, j)
  {
    hide JobRows;
  }

  lemma ClaimKeepsInv(maxTries: nat, base: Table, sys: Sys, j: nat)
    requires JInv(maxTries, base, sys) && ClaimStep(maxTries, sys, j).Some?
    ensures JInv(maxTries, base, ClaimStep(maxTries, sys, j).value)
  {
    OneJobOk(maxTries, sys, j);
    ClaimedOk(maxTries, sys, j);
    hide JInv, JobOk, ClaimStep;
    PlainStepKeepsInv(maxTries, base, sys, j, ClaimStep(maxTries, sys, j).value.jobs[j]);
  }

  lemma BackInQueue(maxTries: nat, sys: Sys, j: nat)
    requires j < |sys.jobs| && JobOk(maxTries, sys, j)
    ensures JobOk(maxTries, SetState(sys, j, Queued), j) && JobOk(maxTries, SetState(sys, j, JobState.Lost), j)
  {}

  lemma RedeliverKeepsInv(maxTries: nat, base: Table, sys: Sys, j: nat)
    requires JInv(maxTries, base, sys) && RedeliverStep(sys, j).Some?
    ensures JInv(maxTries, base, RedeliverStep(sys, j).value)
  {
    OneJobOk(maxTries, sys, j);
    BackInQueue(maxTries, sys, j);
    hide JInv, JobOk, SetState;
    StateKeepsInv(maxTries, base, sys, j, Queued);
  }

  lemma LoseKeepsInv(maxTries: nat, base: Table, sys: Sys, j: nat)
    requires JInv(maxTries, base, sys) && LoseStep(sys, j).Some?
    ensures JInv(maxTries, base, LoseStep(sys, j).value)
  {
    OneJobOk(maxTries, sys, j);
    BackInQueue(maxTries, sys, j);
    hide JInv, JobOk, SetState;
    StateKeepsInv(maxTries, base, sys, j, JobState.Lost);
  }

  lemma RejectedOk(maxTries: nat, sys: Sys, j: nat)
    requires j < |sys.jobs| && JobOk(maxTries, sys, j) && !WellFormed(JobRows(sys.jobs[j]))
    ensures JobOk(maxTries, SetState(sys, j, JobState.Failed), j)
  {
    hide WellFormed, BatchRows;
  }

  lemma RejectKeepsInv(maxTries: nat, base: Table, sys: Sys, j: nat)
    requires JInv(maxTries, base, sys) && RejectStep(sys, j).Some?
    ensures JInv(maxTries, base, RejectStep(sys, j).value)
  {
    OneJobOk(maxTries, sys, j);
    RejectedOk(maxTries, sys, j);
    hide JInv, JobOk, SetState, WellFormed, JobRows;
    StateKeepsInv(maxTries, base, sys, j, JobState.Failed);
  }

  lemma EnqueueKeepsJobs(maxTries: nat, sys: Sys, p: Payload)
    requires AttemptsOk(sys) && JobsOk(maxTries, sys)
    ensures var after := sys.(jobs := sys.jobs + [Job(p, 0, Queued)]); AttemptsOk(after) && JobsOk(maxTries, after)
  {
    var after := sys.(jobs := sys.jobs + [Job(p, 0, Queued)]);
    forall i | 0 <= i < |after.jobs| ensures JobOk(maxTries, after, i) {
      if i < |sys.jobs| { assert JobOk(maxTries, sys, i); }
    }
  }

  lemma EnqueueKeepsInv(maxTries: nat, base: Table, sys: Sys, p: Payload)
    requires JInv(maxTries, base, sys)
    ensures JInv(maxTries, base, sys.(jobs := sys.jobs + [Job(p, 0, Queued)]))
  {
    EnqueueKeepsJobs(maxTries, sys, p);
    SumByPush(sys.jobs, Job(p, 0, Queued), ReportedCount);
  }

  // ----- begin -----

  /** The state between the begin and the job's note of its transaction. */
  ghost function Begun(sys: Sys, j: nat): Sys
    requires j < |sys.jobs|
  {
    sys.(db := T.Step(sys.db, BeginBatch(JobRows(sys.jobs[j]))).value, attempts := sys.attempts + [Attempt(j, false)])
  }

  lemma BeginKeepsAttempts(sys: Sys, j: nat)
    requires AttemptsOk(sys) && j < |sys.jobs| && sys.jobs[j].payload.Valid?
    ensures AttemptsOk(Begun(sys, j))
  {
    BegunTransaction(sys, j);
    AttemptAdded(sys, Begun(sys, j), j);
  }

  lemma BegunTransaction(sys: Sys, j: nat)
    requires j < |sys.jobs|
    ensures var after, n := Begun(sys, j), |sys.db.txs|;
      && |after.db.txs| == n + 1 && after.db.txs[..n] == sys.db.txs
      && after.db.txs[n].batch == JobRows(sys.jobs[j])
      && after.db.txs[n].phase.Idle?
      && after.db.table == sys.db.table
  {}

  lemma AttemptsBefore(sys: Sys, after: Sys, j: nat)
    requires |sys.attempts| == |sys.db.txs|
    requires after.attempts == sys.attempts + [Attempt(j, false)]
    requires |after.db.txs| == |sys.db.txs| + 1 && after.db.txs[..|sys.db.txs|] == sys.db.txs
    ensures forall t :: 0 <= t < |sys.attempts| ==>
      after.db.txs[t] == sys.db.txs[t] && after.attempts[t] == sys.attempts[t]
  {
    forall t | 0 <= t < |sys.attempts| ensures after.db.txs[t] == sys.db.txs[t] {
      assert after.db.txs[t] == after.db.txs[..|sys.db.txs|][t];
    }
  }

  lemma AttemptAdded(sys: Sys, after: Sys, j: nat)
    requires AttemptsOk(sys) && j < |sys.jobs| && sys.jobs[j].payload.Valid? && after.jobs == sys.jobs
    requires after.attempts == sys.attempts + [Attempt(j, false)]
    requires |after.db.txs| == |sys.db.txs| + 1 && after.db.txs[..|sys.db.txs|] == sys.db.txs
    requires after.db.txs[|sys.db.txs|].batch == JobRows(sys.jobs[j])
    ensures AttemptsOk(after)
  {
    hide JobRows;
    AttemptsBefore(sys, after, j);
  }

  lemma BeginKeepsJobs(maxTries: nat, sys: Sys, j: nat)
    requires JobsOk(maxTries, sys) && j < |sys.jobs|
    ensures JobsOk(maxTries, Begun(sys, j))
  {
    var after := Begun(sys, j);
    forall i | 0 <= i < |after.jobs| ensures JobOk(maxTries, after, i) {
      assert JobOk(maxTries, sys, i);
    }
  }

  lemma BeginKeepsBooks(base: Table, sys: Sys, j: nat)
    requires |sys.db.txs| == |sys.attempts| && Books(base, sys) && j < |sys.jobs|
    ensures |Begun(sys, j).db.txs| == |Begun(sys, j).attempts| && Books(base, Begun(sys, j))
  {
    var after := Begun(sys, j);
    var pair := (T.Start(BeginBatch(JobRows(sys.jobs[j])).statements), Attempt(j, false));
    assert Paired(after.db.txs, after.attempts) == Paired(sys.db.txs, sys.attempts) + [pair];
    SumByPush(Paired(sys.db.txs, sys.attempts), pair, UnrecordedCount);
  }

  lemma BeginKeepsInv(maxTries: nat, base: Table, sys: Sys, j: nat)
    requires JInv(maxTries, base, sys) && j < |sys.jobs| && sys.jobs[j].payload.Valid?
    ensures JInv(maxTries, base, Begun(sys, j))
  {
    BeginKeepsAttempts(sys, j);
    BeginKeepsJobs(maxTries, sys, j);
    BeginKeepsBooks(base, sys, j);
    T.BeginKeepsInv(base, sys.db, BeginBatch(JobRows(sys.jobs[j])));
  }

  lemma DeadLetterKeepsInv(maxTries: nat, base: Table, sys: Sys, j: nat)
    requires JInv(maxTries, base, sys) && j < |sys.jobs| && sys.jobs[j].state.Running?
    requires sys.jobs[j].payload.Invalid?
    ensures JInv(maxTries, base, SetState(sys, j, JobState.DeadLettered))
  {
    OneJobOk(maxTries, sys, j);
    hide JInv;
    StateKeepsInv(maxTries, base, sys, j, JobState.DeadLettered);
  }

  lemma EmptyKeepsInv(maxTries: nat, base: Table, sys: Sys, j: nat)
    requires JInv(maxTries, base, sys) && j < |sys.jobs| && sys.jobs[j].state.Running?
    requires sys.jobs[j].payload.Valid? && JobRows(sys.jobs[j]) == []
    ensures JInv(maxTries, base, SetState(sys, j, JobState.Completed(0, 0)))
  {
    OneJobOk(maxTries, sys, j);
    hide JInv;
    PlainStepKeepsInv(maxTries, base, sys, j, sys.jobs[j].(state := JobState.Completed(0, 0)));
  }

  lemma ExecuteKeepsInv(maxTries: nat, base: Table, sys: Sys, j: nat)
    requires JInv(maxTries, base, sys) && ExecuteStep(sys, j).Some?
    ensures JInv(maxTries, base, ExecuteStep(sys, j).value)
  {
    hide JInv, JobRows, SetState;
    if sys.jobs[j].payload.Invalid? {
      DeadLetterKeepsInv(maxTries, base, sys, j);
    } else if JobRows(sys.jobs[j]) == [] {
      EmptyKeepsInv(maxTries, base, sys, j);
    } else {
      AttemptKeepsInv(maxTries, base, sys, j);
    }
  }

  lemma AttemptKeepsInv(maxTries: nat, base: Table, sys: Sys, j: nat)
    requires JInv(maxTries, base, sys) && ExecuteStep(sys, j).Some?
    requires sys.jobs[j].payload.Valid? && JobRows(sys.jobs[j]) != []
    ensures JInv(maxTries, base, ExecuteStep(sys, j).value)
  {
    OneJobOk(maxTries, sys, j);
    BegunOk(maxTries, sys, j);
    BeginKeepsInv(maxTries, base, sys, j);
    hide JInv, JobOk, Begun, ExecuteStep;
    PlainStepKeepsInv(maxTries, base, Begun(sys, j), j, ExecuteStep(sys, j).value.jobs[j]);
  }

  lemma BegunOk(maxTries: nat, sys: Sys, j: nat)
    requires ExecuteStep(sys, j).Some? && JobOk(maxTries, sys, j) && |sys.attempts| == |sys.db.txs|
    requires sys.jobs[j].payload.Valid? && JobRows(sys.jobs[j]) != []
    ensures var begun, after := Begun(sys, j), ExecuteStep(sys, j).value;
      && j < |begun.jobs| == |after.jobs| && after == begun.(jobs := begun.jobs[j := after.jobs[j]])
      && after.jobs[j].payload == begun.jobs[j].payload
      && ReportedCount(after.jobs[j]) == ReportedCount(begun.jobs[j]) == 0
      && JobOk(maxTries, after, j)
  {
    hide JobRows;
  }

  // ----- steps of the store -----

  lemma StoreKeepsJobs(maxTries: nat, sys: Sys, b: T.Action)
    requires AttemptsOk(sys) && JobsOk(maxTries, sys) && StoreStep(sys, b).Some?
    ensures AttemptsOk(StoreStep(sys, b).value) && JobsOk(maxTries, StoreStep(sys, b).value)
  {
    var after := StoreStep(sys, b).value;
    T.StepIsMonotone(sys.db, b);
    forall i | 0 <= i < |after.jobs| ensures JobOk(maxTries, after, i) {
      assert JobOk(maxTries, sys, i);
    }
  }

  /** A recorded attempt's transaction has committed, and takes no step any more. */
  lemma StepIsUnrecorded(sys: Sys, b: T.Action)
    requires |sys.db.txs| == |sys.attempts| && StoreStep(sys, b).Some?
    requires forall t :: 0 <= t < |sys.attempts| && sys.attempts[t].recorded ==> sys.db.txs[t].phase.Committed?
    ensures var next := T.Step(sys.db, b).value;
      && b.t < |sys.db.txs| == |next.txs| && next.txs == sys.db.txs[b.t := next.txs[b.t]]
      && !sys.attempts[b.t].recorded
  {}

  lemma UnrecordedMoves(sys: Sys, b: T.Action)
    requires |sys.db.txs| == |sys.attempts| && StoreStep(sys, b).Some?
    requires forall t :: 0 <= t < |sys.attempts| && sys.attempts[t].recorded ==> sys.db.txs[t].phase.Committed?
    ensures var after := StoreStep(sys, b).value;
      && |after.db.txs| == |after.attempts| && after.jobs == sys.jobs
      && Unrecorded(after) - Unrecorded(sys)
        == SumBy(after.db.txs, T.CommittedCount) - SumBy(sys.db.txs, T.CommittedCount)
  {
    var next := T.Step(sys.db, b).value;
    StepIsUnrecorded(sys, b);
    hide T.Step, SumBy, Paired;
    PairUpdated(sys.db.txs, sys.attempts, b.t, next.txs);
    SumByUpdate(sys.db.txs, b.t, next.txs[b.t], T.CommittedCount);
  }

  lemma StoreKeepsBooks(base: Table, sys: Sys, b: T.Action)
    requires T.Inv(base, sys.db) && |sys.db.txs| == |sys.attempts| && StoreStep(sys, b).Some?
    requires forall t :: 0 <= t < |sys.attempts| && sys.attempts[t].recorded ==> sys.db.txs[t].phase.Committed?
    requires Books(base, sys)
    ensures |sys.db.txs| == |StoreStep(sys, b).value.db.txs| && Books(base, StoreStep(sys, b).value)
  {
    hide T.Inv, T.Step, SumBy, Paired, Unrecorded;
    UnrecordedMoves(sys, b);
    T.StepConserves(base, sys.db, b);
  }

  /** One transaction's change, in the sum over attempts. */
  lemma PairUpdated(txs: seq<T.Tx>, attempts: seq<Attempt>, t: nat, next: seq<T.Tx>)
    requires |txs| == |attempts| == |next| && t < |txs| && next == txs[t := next[t]]
    ensures SumBy(Paired(next, attempts), UnrecordedCount)
         == SumBy(Paired(txs, attempts), UnrecordedCount)
            - UnrecordedCount((txs[t], attempts[t])) + UnrecordedCount((next[t], attempts[t]))
  {
    assert Paired(next, attempts) == Paired(txs, attempts)[t := (next[t], attempts[t])];
    SumByUpdate(Paired(txs, attempts), t, (next[t], attempts[t]), UnrecordedCount);
  }

  lemma StoreKeepsInv(maxTries: nat, base: Table, sys: Sys, b: T.Action)
    requires JInv(maxTries, base, sys) && StoreStep(sys, b).Some?
    ensures JInv(maxTries, base, StoreStep(sys, b).value)
  {
    StoreKeepsJobs(maxTries, sys, b);
    StoreKeepsBooks(base, sys, b);
    T.StepKeepsInv(base, sys.db, b);
  }

  // ----- recording a result -----

  lemma RecordKeepsJobs(maxTries: nat, base: Table, sys: Sys, j: nat)
    requires T.Inv(base, sys.db) && AttemptsOk(sys) && JobsOk(maxTries, sys) && RecordStep(sys, j).Some?
    ensures AttemptsOk(RecordStep(sys, j).value) && JobsOk(maxTries, RecordStep(sys, j).value)
  {
    assert JobOk(maxTries, sys, j);
    var t := sys.jobs[j].state.tx.value;
    T.CommittedBatchVisible(base, sys.db, t);
    RecordKeepsAttempts(maxTries, sys, j);
    RecordKeepsOthers(maxTries, sys, j);
  }

  lemma RecordKeepsAttempts(maxTries: nat, sys: Sys, j: nat)
    requires AttemptsOk(sys) && RecordStep(sys, j).Some? && JobOk(maxTries, sys, j)
    ensures AttemptsOk(RecordStep(sys, j).value)
  {}

  lemma RecordKeepsOther(maxTries: nat, sys: Sys, j: nat, i: nat)
    requires RecordStep(sys, j).Some? && i < |sys.jobs| && i != j
    requires JobOk(maxTries, sys, j) && JobOk(maxTries, sys, i)
    ensures JobOk(maxTries, RecordStep(sys, j).value, i)
  {
    hide JobRows;
  }

  lemma RecordedIsOk(maxTries: nat, sys: Sys, j: nat)
    requires RecordStep(sys, j).Some? && JobOk(maxTries, sys, j)
    requires KeysOf(JobRows(sys.jobs[j])) <= sys.db.table.Keys
    ensures JobOk(maxTries, RecordStep(sys, j).value, j)
  {
    hide KeysOf, BatchRows;
  }

  lemma RecordKeepsOthers(maxTries: nat, sys: Sys, j: nat)
    requires JobsOk(maxTries, sys) && RecordStep(sys, j).Some?
    requires KeysOf(JobRows(sys.jobs[j])) <= sys.db.table.Keys
    ensures JobsOk(maxTries, RecordStep(sys, j).value)
  {
    hide JobOk;
    var after := RecordStep(sys, j).value;
    assert |after.jobs| == |sys.jobs|;
    forall i | 0 <= i < |after.jobs| ensures JobOk(maxTries, after, i) {
      OneJobOk(maxTries, sys, j);
      if i == j {
        RecordedIsOk(maxTries, sys, j);
      } else {
        OneJobOk(maxTries, sys, i);
        RecordKeepsOther(maxTries, sys, j, i);
      }
    }
  }

  lemma RecordKeepsBooks(maxTries: nat, base: Table, sys: Sys, j: nat)
    requires |sys.db.txs| == |sys.attempts| && RecordStep(sys, j).Some? && JobOk(maxTries, sys, j)
    requires Books(base, sys)
    ensures Books(base, RecordStep(sys, j).value)
  {
    var after := RecordStep(sys, j).value;
    var t := sys.jobs[j].state.tx.value;
    var pairs := Paired(sys.db.txs, sys.attempts);
    var recorded := (sys.db.txs[t], Attempt(j, true));
    assert Paired(after.db.txs, after.attempts) == pairs[t := recorded];
    SumByUpdate(pairs, t, recorded, UnrecordedCount);
    SumByUpdate(sys.jobs, j, after.jobs[j], ReportedCount);
  }

  lemma RecordKeepsInv(maxTries: nat, base: Table, sys: Sys, j: nat)
    requires JInv(maxTries, base, sys) && RecordStep(sys, j).Some?
    ensures JInv(maxTries, base, RecordStep(sys, j).value)
  {
    assert JobOk(maxTries, sys, j);
    RecordKeepsJobs(maxTries, base, sys, j);
    RecordKeepsBooks(maxTries, base, sys, j);
  }

  lemma StepKeepsInv(maxTries: nat, base: Table, sys: Sys, a: Action)
    requires JInv(maxTries, base, sys) && Step(maxTries, sys, a).Some?
    ensures JInv(maxTries, base, Step(maxTries, sys, a).value)
  {
    hide JInv;
    match a
    case Enqueue(p) => EnqueueKeepsInv(maxTries, base, sys, p);
    case Claim(j) => ClaimKeepsInv(maxTries, base, sys, j);
    case Execute(j) => ExecuteKeepsInv(maxTries, base, sys, j);
    case Store(b) => StoreKeepsInv(maxTries, base, sys, b);
    case Record(j) => RecordKeepsInv(maxTries, base, sys, j);
    case Reject(j) => RejectKeepsInv(maxTries, base, sys, j);
    case Redeliver(j) => RedeliverKeepsInv(maxTries, base, sys, j);
    case Lose(j) => LoseKeepsInv(maxTries, base, sys, j);
  }

  lemma {:induction false} RunKeepsInv(maxTries: nat, base: Table, sys: Sys, schedule: seq<Action>)
    requires JInv(maxTries, base, sys) && Run(maxTries, sys, schedule).Some?
    ensures JInv(maxTries, base, Run(maxTries, sys, schedule).value)
    decreases schedule
  {
    hide JInv, Step;
    if schedule != [] {
      StepKeepsInv(maxTries, base, sys, schedule[0]);
      RunKeepsInv(maxTries, base, Step(maxTries, sys, schedule[0]).value, schedule[1..]);
    }
  }

  lemma ReachableInv(maxTries: nat, base: Table, schedule: seq<Action>)
    requires Run(maxTries, Initial(base), schedule).Some?
    ensures JInv(maxTries, base, Run(maxTries, Initial(base), schedule).value)
  {
    T.InitialInv(base);
    RunKeepsInv(maxTries, base, Initial(base), schedule);
  }

  // ----- what every run guarantees -----

  lemma {:induction false} NonNegativeSum(pairs: seq<(T.Tx, Attempt)>)
    ensures SumBy(pairs, UnrecordedCount) >= 0
    ensures SumBy(pairs, UnrecordedCount) == 0 <==> forall p :: p in pairs ==> UnrecordedCount(p) == 0
  {
    if pairs != [] {
      assert pairs == [pairs[0]] + pairs[1..];
      NonNegativeSum(pairs[1..]);
    }
  }

  /** The attempt committed rows and its result was never recorded. */
  predicate LostResult(sys: Sys, t: nat)
    requires t < |sys.db.txs| && t < |sys.attempts|
  {
    sys.db.txs[t].phase.Committed? && !sys.attempts[t].recorded && sys.db.txs[t].newly > 0
  }

  /** Table growth is the reported sum plus what lost results inserted. So, counts and
      results read at one instant, the table never falls behind the reported sum (the
      row half of the harness's PASS test), and it matches exactly if and only if no
      lost result inserted a row. */
  lemma GrowthAccounts(maxTries: nat, base: Table, schedule: seq<Action>)
    requires Run(maxTries, Initial(base), schedule).Some?
    ensures var sys := Run(maxTries, Initial(base), schedule).value;
      && |sys.db.txs| == |sys.attempts|
      && |sys.db.table| == |base| + Reported(sys) + Unrecorded(sys)
      && |sys.db.table| >= |base| + Reported(sys)
      && (|sys.db.table| == |base| + Reported(sys) <==>
          forall t :: 0 <= t < |sys.db.txs| ==> !LostResult(sys, t))
  {
    ReachableInv(maxTries, base, schedule);
    var sys := Run(maxTries, Initial(base), schedule).value;
    LostResults(sys);
  }

  lemma LostResults(sys: Sys)
    requires |sys.db.txs| == |sys.attempts|
    ensures Unrecorded(sys) >= 0
    ensures Unrecorded(sys) == 0 <==> forall t :: 0 <= t < |sys.db.txs| ==> !LostResult(sys, t)
  {
    var pairs := Paired(sys.db.txs, sys.attempts);
    NonNegativeSum(pairs);
    if Unrecorded(sys) == 0 {
      forall t | 0 <= t < |sys.db.txs| ensures !LostResult(sys, t) {
        assert pairs[t] in pairs;
      }
    }
    if forall t :: 0 <= t < |sys.db.txs| ==> !LostResult(sys, t) {
      forall p | p in pairs ensures UnrecordedCount(p) == 0 {
        var t :| 0 <= t < |pairs| && pairs[t] == p;
        assert !LostResult(sys, t);
      }
    }
  }

  /** A completed job's rows are all stored; the table is the serial insertion of whole
      job batches, so no partial batch is ever visible; a valid job is never
      dead-lettered, not even when its attempts run out. */
  lemma JobsAreAtomic(maxTries: nat, base: Table, schedule: seq<Action>)
    requires Run(maxTries, Initial(base), schedule).Some?
    ensures var sys := Run(maxTries, Initial(base), schedule).value;
      && (forall j :: 0 <= j < |sys.jobs| && sys.jobs[j].state.Completed? ==>
            sys.jobs[j].payload.Valid? && KeysOf(JobRows(sys.jobs[j])) <= sys.db.table.Keys)
      && sys.db.table == T.Serial(base, T.CommittedBatches(sys.db))
      && (forall b :: b in T.CommittedBatches(sys.db) ==>
            exists j :: 0 <= j < |sys.jobs| && sys.jobs[j].payload.Valid? && b == JobRows(sys.jobs[j]))
      && (forall j :: 0 <= j < |sys.jobs| && sys.jobs[j].state.DeadLettered? ==> sys.jobs[j].payload.Invalid?)
  {
    ReachableInv(maxTries, base, schedule);
    var sys := Run(maxTries, Initial(base), schedule).value;
    forall j | 0 <= j < |sys.jobs|
      ensures sys.jobs[j].state.Completed? ==>
        sys.jobs[j].payload.Valid? && KeysOf(JobRows(sys.jobs[j])) <= sys.db.table.Keys
      ensures sys.jobs[j].state.DeadLettered? ==> sys.jobs[j].payload.Invalid?
    {
      OutcomeOk(maxTries, sys, j);
    }
    BatchesAreJobs(sys);
  }

  lemma OutcomeOk(maxTries: nat, sys: Sys, j: nat)
    requires JobsOk(maxTries, sys) && j < |sys.jobs|
    ensures sys.jobs[j].state.Completed? ==>
      sys.jobs[j].payload.Valid? && KeysOf(JobRows(sys.jobs[j])) <= sys.db.table.Keys
    ensures sys.jobs[j].state.DeadLettered? ==> sys.jobs[j].payload.Invalid?
  {
    assert JobOk(maxTries, sys, j);
  }

  lemma BatchesAreJobs(sys: Sys)
    requires AttemptsOk(sys) && T.LogOk(sys.db)
    ensures forall b ::
      b in T.CommittedBatches(sys.db) ==>
        exists j :: 0 <= j < |sys.jobs| && sys.jobs[j].payload.Valid? && b == JobRows(sys.jobs[j])
  {
    var batches := T.CommittedBatches(sys.db);
    forall b | b in batches
      ensures exists j :: 0 <= j < |sys.jobs| && sys.jobs[j].payload.Valid? && b == JobRows(sys.jobs[j])
    {
      var i :| 0 <= i < |batches| && batches[i] == b;
      var t := sys.db.log[i];
      assert b == JobRows(sys.jobs[sys.attempts[t].job]);
    }
  }

  /** Of two committed attempts of one job the later inserts nothing: the rows of a job
      enter the table exactly once however often it is delivered. */
  lemma RedeliveryInsertsNothing(maxTries: nat, base: Table, schedule: seq<Action>, i: nat, k: nat)
    requires Run(maxTries, Initial(base), schedule).Some?
    requires var sys := Run(maxTries, Initial(base), schedule).value;
      && |sys.db.txs| == |sys.attempts|
      && i < k < |sys.db.log|
      && sys.db.log[i] < |sys.attempts| && sys.db.log[k] < |sys.attempts|
      && sys.attempts[sys.db.log[i]].job == sys.attempts[sys.db.log[k]].job
    ensures var sys := Run(maxTries, Initial(base), schedule).value;
      sys.db.txs[sys.db.log[k]].newly == 0
  {
    ReachableInv(maxTries, base, schedule);
    var sys := Run(maxTries, Initial(base), schedule).value;
    T.LaterBatchInsertsNothing(base, sys.db, i, k);
  }

  /** The keys of every job's batch. */
  ghost function JobKeys(jobs: seq<Job>): set<string> {
    set j, r | 0 <= j < |jobs| && r in JobRows(jobs[j]) :: Key(r.id)
  }

  ghost predicate AllCompleted(jobs: seq<Job>) {
    forall j :: 0 <= j < |jobs| ==> jobs[j].state.Completed?
  }

  lemma CompletedKeysStored(maxTries: nat, sys: Sys)
    requires JobsOk(maxTries, sys) && AllCompleted(sys.jobs)
    ensures JobKeys(sys.jobs) <= sys.db.table.Keys
  {
    forall k | k in JobKeys(sys.jobs) ensures k in sys.db.table.Keys {
      var j, r :| 0 <= j < |sys.jobs| && r in JobRows(sys.jobs[j]) && Key(r.id) == k;
      assert JobOk(maxTries, sys, j);
    }
  }

  lemma TableBounds(base: Table, sys: Sys)
    requires T.LogOk(sys.db) && T.History(base, sys.db) && AttemptsOk(sys)
    ensures base.Keys <= sys.db.table.Keys <= base.Keys + JobKeys(sys.jobs)
  {
    T.TableKeys(base, sys.db);
    CommittedKeysAreJobKeys(sys);
  }

  lemma DrainedState(maxTries: nat, base: Table, sys: Sys)
    requires T.LogOk(sys.db) && T.History(base, sys.db) && AttemptsOk(sys) && JobsOk(maxTries, sys)
    ensures base.Keys <= sys.db.table.Keys <= base.Keys + JobKeys(sys.jobs)
    ensures AllCompleted(sys.jobs) ==> sys.db.table.Keys == base.Keys + JobKeys(sys.jobs)
  {
    TableBounds(base, sys);
    if AllCompleted(sys.jobs) { CompletedKeysStored(maxTries, sys); }
  }

  /** Once every job is completed the id set is the base set and the batches of all
      jobs: crashes, retries and redeliveries leave no trace in it. */
  lemma DrainedIdSet(maxTries: nat, base: Table, schedule: seq<Action>)
    requires Run(maxTries, Initial(base), schedule).Some?
    ensures var sys := Run(maxTries, Initial(base), schedule).value;
      && base.Keys <= sys.db.table.Keys <= base.Keys + JobKeys(sys.jobs)
      && (AllCompleted(sys.jobs) ==> sys.db.table.Keys == base.Keys + JobKeys(sys.jobs))
  {
    ReachableInv(maxTries, base, schedule);
    DrainedState(maxTries, base, Run(maxTries, Initial(base), schedule).value);
  }

  lemma CommittedKeysAreJobKeys(sys: Sys)
    requires AttemptsOk(sys)
    ensures T.CommittedKeys(sys.db) <= JobKeys(sys.jobs)
  {
    forall k | k in T.CommittedKeys(sys.db) ensures k in JobKeys(sys.jobs) {
      var t, r :| 0 <= t < |sys.db.txs| && sys.db.txs[t].phase.Committed? && r in sys.db.txs[t].batch && Key(r.id) == k;
      assert r in JobRows(sys.jobs[sys.attempts[t].job]);
    }
  }

  // ----- a third outcome -----

  function Claims(schedule: seq<Action>, j: nat): nat
    decreases schedule
  {
    if schedule == [] then 0
    else (if schedule[0] == Claim(j) then 1 else 0) + Claims(schedule[1..], j)
  }

  /** A job that has been claimed c times and never got a result. */
  predicate Unresolved(maxTries: nat, job: Job, c: nat) {
    match job.state
    case Queued => job.tries == c <= maxTries
    case Running(_) => job.tries == c <= maxTries
    case Exhausted => c == maxTries + 1
    case Lost => job.tries == c <= maxTries
    case _ => false
  }

  lemma {:induction false} PayloadStays(maxTries: nat, sys: Sys, schedule: seq<Action>, j: nat)
    requires j < |sys.jobs| && Run(maxTries, sys, schedule).Some?
    ensures j < |Run(maxTries, sys, schedule).value.jobs|
    ensures Run(maxTries, sys, schedule).value.jobs[j].payload == sys.jobs[j].payload
    decreases schedule
  {
    hide Step;
    if schedule != [] {
      PayloadKept(maxTries, sys, schedule[0], j);
      PayloadStays(maxTries, Step(maxTries, sys, schedule[0]).value, schedule[1..], j);
    }
  }

  lemma PayloadKept(maxTries: nat, sys: Sys, a: Action, j: nat)
    requires j < |sys.jobs| && Step(maxTries, sys, a).Some?
    ensures j < |Step(maxTries, sys, a).value.jobs|
    ensures Step(maxTries, sys, a).value.jobs[j].payload == sys.jobs[j].payload
  {
    hide JobRows, BeginBatch, T.Step, Dedupe, Normalize;
  }

  ghost predicate NoResult(schedule: seq<Action>, j: nat) {
    forall a :: a in schedule ==> a != Record(j) && a != Reject(j)
  }

  lemma ClaimStepCounted(maxTries: nat, sys: Sys, a: Action, j: nat, c: nat)
    requires j < |sys.jobs| && Step(maxTries, sys, a).Some? && a != Record(j) && a != Reject(j)
    requires Unresolved(maxTries, sys.jobs[j], c) && sys.jobs[j].payload.Valid? && JobRows(sys.jobs[j]) != []
    ensures j < |Step(maxTries, sys, a).value.jobs|
    ensures Unresolved(maxTries, Step(maxTries, sys, a).value.jobs[j], c + (if a == Claim(j) then 1 else 0))
  {
    hide JobRows, T.Step;
    match a
    case Claim(i) => ClaimCounted(maxTries, sys, i, j, c);
    case Execute(i) => ExecuteUnresolved(maxTries, sys, i, j, c);
    case _ =>
  }

  lemma ClaimCounted(maxTries: nat, sys: Sys, i: nat, j: nat, c: nat)
    requires j < |sys.jobs| && ClaimStep(maxTries, sys, i).Some? && Unresolved(maxTries, sys.jobs[j], c)
    ensures j < |ClaimStep(maxTries, sys, i).value.jobs|
    ensures Unresolved(maxTries, ClaimStep(maxTries, sys, i).value.jobs[j], c + (if i == j then 1 else 0))
  {}

  lemma ExecuteUnresolved(maxTries: nat, sys: Sys, i: nat, j: nat, c: nat)
    requires j < |sys.jobs| && ExecuteStep(sys, i).Some? && Unresolved(maxTries, sys.jobs[j], c)
    requires sys.jobs[j].payload.Valid? && JobRows(sys.jobs[j]) != []
    ensures j < |ExecuteStep(sys, i).value.jobs| && Unresolved(maxTries, ExecuteStep(sys, i).value.jobs[j], c)
  {
    hide BatchRows;
  }

  lemma NewJobUnresolved(maxTries: nat, sys: Sys, a: Action, j: nat)
    requires j >= |sys.jobs| && Step(maxTries, sys, a).Some?
    ensures var next := Step(maxTries, sys, a).value;
      && a != Claim(j)
      && (j < |next.jobs| ==> Unresolved(maxTries, next.jobs[j], 0))
  {}

  lemma {:induction false} ClaimsCounted(maxTries: nat, sys: Sys, schedule: seq<Action>, end: Sys, j: nat, c: nat)
    requires Run(maxTries, sys, schedule) == Some(end) && NoResult(schedule, j)
    requires if j < |sys.jobs| then Unresolved(maxTries, sys.jobs[j], c) else c == 0
    requires j < |end.jobs| && end.jobs[j].payload.Valid? && JobRows(end.jobs[j]) != []
    ensures Unresolved(maxTries, end.jobs[j], c + Claims(schedule, j))
    decreases schedule, 0
  {
    if schedule != [] {
      var a, rest := schedule[0], schedule[1..];
      var next := Step(maxTries, sys, a).value;
      assert a in schedule;
      if j < |sys.jobs| {
        PayloadStays(maxTries, sys, schedule, j);
        ClaimStepCounted(maxTries, sys, a, j, c);
      } else {
        NewJobUnresolved(maxTries, sys, a, j);
      }
      assert schedule == [a] + rest;
      assert forall x :: x in rest ==> x in schedule;
      RestCounted(maxTries, next, a, rest, end, j, c);
    }
  }

  lemma {:induction false} RestCounted(maxTries: nat, next: Sys, a: Action, rest: seq<Action>, end: Sys, j: nat, c: nat)
    requires Run(maxTries, next, rest) == Some(end) && NoResult(rest, j)
    requires var d := c + (if a == Claim(j) then 1 else 0);
      if j < |next.jobs| then Unresolved(maxTries, next.jobs[j], d) else d == 0
    requires j < |end.jobs| && end.jobs[j].payload.Valid? && JobRows(end.jobs[j]) != []
    ensures Unresolved(maxTries, end.jobs[j], c + Claims([a] + rest, j))
    decreases rest, 1
  {
    assert ([a] + rest)[1..] == rest;
    ClaimsCounted(maxTries, next, rest, end, j, c + (if a == Claim(j) then 1 else 0));
  }

  predicate IsLost(sys: Sys, j: nat) {
    j < |sys.jobs| && sys.jobs[j].state.Lost?
  }

  lemma LostStep(maxTries: nat, sys: Sys, a: Action, j: nat)
    requires Step(maxTries, sys, a).Some?
    ensures IsLost(Step(maxTries, sys, a).value, j) <==> IsLost(sys, j) || a == Lose(j)
  {
    hide JobRows, BeginBatch, T.Step, Dedupe, Normalize;
  }

  /** Nothing brings a lost job back. */
  lemma {:induction false} LostExactly(maxTries: nat, sys: Sys, schedule: seq<Action>, j: nat)
    requires Run(maxTries, sys, schedule).Some?
    ensures IsLost(Run(maxTries, sys, schedule).value, j) <==> IsLost(sys, j) || Lose(j) in schedule
    decreases schedule
  {
    hide Step, IsLost;
    if schedule != [] {
      assert schedule == [schedule[0]] + schedule[1..];
      LostStep(maxTries, sys, schedule[0], j);
      LostExactly(maxTries, Step(maxTries, sys, schedule[0]).value, schedule[1..], j);
    }
  }

  /** In every run, a valid batch of which no attempt gets a result recorded is neither
      completed nor dead-lettered: it is Lost exactly when an attempt was killed by the
      timeout or failed otherwise, Exhausted exactly when it has been claimed once more than
      it may be tried, and waits or runs until then. */
  lemma ExhaustedExactly(maxTries: nat, base: Table, schedule: seq<Action>, j: nat)
    requires Run(maxTries, Initial(base), schedule).Some? && NoResult(schedule, j)
    requires var sys := Run(maxTries, Initial(base), schedule).value;
      j < |sys.jobs| && sys.jobs[j].payload.Valid? && JobRows(sys.jobs[j]) != []
    ensures var job := Run(maxTries, Initial(base), schedule).value.jobs[j];
      && (job.state.Exhausted? <==> Claims(schedule, j) == maxTries + 1)
      && (job.state.Lost? <==> Lose(j) in schedule)
      && (job.state.Exhausted? || job.state.Lost? || job.state.Queued? || job.state.Running?)
  {
    LostExactly(maxTries, Initial(base), schedule, j);
    ClaimsCounted(maxTries, Initial(base), schedule, Run(maxTries, Initial(base), schedule).value, j, 0);
  }

  /** The transactions after the first n are m rolled-back ones on the batch. */
  ghost predicate RolledBackFrom(db: T.Db, n: nat, m: nat, batch: seq<Row>) {
    |db.txs| == n + m &&
      forall t :: n <= t < |db.txs| ==> db.txs[t].batch == batch && db.txs[t].phase.RolledBack?
  }

  /** It does happen: every attempt begins a transaction on the whole batch and rolls it
      back; the batch ends Exhausted, and the table is as it was. */
  lemma {:induction false} WearOut(maxTries: nat, sys: Sys, p: Payload, tries: nat) returns (schedule: seq<Action>)
    requires sys.jobs == [Job(p, tries, Queued)] && p.Valid? && BatchRows(p.events) != [] && tries <= maxTries
    ensures Run(maxTries, sys, schedule).Some?
    ensures var end := Run(maxTries, sys, schedule).value;
      && end.jobs == [Job(p, maxTries, Exhausted)] && end.db.table == sys.db.table
      && sys.db.txs <= end.db.txs
      && RolledBackFrom(end.db, |sys.db.txs|, maxTries - tries, BatchRows(p.events))
    decreases maxTries - tries
  {
    if tries == maxTries {
      schedule := LastClaim(maxTries, sys, p);
    } else {
      hide RolledBackFrom, BatchRows, Run, Step;
      var round, next := FailedRound(maxTries, sys, p, tries);
      var rest := WearOut(maxTries, next, p, tries + 1);
      RunAppend(maxTries, sys, round, next, rest);
      schedule := round + rest;
      OneMoreRolledBack(sys.db, next.db, Run(maxTries, next, rest).value.db, maxTries - tries - 1, BatchRows(p.events));
    }
  }

  lemma LastClaim(maxTries: nat, sys: Sys, p: Payload) returns (schedule: seq<Action>)
    requires sys.jobs == [Job(p, maxTries, Queued)]
    ensures Run(maxTries, sys, schedule) == Some(sys.(jobs := [Job(p, maxTries, Exhausted)]))
  {
    schedule := [Claim(0)];
    assert schedule[1..] == [];
    assert sys.jobs[0 := Job(p, maxTries, Exhausted)] == [Job(p, maxTries, Exhausted)];
  }

  lemma OneMoreRolledBack(db: T.Db, next: T.Db, end: T.Db, m: nat, batch: seq<Row>)
    requires db.txs <= next.txs <= end.txs
    requires RolledBackFrom(next, |db.txs|, 1, batch) && RolledBackFrom(end, |next.txs|, m, batch)
    ensures db.txs <= end.txs && RolledBackFrom(end, |db.txs|, m + 1, batch)
  {
    assert end.txs[|db.txs|] == next.txs[|db.txs|];
  }

  /** Claimed, executed up to its transaction, rolled back, returned to the queue. */
  lemma FailedRound(maxTries: nat, sys: Sys, p: Payload, tries: nat) returns (round: seq<Action>, next: Sys)
    requires sys.jobs == [Job(p, tries, Queued)] && p.Valid? && BatchRows(p.events) != [] && tries < maxTries
    ensures Run(maxTries, sys, round) == Some(next)
    ensures next.jobs == [Job(p, tries + 1, Queued)] && next.db.table == sys.db.table
    ensures sys.db.txs <= next.db.txs && RolledBackFrom(next.db, |sys.db.txs|, 1, BatchRows(p.events))
  {
    var t := |sys.db.txs|;
    var claimed := ClaimOne(maxTries, sys, p, tries);
    var begun, aborted := BeginAndAbort(maxTries, claimed, p, tries + 1);
    next := RedeliverOne(maxTries, aborted, p, tries + 1, t);
    round := [Claim(0), Execute(0), Store(T.Abort(t)), Redeliver(0)];
    RunFour(maxTries, sys, round, claimed, begun, aborted, next);
  }

  /** No transaction is unfinished, and no job is queued or running. */
  ghost predicate AtRest(sys: Sys) {
    && (forall j :: 0 <= j < |sys.jobs| ==> !sys.jobs[j].state.Queued? && !sys.jobs[j].state.Running?)
    && (forall t :: 0 <= t < |sys.db.txs| ==> !sys.db.txs[t].Active())
  }

  ghost predicate NoNewJob(schedule: seq<Action>) {
    forall i :: 0 <= i < |schedule| ==> !schedule[i].Enqueue?
  }

  lemma NoStepAtRest(maxTries: nat, sys: Sys, a: Action)
    requires AtRest(sys) && !a.Enqueue?
    ensures Step(maxTries, sys, a).None?
  {}

  lemma RestStays(maxTries: nat, sys: Sys, after: seq<Action>)
    requires AtRest(sys) && NoNewJob(after) && Run(maxTries, sys, after).Some?
    ensures after == []
  {
    if after != [] { NoStepAtRest(maxTries, sys, after[0]); }
  }

  /** And so does losing one: an attempt killed while its transaction is open leaves the
      batch neither stored nor queued, and without new jobs nothing can happen any more. */
  lemma KilledMidWrite(maxTries: nat, sys: Sys, p: Payload) returns (schedule: seq<Action>, end: Sys)
    requires sys.jobs == [Job(p, 0, Queued)] && p.Valid? && BatchRows(p.events) != [] && maxTries >= 1
    requires forall t :: 0 <= t < |sys.db.txs| ==> !sys.db.txs[t].Active()
    ensures Run(maxTries, sys, schedule) == Some(end)
    ensures end.jobs == [Job(p, 1, JobState.Lost)] && end.db.table == sys.db.table
    ensures forall after :: NoNewJob(after) && Run(maxTries, end, after).Some? ==> after == []
  {
    schedule, end := LostRound(maxTries, sys, p);
    NothingActive(sys.db, end.db, BatchRows(p.events));
    forall after | NoNewJob(after) && Run(maxTries, end, after).Some? ensures after == [] {
      RestStays(maxTries, end, after);
    }
  }

  lemma LostRound(maxTries: nat, sys: Sys, p: Payload) returns (round: seq<Action>, next: Sys)
    requires sys.jobs == [Job(p, 0, Queued)] && p.Valid? && BatchRows(p.events) != [] && maxTries >= 1
    ensures Run(maxTries, sys, round) == Some(next)
    ensures next.jobs == [Job(p, 1, JobState.Lost)] && next.db.table == sys.db.table
    ensures sys.db.txs <= next.db.txs && RolledBackFrom(next.db, |sys.db.txs|, 1, BatchRows(p.events))
  {
    var t := |sys.db.txs|;
    var claimed := ClaimOne(maxTries, sys, p, 0);
    var begun, aborted := BeginAndAbort(maxTries, claimed, p, 1);
    next := LoseOne(maxTries, aborted, p, 1, t);
    round := [Claim(0), Execute(0), Store(T.Abort(t)), Lose(0)];
    RunFour(maxTries, sys, round, claimed, begun, aborted, next);
  }

  lemma LoseOne(maxTries: nat, sys: Sys, p: Payload, tries: nat, t: nat) returns (next: Sys)
    requires sys.jobs == [Job(p, tries, Running(Some(t)))]
    ensures Step(maxTries, sys, Lose(0)) == Some(next)
    ensures next.jobs == [Job(p, tries, JobState.Lost)] && next.db == sys.db
  {
    next := LoseStep(sys, 0).value;
  }

  lemma NothingActive(db: T.Db, next: T.Db, batch: seq<Row>)
    requires db.txs <= next.txs && RolledBackFrom(next, |db.txs|, 1, batch)
    requires forall t :: 0 <= t < |db.txs| ==> !db.txs[t].Active()
    ensures forall t :: 0 <= t < |next.txs| ==> !next.txs[t].Active()
  {
    forall t | 0 <= t < |next.txs| ensures !next.txs[t].Active() {
      if t < |db.txs| { assert next.txs[t] == db.txs[t]; }
    }
  }

  lemma ClaimOne(maxTries: nat, sys: Sys, p: Payload, tries: nat) returns (next: Sys)
    requires sys.jobs == [Job(p, tries, Queued)] && tries < maxTries
    ensures Step(maxTries, sys, Claim(0)) == Some(next)
    ensures next.jobs == [Job(p, tries + 1, Running(None))] && next.db == sys.db
  {
    next := ClaimStep(maxTries, sys, 0).value;
  }

  lemma RedeliverOne(maxTries: nat, sys: Sys, p: Payload, tries: nat, t: nat) returns (next: Sys)
    requires sys.jobs == [Job(p, tries, Running(Some(t)))]
    ensures Step(maxTries, sys, Redeliver(0)) == Some(next)
    ensures next.jobs == [Job(p, tries, Queued)] && next.db == sys.db
  {
    next := RedeliverStep(sys, 0).value;
  }

  lemma BeginAndAbort(maxTries: nat, sys: Sys, p: Payload, tries: nat) returns (begun: Sys, aborted: Sys)
    requires sys.jobs == [Job(p, tries, Running(None))] && p.Valid? && BatchRows(p.events) != []
    ensures Step(maxTries, sys, Execute(0)) == Some(begun)
    ensures Step(maxTries, begun, Store(T.Abort(|sys.db.txs|))) == Some(aborted)
    ensures aborted.jobs == [Job(p, tries, Running(Some(|sys.db.txs|)))] && aborted.db.table == sys.db.table
    ensures sys.db.txs <= aborted.db.txs && RolledBackFrom(aborted.db, |sys.db.txs|, 1, BatchRows(p.events))
  {
    begun := BeginOne(maxTries, sys, p, tries);
    hide BatchRows;
    aborted := AbortOne(maxTries, begun, |sys.db.txs|);
  }

  lemma BeginOne(maxTries: nat, sys: Sys, p: Payload, tries: nat) returns (begun: Sys)
    requires sys.jobs == [Job(p, tries, Running(None))] && p.Valid? && BatchRows(p.events) != []
    ensures Step(maxTries, sys, Execute(0)) == Some(begun)
    ensures begun.jobs == [Job(p, tries, Running(Some(|sys.db.txs|)))] && begun.db.table == sys.db.table
    ensures |begun.db.txs| == |sys.db.txs| + 1 && sys.db.txs <= begun.db.txs
    ensures begun.db.txs[|sys.db.txs|].batch == BatchRows(p.events) && begun.db.txs[|sys.db.txs|].phase.Idle?
  {
    BegunTransaction(sys, 0);
    hide BatchRows;
    begun := ExecuteStep(sys, 0).value;
    assert begun == Begun(sys, 0).(jobs := begun.jobs);
  }

  lemma AbortOne(maxTries: nat, sys: Sys, t: nat) returns (next: Sys)
    requires t < |sys.db.txs| && sys.db.txs[t].phase.Idle?
    ensures Step(maxTries, sys, Store(T.Abort(t))) == Some(next)
    ensures next.jobs == sys.jobs && next.db.table == sys.db.table
    ensures next.db.txs == sys.db.txs[t := sys.db.txs[t].(phase := T.RolledBack)]
  {
    next := StoreStep(sys, T.Abort(t)).value;
  }

  lemma RunFour(maxTries: nat, sys: Sys, s: seq<Action>, a: Sys, b: Sys, c: Sys, d: Sys)
    requires |s| == 4
    requires Step(maxTries, sys, s[0]) == Some(a) && Step(maxTries, a, s[1]) == Some(b)
    requires Step(maxTries, b, s[2]) == Some(c) && Step(maxTries, c, s[3]) == Some(d)
    ensures Run(maxTries, sys, s) == Some(d)
  {
    assert s[1..][1..][1..][1..] == [];
    assert Run(maxTries, c, s[1..][1..][1..]) == Some(d);
    assert Run(maxTries, b, s[1..][1..]) == Some(d);
    assert Run(maxTries, a, s[1..]) == Some(d);
  }

  lemma {:induction false} RunAppend(maxTries: nat, sys: Sys, s: seq<Action>, mid: Sys, r: seq<Action>)
    requires Run(maxTries, sys, s) == Some(mid)
    ensures Run(maxTries, sys, s + r) == Run(maxTries, mid, r)
    decreases s
  {
    if s == [] {
      assert s + r == r;
    } else {
      assert (s + r)[1..] == s[1..] + r;
      RunAppend(maxTries, Step(maxTries, sys, s[0]).value, s[1..], mid, r);
    }
  }
}
