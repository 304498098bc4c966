/** The load balancer as interleaved steps (load_balancer/server.py): any number of
    requests in the retry loop, sharing the router's cursor, the health table and the
    metrics with a health-check thread. The snapshot of healthy backends, the turn of the
    cursor, the forward, `mark_unhealthy` and the metrics record are separate steps, with
    anything in between. */
module Balancer {
  import opened Common
  import opened Health
  import opened Ids
  import opened Router

  /** HEALTH_RECOVERIES_REQUIRED and MAX_RETRIES, as configured. */
  datatype Config = Config(recoveriesRequired: int, maxRetries: int)

  datatype Stats = Stats(total: nat, successful: nat, failed: nat, retried: nat, selections: multiset<string>)

  /** One forward of a request. `healthySeen` is the number of healthy backends when it
      was decided and `decidedAt` the length of its backend's history then; `failedAt` is
      that length once `mark_unhealthy` had run, 0 before. */
  datatype Try = Try(url: string, healthySeen: nat, decidedAt: nat, failedAt: nat)

  /** An attempt that the guard turned away: the backend offered, the forwards made by then
      and the number of healthy backends. */
  datatype Skip = Skip(url: string, tried: nat, healthySeen: nat)

  /** 503 for want of a backend, 502, or the backend's own answer. */
  datatype Response = NoBackend | BadGateway | Answered(status: int)

  datatype Phase =
    | Start
    | Snapped(healthy: set<string>)
    | Chosen(url: string)
    | Forwarding(url: string)
    | Marked(url: string)
    | Done(response: Response)

  datatype Request = Request(retryable: bool, attempt: nat, tries: seq<Try>, skips: seq<Skip>, phase: Phase)

  /** `history` holds the health events applied to each backend, in order. */
  datatype Lb = Lb(history: map<string, seq<Event>>, rot: Rotation, stats: Stats, reqs: seq<Request>)

  datatype Action =
    | Arrive(retryable: bool)
    | Snapshot(r: nat)
    | Route(r: nat)
    | Decide(r: nat)
    | Break(r: nat)
    | RecordBreak(r: nat)
    | Answer(r: nat, status: int)
    | Probe(url: string, pass: bool)

  // ----- which requests are retried -----

  const SAFE_RETRY_METHODS := {"GET", "PUT", "DELETE", "HEAD", "OPTIONS"}
  const IDEMPOTENCY_KEY_HEADER := "Idempotency-Key"

  function UpperChar(c: char): char {
    if 'a' <= c <= 'z' then c - 'a' + 'A' else c
  }

  function MapChars(s: string, f: char -> char): string {
    seq(|s|, i requires 0 <= i < |s| => f(s[i]))
  }

  /** `_is_safe_to_retry`: an idempotent method, or the key header in any case. */
  predicate IsSafeToRetry(httpMethod: string, headers: seq<string>) {
    MapChars(httpMethod, UpperChar) in SAFE_RETRY_METHODS
    || exists h :: h in headers && MapChars(h, Lower) == MapChars(IDEMPOTENCY_KEY_HEADER, Lower)
  }

  /** The same letter of the Latin alphabet, large or small, or the same character. */
  predicate SameLetter(a: char, b: char) {
    || a == b
    || ('A' <= a <= 'Z' && b as int == a as int + 32)
    || ('A' <= b <= 'Z' && a as int == b as int + 32)
  }

  predicate SameButCase(s: string, t: string) {
    |s| == |t| && forall i :: 0 <= i < |s| ==> SameLetter(s[i], t[i])
  }

  lemma LettersMeet(a: char, b: char)
    ensures UpperChar(a) == UpperChar(b) <==> SameLetter(a, b)
    ensures Lower(a) == Lower(b) <==> SameLetter(a, b)
  {}

  lemma MapIsSameButCase(s: string, t: string)
    ensures MapChars(s, UpperChar) == MapChars(t, UpperChar) <==> SameButCase(s, t)
    ensures MapChars(s, Lower) == MapChars(t, Lower) <==> SameButCase(s, t)
  {
    var us, ut, ls, lt := MapChars(s, UpperChar), MapChars(t, UpperChar), MapChars(s, Lower), MapChars(t, Lower);
    forall i | 0 <= i < |s| && i < |t|
      ensures us[i] == ut[i] <==> SameLetter(s[i], t[i])
      ensures ls[i] == lt[i] <==> SameLetter(s[i], t[i])
    {
      LettersMeet(s[i], t[i]);
    }
  }

  predicate AllUpper(s: string) {
    forall i :: 0 <= i < |s| ==> 'A' <= s[i] <= 'Z'
  }

  lemma UpperStays(s: string)
    requires AllUpper(s)
    ensures MapChars(s, UpperChar) == s
  {
    forall i | 0 <= i < |s| ensures MapChars(s, UpperChar)[i] == s[i] { assert UpperChar(s[i]) == s[i]; }
  }

  lemma MethodIs(httpMethod: string, name: string)
    requires AllUpper(name)
    ensures MapChars(httpMethod, UpperChar) == name <==> SameButCase(httpMethod, name)
  {
    UpperStays(name);
    MapIsSameButCase(httpMethod, name);
  }

  lemma SafeMethodIff(httpMethod: string)
    ensures MapChars(httpMethod, UpperChar) in SAFE_RETRY_METHODS <==>
      || SameButCase(httpMethod, "GET") || SameButCase(httpMethod, "PUT") || SameButCase(httpMethod, "DELETE")
      || SameButCase(httpMethod, "HEAD") || SameButCase(httpMethod, "OPTIONS")
  {
    MethodIs(httpMethod, "GET");
    MethodIs(httpMethod, "PUT");
    MethodIs(httpMethod, "DELETE");
    MethodIs(httpMethod, "HEAD");
    MethodIs(httpMethod, "OPTIONS");
  }

  /** The decision, spelled out: the five idempotent methods, or the Idempotency-Key header,
      letter by letter in either case. */
  lemma SafeToRetryIff(httpMethod: string, headers: seq<string>)
    ensures IsSafeToRetry(httpMethod, headers) <==>
      || SameButCase(httpMethod, "GET") || SameButCase(httpMethod, "PUT") || SameButCase(httpMethod, "DELETE")
      || SameButCase(httpMethod, "HEAD") || SameButCase(httpMethod, "OPTIONS")
      || exists h :: h in headers && SameButCase(h, "Idempotency-Key")
  {
    SafeMethodIff(httpMethod);
    forall h | h in headers
      ensures MapChars(h, Lower) == MapChars(IDEMPOTENCY_KEY_HEADER, Lower) <==> SameButCase(h, "Idempotency-Key")
    {
      MapIsSameButCase(h, IDEMPOTENCY_KEY_HEADER);
    }
  }

  /** A POST or a PATCH is retried only with the header. */
  lemma PostNeedsHeader(httpMethod: string, headers: seq<string>)
    requires SameButCase(httpMethod, "POST") || SameButCase(httpMethod, "PATCH")
    ensures IsSafeToRetry(httpMethod, headers) <==> exists h :: h in headers && SameButCase(h, "Idempotency-Key")
  {
    SafeToRetryIff(httpMethod, headers);
    assert SameLetter(httpMethod[0], 'P');
    assert |httpMethod| == 4 || |httpMethod| == 5;
  }

  // ----- steps -----

  function Allowed(cfg: Config, retryable: bool): int {
    1 + (if retryable then cfg.maxRetries else 0)
  }

  /** `continue`: the next attempt, or 502 when none is left. */
  function NextAttempt(cfg: Config, q: Request): Request {
    if q.attempt + 1 < Allowed(cfg, q.retryable) then q.(attempt := q.attempt + 1, phase := Start)
    else q.(phase := Done(BadGateway))
  }

  function Record(s: Stats, url: string, success: bool, retried: bool): Stats {
    Stats(s.total + 1,
          s.successful + (if success then 1 else 0),
          s.failed + (if success then 0 else 1),
          s.retried + (if retried then 1 else 0),
          s.selections + multiset{url})
  }

  function NewRequest(cfg: Config, retryable: bool): Request {
    Request(retryable, 0, [], [], if Allowed(cfg, retryable) > 0 then Start else Done(BadGateway))
  }

  function Urls(q: Request): seq<string> {
    seq(|q.tries|, i requires 0 <= i < |q.tries| => q.tries[i].url)
  }

  function Put(lb: Lb, r: nat, q: Request): Lb
    requires r < |lb.reqs|
  {
    lb.(reqs := lb.reqs[r := q])
  }

  function SnapshotStep(cfg: Config, lb: Lb, r: nat): Option<Lb> {
    if r < |lb.reqs| && lb.reqs[r].phase.Start? then
      Some(Put(lb, r, lb.reqs[r].(phase := Snapped(HealthySet(lb.history, cfg.recoveriesRequired)))))
    else None
  }

  function RouteStep(cfg: Config, lb: Lb, r: nat): Option<Lb> {
    if r < |lb.reqs| && lb.reqs[r].phase.Snapped? then
      var (choice, rot) := Select(lb.rot, lb.reqs[r].phase.healthy);
      match choice
      case None =>
        var stats := Record(lb.stats, "none", false, false);
        Some(Put(lb, r, lb.reqs[r].(phase := Done(NoBackend))).(rot := rot, stats := stats))
      case Some(url) =>
        Some(Put(lb, r, lb.reqs[r].(phase := Chosen(url))).(rot := rot))
    else None
  }

  function DecideStep(cfg: Config, lb: Lb, r: nat): Option<Lb> {
    if r < |lb.reqs| && lb.reqs[r].phase.Chosen? then
      var q := lb.reqs[r];
      var url := q.phase.url;
      var healthy := |HealthySet(lb.history, cfg.recoveriesRequired)|;
      if url in Urls(q) && healthy > |q.tries| then
        Some(Put(lb, r, NextAttempt(cfg, q.(skips := q.skips + [Skip(url, |q.tries|, healthy)]))))
      else
        var seen := if url in lb.history then |lb.history[url]| else 0;
        Some(Put(lb, r, q.(tries := q.tries + [Try(url, healthy, seen, 0)], phase := Forwarding(url))))
    else None
  }

  /** The forward raised before any response: mark the backend down. */
  function BreakStep(lb: Lb, r: nat): Option<Lb> {
    if r < |lb.reqs| && lb.reqs[r].phase.Forwarding? && lb.reqs[r].tries != [] &&
       lb.reqs[r].phase.url in lb.history
    then
      var q := lb.reqs[r];
      var url := q.phase.url;
      var last := |q.tries| - 1;
      var failed := q.tries[last].(failedAt := |lb.history[url]| + 1);
      var marked := q.(tries := q.tries[last := failed], phase := Marked(url));
      Some(Put(lb, r, marked).(history := lb.history[url := lb.history[url] + [Fail]]))
    else None
  }

  function RecordBreakStep(cfg: Config, lb: Lb, r: nat): Option<Lb> {
    if r < |lb.reqs| && lb.reqs[r].phase.Marked? then
      var q := lb.reqs[r];
      Some(Put(lb, r, NextAttempt(cfg, q)).(stats := Record(lb.stats, q.phase.url, false, q.attempt > 0)))
    else None
  }

  function AnswerStep(lb: Lb, r: nat, status: int): Option<Lb> {
    if r < |lb.reqs| && lb.reqs[r].phase.Forwarding? then
      var q := lb.reqs[r];
      var stats := Record(lb.stats, q.phase.url, status < 500, q.attempt > 0);
      Some(Put(lb, r, q.(phase := Done(Answered(status)))).(stats := stats))
    else None
  }

  function ProbeStep(lb: Lb, url: string, pass: bool): Option<Lb> {
    if url in lb.history then
      Some(lb.(history := lb.history[url := lb.history[url] + [if pass then Pass else Fail]]))
    else None
  }

  function Step(cfg: Config, lb: Lb, a: Action): Option<Lb> {
    match a
    case Arrive(retryable) => Some(lb.(reqs := lb.reqs + [NewRequest(cfg, retryable)]))
    case Snapshot(r) => SnapshotStep(cfg, lb, r)
    case Route(r) => RouteStep(cfg, lb, r)
    case Decide(r) => DecideStep(cfg, lb, r)
    case Break(r) => BreakStep(lb, r)
    case RecordBreak(r) => RecordBreakStep(cfg, lb, r)
    case Answer(r, status) => AnswerStep(lb, r, status)
    case Probe(url, pass) => ProbeStep(lb, url, pass)
  }

  function Run(cfg: Config, lb: Lb, schedule: seq<Action>): Option<Lb>
    decreases schedule
  {
    if schedule == [] then Some(lb)
    else
      match Step(cfg, lb, schedule[0])
      case None => None
      case Some(next) => Run(cfg, next, schedule[1..])
  }

  function Initial(urls: seq<string>): Lb {
    Lb(map u | u in urls :: [], urls, Stats(0, 0, 0, 0, multiset{}), [])
  }

  // ----- the invariant -----

  /** The try was followed by `mark_unhealthy`. */
  predicate FailedTry(history: map<string, seq<Event>>, t: Try) {
    t.url in history && 1 <= t.failedAt <= |history[t.url]| && history[t.url][t.failedAt - 1] == Fail
  }

  /** ... and by the time its backend's history was `until` long, the backend had passed
      as many probes since as a recovery takes. */
  predicate RecoveredBy(cfg: Config, history: map<string, seq<Event>>, t: Try, until: nat) {
    && FailedTry(history, t)
    && t.failedAt <= until <= |history[t.url]|
    && CountPasses(history[t.url][t.failedAt..until]) >= PassesNeeded(cfg.recoveriesRequired)
  }

  /** ... by now. */
  predicate Recovered(cfg: Config, history: map<string, seq<Event>>, t: Try) {
    FailedTry(history, t) && CountPasses(history[t.url][t.failedAt..]) >= PassesNeeded(cfg.recoveriesRequired)
  }

  /** Tries known to have failed: all but one still open or answered. */
  function Settled(q: Request): nat {
    if (q.phase.Forwarding? || (q.phase.Done? && q.phase.response.Answered?)) && q.tries != [] then |q.tries| - 1
    else |q.tries|
  }

  predicate PastOk(cfg: Config, history: map<string, seq<Event>>, q: Request) {
    && (forall i :: 0 <= i < Settled(q) ==> FailedTry(history, q.tries[i]))
    && (forall i, j :: 0 <= i < j < |q.tries| && q.tries[i].url == q.tries[j].url ==>
          RecoveredBy(cfg, history, q.tries[i], q.tries[j].decidedAt) && q.tries[j].healthySeen <= j)
  }

  predicate PhaseOk(cfg: Config, history: map<string, seq<Event>>, q: Request) {
    match q.phase
    case Start => true
    case Snapped(h) => h <= history.Keys &&
      forall i :: 0 <= i < |q.tries| && q.tries[i].url in h ==> Recovered(cfg, history, q.tries[i])
    case Chosen(u) => u in history &&
      forall i :: 0 <= i < |q.tries| && q.tries[i].url == u ==> Recovered(cfg, history, q.tries[i])
    case Forwarding(u) => u in history && q.tries != [] && q.tries[|q.tries| - 1].url == u
    case Marked(u) => u in history && q.tries != [] && q.tries[|q.tries| - 1].url == u
    case Done(_) => true
  }

  /** An open or answered try has not failed, and a skip was of a backend already tried while
      more backends were healthy than had been. */
  predicate MarksOk(q: Request) {
    && (forall i :: Settled(q) <= i < |q.tries| ==> q.tries[i].failedAt == 0)
    && (forall k :: 0 <= k < |q.skips| ==> SkipOk(q, q.skips[k]))
  }

  predicate SkipOk(q: Request, s: Skip) {
    s.tried <= |q.tries| && s.healthySeen > s.tried && s.url in Urls(q)[..s.tried]
  }

  /** Every attempt was a forward or was skipped; only the first is a forward for sure. */
  predicate CountOk(cfg: Config, q: Request) {
    var made := |q.tries| + |q.skips|;
    && (!q.phase.Done? ==> q.attempt < Allowed(cfg, q.retryable))
    && (match q.phase
        case Start => made == q.attempt && (q.attempt > 0 ==> q.tries != [])
        case Snapped(_) => made == q.attempt && (q.attempt > 0 ==> q.tries != [])
        case Chosen(_) => made == q.attempt && (q.attempt > 0 ==> q.tries != [])
        case Forwarding(_) => made == q.attempt + 1 && (q.attempt > 0 <==> |q.tries| > 1) && q.tries != []
        case Marked(_) => made == q.attempt + 1 && (q.attempt > 0 <==> |q.tries| > 1) && q.tries != []
        case Done(NoBackend) => made == q.attempt < Allowed(cfg, q.retryable)
        case Done(BadGateway) => made == if Allowed(cfg, q.retryable) > 0 then Allowed(cfg, q.retryable) else 0
        case Done(Answered(_)) => made == q.attempt + 1 <= Allowed(cfg, q.retryable) && q.tries != [])
  }

  predicate RequestOk(cfg: Config, history: map<string, seq<Event>>, q: Request) {
    PastOk(cfg, history, q) && PhaseOk(cfg, history, q) && CountOk(cfg, q) && MarksOk(q)
  }

  predicate RequestsOk(cfg: Config, lb: Lb) {
    forall r :: 0 <= r < |lb.reqs| ==> RequestOk(cfg, lb.history, lb.reqs[r])
  }

  /** Forwards whose outcome is in the metrics. */
  function Forwards(q: Request): int {
    if q.phase.Forwarding? || q.phase.Marked? then |q.tries| - 1 else |q.tries|
  }

  function Unserved(q: Request): int {
    if q.phase == Done(NoBackend) then 1 else 0
  }

  function Recorded(q: Request): int {
    Forwards(q) + Unserved(q)
  }

  /** 1 if the request has forwarded at least once. */
  function Served(q: Request): int {
    if Forwards(q) >= 1 then 1 else 0
  }

  function Retries(q: Request): int {
    Forwards(q) - Served(q)
  }

  predicate Books(lb: Lb) {
    && lb.stats.total == SumBy(lb.reqs, Recorded)
    && lb.stats.retried == SumBy(lb.reqs, Retries)
    && lb.stats.total == lb.stats.successful + lb.stats.failed
    && lb.stats.total == |lb.stats.selections|
  }

  /** The tries whose outcome is in the metrics. */
  function RecordedTries(q: Request): seq<Try> {
    if (q.phase.Forwarding? || q.phase.Marked?) && q.tries != [] then q.tries[..|q.tries| - 1] else q.tries
  }

  function TriesTo(tries: seq<Try>, url: string): nat {
    if tries == [] then 0
    else TriesTo(tries[..|tries| - 1], url) + (if tries[|tries| - 1].url == url then 1 else 0)
  }

  /** What a request adds to the selection count of url: its forwards there, and under the
      name "none" its 503. */
  function Selections(q: Request, url: string): int {
    TriesTo(RecordedTries(q), url) + (if url == "none" then Unserved(q) else 0)
  }

  function SelectionsOf(url: string): Request -> int {
    q => Selections(q, url)
  }

  ghost predicate SelectionsOk(lb: Lb) {
    forall u :: lb.stats.selections[u] == SumBy(lb.reqs, SelectionsOf(u))
  }

  /** Answered, and counted as a success; answered, and counted as a failure. */
  function Succeeded(q: Request): int {
    if q.phase.Done? && q.phase.response.Answered? && q.phase.response.status < 500 then 1 else 0
  }

  function Refused(q: Request): int {
    if q.phase.Done? && q.phase.response.Answered? && q.phase.response.status >= 500 then 1 else 0
  }

  /** Forwards that broke, one of them perhaps not recorded yet. */
  function BrokenRecorded(q: Request): int {
    Settled(q) - (if q.phase.Marked? then 1 else 0)
  }

  ghost predicate OutcomesOk(lb: Lb) {
    && lb.stats.successful == SumBy(lb.reqs, Succeeded)
    && lb.stats.failed == SumBy(lb.reqs, Refused) + SumBy(lb.reqs, Unserved) + SumBy(lb.reqs, BrokenRecorded)
  }

  ghost predicate Inv(cfg: Config, lb: Lb) {
    && (forall u :: u in lb.rot ==> u in lb.history)
    && RequestsOk(cfg, lb)
    && Books(lb)
    && SelectionsOk(lb)
    && OutcomesOk(lb)
  }

  // ----- health events keep every request in order -----

  function Apply(history: map<string, seq<Event>>, url: string, e: Event): map<string, seq<Event>>
    requires url in history
  {
    history[url := history[url] + [e]]
  }

  lemma FailedStays(history: map<string, seq<Event>>, url: string, e: Event, t: Try)
    requires url in history && FailedTry(history, t)
    ensures FailedTry(Apply(history, url, e), t)
  {}

  lemma RecoveredStays(cfg: Config, history: map<string, seq<Event>>, url: string, e: Event, t: Try)
    requires url in history && Recovered(cfg, history, t)
    ensures Recovered(cfg, Apply(history, url, e), t)
  {
    if t.url == url {
      assert (history[url] + [e])[t.failedAt..] == history[url][t.failedAt..] + [e];
      CountPassesGrows(history[url][t.failedAt..], [e]);
    }
  }

  lemma RecoveredByStays(cfg: Config, history: map<string, seq<Event>>, url: string, e: Event, t: Try, until: nat)
    requires url in history && RecoveredBy(cfg, history, t, until)
    ensures RecoveredBy(cfg, Apply(history, url, e), t, until)
  {
    if t.url == url {
      assert (history[url] + [e])[t.failedAt..until] == history[url][t.failedAt..until];
    }
  }

  lemma PastStays(cfg: Config, history: map<string, seq<Event>>, url: string, e: Event, q: Request)
    requires url in history && PastOk(cfg, history, q)
    ensures PastOk(cfg, Apply(history, url, e), q)
  {
    forall i | 0 <= i < Settled(q) ensures FailedTry(Apply(history, url, e), q.tries[i]) {
      FailedStays(history, url, e, q.tries[i]);
    }
    forall i, j | 0 <= i < j < |q.tries| && q.tries[i].url == q.tries[j].url
      ensures RecoveredBy(cfg, Apply(history, url, e), q.tries[i], q.tries[j].decidedAt)
    {
      RecoveredByStays(cfg, history, url, e, q.tries[i], q.tries[j].decidedAt);
    }
  }

  lemma PhaseStays(cfg: Config, history: map<string, seq<Event>>, url: string, e: Event, q: Request)
    requires url in history && PhaseOk(cfg, history, q)
    ensures PhaseOk(cfg, Apply(history, url, e), q)
  {
    forall i | 0 <= i < |q.tries| && Recovered(cfg, history, q.tries[i])
      ensures Recovered(cfg, Apply(history, url, e), q.tries[i])
    {
      RecoveredStays(cfg, history, url, e, q.tries[i]);
    }
  }

  lemma EventKeepsRequests(cfg: Config, lb: Lb, url: string, e: Event)
    requires RequestsOk(cfg, lb) && url in lb.history
    ensures RequestsOk(cfg, lb.(history := Apply(lb.history, url, e)))
  {
    forall r | 0 <= r < |lb.reqs| ensures RequestOk(cfg, Apply(lb.history, url, e), lb.reqs[r]) {
      PastStays(cfg, lb.history, url, e, lb.reqs[r]);
      PhaseStays(cfg, lb.history, url, e, lb.reqs[r]);
    }
  }

  // ----- one request's transitions -----

  lemma NextAttemptOk(cfg: Config, history: map<string, seq<Event>>, q: Request)
    requires PastOk(cfg, history, q) && MarksOk(q) && Settled(q) == |q.tries| && q.tries != []
    requires q.attempt < Allowed(cfg, q.retryable) && |q.tries| + |q.skips| == q.attempt + 1
    ensures RequestOk(cfg, history, NextAttempt(cfg, q))
  {}

  /** What a snapshot says about the tries of a request: a healthy backend that failed
      has recovered since. */
  lemma HealthyHasRecovered(cfg: Config, history: map<string, seq<Event>>, t: Try)
    requires FailedTry(history, t) && t.url in HealthySet(history, cfg.recoveriesRequired)
    ensures Recovered(cfg, history, t)
  {
    HealthyAfterFailure(history[t.url], t.failedAt, cfg.recoveriesRequired);
    TrailingAreCounted(history[t.url], t.failedAt);
  }

  lemma SnapshotOk(cfg: Config, lb: Lb, r: nat)
    requires r < |lb.reqs| && RequestOk(cfg, lb.history, lb.reqs[r]) && SnapshotStep(cfg, lb, r).Some?
    ensures RequestOk(cfg, lb.history, SnapshotStep(cfg, lb, r).value.reqs[r])
  {
    var q := lb.reqs[r];
    var h := HealthySet(lb.history, cfg.recoveriesRequired);
    forall i | 0 <= i < |q.tries| && q.tries[i].url in h ensures Recovered(cfg, lb.history, q.tries[i]) {
      HealthyHasRecovered(cfg, lb.history, q.tries[i]);
    }
  }

  lemma SelectMembers(rot: Rotation, healthy: set<string>)
    ensures forall u :: u in Select(rot, healthy).1 ==> u in rot
    ensures Select(rot, healthy).0.Some? ==>
      Select(rot, healthy).0.value in healthy && Select(rot, healthy).0.value in rot
  {}

  lemma RouteOk(cfg: Config, lb: Lb, r: nat)
    requires r < |lb.reqs| && RequestOk(cfg, lb.history, lb.reqs[r]) && RouteStep(cfg, lb, r).Some?
    ensures RequestOk(cfg, lb.history, RouteStep(cfg, lb, r).value.reqs[r])
  {
    SelectMembers(lb.rot, lb.reqs[r].phase.healthy);
  }

  lemma TriedIffUrl(q: Request, url: string)
    ensures url in Urls(q) <==> exists i :: 0 <= i < |q.tries| && q.tries[i].url == url
  {
    if i :| 0 <= i < |q.tries| && q.tries[i].url == url { assert Urls(q)[i] == url; }
    if url in Urls(q) {
      var i :| 0 <= i < |Urls(q)| && Urls(q)[i] == url;
      assert q.tries[i].url == url;
    }
  }

  lemma RecoveredNow(cfg: Config, history: map<string, seq<Event>>, t: Try)
    requires Recovered(cfg, history, t)
    ensures RecoveredBy(cfg, history, t, |history[t.url]|)
  {
    assert history[t.url][t.failedAt..|history[t.url]|] == history[t.url][t.failedAt..];
  }

  /** More tries leave the skips in order. */
  lemma SkipsStay(q: Request, p: Request)
    requires forall k :: 0 <= k < |q.skips| ==> SkipOk(q, q.skips[k])
    requires p.skips == q.skips && Urls(q) <= Urls(p)
    ensures forall k :: 0 <= k < |p.skips| ==> SkipOk(p, p.skips[k])
  {
    forall k | 0 <= k < |p.skips| ensures SkipOk(p, p.skips[k]) {
      assert SkipOk(q, q.skips[k]);
      assert Urls(p)[..q.skips[k].tried] == Urls(q)[..q.skips[k].tried];
    }
  }

  lemma SkipNoted(cfg: Config, history: map<string, seq<Event>>, q: Request, k: Skip)
    requires PastOk(cfg, history, q) && MarksOk(q)
    requires k.tried == |q.tries| && k.healthySeen > k.tried && k.url in Urls(q)
    ensures var p := q.(skips := q.skips + [k]); PastOk(cfg, history, p) && MarksOk(p)
  {
    var p := q.(skips := q.skips + [k]);
    assert Urls(p) == Urls(q) && Urls(q)[..k.tried] == Urls(q);
    forall i | 0 <= i < |p.skips| ensures SkipOk(p, p.skips[i]) {
      if i < |q.skips| { assert SkipOk(q, q.skips[i]); }
    }
  }

  lemma AdmittedPast(cfg: Config, lb: Lb, q: Request, p: Request)
    requires PastOk(cfg, lb.history, q) && q.phase.Chosen? && PhaseOk(cfg, lb.history, q)
    requires |p.tries| == |q.tries| + 1 && p.tries[..|q.tries|] == q.tries && p.phase == Forwarding(q.phase.url)
    requires var t := p.tries[|q.tries|];
      t.url == q.phase.url && t.decidedAt == |lb.history[t.url]|
      && (q.phase.url in Urls(q) ==> t.healthySeen <= |q.tries|)
    ensures PastOk(cfg, lb.history, p)
  {
    forall i | 0 <= i < |q.tries| ensures p.tries[i] == q.tries[i] { assert p.tries[i] == p.tries[..|q.tries|][i]; }
    TriedIffUrl(q, q.phase.url);
    forall i, j | 0 <= i < j < |p.tries| && p.tries[i].url == p.tries[j].url
      ensures RecoveredBy(cfg, lb.history, p.tries[i], p.tries[j].decidedAt) && p.tries[j].healthySeen <= j
    {
      if j == |q.tries| {
        assert q.tries[i].url == q.phase.url && Recovered(cfg, lb.history, q.tries[i]);
        RecoveredNow(cfg, lb.history, q.tries[i]);
      }
    }
  }

  lemma AdmittedMarks(q: Request, t: Try)
    requires MarksOk(q) && q.phase.Chosen? && t.failedAt == 0
    ensures MarksOk(q.(tries := q.tries + [t], phase := Forwarding(q.phase.url)))
  {
    hide SkipOk;
    var p := q.(tries := q.tries + [t], phase := Forwarding(q.phase.url));
    assert Urls(p)[..|q.tries|] == Urls(q);
    SkipsStay(q, p);
  }

  lemma AdmittedOk(cfg: Config, lb: Lb, q: Request, t: Try)
    requires RequestOk(cfg, lb.history, q) && q.phase.Chosen?
    requires t.url == q.phase.url && t.decidedAt == |lb.history[t.url]| && t.failedAt == 0
    requires q.phase.url in Urls(q) ==> t.healthySeen <= |q.tries|
    ensures RequestOk(cfg, lb.history, q.(tries := q.tries + [t], phase := Forwarding(q.phase.url)))
  {
    hide PastOk, MarksOk, Urls, Recovered;
    AdmittedPast(cfg, lb, q, q.(tries := q.tries + [t], phase := Forwarding(q.phase.url)));
    AdmittedMarks(q, t);
  }

  lemma SkippedOk(cfg: Config, history: map<string, seq<Event>>, q: Request, k: Skip)
    requires RequestOk(cfg, history, q) && q.phase.Chosen?
    requires k.tried == |q.tries| && k.healthySeen > k.tried && k.url in Urls(q)
    ensures RequestOk(cfg, history, NextAttempt(cfg, q.(skips := q.skips + [k])))
  {
    hide PastOk, SkipOk;
    SkipNoted(cfg, history, q, k);
    NextAttemptOk(cfg, history, q.(skips := q.skips + [k]));
  }

  lemma DecideOk(cfg: Config, lb: Lb, r: nat)
    requires r < |lb.reqs| && RequestOk(cfg, lb.history, lb.reqs[r]) && DecideStep(cfg, lb, r).Some?
    ensures RequestOk(cfg, lb.history, DecideStep(cfg, lb, r).value.reqs[r])
  {
    hide PastOk, CountOk, MarksOk, NextAttempt, HealthySet, Urls;
    var q := lb.reqs[r];
    var url := q.phase.url;
    var healthy := |HealthySet(lb.history, cfg.recoveriesRequired)|;
    if url in Urls(q) && healthy > |q.tries| {
      SkippedOk(cfg, lb.history, q, Skip(url, |q.tries|, healthy));
    } else {
      AdmittedOk(cfg, lb, q, Try(url, healthy, |lb.history[url]|, 0));
    }
  }

  lemma MarkOk(cfg: Config, history: map<string, seq<Event>>, q: Request, p: Request)
    requires RequestOk(cfg, history, q) && q.phase.Forwarding?
    requires q.phase.url in history
    requires var last := |q.tries| - 1;
      var failed := q.tries[last].(failedAt := |history[q.phase.url]| + 1);
      p == q.(tries := q.tries[last := failed], phase := Marked(q.phase.url))
    ensures RequestOk(cfg, Apply(history, q.phase.url, Fail), p)
  {
    var after := Apply(history, q.phase.url, Fail);
    assert Urls(p) == Urls(q);
    SkipsStay(q, p);
    PastStays(cfg, history, q.phase.url, Fail, q);
    forall i | 0 <= i < |p.tries| ensures FailedTry(after, p.tries[i]) {
      if i < |q.tries| - 1 { assert p.tries[i] == q.tries[i]; }
    }
    forall i, j | 0 <= i < j < |p.tries| && p.tries[i].url == p.tries[j].url
      ensures RecoveredBy(cfg, after, p.tries[i], p.tries[j].decidedAt) && p.tries[j].healthySeen <= j
    {
      assert q.tries[i].url == q.tries[j].url;
      assert p.tries[i] == q.tries[i] && p.tries[j].decidedAt == q.tries[j].decidedAt;
    }
  }

  lemma BreakKeepsUrls(lb: Lb, r: nat)
    requires BreakStep(lb, r).Some?
    ensures var q, next := lb.reqs[r], BreakStep(lb, r).value;
      && next == lb.(reqs := next.reqs, history := Apply(lb.history, q.phase.url, Fail))
      && |next.reqs| == |lb.reqs| && next.reqs == lb.reqs[r := next.reqs[r]]
      && next.reqs[r] == q.(phase := Marked(q.phase.url), tries := next.reqs[r].tries)
      && Urls(next.reqs[r]) == Urls(q)
  {
    var q, p := lb.reqs[r], BreakStep(lb, r).value.reqs[r];
    forall i | 0 <= i < |q.tries| ensures Urls(p)[i] == Urls(q)[i] {}
  }

  // ----- every step keeps the requests -----

  lemma PutKeepsRequests(cfg: Config, lb: Lb, r: nat, q: Request)
    requires RequestsOk(cfg, lb) && r < |lb.reqs| && RequestOk(cfg, lb.history, q)
    ensures RequestsOk(cfg, Put(lb, r, q))
  {}

  lemma BreakKeepsRequests(cfg: Config, lb: Lb, r: nat)
    requires RequestsOk(cfg, lb) && BreakStep(lb, r).Some?
    ensures RequestsOk(cfg, BreakStep(lb, r).value)
  {
    var q := lb.reqs[r];
    var next := BreakStep(lb, r).value;
    assert RequestOk(cfg, lb.history, q);
    MarkOk(cfg, lb.history, q, next.reqs[r]);
    EventKeepsRequests(cfg, lb, q.phase.url, Fail);
    forall s | 0 <= s < |next.reqs| ensures RequestOk(cfg, next.history, next.reqs[s]) {
      if s != r { assert next.reqs[s] == lb.(history := Apply(lb.history, q.phase.url, Fail)).reqs[s]; }
    }
  }

  lemma ArriveKeepsRequests(cfg: Config, lb: Lb, retryable: bool)
    requires RequestsOk(cfg, lb)
    ensures RequestsOk(cfg, lb.(reqs := lb.reqs + [NewRequest(cfg, retryable)]))
  {
    assert RequestOk(cfg, lb.history, NewRequest(cfg, retryable));
  }

  lemma RecordBreakOk(cfg: Config, lb: Lb, r: nat)
    requires r < |lb.reqs| && RequestOk(cfg, lb.history, lb.reqs[r]) && RecordBreakStep(cfg, lb, r).Some?
    ensures RequestOk(cfg, lb.history, RecordBreakStep(cfg, lb, r).value.reqs[r])
  {
    NextAttemptOk(cfg, lb.history, lb.reqs[r]);
  }

  lemma AnswerOk(cfg: Config, lb: Lb, r: nat, status: int)
    requires r < |lb.reqs| && RequestOk(cfg, lb.history, lb.reqs[r]) && AnswerStep(lb, r, status).Some?
    ensures RequestOk(cfg, lb.history, AnswerStep(lb, r, status).value.reqs[r])
  {}

  lemma StepKeepsRequests(cfg: Config, lb: Lb, a: Action)
    requires RequestsOk(cfg, lb) && Step(cfg, lb, a).Some?
    ensures RequestsOk(cfg, Step(cfg, lb, a).value)
  {
    var next := Step(cfg, lb, a).value;
    match a
    case Arrive(retryable) => ArriveKeepsRequests(cfg, lb, retryable);
    case Snapshot(r) => SnapshotOk(cfg, lb, r); PutKeepsRequests(cfg, lb, r, next.reqs[r]);
    case Route(r) => RouteOk(cfg, lb, r); PutKeepsRequests(cfg, lb, r, next.reqs[r]);
    case Decide(r) => DecideOk(cfg, lb, r); PutKeepsRequests(cfg, lb, r, next.reqs[r]);
    case Break(r) => BreakKeepsRequests(cfg, lb, r);
    case RecordBreak(r) => RecordBreakOk(cfg, lb, r); PutKeepsRequests(cfg, lb, r, next.reqs[r]);
    case Answer(r, status) => AnswerOk(cfg, lb, r, status); PutKeepsRequests(cfg, lb, r, next.reqs[r]);
    case Probe(url, pass) => EventKeepsRequests(cfg, lb, url, if pass then Pass else Fail);
  }

  // ----- every step keeps the books -----

  /** A step is local to its request. */
  lemma OneRequestMoves(cfg: Config, lb: Lb, a: Action)
    requires !a.Arrive? && !a.Probe? && Step(cfg, lb, a).Some?
    ensures var next := Step(cfg, lb, a).value;
      a.r < |next.reqs| == |lb.reqs| && next.reqs == lb.reqs[a.r := next.reqs[a.r]]
  {}

  lemma RequestMovesTotals(cfg: Config, lb: Lb, a: Action)
    requires !a.Arrive? && !a.Probe? && Step(cfg, lb, a).Some?
    requires CountOk(cfg, lb.reqs[a.r])
    ensures var next := Step(cfg, lb, a).value;
      && a.r < |next.reqs|
      && next.stats.total == lb.stats.total + Recorded(next.reqs[a.r]) - Recorded(lb.reqs[a.r])
      && (lb.stats.total == lb.stats.successful + lb.stats.failed ==>
        next.stats.total == next.stats.successful + next.stats.failed)
      && (lb.stats.total == |lb.stats.selections| ==> next.stats.total == |next.stats.selections|)
  {
    hide Select, HealthySet, Urls;
  }

  lemma RequestMovesRetries(cfg: Config, lb: Lb, a: Action)
    requires !a.Arrive? && !a.Probe? && Step(cfg, lb, a).Some?
    requires CountOk(cfg, lb.reqs[a.r])
    ensures var next := Step(cfg, lb, a).value;
      && a.r < |next.reqs|
      && next.stats.retried == lb.stats.retried + Retries(next.reqs[a.r]) - Retries(lb.reqs[a.r])
  {
    hide Select, HealthySet, Urls;
  }

  /** The metrics move exactly with the request's own accounts. */
  lemma RequestMovesBooks(cfg: Config, lb: Lb, a: Action)
    requires !a.Arrive? && !a.Probe? && Step(cfg, lb, a).Some?
    requires CountOk(cfg, lb.reqs[a.r])
    ensures var next := Step(cfg, lb, a).value;
      && |next.reqs| == |lb.reqs| && next.reqs == lb.reqs[a.r := next.reqs[a.r]]
      && next.stats.total == lb.stats.total + Recorded(next.reqs[a.r]) - Recorded(lb.reqs[a.r])
      && next.stats.retried == lb.stats.retried + Retries(next.reqs[a.r]) - Retries(lb.reqs[a.r])
      && (lb.stats.total == lb.stats.successful + lb.stats.failed ==>
        next.stats.total == next.stats.successful + next.stats.failed)
      && (lb.stats.total == |lb.stats.selections| ==> next.stats.total == |next.stats.selections|)
  {
    hide Step, Recorded, Retries, CountOk;
    OneRequestMoves(cfg, lb, a);
    RequestMovesTotals(cfg, lb, a);
    RequestMovesRetries(cfg, lb, a);
  }

  lemma StepKeepsBooks(cfg: Config, lb: Lb, a: Action)
    requires RequestsOk(cfg, lb) && Books(lb) && Step(cfg, lb, a).Some?
    ensures Books(Step(cfg, lb, a).value)
  {
    if a.Arrive? {
      SumByPush(lb.reqs, NewRequest(cfg, a.retryable), Recorded);
      SumByPush(lb.reqs, NewRequest(cfg, a.retryable), Retries);
    } else if !a.Probe? {
      assert RequestOk(cfg, lb.history, lb.reqs[a.r]);
      RequestMovesBooks(cfg, lb, a);
      RequestStepKeepsBooks(lb, Step(cfg, lb, a).value, a.r);
    }
  }

  lemma RequestStepKeepsBooks(lb: Lb, next: Lb, r: nat)
    requires Books(lb) && r < |lb.reqs| == |next.reqs| && next.reqs == lb.reqs[r := next.reqs[r]]
    requires next.stats.total == lb.stats.total + Recorded(next.reqs[r]) - Recorded(lb.reqs[r])
    requires next.stats.retried == lb.stats.retried + Retries(next.reqs[r]) - Retries(lb.reqs[r])
    requires next.stats.total == next.stats.successful + next.stats.failed
    requires next.stats.total == |next.stats.selections|
    ensures Books(next)
  {
    SumByUpdate(lb.reqs, r, next.reqs[r], Recorded);
    SumByUpdate(lb.reqs, r, next.reqs[r], Retries);
  }

  // ----- every step keeps the selection counts -----

  lemma TriesToPush(tries: seq<Try>, t: Try, url: string)
    ensures TriesTo(tries + [t], url) == TriesTo(tries, url) + (if t.url == url then 1 else 0)
  {
    assert (tries + [t])[..|tries|] == tries;
  }

  /** A forward's outcome goes on record. */
  lemma LastRecorded(q: Request, url: string)
    requires q.phase.Forwarding? || q.phase.Marked?
    requires q.tries != [] && q.tries[|q.tries| - 1].url == q.phase.url
    ensures TriesTo(q.tries, url) == TriesTo(RecordedTries(q), url) + (if q.phase.url == url then 1 else 0)
  {
    assert q.tries == RecordedTries(q) + [q.tries[|q.tries| - 1]];
    TriesToPush(RecordedTries(q), q.tries[|q.tries| - 1], url);
  }

  lemma RouteSelects(cfg: Config, lb: Lb, r: nat, url: string)
    requires RouteStep(cfg, lb, r).Some?
    ensures var next := RouteStep(cfg, lb, r).value;
      next.stats.selections[url]
        == lb.stats.selections[url] + Selections(next.reqs[r], url) - Selections(lb.reqs[r], url)
  {}

  lemma DecideSelects(cfg: Config, lb: Lb, r: nat, url: string)
    requires DecideStep(cfg, lb, r).Some?
    ensures var next := DecideStep(cfg, lb, r).value;
      && next.stats == lb.stats
      && Selections(next.reqs[r], url) == Selections(lb.reqs[r], url)
  {
    var q, p := lb.reqs[r], DecideStep(cfg, lb, r).value.reqs[r];
    assert RecordedTries(p) == RecordedTries(q);
  }

  lemma BreakSelects(lb: Lb, r: nat, url: string)
    requires BreakStep(lb, r).Some?
    ensures var next := BreakStep(lb, r).value;
      && next.stats == lb.stats
      && Selections(next.reqs[r], url) == Selections(lb.reqs[r], url)
  {
    var q, p := lb.reqs[r], BreakStep(lb, r).value.reqs[r];
    assert RecordedTries(p) == RecordedTries(q);
  }

  lemma RecordBreakSelects(cfg: Config, lb: Lb, r: nat, url: string)
    requires RecordBreakStep(cfg, lb, r).Some?
    requires lb.reqs[r].tries != [] && lb.reqs[r].tries[|lb.reqs[r].tries| - 1].url == lb.reqs[r].phase.url
    ensures var next := RecordBreakStep(cfg, lb, r).value;
      next.stats.selections[url]
        == lb.stats.selections[url] + Selections(next.reqs[r], url) - Selections(lb.reqs[r], url)
  {
    LastRecorded(lb.reqs[r], url);
  }

  lemma AnswerSelects(lb: Lb, r: nat, status: int, url: string)
    requires AnswerStep(lb, r, status).Some?
    requires lb.reqs[r].tries != [] && lb.reqs[r].tries[|lb.reqs[r].tries| - 1].url == lb.reqs[r].phase.url
    ensures var next := AnswerStep(lb, r, status).value;
      next.stats.selections[url]
        == lb.stats.selections[url] + Selections(next.reqs[r], url) - Selections(lb.reqs[r], url)
  {
    LastRecorded(lb.reqs[r], url);
  }

  /** The count of one name moves exactly with the request's own forwards. */
  lemma RequestMovesSelections(cfg: Config, lb: Lb, a: Action, url: string)
    requires !a.Arrive? && !a.Probe? && Step(cfg, lb, a).Some?
    requires PhaseOk(cfg, lb.history, lb.reqs[a.r])
    ensures var next := Step(cfg, lb, a).value;
      && a.r < |next.reqs|
      && next.stats.selections[url]
        == lb.stats.selections[url] + Selections(next.reqs[a.r], url) - Selections(lb.reqs[a.r], url)
  {
    match a
    case Snapshot(r) =>
    case Route(r) => RouteSelects(cfg, lb, r, url);
    case Decide(r) => DecideSelects(cfg, lb, r, url);
    case Break(r) => BreakSelects(lb, r, url);
    case RecordBreak(r) => RecordBreakSelects(cfg, lb, r, url);
    case Answer(r, status) => AnswerSelects(lb, r, status, url);
  }

  lemma ArriveKeepsSelections(cfg: Config, lb: Lb, retryable: bool)
    requires SelectionsOk(lb)
    ensures SelectionsOk(Step(cfg, lb, Arrive(retryable)).value)
  {
    var next := Step(cfg, lb, Arrive(retryable)).value;
    hide SumBy, Step;
    forall u ensures next.stats.selections[u] == SumBy(next.reqs, SelectionsOf(u)) {
      SumByPush(lb.reqs, NewRequest(cfg, retryable), SelectionsOf(u));
    }
  }

  lemma MoveKeepsSelections(cfg: Config, lb: Lb, a: Action)
    requires RequestsOk(cfg, lb) && SelectionsOk(lb) && Step(cfg, lb, a).Some?
    requires !a.Arrive? && !a.Probe? && a.r < |lb.reqs|
    ensures SelectionsOk(Step(cfg, lb, a).value)
  {
    hide Step, SumBy, Selections, PastOk, PhaseOk, CountOk, MarksOk;
    var next := Step(cfg, lb, a).value;
    OneRequestMoves(cfg, lb, a);
    assert RequestOk(cfg, lb.history, lb.reqs[a.r]);
    forall u ensures next.stats.selections[u] == SumBy(next.reqs, SelectionsOf(u)) {
      RequestMovesSelections(cfg, lb, a, u);
      SumByUpdate(lb.reqs, a.r, next.reqs[a.r], SelectionsOf(u));
    }
  }

  lemma StepKeepsSelections(cfg: Config, lb: Lb, a: Action)
    requires RequestsOk(cfg, lb) && SelectionsOk(lb) && Step(cfg, lb, a).Some?
    ensures SelectionsOk(Step(cfg, lb, a).value)
  {
    if a.Arrive? {
      ArriveKeepsSelections(cfg, lb, a.retryable);
    } else if a.Probe? {
      assert Step(cfg, lb, a).value.stats == lb.stats;
    } else {
      MoveKeepsSelections(cfg, lb, a);
    }
  }

  // ----- every step keeps the outcome counts -----

  function Failures(q: Request): int {
    Refused(q) + Unserved(q) + BrokenRecorded(q)
  }

  lemma RequestMovesOutcomes(cfg: Config, lb: Lb, a: Action)
    requires !a.Arrive? && !a.Probe? && Step(cfg, lb, a).Some? && CountOk(cfg, lb.reqs[a.r])
    ensures var next := Step(cfg, lb, a).value;
      && a.r < |next.reqs|
      && next.stats.successful == lb.stats.successful + Succeeded(next.reqs[a.r]) - Succeeded(lb.reqs[a.r])
      && next.stats.failed == lb.stats.failed + Failures(next.reqs[a.r]) - Failures(lb.reqs[a.r])
  {
    hide Select, HealthySet, Urls;
  }

  lemma OutcomesMove(lb: Lb, next: Lb, r: nat)
    requires OutcomesOk(lb) && r < |lb.reqs| == |next.reqs| && next.reqs == lb.reqs[r := next.reqs[r]]
    requires next.stats.successful == lb.stats.successful + Succeeded(next.reqs[r]) - Succeeded(lb.reqs[r])
    requires next.stats.failed == lb.stats.failed + Failures(next.reqs[r]) - Failures(lb.reqs[r])
    ensures OutcomesOk(next)
  {
    SumByUpdate(lb.reqs, r, next.reqs[r], Succeeded);
    SumByUpdate(lb.reqs, r, next.reqs[r], Refused);
    SumByUpdate(lb.reqs, r, next.reqs[r], Unserved);
    SumByUpdate(lb.reqs, r, next.reqs[r], BrokenRecorded);
  }

  lemma NewRequestCounts(cfg: Config, lb: Lb, retryable: bool)
    requires OutcomesOk(lb)
    ensures OutcomesOk(lb.(reqs := lb.reqs + [NewRequest(cfg, retryable)]))
  {
    var q := NewRequest(cfg, retryable);
    SumByPush(lb.reqs, q, Succeeded);
    SumByPush(lb.reqs, q, Refused);
    SumByPush(lb.reqs, q, Unserved);
    SumByPush(lb.reqs, q, BrokenRecorded);
  }

  lemma StepKeepsOutcomes(cfg: Config, lb: Lb, a: Action)
    requires RequestsOk(cfg, lb) && OutcomesOk(lb) && Step(cfg, lb, a).Some?
    ensures OutcomesOk(Step(cfg, lb, a).value)
  {
    if a.Arrive? {
      NewRequestCounts(cfg, lb, a.retryable);
    } else if !a.Probe? {
      OneRequestMoves(cfg, lb, a);
      assert RequestOk(cfg, lb.history, lb.reqs[a.r]);
      RequestMovesOutcomes(cfg, lb, a);
      OutcomesMove(lb, Step(cfg, lb, a).value, a.r);
    }
  }

  lemma StepKeepsRotation(cfg: Config, lb: Lb, a: Action)
    requires (forall u :: u in lb.rot ==> u in lb.history) && Step(cfg, lb, a).Some?
    ensures var next := Step(cfg, lb, a).value; forall u :: u in next.rot ==> u in next.history
  {
    if a.Route? { SelectMembers(lb.rot, lb.reqs[a.r].phase.healthy); }
  }

  lemma StepKeepsInv(cfg: Config, lb: Lb, a: Action)
    requires Inv(cfg, lb) && Step(cfg, lb, a).Some?
    ensures Inv(cfg, Step(cfg, lb, a).value)
  {
    StepKeepsRotation(cfg, lb, a);
    StepKeepsRequests(cfg, lb, a);
    StepKeepsBooks(cfg, lb, a);
    StepKeepsSelections(cfg, lb, a);
    StepKeepsOutcomes(cfg, lb, a);
  }

  lemma {:induction false} RunKeepsInv(cfg: Config, lb: Lb, schedule: seq<Action>)
    requires Inv(cfg, lb) && Run(cfg, lb, schedule).Some?
    ensures Inv(cfg, Run(cfg, lb, schedule).value)
    decreases schedule
  {
    if schedule != [] {
      StepKeepsInv(cfg, lb, schedule[0]);
      RunKeepsInv(cfg, Step(cfg, lb, schedule[0]).value, schedule[1..]);
    }
  }

  lemma InitialInv(cfg: Config, urls: seq<string>)
    ensures Inv(cfg, Initial(urls))
  {}

  lemma {:induction false} RunAppend(cfg: Config, lb: Lb, s: seq<Action>, mid: Lb, t: seq<Action>)
    requires Run(cfg, lb, s) == Some(mid)
    ensures Run(cfg, lb, s + t) == Run(cfg, mid, t)
    decreases s
  {
    if s == [] {
      assert s + t == t;
    } else {
      assert (s + t)[1..] == s[1..] + t;
      RunAppend(cfg, Step(cfg, lb, s[0]).value, s[1..], mid, t);
    }
  }

  lemma RunPush(cfg: Config, lb: Lb, s: seq<Action>, mid: Lb, a: Action)
    requires Run(cfg, lb, s) == Some(mid)
    ensures Run(cfg, lb, s + [a]) == Step(cfg, mid, a)
  {
    RunAppend(cfg, lb, s, mid, [a]);
    assert [a][1..] == [];
  }

  // ----- what every run guarantees -----

  lemma {:induction false} SumSplits(reqs: seq<Request>)
    ensures SumBy(reqs, Recorded) == SumBy(reqs, Forwards) + SumBy(reqs, Unserved)
    ensures SumBy(reqs, Retries) == SumBy(reqs, Forwards) - SumBy(reqs, Served)
  {
    if reqs != [] { SumSplits(reqs[1..]); }
  }

  /** Forwards of the request that broke and were marked, as the tries tell. */
  function MarkedTries(tries: seq<Try>): nat {
    if tries == [] then 0
    else MarkedTries(tries[..|tries| - 1]) + (if tries[|tries| - 1].failedAt > 0 then 1 else 0)
  }

  lemma {:induction false} MarkedUpTo(tries: seq<Try>, n: nat)
    requires n <= |tries| && forall i :: 0 <= i < |tries| ==> (tries[i].failedAt > 0 <==> i < n)
    ensures MarkedTries(tries) == n
  {
    if tries != [] {
      var front := tries[..|tries| - 1];
      MarkedUpTo(front, if n < |tries| then n else n - 1);
    }
  }

  lemma BrokenIsMarked(cfg: Config, history: map<string, seq<Event>>, q: Request)
    requires RequestOk(cfg, history, q)
    ensures BrokenRecorded(q) == MarkedTries(q.tries) - (if q.phase.Marked? then 1 else 0)
  {
    forall i | 0 <= i < Settled(q) ensures q.tries[i].failedAt > 0 { assert FailedTry(history, q.tries[i]); }
    MarkedUpTo(q.tries, Settled(q));
  }

  /** `total_requests` counts forwards plus 503s, not client requests; it equals successes
      plus failures and the sum of the selection counts, and each name's selection count is
      the number of recorded forwards to it ("none" counts the 503s); `retried_requests` is
      the forwards less the client requests that forwarded at all. */
  lemma MetricsAccounting(cfg: Config, urls: seq<string>, schedule: seq<Action>)
    requires Run(cfg, Initial(urls), schedule).Some?
    ensures var lb := Run(cfg, Initial(urls), schedule).value;
      && lb.stats.total == SumBy(lb.reqs, Forwards) + SumBy(lb.reqs, Unserved)
      && lb.stats.total == lb.stats.successful + lb.stats.failed == |lb.stats.selections|
      && (forall u :: lb.stats.selections[u] == SumBy(lb.reqs, SelectionsOf(u)))
      && lb.stats.retried == SumBy(lb.reqs, Forwards) - SumBy(lb.reqs, Served)
  {
    InitialInv(cfg, urls);
    RunKeepsInv(cfg, Initial(urls), schedule);
    SumSplits(Run(cfg, Initial(urls), schedule).value.reqs);
  }

  /** A success is a request answered below 500. A failure is a request answered from 500 on,
      a request turned away with 503, or a forward that broke, once it is recorded. */
  lemma OutcomesCounted(cfg: Config, urls: seq<string>, schedule: seq<Action>)
    requires Run(cfg, Initial(urls), schedule).Some?
    ensures var lb := Run(cfg, Initial(urls), schedule).value;
      && lb.stats.successful == SumBy(lb.reqs, (q: Request) =>
           if q.phase.Done? && q.phase.response.Answered? && q.phase.response.status < 500 then 1 else 0)
      && lb.stats.failed
        == SumBy(lb.reqs, (q: Request) =>
             if q.phase.Done? && q.phase.response.Answered? && q.phase.response.status >= 500 then 1 else 0)
           + SumBy(lb.reqs, (q: Request) => if q.phase == Done(NoBackend) then 1 else 0)
           + SumBy(lb.reqs, (q: Request) => MarkedTries(q.tries) - (if q.phase.Marked? then 1 else 0))
  {
    InitialInv(cfg, urls);
    RunKeepsInv(cfg, Initial(urls), schedule);
    var lb := Run(cfg, Initial(urls), schedule).value;
    forall r | 0 <= r < |lb.reqs|
      ensures BrokenRecorded(lb.reqs[r])
        == MarkedTries(lb.reqs[r].tries) - (if lb.reqs[r].phase.Marked? then 1 else 0)
    {
      assert RequestOk(cfg, lb.history, lb.reqs[r]);
      BrokenIsMarked(cfg, lb.history, lb.reqs[r]);
    }
    SumSame(lb.reqs, lb.reqs, Succeeded, (q: Request) =>
      if q.phase.Done? && q.phase.response.Answered? && q.phase.response.status < 500 then 1 else 0);
    SumSame(lb.reqs, lb.reqs, Refused, (q: Request) =>
      if q.phase.Done? && q.phase.response.Answered? && q.phase.response.status >= 500 then 1 else 0);
    SumSame(lb.reqs, lb.reqs, Unserved, (q: Request) => if q.phase == Done(NoBackend) then 1 else 0);
    SumSame(lb.reqs, lb.reqs, BrokenRecorded, (q: Request) =>
      MarkedTries(q.tries) - (if q.phase.Marked? then 1 else 0));
  }

  /** A request forwards at most 1 + MAX_RETRIES times, and only once if it is not safe
      to retry. A backend it has already tried is tried again only if at least
      max(2, recoveries_required) passes were applied to it after it failed and before the
      new try was decided, and no more backends were healthy than the request had tried. */
  lemma ReforwardSafety(cfg: Config, urls: seq<string>, schedule: seq<Action>, r: nat)
    requires Run(cfg, Initial(urls), schedule).Some?
    requires r < |Run(cfg, Initial(urls), schedule).value.reqs|
    ensures var lb := Run(cfg, Initial(urls), schedule).value;
      var q := lb.reqs[r];
      && (q.tries == [] || |q.tries| <= 1 + (if q.retryable then cfg.maxRetries else 0))
      && forall i, j :: 0 <= i < j < |q.tries| && q.tries[i].url == q.tries[j].url ==>
           && q.tries[j].healthySeen <= j
           && RecoveredBy(cfg, lb.history, q.tries[i], q.tries[j].decidedAt)
  {
    InitialInv(cfg, urls);
    RunKeepsInv(cfg, Initial(urls), schedule);
    var lb := Run(cfg, Initial(urls), schedule).value;
    assert RequestOk(cfg, lb.history, lb.reqs[r]);
  }

  /** No attempt is wasted: a request has spent every attempt on a forward or on a backend it
      had already tried while more backends were healthy than it had tried. It is answered
      502 only when all attempts are spent and every forward broke, 503 only before. */
  lemma AttemptsAccounted(cfg: Config, urls: seq<string>, schedule: seq<Action>, r: nat)
    requires Run(cfg, Initial(urls), schedule).Some?
    requires r < |Run(cfg, Initial(urls), schedule).value.reqs|
    ensures var lb := Run(cfg, Initial(urls), schedule).value;
      var q := lb.reqs[r];
      var allowed := 1 + (if q.retryable then cfg.maxRetries else 0);
      && (forall k :: 0 <= k < |q.skips| ==>
            && q.skips[k].tried <= |q.tries| && q.skips[k].healthySeen > q.skips[k].tried
            && exists i :: 0 <= i < q.skips[k].tried && q.tries[i].url == q.skips[k].url)
      && (q.phase == Done(BadGateway) ==>
            && |q.tries| + |q.skips| == (if allowed > 0 then allowed else 0)
            && forall i :: 0 <= i < |q.tries| ==> q.tries[i].failedAt > 0)
      && (q.phase == Done(NoBackend) ==> |q.tries| + |q.skips| < allowed)
      && (q.phase.Done? && q.phase.response.Answered? ==>
            && q.tries != [] && |q.tries| + |q.skips| <= allowed
            && forall i :: 0 <= i < |q.tries| ==> (q.tries[i].failedAt > 0 <==> i < |q.tries| - 1))
  {
    InitialInv(cfg, urls);
    RunKeepsInv(cfg, Initial(urls), schedule);
    var lb := Run(cfg, Initial(urls), schedule).value;
    var q := lb.reqs[r];
    assert RequestOk(cfg, lb.history, q);
    forall i | 0 <= i < Settled(q) ensures q.tries[i].failedAt > 0 { assert FailedTry(lb.history, q.tries[i]); }
    forall k | 0 <= k < |q.skips|
      ensures exists i :: 0 <= i < q.skips[k].tried && q.tries[i].url == q.skips[k].url
    {
      assert SkipOk(q, q.skips[k]);
      var i :| 0 <= i < q.skips[k].tried && Urls(q)[..q.skips[k].tried][i] == q.skips[k].url;
      assert q.tries[i].url == q.skips[k].url;
    }
  }

  // ----- requests that see no recovery -----

  /** The passing probes of url in the schedule. */
  function Passes(schedule: seq<Action>, url: string): nat
    decreases schedule
  {
    if schedule == [] then 0
    else (if schedule[0] == Probe(url, true) then 1 else 0) + Passes(schedule[1..], url)
  }

  /** Since `origin`, the history of url has grown, by n passes. */
  predicate GrewBy(origin: map<string, seq<Event>>, history: map<string, seq<Event>>, url: string, n: nat) {
    && url in origin && url in history
    && origin[url] <= history[url]
    && CountPasses(history[url][|origin[url]|..]) == n
  }

  lemma StepGrows(cfg: Config, origin: map<string, seq<Event>>, lb: Lb, a: Action, url: string, n: nat)
    requires GrewBy(origin, lb.history, url, n) && Step(cfg, lb, a).Some?
    ensures GrewBy(origin, Step(cfg, lb, a).value.history, url, n + (if a == Probe(url, true) then 1 else 0))
  {
    var h, g := lb.history[url], Step(cfg, lb, a).value.history[url];
    var k := |origin[url]|;
    if g != h {
      assert |g| == |h| + 1 && g[..|h|] == h;
      assert g[k..][..|g| - k - 1] == h[k..];
    }
  }

  /** Along a run a history grows by the schedule's passes and some failures. */
  lemma {:induction false} RunGrows(cfg: Config, origin: map<string, seq<Event>>, lb: Lb, schedule: seq<Action>,
                                    url: string, n: nat)
    requires GrewBy(origin, lb.history, url, n) && Run(cfg, lb, schedule).Some?
    ensures GrewBy(origin, Run(cfg, lb, schedule).value.history, url, n + Passes(schedule, url))
    decreases schedule
  {
    if schedule != [] {
      StepGrows(cfg, origin, lb, schedule[0], url, n);
      RunGrows(cfg, origin, Step(cfg, lb, schedule[0]).value, schedule[1..], url,
        n + (if schedule[0] == Probe(url, true) then 1 else 0));
    }
  }

  /** The failing probes of url in the schedule. */
  function FailedProbes(schedule: seq<Action>, url: string): nat
    decreases schedule
  {
    if schedule == [] then 0
    else (if schedule[0] == Probe(url, false) then 1 else 0) + FailedProbes(schedule[1..], url)
  }

  /** Forwards to url that were marked. */
  function MarkedAt(tries: seq<Try>, url: string): nat {
    if tries == [] then 0
    else
      var last := tries[|tries| - 1];
      MarkedAt(tries[..|tries| - 1], url) + (if last.url == url && last.failedAt > 0 then 1 else 0)
  }

  function BrokenAt(url: string): Request -> int {
    (q: Request) => MarkedAt(q.tries, url)
  }

  lemma MarkedAtPush(tries: seq<Try>, t: Try, url: string)
    ensures MarkedAt(tries + [t], url) == MarkedAt(tries, url) + (if t.url == url && t.failedAt > 0 then 1 else 0)
  {
    assert (tries + [t])[..|tries|] == tries;
  }

  /** The length of a history moves with the marks of the request that takes the step. */
  lemma BreakMarks(lb: Lb, r: nat, url: string)
    requires BreakStep(lb, r).Some? && url in lb.history
    requires lb.reqs[r].tries[|lb.reqs[r].tries| - 1].failedAt == 0
    requires lb.reqs[r].tries[|lb.reqs[r].tries| - 1].url == lb.reqs[r].phase.url
    ensures var next := BreakStep(lb, r).value;
      && url in next.history
      && |next.history[url]| - |lb.history[url]|
        == MarkedAt(next.reqs[r].tries, url) - MarkedAt(lb.reqs[r].tries, url)
  {
    var tries, next := lb.reqs[r].tries, BreakStep(lb, r).value.reqs[r].tries;
    var front := tries[..|tries| - 1];
    assert tries == front + [tries[|tries| - 1]] && next == front + [next[|tries| - 1]];
    MarkedAtPush(front, tries[|tries| - 1], url);
    MarkedAtPush(front, next[|tries| - 1], url);
  }

  lemma DecideMarks(cfg: Config, lb: Lb, r: nat, url: string)
    requires DecideStep(cfg, lb, r).Some?
    ensures var next := DecideStep(cfg, lb, r).value;
      next.history == lb.history && MarkedAt(next.reqs[r].tries, url) == MarkedAt(lb.reqs[r].tries, url)
  {
    var tries, next := lb.reqs[r].tries, DecideStep(cfg, lb, r).value.reqs[r].tries;
    if next != tries { MarkedAtPush(tries, next[|tries|], url); }
  }

  lemma RequestMarks(cfg: Config, lb: Lb, a: Action, url: string)
    requires !a.Arrive? && !a.Probe? && Step(cfg, lb, a).Some? && url in lb.history
    requires RequestOk(cfg, lb.history, lb.reqs[a.r])
    ensures var next := Step(cfg, lb, a).value;
      && a.r < |next.reqs| && url in next.history
      && |next.history[url]| - |lb.history[url]|
        == MarkedAt(next.reqs[a.r].tries, url) - MarkedAt(lb.reqs[a.r].tries, url)
  {
    match a
    case Decide(r) => DecideMarks(cfg, lb, r, url);
    case Break(r) => BreakMarks(lb, r, url);
    case _ =>
  }

  lemma StepMarks(cfg: Config, lb: Lb, a: Action, url: string)
    requires RequestsOk(cfg, lb) && Step(cfg, lb, a).Some? && url in lb.history
    ensures var next := Step(cfg, lb, a).value;
      && url in next.history
      && |next.history[url]| - SumBy(next.reqs, BrokenAt(url))
        == |lb.history[url]| - SumBy(lb.reqs, BrokenAt(url)) + (if a.Probe? && a.url == url then 1 else 0)
  {
    var next := Step(cfg, lb, a).value;
    if a.Arrive? {
      SumByPush(lb.reqs, NewRequest(cfg, a.retryable), BrokenAt(url));
    } else if !a.Probe? {
      OneRequestMoves(cfg, lb, a);
      assert RequestOk(cfg, lb.history, lb.reqs[a.r]);
      RequestMarks(cfg, lb, a, url);
      SumByUpdate(lb.reqs, a.r, next.reqs[a.r], BrokenAt(url));
    }
  }

  lemma {:induction false} RunMarks(cfg: Config, lb: Lb, schedule: seq<Action>, url: string)
    requires Inv(cfg, lb) && Run(cfg, lb, schedule).Some? && url in lb.history
    ensures var end := Run(cfg, lb, schedule).value;
      && url in end.history
      && |end.history[url]| - SumBy(end.reqs, BrokenAt(url))
        == |lb.history[url]| - SumBy(lb.reqs, BrokenAt(url)) + Passes(schedule, url) + FailedProbes(schedule, url)
    decreases schedule
  {
    hide Inv, Step;
    if schedule != [] {
      assert RequestsOk(cfg, lb) by { InvRequests(cfg, lb); }
      StepKeepsInv(cfg, lb, schedule[0]);
      StepMarks(cfg, lb, schedule[0], url);
      RunMarks(cfg, Step(cfg, lb, schedule[0]).value, schedule[1..], url);
    }
  }

  lemma InvRequests(cfg: Config, lb: Lb)
    requires Inv(cfg, lb)
    ensures RequestsOk(cfg, lb)
  {}

  /** Nothing but probes and broken forwards touches a backend's health: its history holds the
      passing probes, the failing probes and the forwards to it that broke, and no more. An
      answer, whatever its status, marks nobody. */
  lemma HealthAccounting(cfg: Config, urls: seq<string>, schedule: seq<Action>, url: string)
    requires Run(cfg, Initial(urls), schedule).Some? && url in urls
    ensures var lb := Run(cfg, Initial(urls), schedule).value;
      && url in lb.history
      && CountPasses(lb.history[url]) == Passes(schedule, url)
      && |lb.history[url]| == Passes(schedule, url) + FailedProbes(schedule, url) + SumBy(lb.reqs, BrokenAt(url))
  {
    var start, lb := Initial(urls), Run(cfg, Initial(urls), schedule).value;
    InitialInv(cfg, urls);
    RunMarks(cfg, start, schedule, url);
    assert start.history[url][0..] == [];
    RunGrows(cfg, start.history, start, schedule, url, 0);
    assert lb.history[url][0..] == lb.history[url];
  }

  predicate FailedLate(origin: map<string, seq<Event>>, t: Try) {
    t.url in origin ==> t.failedAt == 0 || t.failedAt > |origin[t.url]|
  }

  predicate AllLate(origin: map<string, seq<Event>>, tries: seq<Try>) {
    forall i :: 0 <= i < |tries| ==> FailedLate(origin, tries[i])
  }

  /** Requests from `first` on came after `origin`: their failures are recent. */
  predicate FailedSince(origin: map<string, seq<Event>>, lb: Lb, first: nat) {
    forall r :: first <= r < |lb.reqs| ==> AllLate(origin, lb.reqs[r].tries)
  }

  lemma NewRequestsLate(cfg: Config, origin: map<string, seq<Event>>, lb: Lb, a: Action)
    requires Step(cfg, lb, a).Some?
    ensures var next := Step(cfg, lb, a).value;
      forall r :: |lb.reqs| <= r < |next.reqs| ==> AllLate(origin, next.reqs[r].tries)
  {}

  predicate FailedNow(history: map<string, seq<Event>>, t: Try, next: Try) {
    next.url == t.url && t.url in history && next.failedAt == |history[t.url]| + 1
  }

  /** What a step may make of the tries of a request: one new, not yet failed, and the mark
      of the last one's failure. */
  predicate TriesMove(history: map<string, seq<Event>>, tries: seq<Try>, next: seq<Try>) {
    && |tries| <= |next| <= |tries| + 1
    && (|next| > |tries| ==> next[|tries|].failedAt == 0)
    && forall i :: 0 <= i < |tries| ==> next[i] == tries[i] || FailedNow(history, tries[i], next[i])
  }

  lemma LateStays(origin: map<string, seq<Event>>, history: map<string, seq<Event>>, tries: seq<Try>, next: seq<Try>)
    requires Covers(origin, history) && TriesMove(history, tries, next) && AllLate(origin, tries)
    ensures AllLate(origin, next)
  {
    forall i | 0 <= i < |next| ensures FailedLate(origin, next[i]) {
      if i < |tries| { assert FailedLate(origin, tries[i]); }
    }
  }

  lemma StepFailsLate(cfg: Config, origin: map<string, seq<Event>>, lb: Lb, a: Action, first: nat)
    requires FailedSince(origin, lb, first) && Step(cfg, lb, a).Some?
    requires Covers(origin, lb.history) && RequestsOk(cfg, lb)
    ensures FailedSince(origin, Step(cfg, lb, a).value, first)
  {
    var next := Step(cfg, lb, a).value;
    NewRequestsLate(cfg, origin, lb, a);
    hide Step, RequestOk, TriesMove, AllLate, Covers;
    forall r | first <= r < |next.reqs| ensures AllLate(origin, next.reqs[r].tries) {
      if r < |lb.reqs| {
        assert RequestOk(cfg, lb.history, lb.reqs[r]);
        TriesOfStep(cfg, lb, a, r);
        LateStays(origin, lb.history, lb.reqs[r].tries, next.reqs[r].tries);
      }
    }
  }

  lemma TriesOfStep(cfg: Config, lb: Lb, a: Action, r: nat)
    requires Step(cfg, lb, a).Some? && r < |lb.reqs| && RequestOk(cfg, lb.history, lb.reqs[r])
    ensures r < |Step(cfg, lb, a).value.reqs|
    ensures TriesMove(lb.history, lb.reqs[r].tries, Step(cfg, lb, a).value.reqs[r].tries)
  {
    hide Select, HealthySet, Urls, PastOk;
  }

  predicate Covers(origin: map<string, seq<Event>>, history: map<string, seq<Event>>) {
    forall u :: u in origin ==> u in history && |origin[u]| <= |history[u]|
  }

  lemma StepCovers(cfg: Config, origin: map<string, seq<Event>>, lb: Lb, a: Action)
    requires Covers(origin, lb.history) && Step(cfg, lb, a).Some?
    ensures Covers(origin, Step(cfg, lb, a).value.history)
  {}

  lemma {:induction false} RunFailsLate(cfg: Config, origin: map<string, seq<Event>>, lb: Lb, schedule: seq<Action>,
                                        first: nat)
    requires Inv(cfg, lb) && FailedSince(origin, lb, first) && Covers(origin, lb.history) &&
      Run(cfg, lb, schedule).Some?
    ensures FailedSince(origin, Run(cfg, lb, schedule).value, first)
    decreases schedule
  {
    if schedule != [] {
      StepKeepsInv(cfg, lb, schedule[0]);
      StepFailsLate(cfg, origin, lb, schedule[0], first);
      StepCovers(cfg, origin, lb, schedule[0]);
      RunFailsLate(cfg, origin, Step(cfg, lb, schedule[0]).value, schedule[1..], first);
    }
  }

  lemma {:induction false} CountPassesSplit(a: seq<Event>, b: seq<Event>)
    ensures CountPasses(a + b) == CountPasses(a) + CountPasses(b)
  {
    if b == [] {
      assert a + b == a;
    } else {
      var front := b[..|b| - 1];
      assert (a + b)[..|a + b| - 1] == a + front;
      CountPassesSplit(a, front);
    }
  }

  /** Passes between two points are no more than passes since an earlier one. */
  lemma PassesWithin(events: seq<Event>, lo: nat, from: nat, until: nat)
    requires lo <= from <= until <= |events|
    ensures CountPasses(events[from..until]) <= CountPasses(events[lo..])
  {
    assert events[lo..] == events[lo..from] + (events[from..until] + events[until..]);
    CountPassesSplit(events[lo..from], events[from..until] + events[until..]);
    CountPassesSplit(events[from..until], events[until..]);
  }

  /** Whatever came before it, a request during whose time no backend passes as many
      probes as a recovery takes never forwards to one backend twice. */
  lemma DistinctWithoutRecovery(cfg: Config, urls: seq<string>, before: seq<Action>, mid: Lb, after: seq<Action>,
                                r: nat)
    requires Run(cfg, Initial(urls), before) == Some(mid) && Run(cfg, mid, after).Some?
    requires |mid.reqs| <= r < |Run(cfg, mid, after).value.reqs|
    requires forall u :: u in mid.history ==> Passes(after, u) < PassesNeeded(cfg.recoveriesRequired)
    ensures var q := Run(cfg, mid, after).value.reqs[r];
      forall i, j :: 0 <= i < j < |q.tries| ==> q.tries[i].url != q.tries[j].url
  {
    RunAppend(cfg, Initial(urls), before, mid, after);
    ReforwardSafety(cfg, urls, before + after, r);
    InitialInv(cfg, urls);
    RunKeepsInv(cfg, Initial(urls), before);
    RunFailsLate(cfg, mid.history, mid, after, |mid.reqs|);
    var lb := Run(cfg, mid, after).value;
    var q := lb.reqs[r];
    forall i, j | 0 <= i < j < |q.tries| ensures q.tries[i].url != q.tries[j].url {
      if q.tries[i].url == q.tries[j].url {
        var t := q.tries[i];
        assert RecoveredBy(cfg, lb.history, t, q.tries[j].decidedAt);
        KnownUrls(cfg, mid, after);
        RecoveryTooSoon(cfg, mid, after, t, q.tries[j].decidedAt);
      }
    }
  }

  lemma {:induction false} KnownUrls(cfg: Config, lb: Lb, schedule: seq<Action>)
    requires Run(cfg, lb, schedule).Some?
    ensures Run(cfg, lb, schedule).value.history.Keys == lb.history.Keys
    decreases schedule
  {
    if schedule != [] { KnownUrls(cfg, Step(cfg, lb, schedule[0]).value, schedule[1..]); }
  }

  lemma RecoveryTooSoon(cfg: Config, mid: Lb, after: seq<Action>, t: Try, until: nat)
    requires Run(cfg, mid, after).Some? && t.url in mid.history && FailedLate(mid.history, t)
    requires Passes(after, t.url) < PassesNeeded(cfg.recoveriesRequired)
    ensures !RecoveredBy(cfg, Run(cfg, mid, after).value.history, t, until)
  {
    var origin, history := mid.history, Run(cfg, mid, after).value.history;
    var k := |origin[t.url]|;
    assert origin[t.url][k..] == [];
    RunGrows(cfg, origin, mid, after, t.url, 0);
    if t.failedAt > k && t.failedAt <= until <= |history[t.url]| {
      PassesWithin(history[t.url], k, t.failedAt, until);
    }
  }
}
