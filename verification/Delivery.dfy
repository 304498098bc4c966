/** The path of a batch from client to table: the load balancer's retries
    (load_balancer/server.py), the ingestion instances with their separate caches
    (ingestion/routes.py) and the job protocol, as one machine.

    A forward starts a handler on its backend; the handler outlives the forward, so one
    that timed out may still enqueue. A key names one client request, as
    collector/producer.py mints one per batch. */
module Delivery {
  import opened Common
  import opened Ids
  import opened Store
  import opened Processor
  import B = Balancer
  import J = Jobs
  import T = Transactions

  /** The Idempotency-Key header of a request. With an empty value the balancer retries the
      request and the endpoint takes it to carry no key. */
  datatype Header = NoHeader | EmptyHeader | KeyHeader

  /** The value of the field in a request's header fields (their names differ by more than
      case). */
  function HeaderValue(fields: seq<(string, string)>): Option<string> {
    if fields == [] then None
    else if B.SameButCase(fields[0].0, "Idempotency-Key") then Some(fields[0].1)
    else HeaderValue(fields[1..])
  }

  function HeaderOf(fields: seq<(string, string)>): Header {
    match HeaderValue(fields)
    case None => NoHeader
    case Some(value) => if value == "" then EmptyHeader else KeyHeader
  }

  function Names(fields: seq<(string, string)>): (names: seq<string>)
    ensures |names| == |fields| && forall i :: 0 <= i < |names| ==> names[i] == fields[i].0
  {
    seq(|fields|, i requires 0 <= i < |fields| => fields[i].0)
  }

  lemma {:induction false} HeaderFound(fields: seq<(string, string)>)
    ensures HeaderValue(fields).Some? <==> exists h :: h in Names(fields) && B.SameButCase(h, "Idempotency-Key")
  {
    if fields != [] {
      var rest := fields[1..];
      HeaderFound(rest);
      assert Names(fields) == [fields[0].0] + Names(rest);
    }
  }

  /** For the POST that carries a batch, the balancer's decision is whether the header is
      there, whatever its value. */
  lemma HeaderDecides(httpMethod: string, fields: seq<(string, string)>)
    requires B.SameButCase(httpMethod, "POST")
    ensures B.IsSafeToRetry(httpMethod, Names(fields)) <==> !HeaderOf(fields).NoHeader?
  {
    B.PostNeedsHeader(httpMethod, Names(fields));
    HeaderFound(fields);
  }

  datatype Stage = Arrived | Missed | Enqueued | Finished(status: int) | Lost

  /** One run of post_telemetry for request `req` on backend `url`. */
  datatype Handler = Handler(req: nat, url: string, stage: Stage, pushed: bool)

  /** `caches` holds per backend the requests whose key is cached there; `origins` the
      request each job was enqueued for. */
  datatype World = World(lb: B.Lb, clients: seq<Payload>, headers: seq<Header>, handlers: seq<Handler>,
                         caches: map<string, set<nat>>, sys: J.Sys, origins: seq<nat>)

  datatype Config = Config(lb: B.Config, maxTries: nat)

  datatype Action =
    | Submit(payload: Payload, header: Header)
    | Balance(action: B.Action)
    | Reply(r: nat, h: nat)
    | Look(h: nat)
    | Refuse(h: nat)
    | Push(h: nat)
    | Keep(h: nat)
    | Fail(h: nat)
    | Crash(h: nat)
    | Restart(url: string)
    | Work(job: J.Action)

  function Initial(urls: seq<string>, base: Table): World {
    World(B.Initial(urls), [], [], [], map u | u in urls :: {}, J.Initial(base), [])
  }

  function SetStage(w: World, h: nat, s: Stage): World
    requires h < |w.handlers|
  {
    w.(handlers := w.handlers[h := w.handlers[h].(stage := s)])
  }

  predicate At(w: World, h: nat, s: Stage) {
    h < |w.handlers| && w.handlers[h].stage == s && w.handlers[h].req < |w.clients| && w.handlers[h].req < |w.headers|
  }

  predicate Keyed(w: World, r: nat) {
    r < |w.headers| && w.headers[r].KeyHeader?
  }

  /** A step of the balancer other than a request's arrival or answer. An admitted forward
      starts a handler. */
  function BalanceStep(cfg: Config, w: World, a: B.Action): Option<World> {
    if a.Arrive? || a.Answer? || B.Step(cfg.lb, w.lb, a).None? then None
    else
      var next := B.Step(cfg.lb, w.lb, a).value;
      if a.Decide? && a.r < |next.reqs| && next.reqs[a.r].phase.Forwarding? then
        Some(w.(lb := next, handlers := w.handlers + [Handler(a.r, next.reqs[a.r].phase.url, Arrived, false)]))
      else
        Some(w.(lb := next))
  }

  /** The response of the request's latest handler reaches the balancer. */
  function ReplyStep(cfg: Config, w: World, r: nat, h: nat): Option<World> {
    if h < |w.handlers| && w.handlers[h].req == r && w.handlers[h].stage.Finished? &&
       (forall k :: h < k < |w.handlers| ==> w.handlers[k].req != r)
    then
      match B.Step(cfg.lb, w.lb, B.Answer(r, w.handlers[h].stage.status))
      case None => None
      case Some(next) => Some(w.(lb := next))
    else None
  }

  /** The cache lookup under the lock; keys only matter for keyed requests. */
  function LookStep(w: World, h: nat): Option<World> {
    if At(w, h, Arrived) && w.handlers[h].url in w.caches then
      var r := w.handlers[h].req;
      Some(SetStage(w, h, if Keyed(w, r) && r in w.caches[w.handlers[h].url] then Finished(200) else Missed))
    else None
  }

  function RefuseStep(w: World, h: nat): Option<World> {
    if At(w, h, Missed) && w.clients[w.handlers[h].req].Invalid? then Some(SetStage(w, h, Finished(422))) else None
  }

  ghost function PushStep(cfg: Config, w: World, h: nat): Option<World> {
    if At(w, h, Missed) && w.clients[w.handlers[h].req].Valid? then
      var r := w.handlers[h].req;
      Some(w.(handlers := w.handlers[h := w.handlers[h].(stage := Enqueued, pushed := true)],
              sys := J.Step(cfg.maxTries, w.sys, J.Enqueue(w.clients[r])).value,
              origins := w.origins + [r]))
    else None
  }

  function KeepStep(w: World, h: nat): Option<World> {
    if At(w, h, Enqueued) && w.handlers[h].url in w.caches then
      var r, u := w.handlers[h].req, w.handlers[h].url;
      var kept := if Keyed(w, r) then w.caches[u := w.caches[u] + {r}] else w.caches;
      Some(SetStage(w, h, Finished(200)).(caches := kept))
    else None
  }

  /** An exception in the handler: before or after the batch was enqueued. */
  function FailStep(w: World, h: nat): Option<World> {
    if At(w, h, Missed) || At(w, h, Enqueued) then Some(SetStage(w, h, Finished(500))) else None
  }

  function CrashStep(w: World, h: nat): Option<World> {
    if h < |w.handlers| then Some(SetStage(w, h, Lost)) else None
  }

  function RestartStep(w: World, url: string): Option<World> {
    if url in w.caches then Some(w.(caches := w.caches[url := {}])) else None
  }

  ghost function WorkStep(cfg: Config, w: World, a: J.Action): Option<World> {
    if a.Enqueue? || J.Step(cfg.maxTries, w.sys, a).None? then None
    else Some(w.(sys := J.Step(cfg.maxTries, w.sys, a).value))
  }

  function Submitted(cfg: Config, w: World, p: Payload, header: Header): World {
    w.(lb := B.Step(cfg.lb, w.lb, B.Arrive(!header.NoHeader?)).value, clients := w.clients + [p],
       headers := w.headers + [header])
  }

  ghost function Step(cfg: Config, w: World, a: Action): Option<World> {
    match a
    case Submit(p, header) => Some(Submitted(cfg, w, p, header))
    case Balance(b) => BalanceStep(cfg, w, b)
    case Reply(r, h) => ReplyStep(cfg, w, r, h)
    case Look(h) => LookStep(w, h)
    case Refuse(h) => RefuseStep(w, h)
    case Push(h) => PushStep(cfg, w, h)
    case Keep(h) => KeepStep(w, h)
    case Fail(h) => FailStep(w, h)
    case Crash(h) => CrashStep(w, h)
    case Restart(url) => RestartStep(w, url)
    case Work(b) => WorkStep(cfg, w, b)
  }

  ghost function Run(cfg: Config, w: World, schedule: seq<Action>): Option<World>
    decreases schedule
  {
    if schedule == [] then Some(w)
    else
      match Step(cfg, w, schedule[0])
      case None => None
      case Some(next) => Run(cfg, next, schedule[1..])
  }

  // ----- counting -----

  /** Forwards of request r, and those whose handler enqueued a job. */
  function HandlersOf(handlers: seq<Handler>, r: nat): nat {
    if handlers == [] then 0
    else HandlersOf(handlers[1..], r) + (if handlers[0].req == r then 1 else 0)
  }

  function PushersOf(handlers: seq<Handler>, r: nat): nat {
    if handlers == [] then 0
    else PushersOf(handlers[1..], r) + (if handlers[0].req == r && handlers[0].pushed then 1 else 0)
  }

  lemma {:induction false} PushersAreHandlers(handlers: seq<Handler>, r: nat)
    ensures PushersOf(handlers, r) <= HandlersOf(handlers, r)
  {
    if handlers != [] { PushersAreHandlers(handlers[1..], r); }
  }

  lemma {:induction false} CountPush(handlers: seq<Handler>, x: Handler, r: nat)
    ensures HandlersOf(handlers + [x], r) == HandlersOf(handlers, r) + (if x.req == r then 1 else 0)
    ensures PushersOf(handlers + [x], r) == PushersOf(handlers, r) + (if x.req == r && x.pushed then 1 else 0)
  {
    if handlers == [] {
      assert handlers + [x] == [x] && [x][1..] == [];
    } else {
      assert (handlers + [x])[1..] == handlers[1..] + [x];
      CountPush(handlers[1..], x, r);
    }
  }

  lemma {:induction false} CountUpdate(handlers: seq<Handler>, h: nat, x: Handler, r: nat)
    requires h < |handlers| && x.req == handlers[h].req
    ensures HandlersOf(handlers[h := x], r) == HandlersOf(handlers, r)
    ensures PushersOf(handlers[h := x], r) ==
      PushersOf(handlers, r) + (if x.req == r && x.pushed then 1 else 0) - (if x.req == r &&
        handlers[h].pushed then 1 else 0)
  {
    if h == 0 {
      assert handlers[h := x][1..] == handlers[1..];
    } else {
      assert handlers[h := x][1..] == handlers[1..][h - 1 := x];
      CountUpdate(handlers[1..], h - 1, x, r);
    }
  }

  // ----- the invariant -----

  /** Every job carries the valid payload of the request it was enqueued for. */
  predicate Tracked(w: World) {
    && |w.origins| == |w.sys.jobs|
    && forall j :: 0 <= j < |w.origins| ==>
      w.origins[j] < |w.clients| && w.sys.jobs[j].payload == w.clients[w.origins[j]] && w.sys.jobs[j].payload.Valid?
  }

  /** Jobs are enqueued by handlers, one each, with the client's payload. */
  ghost predicate JobsOk(w: World) {
    && Tracked(w)
    && (forall r: nat :: multiset(w.origins)[r] == PushersOf(w.handlers, r))
  }

  /** Every forward of a request is a handler. */
  ghost predicate ForwardsOk(w: World) {
    && |w.clients| == |w.lb.reqs|
    && forall r :: 0 <= r < |w.lb.reqs| ==> HandlersOf(w.handlers, r) == |w.lb.reqs[r].tries|
  }

  predicate IsAnswered(q: B.Request) {
    q.phase.Done? && q.phase.response.Answered?
  }

  /** What an answer says: 200 that a job exists, 422 that the body is invalid, and 500 that
      the handler failed. */
  predicate AnswerOk(w: World, r: nat, status: int) {
    && r < |w.clients|
    && (status == 200 || status == 422 || status == 500)
    && (status == 200 ==> r in w.origins)
    && (status == 422 ==> w.clients[r].Invalid?)
  }

  predicate HandlerOk(w: World, x: Handler) {
    && x.req < |w.clients|
    && (x.stage.Finished? ==> AnswerOk(w, x.req, x.stage.status))
    && (x.stage == Enqueued ==> x.req in w.origins)
    && ((x.stage == Arrived || x.stage == Missed) ==> !x.pushed)
  }

  /** A success seen anywhere, in a cache, a handler or a response, means a job exists. */
  ghost predicate SuccessOk(w: World) {
    && (forall h :: 0 <= h < |w.handlers| ==> HandlerOk(w, w.handlers[h]))
    && (forall u, r :: u in w.caches && r in w.caches[u] ==> r in w.origins)
    && (forall r :: 0 <= r < |w.lb.reqs| && IsAnswered(w.lb.reqs[r]) ==>
          AnswerOk(w, r, w.lb.reqs[r].phase.response.status))
  }

  /** The balancer retries exactly the requests that came with the header. */
  predicate HeadersOk(w: World) {
    && |w.headers| == |w.lb.reqs|
    && forall r :: 0 <= r < |w.lb.reqs| ==> (w.lb.reqs[r].retryable <==> !w.headers[r].NoHeader?)
  }

  ghost predicate Inv(cfg: Config, base: Table, w: World) {
    && B.Inv(cfg.lb, w.lb)
    && J.JInv(cfg.maxTries, base, w.sys)
    && JobsOk(w)
    && ForwardsOk(w)
    && HeadersOk(w)
    && SuccessOk(w)
  }

  lemma {:induction false} NoneOf(handlers: seq<Handler>, r: nat)
    requires forall h :: 0 <= h < |handlers| ==> handlers[h].req != r
    ensures HandlersOf(handlers, r) == 0
  {
    if handlers != [] { NoneOf(handlers[1..], r); }
  }

  // ----- steps of the balancer -----

  /** What a balancer step other than an arrival or an answer does to the requests. */
  lemma BalancerEffects(cfg: B.Config, lb: B.Lb, a: B.Action)
    requires !a.Arrive? && B.Step(cfg, lb, a).Some?
    ensures var next := B.Step(cfg, lb, a).value;
      && |next.reqs| == |lb.reqs|
      && (forall r :: 0 <= r < |lb.reqs| ==>
            && next.reqs[r].retryable == lb.reqs[r].retryable
            && |next.reqs[r].tries|
              == |lb.reqs[r].tries| + (if a == B.Decide(r) && next.reqs[r].phase.Forwarding? then 1 else 0)
            && (IsAnswered(next.reqs[r]) ==>
                  next.reqs[r].phase == lb.reqs[r].phase || a == B.Answer(r, next.reqs[r].phase.response.status)))
  {
    hide B.Urls;
  }

  lemma BalanceKeepsForwards(cfg: Config, w: World, a: B.Action)
    requires ForwardsOk(w) && BalanceStep(cfg, w, a).Some?
    ensures ForwardsOk(BalanceStep(cfg, w, a).value)
  {
    var next := BalanceStep(cfg, w, a).value;
    BalancerEffects(cfg.lb, w.lb, a);
    forall r | 0 <= r < |next.lb.reqs| ensures HandlersOf(next.handlers, r) == |next.lb.reqs[r].tries| {
      if next.handlers != w.handlers {
        CountPush(w.handlers, next.handlers[|w.handlers|], r);
      }
    }
  }

  lemma BalancerKeepsHeaders(cfg: Config, w: World, a: B.Action, next: World)
    requires HeadersOk(w) && !a.Arrive? && B.Step(cfg.lb, w.lb, a) == Some(next.lb) && next.headers == w.headers
    ensures HeadersOk(next)
  {
    BalancerEffects(cfg.lb, w.lb, a);
  }

  lemma BalanceKeepsJobs(cfg: Config, w: World, a: B.Action)
    requires JobsOk(w) && BalanceStep(cfg, w, a).Some?
    ensures JobsOk(BalanceStep(cfg, w, a).value)
  {
    var next := BalanceStep(cfg, w, a).value;
    forall r: nat ensures PushersOf(next.handlers, r) == PushersOf(w.handlers, r) {
      if next.handlers != w.handlers {
        CountPush(w.handlers, next.handlers[|w.handlers|], r);
      }
    }
  }

  lemma BalanceKeepsSuccess(cfg: Config, w: World, a: B.Action)
    requires SuccessOk(w) && ForwardsOk(w) && BalanceStep(cfg, w, a).Some?
    ensures SuccessOk(BalanceStep(cfg, w, a).value)
  {
    BalancerEffects(cfg.lb, w.lb, a);
    var next := BalanceStep(cfg, w, a).value;
    forall h | 0 <= h < |next.handlers| ensures HandlerOk(next, next.handlers[h]) {
      if h < |w.handlers| { assert HandlerOk(w, w.handlers[h]); }
    }
  }

  lemma BalanceKeepsInv(cfg: Config, base: Table, w: World, a: B.Action)
    requires Inv(cfg, base, w) && BalanceStep(cfg, w, a).Some?
    ensures Inv(cfg, base, BalanceStep(cfg, w, a).value)
  {
    hide B.Inv, J.JInv, JobsOk, ForwardsOk, HeadersOk, SuccessOk, B.Step;
    BalanceKeepsForwards(cfg, w, a);
    BalanceKeepsJobs(cfg, w, a);
    BalanceKeepsSuccess(cfg, w, a);
    BalancerKeepsHeaders(cfg, w, a, BalanceStep(cfg, w, a).value);
    B.StepKeepsInv(cfg.lb, w.lb, a);
  }

  lemma ReplyKeepsSuccess(cfg: Config, w: World, r: nat, h: nat)
    requires SuccessOk(w) && ReplyStep(cfg, w, r, h).Some?
    ensures SuccessOk(ReplyStep(cfg, w, r, h).value)
  {
    BalancerEffects(cfg.lb, w.lb, B.Answer(r, w.handlers[h].stage.status));
    assert HandlerOk(w, w.handlers[h]);
    var next := ReplyStep(cfg, w, r, h).value;
    forall k | 0 <= k < |next.handlers| ensures HandlerOk(next, next.handlers[k]) {
      assert HandlerOk(w, w.handlers[k]);
    }
  }

  lemma ReplyKeepsForwards(cfg: Config, w: World, r: nat, h: nat)
    requires ForwardsOk(w) && JobsOk(w) && ReplyStep(cfg, w, r, h).Some?
    ensures ForwardsOk(ReplyStep(cfg, w, r, h).value) && JobsOk(ReplyStep(cfg, w, r, h).value)
  {
    BalancerEffects(cfg.lb, w.lb, B.Answer(r, w.handlers[h].stage.status));
  }

  lemma ReplyKeepsInv(cfg: Config, base: Table, w: World, r: nat, h: nat)
    requires Inv(cfg, base, w) && ReplyStep(cfg, w, r, h).Some?
    ensures Inv(cfg, base, ReplyStep(cfg, w, r, h).value)
  {
    var answer := B.Answer(r, w.handlers[h].stage.status);
    B.StepKeepsInv(cfg.lb, w.lb, answer);
    BalancerKeepsHeaders(cfg, w, answer, ReplyStep(cfg, w, r, h).value);
    ReplyKeepsForwards(cfg, w, r, h);
    ReplyKeepsSuccess(cfg, w, r, h);
  }

  lemma SubmitKeepsInv(cfg: Config, base: Table, w: World, p: Payload, header: Header)
    requires Inv(cfg, base, w)
    ensures Inv(cfg, base, Submitted(cfg, w, p, header))
  {
    SubmitKeepsJobs(cfg, w, p, header);
    hide B.Inv, J.JInv, JobsOk, ForwardsOk, HeadersOk, HandlerOk;
    B.StepKeepsInv(cfg.lb, w.lb, B.Arrive(!header.NoHeader?));
    SubmitKeepsForwards(cfg, w, p, header);
    SubmitKeepsHeaders(cfg, w, p, header);
    SubmitKeepsSuccess(cfg, w, p, header);
  }

  lemma SubmitKeepsJobs(cfg: Config, w: World, p: Payload, header: Header)
    requires JobsOk(w)
    ensures JobsOk(Submitted(cfg, w, p, header))
  {}

  lemma SubmitKeepsForwards(cfg: Config, w: World, p: Payload, header: Header)
    requires ForwardsOk(w) && forall h :: 0 <= h < |w.handlers| ==> HandlerOk(w, w.handlers[h])
    ensures ForwardsOk(Submitted(cfg, w, p, header))
  {
    forall h | 0 <= h < |w.handlers| ensures w.handlers[h].req != |w.clients| { assert HandlerOk(w, w.handlers[h]); }
    NoneOf(w.handlers, |w.clients|);
  }

  lemma SubmitKeepsHeaders(cfg: Config, w: World, p: Payload, header: Header)
    requires HeadersOk(w)
    ensures HeadersOk(Submitted(cfg, w, p, header))
  {}

  lemma SubmitKeepsSuccess(cfg: Config, w: World, p: Payload, header: Header)
    requires SuccessOk(w)
    ensures SuccessOk(Submitted(cfg, w, p, header))
  {
    var next := Submitted(cfg, w, p, header);
    forall h | 0 <= h < |next.handlers|
      ensures HandlerOk(next, next.handlers[h])
    {
      assert HandlerOk(w, w.handlers[h]);
    }
  }

  // ----- steps of a handler -----

  /** Changing one handler's stage, and perhaps the caches. */
  lemma StageKeepsInv(cfg: Config, base: Table, w: World, h: nat, s: Stage, caches: map<string, set<nat>>)
    requires Inv(cfg, base, w) && h < |w.handlers|
    requires HandlerOk(w, w.handlers[h].(stage := s))
    requires forall u, r :: u in caches && r in caches[u] ==> r in w.origins
    ensures Inv(cfg, base, SetStage(w, h, s).(caches := caches))
  {
    StageKeepsCounts(w, h, s, caches);
    StageKeepsSuccess(w, h, s, caches);
  }

  lemma StageKeepsCounts(w: World, h: nat, s: Stage, caches: map<string, set<nat>>)
    requires JobsOk(w) && ForwardsOk(w) && h < |w.handlers|
    ensures var next := SetStage(w, h, s).(caches := caches); JobsOk(next) && ForwardsOk(next)
  {
    var x := w.handlers[h].(stage := s);
    forall r: nat
      ensures HandlersOf(w.handlers[h := x], r) == HandlersOf(w.handlers, r)
      ensures PushersOf(w.handlers[h := x], r) == PushersOf(w.handlers, r)
    {
      CountUpdate(w.handlers, h, x, r);
    }
  }

  lemma StageKeepsSuccess(w: World, h: nat, s: Stage, caches: map<string, set<nat>>)
    requires SuccessOk(w) && h < |w.handlers| && HandlerOk(w, w.handlers[h].(stage := s))
    requires forall u, r :: u in caches && r in caches[u] ==> r in w.origins
    ensures SuccessOk(SetStage(w, h, s).(caches := caches))
  {
    var next := SetStage(w, h, s).(caches := caches);
    forall k | 0 <= k < |next.handlers| ensures HandlerOk(next, next.handlers[k]) {
      if k != h { assert HandlerOk(w, w.handlers[k]); }
    }
  }

  lemma HandlerStepShape(cfg: Config, w: World, a: Action)
    requires SuccessOk(w) && Step(cfg, w, a).Some?
    requires a.Look? || a.Refuse? || a.Keep? || a.Fail? || a.Crash?
    ensures a.h < |w.handlers|
    ensures var next := Step(cfg, w, a).value;
      && |next.handlers| == |w.handlers|
      && next == SetStage(w, a.h, next.handlers[a.h].stage).(caches := next.caches)
      && HandlerOk(w, w.handlers[a.h].(stage := next.handlers[a.h].stage))
      && forall u, r :: u in next.caches && r in next.caches[u] ==> r in w.origins
  {
    var next := Step(cfg, w, a).value;
    assert HandlerOk(w, w.handlers[a.h]);
    assert w.caches == w.(caches := w.caches).caches;
  }

  lemma HandlerStepKeepsInv(cfg: Config, base: Table, w: World, a: Action)
    requires Inv(cfg, base, w) && Step(cfg, w, a).Some?
    requires a.Look? || a.Refuse? || a.Keep? || a.Fail? || a.Crash?
    ensures Inv(cfg, base, Step(cfg, w, a).value)
  {
    var next := Step(cfg, w, a).value;
    HandlerStepShape(cfg, w, a);
    StageKeepsInv(cfg, base, w, a.h, next.handlers[a.h].stage, next.caches);
  }

  lemma RestartKeepsInv(cfg: Config, base: Table, w: World, url: string)
    requires Inv(cfg, base, w) && RestartStep(w, url).Some?
    ensures Inv(cfg, base, RestartStep(w, url).value)
  {
    var next := RestartStep(w, url).value;
    RestartKeepsSuccess(w, url);
  }

  lemma RestartKeepsSuccess(w: World, url: string)
    requires SuccessOk(w) && RestartStep(w, url).Some?
    ensures SuccessOk(RestartStep(w, url).value)
  {
    var next := RestartStep(w, url).value;
    forall k | 0 <= k < |next.handlers|
      ensures HandlerOk(next, next.handlers[k])
    {
      assert HandlerOk(w, w.handlers[k]);
    }
  }

  // ----- enqueueing -----

  lemma PushKeepsJobs(cfg: Config, w: World, h: nat)
    requires JobsOk(w) && PushStep(cfg, w, h).Some? && !w.handlers[h].pushed
    ensures JobsOk(PushStep(cfg, w, h).value)
  {
    var next := PushStep(cfg, w, h).value;
    forall r: nat ensures multiset(next.origins)[r] == PushersOf(next.handlers, r) {
      CountUpdate(w.handlers, h, next.handlers[h], r);
      assert multiset(next.origins) == multiset(w.origins) + multiset{w.handlers[h].req};
    }
  }

  lemma PushKeepsForwards(cfg: Config, w: World, h: nat)
    requires ForwardsOk(w) && PushStep(cfg, w, h).Some?
    ensures ForwardsOk(PushStep(cfg, w, h).value)
  {
    var next := PushStep(cfg, w, h).value;
    forall r: nat ensures HandlersOf(next.handlers, r) == HandlersOf(w.handlers, r) {
      CountUpdate(w.handlers, h, next.handlers[h], r);
    }
  }

  lemma PushKeepsSuccess(cfg: Config, w: World, h: nat)
    requires SuccessOk(w) && PushStep(cfg, w, h).Some?
    ensures SuccessOk(PushStep(cfg, w, h).value)
  {
    var next := PushStep(cfg, w, h).value;
    assert next.origins[|w.origins|] == w.handlers[h].req;
    forall r | r in w.origins ensures r in next.origins {}
    forall k | 0 <= k < |next.handlers| ensures HandlerOk(next, next.handlers[k]) {
      assert HandlerOk(w, w.handlers[k]);
    }
  }

  lemma PushKeepsInv(cfg: Config, base: Table, w: World, h: nat)
    requires Inv(cfg, base, w) && PushStep(cfg, w, h).Some?
    ensures Inv(cfg, base, PushStep(cfg, w, h).value)
  {
    assert HandlerOk(w, w.handlers[h]);
    PushKeepsJobs(cfg, w, h);
    PushKeepsForwards(cfg, w, h);
    PushKeepsSuccess(cfg, w, h);
    J.StepKeepsInv(cfg.maxTries, base, w.sys, J.Enqueue(w.clients[w.handlers[h].req]));
  }

  // ----- work -----

  predicate SamePayloads(jobs: seq<J.Job>, next: seq<J.Job>) {
    |next| == |jobs| && forall j :: 0 <= j < |jobs| ==> next[j].payload == jobs[j].payload
  }

  lemma ExecuteKeepsPayloads(sys: J.Sys, j: nat)
    requires J.ExecuteStep(sys, j).Some?
    ensures SamePayloads(sys.jobs, J.ExecuteStep(sys, j).value.jobs)
  {
    hide J.JobRows, J.BeginBatch, T.Step;
  }

  lemma RecordKeepsPayloads(sys: J.Sys, j: nat)
    requires J.RecordStep(sys, j).Some?
    ensures SamePayloads(sys.jobs, J.RecordStep(sys, j).value.jobs)
  {
    hide Dedupe, Normalize;
  }

  lemma WorkKeepsPayloads(maxTries: nat, sys: J.Sys, a: J.Action)
    requires !a.Enqueue? && J.Step(maxTries, sys, a).Some?
    ensures SamePayloads(sys.jobs, J.Step(maxTries, sys, a).value.jobs)
  {
    match a
    case Execute(j) => ExecuteKeepsPayloads(sys, j);
    case Record(j) => RecordKeepsPayloads(sys, j);
    case _ =>
  }

  lemma WorkKeepsInv(cfg: Config, base: Table, w: World, a: J.Action)
    requires Inv(cfg, base, w) && WorkStep(cfg, w, a).Some?
    ensures Inv(cfg, base, WorkStep(cfg, w, a).value)
  {
    WorkKeepsPayloads(cfg.maxTries, w.sys, a);
    WorkKeepsSuccess(cfg, w, a);
    J.StepKeepsInv(cfg.maxTries, base, w.sys, a);
  }

  lemma WorkKeepsSuccess(cfg: Config, w: World, a: J.Action)
    requires SuccessOk(w) && WorkStep(cfg, w, a).Some?
    ensures SuccessOk(WorkStep(cfg, w, a).value)
  {
    var next := WorkStep(cfg, w, a).value;
    forall k | 0 <= k < |next.handlers|
      ensures HandlerOk(next, next.handlers[k])
    {
      assert HandlerOk(w, w.handlers[k]);
    }
  }

  // ----- all runs -----

  lemma StepKeepsInv(cfg: Config, base: Table, w: World, a: Action)
    requires Inv(cfg, base, w) && Step(cfg, w, a).Some?
    ensures Inv(cfg, base, Step(cfg, w, a).value)
  {
    hide Inv;
    match a
    case Submit(p, header) => SubmitKeepsInv(cfg, base, w, p, header);
    case Balance(b) => BalanceKeepsInv(cfg, base, w, b);
    case Reply(r, h) => ReplyKeepsInv(cfg, base, w, r, h);
    case Push(h) => PushKeepsInv(cfg, base, w, h);
    case Restart(url) => RestartKeepsInv(cfg, base, w, url);
    case Work(b) => WorkKeepsInv(cfg, base, w, b);
    case _ => HandlerStepKeepsInv(cfg, base, w, a);
  }

  lemma {:induction false} RunKeepsInv(cfg: Config, base: Table, w: World, schedule: seq<Action>)
    requires Inv(cfg, base, w) && Run(cfg, w, schedule).Some?
    ensures Inv(cfg, base, Run(cfg, w, schedule).value)
    decreases schedule
  {
    hide Inv, Step;
    if schedule != [] {
      StepKeepsInv(cfg, base, w, schedule[0]);
      RunKeepsInv(cfg, base, Step(cfg, w, schedule[0]).value, schedule[1..]);
    }
  }

  lemma InitialInv(cfg: Config, urls: seq<string>, base: Table)
    ensures Inv(cfg, base, Initial(urls, base))
  {
    B.InitialInv(cfg.lb, urls);
    T.InitialInv(base);
  }

  lemma ReachableInv(cfg: Config, urls: seq<string>, base: Table, schedule: seq<Action>)
    requires Run(cfg, Initial(urls, base), schedule).Some?
    ensures Inv(cfg, base, Run(cfg, Initial(urls, base), schedule).value)
  {
    InitialInv(cfg, urls, base);
    RunKeepsInv(cfg, base, Initial(urls, base), schedule);
  }

  // ----- retries are invisible to the store -----

  /** For a request: jobs enqueued never exceed forwards, forwards never exceed
      1 + MAX_RETRIES (one if it lacks the key header). It is answered 200, 422 or 500; a 200
      means a job exists, a 422 that the body is invalid. */
  lemma JobsPerRequest(cfg: Config, urls: seq<string>, base: Table, schedule: seq<Action>, r: nat)
    requires Run(cfg, Initial(urls, base), schedule).Some?
    requires r < |Run(cfg, Initial(urls, base), schedule).value.lb.reqs|
    ensures var w := Run(cfg, Initial(urls, base), schedule).value;
      var q := w.lb.reqs[r];
      && multiset(w.origins)[r] <= |q.tries|
      && r < |w.headers|
      && (q.tries == [] || |q.tries| <= 1 + (if w.headers[r].NoHeader? then 0 else cfg.lb.maxRetries))
      && (IsAnswered(q) ==>
            var status := q.phase.response.status;
            && (status == 200 || status == 422 || status == 500)
            && (status == 200 ==> multiset(w.origins)[r] >= 1)
            && (status == 422 ==> r < |w.clients| && w.clients[r].Invalid?))
  {
    ReachableInv(cfg, urls, base, schedule);
    var w := Run(cfg, Initial(urls, base), schedule).value;
    RequestBounds(cfg, w, r);
  }

  lemma RequestBounds(cfg: Config, w: World, r: nat)
    requires B.RequestsOk(cfg.lb, w.lb) && JobsOk(w) && ForwardsOk(w) && HeadersOk(w) && SuccessOk(w)
    requires r < |w.lb.reqs|
    ensures multiset(w.origins)[r] <= |w.lb.reqs[r].tries|
    ensures w.lb.reqs[r].tries == [] ||
      |w.lb.reqs[r].tries| <= 1 + (if w.headers[r].NoHeader? then 0 else cfg.lb.maxRetries)
    ensures IsAnswered(w.lb.reqs[r]) ==> AnswerOk(w, r, w.lb.reqs[r].phase.response.status)
  {
    PushersAreHandlers(w.handlers, r);
    assert B.RequestOk(cfg.lb, w.lb.history, w.lb.reqs[r]);
  }

  /** The batch of a client's payload, as the worker inserts it. */
  ghost function Rows(p: Payload): seq<Row> {
    if p.Valid? then BatchRows(p.events) else []
  }

  /** The keys of the requests for which at least one job was enqueued: what a single
      delivery of each would bring. */
  ghost function DeliveredKeys(w: World): set<string> {
    set r, x | 0 <= r < |w.clients| && r in w.origins && x in Rows(w.clients[r]) :: Key(x.id)
  }

  lemma JobKeyDelivered(w: World, k: string)
    requires Tracked(w) && k in J.JobKeys(w.sys.jobs)
    ensures k in DeliveredKeys(w)
  {
    var j, x :| 0 <= j < |w.sys.jobs| && x in J.JobRows(w.sys.jobs[j]) && Key(x.id) == k;
    var r := w.origins[j];
    assert r in w.origins && x in Rows(w.clients[r]);
  }

  lemma DeliveredKeyHasJob(w: World, k: string)
    requires Tracked(w) && k in DeliveredKeys(w)
    ensures k in J.JobKeys(w.sys.jobs)
  {
    var r, x :| 0 <= r < |w.clients| && r in w.origins && x in Rows(w.clients[r]) && Key(x.id) == k;
    var j :| 0 <= j < |w.origins| && w.origins[j] == r;
    assert x in J.JobRows(w.sys.jobs[j]);
  }

  lemma JobKeysAreDelivered(w: World)
    requires Tracked(w)
    ensures J.JobKeys(w.sys.jobs) == DeliveredKeys(w)
  {
    forall k | k in J.JobKeys(w.sys.jobs) ensures k in DeliveredKeys(w) { JobKeyDelivered(w, k); }
    forall k | k in DeliveredKeys(w) ensures k in J.JobKeys(w.sys.jobs) { DeliveredKeyHasJob(w, k); }
  }

  /** In every reachable state the id set lies between the base and a single delivery of
      every request that reached the queue, and once all jobs are done it is that delivery,
      however often each request was retried, on whatever backends, with whatever caches. A
      request answered 200 is among them. */
  lemma RetryTransparency(cfg: Config, urls: seq<string>, base: Table, schedule: seq<Action>)
    requires Run(cfg, Initial(urls, base), schedule).Some?
    ensures var w := Run(cfg, Initial(urls, base), schedule).value;
      && base.Keys <= w.sys.db.table.Keys <= base.Keys + DeliveredKeys(w)
      && (J.AllCompleted(w.sys.jobs) ==>
            && w.sys.db.table.Keys == base.Keys + DeliveredKeys(w)
            && forall r :: 0 <= r < |w.lb.reqs| && w.lb.reqs[r].phase == B.Done(B.Answered(200)) ==>
                 r < |w.clients| && KeysOf(Rows(w.clients[r])) <= w.sys.db.table.Keys)
  {
    ReachableInv(cfg, urls, base, schedule);
    var w := Run(cfg, Initial(urls, base), schedule).value;
    J.DrainedState(cfg.maxTries, base, w.sys);
    JobKeysAreDelivered(w);
    AnsweredIsDelivered(w);
  }

  lemma AnsweredIsDelivered(w: World)
    requires ForwardsOk(w) && SuccessOk(w)
    ensures forall r ::
      0 <= r < |w.lb.reqs| && w.lb.reqs[r].phase == B.Done(B.Answered(200)) ==>
        r < |w.clients| && KeysOf(Rows(w.clients[r])) <= DeliveredKeys(w)
  {
    forall r | 0 <= r < |w.lb.reqs| && w.lb.reqs[r].phase == B.Done(B.Answered(200))
      ensures KeysOf(Rows(w.clients[r])) <= DeliveredKeys(w)
    {
      forall k | k in KeysOf(Rows(w.clients[r])) ensures k in DeliveredKeys(w) {
        var x: Row :| x in Rows(w.clients[r]) && Key(x.id) == k;
      }
    }
  }

  // ----- the stored map, payloads included -----

  /** The batches of the listed requests. */
  ghost function Batches(clients: seq<Payload>, order: seq<nat>): seq<seq<Row>> {
    seq(|order|, i requires 0 <= i < |order| => if order[i] < |clients| then Rows(clients[order[i]]) else [])
  }

  ghost predicate Distinct(order: seq<nat>) {
    forall i, j :: 0 <= i < j < |order| ==> order[i] != order[j]
  }

  predicate Known(clients: seq<Payload>, order: seq<nat>) {
    forall i :: 0 <= i < |order| ==> order[i] < |clients|
  }

  lemma BatchesPush(base: Table, clients: seq<Payload>, order: seq<nat>, r: nat)
    requires r < |clients|
    ensures T.Serial(base, Batches(clients, order + [r]))
      == InsertAll(T.Serial(base, Batches(clients, order)), Rows(clients[r]))
  {
    assert Batches(clients, order + [r]) == Batches(clients, order) + [Rows(clients[r])];
    T.SerialPush(base, Batches(clients, order), Rows(clients[r]));
  }

  lemma ListedKeysStored(base: Table, clients: seq<Payload>, order: seq<nat>, r: nat)
    requires r in order && r < |clients|
    ensures KeysOf(Rows(clients[r])) <= T.Serial(base, Batches(clients, order)).Keys
  {
    var batches := Batches(clients, order);
    T.SerialMeaning(base, batches);
    var i :| 0 <= i < |order| && order[i] == r;
    assert batches[i] == Rows(clients[r]);
  }

  /** Listing a request again, when its keys are stored, changes nothing. */
  lemma AddRequest(base: Table, clients: seq<Payload>, order: seq<nat>, r: nat) returns (more: seq<nat>)
    requires Distinct(order) && r < |clients|
    requires r in order || KeysOf(Rows(clients[r])) <= T.Serial(base, Batches(clients, order)).Keys
    ensures Distinct(more) && (forall q :: q in more <==> q in order || q == r)
    ensures T.Serial(base, Batches(clients, more)) == T.Serial(base, Batches(clients, order))
    ensures T.Serial(base, Batches(clients, more))
      == InsertAll(T.Serial(base, Batches(clients, order)), Rows(clients[r]))
  {
    if r in order { ListedKeysStored(base, clients, order, r); }
    InsertAllAbsorbs(T.Serial(base, Batches(clients, order)), Rows(clients[r]));
    if r in order {
      more := order;
    } else {
      more := order + [r];
      BatchesPush(base, clients, order, r);
    }
  }

  /** A serial run with repeats equals the one with each request's first run only. */
  lemma {:induction false} DropRepeats(base: Table, clients: seq<Payload>, runs: seq<nat>) returns (order: seq<nat>)
    requires Known(clients, runs)
    ensures Distinct(order) && (forall r :: r in order <==> r in runs)
    ensures T.Serial(base, Batches(clients, order)) == T.Serial(base, Batches(clients, runs))
  {
    if runs == [] {
      order := [];
    } else {
      var front, last := runs[..|runs| - 1], runs[|runs| - 1];
      assert runs == front + [last];
      var before := DropRepeats(base, clients, front);
      order := OneMoreRun(base, clients, before, front, last);
    }
  }

  lemma OneMoreRun(base: Table, clients: seq<Payload>, before: seq<nat>, front: seq<nat>, last: nat)
    returns (order: seq<nat>)
    requires last < |clients| && Distinct(before)
    requires T.Serial(base, Batches(clients, before)) == T.Serial(base, Batches(clients, front))
    ensures Distinct(order) && (forall r :: r in order <==> r in before || r == last)
    ensures T.Serial(base, Batches(clients, order)) == T.Serial(base, Batches(clients, front + [last]))
  {
    BatchesPush(base, clients, front, last);
    if last in before {
      order := AddRequest(base, clients, before, last);
    } else {
      order := before + [last];
      BatchesPush(base, clients, before, last);
    }
  }

  ghost predicate AllStored(clients: seq<Payload>, queued: seq<nat>, keys: set<string>) {
    forall i :: 0 <= i < |queued| ==> queued[i] < |clients| && KeysOf(Rows(clients[queued[i]])) <= keys
  }

  lemma {:induction false} AddStored(base: Table, clients: seq<Payload>, order: seq<nat>, queued: seq<nat>)
    returns (all: seq<nat>)
    requires Distinct(order)
    requires AllStored(clients, queued, T.Serial(base, Batches(clients, order)).Keys)
    ensures Distinct(all) && (forall r :: r in all <==> r in order || r in queued)
    ensures T.Serial(base, Batches(clients, all)) == T.Serial(base, Batches(clients, order))
    decreases queued
  {
    hide Batches, T.Serial, Distinct;
    if queued == [] {
      all := order;
    } else {
      var more := AddRequest(base, clients, order, queued[0]);
      RestStored(clients, queued, T.Serial(base, Batches(clients, order)).Keys);
      all := AddStored(base, clients, more, queued[1..]);
      assert queued == [queued[0]] + queued[1..];
    }
  }

  lemma RestStored(clients: seq<Payload>, queued: seq<nat>, keys: set<string>)
    requires queued != [] && AllStored(clients, queued, keys)
    ensures AllStored(clients, queued[1..], keys)
  {
    assert forall i :: 0 <= i < |queued[1..]| ==> queued[1..][i] == queued[i + 1];
  }

  /** The requests whose batches were committed, in commit order, with repeats. */
  ghost function CommitOrder(w: World): seq<nat>
    requires Tracked(w) && J.AttemptsOk(w.sys) && T.LogOk(w.sys.db)
  {
    seq(|w.sys.db.log|, i requires 0 <= i < |w.sys.db.log| => w.origins[w.sys.attempts[w.sys.db.log[i]].job])
  }

  lemma CommitsAreRequests(w: World)
    requires Tracked(w) && J.AttemptsOk(w.sys) && T.LogOk(w.sys.db)
    ensures Known(w.clients, CommitOrder(w)) && forall r :: r in CommitOrder(w) ==> r in w.origins
    ensures T.CommittedBatches(w.sys.db) == Batches(w.clients, CommitOrder(w))
  {
    var runs, batches := CommitOrder(w), T.CommittedBatches(w.sys.db);
    forall i | 0 <= i < |runs| ensures batches[i] == Batches(w.clients, runs)[i] && runs[i] in w.origins {
      var job := w.sys.attempts[w.sys.db.log[i]].job;
      assert runs[i] == w.origins[job] && w.sys.jobs[job].payload == w.clients[runs[i]];
    }
  }

  /** The requests of the completed jobs. */
  function DoneRequests(jobs: seq<J.Job>, origins: seq<nat>): (done: seq<nat>)
    requires |jobs| == |origins|
    ensures forall i :: 0 <= i < |done| ==>
      exists j :: 0 <= j < |jobs| && jobs[j].state.Completed? && origins[j] == done[i]
    ensures forall j :: 0 <= j < |jobs| && jobs[j].state.Completed? ==> origins[j] in done
  {
    if jobs == [] then []
    else
      var last := |jobs| - 1;
      DoneRequests(jobs[..last], origins[..last]) + (if jobs[last].state.Completed? then [origins[last]] else [])
  }

  lemma DoneKeysStored(maxTries: nat, w: World)
    requires Tracked(w) && J.JobsOk(maxTries, w.sys)
    ensures AllStored(w.clients, DoneRequests(w.sys.jobs, w.origins), w.sys.db.table.Keys)
    ensures forall r :: r in DoneRequests(w.sys.jobs, w.origins) ==> r in w.origins
  {
    var done := DoneRequests(w.sys.jobs, w.origins);
    forall i | 0 <= i < |done|
      ensures done[i] < |w.clients| && KeysOf(Rows(w.clients[done[i]])) <= w.sys.db.table.Keys && done[i] in w.origins
    {
      var j :| 0 <= j < |w.sys.jobs| && w.sys.jobs[j].state.Completed? && w.origins[j] == done[i];
      J.OutcomeOk(maxTries, w.sys, j);
    }
  }

  /** The request of every completed job is listed. */
  predicate ListsCompleted(w: World, order: seq<nat>)
    requires Tracked(w)
  {
    forall j :: 0 <= j < |w.origins| && w.sys.jobs[j].state.Completed? ==> w.origins[j] in order
  }

  /** Exactly once, for any number of clients and in every reachable state: there is an
      order of requests that reached the queue, each listed once and those of all completed
      jobs among them, such that the table, payloads included, is that of inserting their
      batches one after another, row by row. Retries, crashes, redeliveries, lost jobs and
      overlapping attempts have left no other trace. Once all jobs are completed it lists
      exactly the requests that reached the queue. */
  lemma EveryBatchOnce(cfg: Config, urls: seq<string>, base: Table, schedule: seq<Action>) returns (order: seq<nat>)
    requires Run(cfg, Initial(urls, base), schedule).Some?
    ensures var w := Run(cfg, Initial(urls, base), schedule).value;
      && Tracked(w)
      && Distinct(order)
      && (forall r :: r in order ==> r in w.origins)
      && ListsCompleted(w, order)
      && (J.AllCompleted(w.sys.jobs) ==> forall r :: r in order <==> r in w.origins)
      && w.sys.db.table == T.Serial(base, Batches(w.clients, order))
  {
    ReachableInv(cfg, urls, base, schedule);
    var w := Run(cfg, Initial(urls, base), schedule).value;
    order := OrderOf(cfg.maxTries, base, w);
    if J.AllCompleted(w.sys.jobs) { AllListed(w, order); }
  }

  lemma OrderOf(maxTries: nat, base: Table, w: World) returns (order: seq<nat>)
    requires Tracked(w) && J.JInv(maxTries, base, w.sys)
    ensures Distinct(order) && (forall r :: r in order ==> r in w.origins) && ListsCompleted(w, order)
    ensures w.sys.db.table == T.Serial(base, Batches(w.clients, order))
  {
    CommitsAreRequests(w);
    var committed := DropRepeats(base, w.clients, CommitOrder(w));
    assert w.sys.db.table == T.Serial(base, Batches(w.clients, committed));
    DoneKeysStored(maxTries, w);
    order := AddStored(base, w.clients, committed, DoneRequests(w.sys.jobs, w.origins));
  }

  lemma AllListed(w: World, order: seq<nat>)
    requires Tracked(w) && J.AllCompleted(w.sys.jobs) && ListsCompleted(w, order)
    ensures forall r :: r in w.origins ==> r in order
  {
    forall r | r in w.origins ensures r in order {
      var j :| 0 <= j < |w.origins| && w.origins[j] == r;
      assert w.sys.jobs[j].state.Completed?;
    }
  }

  /** One client: its batch, enqueued any number of times, leaves the very table of one
      row-by-row insert. */
  lemma OneClientOneInsert(cfg: Config, urls: seq<string>, base: Table, schedule: seq<Action>)
    requires Run(cfg, Initial(urls, base), schedule).Some?
    requires var w := Run(cfg, Initial(urls, base), schedule).value;
      |w.clients| == 1 && w.sys.jobs != [] && J.AllCompleted(w.sys.jobs)
    ensures var w := Run(cfg, Initial(urls, base), schedule).value;
      w.sys.db.table == InsertAll(base, Rows(w.clients[0]))
  {
    ReachableInv(cfg, urls, base, schedule);
    var w := Run(cfg, Initial(urls, base), schedule).value;
    var order := EveryBatchOnce(cfg, urls, base, schedule);
    OnlyRequest(w, order);
    BatchesPush(base, w.clients, [], 0);
    assert [] + [0] == [0] && Batches(w.clients, []) == [];
  }

  lemma OnlyRequest(w: World, order: seq<nat>)
    requires Tracked(w) && |w.clients| == 1 && w.sys.jobs != []
    requires Distinct(order) && forall r :: r in order <==> r in w.origins
    ensures order == [0]
  {
    assert |order| > 1 ==> order[0] != order[1];
    assert w.origins[0] in w.origins && w.origins[0] == 0;
    assert 0 in order;
    forall i | 0 <= i < |order| ensures order[i] == 0 { assert order[i] in w.origins; }
  }

  // ----- every stored row was sent -----

  lemma InsertOrigin(t: Table, rows: seq<Row>, k: string)
    requires k in InsertAll(t, rows) && k !in t
    ensures InsertAll(t, rows)[k] in rows
  {
    InsertAllMeaning(t, rows);
    WithKeyMembers(rows, k);
    assert WithKey(rows, k)[0] in WithKey(rows, k);
  }

  lemma InsertStays(t: Table, rows: seq<Row>, k: string)
    requires k in t
    ensures k in InsertAll(t, rows) && InsertAll(t, rows)[k] == t[k]
  {
    InsertAllMeaning(t, rows);
  }

  lemma {:induction false} SerialOrigin(base: Table, batches: seq<seq<Row>>, k: string) returns (i: nat)
    requires k in T.Serial(base, batches) && k !in base
    ensures i < |batches| && T.Serial(base, batches)[k] in batches[i]
  {
    var n := |batches| - 1;
    var before := T.Serial(base, batches[..n]);
    if k in before {
      i := SerialOrigin(base, batches[..n], k);
      InsertStays(before, batches[n], k);
    } else {
      i := n;
      InsertOrigin(before, batches[n], k);
    }
  }

  lemma RowFromPayload(p: Payload, r: Row)
    requires r in Rows(p)
    ensures p.Valid? && exists e :: e in p.events && RowOf(e, r)
  {
    var normalized := Normalize(p.events);
    var kept := Dedupe(normalized);
    SortRowsSorts(EventRows(kept));
    var i :| 0 <= i < |EventRows(kept)| && EventRows(kept)[i] == r;
    ColumnsOfEvent(kept[i]);
    DedupeSubset(normalized);
    assert kept[i] in kept;
    var j :| 0 <= j < |normalized| && normalized[j] == kept[i];
    NormalizedFlag(p.events[j]);
    assert p.events[j] in p.events && RowOf(p.events[j], r);
  }

  /** r is the row of an event of one of the requests. */
  predicate RowSent(clients: seq<Payload>, requests: seq<nat>, r: Row) {
    exists q :: q in requests && RowFrom(clients, q, r)
  }

  predicate RowFrom(clients: seq<Payload>, q: nat, r: Row) {
    q < |clients| && clients[q].Valid? && exists e :: e in clients[q].events && RowOf(e, r)
  }

  /** In every reachable state each row beyond the base is, column by column, the row of an
      event that a client sent in a request that reached the queue. */
  lemma StoredRowsWereSent(cfg: Config, urls: seq<string>, base: Table, schedule: seq<Action>, k: string)
    requires Run(cfg, Initial(urls, base), schedule).Some?
    requires k in Run(cfg, Initial(urls, base), schedule).value.sys.db.table && k !in base
    ensures var w := Run(cfg, Initial(urls, base), schedule).value;
      RowSent(w.clients, w.origins, w.sys.db.table[k])
  {
    var w := Run(cfg, Initial(urls, base), schedule).value;
    var order := EveryBatchOnce(cfg, urls, base, schedule);
    var batches := Batches(w.clients, order);
    var i := SerialOrigin(base, batches, k);
    assert order[i] in order && order[i] in w.origins;
    RowFromPayload(w.clients[order[i]], w.sys.db.table[k]);
    assert RowFrom(w.clients, order[i], w.sys.db.table[k]);
  }
}
