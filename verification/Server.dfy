/** The proxy's retry loop over the shared objects (load_balancer/server.py:127-211),
    proved to be a run of the steps of module Balancer. */
module Server {
  import opened Common
  import H = Health
  import R = Router
  import M = Metrics
  import opened Balancer

  /** A health-check result that the background thread applies. */
  type ProbeResult = (string, bool)

  lemma ProbeRun(cfg: Config, urls: seq<string>, past: seq<Action>, lb: Lb, url: string, pass: bool)
    requires Run(cfg, Initial(urls), past) == Some(lb) && url in lb.history
    ensures Run(cfg, Initial(urls), past + [Probe(url, pass)])
         == Some(lb.(history := lb.history[url := lb.history[url] + [if pass then H.Pass else H.Fail]]))
  {
    RunPush(cfg, Initial(urls), past, lb, Probe(url, pass));
  }

  /** The balancer when a call of the proxy began: the schedule so far, and the requests
      that had come before. */
  datatype Call = Call(past: seq<Action>, earlier: seq<Request>)

  class LoadBalancer {
    const checker: H.HealthChecker
    const router: R.RoundRobinRouter
    const metrics: M.Metrics
    const maxRetries: int

    ghost predicate Valid()
      reads this, checker, router, metrics
    {
      && checker.Valid() && router.Valid() && metrics.Valid()
      && router.backendUrls == checker.backendUrls
      && checker.metrics == metrics
    }

    constructor (backendUrls: seq<string>, recoveriesRequired: int, maxRetries: int)
      requires backendUrls != []
      ensures Valid() && fresh(checker) && fresh(router) && fresh(metrics)
      ensures Matches(Initial(backendUrls)) && this.maxRetries == maxRetries
    {
      var m := new M.Metrics();
      var c := new H.HealthChecker(backendUrls, recoveriesRequired, m);
      var r := new R.RoundRobinRouter(backendUrls);
      metrics, checker, router, this.maxRetries := m, c, r, maxRetries;
      new;
      assert checker.history == Initial(backendUrls).history;
    }

    ghost function Settings(): Config {
      Config(checker.recoveriesRequired, maxRetries)
    }

    /** The objects are in the state of the model, its requests aside. */
    ghost predicate Matches(lb: Lb)
      requires router.Valid()
      reads this, checker, router, metrics
    {
      && lb.history == checker.history
      && lb.rot == router.Upcoming()
      && lb.stats == Stats(metrics.totalRequests, metrics.successfulRequests, metrics.failedRequests,
                           metrics.retriedRequests, metrics.backendSelectionCounts)
    }

    /** The objects' state was reached from the start by the schedule `past`, with the
        request of the call under way last. */
    ghost predicate Reached(past: seq<Action>, lb: Lb)
      reads this, checker, router, metrics
    {
      && Valid()
      && Matches(lb)
      && Run(Settings(), Initial(router.backendUrls), past) == Some(lb)
    }

    /** One result of the health-check thread. */
    method ApplyProbe(url: string, pass: bool, ghost past: seq<Action>, ghost lb: Lb) returns (ghost after: Lb)
      requires Reached(past, lb) && url in checker.backendUrls
      modifies checker`state, checker`consecutivePasses, checker`history, metrics`healthCheckFailures
      ensures Reached(past + [Probe(url, pass)], after) && after.reqs == lb.reqs
    {
      ProbeRun(Settings(), router.backendUrls, past, lb, url, pass);
      checker.CheckOne(url, pass);
      after := lb.(history := checker.history);
    }

    /** The health-check thread gets a turn. */
    method Interfere(probes: seq<ProbeResult>, ghost past: seq<Action>, ghost lb: Lb)
      returns (ghost schedule: seq<Action>, ghost after: Lb)
      requires Reached(past, lb)
      modifies checker`state, checker`consecutivePasses, checker`history, metrics`healthCheckFailures
      ensures Reached(schedule, after) && after.reqs == lb.reqs && past <= schedule
    {
      schedule, after := past, lb;
      for i := 0 to |probes|
        invariant Reached(schedule, after) && after.reqs == lb.reqs && past <= schedule
      {
        var (url, pass) := probes[i];
        if url in checker.backendUrls {
          after := ApplyProbe(url, pass, schedule, after);
          schedule := schedule + [Probe(url, pass)];
        }
      }
    }

    /** The first half of `next_backend`. */
    method TakeSnapshot(ghost past: seq<Action>, ghost lb: Lb, ghost r: nat)
      returns (healthy: set<string>, ghost after: Lb)
      requires Reached(past, lb) && r < |lb.reqs| && lb.reqs[r].phase.Start?
      ensures Reached(past + [Snapshot(r)], after)
      ensures after == Put(lb, r, lb.reqs[r].(phase := Snapped(healthy)))
    {
      RunPush(Settings(), Initial(router.backendUrls), past, lb, Snapshot(r));
      healthy := checker.HealthyBackends();
      after := Put(lb, r, lb.reqs[r].(phase := Snapped(healthy)));
    }

    /** The second half, with the 503 record when no backend is found. */
    method Choose(healthy: set<string>, ghost past: seq<Action>, ghost lb: Lb, ghost r: nat)
      returns (choice: Option<string>, ghost after: Lb)
      requires Reached(past, lb) && r < |lb.reqs| && lb.reqs[r].phase == Snapped(healthy)
      modifies router, metrics
      ensures Reached(past + [Route(r)], after)
      ensures var phase := if choice.Some? then Chosen(choice.value) else Done(NoBackend);
        after.reqs == lb.reqs[r := lb.reqs[r].(phase := phase)]
      ensures choice.Some? ==> choice.value in checker.backendUrls
    {
      RunPush(Settings(), Initial(router.backendUrls), past, lb, Route(r));
      SelectMembers(lb.rot, healthy);
      choice := router.NextBackend(Some(healthy));
      if choice.None? {
        metrics.RecordRequest("none", false, 0.0, false);
      }
      after := RouteStep(Settings(), lb, r).value;
    }

    /** The guard before a forward: `continue`, or note the try. */
    method Admit(url: string, attempted: seq<string>, ghost past: seq<Action>, ghost lb: Lb, ghost r: nat)
      returns (admitted: bool, ghost after: Lb)
      requires Reached(past, lb) && r < |lb.reqs| && lb.reqs[r].phase == Chosen(url) && Urls(lb.reqs[r]) == attempted
      ensures Reached(past + [Decide(r)], after)
      ensures |after.reqs| == |lb.reqs| && after.reqs == lb.reqs[r := after.reqs[r]]
      ensures !admitted ==> after.reqs[r] == NextAttempt(Settings(), lb.reqs[r].(skips := after.reqs[r].skips))
      ensures admitted ==>
        && after.reqs[r].phase == Forwarding(url) && Urls(after.reqs[r]) == attempted + [url]
        && after.reqs[r].attempt == lb.reqs[r].attempt && after.reqs[r].retryable == lb.reqs[r].retryable
    {
      RunPush(Settings(), Initial(router.backendUrls), past, lb, Decide(r));
      var healthy := checker.HealthyBackends();
      admitted := !(url in attempted && |healthy| > |attempted|);
      after := DecideStep(Settings(), lb, r).value;
    }

    /** `mark_unhealthy` after a forward without a response. */
    method MarkDown(url: string, ghost past: seq<Action>, ghost lb: Lb, ghost r: nat) returns (ghost after: Lb)
      requires Reached(past, lb) && r < |lb.reqs| && lb.reqs[r].phase == Forwarding(url)
      requires lb.reqs[r].tries != [] && url in checker.backendUrls
      modifies checker`state, checker`consecutivePasses, checker`history
      ensures Reached(past + [Break(r)], after)
      ensures |after.reqs| == |lb.reqs| && after.reqs == lb.reqs[r := after.reqs[r]]
      ensures var q, p := lb.reqs[r], after.reqs[r];
        p == q.(phase := Marked(url), tries := p.tries) && Urls(p) == Urls(q)
    {
      RunPush(Settings(), Initial(router.backendUrls), past, lb, Break(r));
      BreakKeepsUrls(lb, r);
      after := BreakStep(lb, r).value;
      checker.MarkUnhealthy(url);
    }

    method RecordFailure(url: string, isRetry: bool, latencyMs: real, ghost past: seq<Action>, ghost lb: Lb,
                         ghost r: nat) returns (ghost after: Lb)
      requires Reached(past, lb) && r < |lb.reqs| && lb.reqs[r].phase == Marked(url) &&
        isRetry == (lb.reqs[r].attempt > 0)
      modifies metrics
      ensures Reached(past + [RecordBreak(r)], after)
      ensures after.reqs == lb.reqs[r := NextAttempt(Settings(), lb.reqs[r])]
    {
      RunPush(Settings(), Initial(router.backendUrls), past, lb, RecordBreak(r));
      metrics.RecordRequest(url, false, latencyMs, isRetry);
      after := RecordBreakStep(Settings(), lb, r).value;
    }

    method RecordAnswer(url: string, status: int, isRetry: bool, latencyMs: real, ghost past: seq<Action>,
                        ghost lb: Lb, ghost r: nat) returns (ghost after: Lb)
      requires Reached(past, lb) && r < |lb.reqs| && lb.reqs[r].phase == Forwarding(url) &&
        isRetry == (lb.reqs[r].attempt > 0)
      modifies metrics
      ensures Reached(past + [Answer(r, status)], after)
      ensures after.reqs == lb.reqs[r := lb.reqs[r].(phase := Done(Answered(status)))]
    {
      RunPush(Settings(), Initial(router.backendUrls), past, lb, Answer(r, status));
      metrics.RecordRequest(url, status < 500, latencyMs, isRetry);
      after := AnswerStep(lb, r, status).value;
    }

    /** A request enters. */
    ghost method Enter(retryable: bool, past: seq<Action>, lb: Lb) returns (after: Lb)
      requires Reached(past, lb)
      ensures Reached(past + [Arrive(retryable)], after)
      ensures after == lb.(reqs := lb.reqs + [NewRequest(Settings(), retryable)])
    {
      RunPush(Settings(), Initial(router.backendUrls), past, lb, Arrive(retryable));
      after := lb.(reqs := lb.reqs + [NewRequest(Settings(), retryable)]);
    }

    /** The request of the call, last in the model, as the loop's local variables have it. */
    ghost predicate InLoop(call: Call, past: seq<Action>, lb: Lb, attempt: nat, retryable: bool,
                           attempted: seq<string>, phase: Phase)
      reads this, checker, router, metrics
    {
      var r := |call.earlier|;
      && Reached(past, lb)
      && call.past <= past
      && |lb.reqs| == r + 1 && lb.reqs[..r] == call.earlier
      && Urls(lb.reqs[r]) == attempted
      && lb.reqs[r] == Request(retryable, attempt, lb.reqs[r].tries, lb.reqs[r].skips, phase)
    }

    /** After `continue`, or when the attempts have run out. */
    ghost predicate Continued(call: Call, past: seq<Action>, lb: Lb, attempt: nat, retryable: bool,
                              attempted: seq<string>)
      reads this, checker, router, metrics
    {
      if attempt + 1 < Allowed(Settings(), retryable) then
        InLoop(call, past, lb, attempt + 1, retryable, attempted, Start)
      else
        InLoop(call, past, lb, attempt, retryable, attempted, Done(BadGateway))
    }

    /** The health-check thread runs while the call is at some point. */
    method Pause(probes: seq<ProbeResult>, ghost call: Call, ghost past: seq<Action>, ghost lb: Lb,
                 ghost attempt: nat, ghost retryable: bool, ghost attempted: seq<string>, ghost phase: Phase)
      returns (ghost schedule: seq<Action>, ghost after: Lb)
      requires InLoop(call, past, lb, attempt, retryable, attempted, phase)
      modifies checker`state, checker`consecutivePasses, checker`history, metrics`healthCheckFailures
      ensures InLoop(call, schedule, after, attempt, retryable, attempted, phase)
    {
      schedule, after := Interfere(probes, past, lb);
    }

    /** `next_backend`, with the health-check thread running before, between and after. */
    method NextBackend(probes: nat -> seq<ProbeResult>, ghost call: Call, ghost past: seq<Action>, ghost lb: Lb,
                       ghost attempt: nat, ghost retryable: bool, ghost attempted: seq<string>)
      returns (choice: Option<string>, ghost schedule: seq<Action>, ghost after: Lb)
      requires InLoop(call, past, lb, attempt, retryable, attempted, Start)
      modifies checker`state, checker`consecutivePasses, checker`history, router, metrics
      ensures InLoop(call, schedule, after, attempt, retryable, attempted,
                     if choice.Some? then Chosen(choice.value) else Done(NoBackend))
      ensures choice.Some? ==> choice.value in checker.backendUrls
    {
      var healthy;
      ghost var r := |call.earlier|;
      schedule, after := Pause(probes(0), call, past, lb, attempt, retryable, attempted, Start);
      healthy, after := TakeSnapshot(schedule, after, r);
      schedule := schedule + [Snapshot(r)];
      schedule, after := Pause(probes(1), call, schedule, after, attempt, retryable, attempted, Snapped(healthy));
      choice, schedule, after := Turn(healthy, call, schedule, after, attempt, retryable, attempted);
      schedule, after := Pause(probes(2), call, schedule, after, attempt, retryable, attempted,
                               if choice.Some? then Chosen(choice.value) else Done(NoBackend));
    }

    /** The turn of the cursor, seen from the loop. */
    method Turn(healthy: set<string>, ghost call: Call, ghost past: seq<Action>, ghost lb: Lb,
                ghost attempt: nat, ghost retryable: bool, ghost attempted: seq<string>)
      returns (choice: Option<string>, ghost schedule: seq<Action>, ghost after: Lb)
      requires InLoop(call, past, lb, attempt, retryable, attempted, Snapped(healthy))
      modifies router, metrics
      ensures InLoop(call, schedule, after, attempt, retryable, attempted,
                     if choice.Some? then Chosen(choice.value) else Done(NoBackend))
      ensures choice.Some? ==> choice.value in checker.backendUrls
    {
      choice, after := Choose(healthy, past, lb, |call.earlier|);
      schedule := past + [Route(|call.earlier|)];
    }

    /** The forward of an admitted attempt and what follows it. */
    method Forward(url: string, outcome: Option<int>, probes: nat -> seq<ProbeResult>, latencyMs: real,
                   attempt: nat, ghost retryable: bool, ghost attempted: seq<string>,
                   ghost call: Call, ghost past: seq<Action>, ghost lb: Lb)
      returns (response: Option<Response>, ghost schedule: seq<Action>, ghost after: Lb)
      requires InLoop(call, past, lb, attempt, retryable, attempted, Forwarding(url))
      requires attempted != [] && url in checker.backendUrls
      modifies checker`state, checker`consecutivePasses, checker`history, metrics
      ensures response == if outcome.Some? then Some(Answered(outcome.value)) else None
      ensures response.Some? ==> InLoop(call, schedule, after, attempt, retryable, attempted, Done(response.value))
      ensures response.None? ==> Continued(call, schedule, after, attempt, retryable, attempted)
    {
      ghost var r := |call.earlier|;
      schedule, after := Pause(probes(3), call, past, lb, attempt, retryable, attempted, Forwarding(url));
      if outcome.Some? {
        after := RecordAnswer(url, outcome.value, attempt > 0, latencyMs, schedule, after, r);
        schedule := schedule + [Answer(r, outcome.value)];
        return Some(Answered(outcome.value)), schedule, after;
      }
      schedule, after := Broken(url, probes(4), latencyMs, attempt, retryable, attempted, call, schedule, after);
      response := None;
    }

    /** The forward failed before an answer: the exception branch. */
    method Broken(url: string, probes: seq<ProbeResult>, latencyMs: real,
                  attempt: nat, ghost retryable: bool, ghost attempted: seq<string>,
                  ghost call: Call, ghost past: seq<Action>, ghost lb: Lb)
      returns (ghost schedule: seq<Action>, ghost after: Lb)
      requires InLoop(call, past, lb, attempt, retryable, attempted, Forwarding(url))
      requires attempted != [] && url in checker.backendUrls
      modifies checker`state, checker`consecutivePasses, checker`history, metrics
      ensures Continued(call, schedule, after, attempt, retryable, attempted)
    {
      schedule, after := Mark(url, call, past, lb, attempt, retryable, attempted);
      schedule, after := Pause(probes, call, schedule, after, attempt, retryable, attempted, Marked(url));
      schedule, after := GiveUp(url, latencyMs, attempt, retryable, attempted, call, schedule, after);
    }

    method Mark(url: string, ghost call: Call, ghost past: seq<Action>, ghost lb: Lb,
                ghost attempt: nat, ghost retryable: bool, ghost attempted: seq<string>)
      returns (ghost schedule: seq<Action>, ghost after: Lb)
      requires InLoop(call, past, lb, attempt, retryable, attempted, Forwarding(url))
      requires attempted != [] && url in checker.backendUrls
      modifies checker`state, checker`consecutivePasses, checker`history
      ensures InLoop(call, schedule, after, attempt, retryable, attempted, Marked(url))
    {
      after := MarkDown(url, past, lb, |call.earlier|);
      schedule := past + [Break(|call.earlier|)];
    }

    method GiveUp(url: string, latencyMs: real, attempt: nat, ghost retryable: bool, ghost attempted: seq<string>,
                  ghost call: Call, ghost past: seq<Action>, ghost lb: Lb)
      returns (ghost schedule: seq<Action>, ghost after: Lb)
      requires InLoop(call, past, lb, attempt, retryable, attempted, Marked(url))
      modifies metrics
      ensures Continued(call, schedule, after, attempt, retryable, attempted)
    {
      after := RecordFailure(url, attempt > 0, latencyMs, past, lb, |call.earlier|);
      schedule := past + [RecordBreak(|call.earlier|)];
    }

    /** One turn of the loop: a response, or None to go on. */
    method Attempt(attempt: nat, retryable: bool, attempted: seq<string>, outcome: Option<int>,
                   probes: nat -> seq<ProbeResult>, latencyMs: real,
                   ghost call: Call, ghost past: seq<Action>, ghost lb: Lb)
      returns (response: Option<Response>, tried: seq<string>, ghost schedule: seq<Action>, ghost after: Lb)
      requires InLoop(call, past, lb, attempt, retryable, attempted, Start)
      modifies checker`state, checker`consecutivePasses, checker`history, router, metrics
      ensures response.Some? ==> InLoop(call, schedule, after, attempt, retryable, tried, Done(response.value))
      ensures response.None? ==> Continued(call, schedule, after, attempt, retryable, tried)
      ensures tried == attempted || (|tried| == |attempted| + 1 && attempted <= tried)
      ensures response == if tried == attempted then (if response.Some? then Some(NoBackend) else None)
                          else if outcome.Some? then Some(Answered(outcome.value)) else None
    {
      var choice, admitted;
      tried := attempted;
      choice, schedule, after := NextBackend(probes, call, past, lb, attempt, retryable, attempted);
      if choice.None? {
        return Some(NoBackend), tried, schedule, after;
      }
      admitted, after := Admit(choice.value, attempted, schedule, after, |call.earlier|);
      schedule := schedule + [Decide(|call.earlier|)];
      if !admitted {
        return None, tried, schedule, after;
      }
      tried := attempted + [choice.value];
      response, schedule, after :=
        Forward(choice.value, outcome, probes, latencyMs, attempt, retryable, tried, call, schedule, after);
    }

    lemma TriesBounded(call: Call, past: seq<Action>, lb: Lb, attempt: nat, retryable: bool, attempted: seq<string>,
                       phase: Phase)
      requires InLoop(call, past, lb, attempt, retryable, attempted, phase)
      ensures attempted == [] || |attempted| <= Allowed(Settings(), retryable)
    {
      ReforwardSafety(Settings(), router.backendUrls, past, |call.earlier|);
    }

    /** The forwards of a call and their outcomes: forwards[i] is the attempt that made
        forward i, and all of them ended without a response, except the last one when the
        call was answered. */
    static ghost predicate Explains(forwards: seq<nat>, outcomes: nat -> Option<int>, response: Response) {
      && (forall i, j :: 0 <= i < j < |forwards| ==> forwards[i] < forwards[j])
      && (response.Answered? ==> forwards != [])
      && forall i :: 0 <= i < |forwards| ==>
           outcomes(forwards[i]) == if response.Answered? && i == |forwards| - 1 then Some(response.status) else None
    }

    /** The forwards of the attempts before `attempt`, none of which was answered. */
    static ghost predicate Unanswered(forwards: seq<nat>, attempt: nat, outcomes: nat -> Option<int>) {
      Explains(forwards, outcomes, BadGateway) && forall i :: 0 <= i < |forwards| ==> forwards[i] < attempt
    }

    static lemma OneMoreForward(forwards: seq<nat>, attempt: nat, outcomes: nat -> Option<int>)
      requires Unanswered(forwards, attempt, outcomes)
      ensures match outcomes(attempt)
              case None => Unanswered(forwards + [attempt], attempt + 1, outcomes)
              case Some(status) => Explains(forwards + [attempt], outcomes, Answered(status))
    {}

    static lemma NoForward(forwards: seq<nat>, attempt: nat, outcomes: nat -> Option<int>)
      requires Unanswered(forwards, attempt, outcomes)
      ensures Unanswered(forwards, attempt + 1, outcomes)
      ensures Explains(forwards, outcomes, NoBackend) && Explains(forwards, outcomes, BadGateway)
    {}

    /** One turn of the loop with its account of the forwards. */
    method CountedAttempt(attempt: nat, retryable: bool, attempted: seq<string>, outcomes: nat -> Option<int>,
                          probes: nat -> seq<ProbeResult>, latencyMs: real,
                          ghost call: Call, ghost past: seq<Action>, ghost lb: Lb, ghost forwards: seq<nat>)
      returns (response: Option<Response>, tried: seq<string>,
               ghost schedule: seq<Action>, ghost after: Lb, ghost done: seq<nat>)
      requires InLoop(call, past, lb, attempt, retryable, attempted, Start)
      requires |forwards| == |attempted| && Unanswered(forwards, attempt, outcomes)
      modifies checker`state, checker`consecutivePasses, checker`history, router, metrics
      ensures response.Some? ==> InLoop(call, schedule, after, attempt, retryable, tried, Done(response.value))
      ensures response.None? ==> Continued(call, schedule, after, attempt, retryable, tried)
      ensures |done| == |tried|
      ensures response.Some? ==> Explains(done, outcomes, response.value)
      ensures response.None? ==> Unanswered(done, attempt + 1, outcomes)
    {
      response, tried, schedule, after :=
        Attempt(attempt, retryable, attempted, outcomes(attempt), probes, latencyMs, call, past, lb);
      OneMoreForward(forwards, attempt, outcomes);
      NoForward(forwards, attempt, outcomes);
      done := if |tried| > |attempted| then forwards + [attempt] else forwards;
    }

    static lemma Decision(httpMethod: string, headers: seq<string>)
      ensures IsSafeToRetry(httpMethod, headers) <==>
        || SameButCase(httpMethod, "GET") || SameButCase(httpMethod, "PUT") || SameButCase(httpMethod, "DELETE")
        || SameButCase(httpMethod, "HEAD") || SameButCase(httpMethod, "OPTIONS")
        || exists h :: h in headers && SameButCase(h, "Idempotency-Key")
      ensures SameButCase(httpMethod, "POST") || SameButCase(httpMethod, "PATCH") ==>
        (exists h :: h in headers && SameButCase(h, "Idempotency-Key")) || !IsSafeToRetry(httpMethod, headers)
    {
      SafeToRetryIff(httpMethod, headers);
      if SameButCase(httpMethod, "POST") || SameButCase(httpMethod, "PATCH") { PostNeedsHeader(httpMethod, headers); }
    }

    /** `proxy`. outcomes(a) is how the forward of attempt a ends: the backend's status, or
        None when no response arrives; probes(a, p) are the results the health-check
        thread applies at point p of attempt a. The call is a run of the model: it goes on
        from the schedule so far, leaves the earlier requests alone and ends in a state
        whose last request has just these tries and this response, so every theorem about
        runs holds of it. Whether it may retry is decided by the method and the headers,
        letter by letter; a POST or a PATCH without the key header is forwarded once at most. */
    method Proxy(httpMethod: string, headers: seq<string>, outcomes: nat -> Option<int>,
                 probes: (nat, nat) -> seq<ProbeResult>, latency: nat -> real,
                 ghost past: seq<Action>, ghost before: Lb)
      returns (response: Response, attempted: seq<string>,
               ghost schedule: seq<Action>, ghost lb: Lb, ghost forwards: seq<nat>)
      requires Reached(past, before)
      modifies checker`state, checker`consecutivePasses, checker`history, router, metrics
      ensures exists attempt ::
        InLoop(Call(past, before.reqs), schedule, lb, attempt, IsSafeToRetry(httpMethod, headers), attempted,
          Done(response))
      ensures |attempted| <= 1 + (if IsSafeToRetry(httpMethod, headers) then maxRetries else 0) || attempted == []
      ensures IsSafeToRetry(httpMethod, headers) <==>
        || SameButCase(httpMethod, "GET") || SameButCase(httpMethod, "PUT") || SameButCase(httpMethod, "DELETE")
        || SameButCase(httpMethod, "HEAD") || SameButCase(httpMethod, "OPTIONS")
        || exists h :: h in headers && SameButCase(h, "Idempotency-Key")
      ensures SameButCase(httpMethod, "POST") || SameButCase(httpMethod, "PATCH") ==>
        (exists h :: h in headers && SameButCase(h, "Idempotency-Key")) || |forwards| <= 1
      ensures |forwards| == |attempted| && Explains(forwards, outcomes, response)
    {
      var retryable := IsSafeToRetry(httpMethod, headers);
      Decision(httpMethod, headers);
      attempted, response, forwards := [], BadGateway, [];
      var attemptsAllowed := 1 + (if retryable then maxRetries else 0);
      var attempt: nat := 0;
      ghost var call, last := Call(past, before.reqs), 0;
      lb := Enter(retryable, past, before);
      schedule := past + [Arrive(retryable)];
      while attempt < attemptsAllowed
        invariant attempt < attemptsAllowed ==> InLoop(call, schedule, lb, attempt, retryable, attempted, Start)
        invariant attempt >= attemptsAllowed ==>
          InLoop(call, schedule, lb, last, retryable, attempted, Done(BadGateway))
        invariant |forwards| == |attempted| && Unanswered(forwards, attempt, outcomes)
        invariant response == BadGateway
      {
        var answer;
        answer, attempted, schedule, lb, forwards :=
          CountedAttempt(attempt, retryable, attempted, outcomes, (p: nat) => probes(attempt, p), latency(attempt),
                call, schedule, lb, forwards);
        last := attempt;
        if answer.Some? {
          response := answer.value;
          break;
        }
        attempt := attempt + 1;
      }
      assert InLoop(call, schedule, lb, last, retryable, attempted, Done(response));
      TriesBounded(call, schedule, lb, last, retryable, attempted, Done(response));
    }
  }
}
