/** What the per-instance cache of ingestion/routes.py does and does not prevent, when
    handlers of one request overlap. */
module Idempotency {
  import opened Common
  import opened Processor
  import opened Delivery
  import H = Health
  import I = Ingestion
  import R = Router
  import S = Store

  // ----- runs -----

  lemma {:induction false} RunAppend(cfg: Config, w: World, s: seq<Action>, mid: World, t: seq<Action>)
    requires Run(cfg, w, s) == Some(mid)
    ensures Run(cfg, w, s + t) == Run(cfg, mid, t)
    decreases s
  {
    if s == [] {
      assert s + t == t;
    } else {
      assert (s + t)[1..] == s[1..] + t;
      RunAppend(cfg, Step(cfg, w, s[0]).value, s[1..], mid, t);
    }
  }

  lemma RunOne(cfg: Config, w: World, a: Action)
    ensures Run(cfg, w, [a]) == Step(cfg, w, a)
  {
    assert [a][1..] == [];
  }

  lemma RunTwo(cfg: Config, w: World, a: Action, b: Action)
    requires Step(cfg, w, a).Some?
    ensures Run(cfg, w, [a, b]) == Step(cfg, Step(cfg, w, a).value, b)
  {
    RunOne(cfg, Step(cfg, w, a).value, b);
    assert [a, b][1..] == [b];
  }

  /** No step changes which request and which instance a handler serves, nor whether a
      request is keyed. */
  ghost predicate SameHandlers(w: World, next: World) {
    && |w.handlers| <= |next.handlers|
    && (forall h :: 0 <= h < |w.handlers| ==> Serves(next.handlers[h], w.handlers[h].req, w.handlers[h].url))
  }

  predicate Serves(x: Handler, r: nat, url: string) {
    x.req == r && x.url == url
  }

  ghost predicate SameKeys(w: World, next: World) {
    w.headers <= next.headers
  }

  lemma StepKeepsHandlers(cfg: Config, w: World, a: Action)
    requires Step(cfg, w, a).Some?
    ensures SameHandlers(w, Step(cfg, w, a).value)
  {}

  lemma StepKeepsKeys(cfg: Config, w: World, a: Action)
    requires Step(cfg, w, a).Some?
    ensures SameKeys(w, Step(cfg, w, a).value)
  {}

  lemma {:induction false} RunKeepsHandlers(cfg: Config, w: World, s: seq<Action>)
    requires Run(cfg, w, s).Some?
    ensures SameHandlers(w, Run(cfg, w, s).value) && SameKeys(w, Run(cfg, w, s).value)
    decreases s
  {
    if s != [] {
      StepKeepsHandlers(cfg, w, s[0]);
      StepKeepsKeys(cfg, w, s[0]);
      RunKeepsHandlers(cfg, Step(cfg, w, s[0]).value, s[1..]);
    }
  }

  /** The endpoint takes a request to be keyed exactly if the header is there with a value. */
  lemma KeyedIff(fields: seq<(string, string)>)
    ensures I.Keyed(HeaderValue(fields)) <==> HeaderOf(fields).KeyHeader?
  {}

  // ----- what the cache knows -----

  /** In the schedule a handler of request r on the instance stored its response, and the
      instance has not restarted since. */
  ghost predicate KeptSince(handlers: seq<Handler>, s: seq<Action>, r: nat, url: string) {
    exists i :: 0 <= i < |s| && KeepOf(handlers, s[i], r, url) && NoRestart(s[i..], url)
  }

  predicate KeepOf(handlers: seq<Handler>, a: Action, r: nat, url: string) {
    a.Keep? && a.h < |handlers| && Serves(handlers[a.h], r, url)
  }

  ghost predicate NoRestart(s: seq<Action>, url: string) {
    forall a :: a in s ==> a != Restart(url)
  }

  /** Either the schedule stores it, or it was stored before and survives. */
  ghost predicate CachedAfter(handlers: seq<Handler>, s: seq<Action>, r: nat, url: string, before: bool) {
    KeptSince(handlers, s, r, url) || (before && NoRestart(s, url))
  }

  lemma KeptSinceCons(handlers: seq<Handler>, a: Action, rest: seq<Action>, r: nat, url: string)
    ensures KeptSince(handlers, [a] + rest, r, url) <==>
      KeptSince(handlers, rest, r, url) || (KeepOf(handlers, a, r, url) && NoRestart(rest, url))
  {
    var s := [a] + rest;
    if i :| 0 <= i < |s| && KeepOf(handlers, s[i], r, url) && NoRestart(s[i..], url) {
      if i == 0 {
        forall x | x in rest ensures x != Restart(url) { assert x in s[0..]; }
      } else {
        assert s[i..] == rest[i - 1..] && KeepOf(handlers, rest[i - 1], r, url);
      }
    }
    if i :| 0 <= i < |rest| && KeepOf(handlers, rest[i], r, url) && NoRestart(rest[i..], url) {
      assert s[i + 1..] == rest[i..] && KeepOf(handlers, s[i + 1], r, url);
    }
    if KeepOf(handlers, a, r, url) && NoRestart(rest, url) {
      assert s[0..] == s && KeepOf(handlers, s[0], r, url);
    }
  }

  lemma NoRestartCons(a: Action, rest: seq<Action>, url: string)
    ensures NoRestart([a] + rest, url) <==> a != Restart(url) && NoRestart(rest, url)
  {
    if NoRestart([a] + rest, url) {
      assert a in [a] + rest;
      forall x | x in rest ensures x != Restart(url) { assert x in [a] + rest; }
    }
  }

  /** One step and the cache entry of a request. */
  lemma StepCaches(cfg: Config, w: World, a: Action, r: nat, url: string)
    requires Step(cfg, w, a).Some? && url in w.caches && (r < |w.headers| ==> Keyed(w, r))
    ensures var next := Step(cfg, w, a).value;
      && url in next.caches
      && (r in next.caches[url] <==>
            KeepOf(w.handlers, a, r, url) || (r in w.caches[url] && a != Restart(url)))
  {}

  /** A step that keeps a response belongs to a handler already there. */
  lemma KeepIsKnown(cfg: Config, w: World, a: Action, handlers: seq<Handler>, r: nat, url: string)
    requires Step(cfg, w, a).Some? && |w.handlers| <= |handlers|
    requires forall h :: 0 <= h < |w.handlers| ==> Serves(handlers[h], w.handlers[h].req, w.handlers[h].url)
    ensures KeepOf(handlers, a, r, url) <==> KeepOf(w.handlers, a, r, url)
  {}

  /** The cache of an instance holds a keyed request exactly when the schedule says so. */
  lemma {:induction false} CacheIff(cfg: Config, w: World, s: seq<Action>, end: World, r: nat, url: string)
    requires Run(cfg, w, s) == Some(end) && url in w.caches
    requires Keyed(end, r)
    ensures url in end.caches
    ensures r in end.caches[url] <==> CachedAfter(end.handlers, s, r, url, r in w.caches[url])
    decreases s
  {
    RunKeepsHandlers(cfg, w, s);
    if s != [] {
      var a, rest := s[0], s[1..];
      var next := Step(cfg, w, a).value;
      StepCaches(cfg, w, a, r, url);
      CacheIff(cfg, next, rest, end, r, url);
      KeepIsKnown(cfg, w, a, end.handlers, r, url);
      assert s == [a] + rest;
      KeptSinceCons(end.handlers, a, rest, r, url);
      NoRestartCons(a, rest, url);
    }
  }

  /** Which handlers find the response: in every run, exactly those of a keyed request that
      look after another handler of it on their instance stored it, with no restart of the
      instance in between. Without the header, or with an empty one, none does. */
  lemma LookFindsIff(cfg: Config, urls: seq<string>, base: S.Table, before: seq<Action>, w: World, h: nat)
    requires Run(cfg, Initial(urls, base), before) == Some(w) && LookStep(w, h).Some?
    ensures LookStep(w, h).value.handlers[h].stage ==
      if Answerable(w, before, h) then Finished(200) else Missed
  {
    if Keyed(w, w.handlers[h].req) {
      KnownUrls(cfg, Initial(urls, base), before);
      CacheIff(cfg, Initial(urls, base), before, w, w.handlers[h].req, w.handlers[h].url);
    }
  }

  /** Handler h serves a keyed request whose response its instance has kept. */
  ghost predicate Answerable(w: World, before: seq<Action>, h: nat)
    requires h < |w.handlers|
  {
    Keyed(w, w.handlers[h].req) && KeptSince(w.handlers, before, w.handlers[h].req, w.handlers[h].url)
  }

  lemma {:induction false} KnownUrls(cfg: Config, w: World, s: seq<Action>)
    requires Run(cfg, w, s).Some?
    ensures Run(cfg, w, s).value.caches.Keys == w.caches.Keys
    decreases s
  {
    if s != [] { KnownUrls(cfg, Step(cfg, w, s[0]).value, s[1..]); }
  }

  /** Answered, refused, failed or dead without having enqueued: it never will. */
  predicate Silent(x: Handler) {
    !x.pushed && !x.stage.Arrived? && !x.stage.Missed?
  }

  lemma {:induction false} SilentStays(cfg: Config, w: World, s: seq<Action>, h: nat)
    requires h < |w.handlers| && Silent(w.handlers[h]) && Run(cfg, w, s).Some?
    ensures h < |Run(cfg, w, s).value.handlers| && Silent(Run(cfg, w, s).value.handlers[h])
    decreases s
  {
    if s != [] { SilentStays(cfg, Step(cfg, w, s[0]).value, s[1..], h); }
  }

  lemma LookedSilent(w: World, h: nat)
    requires LookStep(w, h).Some? && !w.handlers[h].pushed
    ensures LookStep(w, h).value.handlers[h].stage.Finished? ==> Silent(LookStep(w, h).value.handlers[h])
    ensures LookStep(w, h).value.handlers[h].stage.Missed? ==> At(LookStep(w, h).value, h, Missed)
  {}

  /** Whatever happens from here on, handler h enqueues nothing. */
  ghost predicate NeverEnqueues(cfg: Config, w: World, h: nat) {
    forall after :: Run(cfg, w, after).Some? ==>
      h < |Run(cfg, w, after).value.handlers| && !Run(cfg, w, after).value.handlers[h].pushed
  }

  lemma SilentNeverEnqueues(cfg: Config, w: World, h: nat)
    requires h < |w.handlers| && Silent(w.handlers[h])
    ensures NeverEnqueues(cfg, w, h)
  {
    forall after | Run(cfg, w, after).Some?
      ensures h < |Run(cfg, w, after).value.handlers| && !Run(cfg, w, after).value.handlers[h].pushed
    {
      SilentStays(cfg, w, after, h);
    }
  }

  lemma MissedMayEnqueue(cfg: Config, w: World, h: nat)
    requires At(w, h, Missed) && w.clients[w.handlers[h].req].Valid?
    ensures !NeverEnqueues(cfg, w, h)
  {
    RunOne(cfg, w, Push(h));
    assert Run(cfg, w, [Push(h)]).value.handlers[h].pushed;
  }

  /** When a repeat of a request on one instance enqueues a second job, exactly. If it is
      keyed and looks after an earlier handler stored its response, and the instance has not
      restarted since, it is answered and enqueues nothing, ever. If it looks sooner, as a
      retry does while the first handler is still enqueueing, or the header was empty, a
      valid batch can be enqueued again. */
  lemma RepeatEnqueuesIff(cfg: Config, urls: seq<string>, base: S.Table, before: seq<Action>, w: World, h: nat)
    requires Run(cfg, Initial(urls, base), before) == Some(w) && LookStep(w, h).Some?
    requires w.clients[w.handlers[h].req].Valid?
    ensures NeverEnqueues(cfg, LookStep(w, h).value, h) <==> Answerable(w, before, h)
  {
    LookFindsIff(cfg, urls, base, before, w, h);
    ReachableInv(cfg, urls, base, before);
    assert HandlerOk(w, w.handlers[h]);
    LookedSilent(w, h);
    if LookStep(w, h).value.handlers[h].stage.Finished? {
      SilentNeverEnqueues(cfg, LookStep(w, h).value, h);
    } else {
      MissedMayEnqueue(cfg, LookStep(w, h).value, h);
    }
  }

  // ----- two handlers at once -----

  /** Two handlers of one request that look before either stores: two jobs. */
  lemma OverlapEnqueuesTwice(cfg: Config, w: World, h: nat, k: nat)
    requires h != k && At(w, h, Arrived) && At(w, k, Arrived)
    requires w.handlers[h].req == w.handlers[k].req && w.handlers[h].url == w.handlers[k].url
    requires w.handlers[h].url in w.caches && w.handlers[h].req !in w.caches[w.handlers[h].url]
    requires w.clients[w.handlers[h].req].Valid?
    ensures var r := w.handlers[h].req;
      && Run(cfg, w, [Look(h), Look(k)] + [Push(h), Push(k)]).Some?
      && Run(cfg, w, [Look(h), Look(k)] + [Push(h), Push(k)]).value.origins == w.origins + [r, r]
      && |Run(cfg, w, [Look(h), Look(k)] + [Push(h), Push(k)]).value.handlers| == |w.handlers|
  {
    var one := LookStep(w, h).value;
    var two := LookStep(one, k).value;
    RunTwo(cfg, w, Look(h), Look(k));
    RunAppend(cfg, w, [Look(h), Look(k)], two, [Push(h), Push(k)]);
    RunTwo(cfg, two, Push(h), Push(k));
    var r := w.handlers[h].req;
    assert (w.origins + [r]) + [r] == w.origins + [r, r];
  }

  /** The balancer before an attempt of request 0 on the only backend, which is healthy. */
  predicate Ready(cfg: Config, w: World, url: string) {
    && w.lb.rot == [url] && |w.lb.reqs| == 1 && w.lb.reqs[0].phase.Start?
    && H.HealthySet(w.lb.history, cfg.lb.recoveriesRequired) == {url}
    && (url in B.Urls(w.lb.reqs[0]) ==> |w.lb.reqs[0].tries| >= 1)
  }

  lemma SelectOnly(url: string)
    ensures R.Select([url], {url}) == (Some(url), [url])
  {
    assert R.Offset([url], {url}) == 0;
    assert [url][1..] + [url][..1] == [url];
  }

  /** An attempt: snapshot, cursor, guard; a handler starts on the instance. */
  lemma ForwardOnce(cfg: Config, w: World, url: string) returns (next: World)
    requires Ready(cfg, w, url)
    ensures Run(cfg, w, ForwardSteps()) == Some(next)
    ensures next.handlers == w.handlers + [Handler(0, url, Arrived, false)]
    ensures next == w.(lb := next.lb, handlers := next.handlers)
    ensures next.lb.history == w.lb.history && next.lb.rot == [url] && |next.lb.reqs| == 1
    ensures var q, p := w.lb.reqs[0], next.lb.reqs[0];
      && p == q.(phase := B.Forwarding(url), tries := p.tries)
      && |p.tries| == |q.tries| + 1 && p.tries[|q.tries|].url == url
  {
    SelectOnly(url);
    var one := BalanceStep(cfg, w, B.Snapshot(0)).value;
    var two := BalanceStep(cfg, one, B.Route(0)).value;
    RunTwo(cfg, w, Balance(B.Snapshot(0)), Balance(B.Route(0)));
    RunAppend(cfg, w, [Balance(B.Snapshot(0)), Balance(B.Route(0))], two, [Balance(B.Decide(0))]);
    RunOne(cfg, two, Balance(B.Decide(0)));
    next := BalanceStep(cfg, two, B.Decide(0)).value;
  }

  const ONE_RETRY := B.Config(2, 1)

  predicate OneBackend(history: map<string, seq<H.Event>>, url: string, events: seq<H.Event>) {
    history.Keys == {url} && history[url] == events
  }

  /** The forward times out and the backend is marked down. */
  lemma Break(maxTries: nat, w: World, url: string) returns (next: World)
    requires OneBackend(w.lb.history, url, []) && w.lb.rot == [url] && |w.lb.reqs| == 1
    requires w.lb.reqs[0].phase == B.Forwarding(url) && w.lb.reqs[0].retryable && w.lb.reqs[0].attempt == 0
    requires |w.lb.reqs[0].tries| == 1
    ensures Run(Config(ONE_RETRY, maxTries), w, [Balance(B.Break(0)), Balance(B.RecordBreak(0))]) == Some(next)
    ensures next == w.(lb := next.lb) && next.lb.rot == [url] && OneBackend(next.lb.history, url, [H.Fail])
    ensures |next.lb.reqs| == 1 && next.lb.reqs[0].phase.Start? && next.lb.reqs[0].retryable &&
      |next.lb.reqs[0].tries| == 1
  {
    var cfg := Config(ONE_RETRY, maxTries);
    var one := BalanceStep(cfg, w, B.Break(0)).value;
    assert OneBackend(one.lb.history, url, [H.Fail]);
    next := BalanceStep(cfg, one, B.RecordBreak(0)).value;
    RunTwo(cfg, w, Balance(B.Break(0)), Balance(B.RecordBreak(0)));
  }

  /** It passes two probes. */
  lemma Recover(cfg: Config, w: World, url: string) returns (next: World)
    requires OneBackend(w.lb.history, url, [H.Fail])
    ensures Run(cfg, w, [Balance(B.Probe(url, true)), Balance(B.Probe(url, true))]) == Some(next)
    ensures next == w.(lb := next.lb) && next.lb == w.lb.(history := next.lb.history)
    ensures OneBackend(next.lb.history, url, [H.Fail, H.Pass, H.Pass])
  {
    var one := BalanceStep(cfg, w, B.Probe(url, true)).value;
    assert OneBackend(one.lb.history, url, [H.Fail, H.Pass]);
    next := BalanceStep(cfg, one, B.Probe(url, true)).value;
    RunTwo(cfg, w, Balance(B.Probe(url, true)), Balance(B.Probe(url, true)));
  }

  function ForwardSteps(): seq<Action> {
    [Balance(B.Snapshot(0)), Balance(B.Route(0))] + [Balance(B.Decide(0))]
  }

  function TimeOutSteps(url: string): seq<Action> {
    [Balance(B.Break(0)), Balance(B.RecordBreak(0))] + [Balance(B.Probe(url, true)), Balance(B.Probe(url, true))]
  }

  lemma OnlyHealthy(history: map<string, seq<H.Event>>, url: string, events: seq<H.Event>)
    requires OneBackend(history, url, events) && H.Replay(events, 2).state == H.HEALTHY
    ensures H.HealthySet(history, 2) == {url}
  {}

  lemma TwicePassedHealthy()
    ensures H.Replay([H.Fail, H.Pass, H.Pass], 2).state == H.HEALTHY
  {
    var h := [H.Fail, H.Pass, H.Pass];
    assert h[..2] == [H.Fail, H.Pass] && h[..2][..1] == [H.Fail];
  }

  /** One client with the header, one instance, one retry: the first forward times out while
      its handler is still running, the instance passes the probes it needs, and the retry
      reaches it. */
  lemma BothArrive(maxTries: nat, url: string, base: S.Table, p: Payload, header: Header)
    returns (schedule: seq<Action>, w: World)
    requires !header.NoHeader?
    ensures Run(Config(ONE_RETRY, maxTries), Initial([url], base), schedule) == Some(w)
    ensures w.handlers == [Handler(0, url, Arrived, false), Handler(0, url, Arrived, false)]
    ensures w.clients == [p] && w.headers == [header] && |w.lb.reqs| == 1
    ensures w.caches == map[url := {}] && w.origins == []
  {
    var cfg, start := Config(ONE_RETRY, maxTries), Initial([url], base);
    assert start.caches == map[url := {}];
    var zero := Step(cfg, start, Submit(p, header)).value;
    OnlyHealthy(zero.lb.history, url, []);
    RunOne(cfg, start, Submit(p, header));
    var one := ForwardOnce(cfg, zero, url);
    var down := Break(maxTries, one, url);
    var two := Recover(cfg, down, url);
    RunAppend(cfg, one, [Balance(B.Break(0)), Balance(B.RecordBreak(0))], down,
              [Balance(B.Probe(url, true)), Balance(B.Probe(url, true))]);
    TwicePassedHealthy();
    OnlyHealthy(two.lb.history, url, [H.Fail, H.Pass, H.Pass]);
    w := ForwardOnce(cfg, two, url);
    schedule := FourLegs(cfg, start, [Submit(p, header)], zero, ForwardSteps(), one, TimeOutSteps(url), two,
      ForwardSteps(), w);
  }

  lemma FourLegs(cfg: Config, w: World, a: seq<Action>, w1: World, b: seq<Action>, w2: World,
                 c: seq<Action>, w3: World, d: seq<Action>, w4: World) returns (s: seq<Action>)
    requires Run(cfg, w, a) == Some(w1) && Run(cfg, w1, b) == Some(w2)
    requires Run(cfg, w2, c) == Some(w3) && Run(cfg, w3, d) == Some(w4)
    ensures Run(cfg, w, s) == Some(w4)
  {
    RunAppend(cfg, w2, c, w3, d);
    RunAppend(cfg, w1, b, w2, c + d);
    RunAppend(cfg, w, a, w1, b + (c + d));
    s := a + (b + (c + d));
  }

  /** It happens, with a key or an empty header: neither handler has stored its response
      when the other looks, and both enqueue the batch. With a single instance the run needs
      two passing probes between the mark and the retry's snapshot; with a second instance
      it would need none, and no cache in common either. */
  lemma OverlapReachable(maxTries: nat, url: string, base: S.Table, p: Payload, header: Header)
    returns (schedule: seq<Action>)
    requires p.Valid? && !header.NoHeader?
    ensures Run(Config(ONE_RETRY, maxTries), Initial([url], base), schedule).Some?
    ensures var w := Run(Config(ONE_RETRY, maxTries), Initial([url], base), schedule).value;
      && w.origins == [0, 0]
      && |w.handlers| == 2 && Serves(w.handlers[0], 0, url) && Serves(w.handlers[1], 0, url)
      && |w.headers| >= 1 && w.headers[0] == header
  {
    var cfg := Config(ONE_RETRY, maxTries);
    var before, w := BothArrive(maxTries, url, base, p, header);
    var overlap := [Look(0), Look(1)] + [Push(0), Push(1)];
    OverlapEnqueuesTwice(cfg, w, 0, 1);
    RunAppend(cfg, Initial([url], base), before, w, overlap);
    RunKeepsHandlers(cfg, w, overlap);
    schedule := before + overlap;
  }

  // ----- an undisturbed handler -----

  /** The instance's dictionary as the machine keeps it: the requests whose key it holds,
      each with a stored acceptance. Each client request has a key of its own. */
  ghost predicate Represents(cache: map<string, I.IngestResponse>, cached: set<nat>, clients: seq<Payload>,
                             keyOf: nat -> string) {
    forall r :: 0 <= r < |clients| ==>
      && (keyOf(r) in cache <==> r in cached)
      && (keyOf(r) in cache ==> cache[keyOf(r)].Accepted?)
  }

  ghost predicate OwnKeys(clients: seq<Payload>, keyOf: nat -> string) {
    && (forall r :: 0 <= r < |clients| ==> keyOf(r) != "")
    && (forall r, q :: 0 <= r < q < |clients| ==> keyOf(r) != keyOf(q))
  }

  /** The steps of handler h alone. */
  predicate OnlySteps(s: seq<Action>, h: nat) {
    s == [Look(h)] || s == [Look(h), Refuse(h)] || s == [Look(h), Push(h)] + [Keep(h)]
  }

  lemma ThreeSteps(cfg: Config, w: World, h: nat, one: World, two: World, next: World)
    requires Step(cfg, w, Look(h)) == Some(one) && Step(cfg, one, Push(h)) == Some(two) &&
      Step(cfg, two, Keep(h)) == Some(next)
    ensures Run(cfg, w, [Look(h), Push(h)] + [Keep(h)]) == Some(next)
  {
    RunTwo(cfg, w, Look(h), Push(h));
    RunAppend(cfg, w, [Look(h), Push(h)], two, [Keep(h)]);
    RunOne(cfg, two, Keep(h));
  }

  /** The header's value, if the request came with it. */
  function KeyOf(w: World, r: nat, keyOf: nat -> string): Option<string> {
    if r >= |w.headers| then None
    else
      match w.headers[r]
      case NoHeader => None
      case EmptyHeader => Some("")
      case KeyHeader => Some(keyOf(r))
  }

  /** What a handler that nothing disturbs does to its instance and to the queue is what
      `post_telemetry` does in one piece. */
  ghost predicate ActsAsPost(w: World, h: nat, next: World, cache: map<string, I.IngestResponse>, keyOf: nat -> string)
    requires h < |w.handlers| && w.handlers[h].req < |w.clients|
  {
    var r, url := w.handlers[h].req, w.handlers[h].url;
    var e := I.Post(cache, KeyOf(w, r, keyOf), w.clients[r]);
    && h < |next.handlers| && next.handlers[h].stage == Finished(if e.response.Accepted? then 200 else 422)
    && url in next.caches && Represents(e.cache, next.caches[url], w.clients, keyOf)
    && (forall u :: u in w.caches && u != url ==> u in next.caches && next.caches[u] == w.caches[u])
    && next.sys.db == w.sys.db
    && next.sys.jobs
      == w.sys.jobs + seq(|e.enqueued|, i requires 0 <= i < |e.enqueued| => J.Job(e.enqueued[i], 0, J.Queued))
  }

  /** The whole way of a handler that finds no response and a valid body. */
  lemma EnqueuesAsPost(cfg: Config, w: World, h: nat, cache: map<string, I.IngestResponse>, keyOf: nat -> string)
    returns (next: World)
    requires At(w, h, Arrived) && w.handlers[h].url in w.caches && w.clients[w.handlers[h].req].Valid?
    requires OwnKeys(w.clients, keyOf) && Represents(cache, w.caches[w.handlers[h].url], w.clients, keyOf)
    requires LookStep(w, h).value.handlers[h].stage.Missed?
    ensures Run(cfg, w, [Look(h), Push(h)] + [Keep(h)]) == Some(next)
    ensures ActsAsPost(w, h, next, cache, keyOf)
  {
    var one := LookStep(w, h).value;
    var two := PushStep(cfg, one, h).value;
    next := KeepStep(two, h).value;
    ThreeSteps(cfg, w, h, one, two, next);
  }

  /** A handler that finds the response, or refuses the body. */
  lemma AnswersAsPost(cfg: Config, w: World, h: nat, cache: map<string, I.IngestResponse>, keyOf: nat -> string)
    returns (s: seq<Action>, next: World)
    requires At(w, h, Arrived) && w.handlers[h].url in w.caches
    requires OwnKeys(w.clients, keyOf) && Represents(cache, w.caches[w.handlers[h].url], w.clients, keyOf)
    requires LookStep(w, h).value.handlers[h].stage.Finished? || w.clients[w.handlers[h].req].Invalid?
    ensures OnlySteps(s, h) && Run(cfg, w, s) == Some(next)
    ensures ActsAsPost(w, h, next, cache, keyOf)
  {
    var one := LookStep(w, h).value;
    RunOne(cfg, w, Look(h));
    if one.handlers[h].stage.Finished? {
      s, next := [Look(h)], one;
    } else {
      next := RefuseStep(one, h).value;
      RunTwo(cfg, w, Look(h), Refuse(h));
      s := [Look(h), Refuse(h)];
    }
  }

  /** The interleaved handler refines the one-piece one: run without interruption, it
      changes its instance's dictionary, answers and enqueues as `Post` does. */
  lemma HandlerIsPost(cfg: Config, w: World, h: nat, cache: map<string, I.IngestResponse>, keyOf: nat -> string)
    returns (s: seq<Action>, next: World)
    requires At(w, h, Arrived) && w.handlers[h].url in w.caches
    requires OwnKeys(w.clients, keyOf) && Represents(cache, w.caches[w.handlers[h].url], w.clients, keyOf)
    ensures OnlySteps(s, h) && Run(cfg, w, s) == Some(next)
    ensures ActsAsPost(w, h, next, cache, keyOf)
  {
    if LookStep(w, h).value.handlers[h].stage.Finished? || w.clients[w.handlers[h].req].Invalid? {
      s, next := AnswersAsPost(cfg, w, h, cache, keyOf);
    } else {
      s := [Look(h), Push(h)] + [Keep(h)];
      next := EnqueuesAsPost(cfg, w, h, cache, keyOf);
    }
  }
}
