/** POST /telemetry on one ingestion instance (ingestion/routes.py:69-140), one request at
    a time. Between the cache lookup and the cache entry the handler awaits validation and
    the queue, and other handlers run: modules Delivery and Idempotency take it apart. */
module Ingestion {
  import opened Common
  import opened Telemetry
  import opened Processor

  datatype IngestResponse = Accepted(accepted: nat, ingestionIds: seq<string>) | Unprocessable

  function IdsOf(events: seq<TelemetryEvent>): (ids: seq<string>)
    ensures |ids| == |events| && forall i :: 0 <= i < |ids| ==> ids[i] == events[i].ingestionId
  {
    seq(|events|, i requires 0 <= i < |events| => events[i].ingestionId)
  }

  /** An absent or empty header is no key. */
  predicate Keyed(key: Option<string>) {
    key.Some? && key.value != ""
  }

  /** What a request does: the response, the cache afterwards, the jobs enqueued. */
  datatype Effect = Effect(response: IngestResponse, cache: map<string, IngestResponse>, enqueued: seq<Payload>)

  function Post(cache: map<string, IngestResponse>, key: Option<string>, body: Payload): Effect {
    if Keyed(key) && key.value in cache then Effect(cache[key.value], cache, [])
    else
      match body
      case Invalid => Effect(Unprocessable, cache, [])
      case Valid(events) =>
        var r := Accepted(|events|, IdsOf(events));
        Effect(r, if Keyed(key) then cache[key.value := r] else cache, [body])
  }

  /** What a caller gets and what it leaves behind. A response the instance holds for the key
      is repeated and nothing happens. Otherwise an invalid body is refused without a trace;
      a valid one is accepted with the number and the ids of its events, in order, enqueued
      as it is, and the response kept if the request carries a key. */
  lemma PostAnswers(cache: map<string, IngestResponse>, key: Option<string>, body: Payload)
    ensures var e := Post(cache, key, body);
      if key.Some? && key.value != "" && key.value in cache then
        e.response == cache[key.value] && e.cache == cache && e.enqueued == []
      else if body.Invalid? then
        e.response == Unprocessable && e.cache == cache && e.enqueued == []
      else
        && e.enqueued == [body]
        && e.response.Accepted? && e.response.accepted == |e.response.ingestionIds| == |body.events|
        && (forall i :: 0 <= i < |body.events| ==> e.response.ingestionIds[i] == body.events[i].ingestionId)
        && e.cache == if key.Some? && key.value != "" then cache[key.value := e.response] else cache
  {}

  /** The queue in Redis, shared by all instances. */
  class JobQueue {
    var jobs: seq<Payload>

    constructor ()
      ensures jobs == []
    {
      jobs := [];
    }
  }

  class Instance {
    const queue: JobQueue
    var idempotencyCache: map<string, IngestResponse>

    constructor (queue: JobQueue)
      ensures this.queue == queue && idempotencyCache == map[]
    {
      this.queue := queue;
      idempotencyCache := map[];
    }

    method PostTelemetry(key: Option<string>, body: Payload) returns (response: IngestResponse)
      modifies this, queue
      ensures var e := Post(old(idempotencyCache), key, body);
        response == e.response && idempotencyCache == e.cache && queue.jobs == old(queue.jobs) + e.enqueued
    {
      if key.Some? && key.value != "" {
        if key.value in idempotencyCache {
          return idempotencyCache[key.value];
        }
      }
      if body.Invalid? {
        return Unprocessable;
      }
      queue.jobs := queue.jobs + [body];
      response := Accepted(|body.events|, IdsOf(body.events));
      if key.Some? && key.value != "" {
        idempotencyCache := idempotencyCache[key.value := response];
      }
    }
  }

  /** The cache after a sequence of requests, handled one at a time. */
  function After(cache: map<string, IngestResponse>, requests: seq<(Option<string>, Payload)>): map<string,
                 IngestResponse>
    decreases requests
  {
    if requests == [] then cache
    else After(Post(cache, requests[0].0, requests[0].1).cache, requests[1..])
  }

  /** The jobs that the requests with this key enqueue among them. */
  function JobsFor(cache: map<string, IngestResponse>, requests: seq<(Option<string>, Payload)>, key: string): nat
    decreases requests
  {
    if requests == [] then 0
    else
      var e := Post(cache, requests[0].0, requests[0].1);
      (if requests[0].0 == Some(key) then |e.enqueued| else 0) + JobsFor(e.cache, requests[1..], key)
  }

  ghost predicate ValidFor(requests: seq<(Option<string>, Payload)>, key: string) {
    exists q :: q in requests && q.0 == Some(key) && q.1.Valid?
  }

  /** Requests handled one at a time: those with one key enqueue one job among them if the
      key is new and any of them is valid, and none otherwise. Overlapping requests are the
      subject of module Idempotency. */
  lemma {:induction false} OneJobPerKey(cache: map<string, IngestResponse>, requests: seq<(Option<string>, Payload)>,
                                        key: string)
    requires key != ""
    ensures JobsFor(cache, requests, key) == if key !in cache && ValidFor(requests, key) then 1 else 0
    decreases requests
  {
    if requests != [] {
      var q, rest := requests[0], requests[1..];
      assert requests == [q] + rest;
      assert ValidFor(requests, key) <==> (q.0 == Some(key) && q.1.Valid?) || ValidFor(rest, key);
      OneJobPerKey(Post(cache, q.0, q.1).cache, rest, key);
    }
  }

  /** A keyed request handled again, after the first was finished, is answered as before
      and enqueues nothing more, whatever requests were handled in between. If the key was
      new the answer gives the number and the ids of its events, and the first enqueued it. */
  lemma {:induction false} RepeatOnSameInstance(cache: map<string, IngestResponse>, key: string, body: Payload,
                                                between: seq<(Option<string>, Payload)>)
    requires key != "" && body.Valid?
    ensures var first := Post(cache, Some(key), body);
      var again := Post(After(first.cache, between), Some(key), body);
      && again.enqueued == [] && again.response == first.response
      && (key !in cache ==>
            && first.enqueued == [body]
            && again.response.Accepted? && again.response.accepted == |again.response.ingestionIds| == |body.events|
            && forall i :: 0 <= i < |body.events| ==> again.response.ingestionIds[i] == body.events[i].ingestionId)
  {
    CacheKeeps(Post(cache, Some(key), body).cache, key, between);
  }

  lemma {:induction false} CacheKeeps(cache: map<string, IngestResponse>, key: string, requests: seq<(Option<string>,
                                      Payload)>)
    requires key in cache
    ensures key in After(cache, requests) && After(cache, requests)[key] == cache[key]
    decreases requests
  {
    if requests != [] {
      CacheKeeps(Post(cache, requests[0].0, requests[0].1).cache, key, requests[1..]);
    }
  }
}
