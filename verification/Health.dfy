/** The three-state health automaton (load_balancer/health.py). */
module Health {
  import M = Metrics

  datatype BackendState = HEALTHY | UNHEALTHY | RECOVERING

  /** A probe result applied under the lock, or a failed forward: `mark_unhealthy` and a
      failed probe act alike. */
  datatype Event = Pass | Fail

  /** A backend's entries in `_state` and `_consecutive_passes`. */
  datatype Status = Status(state: BackendState, passes: int)

  /** One event, branch by branch. */
  function Next(s: Status, e: Event, recoveriesRequired: int): Status {
    match e
    case Pass =>
      (match s.state
       case HEALTHY => s
       case UNHEALTHY => Status(RECOVERING, 1)
       case RECOVERING =>
         if s.passes + 1 >= recoveriesRequired then Status(HEALTHY, 0) else Status(RECOVERING, s.passes + 1))
    case Fail => Status(UNHEALTHY, 0)
  }

  lemma ReplayPush(history: seq<Event>, e: Event, recoveriesRequired: int)
    ensures Replay(history + [e], recoveriesRequired)
      == Next(Replay(history, recoveriesRequired), e, recoveriesRequired)
  {
    assert (history + [e])[..|history|] == history;
  }

  const START := Status(HEALTHY, 0)

  function Replay(history: seq<Event>, recoveriesRequired: int): Status {
    if history == [] then START
    else Next(Replay(history[..|history| - 1], recoveriesRequired), history[|history| - 1], recoveriesRequired)
  }

  /** Passes since the last failure. */
  function TrailingPasses(history: seq<Event>): nat {
    if history == [] || history[|history| - 1].Fail? then 0
    else 1 + TrailingPasses(history[..|history| - 1])
  }

  /** The passes a failed backend needs: never fewer than two, because the first pass
      only reaches RECOVERING. */
  function PassesNeeded(recoveriesRequired: int): nat {
    if recoveriesRequired > 2 then recoveriesRequired else 2
  }

  /** The status as a property of the whole history. */
  function Summary(history: seq<Event>, recoveriesRequired: int): Status {
    var p := TrailingPasses(history);
    if Fail !in history then Status(HEALTHY, 0)
    else if p == 0 then Status(UNHEALTHY, 0)
    else if p < PassesNeeded(recoveriesRequired) then Status(RECOVERING, p)
    else Status(HEALTHY, 0)
  }

  /** The automaton computes the summary, for every history and every setting. */
  lemma {:induction false} AutomatonIsSummary(history: seq<Event>, recoveriesRequired: int)
    ensures Replay(history, recoveriesRequired) == Summary(history, recoveriesRequired)
  {
    if history != [] {
      var front, last := history[..|history| - 1], history[|history| - 1];
      assert history == front + [last];
      AutomatonIsSummary(front, recoveriesRequired);
    }
  }

  /** A backend that failed at some point is HEALTHY again only after enough passes since
      that point, and exactly when that many end its history. */
  lemma HealthyAfterFailure(history: seq<Event>, failedAt: nat, recoveriesRequired: int)
    requires 1 <= failedAt <= |history| && history[failedAt - 1] == Fail
    ensures Replay(history, recoveriesRequired).state == HEALTHY <==>
      TrailingPasses(history) >= PassesNeeded(recoveriesRequired)
    ensures TrailingPasses(history) <= |history| - failedAt
  {
    AutomatonIsSummary(history, recoveriesRequired);
    TrailingBound(history, failedAt);
  }

  lemma {:induction false} TrailingBound(history: seq<Event>, failedAt: nat)
    requires 1 <= failedAt <= |history| && history[failedAt - 1] == Fail
    ensures TrailingPasses(history) <= |history| - failedAt
  {
    if failedAt < |history| && history[|history| - 1].Pass? {
      TrailingBound(history[..|history| - 1], failedAt);
    }
  }

  /** Passes among the events. */
  function CountPasses(events: seq<Event>): nat {
    if events == [] then 0
    else CountPasses(events[..|events| - 1]) + (if events[|events| - 1].Pass? then 1 else 0)
  }

  lemma {:induction false} TrailingAreCounted(history: seq<Event>, from: nat)
    requires from <= |history| && TrailingPasses(history) <= |history| - from
    ensures CountPasses(history[from..]) >= TrailingPasses(history)
  {
    if TrailingPasses(history) > 0 {
      var front := history[..|history| - 1];
      assert history[from..][..|history| - from - 1] == front[from..];
      TrailingAreCounted(front, from);
    }
  }

  lemma {:induction false} CountPassesGrows(events: seq<Event>, more: seq<Event>)
    ensures CountPasses(events + more) >= CountPasses(events)
  {
    if more == [] {
      assert events + more == events;
    } else {
      var front := more[..|more| - 1];
      assert (events + more)[..|events + more| - 1] == events + front;
      CountPassesGrows(events, front);
    }
  }

  // ----- the class -----

  /** The two dictionaries hold, for each backend, the status its history leads to. */
  ghost predicate Agrees(state: map<string, BackendState>, passes: map<string, int>, history: map<string, seq<Event>>,
                         recoveriesRequired: int) {
    && state.Keys == passes.Keys == history.Keys
    && forall u :: u in history ==> Status(state[u], passes[u]) == Replay(history[u], recoveriesRequired)
  }

  lemma AgreesAfter(state: map<string, BackendState>, passes: map<string, int>, history: map<string, seq<Event>>,
                    recoveriesRequired: int, url: string, e: Event)
    requires Agrees(state, passes, history, recoveriesRequired) && url in history
    ensures var s := Next(Status(state[url], passes[url]), e, recoveriesRequired);
      Agrees(state[url := s.state], passes[url := s.passes], history[url := history[url] + [e]], recoveriesRequired)
  {
    ReplayPush(history[url], e, recoveriesRequired);
  }

  /** Writing an entry again changes nothing. */
  lemma SameEntries(state: map<string, BackendState>, passes: map<string, int>, url: string)
    requires url in state && url in passes
    ensures state[url := state[url]] == state && passes[url := passes[url]] == passes
  {}

  /** `history` is the sequence of events applied to each backend. */
  class HealthChecker {
    const backendUrls: seq<string>
    const recoveriesRequired: int
    const metrics: M.Metrics?
    var state: map<string, BackendState>
    var consecutivePasses: map<string, int>
    ghost var history: map<string, seq<Event>>

    ghost predicate Valid()
      reads this
    {
      && Agrees(state, consecutivePasses, history, recoveriesRequired)
      && forall u :: u in history <==> u in backendUrls
    }

    constructor (backendUrls: seq<string>, recoveriesRequired: int, metrics: M.Metrics?)
      ensures Valid()
      ensures this.backendUrls == backendUrls && this.recoveriesRequired == recoveriesRequired &&
        this.metrics == metrics
      ensures forall u :: u in backendUrls ==> history[u] == []
    {
      this.backendUrls, this.recoveriesRequired, this.metrics := backendUrls, recoveriesRequired, metrics;
      state := map u | u in backendUrls :: HEALTHY;
      consecutivePasses := map u | u in backendUrls :: 0;
      history := map u | u in backendUrls :: [];
    }

    /** `_check_one` once the probe has answered. */
    method CheckOne(url: string, healthy: bool)
      requires Valid() && url in backendUrls && (metrics != null ==> metrics.Valid())
      modifies this`state, this`consecutivePasses, this`history
      modifies (if metrics == null then {} else {metrics})`healthCheckFailures
      ensures Valid() && (metrics != null ==> metrics.Valid())
      ensures history == old(history)[url := old(history)[url] + [if healthy then Pass else Fail]]
      ensures metrics != null ==>
        metrics.healthCheckFailures == old(metrics.healthCheckFailures) + if healthy then multiset{} else multiset{url}
    {
      if !healthy && metrics != null {
        metrics.RecordHealthCheckFailure(url);
      }
      ApplyResult(url, healthy);
    }

    /** The part of `_check_one` under the lock. */
    method ApplyResult(url: string, healthy: bool)
      requires Valid() && url in backendUrls
      modifies this`state, this`consecutivePasses, this`history
      ensures Valid()
      ensures history == old(history)[url := old(history)[url] + [if healthy then Pass else Fail]]
    {
      AgreesAfter(state, consecutivePasses, history, recoveriesRequired, url, if healthy then Pass else Fail);
      history := history[url := history[url] + [if healthy then Pass else Fail]];
      var current := state[url];
      if healthy {
        if current == HEALTHY {
          SameEntries(state, consecutivePasses, url);
          return;
        }
        if current == UNHEALTHY {
          state := state[url := RECOVERING];
          consecutivePasses := consecutivePasses[url := 1];
        } else {
          consecutivePasses := consecutivePasses[url := consecutivePasses[url] + 1];
          if consecutivePasses[url] >= recoveriesRequired {
            state := state[url := HEALTHY];
            consecutivePasses := consecutivePasses[url := 0];
          }
        }
      } else {
        state := state[url := UNHEALTHY];
        consecutivePasses := consecutivePasses[url := 0];
      }
    }

    method MarkUnhealthy(url: string)
      requires Valid() && url in backendUrls
      modifies this`state, this`consecutivePasses, this`history
      ensures Valid()
      ensures history == old(history)[url := old(history)[url] + [Fail]]
    {
      AgreesAfter(state, consecutivePasses, history, recoveriesRequired, url, Fail);
      history := history[url := history[url] + [Fail]];
      state := state[url := UNHEALTHY];
      consecutivePasses := consecutivePasses[url := 0];
    }

    /** The backends whose history ends with enough passes, or that never failed. */
    method HealthyBackends() returns (healthy: set<string>)
      requires Valid()
      ensures forall u :: u in healthy <==>
        u in backendUrls &&
        (Fail !in history[u] || TrailingPasses(history[u]) >= PassesNeeded(recoveriesRequired))
      ensures healthy == HealthySet(history, recoveriesRequired)
    {
      healthy := set u | u in state && state[u] == HEALTHY;
      forall u | u in history { AutomatonIsSummary(history[u], recoveriesRequired); }
    }
  }

  /** The URLs routed to under a history of applied events. */
  function HealthySet(history: map<string, seq<Event>>, recoveriesRequired: int): set<string> {
    set u | u in history && Replay(history[u], recoveriesRequired).state == HEALTHY
  }
}
