/** Round-robin selection over the healthy backends (load_balancer/router.py). */
module Router {
  import opened Common

  /** `itertools.cycle` as the order in which it will yield the URLs: the next one first. */
  type Rotation = seq<string>

  /** The first position of the rotation whose URL is in the snapshot. */
  function Offset(rot: Rotation, healthy: set<string>): (d: nat)
    ensures d <= |rot|
    ensures forall i :: 0 <= i < d ==> rot[i] !in healthy
    ensures d < |rot| ==> rot[d] in healthy
  {
    if rot == [] || rot[0] in healthy then 0 else 1 + Offset(rot[1..], healthy)
  }

  /** One call: the backend chosen and the rotation afterwards. An empty snapshot leaves
      the cursor alone; a snapshot naming no configured URL turns it once round. */
  function Select(rot: Rotation, healthy: set<string>): (Option<string>, Rotation) {
    var d := Offset(rot, healthy);
    if d < |rot| then (Some(rot[d]), rot[d + 1..] + rot[..d + 1]) else (None, rot)
  }

  /** The rotation after i turns. */
  function Turned(rot: Rotation, i: nat): Rotation
    requires i <= |rot|
  {
    rot[i..] + rot[..i]
  }

  lemma TurnedOnce(rot: Rotation, i: nat)
    requires i < |rot|
    ensures Turned(rot, i) != [] && Turned(rot, i)[0] == rot[i]
    ensures Turned(rot, i)[1..] + [rot[i]] == Turned(rot, i + 1)
  {}

  lemma WholeTurn(rot: Rotation)
    ensures Turned(rot, 0) == rot && Turned(rot, |rot|) == rot
    ensures rot != [] ==> rot[1..] + [rot[0]] == rot[1..] + rot[..1]
  {}

  lemma SelectAt(rot: Rotation, healthy: set<string>, i: nat)
    requires i < |rot| && rot[i] in healthy && forall k :: 0 <= k < i ==> rot[k] !in healthy
    ensures Select(rot, healthy) == (Some(rot[i]), Turned(rot, i + 1))
  {}

  lemma SelectNowhere(rot: Rotation, healthy: set<string>)
    requires forall k :: 0 <= k < |rot| ==> rot[k] !in healthy
    ensures Select(rot, healthy) == (None, rot)
  {}

  /** The health snapshot is taken before the lock; the class models the locked part. */
  class RoundRobinRouter {
    const backendUrls: seq<string>
    var cursor: nat

    ghost predicate Valid()
      reads this
    {
      cursor < |backendUrls|
    }

    ghost function Upcoming(): (rot: Rotation)
      requires Valid()
      reads this
      ensures |rot| == |backendUrls|
    {
      backendUrls[cursor..] + backendUrls[..cursor]
    }

    constructor (backendUrls: seq<string>)
      requires backendUrls != []
      ensures Valid() && this.backendUrls == backendUrls && Upcoming() == backendUrls
    {
      this.backendUrls := backendUrls;
      cursor := 0;
    }

    /** `next(self._cycle)` */
    method Next() returns (url: string)
      requires Valid()
      modifies this
      ensures Valid()
      ensures url == old(Upcoming())[0] && Upcoming() == old(Upcoming())[1..] + [url]
    {
      url := backendUrls[cursor];
      cursor := if cursor + 1 == |backendUrls| then 0 else cursor + 1;
    }

    /** `healthy` is None when no health checker is attached. */
    method NextBackend(healthy: Option<set<string>>) returns (choice: Option<string>)
      requires Valid()
      modifies this
      ensures Valid()
      ensures healthy.None? ==>
        choice == Some(old(Upcoming())[0]) && Upcoming() == old(Upcoming())[1..] + old(Upcoming())[..1]
      ensures healthy.Some? ==> (choice, Upcoming()) == Select(old(Upcoming()), healthy.value)
    {
      hide Select, Upcoming, Turned;
      ghost var rot := Upcoming();
      WholeTurn(rot);
      if healthy.None? {
        var url := Next();
        return Some(url);
      }
      if healthy.value == {} {
        SelectNowhere(rot, {});
        return None;
      }
      for i := 0 to |backendUrls|
        invariant Valid()
        invariant |rot| == |backendUrls|
        invariant Upcoming() == Turned(rot, i)
        invariant forall k :: 0 <= k < i ==> rot[k] !in healthy.value
      {
        TurnedOnce(rot, i);
        var candidate := Next();
        if candidate in healthy.value {
          SelectAt(rot, healthy.value, i);
          return Some(candidate);
        }
      }
      SelectNowhere(rot, healthy.value);
      return None;
    }
  }

  // ----- fairness under a fixed healthy set -----

  ghost predicate Distinct(s: seq<string>) {
    forall i, j :: 0 <= i < j < |s| ==> s[i] != s[j]
  }

  /** The healthy URLs in rotation order. */
  function HealthyOrder(rot: Rotation, healthy: set<string>): (q: seq<string>)
    ensures forall u :: u in q <==> u in rot && u in healthy
  {
    if rot == [] then []
    else
      assert rot == [rot[0]] + rot[1..];
      (if rot[0] in healthy then [rot[0]] else []) + HealthyOrder(rot[1..], healthy)
  }

  lemma {:induction false} HealthyOrderAppend(a: Rotation, b: Rotation, healthy: set<string>)
    ensures HealthyOrder(a + b, healthy) == HealthyOrder(a, healthy) + HealthyOrder(b, healthy)
  {
    if a == [] {
      assert a + b == b;
    } else {
      assert (a + b)[1..] == a[1..] + b;
      HealthyOrderAppend(a[1..], b, healthy);
    }
  }

  lemma {:induction false} HealthyOrderDistinct(rot: Rotation, healthy: set<string>)
    requires Distinct(rot)
    ensures Distinct(HealthyOrder(rot, healthy))
  {
    if rot != [] {
      HealthyOrderDistinct(rot[1..], healthy);
      var q := HealthyOrder(rot[1..], healthy);
      forall i | 0 <= i < |q| ensures q[i] != rot[0] {
        assert q[i] in q;
        var k :| 0 <= k < |rot[1..]| && rot[1..][k] == q[i];
        assert rot[k + 1] == q[i];
      }
    }
  }

  lemma OffsetFinds(rot: Rotation, healthy: set<string>)
    requires exists u :: u in rot && u in healthy
    ensures Offset(rot, healthy) < |rot|
  {
    var u :| u in rot && u in healthy;
    var k :| 0 <= k < |rot| && rot[k] == u;
  }

  /** A healthy URL after unhealthy ones. */
  lemma OrderOfSkipped(before: Rotation, x: string, healthy: set<string>)
    requires x in healthy && forall i :: 0 <= i < |before| ==> before[i] !in healthy
    ensures HealthyOrder(before + [x], healthy) == [x]
  {
    HealthyOrderAppend(before, [x], healthy);
    NoneHealthy(before, healthy);
    assert [x][1..] == [];
  }

  lemma OrderBefore(before: Rotation, x: string, after: Rotation, healthy: set<string>)
    requires x in healthy && forall i :: 0 <= i < |before| ==> before[i] !in healthy
    ensures HealthyOrder(before + [x] + after, healthy) == [x] + HealthyOrder(after, healthy)
  {
    OrderOfSkipped(before, x, healthy);
    HealthyOrderAppend(before + [x], after, healthy);
  }

  lemma OrderAfter(before: Rotation, x: string, after: Rotation, healthy: set<string>)
    requires x in healthy && forall i :: 0 <= i < |before| ==> before[i] !in healthy
    ensures HealthyOrder(after + (before + [x]), healthy) == HealthyOrder(after, healthy) + [x]
  {
    OrderOfSkipped(before, x, healthy);
    HealthyOrderAppend(after, before + [x], healthy);
  }

  /** A call serves the head of the healthy order and moves it to the end. */
  lemma SelectServesHead(rot: Rotation, healthy: set<string>)
    requires exists u :: u in rot && u in healthy
    ensures var q := HealthyOrder(rot, healthy);
      && q != []
      && Select(rot, healthy).0 == Some(q[0])
      && HealthyOrder(Select(rot, healthy).1, healthy) == q[1..] + [q[0]]
    ensures forall u :: u in Select(rot, healthy).1 <==> u in rot
  {
    OffsetFinds(rot, healthy);
    var d := Offset(rot, healthy);
    assert rot == rot[..d] + [rot[d]] + rot[d + 1..];
    assert rot[..d + 1] == rot[..d] + [rot[d]];
    OrderBefore(rot[..d], rot[d], rot[d + 1..], healthy);
    OrderAfter(rot[..d], rot[d], rot[d + 1..], healthy);
  }

  lemma {:induction false} NoneHealthy(s: Rotation, healthy: set<string>)
    requires forall i :: 0 <= i < |s| ==> s[i] !in healthy
    ensures HealthyOrder(s, healthy) == []
  {
    if s != [] { NoneHealthy(s[1..], healthy); }
  }

  /** n calls with the same snapshot: what they return and the rotation left. */
  function Serve(rot: Rotation, healthy: set<string>, n: nat): (seq<Option<string>>, Rotation)
    decreases n
  {
    if n == 0 then ([], rot)
    else
      var (first, next) := Select(rot, healthy);
      var (rest, last) := Serve(next, healthy, n - 1);
      ([first] + rest, last)
  }

  /** Textbook round robin over a queue. */
  function RoundRobin(q: seq<string>, n: nat): (r: seq<Option<string>>)
    requires q != []
    ensures |r| == n
    decreases n
  {
    if n == 0 then [] else [Some(q[0])] + RoundRobin(q[1..] + [q[0]], n - 1)
  }

  /** From any cursor position the router is round robin over the healthy URLs. */
  lemma {:induction false} ServeIsRoundRobin(rot: Rotation, healthy: set<string>, n: nat)
    requires exists u :: u in rot && u in healthy
    ensures HealthyOrder(rot, healthy) != []
    ensures Serve(rot, healthy, n).0 == RoundRobin(HealthyOrder(rot, healthy), n)
    decreases n
  {
    SelectServesHead(rot, healthy);
    if n > 0 {
      var next := Select(rot, healthy).1;
      ServeIsRoundRobin(next, healthy, n - 1);
    }
  }

  function Somes(q: seq<string>): (r: seq<Option<string>>)
    ensures |r| == |q| && forall i :: 0 <= i < |r| ==> r[i] == Some(q[i])
  {
    seq(|q|, i requires 0 <= i < |q| => Some(q[i]))
  }

  lemma {:induction false} RoundRobinShift(q: seq<string>, a: nat, n: nat)
    requires q != [] && a <= |q|
    ensures q[a..] + q[..a] != []
    ensures RoundRobin(q, a + n) == Somes(q[..a]) + RoundRobin(q[a..] + q[..a], n)
    decreases a
  {
    hide Somes;
    if a == 0 {
      assert q[0..] + q[..0] == q && Somes(q[..0]) == [];
      assert [] + RoundRobin(q, n) == RoundRobin(q, n);
    } else {
      RoundRobinShift(q[1..] + [q[0]], a - 1, n);
      ShiftOnce(q, a);
    }
  }

  lemma ShiftOnce(q: seq<string>, a: nat)
    requires 1 <= a <= |q|
    ensures var r := q[1..] + [q[0]];
      r[a - 1..] + r[..a - 1] == q[a..] + q[..a] && Somes(q[..a]) == [Some(q[0])] + Somes(r[..a - 1])
  {}

  lemma WithinOneRound(q: seq<string>, n: nat)
    requires q != [] && n <= |q|
    ensures RoundRobin(q, n) == Somes(q[..n])
  {
    RoundRobinShift(q, n, 0);
    assert RoundRobin(q[n..] + q[..n], 0) == [];
  }

  lemma OneRound(q: seq<string>, n: nat)
    requires q != []
    ensures RoundRobin(q, |q| + n) == Somes(q) + RoundRobin(q, n)
  {
    RoundRobinShift(q, |q|, n);
    assert q[|q|..] + q[..|q|] == q && q[..|q|] == q;
  }

  lemma {:induction false} RoundRobinWindow(q: seq<string>, earlier: nat)
    requires q != []
    ensures multiset(RoundRobin(q, earlier + |q|)[earlier..]) == multiset(Somes(q))
    decreases earlier
  {
    if earlier == 0 {
      WithinOneRound(q, |q|);
      assert q[..|q|] == q;
      assert RoundRobin(q, |q|)[0..] == RoundRobin(q, |q|);
    } else {
      var r := q[1..] + [q[0]];
      RoundRobinWindow(r, earlier - 1);
      assert RoundRobin(q, earlier + |q|)[earlier..] == RoundRobin(r, earlier - 1 + |r|)[earlier - 1..];
      assert Somes(r) == Somes(q)[1..] + [Somes(q)[0]];
      assert Somes(q) == [Somes(q)[0]] + Somes(q)[1..];
    }
  }

  /** Every window of |H| consecutive calls, after any number of earlier calls, returns
      each healthy backend exactly once and nothing else. */
  lemma ExactFairness(rot: Rotation, healthy: set<string>, earlier: nat)
    requires Distinct(rot) && exists u :: u in rot && u in healthy
    ensures var m := |HealthyOrder(rot, healthy)|;
      var calls := Serve(rot, healthy, earlier + m).0;
      && |calls| == earlier + m
      && multiset(calls[earlier..]) == multiset(Somes(HealthyOrder(rot, healthy)))
      && forall u :: u in rot && u in healthy ==> multiset(calls[earlier..])[Some(u)] == 1
  {
    hide HealthyOrder, Serve, RoundRobin, Somes, Distinct;
    var q := HealthyOrder(rot, healthy);
    ServeIsRoundRobin(rot, healthy, earlier + |q|);
    RoundRobinWindow(q, earlier);
    OnceEach(rot, healthy);
  }

  lemma OnceEach(rot: Rotation, healthy: set<string>)
    requires Distinct(rot)
    ensures forall u :: u in rot && u in healthy ==> multiset(Somes(HealthyOrder(rot, healthy)))[Some(u)] == 1
  {
    var q := HealthyOrder(rot, healthy);
    HealthyOrderDistinct(rot, healthy);
    forall u | u in rot && u in healthy ensures multiset(Somes(q))[Some(u)] == 1 {
      CountInDistinct(q, u);
    }
  }

  lemma {:induction false} CountInDistinct(q: seq<string>, u: string)
    requires Distinct(q)
    ensures multiset(Somes(q))[Some(u)] == (if u in q then 1 else 0)
  {
    if q != [] {
      var front, last := q[..|q| - 1], q[|q| - 1];
      assert q == front + [last];
      CountInDistinct(front, u);
      assert Somes(q) == Somes(front) + [Some(last)];
    }
  }

  /** Over any run the selection counts of two healthy backends differ by at most one. */
  lemma CountsBalanced(rot: Rotation, healthy: set<string>, n: nat, u: string, v: string)
    requires Distinct(rot) && u in rot && u in healthy && v in rot && v in healthy
    ensures var calls := multiset(Serve(rot, healthy, n).0);
      calls[Some(u)] <= calls[Some(v)] + 1 && calls[Some(v)] <= calls[Some(u)] + 1
  {
    ServeIsRoundRobin(rot, healthy, n);
    HealthyOrderDistinct(rot, healthy);
    RoundRobinBalanced(HealthyOrder(rot, healthy), n, u, v);
  }

  lemma DistinctPrefix(q: seq<string>, n: nat)
    requires Distinct(q) && n <= |q|
    ensures Distinct(q[..n])
  {}

  lemma {:induction false} RoundRobinBalanced(q: seq<string>, n: nat, u: string, v: string)
    requires q != [] && Distinct(q) && u in q && v in q
    ensures var calls := multiset(RoundRobin(q, n));
      calls[Some(u)] <= calls[Some(v)] + 1 && calls[Some(v)] <= calls[Some(u)] + 1
    decreases n
  {
    hide RoundRobin, Distinct, Somes;
    if n < |q| {
      WithinOneRound(q, n);
      DistinctPrefix(q, n);
      CountInDistinct(q[..n], u);
      CountInDistinct(q[..n], v);
    } else {
      OneRound(q, n - |q|);
      CountInDistinct(q, u);
      CountInDistinct(q, v);
      RoundRobinBalanced(q, n - |q|, u, v);
      assert multiset(RoundRobin(q, n)) == multiset(Somes(q)) + multiset(RoundRobin(q, n - |q|));
    }
  }

  // ----- no starvation under churn -----

  /** Calls in lock order, each with its own snapshot. */
  function Choices(rot: Rotation, snapshots: seq<set<string>>): seq<Option<string>>
    decreases snapshots
  {
    if snapshots == [] then []
    else
      var (first, next) := Select(rot, snapshots[0]);
      [first] + Choices(next, snapshots[1..])
  }

  /** However the other backends come and go, a backend that is in every snapshot is
      chosen within as many calls as it has places to wait, at most one per URL: the
      cursor cannot pass it. */
  lemma {:induction false} NoStarvation(rot: Rotation, snapshots: seq<set<string>>, place: nat)
    requires place < |rot| && place < |snapshots|
    requires forall h :: h in snapshots ==> rot[place] in h
    ensures Some(rot[place]) in Choices(rot, snapshots)
    decreases place
  {
    var h := snapshots[0];
    assert h in snapshots;
    var d := Offset(rot, h);
    assert d <= place;
    var next := Select(rot, h).1;
    if rot[d] != rot[place] {
      assert next[place - d - 1] == rot[place];
      NoStarvation(next, snapshots[1..], place - d - 1);
    }
  }
}
