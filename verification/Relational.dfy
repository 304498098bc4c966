/** The parts of SQL the marts use, on sequences of rows: filtered counts, maxima,
    `group by` (where null equals null) and joins (where null equals nothing). */
module Relational {
  import opened Common

  // ----- filtered counts -----

  /** `count(*) filter (where p)` */
  function Count<R>(rows: seq<R>, p: R -> bool): (n: nat)
    ensures n <= |rows|
  {
    if rows == [] then 0
    else (if p(rows[0]) then 1 else 0) + Count(rows[1..], p)
  }

  lemma {:induction false} CountSame<R>(rows: seq<R>, p: R -> bool, q: R -> bool)
    requires forall r :: r in rows ==> p(r) == q(r)
    ensures Count(rows, p) == Count(rows, q)
  {
    if rows != [] { CountSame(rows[1..], p, q); }
  }

  lemma {:induction false} CountAll<R>(rows: seq<R>, p: R -> bool)
    requires forall r :: r in rows ==> p(r)
    ensures Count(rows, p) == |rows|
  {
    if rows != [] { CountAll(rows[1..], p); }
  }

  lemma {:induction false} CountNone<R>(rows: seq<R>, p: R -> bool)
    requires forall r :: r in rows ==> !p(r)
    ensures Count(rows, p) == 0
  {
    if rows != [] { CountNone(rows[1..], p); }
  }

  /** Disjoint conditions add up. */
  lemma {:induction false} CountSplits<R>(rows: seq<R>, p: R -> bool, q: R -> bool, both: R -> bool)
    requires forall r :: r in rows ==> !(p(r) && q(r)) && both(r) == (p(r) || q(r))
    ensures Count(rows, both) == Count(rows, p) + Count(rows, q)
  {
    if rows != [] { CountSplits(rows[1..], p, q, both); }
  }

  // ----- max, ignoring nulls -----

  predicate AtMost(a: Option<int>, b: Option<int>) {
    a.None? || (b.Some? && a.value <= b.value)
  }

  /** `max(f)`: the greatest value that is not null, null if there is none. */
  function MaxOf<R>(rows: seq<R>, f: R -> Option<int>): Option<int> {
    if rows == [] then None
    else
      var rest := MaxOf(rows[1..], f);
      if AtMost(f(rows[0]), rest) then rest else f(rows[0])
  }

  lemma {:induction false} MaxBounds<R>(rows: seq<R>, f: R -> Option<int>, r: R)
    requires r in rows
    ensures AtMost(f(r), MaxOf(rows, f))
  {
    if r != rows[0] { MaxBounds(rows[1..], f, r); }
  }

  lemma {:induction false} MaxBelow<R>(rows: seq<R>, f: R -> Option<int>, m: Option<int>)
    requires forall r :: r in rows ==> AtMost(f(r), m)
    ensures AtMost(MaxOf(rows, f), m)
  {
    if rows != [] { MaxBelow(rows[1..], f, m); }
  }

  lemma AtMostBoth(a: Option<int>, b: Option<int>)
    requires AtMost(a, b) && AtMost(b, a)
    ensures a == b
  {}

  // ----- group by -----

  ghost predicate Unique<K>(ks: seq<K>) {
    forall i, j :: 0 <= i < j < |ks| ==> ks[i] != ks[j]
  }

  lemma UniqueAppend<K>(a: seq<K>, b: seq<K>)
    requires Unique(a) && Unique(b) && forall i :: 0 <= i < |b| ==> b[i] !in a
    ensures Unique(a + b)
  {}

  /** The distinct values of the grouping expression. */
  function Keys<R, K(==)>(rows: seq<R>, key: R -> K): (ks: seq<K>)
    ensures Unique(ks)
    ensures forall r :: r in rows ==> key(r) in ks
    ensures |ks| <= |rows|
  {
    if rows == [] then []
    else
      assert rows == [rows[0]] + rows[1..];
      var rest := Keys(rows[1..], key);
      if key(rows[0]) in rest then rest else [key(rows[0])] + rest
  }

  /** Every key is the key of some row. */
  lemma {:induction false} KeyFrom<R, K>(rows: seq<R>, key: R -> K, k: K) returns (r: R)
    requires k in Keys(rows, key)
    ensures r in rows && key(r) == k
  {
    if key(rows[0]) == k {
      r := rows[0];
    } else {
      r := KeyFrom(rows[1..], key, k);
    }
  }

  /** As many groups as rows exactly when no two rows share a group. */
  lemma {:induction false} KeysCount<R, K>(rows: seq<R>, key: R -> K)
    ensures |Keys(rows, key)| == |rows| <==>
      forall i, j :: 0 <= i < j < |rows| ==> key(rows[i]) != key(rows[j])
  {
    if rows != [] {
      var rest := rows[1..];
      KeysCount(rest, key);
      if key(rows[0]) in Keys(rest, key) {
        var r := KeyFrom(rest, key, key(rows[0]));
        var j :| 0 <= j < |rest| && rest[j] == r;
        assert rows[j + 1] == r;
      } else {
        forall j | 0 < j < |rows| ensures key(rows[0]) != key(rows[j]) {
          assert rest[j - 1] == rows[j] && rows[j] in rest;
        }
        if forall i, j :: 0 <= i < j < |rest| ==> key(rest[i]) != key(rest[j]) {
          forall i, j | 0 <= i < j < |rows| ensures key(rows[i]) != key(rows[j]) {
            if i > 0 { assert rest[i - 1] == rows[i] && rest[j - 1] == rows[j]; }
          }
        } else {
          var i, j :| 0 <= i < j < |rest| && key(rest[i]) == key(rest[j]);
          assert rows[i + 1] == rest[i] && rows[j + 1] == rest[j];
        }
      }
    }
  }

  /** The rows of group k, in order. */
  function Group<R(!new), K(==)>(rows: seq<R>, key: R -> K, k: K): (g: seq<R>)
    ensures forall r :: r in g <==> r in rows && key(r) == k
  {
    if rows == [] then []
    else
      assert rows == [rows[0]] + rows[1..];
      (if key(rows[0]) == k then [rows[0]] else []) + Group(rows[1..], key, k)
  }

  /** A count within one group. */
  lemma {:induction false} CountInGroup<R(!new), K>(rows: seq<R>, key: R -> K, k: K, p: R -> bool, q: R -> bool)
    requires forall r :: q(r) == (key(r) == k && p(r))
    ensures Count(Group(rows, key, k), p) == Count(rows, q)
  {
    if rows != [] {
      var g := Group(rows[1..], key, k);
      CountInGroup(rows[1..], key, k, p, q);
      assert ([rows[0]] + g)[1..] == g;
      assert [] + g == g;
    }
  }

  /** No two rows are the same in the sense of `same`. */
  ghost predicate Apart<R>(rows: seq<R>, same: (R, R) -> bool) {
    forall i, j :: 0 <= i < j < |rows| ==> !same(rows[i], rows[j])
  }

  /** No two rows of group k are. */
  ghost predicate ApartIn<R, K>(rows: seq<R>, key: R -> K, k: K, same: (R, R) -> bool) {
    forall i, j :: 0 <= i < j < |rows| && key(rows[i]) == k && key(rows[j]) == k ==> !same(rows[i], rows[j])
  }

  lemma ApartCons<R>(x: R, rows: seq<R>, same: (R, R) -> bool)
    ensures Apart([x] + rows, same) <==> Apart(rows, same) && forall r :: r in rows ==> !same(x, r)
  {
    var all := [x] + rows;
    if Apart(all, same) {
      forall i, j | 0 <= i < j < |rows|
        ensures !same(rows[i], rows[j])
      {
        assert all[i + 1] == rows[i] && all[j + 1] == rows[j];
      }
      forall r | r in rows ensures !same(x, r) {
        var j :| 0 <= j < |rows| && rows[j] == r;
        assert all[0] == x && all[j + 1] == r;
      }
    }
  }

  lemma ApartInCons<R, K>(x: R, rows: seq<R>, key: R -> K, k: K, same: (R, R) -> bool)
    ensures ApartIn([x] + rows, key, k, same) <==>
      ApartIn(rows, key, k, same) && (key(x) == k ==> forall r :: r in rows && key(r) == k ==> !same(x, r))
  {
    var all := [x] + rows;
    if ApartIn(all, key, k, same) {
      forall i, j | 0 <= i < j < |rows| && key(rows[i]) == k && key(rows[j]) == k ensures !same(rows[i], rows[j]) {
        assert all[i + 1] == rows[i] && all[j + 1] == rows[j];
      }
      forall r | r in rows && key(r) == k && key(x) == k ensures !same(x, r) {
        var j :| 0 <= j < |rows| && rows[j] == r;
        assert all[0] == x && all[j + 1] == r;
      }
    }
  }

  lemma GroupCons<R(!new), K>(x: R, rest: seq<R>, key: R -> K, k: K)
    ensures Group([x] + rest, key, k) == (if key(x) == k then [x] else []) + Group(rest, key, k)
  {
    assert ([x] + rest)[1..] == rest;
  }

  lemma GroupApartCons<R(!new), K>(x: R, rest: seq<R>, key: R -> K, k: K, same: (R, R) -> bool)
    requires Apart(Group(rest, key, k), same) <==> ApartIn(rest, key, k, same)
    ensures Apart(Group([x] + rest, key, k), same) <==> ApartIn([x] + rest, key, k, same)
  {
    hide Group, Apart, ApartIn;
    var g := Group(rest, key, k);
    GroupCons(x, rest, key, k);
    ApartInCons(x, rest, key, k, same);
    if key(x) == k {
      ApartCons(x, g, same);
    } else {
      assert [] + g == g;
    }
  }

  lemma GroupApartNil<R(!new), K>(key: R -> K, k: K, same: (R, R) -> bool)
    ensures Apart(Group([], key, k), same) && ApartIn([], key, k, same)
  {}

  lemma {:induction false} GroupApart<R(!new), K>(rows: seq<R>, key: R -> K, k: K, same: (R, R) -> bool)
    ensures Apart(Group(rows, key, k), same) <==> ApartIn(rows, key, k, same)
  {
    hide Group, Apart, ApartIn;
    if rows == [] {
      GroupApartNil(key, k, same);
    } else {
      GroupApart(rows[1..], key, k, same);
      GroupApartCons(rows[0], rows[1..], key, k, same);
      assert rows == [rows[0]] + rows[1..];
    }
  }

  /** As many keys as different key values. */
  lemma KeySet<R, K>(rows: seq<R>, key: R -> K, values: set<K>)
    requires forall r :: r in rows ==> key(r) in values
    requires forall k :: k in values ==> exists r :: r in rows && key(r) == k
    ensures |Keys(rows, key)| == |values|
  {
    var ks := Keys(rows, key);
    forall k | k in ks ensures k in values { var r := KeyFrom(rows, key, k); }
    UniqueSize(ks, values);
  }

  lemma {:induction false} UniqueSize<K>(ks: seq<K>, values: set<K>)
    requires Unique(ks) && forall k :: k in ks <==> k in values
    ensures |ks| == |values|
  {
    if ks == [] {
      assert values == {};
    } else {
      var rest := ks[1..];
      assert ks == [ks[0]] + rest;
      assert ks[0] !in rest;
      UniqueSize(rest, values - {ks[0]});
    }
  }

  /** One output row for each key. */
  function Aggregate<R(!new), K(==), A>(rows: seq<R>, key: R -> K, ks: seq<K>, agg: (K, seq<R>) -> A): (out: seq<A>)
    ensures |out| == |ks|
    ensures forall i :: 0 <= i < |ks| ==> out[i] == agg(ks[i], Group(rows, key, ks[i]))
  {
    if ks == [] then []
    else [agg(ks[0], Group(rows, key, ks[0]))] + Aggregate(rows, key, ks[1..], agg)
  }

  function GroupBy<R(!new), K(==), A>(rows: seq<R>, key: R -> K, agg: (K, seq<R>) -> A): seq<A> {
    Aggregate(rows, key, Keys(rows, key), agg)
  }

  /** Taking one group out of a sum. */
  lemma {:induction false} SumGroup<R(!new), K>(rows: seq<R>, key: R -> K, k: K, v: R -> int, all: R -> int,
                                      rest: R -> int)
    requires forall r :: r in rows ==> rest(r) == if key(r) == k then 0 else all(r)
    requires forall r :: r in rows && key(r) == k ==> v(r) == all(r)
    ensures SumBy(rows, all) == SumBy(Group(rows, key, k), v) + SumBy(rows, rest)
  {
    if rows != [] {
      SumGroup(rows[1..], key, k, v, all, rest);
      var g := Group(rows[1..], key, k);
      assert ([rows[0]] + g)[1..] == g;
      assert [] + g == g;
    }
  }

  function Within<R, K(==)>(key: R -> K, ks: seq<K>, v: R -> int): R -> int {
    r => if key(r) in ks then v(r) else 0
  }

  /** Sums over the groups ks total the sum over the rows in those groups. */
  lemma {:induction false} RollUp<R(!new), K, A>(rows: seq<R>, key: R -> K, ks: seq<K>, agg: (K, seq<R>) -> A,
                                    f: A -> int, v: R -> int)
    requires Unique(ks)
    requires forall k :: k in ks ==> f(agg(k, Group(rows, key, k))) == SumBy(Group(rows, key, k), v)
    ensures SumBy(Aggregate(rows, key, ks, agg), f) == SumBy(rows, Within(key, ks, v))
    decreases |ks|
  {
    if ks == [] {
      SumOfZeros(rows, Within(key, ks, v));
    } else {
      var k, tail := ks[0], ks[1..];
      assert ks == [k] + tail;
      assert k !in tail;
      RollUp(rows, key, tail, agg, f, v);
      SumGroup(rows, key, k, v, Within(key, ks, v), Within(key, tail, v));
      var out := Aggregate(rows, key, ks, agg);
      assert out[1..] == Aggregate(rows, key, tail, agg);
    }
  }

  lemma {:induction false} SumOfZeros<R>(rows: seq<R>, f: R -> int)
    requires forall r :: r in rows ==> f(r) == 0
    ensures SumBy(rows, f) == 0
  {
    if rows != [] { SumOfZeros(rows[1..], f); }
  }

  /** Grouping loses no row and takes none twice: sums over the groups total the sum. */
  lemma GroupBySums<R(!new), K, A>(rows: seq<R>, key: R -> K, agg: (K, seq<R>) -> A, f: A -> int, v: R -> int)
    requires forall k :: k in Keys(rows, key) ==> f(agg(k, Group(rows, key, k))) == SumBy(Group(rows, key, k), v)
    ensures SumBy(GroupBy(rows, key, agg), f) == SumBy(rows, v)
  {
    RollUp(rows, key, Keys(rows, key), agg, f, v);
    SumSame(rows, rows, Within(key, Keys(rows, key), v), v);
  }

  function Indicator<R>(p: R -> bool): R -> int {
    r => if p(r) then 1 else 0
  }

  lemma {:induction false} CountIsSum<R>(rows: seq<R>, p: R -> bool)
    ensures Count(rows, p) == SumBy(rows, Indicator(p))
  {
    if rows != [] { CountIsSum(rows[1..], p); }
  }

  /** And so for filtered counts. */
  lemma GroupByConserves<R(!new), K, A>(rows: seq<R>, key: R -> K, agg: (K, seq<R>) -> A, f: A -> int, p: R -> bool)
    requires forall k :: k in Keys(rows, key) ==> f(agg(k, Group(rows, key, k))) == Count(Group(rows, key, k), p)
    ensures SumBy(GroupBy(rows, key, agg), f) == Count(rows, p)
  {
    CountIsSum(rows, p);
    forall k | k in Keys(rows, key) ensures Count(Group(rows, key, k), p) == SumBy(Group(rows, key, k), Indicator(p)) {
      CountIsSum(Group(rows, key, k), p);
    }
    GroupBySums(rows, key, agg, f, Indicator(p));
  }

  // ----- joins -----

  /** A row of an outer join: one side is null when it met nothing. */
  datatype Joined<A, B> = Joined(left: Option<A>, right: Option<B>)

  /** The right rows a left row meets. */
  function Meeting<A, B>(a: A, bs: seq<B>, on: (A, B) -> bool): seq<B> {
    if bs == [] then []
    else
      (if on(a, bs[0]) then [bs[0]] else []) + Meeting(a, bs[1..], on)
  }

  function PairUp<A, B>(a: A, ms: seq<B>): (out: seq<Joined<A, B>>)
    ensures |out| == if ms == [] then 1 else |ms|
    ensures forall i :: 0 <= i < |out| ==> out[i].left == Some(a)
  {
    if ms == [] then [Joined(Some(a), None)] else seq(|ms|, i requires 0 <= i < |ms| => Joined(Some(a), Some(ms[i])))
  }

  function LeftJoin<A, B>(xs: seq<A>, bs: seq<B>, on: (A, B) -> bool): (out: seq<Joined<A, B>>)
    ensures forall i :: 0 <= i < |out| ==> out[i].left.Some?
  {
    if xs == [] then [] else PairUp(xs[0], Meeting(xs[0], bs, on)) + LeftJoin(xs[1..], bs, on)
  }

  predicate Met<A, B>(xs: seq<A>, b: B, on: (A, B) -> bool) {
    exists i :: 0 <= i < |xs| && on(xs[i], b)
  }

  /** The right rows no left row met, beside nulls. */
  function Leftover<A, B>(xs: seq<A>, bs: seq<B>, on: (A, B) -> bool): (out: seq<Joined<A, B>>)
    ensures forall i :: 0 <= i < |out| ==> out[i].left.None? && out[i].right.Some?
  {
    if bs == [] then []
    else
      (if Met(xs, bs[0], on) then [] else [Joined(None, Some(bs[0]))]) + Leftover(xs, bs[1..], on)
  }

  lemma {:induction false} LeftoverFrom<A, B>(xs: seq<A>, bs: seq<B>, on: (A, B) -> bool, i: nat)
    requires i < |Leftover(xs, bs, on)|
    ensures var b := Leftover(xs, bs, on)[i].right.value; b in bs && !Met(xs, b, on)
  {
    if Met(xs, bs[0], on) {
      LeftoverFrom(xs, bs[1..], on, i);
    } else if i > 0 {
      LeftoverFrom(xs, bs[1..], on, i - 1);
    }
  }

  lemma {:induction false} LeftoverHas<A, B>(xs: seq<A>, bs: seq<B>, on: (A, B) -> bool, b: B)
    requires b in bs && !Met(xs, b, on)
    ensures Joined(None, Some(b)) in Leftover(xs, bs, on)
  {
    if b != bs[0] { LeftoverHas(xs, bs[1..], on, b); }
  }

  function FullJoin<A, B>(xs: seq<A>, bs: seq<B>, on: (A, B) -> bool): seq<Joined<A, B>> {
    LeftJoin(xs, bs, on) + Leftover(xs, bs, on)
  }

  /** a meets at most one of bs. */
  ghost predicate MeetsOne<A, B>(a: A, bs: seq<B>, on: (A, B) -> bool) {
    forall i, j :: 0 <= i < j < |bs| ==> !(on(a, bs[i]) && on(a, bs[j]))
  }

  /** The right row beside a: the first one it meets. */
  function Partner<A, B>(a: A, bs: seq<B>, on: (A, B) -> bool): Option<B> {
    var ms := Meeting(a, bs, on);
    if ms == [] then None else Some(ms[0])
  }

  lemma {:induction false} MeetingMembers<A, B(!new)>(a: A, bs: seq<B>, on: (A, B) -> bool)
    ensures forall b :: b in Meeting(a, bs, on) <==> b in bs && on(a, b)
  {
    if bs != [] {
      MeetingMembers(a, bs[1..], on);
      assert bs == [bs[0]] + bs[1..];
    }
  }

  lemma PartnerMeets<A, B(!new)>(a: A, bs: seq<B>, on: (A, B) -> bool)
    ensures var p := Partner(a, bs, on);
      && (p.Some? ==> p.value in bs && on(a, p.value))
      && (p.None? ==> forall b :: b in bs ==> !on(a, b))
  {
    MeetingMembers(a, bs, on);
    var ms := Meeting(a, bs, on);
    assert ms != [] ==> ms[0] in ms;
  }

  /** A row met is the partner, where at most one can be met. */
  lemma PartnerIs<A, B(!new)>(a: A, bs: seq<B>, on: (A, B) -> bool, b: B)
    requires MeetsOne(a, bs, on) && b in bs && on(a, b)
    ensures Partner(a, bs, on) == Some(b)
  {
    PartnerMeets(a, bs, on);
    var p := Partner(a, bs, on).value;
    var i :| 0 <= i < |bs| && bs[i] == b;
    var j :| 0 <= j < |bs| && bs[j] == p;
    assert i < j ==> !(on(a, bs[i]) && on(a, bs[j]));
    assert j < i ==> !(on(a, bs[j]) && on(a, bs[i]));
  }

  lemma {:induction false} MeetingOne<A, B(!new)>(a: A, bs: seq<B>, on: (A, B) -> bool)
    requires MeetsOne(a, bs, on)
    ensures |Meeting(a, bs, on)| <= 1
  {
    if bs != [] {
      assert forall i :: 0 <= i < |bs[1..]| ==> bs[1..][i] == bs[i + 1];
      MeetingOne(a, bs[1..], on);
      MeetingMembers(a, bs[1..], on);
      var ms := Meeting(a, bs[1..], on);
      forall b | b in ms ensures !on(a, bs[0]) {
        assert b in bs[1..] && on(a, b);
      }
      assert ms != [] ==> ms[0] in ms;
    }
  }

  /** A left join on a key of the right side keeps each left row once, in its place. */
  ghost predicate KeepsLeft<A, B>(xs: seq<A>, bs: seq<B>, on: (A, B) -> bool, out: seq<Joined<A, B>>) {
    |out| == |xs| && forall i :: 0 <= i < |xs| ==> out[i] == Joined(Some(xs[i]), Partner(xs[i], bs, on))
  }

  /** Each left row meets at most one right row. */
  ghost predicate MeetAtMostOne<A, B>(xs: seq<A>, bs: seq<B>, on: (A, B) -> bool) {
    forall i :: 0 <= i < |xs| ==> |Meeting(xs[i], bs, on)| <= 1
  }

  lemma {:induction false} NoFanOut<A, B>(xs: seq<A>, bs: seq<B>, on: (A, B) -> bool)
    requires MeetAtMostOne(xs, bs, on)
    ensures KeepsLeft(xs, bs, on, LeftJoin(xs, bs, on))
  {
    if xs != [] {
      NoFanOut(xs[1..], bs, on);
      var head := PairUp(xs[0], Meeting(xs[0], bs, on));
      assert head == [Joined(Some(xs[0]), Partner(xs[0], bs, on))];
      assert LeftJoin(xs, bs, on) == head + LeftJoin(xs[1..], bs, on);
    }
  }

  function OrZero<T>(f: T -> int, o: Option<T>): int {
    if o.Some? then f(o.value) else 0
  }

  /** `sum(col)`: null if every value is. */
  function SumOrNull<R>(rows: seq<R>, col: R -> Option<int>): Option<int> {
    if forall i :: 0 <= i < |rows| ==> col(rows[i]).None? then None else Some(SumBy(rows, OrZeroOf(col)))
  }

  function OrZeroOf<R>(col: R -> Option<int>): R -> int {
    r => if col(r).Some? then col(r).value else 0
  }

  lemma SumOrNullIsSum<R>(rows: seq<R>, col: R -> Option<int>)
    ensures (if SumOrNull(rows, col).Some? then SumOrNull(rows, col).value else 0) == SumBy(rows, OrZeroOf(col))
  {
    if SumOrNull(rows, col).None? { SumOfZeros(rows, OrZeroOf(col)); }
  }

  lemma {:induction false} LeftoverAddsNothing<A, B>(xs: seq<A>, bs: seq<B>, on: (A, B) -> bool, f: Joined<A, B> -> int)
    requires forall b :: b in bs ==> f(Joined(None, Some(b))) == 0
    ensures SumBy(Leftover(xs, bs, on), f) == 0
  {
    if bs != [] {
      LeftoverAddsNothing(xs, bs[1..], on, f);
      var rest := Leftover(xs, bs[1..], on);
      assert ([Joined(None, Some(bs[0]))] + rest)[1..] == rest;
      assert [] + rest == rest;
    }
  }

  /** If no left row meets two right rows, a full outer join keeps each left row once. */
  lemma FullJoinKeepsLeft<A, B>(xs: seq<A>, bs: seq<B>, on: (A, B) -> bool, w: A -> int, f: Joined<A, B> -> int)
    requires MeetAtMostOne(xs, bs, on)
    requires forall j :: f(j) == OrZero(w, j.left)
    ensures SumBy(FullJoin(xs, bs, on), f) == SumBy(xs, w)
  {
    NoFanOut(xs, bs, on);
    SumByAppend(LeftJoin(xs, bs, on), Leftover(xs, bs, on), f);
    SumSame(LeftJoin(xs, bs, on), xs, f, w);
    LeftoverAddsNothing(xs, bs, on, f);
  }

  lemma {:induction false} SumPairUp<A, B>(a: A, ms: seq<B>, w: B -> int, f: Joined<A, B> -> int)
    requires forall j :: j in PairUp(a, ms) ==> f(j) == OrZero(w, j.right)
    ensures SumBy(PairUp(a, ms), f) == SumBy(ms, w)
  {
    var out := PairUp(a, ms);
    if |ms| <= 1 {
      assert out[1..] == [];
    } else {
      assert out[1..] == PairUp(a, ms[1..]);
      SumPairUp(a, ms[1..], w, f);
    }
  }

  lemma {:induction false} MeetingLeavesRest<A, B>(a: A, xs: seq<A>, bs: seq<B>, on: (A, B) -> bool, w: B -> int,
                                                   f: Joined<A, B> -> int)
    requires forall b :: b in bs && on(a, b) ==> !Met(xs, b, on)
    requires forall b :: b in bs ==> f(Joined(None, Some(b))) == w(b)
    ensures SumBy(Leftover(xs, bs, on), f) == SumBy(Meeting(a, bs, on), w) + SumBy(Leftover([a] + xs, bs, on), f)
  {
    if bs != [] {
      MeetingLeavesRest(a, xs, bs[1..], on, w, f);
      MetSplits(a, xs, bs[0], on);
      SumByAppend(if Met(xs, bs[0], on) then [] else [Joined(None, Some(bs[0]))], Leftover(xs, bs[1..], on), f);
      SumByAppend(if Met([a] + xs, bs[0], on) then [] else [Joined(None, Some(bs[0]))], Leftover([a] + xs, bs[1..], on),
        f);
      SumByAppend(if on(a, bs[0]) then [bs[0]] else [], Meeting(a, bs[1..], on), w);
      assert forall j: Joined<A, B> :: SumBy([j], f) == f(j) + SumBy([j][1..], f);
    }
  }

  lemma MetSplits<A, B>(a: A, xs: seq<A>, b: B, on: (A, B) -> bool)
    ensures Met([a] + xs, b, on) <==> on(a, b) || Met(xs, b, on)
  {
    if on(a, b) { assert ([a] + xs)[0] == a; }
    if Met(xs, b, on) {
      var i :| 0 <= i < |xs| && on(xs[i], b);
      assert ([a] + xs)[i + 1] == xs[i];
    }
  }

  /** If no right row meets two left rows, a full outer join keeps each right row once. */
  lemma {:induction false} FullJoinKeepsRight<A, B>(xs: seq<A>, bs: seq<B>, on: (A, B) -> bool, w: B -> int,
                                                    f: Joined<A, B> -> int)
    requires forall b, i, j :: b in bs && 0 <= i < j < |xs| ==> !(on(xs[i], b) && on(xs[j], b))
    requires forall j :: f(j) == OrZero(w, j.right)
    ensures SumBy(FullJoin(xs, bs, on), f) == SumBy(bs, w)
  {
    SumByAppend(LeftJoin(xs, bs, on), Leftover(xs, bs, on), f);
    if xs == [] {
      LeftoverOfNone(bs, on, w, f);
    } else {
      var a, rest := xs[0], xs[1..];
      assert xs == [a] + rest;
      forall b | b in bs && on(a, b) ensures !Met(rest, b, on) {
        forall i | 0 <= i < |rest| ensures !on(rest[i], b) { assert xs[i + 1] == rest[i]; }
      }
      forall b, i, j | b in bs && 0 <= i < j < |rest| ensures !(on(rest[i], b) && on(rest[j], b)) {
        assert xs[i + 1] == rest[i] && xs[j + 1] == rest[j];
      }
      FullJoinKeepsRight(rest, bs, on, w, f);
      MeetingLeavesRest(a, rest, bs, on, w, f);
      SumByAppend(PairUp(a, Meeting(a, bs, on)), LeftJoin(rest, bs, on), f);
      SumByAppend(LeftJoin(rest, bs, on), Leftover(rest, bs, on), f);
      SumPairUp(a, Meeting(a, bs, on), w, f);
    }
  }

  lemma {:induction false} LeftoverOfNone<A, B>(bs: seq<B>, on: (A, B) -> bool, w: B -> int, f: Joined<A, B> -> int)
    requires forall b :: b in bs ==> f(Joined(None, Some(b))) == w(b)
    ensures SumBy(Leftover([], bs, on), f) == SumBy(bs, w)
  {
    if bs != [] {
      LeftoverOfNone(bs[1..], on, w, f);
      var out := Leftover([], bs, on);
      assert out[1..] == Leftover([], bs[1..], on);
    }
  }
}
