/** Vocabulary shared by every component: optional values, sums over sequences,
    slicing into fixed-size pieces, and a stable sort. */
module Common {

  /** A nullable value: Python's `None`, SQL's `null`. */
  datatype Option<+T> = None | Some(value: T)

  /** The sum of f over a sequence. */
  function SumBy<T>(s: seq<T>, f: T -> int): int {
    if s == [] then 0 else f(s[0]) + SumBy(s[1..], f)
  }

  lemma {:induction false} SumByAppend<T>(a: seq<T>, b: seq<T>, f: T -> int)
    ensures SumBy(a + b, f) == SumBy(a, f) + SumBy(b, f)
  {
    if a == [] {
      assert a + b == b;
    } else {
      assert (a + b)[1..] == a[1..] + b;
      SumByAppend(a[1..], b, f);
    }
  }

  lemma {:induction false} SumByPush<T>(s: seq<T>, x: T, f: T -> int)
    ensures SumBy(s + [x], f) == SumBy(s, f) + f(x)
  {
    SumByAppend(s, [x], f);
    assert SumBy([x], f) == f(x) + SumBy([], f) by { assert [x][1..] == []; }
  }

  /** Replacing one element shifts the sum by the difference it makes. */
  lemma {:induction false} SumByUpdate<T>(s: seq<T>, i: nat, x: T, f: T -> int)
    requires i < |s|
    ensures SumBy(s[i := x], f) == SumBy(s, f) - f(s[i]) + f(x)
  {
    if i == 0 {
      assert s[i := x][1..] == s[1..];
    } else {
      assert s[i := x][1..] == s[1..][i - 1 := x];
      SumByUpdate(s[1..], i - 1, x, f);
    }
  }

  lemma {:induction false} SumSame<A, B>(xs: seq<A>, ys: seq<B>, f: A -> int, g: B -> int)
    requires |xs| == |ys| && forall i :: 0 <= i < |xs| ==> f(xs[i]) == g(ys[i])
    ensures SumBy(xs, f) == SumBy(ys, g)
  {
    if xs != [] {
      assert forall i :: 0 <= i < |xs[1..]| ==> xs[1..][i] == xs[i + 1] && ys[1..][i] == ys[i + 1];
      SumSame(xs[1..], ys[1..], f, g);
    }
  }

  /** Concatenation of a sequence of sequences. */
  function Flatten<T>(parts: seq<seq<T>>): seq<T> {
    if parts == [] then [] else parts[0] + Flatten(parts[1..])
  }

  /** The slices `s[i : i + size]` for i = 0, size, 2 * size, ... */
  function Chunks<T>(s: seq<T>, size: nat): (parts: seq<seq<T>>)
    requires size >= 1
    ensures Flatten(parts) == s
    ensures forall p :: p in parts ==> 1 <= |p| <= size
    decreases |s|
  {
    if s == [] then []
    else if |s| <= size then
      assert Flatten([s]) == s + Flatten([]) by { assert [s][1..] == []; }
      [s]
    else
      var rest := Chunks(s[size..], size);
      assert ([s[..size]] + rest)[1..] == rest;
      [s[..size]] + rest
  }

  /** n / d rounded up. */
  function CeilDiv(n: nat, d: nat): (q: nat)
    requires d >= 1
  {
    (n + d - 1) / d
  }

  lemma CeilDivUnique(n: nat, d: nat, q: nat)
    requires d >= 1 && n <= q * d < n + d
    ensures CeilDiv(n, d) == q
  {
    var m, p := n + d - 1, CeilDiv(n, d);
    assert m == p * d + m % d;
    var e := q - p;
    assert e * d == q * d - p * d;
    assert e >= 1 ==> e * d >= d;
    assert e <= -1 ==> e * d + d <= 0;
  }

  lemma CeilDivBounds(n: nat, d: nat)
    requires d >= 1
    ensures n <= CeilDiv(n, d) * d < n + d
  {
    assert n + d - 1 == CeilDiv(n, d) * d + (n + d - 1) % d;
  }

  lemma CeilDivStep(n: nat, d: nat)
    requires d >= 1
    ensures CeilDiv(n + d, d) == CeilDiv(n, d) + 1
  {
    CeilDivBounds(n, d);
    var q := CeilDiv(n, d);
    assert (q + 1) * d == q * d + d;
    CeilDivUnique(n + d, d, q + 1);
  }

  lemma CeilDivSmall(n: nat, d: nat)
    requires 1 <= n <= d
    ensures CeilDiv(n, d) == 1
  {
    CeilDivUnique(n, d, 1);
  }

  lemma CeilDivZero(d: nat)
    requires d >= 1
    ensures CeilDiv(0, d) == 0
  {
    CeilDivUnique(0, d, 0);
  }

  /** The slicing loop makes ceil(n / size) slices. */
  lemma {:induction false} ChunkCount<T>(s: seq<T>, size: nat)
    requires size >= 1
    ensures |Chunks(s, size)| == CeilDiv(|s|, size)
    decreases |s|
  {
    hide CeilDiv, Flatten;
    if |s| > size {
      ChunkCount(s[size..], size);
      CeilDivStep(|s| - size, size);
    } else if s != [] {
      CeilDivSmall(|s|, size);
    } else {
      CeilDivZero(size);
    }
  }

  // ----- stable sorting -----

  ghost predicate TotalPreorder<T(!new)>(le: (T, T) -> bool) {
    && (forall x, y :: le(x, y) || le(y, x))
    && (forall x, y, z :: le(x, y) && le(y, z) ==> le(x, z))
  }

  ghost predicate SortedBy<T>(s: seq<T>, le: (T, T) -> bool) {
    forall i, j :: 0 <= i < j < |s| ==> le(s[i], s[j])
  }

  /** x placed before the first element it does not exceed. */
  function InsertInOrder<T>(x: T, s: seq<T>, le: (T, T) -> bool): (r: seq<T>)
    ensures multiset(r) == multiset(s) + multiset{x}
    ensures |r| == |s| + 1
  {
    if s == [] || le(x, s[0]) then
      [x] + s
    else
      assert s == [s[0]] + s[1..];
      [s[0]] + InsertInOrder(x, s[1..], le)
  }

  /** `list.sort`: ascending and stable. */
  function Sort<T>(s: seq<T>, le: (T, T) -> bool): (r: seq<T>)
    ensures multiset(r) == multiset(s)
    ensures |r| == |s|
  {
    if s == [] then []
    else
      assert s == [s[0]] + s[1..];
      InsertInOrder(s[0], Sort(s[1..], le), le)
  }

  lemma {:induction false} InsertKeepsOrder<T(!new)>(x: T, s: seq<T>, le: (T, T) -> bool)
    requires TotalPreorder(le) && SortedBy(s, le)
    ensures SortedBy(InsertInOrder(x, s, le), le)
  {
    if s != [] && !le(x, s[0]) {
      var tail := InsertInOrder(x, s[1..], le);
      InsertKeepsOrder(x, s[1..], le);
      forall y | y in tail ensures le(s[0], y) {
        assert y in multiset(tail);
        if y != x {
          assert y in multiset(s[1..]);
          var j :| 0 <= j < |s[1..]| && s[1..][j] == y;
          assert s[j + 1] == y;
        }
      }
    }
  }

  lemma {:induction false} SortSorts<T(!new)>(s: seq<T>, le: (T, T) -> bool)
    requires TotalPreorder(le)
    ensures SortedBy(Sort(s, le), le)
  {
    if s != [] {
      SortSorts(s[1..], le);
      InsertKeepsOrder(s[0], Sort(s[1..], le), le);
    }
  }

  lemma SortKeepsElements<T>(s: seq<T>, le: (T, T) -> bool)
    ensures forall x :: x in Sort(s, le) <==> x in s
  {
    forall x ensures x in Sort(s, le) <==> x in s {
      assert x in multiset(Sort(s, le)) <==> x in multiset(s);
    }
  }
}
