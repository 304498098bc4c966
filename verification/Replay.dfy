/** The replay player (replay/player.py): slicing, identity modes and the accounting of
    run_replay over any completion order. */
module Replay {
  import opened Common
  import opened Telemetry
  import I = Identity

  // ----- chunk -----

  /** `range(0, n, size)`: zero is an error, a negative step yields nothing. */
  function Batches<T>(events: seq<T>, size: int): Option<seq<seq<T>>> {
    if size == 0 then None
    else if size < 0 then Some([])
    else Some(Chunks(events, size))
  }

  function Min(a: int, b: int): int {
    if a <= b then a else b
  }

  lemma ChunksStep<T>(events: seq<T>, size: nat, i: nat)
    requires size >= 1 && i < |events|
    ensures var end := Min(i + size, |events|);
      Chunks(events[i..], size) == [events[i..end]] + Chunks(events[end..], size)
  {
    var s := events[i..];
    if |s| <= size {
      assert s == events[i..|events|] && events[|events|..] == [];
      assert [s] + [] == [s];
    } else {
      assert s[..size] == events[i..i + size] && s[size..] == events[i + size..];
    }
  }

  /** The generator's loop, run to its end. */
  method Chunk<T>(events: seq<T>, size: int) returns (parts: Option<seq<seq<T>>>)
    ensures parts == Batches(events, size)
    ensures size >= 1 ==> parts.Some? && Flatten(parts.value) == events && |parts.value| == CeilDiv(|events|, size)
  {
    if size == 0 {
      return None;
    }
    var out: seq<seq<T>> := [];
    if size > 0 {
      var i := 0;
      assert events[0..] == events;
      while i < |events|
        invariant 0 <= i <= |events|
        invariant out + Chunks(events[i..], size) == Chunks(events, size)
      {
        var end := Min(i + size, |events|);
        ChunksStep(events, size, i);
        AppendAssociates(out, events[i..end], Chunks(events[end..], size));
        out := out + [events[i..end]];
        i := end;
      }
      assert events[i..] == [] && out + [] == out;
      ChunkCount(events, size);
    }
    return Some(out);
  }

  lemma AppendAssociates<T>(a: seq<T>, x: T, b: seq<T>)
    ensures a + ([x] + b) == (a + [x]) + b
  {}

  // ----- prepare_batch -----

  datatype Mode = ModeReplay | ModeFresh

  function FreshEvent(uuid5: string -> string, uuid4: string, salt: string, now: string,
                      e: TelemetryEvent): TelemetryEvent {
    e.(ingestionId := I.FreshIngestionId(uuid5, uuid4, e.source, e.icao24, e.lastContact, salt), ingestedAt := now)
  }

  /** uuid4(i) is the random id event i would draw. */
  method PrepareBatch(uuid5: string -> string, uuid4: nat -> string, events: seq<TelemetryEvent>, mode: Mode,
                      now: string, salt: string)
    returns (prepared: seq<TelemetryEvent>)
    ensures |prepared| == |events|
    ensures mode.ModeReplay? ==> prepared == events
    ensures mode.ModeFresh? ==>
      forall i :: 0 <= i < |events| ==>
        var e, p := events[i], prepared[i];
        && p == e.(ingestionId := p.ingestionId, ingestedAt := now)
        && (e.lastContact.None? ==> p.ingestionId == uuid4(i))
        && (e.lastContact.Some? ==>
              p.ingestionId == uuid5(I.FreshText(salt, e.source, e.icao24, e.lastContact.value)))
  {
    if mode.ModeReplay? {
      return events;
    }
    prepared := [];
    for i := 0 to |events|
      invariant |prepared| == i
      invariant forall k :: 0 <= k < i ==> prepared[k] == FreshEvent(uuid5, uuid4(k), salt, now, events[k])
    {
      prepared := prepared + [FreshEvent(uuid5, uuid4(i), salt, now, events[i])];
    }
  }

  /** What fresh mode is for: within a run ids repeat exactly where observations do, runs
      with different salts share no id, and no id is one the collector gave out, unless
      the salt is the collector's source name. */
  lemma FreshIdsAreFresh(uuid5: string -> string, u1: string, u2: string, salt1: string, salt2: string, now: string,
                         d: TelemetryEvent, e: TelemetryEvent, c: TelemetryEvent)
    requires I.Injective(uuid5) && d.lastContact.Some? && e.lastContact.Some? && I.CollectorId(uuid5, c)
    requires I.Free(salt1, ':') && I.Free(salt2, ':') && I.Free(d.source, ':') && I.Free(e.source, ':') &&
      I.Free(c.source, ':')
    ensures var fd := FreshEvent(uuid5, u1, salt1, now, d).ingestionId;
      var fe := FreshEvent(uuid5, u2, salt2, now, e).ingestionId;
      && (fd == fe <==>
          salt1 == salt2 && d.source == e.source && d.icao24 == e.icao24 && d.lastContact == e.lastContact)
      && (salt1 != c.source ==> fd != c.ingestionId)
  {
    var fd, fe := FreshEvent(uuid5, u1, salt1, now, d).ingestionId, FreshEvent(uuid5, u2, salt2, now, e).ingestionId;
    if salt1 != salt2 {
      I.DifferentSaltsDisjoint(salt1, d.source, d.icao24, d.lastContact.value, salt2, e.source, e.icao24,
        e.lastContact.value);
    } else if fd == fe {
      I.FreshTextInjective(salt1, d.source, d.icao24, d.lastContact.value, e.source, e.icao24, e.lastContact.value);
    }
    I.FreshMeetsCollectorIff(salt1, d.source, d.icao24, d.lastContact.value, c.source, c.icao24, c.lastContact.value);
  }

  // ----- run_replay -----

  datatype Summary = Summary(batchesSent: int, eventsSent: int, failedBatches: int)

  function Indices(n: nat): (s: seq<int>)
    ensures |s| == n
    ensures forall i :: 0 <= i < n ==> s[i] == i
  {
    seq(n, i requires 0 <= i < n => i)
  }

  /** Terms of the sums over batches: the length of batch i, the same if it was accepted
      or if it was not, and one for each that was not. */
  function Length(sizes: seq<int>): int -> int {
    (i: int) => if 0 <= i < |sizes| then sizes[i] else 0
  }

  function Sent(sizes: seq<int>, ok: int -> bool): int -> int {
    (i: int) => if ok(i) then Length(sizes)(i) else 0
  }

  function Lost(sizes: seq<int>, ok: int -> bool): int -> int {
    (i: int) => if ok(i) then 0 else Length(sizes)(i)
  }

  function Failed(ok: int -> bool): int -> int {
    (i: int) => if ok(i) then 0 else 1
  }

  function Sizes<T>(parts: seq<seq<T>>): (sizes: seq<int>)
    ensures |sizes| == |parts|
    ensures forall i :: 0 <= i < |parts| ==> sizes[i] == |parts[i]|
  {
    seq(|parts|, i requires 0 <= i < |parts| => |parts[i]|)
  }

  /** Taking one term out of a sum. */
  lemma TakeOut<T>(b: seq<T>, k: nat, f: T -> int)
    requires k < |b|
    ensures SumBy(b, f) == f(b[k]) + SumBy(b[..k] + b[k + 1..], f)
  {
    var tail := [b[k]] + b[k + 1..];
    assert b == b[..k] + tail && tail[1..] == b[k + 1..];
    SumByAppend(b[..k], tail, f);
    SumByAppend(b[..k], b[k + 1..], f);
  }

  lemma SameRest<T>(a: seq<T>, b: seq<T>, k: nat)
    requires a != [] && multiset(a) == multiset(b) && k < |b| && b[k] == a[0]
    ensures multiset(a[1..]) == multiset(b[..k] + b[k + 1..])
  {
    var rest := b[..k] + b[k + 1..];
    assert a == [a[0]] + a[1..];
    assert b == b[..k] + ([b[k]] + b[k + 1..]);
    assert multiset(rest) == multiset(b) - multiset{b[k]};
  }

  /** A sum does not depend on the order of its terms. */
  lemma {:induction false} SumByPermutation<T>(a: seq<T>, b: seq<T>, f: T -> int)
    requires multiset(a) == multiset(b)
    ensures SumBy(a, f) == SumBy(b, f)
    decreases |a|
  {
    if a == [] {
      assert |multiset(b)| == |b|;
    } else {
      assert a[0] in multiset(a);
      var k :| 0 <= k < |b| && b[k] == a[0];
      SameRest(a, b, k);
      SumByPermutation(a[1..], b[..k] + b[k + 1..], f);
      TakeOut(b, k, f);
    }
  }

  lemma {:induction false} SentPlusLost(sizes: seq<int>, ok: int -> bool, ix: seq<int>)
    ensures SumBy(ix, Sent(sizes, ok)) + SumBy(ix, Lost(sizes, ok)) == SumBy(ix, Length(sizes))
  {
    if ix != [] { SentPlusLost(sizes, ok, ix[1..]); }
  }

  lemma {:induction false} SizesTotal<T>(parts: seq<seq<T>>, n: nat)
    requires n <= |parts|
    ensures SumBy(Indices(n), Length(Sizes(parts))) == |Flatten(parts[..n])|
  {
    if n > 0 {
      SizesTotal(parts, n - 1);
      assert Indices(n) == Indices(n - 1) + [n - 1];
      SumByPush(Indices(n - 1), n - 1, Length(Sizes(parts)));
      assert parts[..n] == parts[..n - 1] + [parts[n - 1]];
      FlattenPush(parts[..n - 1], parts[n - 1]);
    }
  }

  lemma {:induction false} FlattenPush<T>(parts: seq<seq<T>>, p: seq<T>)
    ensures Flatten(parts + [p]) == Flatten(parts) + p
  {
    if parts == [] {
      assert Flatten([p]) == p + Flatten([]) by { assert [p][1..] == []; }
    } else {
      assert (parts + [p])[1..] == parts[1..] + [p];
      FlattenPush(parts[1..], p);
    }
  }

  lemma OrderInRange(order: seq<int>, n: nat)
    requires multiset(order) == multiset(Indices(n))
    ensures |order| == n && forall i :: i in order ==> 0 <= i < n
  {
    assert |multiset(order)| == |order| && |multiset(Indices(n))| == n;
    forall i | i in order ensures 0 <= i < n {
      assert i in multiset(order);
      assert i in Indices(n);
    }
  }

  /** The as_completed loop: its totals are those of the batches in submission order. */
  method Collect(futures: seq<int>, ok: int -> bool, order: seq<int>) returns (r: Summary)
    requires multiset(order) == multiset(Indices(|futures|))
    ensures var all := Indices(|futures|);
      r == Summary(|futures|, SumBy(all, Sent(futures, ok)), SumBy(all, Failed(ok)))
  {
    OrderInRange(order, |futures|);
    var batchesSent, eventsSent, failures := 0, 0, 0;
    for n := 0 to |order|
      invariant batchesSent == n
      invariant eventsSent == SumBy(order[..n], Sent(futures, ok))
      invariant failures == SumBy(order[..n], Failed(ok))
    {
      var future := order[n];
      assert order[..n + 1] == order[..n] + [future] && future in order;
      SumByPush(order[..n], future, Sent(futures, ok));
      SumByPush(order[..n], future, Failed(ok));
      batchesSent := batchesSent + 1;
      if ok(future) {
        eventsSent := eventsSent + futures[future];
      } else {
        failures := failures + 1;
      }
    }
    assert order[..|order|] == order;
    SumByPermutation(order, Indices(|futures|), Sent(futures, ok));
    SumByPermutation(order, Indices(|futures|), Failed(ok));
    return Summary(batchesSent, eventsSent, failures);
  }

  /** The events of accepted and of failed batches are together the fixture. */
  lemma NothingUnaccounted<T>(events: seq<T>, size: nat, ok: int -> bool)
    requires size >= 1
    ensures var sizes := Sizes(Chunks(events, size));
      SumBy(Indices(|sizes|), Sent(sizes, ok)) + SumBy(Indices(|sizes|), Lost(sizes, ok)) == |events|
  {
    var parts := Chunks(events, size);
    SentPlusLost(Sizes(parts), ok, Indices(|parts|));
    SizesTotal(parts, |parts|);
    assert parts[..|parts|] == parts;
  }

  // ----- the totals, event by event -----

  /** The events whose batch was accepted: event k is in batch k / size. */
  function AcceptedEvents(n: nat, size: nat, ok: int -> bool): set<int>
    requires size >= 1
  {
    set k: int | 0 <= k < n && ok(BatchOf(k, size))
  }

  function BatchOf(k: int, size: nat): int
    requires size >= 1
  {
    k / size
  }

  function RejectedBatches(m: nat, ok: int -> bool): set<int> {
    set b: int | 0 <= b < m && !ok(b)
  }

  /** Where batch i ends among n events. */
  function EndOf(n: nat, size: nat, i: nat): nat {
    if i * size <= n then i * size else n
  }

  function Range(lo: int, hi: int): (r: set<int>)
    requires lo <= hi
    ensures forall k :: k in r <==> lo <= k < hi
    ensures |r| == hi - lo
    decreases hi - lo
  {
    if lo == hi then {} else Range(lo, hi - 1) + {hi - 1}
  }

  lemma InBatch(k: nat, size: nat, i: nat)
    requires size >= 1 && i * size <= k < i * size + size
    ensures BatchOf(k, size) == i
  {
    var q := k / size;
    assert k == q * size + k % size;
    var e := q - i;
    assert e * size == q * size - i * size;
    assert e >= 1 ==> e * size >= size;
    assert e <= -1 ==> e * size + size <= 0;
  }

  /** From one batch's end to the next. */
  lemma EndOfNext(n: nat, size: nat, i: nat)
    requires size >= 1 && i * size <= n
    ensures EndOf(n, size, i) == i * size && EndOf(n, size, i + 1) == Min(i * size + size, n)
  {
    assert (i + 1) * size == i * size + size;
  }

  lemma {:induction false} ChunkEnds<T>(events: seq<T>, size: nat, i: nat)
    requires size >= 1 && i < |Chunks(events, size)|
    ensures |Chunks(events, size)[i]| == EndOf(|events|, size, i + 1) - EndOf(|events|, size, i)
    ensures i * size < |events|
    decreases i
  {
    if i == 0 {
      assert 1 * size == size && 0 * size == 0;
    } else {
      var rest := events[size..];
      assert Chunks(events, size)[i] == Chunks(rest, size)[i - 1];
      ChunkEnds(rest, size, i - 1);
      assert i * size == (i - 1) * size + size && (i + 1) * size == i * size + size;
    }
  }

  lemma MoreAccepted(lo: nat, hi: nat, size: nat, ok: int -> bool, i: nat)
    requires size >= 1 && lo <= hi && forall k :: lo <= k < hi ==> BatchOf(k, size) == i
    ensures |AcceptedEvents(hi, size, ok)| == |AcceptedEvents(lo, size, ok)| + (if ok(i) then hi - lo else 0)
  {
    hide BatchOf;
    var before, after, batch := AcceptedEvents(lo, size, ok), AcceptedEvents(hi, size, ok), Range(lo, hi);
    if ok(i) {
      assert after == before + batch && before !! batch;
    } else {
      assert after == before;
    }
  }

  lemma OneBatchMore(n: nat, size: nat, ok: int -> bool, i: nat)
    requires size >= 1 && i * size <= n
    ensures |AcceptedEvents(EndOf(n, size, i + 1), size, ok)|
      == |AcceptedEvents(EndOf(n, size, i), size, ok)|
         + (if ok(i) then EndOf(n, size, i + 1) - EndOf(n, size, i) else 0)
  {
    hide AcceptedEvents, EndOf, BatchOf;
    var lo, hi := EndOf(n, size, i), EndOf(n, size, i + 1);
    EndOfNext(n, size, i);
    forall k: nat | lo <= k < hi ensures BatchOf(k, size) == i { InBatch(k, size, i); }
    MoreAccepted(lo, hi, size, ok, i);
  }

  lemma SentOf(sizes: seq<int>, ok: int -> bool, i: nat)
    requires i < |sizes|
    ensures Sent(sizes, ok)(i) == if ok(i) then sizes[i] else 0
  {}

  lemma NoneAccepted(n: nat, size: nat, ok: int -> bool)
    requires size >= 1
    ensures EndOf(n, size, 0) == 0 && AcceptedEvents(0, size, ok) == {}
  {}

  lemma {:induction false} SentEvents<T>(events: seq<T>, size: nat, ok: int -> bool, m: nat)
    requires size >= 1 && m <= |Chunks(events, size)|
    ensures SumBy(Indices(m), Sent(Sizes(Chunks(events, size)), ok))
      == |AcceptedEvents(EndOf(|events|, size, m), size, ok)|
    decreases m, 0
  {
    if m == 0 {
      NoneAccepted(|events|, size, ok);
    } else {
      SentStep(events, size, ok, m - 1);
    }
  }

  lemma {:induction false} SentStep<T>(events: seq<T>, size: nat, ok: int -> bool, i: nat)
    requires size >= 1 && i < |Chunks(events, size)|
    ensures SumBy(Indices(i + 1), Sent(Sizes(Chunks(events, size)), ok))
      == |AcceptedEvents(EndOf(|events|, size, i + 1), size, ok)|
    decreases i, 1
  {
    hide Chunks, EndOf, AcceptedEvents, Sent, SumBy, Indices;
    var sizes := Sizes(Chunks(events, size));
    SentEvents(events, size, ok, i);
    ChunkEnds(events, size, i);
    assert Indices(i + 1) == Indices(i) + [i];
    SumByPush(Indices(i), i, Sent(sizes, ok));
    SentOf(sizes, ok, i);
    OneBatchMore(|events|, size, ok, i);
  }

  lemma AcceptedMeaning(n: nat, size: nat, ok: int -> bool)
    requires size >= 1
    ensures AcceptedEvents(n, size, ok) == set k: int | 0 <= k < n && ok(k / size)
  {}

  lemma OneRejectedMore(m: nat, ok: int -> bool)
    ensures |RejectedBatches(m + 1, ok)| == |RejectedBatches(m, ok)| + (if ok(m) then 0 else 1)
  {
    assert RejectedBatches(m + 1, ok) == RejectedBatches(m, ok) + if ok(m) then {} else {m};
  }

  lemma FailedUpTo(ok: int -> bool, m: nat)
    ensures SumBy(Indices(m + 1), Failed(ok)) == SumBy(Indices(m), Failed(ok)) + (if ok(m) then 0 else 1)
  {
    hide SumBy;
    assert Indices(m + 1) == Indices(m) + [m];
    SumByPush(Indices(m), m, Failed(ok));
  }

  lemma {:induction false} FailedBatches(ok: int -> bool, m: nat)
    ensures SumBy(Indices(m), Failed(ok)) == |RejectedBatches(m, ok)|
  {
    if m == 0 {
      assert RejectedBatches(0, ok) == {};
    } else {
      hide RejectedBatches, SumBy, Indices, Failed;
      FailedBatches(ok, m - 1);
      FailedUpTo(ok, m - 1);
      OneRejectedMore(m - 1, ok);
    }
  }

  lemma AllSent<T>(events: seq<T>, size: nat, ok: int -> bool)
    requires size >= 1
    ensures var sizes := Sizes(Chunks(events, size));
      && SumBy(Indices(|sizes|), Sent(sizes, ok)) == |set k: int | 0 <= k < |events| && ok(k / size)|
      && SumBy(Indices(|sizes|), Failed(ok)) == |RejectedBatches(CeilDiv(|events|, size), ok)|
  {
    var m := |Chunks(events, size)|;
    ChunkCount(events, size);
    CeilDivBounds(|events|, size);
    SentEvents(events, size, ok, m);
    AcceptedMeaning(|events|, size, ok);
    FailedBatches(ok, m);
  }

  /** run_replay without its waits: `order` is the order in which the batches completed and
      ok(i) whether batch i was accepted. None is `sys.exit(1)` on an empty fixture or the
      error of a zero batch size; with a negative size nothing is sent or reported lost. */
  method RunReplay<T>(events: seq<T>, size: int, ok: int -> bool, order: seq<int>) returns (r: Option<Summary>)
    requires Batches(events, size).Some? ==> multiset(order) == multiset(Indices(|Batches(events, size).value|))
    ensures r.None? <==> events == [] || size == 0
    ensures r.Some? && size >= 1 ==>
      var sizes := Sizes(Chunks(events, size));
      var all := Indices(|sizes|);
      && r.value.batchesSent == CeilDiv(|events|, size)
      && r.value.eventsSent == SumBy(all, Sent(sizes, ok))
      && r.value.failedBatches == SumBy(all, Failed(ok))
      && r.value.eventsSent + SumBy(all, Lost(sizes, ok)) == |events|
      && r.value.eventsSent == |set k: int | 0 <= k < |events| && ok(k / size)|
      && r.value.failedBatches == |set b: int | 0 <= b < r.value.batchesSent && !ok(b)|
    ensures r.Some? && size < 0 ==> r.value == Summary(0, 0, 0)
  {
    if events == [] {
      return None;
    }
    var parts := Chunk(events, size);
    if parts.None? {
      return None;
    }
    var futures: seq<int> := [];
    for i := 0 to |parts.value|
      invariant |futures| == i && forall k :: 0 <= k < i ==> futures[k] == |parts.value[k]|
    {
      futures := futures + [|parts.value[i]|];
    }
    assert futures == Sizes(parts.value);
    hide SumBy, Sizes, CeilDiv;
    var summary := Collect(futures, ok, order);
    if size >= 1 {
      NothingUnaccounted(events, size, ok);
      AllSent(events, size, ok);
    }
    return Some(summary);
  }
}
