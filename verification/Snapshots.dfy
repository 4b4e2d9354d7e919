/** Interval snapshots and their overflow-checked merge. */
module Snapshots {
  import opened Wire
  import opened CountMaps

  /** Counters and latency histogram of one reporting interval; the histogram maps
      a recorded value in microseconds to its count. */
  datatype Snapshot = Snapshot(counters: Counters, latencies: Counts)

  const LOWEST_MICROS: int := 1
  const HIGHEST_MICROS: int := MAX_I64 / 1000

  const NO_COUNTERS := Counters(0, 0, 0, 0, 0, 0, 0, 0, 0, map[])
  const EMPTY := Snapshot(NO_COUNTERS, map[])

  /** The nine scalar counters in the order the merge visits them. */
  function Values(c: Counters): (v: seq<nat>) {
    [c.requests, c.succeeded, c.failed, c.transportErrors, c.clientErrors, c.serverErrors,
     c.bytesRead, c.droppedSamples, c.unmetDemand]
  }

  function FromValues(v: seq<nat>, codes: Counts): Counters
    requires |v| == 9
  {
    Counters(v[0], v[1], v[2], v[3], v[4], v[5], v[6], v[7], v[8], codes)
  }

  // ----- Exact addition ---------------------------------------------------------

  function AddCounters(a: Counters, b: Counters): Counters {
    Counters(a.requests + b.requests, a.succeeded + b.succeeded, a.failed + b.failed,
             a.transportErrors + b.transportErrors, a.clientErrors + b.clientErrors,
             a.serverErrors + b.serverErrors, a.bytesRead + b.bytesRead,
             a.droppedSamples + b.droppedSamples, a.unmetDemand + b.unmetDemand,
             Plus(a.statusCodes, b.statusCodes))
  }

  function Add(a: Snapshot, b: Snapshot): Snapshot {
    Snapshot(AddCounters(a.counters, b.counters), Plus(a.latencies, b.latencies))
  }

  /** The exact, unbounded total of a list of snapshots. */
  function Sum(snapshots: seq<Snapshot>): Snapshot {
    if |snapshots| == 0 then EMPTY
    else Add(Sum(snapshots[..|snapshots| - 1]), snapshots[|snapshots| - 1])
  }

  lemma AddLaws(a: Snapshot, b: Snapshot, c: Snapshot)
    ensures Add(a, b) == Add(b, a)
    ensures Add(Add(a, b), c) == Add(a, Add(b, c))
    ensures Add(EMPTY, a) == a == Add(a, EMPTY)
  {
    hide Plus;
    PlusCommutes(a.latencies, b.latencies);
    PlusCommutes(a.counters.statusCodes, b.counters.statusCodes);
    PlusAssociates(a.latencies, b.latencies, c.latencies);
    PlusAssociates(a.counters.statusCodes, b.counters.statusCodes, c.counters.statusCodes);
    PlusNothing(a.latencies);
    PlusNothing(a.counters.statusCodes);
  }

  lemma SumAppend(snapshots: seq<Snapshot>, s: Snapshot)
    ensures Sum(snapshots + [s]) == Add(Sum(snapshots), s)
  {
    hide Add;
    assert (snapshots + [s])[..|snapshots|] == snapshots;
  }

  /** One or two snapshots sum to what their plain addition gives. */
  lemma SumSmall(a: Snapshot, b: Snapshot)
    ensures Sum([a]) == a
    ensures Sum([a, b]) == Add(a, b)
  {
    hide Add;
    SumAppend([], a);
    assert [] + [a] == [a];
    SumAppend([a], b);
    assert [a] + [b] == [a, b];
    AddLaws(a, b, EMPTY);
  }

  function Without<T>(s: seq<T>, i: nat): seq<T>
    requires i < |s|
  {
    s[..i] + s[i + 1..]
  }

  lemma {:induction false} SumWithout(snapshots: seq<Snapshot>, i: nat)
    requires i < |snapshots|
    ensures Sum(snapshots) == Add(Sum(Without(snapshots, i)), snapshots[i])
    decreases |snapshots|
  {
    hide Add;
    var n := |snapshots| - 1;
    if i == n {
      assert Without(snapshots, i) == snapshots[..n];
    } else {
      var init, last := snapshots[..n], snapshots[n];
      SumWithout(init, i);
      assert Without(snapshots, i) == Without(init, i) + [last];
      SumAppend(Without(init, i), last);
      AddLaws(Sum(Without(init, i)), snapshots[i], last);
      AddLaws(Sum(Without(init, i)), last, snapshots[i]);
      AddLaws(snapshots[i], last, EMPTY);
    }
  }

  /** The exact total does not depend on the order of the snapshots. */
  lemma {:induction false} SumPermutation(a: seq<Snapshot>, b: seq<Snapshot>)
    requires multiset(a) == multiset(b)
    ensures Sum(a) == Sum(b)
    decreases |a|
  {
    hide Add;
    if |a| == 0 {
      assert |multiset(b)| == 0;
    } else {
      var x := a[|a| - 1];
      var init := a[..|a| - 1];
      assert a == init + [x];
      assert x in multiset(b);
      var i :| 0 <= i < |b| && b[i] == x;
      assert b == b[..i] + [x] + b[i + 1..];
      assert multiset(b) == multiset(Without(b, i)) + multiset{x};
      assert multiset(a) == multiset(init) + multiset{x};
      assert multiset(Without(b, i)) == multiset(b) - multiset{x} == multiset(init);
      SumPermutation(init, Without(b, i));
      SumWithout(b, i);
    }
  }

  /** Adding to one element adds to the total. */
  lemma SumUpdate(snapshots: seq<Snapshot>, i: nat, s: Snapshot)
    requires i < |snapshots|
    ensures Sum(snapshots[i := Add(snapshots[i], s)]) == Add(Sum(snapshots), s)
  {
    hide Add;
    var updated := snapshots[i := Add(snapshots[i], s)];
    SumWithout(snapshots, i);
    SumWithout(updated, i);
    assert Without(updated, i) == Without(snapshots, i);
    AddLaws(Sum(Without(snapshots, i)), snapshots[i], s);
  }

  lemma {:induction false} SumConcat(a: seq<Snapshot>, b: seq<Snapshot>)
    ensures Sum(a + b) == Add(Sum(a), Sum(b))
    decreases |b|
  {
    hide Add;
    if |b| == 0 {
      assert a + b == a;
      AddLaws(Sum(a), EMPTY, EMPTY);
    } else {
      var init, last := b[..|b| - 1], b[|b| - 1];
      SumConcat(a, init);
      assert a + b == (a + init) + [last];
      SumAppend(a + init, last);
      AddLaws(Sum(a), Sum(init), last);
    }
  }

  // ----- What a merge can hold ------------------------------------------------------

  /** Every counter and status count fits in 64 bits and every observed latency is trackable. */
  ghost predicate Fits(s: Snapshot) {
    && (forall i :: 0 <= i < 9 ==> Values(s.counters)[i] <= MAX_U64)
    && (forall code :: code in s.counters.statusCodes ==> s.counters.statusCodes[code] <= MAX_U64)
    && (forall micros :: micros in s.latencies && s.latencies[micros] > 0 ==> 0 <= micros <= HIGHEST_MICROS)
  }

  /** a is at most b in every component. */
  ghost predicate Below(a: Snapshot, b: Snapshot) {
    && (forall i :: 0 <= i < 9 ==> Values(a.counters)[i] <= Values(b.counters)[i])
    && (forall code :: At(a.counters.statusCodes, code) <= At(b.counters.statusCodes, code))
    && (forall micros :: At(a.latencies, micros) <= At(b.latencies, micros))
  }

  lemma BelowFits(a: Snapshot, b: Snapshot)
    requires Below(a, b) && Fits(b)
    ensures Fits(a)
  {
    forall code | code in a.counters.statusCodes
      ensures a.counters.statusCodes[code] <= MAX_U64
    {
      assert At(a.counters.statusCodes, code) <= At(b.counters.statusCodes, code);
    }
    forall micros | micros in a.latencies && a.latencies[micros] > 0
      ensures 0 <= micros <= HIGHEST_MICROS
    {
      assert At(a.latencies, micros) <= At(b.latencies, micros);
      assert micros in b.latencies;
    }
  }

  lemma BelowAdd(a: Snapshot, b: Snapshot, c: Snapshot, d: Snapshot)
    requires Below(a, b) && Below(c, d)
    ensures Below(Add(a, c), Add(b, d))
  {
    var l, r := Add(a, c), Add(b, d);
    forall i | 0 <= i < 9 ensures Values(l.counters)[i] <= Values(r.counters)[i] {
      assert Values(l.counters)[i] == Values(a.counters)[i] + Values(c.counters)[i];
      assert Values(r.counters)[i] == Values(b.counters)[i] + Values(d.counters)[i];
    }
    forall code ensures At(l.counters.statusCodes, code) <= At(r.counters.statusCodes, code) {
      AtPlus(a.counters.statusCodes, c.counters.statusCodes, code);
      AtPlus(b.counters.statusCodes, d.counters.statusCodes, code);
    }
    forall micros ensures At(l.latencies, micros) <= At(r.latencies, micros) {
      AtPlus(a.latencies, c.latencies, micros);
      AtPlus(b.latencies, d.latencies, micros);
    }
  }

  lemma AtPlus(a: Counts, b: Counts, k: int)
    ensures At(Plus(a, b), k) == At(a, k) + At(b, k)
  {
  }

  lemma BelowReflexive(a: Snapshot)
    ensures Below(a, a) && Below(EMPTY, a)
  {
  }

  /** Componentwise smaller lists have smaller totals. */
  lemma {:induction false} SumBelow(a: seq<Snapshot>, b: seq<Snapshot>)
    requires |a| == |b|
    requires forall i :: 0 <= i < |a| ==> Below(a[i], b[i])
    ensures Below(Sum(a), Sum(b))
    decreases |a|
  {
    hide Add, Below;
    if |a| == 0 {
      BelowReflexive(EMPTY);
    } else {
      var n := |a| - 1;
      SumBelow(a[..n], b[..n]);
      BelowAdd(Sum(a[..n]), Sum(b[..n]), a[n], b[n]);
    }
  }

  // ----- Merge -------------------------------------------------------------------------

  /** What a merge returns: the exact total, or nothing when a counter overflows or
      a latency lies outside the trackable range. */
  ghost function Merged(snapshots: seq<Snapshot>): Option<Snapshot> {
    if Fits(Sum(snapshots)) then Some(Sum(snapshots)) else None
  }

  /** Success and result of a merge are the same for every order of its inputs. */
  lemma MergeOrderIndependent(a: seq<Snapshot>, b: seq<Snapshot>)
    requires multiset(a) == multiset(b)
    ensures Merged(a) == Merged(b)
  {
    SumPermutation(a, b);
  }

  /** A prefix whose total does not fit makes the whole total not fit. */
  lemma PrefixFits(snapshots: seq<Snapshot>, n: nat)
    requires n <= |snapshots| && Fits(Sum(snapshots))
    ensures Fits(Sum(snapshots[..n]))
    decreases |snapshots| - n
  {
    hide Add, Below, Fits;
    if n == |snapshots| {
      assert snapshots[..n] == snapshots;
    } else {
      PrefixFits(snapshots, n + 1);
      var shorter, longer := snapshots[..n], snapshots[..n + 1];
      assert longer[..n] == shorter;
      BelowReflexive(Sum(shorter));
      BelowReflexive(snapshots[n]);
      BelowAdd(Sum(shorter), Sum(shorter), EMPTY, snapshots[n]);
      AddLaws(Sum(shorter), EMPTY, EMPTY);
      BelowFits(Sum(shorter), Sum(longer));
    }
  }

  /** Adds each counter in turn, stopping at the first that would overflow. */
  method AddValues(current: seq<nat>, add: seq<nat>) returns (sum: Option<seq<nat>>)
    requires |current| == |add|
    requires forall i :: 0 <= i < |current| ==> current[i] <= MAX_U64
    ensures sum.Some? <==> forall i :: 0 <= i < |add| ==> current[i] + add[i] <= MAX_U64
    ensures sum.Some? ==> sum.value == seq(|add|, i requires 0 <= i < |add| => current[i] + add[i])
  {
    var result: seq<nat> := [];
    var i := 0;
    while i < |add|
      invariant 0 <= i <= |add|
      invariant |result| == i
      invariant forall j :: 0 <= j < i ==> result[j] == current[j] + add[j] <= MAX_U64
    {
      if add[i] > MAX_U64 - current[i] {
        return None;
      }
      result := result + [current[i] + add[i]];
      i := i + 1;
    }
    return Some(result);
  }

  /** Adds one status map into another, stopping at the first count that would overflow. */
  method AddCounts(current: Counts, add: Counts) returns (sum: Option<Counts>)
    requires forall k :: k in current ==> current[k] <= MAX_U64
    ensures sum.Some? <==> forall k :: k in Plus(current, add) ==> Plus(current, add)[k] <= MAX_U64
    ensures sum.Some? ==> sum.value == Plus(current, add)
  {
    var result := current;
    var remaining := add.Keys;
    while remaining != {}
      invariant remaining <= add.Keys
      invariant result.Keys == current.Keys + (add.Keys - remaining)
      invariant forall k :: k in result ==> result[k] <= MAX_U64
      invariant forall k :: k in result ==> result[k] == At(current, k) + if k in remaining then 0 else At(add, k)
      decreases remaining
    {
      ghost var some := Member(remaining);
      var k :| k in remaining;
      if add[k] > MAX_U64 - At(result, k) {
        assert Plus(current, add)[k] == At(current, k) + add[k];
        return None;
      }
      result := result[k := At(result, k) + add[k]];
      remaining := remaining - {k};
    }
    SameMap(result, Plus(current, add));
    return Some(result);
  }

  predicate Trackable(micros: int) {
    0 <= micros <= HIGHEST_MICROS
  }

  /** Adds one histogram into another and reports how many observations it had to drop. */
  method AddHistogram(current: Counts, add: Counts) returns (sum: Counts, dropped: nat)
    ensures dropped == 0 <==> forall m :: m in add && add[m] > 0 ==> Trackable(m)
    ensures dropped == 0 ==> sum == Plus(current, add)
  {
    sum, dropped := current, 0;
    var remaining := add.Keys;
    while remaining != {}
      invariant remaining <= add.Keys
      invariant dropped == 0 <==> forall m :: m in add.Keys - remaining && add[m] > 0 ==> Trackable(m)
      invariant dropped == 0 ==> sum.Keys == current.Keys + (add.Keys - remaining)
      invariant dropped == 0 ==> forall k :: k in sum ==> sum[k] == At(current, k) + if k in remaining then 0 else At(add, k)
      decreases remaining
    {
      ghost var some := Member(remaining);
      var k :| k in remaining;
      assert forall m :: m in add.Keys - (remaining - {k}) <==> m in add.Keys - remaining || m == k;
      if add[k] > 0 && !Trackable(k) {
        dropped := dropped + add[k];
      } else {
        sum := sum[k := At(sum, k) + add[k]];
      }
      remaining := remaining - {k};
    }
    if dropped == 0 {
      SameMap(sum, Plus(current, add));
    }
  }

  /** One step of a merge: adds one snapshot to the running total. */
  method MergeOne(total: Snapshot, s: Snapshot) returns (merged: Option<Snapshot>)
    requires Fits(total)
    ensures merged == if Fits(Add(total, s)) then Some(Add(total, s)) else None
  {
    ghost var next := Add(total, s);
    var values := AddValues(Values(total.counters), Values(s.counters));
    assert forall i :: 0 <= i < 9 ==>
      Values(next.counters)[i] == Values(total.counters)[i] + Values(s.counters)[i];
    if values.None? {
      return None;
    }
    var codes := AddCounts(total.counters.statusCodes, s.counters.statusCodes);
    if codes.None? {
      return None;
    }
    var latencies, dropped := AddHistogram(total.latencies, s.latencies);
    if dropped != 0 {
      ghost var bad :| bad in s.latencies && s.latencies[bad] > 0 && !Trackable(bad);
      assert next.latencies[bad] > 0;
      return None;
    }
    assert FromValues(values.value, codes.value) == next.counters;
    assert forall m :: m in next.latencies && next.latencies[m] > 0 ==>
      At(total.latencies, m) > 0 || At(s.latencies, m) > 0;
    return Some(Snapshot(FromValues(values.value, codes.value), latencies));
  }

  /** Adds interval histograms and counters one snapshot after another. It succeeds
      exactly when the exact total fits, and then returns that total. */
  method Merge(snapshots: seq<Snapshot>) returns (merged: Option<Snapshot>)
    ensures merged == Merged(snapshots)
  {
    hide Add;
    var total := EMPTY;
    var i := 0;
    while i < |snapshots|
      invariant 0 <= i <= |snapshots|
      invariant total == Sum(snapshots[..i]) && Fits(total)
    {
      assert snapshots[..i + 1][..i] == snapshots[..i];
      if Fits(Sum(snapshots)) {
        PrefixFits(snapshots, i + 1);
      }
      var next := MergeOne(total, snapshots[i]);
      if next.None? {
        return None;
      }
      total := next.value;
      i := i + 1;
    }
    assert snapshots[..i] == snapshots;
    return Some(total);
  }
}
