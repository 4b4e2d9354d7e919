/** How one request result enters a snapshot, and why merging separately recorded
    snapshots equals recording everything into one. */
module Recording {
  import opened Wire
  import opened CountMaps
  import opened Snapshots

  /** The outcome of one target request. */
  datatype Result = Result(latency: Duration, statusCode: int, bytesRead: int, failed: bool)

  /** What schedulers offer to a collector. */
  datatype Sample = Request(result: Result) | UnmetDemand

  /** Whole microseconds of a latency, truncated toward zero and at least the lowest trackable value. */
  function LatencyMicros(latency: Duration): (micros: int)
    ensures Trackable(micros)
  {
    var whole := if latency >= 0 then latency / 1000 else -((-(latency as int)) / 1000);
    Max(whole, LOWEST_MICROS)
  }

  /** The trackable values from the lowest one on are exactly those that some latency takes. */
  lemma TrackableExactly(micros: int)
    ensures micros >= LOWEST_MICROS && Trackable(micros) <==> exists latency: Duration :: LatencyMicros(latency) == micros
  {
    if micros >= LOWEST_MICROS && Trackable(micros) {
      var latency: Duration := micros * 1000;
      assert latency / 1000 == micros;
      assert LatencyMicros(latency) == micros;
    }
  }

  function Increment(m: Counts, k: int): Counts {
    m[k := At(m, k) + 1]
  }

  /** Classifies one result into exactly one outcome category and keeps its status. */
  function RecordResult(s: Snapshot, r: Result): Snapshot {
    var c := s.counters;
    var c := c.(requests := c.requests + 1);
    var c := if r.bytesRead > 0 then c.(bytesRead := (c.bytesRead + r.bytesRead) % TWO_64) else c;
    var c := if r.statusCode > 0 then c.(statusCodes := Increment(c.statusCodes, r.statusCode)) else c;
    var c :=
      if r.failed then c.(transportErrors := c.transportErrors + 1, failed := c.failed + 1)
      else if 400 <= r.statusCode < 500 then c.(clientErrors := c.clientErrors + 1, failed := c.failed + 1)
      else if r.statusCode >= 500 then c.(serverErrors := c.serverErrors + 1, failed := c.failed + 1)
      else c.(succeeded := c.succeeded + 1);
    Snapshot(c, Increment(s.latencies, LatencyMicros(r.latency)))
  }

  function Record(s: Snapshot, sample: Sample): Snapshot {
    match sample
    case Request(r) => RecordResult(s, r)
    case UnmetDemand => s.(counters := s.counters.(unmetDemand := s.counters.unmetDemand + 1))
  }

  /** The snapshot that holds exactly these samples, recorded in order. */
  function Recorded(samples: seq<Sample>): Snapshot {
    if |samples| == 0 then EMPTY
    else Record(Recorded(samples[..|samples| - 1]), samples[|samples| - 1])
  }

  lemma RecordedAppend(samples: seq<Sample>, sample: Sample)
    ensures Recorded(samples + [sample]) == Record(Recorded(samples), sample)
  {
    hide Record;
    assert (samples + [sample])[..|samples|] == samples;
  }

  // ----- Exact contributions -----------------------------------------------------------

  function Bit(b: bool): nat {
    if b then 1 else 0
  }

  /** What one sample adds to a snapshot, with its bytes counted exactly. */
  function One(sample: Sample): Snapshot {
    match sample
    case UnmetDemand => EMPTY.(counters := NO_COUNTERS.(unmetDemand := 1))
    case Request(r) =>
      var client := !r.failed && 400 <= r.statusCode < 500;
      var server := !r.failed && r.statusCode >= 500;
      Snapshot(
        Counters(1, Bit(!r.failed && !client && !server), Bit(r.failed || client || server),
                 Bit(r.failed), Bit(client), Bit(server), Max(r.bytesRead, 0), 0, 0,
                 if r.statusCode > 0 then map[r.statusCode := 1] else map[]),
        map[LatencyMicros(r.latency) := 1])
  }

  function Ones(samples: seq<Sample>): (ones: seq<Snapshot>)
    ensures |ones| == |samples|
  {
    seq(|samples|, i requires 0 <= i < |samples| => One(samples[i]))
  }

  /** The exact total of the samples, without wrap-around. */
  function Exact(samples: seq<Sample>): Snapshot {
    Sum(Ones(samples))
  }

  /** The byte counter of a recording wraps at 64 bits. */
  function Wrap(s: Snapshot): Snapshot {
    s.(counters := s.counters.(bytesRead := s.counters.bytesRead % TWO_64))
  }

  lemma IncrementIsPlus(m: Counts, k: int)
    ensures Increment(m, k) == Plus(m, map[k := 1])
  {
    SameMap(Increment(m, k), Plus(m, map[k := 1]));
  }

  lemma RecordIsAdd(s: Snapshot, sample: Sample)
    ensures Record(Wrap(s), sample) == Wrap(Add(s, One(sample)))
  {
    hide Increment, Plus, LatencyMicros;
    PlusNothing(s.counters.statusCodes);
    PlusNothing(s.latencies);
    match sample {
      case UnmetDemand =>
      case Request(r) =>
        IncrementIsPlus(s.latencies, LatencyMicros(r.latency));
        IncrementIsPlus(s.counters.statusCodes, r.statusCode);
    }
  }

  lemma ExactAppend(samples: seq<Sample>, sample: Sample)
    ensures Exact(samples + [sample]) == Add(Exact(samples), One(sample))
  {
    hide Add, One, Sum;
    assert Ones(samples + [sample]) == Ones(samples) + [One(sample)];
    SumAppend(Ones(samples), One(sample));
  }

  /** A recording is the exact total of its samples with the byte counter wrapped. */
  lemma {:induction false} RecordedIsExact(samples: seq<Sample>)
    ensures Recorded(samples) == Wrap(Exact(samples))
    decreases |samples|
  {
    hide Add, One, Record;
    if |samples| == 0 {
    } else {
      var init, last := samples[..|samples| - 1], samples[|samples| - 1];
      assert samples == init + [last];
      RecordedIsExact(init);
      ExactAppend(init, last);
      RecordIsAdd(Exact(init), last);
    }
  }

  // ----- Merge is a homomorphism -----------------------------------------------------------

  function Flatten<T>(parts: seq<seq<T>>): seq<T> {
    if |parts| == 0 then [] else Flatten(parts[..|parts| - 1]) + parts[|parts| - 1]
  }

  function Recordings(parts: seq<seq<Sample>>): (recordings: seq<Snapshot>)
    ensures |recordings| == |parts|
  {
    seq(|parts|, i requires 0 <= i < |parts| => Recorded(parts[i]))
  }

  lemma ExactNothing()
    ensures Exact([]) == EMPTY
  {
  }

  lemma ExactConcat(a: seq<Sample>, b: seq<Sample>)
    ensures Exact(a + b) == Add(Exact(a), Exact(b))
  {
    hide Add, One, Sum;
    assert Ones(a + b) == Ones(a) + Ones(b);
    SumConcat(Ones(a), Ones(b));
  }

  lemma ExactWithout(samples: seq<Sample>, i: nat)
    requires i < |samples|
    ensures Exact(samples) == Add(Exact(Without(samples, i)), One(samples[i]))
  {
    hide Add, One, Sum;
    assert Without(Ones(samples), i) == Ones(Without(samples, i));
    SumWithout(Ones(samples), i);
  }

  /** The exact total does not depend on the order of the samples. */
  lemma {:induction false} ExactPermutation(a: seq<Sample>, b: seq<Sample>)
    requires multiset(a) == multiset(b)
    ensures Exact(a) == Exact(b)
    decreases |a|
  {
    hide Add, One, Exact;
    if |a| == 0 {
      assert |multiset(b)| == 0;
    } else {
      var n := |a| - 1;
      assert a == a[..n] + [a[n]];
      assert a[n] in multiset(b);
      var i :| 0 <= i < |b| && b[i] == a[n];
      assert b == b[..i] + [a[n]] + b[i + 1..];
      assert multiset(a[..n]) == multiset(a) - multiset{a[n]};
      assert multiset(Without(b, i)) == multiset(b) - multiset{a[n]};
      ExactPermutation(a[..n], Without(b, i));
      ExactWithout(b, i);
      ExactAppend(a[..n], a[n]);
    }
  }

  /** Wrapping the parts first changes a total by whole multiples of the counter range. */
  lemma WrapAdd(a: Snapshot, b: Snapshot, c: Snapshot)
    requires Wrap(a) == Wrap(b)
    ensures Wrap(Add(a, Wrap(c))) == Wrap(Add(b, c))
    ensures a.counters.bytesRead <= b.counters.bytesRead ==>
      Add(a, Wrap(c)).counters.bytesRead <= Add(b, c).counters.bytesRead
  {
    hide Plus;
    var x, y, z := a.counters.bytesRead, b.counters.bytesRead, c.counters.bytesRead;
    assert a == b.(counters := b.counters.(bytesRead := x)) && x % TWO_64 == y % TWO_64;
    WrapTwice(x, y, z);
  }

  lemma WrapTwice(x: nat, y: nat, z: nat)
    requires x % TWO_64 == y % TWO_64
    ensures (x + z % TWO_64) % TWO_64 == (y + z) % TWO_64
    ensures z % TWO_64 <= z
  {
    var k, l := x / TWO_64 - y / TWO_64, z / TWO_64;
    assert x + z % TWO_64 == y + z + (k - l) * TWO_64;
    ShiftModulus(y + z, k - l);
  }

  lemma ShiftModulus(x: nat, k: int)
    requires x + k * TWO_64 >= 0
    ensures (x + k * TWO_64) % TWO_64 == x % TWO_64
  {
  }

  lemma {:induction false} SumOfRecordings(parts: seq<seq<Sample>>)
    ensures Wrap(Sum(Recordings(parts))) == Wrap(Exact(Flatten(parts)))
    ensures Sum(Recordings(parts)).counters.bytesRead <= Exact(Flatten(parts)).counters.bytesRead
    decreases |parts|
  {
    hide Add, One, Wrap, Exact, Recorded;
    if |parts| == 0 {
      ExactNothing();
    } else {
      var init, last := parts[..|parts| - 1], parts[|parts| - 1];
      SumOfRecordings(init);
      assert Recordings(parts) == Recordings(init) + [Recorded(last)];
      SumAppend(Recordings(init), Recorded(last));
      RecordedIsExact(last);
      ExactConcat(Flatten(init), last);
      WrapAdd(Sum(Recordings(init)), Exact(Flatten(init)), Exact(last));
    }
  }

  /** Recording any partition or interleaving of the samples separately and merging:
      whenever the merge succeeds it is what one snapshot would have recorded, and it
      succeeds whenever the exact total fits. */
  lemma MergeOfPartsIsWhole(parts: seq<seq<Sample>>, all: seq<Sample>)
    requires multiset(Flatten(parts)) == multiset(all)
    ensures Merged(Recordings(parts)).Some? ==> Merged(Recordings(parts)).value == Recorded(all)
    ensures Fits(Exact(all)) ==> Merged(Recordings(parts)).Some?
  {
    hide Sum, Exact, Recorded;
    var merged, exact := Sum(Recordings(parts)), Exact(all);
    SumOfRecordings(parts);
    ExactPermutation(Flatten(parts), all);
    RecordedIsExact(all);
    if Fits(merged) {
      assert Values(merged.counters)[6] == merged.counters.bytesRead;
      assert Wrap(merged) == merged;
    }
    if Fits(exact) {
      WrapFits(merged, exact);
    }
  }

  lemma WrapFits(a: Snapshot, b: Snapshot)
    requires Wrap(a) == Wrap(b) && a.counters.bytesRead <= b.counters.bytesRead && Fits(b)
    ensures Fits(a)
  {
    assert a == b.(counters := b.counters.(bytesRead := a.counters.bytesRead));
    assert Values(b.counters)[6] == b.counters.bytesRead;
    forall i | 0 <= i < 9 ensures Values(a.counters)[i] <= MAX_U64 {
      assert Values(a.counters)[i] == Values(b.counters)[i] || i == 6;
    }
  }

  const BIG := Request(Result(0, 200, MAX_I64, false))

  lemma RecordedBig()
    ensures Recorded([BIG]).counters.bytesRead == MAX_I64
  {
    RecordedAppend([], BIG);
    assert [] + [BIG] == [BIG];
  }

  lemma BytesOfThree(r: Snapshot)
    ensures Sum([r, r, r]).counters.bytesRead == 3 * r.counters.bytesRead
  {
    hide Plus;
    SumSmall(r, r);
    SumAppend([r, r], r);
    assert [r, r] + [r] == [r, r, r];
  }

  /** Three maximal responses wrap the byte counter of one recording, while merging
      their separate recordings reports the overflow. */
  lemma OverflowIsReportedOnlyByMerge()
    ensures Recorded([BIG, BIG, BIG]).counters.bytesRead < 3 * MAX_I64
    ensures Merged(Recordings([[BIG], [BIG], [BIG]])) == None
  {
    hide Recorded, Sum, Exact;
    var r := Recorded([BIG]);
    RecordedIsExact([BIG, BIG, BIG]);
    RecordedBig();
    BytesOfThree(r);
    assert Recordings([[BIG], [BIG], [BIG]]) == [r, r, r];
    assert Values(Sum([r, r, r]).counters)[6] == 3 * MAX_I64;
  }

  // ----- What every recording satisfies ---------------------------------------------------

  function CountRequests(samples: seq<Sample>): nat {
    if |samples| == 0 then 0
    else CountRequests(samples[..|samples| - 1]) + Bit(samples[|samples| - 1].Request?)
  }

  /** Requests that failed in transport. */
  function CountFailed(samples: seq<Sample>): nat {
    if |samples| == 0 then 0
    else
      var last := samples[|samples| - 1];
      CountFailed(samples[..|samples| - 1]) + Bit(last.Request? && last.result.failed)
  }

  /** Requests that carry a status. */
  function CountStatuses(samples: seq<Sample>): nat {
    if |samples| == 0 then 0
    else
      var last := samples[|samples| - 1];
      CountStatuses(samples[..|samples| - 1]) + Bit(last.Request? && last.result.statusCode > 0)
  }

  /** Requests that carry this status. */
  function CountStatus(samples: seq<Sample>, code: int): nat {
    if |samples| == 0 then 0
    else
      var last := samples[|samples| - 1];
      CountStatus(samples[..|samples| - 1], code) + Bit(last.Request? && last.result.statusCode == code)
  }

  /** Requests observed with this latency. */
  function CountLatency(samples: seq<Sample>, micros: int): nat {
    if |samples| == 0 then 0
    else
      var last := samples[|samples| - 1];
      CountLatency(samples[..|samples| - 1], micros) + Bit(last.Request? && LatencyMicros(last.result.latency) == micros)
  }

  ghost predicate HasStatus(samples: seq<Sample>, code: int) {
    exists i :: 0 <= i < |samples| && samples[i].Request? && samples[i].result.statusCode == code
  }

  /** Every request lands in exactly one outcome category. */
  ghost predicate OutcomesAddUp(samples: seq<Sample>, c: Counters) {
    && c.requests == CountRequests(samples)
    && c.succeeded + c.failed == c.requests
    && c.transportErrors + c.clientErrors + c.serverErrors == c.failed
    && c.transportErrors == CountFailed(samples)
    && c.bytesRead <= MAX_U64
    && c.droppedSamples == 0
  }

  /** The histogram observes each request once, at its latency, in the trackable range. */
  ghost predicate LatenciesObserved(samples: seq<Sample>, latencies: Counts) {
    && Total(latencies) == CountRequests(samples)
    && (forall micros :: micros in latencies ==> Trackable(micros))
    && (forall micros :: At(latencies, micros) == CountLatency(samples, micros))
  }

  /** The status map counts each positive status as often as it was seen, and nothing else. */
  ghost predicate StatusesCounted(samples: seq<Sample>, codes: Counts) {
    && Total(codes) == CountStatuses(samples)
    && (forall code :: code in codes <==> code > 0 && HasStatus(samples, code))
    && (forall code :: code > 0 ==> At(codes, code) == CountStatus(samples, code))
  }

  lemma {:induction false} OutcomesOfRecording(samples: seq<Sample>)
    ensures OutcomesAddUp(samples, Recorded(samples).counters)
    decreases |samples|
  {
    hide Increment, LatencyMicros;
    if |samples| == 0 {
    } else {
      OutcomesOfRecording(samples[..|samples| - 1]);
    }
  }

  lemma {:induction false} LatenciesOfRecording(samples: seq<Sample>)
    ensures LatenciesObserved(samples, Recorded(samples).latencies)
    decreases |samples|
  {
    hide LatencyMicros, Record, Total;
    if |samples| == 0 {
      TotalOfNothing();
    } else {
      var init, last := samples[..|samples| - 1], samples[|samples| - 1];
      LatenciesOfRecording(init);
      MicrosAreTrackable(last);
      var before, after := Recorded(init).latencies, Recorded(samples).latencies;
      LatencyRecorded(Recorded(init), last);
      assert Recorded(samples) == Record(Recorded(init), last);
      if last.Request? {
        var micros := LatencyMicros(last.result.latency);
        TotalUpdate(before, micros, At(before, micros) + 1);
      }
      hide Recorded, LatenciesObserved;
      LatencyObserved(samples, before, after);
    }
  }

  /** One more sample in the histogram. */
  lemma LatencyObserved(samples: seq<Sample>, before: Counts, after: Counts)
    requires samples != [] && LatenciesObserved(samples[..|samples| - 1], before)
    requires var last := samples[|samples| - 1];
      if last.Request? then
        var micros := LatencyMicros(last.result.latency);
        after == before[micros := At(before, micros) + 1] && Trackable(micros) && Total(after) == Total(before) + 1
      else after == before
    ensures LatenciesObserved(samples, after)
  {
    hide LatencyMicros, Total;
    var init, last := samples[..|samples| - 1], samples[|samples| - 1];
    forall m: int ensures At(after, m) == CountLatency(samples, m) {
      assert CountLatency(samples, m)
        == CountLatency(init, m) + Bit(last.Request? && LatencyMicros(last.result.latency) == m);
      assert At(before, m) == CountLatency(init, m);
    }
  }

  lemma LatencyRecorded(s: Snapshot, sample: Sample)
    ensures var before, after := s.latencies, Record(s, sample).latencies;
      if sample.Request? then
        after == before[LatencyMicros(sample.result.latency) := At(before, LatencyMicros(sample.result.latency)) + 1]
      else after == before
  {
    hide LatencyMicros;
  }

  lemma MicrosAreTrackable(sample: Sample)
    ensures sample.Request? ==> Trackable(LatencyMicros(sample.result.latency))
  {
  }

  lemma HasStatusAppend(samples: seq<Sample>, last: Sample, code: int)
    ensures HasStatus(samples + [last], code) <==>
      HasStatus(samples, code) || (last.Request? && last.result.statusCode == code)
  {
    var all := samples + [last];
    if HasStatus(samples, code) {
      var i :| 0 <= i < |samples| && samples[i].Request? && samples[i].result.statusCode == code;
      assert all[i] == samples[i];
    }
    if last.Request? && last.result.statusCode == code {
      assert all[|samples|] == last;
    }
  }

  lemma {:induction false} StatusesOfRecording(samples: seq<Sample>)
    ensures StatusesCounted(samples, Recorded(samples).counters.statusCodes)
    decreases |samples|
  {
    hide LatencyMicros, HasStatus;
    if |samples| == 0 {
      NoStatus();
    } else {
      var init, last := samples[..|samples| - 1], samples[|samples| - 1];
      assert samples == init + [last];
      StatusesOfRecording(init);
      var before, after := Recorded(init).counters.statusCodes, Recorded(samples).counters.statusCodes;
      StatusRecorded(Recorded(init), last);
      assert Recorded(samples) == Record(Recorded(init), last);
      hide Record, Recorded;
      forall code
        ensures code in after <==> code > 0 && HasStatus(samples, code)
        ensures code > 0 ==> At(after, code) == CountStatus(samples, code)
      {
        HasStatusAppend(init, last, code);
        assert CountStatus(samples, code) == CountStatus(init, code) + Bit(last.Request? && last.result.statusCode == code);
        assert code > 0 ==> At(before, code) == CountStatus(init, code);
      }
      if last.Request? && last.result.statusCode > 0 {
        var code := last.result.statusCode;
        TotalUpdate(before, code, At(before, code) + 1);
      }
    }
  }

  lemma StatusRecorded(s: Snapshot, sample: Sample)
    ensures var before, after := s.counters.statusCodes, Record(s, sample).counters.statusCodes;
      if sample.Request? && sample.result.statusCode > 0 then
        after == before[sample.result.statusCode := At(before, sample.result.statusCode) + 1]
      else after == before
  {
    hide LatencyMicros;
  }

  lemma NoStatus()
    ensures forall code :: !HasStatus([], code)
  {
  }

  // ----- Each counter and each bucket, by the samples themselves ------------------------------

  function CountIf(samples: seq<Sample>, p: Sample -> bool): nat {
    if |samples| == 0 then 0
    else CountIf(samples[..|samples| - 1], p) + Bit(p(samples[|samples| - 1]))
  }

  /** The bytes of a response, if it reports a positive number. */
  function BytesOfOne(s: Sample): nat {
    if s.Request? && s.result.bytesRead > 0 then s.result.bytesRead else 0
  }

  function BytesOf(samples: seq<Sample>): nat {
    if |samples| == 0 then 0 else BytesOf(samples[..|samples| - 1]) + BytesOfOne(samples[|samples| - 1])
  }

  predicate Succeeded(s: Sample) {
    s.Request? && !s.result.failed && s.result.statusCode <= 399
  }

  predicate ClientError(s: Sample) {
    s.Request? && !s.result.failed && 400 <= s.result.statusCode <= 499
  }

  predicate ServerError(s: Sample) {
    s.Request? && !s.result.failed && s.result.statusCode >= 500
  }

  predicate TransportError(s: Sample) {
    s.Request? && s.result.failed
  }

  /** Every counter is the number of samples it is for. */
  ghost predicate Tallies(c: Counters, samples: seq<Sample>) {
    && c.requests == CountIf(samples, (s: Sample) => s.Request?)
    && c.succeeded == CountIf(samples, Succeeded)
    && c.transportErrors == CountIf(samples, TransportError)
    && c.clientErrors == CountIf(samples, ClientError)
    && c.serverErrors == CountIf(samples, ServerError)
    && c.failed == c.transportErrors + c.clientErrors + c.serverErrors
    && c.bytesRead == BytesOf(samples) % 0x1_0000_0000_0000_0000
    && c.unmetDemand == CountIf(samples, (s: Sample) => s.UnmetDemand?)
    && c.droppedSamples == 0
  }

  /** What one more sample does to the counters. */
  lemma CountersOfOne(s: Snapshot, sample: Sample)
    ensures var c, d := s.counters, Record(s, sample).counters;
      && d.requests == c.requests + Bit(sample.Request?)
      && d.succeeded == c.succeeded + Bit(Succeeded(sample))
      && d.transportErrors == c.transportErrors + Bit(TransportError(sample))
      && d.clientErrors == c.clientErrors + Bit(ClientError(sample))
      && d.serverErrors == c.serverErrors + Bit(ServerError(sample))
      && d.failed == c.failed + Bit(TransportError(sample)) + Bit(ClientError(sample)) + Bit(ServerError(sample))
      && d.unmetDemand == c.unmetDemand + Bit(sample.UnmetDemand?)
      && d.droppedSamples == c.droppedSamples
      && (c.bytesRead < TWO_64 ==> d.bytesRead == (c.bytesRead + BytesOfOne(sample)) % TWO_64)
  {
    hide Increment, LatencyMicros;
  }

  lemma {:induction false} CountersOfRecording(samples: seq<Sample>)
    ensures Tallies(Recorded(samples).counters, samples)
    decreases |samples|
  {
    if |samples| == 0 {
    } else {
      var init, last := samples[..|samples| - 1], samples[|samples| - 1];
      CountersOfRecording(init);
      CountersOfOne(Recorded(init), last);
      AddWrapped(BytesOf(init), BytesOfOne(last));
      assert Recorded(samples) == Record(Recorded(init), last);
      hide Record, Recorded, Succeeded, ClientError, ServerError, TransportError, BytesOfOne;
    }
  }

  lemma AddWrapped(x: nat, y: nat)
    ensures (x % TWO_64 + y) % TWO_64 == (x + y) % TWO_64
  {
    ShiftModulus(x % TWO_64 + y, x / TWO_64);
  }

  /** A latency is recorded in whole microseconds, rounded down, and never below one. */
  predicate InBucket(latency: Duration, micros: int) {
    if micros <= 0 then false
    else if micros == 1 then latency < 2000
    else micros * 1000 <= latency < (micros + 1) * 1000
  }

  lemma BucketIsExact(latency: Duration, micros: int)
    ensures LatencyMicros(latency) == micros <==> InBucket(latency, micros)
  {
  }

  /** Each bucket of a recording is the number of requests whose latency is in it; no other
      bucket is occupied. */
  lemma {:induction false} BucketsOfRecording(samples: seq<Sample>, micros: int)
    ensures At(Recorded(samples).latencies, micros)
            == CountIf(samples, (s: Sample) => s.Request? && InBucket(s.result.latency, micros))
    decreases |samples|
  {
    hide LatencyMicros, InBucket, Record;
    if |samples| == 0 {
    } else {
      var init, last := samples[..|samples| - 1], samples[|samples| - 1];
      BucketsOfRecording(init, micros);
      LatencyRecorded(Recorded(init), last);
      if last.Request? {
        BucketIsExact(last.result.latency, micros);
      }
    }
  }
}
