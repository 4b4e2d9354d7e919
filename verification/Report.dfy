/** The final result of a run: thresholds, measurement integrity and status. */
module Reporting {
  import opened Wire
  import opened Snapshots
  import CountMaps
  import Aggregation

  datatype Thresholds = Thresholds(p99Latency: Duration, errorRate: real)

  datatype Status = Pass | Fail | Interrupted

  /** One line of the violations list. */
  datatype Failure =
    | SlowP99(latency: Duration, limit: Duration)
    | HighErrorRate(rate: real, threshold: real)
    | Unmet(demand: nat)
    | Dropped(samples: nat)
    | NoRequests
    | Refused(violation: Aggregation.Violation)
    | MissingFinalMetrics(workers: seq<string>)

  datatype Summary = Summary(
    name: string,
    duration: Duration,
    metrics: Snapshot,
    throughput: real,
    errorRate: real,
    p50: Duration,
    p95: Duration,
    p99: Duration,
    status: Status,
    violations: seq<Failure>)

  /** Reads a percentile off the buckets of a histogram. */
  type Percentile = (CountMaps.Counts, int) -> Duration

  function Built(name: string, duration: Duration, s: Snapshot, percentile: Percentile): Summary {
    Summary(
      name, duration, s,
      if duration > 0 then s.counters.requests as real * SECOND as real / duration as real else 0.0,
      if s.counters.requests > 0 then s.counters.failed as real / s.counters.requests as real else 0.0,
      percentile(s.latencies, 50), percentile(s.latencies, 95), percentile(s.latencies, 99),
      Fail, [])
  }

  /** The summary tells the snapshot's own figures: requests per second of the duration,
      failures per request, and the three percentiles. */
  ghost predicate Measures(summary: Summary, name: string, duration: Duration, s: Snapshot, percentile: Percentile) {
    && summary.name == name && summary.duration == duration && summary.metrics == s
    && (duration > 0 ==> summary.throughput * (duration as real / 1_000_000_000.0) == s.counters.requests as real)
    && (duration <= 0 ==> summary.throughput == 0.0)
    && (s.counters.requests > 0 ==> summary.errorRate * s.counters.requests as real == s.counters.failed as real)
    && (s.counters.requests == 0 ==> summary.errorRate == 0.0)
    && summary.p50 == percentile(s.latencies, 50)
    && summary.p95 == percentile(s.latencies, 95)
    && summary.p99 == percentile(s.latencies, 99)
  }

  lemma BuiltMeasures(name: string, duration: Duration, s: Snapshot, percentile: Percentile)
    ensures Measures(Built(name, duration, s, percentile), name, duration, s, percentile)
  {
    var requests, built := s.counters.requests as real, Built(name, duration, s, percentile);
    if duration > 0 {
      PerSecond(requests, duration as real);
    }
    if requests > 0.0 {
      assert built.errorRate * requests == s.counters.failed as real;
    }
  }

  lemma PerSecond(requests: real, duration: real)
    requires duration > 0.0
    ensures (requests * SECOND as real / duration) * (duration / 1_000_000_000.0) == requests
  {
    var rate := requests * SECOND as real / duration;
    assert rate * duration == requests * SECOND as real;
    assert rate * (duration / 1_000_000_000.0) == rate * duration / 1_000_000_000.0;
  }

  // ----- What a summary has to say -------------------------------------------------------

  /** The measurements meet the thresholds and nothing was lost. */
  ghost predicate Acceptable(s: Snapshot, thresholds: Thresholds, percentile: Percentile) {
    var c := s.counters;
    && (thresholds.p99Latency <= 0 || percentile(s.latencies, 99) <= thresholds.p99Latency)
    && (thresholds.errorRate <= 0.0 || c.failed as real <= thresholds.errorRate * c.requests as real)
    && c.unmetDemand == 0 && c.droppedSamples == 0 && c.requests > 0
  }

  /** The line is a true statement about the measurements that calls for failure. */
  ghost predicate Holds(f: Failure, summary: Summary, thresholds: Thresholds) {
    var c := summary.metrics.counters;
    match f
    case SlowP99(latency, limit) =>
      latency == summary.p99 && limit == thresholds.p99Latency && 0 < limit < latency
    case HighErrorRate(rate, threshold) =>
      rate == summary.errorRate && threshold == thresholds.errorRate && 0.0 < threshold < rate
    case Unmet(demand) => demand == c.unmetDemand > 0
    case Dropped(samples) => samples == c.droppedSamples > 0
    case NoRequests => c.requests == 0
    case Refused(_) => false
    case MissingFinalMetrics(_) => false
  }

  /** The place of a line in the list. */
  function Rank(f: Failure): nat {
    match f
    case SlowP99(_, _) => 0
    case HighErrorRate(_, _) => 1
    case Unmet(_) => 2
    case Dropped(_) => 3
    case NoRequests => 4
    case Refused(_) => 5
    case MissingFinalMetrics(_) => 6
  }

  /** The list holds exactly the true lines, in order, each once. */
  ghost predicate Lists(violations: seq<Failure>, summary: Summary, thresholds: Thresholds) {
    && (forall f :: f in violations <==> Holds(f, summary, thresholds))
    && Ascending(violations, 7)
  }

  /** The ranks increase and stay below the bound. */
  ghost predicate Ascending(violations: seq<Failure>, bound: nat) {
    && (forall i :: 0 <= i < |violations| ==> Rank(violations[i]) < bound)
    && (forall i, j :: 0 <= i < j < |violations| ==> Rank(violations[i]) < Rank(violations[j]))
  }

  /** The list with a line added when its condition holds. */
  function With(violations: seq<Failure>, condition: bool, f: Failure): seq<Failure> {
    if condition then violations + [f] else violations
  }

  /** The list of a summary, built line by line. */
  function Found(summary: Summary, thresholds: Thresholds): seq<Failure> {
    var c := summary.metrics.counters;
    var slow := With([], thresholds.p99Latency > 0 && summary.p99 > thresholds.p99Latency,
                     SlowP99(summary.p99, thresholds.p99Latency));
    var errors := With(slow, thresholds.errorRate > 0.0 && summary.errorRate > thresholds.errorRate,
                       HighErrorRate(summary.errorRate, thresholds.errorRate));
    var unmet := With(errors, c.unmetDemand > 0, Unmet(c.unmetDemand));
    var dropped := With(unmet, c.droppedSamples > 0, Dropped(c.droppedSamples));
    With(dropped, c.requests == 0, NoRequests)
  }

  function Evaluated(
    name: string, duration: Duration, s: Snapshot, thresholds: Thresholds, percentile: Percentile): Summary
  {
    var built := Built(name, duration, s, percentile);
    var found := Found(built, thresholds);
    built.(violations := found, status := if found == [] then Pass else Fail)
  }

  /** The error-rate comparison, without the division. */
  lemma RateExceeds(failed: nat, requests: nat, threshold: real)
    requires requests > 0
    ensures failed as real / requests as real > threshold <==> failed as real > threshold * requests as real
  {
    var rate := failed as real / requests as real;
    assert rate * requests as real == failed as real;
  }

  lemma WithAdds(violations: seq<Failure>, condition: bool, f: Failure)
    requires Ascending(violations, Rank(f))
    ensures var next := With(violations, condition, f);
      && Ascending(next, Rank(f) + 1)
      && forall g :: g in next <==> g in violations || (condition && g == f)
  {
  }

  lemma FoundIsExact(summary: Summary, thresholds: Thresholds)
    ensures Lists(Found(summary, thresholds), summary, thresholds)
  {
    hide Ascending, With;
    var c := summary.metrics.counters;
    var isSlow := thresholds.p99Latency > 0 && summary.p99 > thresholds.p99Latency;
    var isFailing := thresholds.errorRate > 0.0 && summary.errorRate > thresholds.errorRate;
    var slow := With([], isSlow, SlowP99(summary.p99, thresholds.p99Latency));
    var errors := With(slow, isFailing, HighErrorRate(summary.errorRate, thresholds.errorRate));
    var unmet := With(errors, c.unmetDemand > 0, Unmet(c.unmetDemand));
    var dropped := With(unmet, c.droppedSamples > 0, Dropped(c.droppedSamples));
    NothingAscends();
    WithAdds([], isSlow, SlowP99(summary.p99, thresholds.p99Latency));
    WithAdds(slow, isFailing, HighErrorRate(summary.errorRate, thresholds.errorRate));
    WithAdds(errors, c.unmetDemand > 0, Unmet(c.unmetDemand));
    WithAdds(unmet, c.droppedSamples > 0, Dropped(c.droppedSamples));
    WithAdds(dropped, c.requests == 0, NoRequests);
    AscendingWidens(Found(summary, thresholds), 5, 7);
  }

  lemma NothingAscends()
    ensures Ascending([], 0)
  {
  }

  lemma AscendingWidens(violations: seq<Failure>, low: nat, high: nat)
    requires Ascending(violations, low) && low <= high
    ensures Ascending(violations, high)
  {
  }

  /** An evaluation passes exactly when the measurements are acceptable, and its list of
      violations is exact: every line is true and no true line is missing. */
  lemma EvaluationIsExact(
    name: string, duration: Duration, s: Snapshot, thresholds: Thresholds, percentile: Percentile)
    ensures var e := Evaluated(name, duration, s, thresholds, percentile);
      && Measures(e, name, duration, s, percentile)
      && Lists(e.violations, e, thresholds)
      && e.status != Interrupted
      && (e.status == Pass <==> Acceptable(s, thresholds, percentile))
  {
    BuiltMeasures(name, duration, s, percentile);
    hide Lists, Acceptable, Found, Holds;
    var built := Built(name, duration, s, percentile);
    FoundIsExact(built, thresholds);
    ListsIgnoresVerdict(Found(built, thresholds), built, Evaluated(name, duration, s, thresholds, percentile), thresholds);
    NothingFound(name, duration, s, thresholds, percentile);
  }

  /** Only the measurements matter to the list. */
  lemma ListsIgnoresVerdict(violations: seq<Failure>, a: Summary, b: Summary, thresholds: Thresholds)
    requires Lists(violations, a, thresholds) && b == a.(status := b.status, violations := b.violations)
    ensures Lists(violations, b, thresholds)
  {
    assert forall f :: Holds(f, a, thresholds) == Holds(f, b, thresholds);
    hide Holds;
  }

  lemma NothingFound(name: string, duration: Duration, s: Snapshot, thresholds: Thresholds, percentile: Percentile)
    ensures Found(Built(name, duration, s, percentile), thresholds) == [] <==> Acceptable(s, thresholds, percentile)
  {
    if s.counters.requests > 0 {
      RateExceeds(s.counters.failed, s.counters.requests, thresholds.errorRate);
    }
  }

  /** Builds a summary and appends a line for every failure. */
  method Evaluate(
    name: string, duration: Duration, s: Snapshot, thresholds: Thresholds, percentile: Percentile)
    returns (summary: Summary)
    ensures summary == Evaluated(name, duration, s, thresholds, percentile)
    ensures Measures(summary, name, duration, s, percentile) && Lists(summary.violations, summary, thresholds)
    ensures summary.status == Pass <==> Acceptable(s, thresholds, percentile)
  {
    EvaluationIsExact(name, duration, s, thresholds, percentile);
    summary := Built(name, duration, s, percentile);
    var status := Pass;
    if thresholds.p99Latency > 0 && summary.p99 > thresholds.p99Latency {
      summary := summary.(violations := summary.violations + [SlowP99(summary.p99, thresholds.p99Latency)]);
    }
    if thresholds.errorRate > 0.0 && summary.errorRate > thresholds.errorRate {
      summary := summary.(violations := summary.violations + [HighErrorRate(summary.errorRate, thresholds.errorRate)]);
    }
    if s.counters.unmetDemand > 0 {
      summary := summary.(violations := summary.violations + [Unmet(s.counters.unmetDemand)]);
    }
    if s.counters.droppedSamples > 0 {
      summary := summary.(violations := summary.violations + [Dropped(s.counters.droppedSamples)]);
    }
    if s.counters.requests == 0 {
      summary := summary.(violations := summary.violations + [NoRequests]);
    }
    if |summary.violations| > 0 {
      status := Fail;
    }
    summary := summary.(status := status);
  }

  /** A partial summary, never evaluated. */
  function InterruptedSummary(name: string, duration: Duration, s: Snapshot, percentile: Percentile): Summary {
    Built(name, duration, s, percentile).(status := Interrupted)
  }

  lemma InterruptedIsUnjudged(name: string, duration: Duration, s: Snapshot, percentile: Percentile)
    ensures var summary := InterruptedSummary(name, duration, s, percentile);
      && summary.status == Interrupted && summary.violations == [] && summary.duration == duration
      && Measures(summary, name, duration, s, percentile)
  {
    BuiltMeasures(name, duration, s, percentile);
  }

  // ----- The result of the fleet ----------------------------------------------------------

  function RefusedLines(violations: seq<Aggregation.Violation>): (lines: seq<Failure>)
    ensures |lines| == |violations|
  {
    seq(|violations|, i requires 0 <= i < |violations| => Refused(violations[i]))
  }

  /** An evaluation together with what the aggregator refused and still misses. */
  function Concluded(
    name: string, duration: Duration, s: Snapshot, thresholds: Thresholds, percentile: Percentile,
    refused: seq<Aggregation.Violation>, missing: seq<string>): Summary
  {
    var evaluated := Evaluated(name, duration, s, thresholds, percentile);
    var integrity := With(RefusedLines(refused), missing != [], MissingFinalMetrics(missing));
    if integrity == [] then evaluated
    else evaluated.(violations := evaluated.violations + integrity, status := Fail)
  }

  /** The list tells all there is to tell: the true lines about the measurements, then every
      refusal, then the missing workers if there are any. */
  ghost predicate TellsAll(summary: Summary, thresholds: Thresholds, refused: seq<Aggregation.Violation>, missing: seq<string>) {
    var own := |summary.violations| - |refused| - (if missing == [] then 0 else 1);
    && own >= 0
    && Lists(summary.violations[..own], summary, thresholds)
    && (forall i :: 0 <= i < |refused| ==> summary.violations[own + i] == Refused(refused[i]))
    && (missing != [] ==> summary.violations[own + |refused|] == MissingFinalMetrics(missing))
  }

  lemma ConclusionTellsAll(
    name: string, duration: Duration, s: Snapshot, thresholds: Thresholds, percentile: Percentile,
    refused: seq<Aggregation.Violation>, missing: seq<string>)
    ensures var c := Concluded(name, duration, s, thresholds, percentile, refused, missing);
      Measures(c, name, duration, s, percentile) && TellsAll(c, thresholds, refused, missing)
  {
    hide Lists, Acceptable, Evaluated, Measures, TellsAll, RefusedLines;
    EvaluationIsExact(name, duration, s, thresholds, percentile);
    var e := Evaluated(name, duration, s, thresholds, percentile);
    var c := Concluded(name, duration, s, thresholds, percentile, refused, missing);
    ListsIgnoresVerdict(e.violations, e, c, thresholds);
    MeasuresIgnoresVerdict(e, c, name, duration, s, percentile);
    AppendedTellAll(e.violations, c, thresholds, refused, missing);
  }

  /** The refusals and the missing workers, behind the evaluation's own lines. */
  lemma AppendedTellAll(
    own: seq<Failure>, c: Summary, thresholds: Thresholds, refused: seq<Aggregation.Violation>, missing: seq<string>)
    requires Lists(own, c, thresholds)
    requires c.violations == own + With(RefusedLines(refused), missing != [], MissingFinalMetrics(missing))
    ensures TellsAll(c, thresholds, refused, missing)
  {
    hide Lists;
    assert c.violations[..|own|] == own;
  }

  lemma MeasuresIgnoresVerdict(
    a: Summary, b: Summary, name: string, duration: Duration, s: Snapshot, percentile: Percentile)
    requires Measures(a, name, duration, s, percentile) && b == a.(status := b.status, violations := b.violations)
    ensures Measures(b, name, duration, s, percentile)
  {
  }

  /** The fleet's result passes exactly when the measurements are acceptable, nothing was
      refused and nothing is missing; otherwise it fails. */
  lemma ConclusionPasses(
    name: string, duration: Duration, s: Snapshot, thresholds: Thresholds, percentile: Percentile,
    refused: seq<Aggregation.Violation>, missing: seq<string>)
    ensures var c := Concluded(name, duration, s, thresholds, percentile, refused, missing);
      && c.metrics == s
      && c.status != Interrupted
      && (c.status == Pass <==> Acceptable(s, thresholds, percentile) && refused == [] && missing == [])
      && (c.status == Pass <==> c.violations == [])
  {
    EvaluationIsExact(name, duration, s, thresholds, percentile);
    hide Acceptable, Built, Found;
  }

  /** Combines the evaluation with the aggregator's violations and missing workers. */
  method FinalSummary(
    name: string, duration: Duration, s: Snapshot, thresholds: Thresholds, percentile: Percentile,
    refused: seq<Aggregation.Violation>, missing: seq<string>)
    returns (summary: Summary)
    ensures summary == Concluded(name, duration, s, thresholds, percentile, refused, missing)
    ensures Measures(summary, name, duration, s, percentile) && TellsAll(summary, thresholds, refused, missing)
    ensures summary.status == Pass <==> Acceptable(s, thresholds, percentile) && refused == [] && missing == []
  {
    ConclusionPasses(name, duration, s, thresholds, percentile, refused, missing);
    ConclusionTellsAll(name, duration, s, thresholds, percentile, refused, missing);
    hide TellsAll, Measures;
    summary := Evaluate(name, duration, s, thresholds, percentile);
    hide Acceptable, Built, Found, Lists;
    var integrity := RefusedLines(refused);
    if |missing| > 0 {
      integrity := integrity + [MissingFinalMetrics(missing)];
    }
    if |integrity| > 0 {
      summary := summary.(violations := summary.violations + integrity, status := Fail);
    }
  }
}
