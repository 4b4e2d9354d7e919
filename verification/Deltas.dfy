/** When a recorded interval passes the aggregator's counter checks. */
module Deltas {
  import opened Wire
  import opened CountMaps
  import opened Snapshots
  import opened Recording
  import opened Aggregation

  /** Everything that happened in one reporting interval. */
  datatype Interval = Interval(samples: seq<Sample>, dropped: nat)

  /** The snapshot a collector returns for the interval. */
  function ContentOf(interval: Interval): Snapshot {
    var recorded := Recording.Recorded(interval.samples);
    recorded.(counters := recorded.counters.(droppedSamples := interval.dropped))
  }

  /** The delta carries exactly this snapshot. */
  ghost predicate Carries(d: MetricsDelta, content: Snapshot) {
    d.counters == Some(content.counters) && d.encoding.HdrV2Compressed? && d.histogram == Encoded(content.latencies)
  }

  /** Every status that was counted is an HTTP status. */
  ghost predicate StatusesInRange(samples: seq<Sample>) {
    forall i :: 0 <= i < |samples| && samples[i].Request? && samples[i].result.statusCode > 0 ==>
      100 <= samples[i].result.statusCode <= 599
  }

  lemma {:induction false} StatusesAmongRequests(samples: seq<Sample>)
    ensures CountStatuses(samples) <= CountRequests(samples)
    ensures CountFailed(samples) <= CountRequests(samples) <= |samples|
    decreases |samples|
  {
    if |samples| == 0 {
    } else {
      StatusesAmongRequests(samples[..|samples| - 1]);
    }
  }

  lemma CodesInRange(samples: seq<Sample>, codes: Counts)
    requires forall code :: code in codes <==> code > 0 && HasStatus(samples, code)
    ensures StatusesInRange(samples) <==> forall code :: code in codes ==> 100 <= code <= 599
  {
    if forall code :: code in codes ==> 100 <= code <= 599 {
      forall i | 0 <= i < |samples| && samples[i].Request? && samples[i].result.statusCode > 0
        ensures 100 <= samples[i].result.statusCode <= 599
      {
        assert HasStatus(samples, samples[i].result.statusCode);
        assert samples[i].result.statusCode in codes;
      }
    }
  }

  /** A recorded interval passes the checks exactly when every counted status is in
      100..599 and there are at least as many statuses as requests without a transport error. */
  lemma ReportableExactly(interval: Interval, d: MetricsDelta)
    requires |interval.samples| <= MAX_U64 && Carries(d, ContentOf(interval))
    ensures var samples := interval.samples;
      SnapshotProblem(d) == None <==>
        StatusesInRange(samples) && CountStatuses(samples) >= CountRequests(samples) - CountFailed(samples)
  {
    var samples := interval.samples;
    hide Recording.Recorded, CountRequests, CountFailed, CountStatuses, StatusesInRange;
    OutcomesOfRecording(samples);
    LatenciesOfRecording(samples);
    StatusesOfRecording(samples);
    StatusesAmongRequests(samples);
    CodesInRange(samples, Recording.Recorded(samples).counters.statusCodes);
  }

  /** What the protocol client guarantees: a result without an error carries an HTTP
      status, and any status on an errored result is one too. */
  ghost predicate ClientResults(samples: seq<Sample>) {
    forall i :: 0 <= i < |samples| && samples[i].Request? ==>
      var r := samples[i].result;
      (100 <= r.statusCode <= 599) || (r.failed && r.statusCode <= 0)
  }

  lemma {:induction false} ClientResultsCover(samples: seq<Sample>)
    requires ClientResults(samples)
    ensures CountStatuses(samples) >= CountRequests(samples) - CountFailed(samples)
    decreases |samples|
  {
    if |samples| == 0 {
    } else {
      var init, last := samples[..|samples| - 1], samples[|samples| - 1];
      assert forall i :: 0 <= i < |init| ==> init[i] == samples[i];
      ClientResultsCover(init);
    }
  }

  lemma ClientResultsReportable(interval: Interval, d: MetricsDelta)
    requires ClientResults(interval.samples) && |interval.samples| <= MAX_U64 && Carries(d, ContentOf(interval))
    ensures SnapshotProblem(d) == None
  {
    ClientResultsCover(interval.samples);
    ReportableExactly(interval, d);
  }

  /** Client statuses always fit the wire's status type. */
  lemma ClientStatusesFit(interval: Interval, code: int)
    requires ClientResults(interval.samples) && code in ContentOf(interval).counters.statusCodes
    ensures 100 <= code <= 599
  {
    StatusesOfRecording(interval.samples);
    CodesInRange(interval.samples, Recording.Recorded(interval.samples).counters.statusCodes);
  }

  /** A success without a status, as a client that is not HTTP could report it, is refused. */
  lemma StatuslessSuccessIsRefused(latency: Duration, d: MetricsDelta)
    requires Carries(d, ContentOf(Interval([Request(Result(latency, 0, 0, false))], 0)))
    ensures SnapshotProblem(d) != None
  {
    var samples := [Request(Result(latency, 0, 0, false))];
    assert samples[..0] == [];
    assert CountStatuses(samples) == 0 && CountRequests(samples) == 1 && CountFailed(samples) == 0;
    ReportableExactly(Interval(samples, 0), d);
  }
}
