/** The messages of the control stream and the conventions both ends share:
    instants, durations, trimmed strings, load slices, assignments and deltas. */
module Wire {
  import opened CountMaps

  datatype Option<+T> = None | Some(value: T)

  const MAX_U64: nat := 0xFFFF_FFFF_FFFF_FFFF
  const TWO_64: nat := 0x1_0000_0000_0000_0000
  const MAX_I64: int := 0x7FFF_FFFF_FFFF_FFFF
  const MIN_I32: int := -0x8000_0000
  const MAX_I32: int := 0x7FFF_FFFF

  /** An instant in nanoseconds since 0001-01-01T00:00:00Z, so that 0 is the zero time. */
  type Time = int

  /** A signed 64-bit count of nanoseconds. */
  type Duration = d: int | -MAX_I64 - 1 <= d <= MAX_I64

  const SECOND: int := 1_000_000_000
  const UNIX_EPOCH: Time := 62_135_596_800 * SECOND
  const MAX_TIMESTAMP: Time := 315_537_897_600 * SECOND - 1

  /** The range a protobuf timestamp may take. A timestamp whose fields are
      malformed is represented by an instant outside it. */
  predicate ValidTimestamp(t: Time) {
    0 <= t <= MAX_TIMESTAMP
  }

  /** Reads an optional timestamp; an absent one reads as the Unix epoch. */
  function AsTime(t: Option<Time>): Time {
    if t.Some? then t.value else UNIX_EPOCH
  }

  /** The difference of two instants, saturated to 64 bits. */
  function Sub(t: Time, u: Time): Duration {
    if t - u > MAX_I64 then MAX_I64 else if t - u < -MAX_I64 - 1 then -MAX_I64 - 1 else t - u
  }

  function Min(a: int, b: int): int {
    if a < b then a else b
  }

  function Max(a: int, b: int): int {
    if a > b then a else b
  }

  // ----- Strings ------------------------------------------------------------

  predicate IsSpace(c: char) {
    c in {'\t', '\n', '\U{B}', '\U{C}', '\r', ' ', '\U{85}', '\U{A0}', '\U{1680}', '\U{2028}', '\U{2029}',
          '\U{202F}', '\U{205F}', '\U{3000}'}
    || '\U{2000}' <= c <= '\U{200A}'
  }

  function TrimLeft(s: string): string {
    if s != "" && IsSpace(s[0]) then TrimLeft(s[1..]) else s
  }

  function TrimRight(s: string): string {
    if s != "" && IsSpace(s[|s| - 1]) then TrimRight(s[..|s| - 1]) else s
  }

  function Trim(s: string): string {
    TrimRight(TrimLeft(s))
  }

  lemma TrimRightIsPrefix(s: string)
    ensures TrimRight(s) <= s
    ensures TrimRight(TrimRight(s)) == TrimRight(s)
  {
    if s != "" && IsSpace(s[|s| - 1]) {
      TrimRightIsPrefix(s[..|s| - 1]);
      assert s[..|s| - 1] <= s;
    }
  }

  lemma TrimLeftStops(s: string)
    ensures TrimLeft(s) == "" || !IsSpace(TrimLeft(s)[0])
  {
  }

  /** Trimming a second time changes nothing. */
  lemma TrimIdempotent(s: string)
    ensures Trim(Trim(s)) == Trim(s)
  {
    TrimLeftStops(s);
    TrimRightIsPrefix(TrimLeft(s));
    assert TrimLeft(Trim(s)) == Trim(s);
  }

  ghost predicate AllSpace(s: string) {
    forall i :: 0 <= i < |s| ==> IsSpace(s[i])
  }

  lemma {:induction false} TrimLeftIsExact(s: string)
    ensures |TrimLeft(s)| <= |s| && s[|s| - |TrimLeft(s)|..] == TrimLeft(s) && AllSpace(s[..|s| - |TrimLeft(s)|])
  {
    if s != "" && IsSpace(s[0]) {
      var rest := s[1..];
      TrimLeftIsExact(rest);
      var n := |rest| - |TrimLeft(rest)|;
      assert s[..n + 1] == [s[0]] + rest[..n] && s[n + 1..] == rest[n..];
    }
  }

  lemma {:induction false} TrimRightIsExact(s: string)
    ensures |TrimRight(s)| <= |s| && s[..|TrimRight(s)|] == TrimRight(s) && AllSpace(s[|TrimRight(s)|..])
    ensures TrimRight(s) != "" ==> !IsSpace(TrimRight(s)[|TrimRight(s)| - 1])
  {
    if s != "" && IsSpace(s[|s| - 1]) {
      var init := s[..|s| - 1];
      TrimRightIsExact(init);
      var n := |TrimRight(init)|;
      assert s[n..] == init[n..] + [s[|s| - 1]] && s[..n] == init[..n];
    }
  }

  /** Trimming takes away the whitespace at both ends, all of it, and nothing else. */
  lemma TrimIsExact(s: string)
    ensures exists before, after :: s == before + Trim(s) + after && AllSpace(before) && AllSpace(after)
    ensures Trim(s) != "" ==> !IsSpace(Trim(s)[0]) && !IsSpace(Trim(s)[|Trim(s)| - 1])
    ensures Trim(s) == "" <==> AllSpace(s)
  {
    var left := TrimLeft(s);
    TrimLeftIsExact(s);
    TrimLeftStops(s);
    TrimRightIsExact(left);
    var before, after := s[..|s| - |left|], left[|Trim(s)|..];
    assert s == before + left && left == Trim(s) + after;
    assert s == before + Trim(s) + after;
    hide TrimLeft, TrimRight;
    assert Trim(s) != "" ==> s[|before|] == Trim(s)[0];
  }

  // ----- Load and assignments ------------------------------------------------

  datatype LoadModel = Unspecified | ConstantVUs | ConstantRate

  datatype LoadSlice = LoadSlice(
    model: LoadModel,
    virtualUsers: nat,
    rate: nat,
    maxInFlight: nat,
    rampUp: Option<int>)

  datatype HttpTarget = HttpTarget(url: string, method_: string, headers: map<string, string>, body: string)

  datatype LoadAssignment = LoadAssignment(
    runId: string,
    revision: nat,
    target: Option<HttpTarget>,
    load: Option<LoadSlice>,
    startsAt: Option<Time>,
    deadline: Option<Time>)

  /** True when the slice generates traffic. Worker and orchestrator decide this alike. */
  predicate IsActive(load: Option<LoadSlice>) {
    match load
    case None => false
    case Some(slice) =>
      match slice.model
      case ConstantVUs => slice.virtualUsers > 0
      case ConstantRate => slice.rate > 0 && slice.maxInFlight > 0
      case Unspecified => false
  }

  /** A slice has all of what it needs for its model, or nothing. */
  predicate WholeOrIdle(slice: LoadSlice) {
    match slice.model
    case ConstantVUs => slice.rate == slice.maxInFlight == 0
    case ConstantRate => slice.virtualUsers == 0 && (slice.rate == 0 <==> slice.maxInFlight == 0)
    case Unspecified => false
  }

  // ----- Metric deltas ---------------------------------------------------------

  datatype Counters = Counters(
    requests: nat,
    succeeded: nat,
    failed: nat,
    transportErrors: nat,
    clientErrors: nat,
    serverErrors: nat,
    bytesRead: nat,
    droppedSamples: nat,
    unmetDemand: nat,
    statusCodes: Counts)

  datatype HistogramEncoding = UnspecifiedEncoding | HdrV2Compressed

  /** The histogram bytes: undecodable, or an encoding of bucket counts. */
  datatype HistogramPayload = Malformed | Encoded(buckets: Counts)

  datatype MetricsDelta = MetricsDelta(
    workerId: string,
    runId: string,
    revision: nat,
    sequence: nat,
    intervalStart: Option<Time>,
    intervalEnd: Option<Time>,
    counters: Option<Counters>,
    encoding: HistogramEncoding,
    histogram: HistogramPayload,
    finalForRevision: bool)
}
