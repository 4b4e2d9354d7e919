/** Strings in lexicographic order and their sorted lists. */
module SortedStrings {

  /** a comes no later than b. */
  predicate AtMost(a: string, b: string) {
    a == "" || (b != "" && (a[0] < b[0] || (a[0] == b[0] && AtMost(a[1..], b[1..]))))
  }

  lemma AtMostTotal(a: string, b: string)
    ensures AtMost(a, b) || AtMost(b, a)
  {
  }

  lemma AtMostAntisymmetric(a: string, b: string)
    requires AtMost(a, b) && AtMost(b, a)
    ensures a == b
  {
    if a != "" && b != "" {
      AtMostAntisymmetric(a[1..], b[1..]);
      assert a == [a[0]] + a[1..] && b == [b[0]] + b[1..];
    }
  }

  lemma AtMostTransitive(a: string, b: string, c: string)
    requires AtMost(a, b) && AtMost(b, c)
    ensures AtMost(a, c)
  {
  }

  predicate Sorted(s: seq<string>) {
    forall i, j :: 0 <= i < j < |s| ==> AtMost(s[i], s[j])
  }

  function Insert(x: string, s: seq<string>): seq<string> {
    if s == [] then [x]
    else if AtMost(x, s[0]) then [x] + s
    else [s[0]] + Insert(x, s[1..])
  }

  /** The sorted list of the given strings. */
  function Sort(s: seq<string>): seq<string> {
    if s == [] then [] else Insert(s[0], Sort(s[1..]))
  }

  lemma {:induction false} InsertSorts(x: string, s: seq<string>)
    requires Sorted(s)
    ensures Sorted(Insert(x, s)) && multiset(Insert(x, s)) == multiset(s) + multiset{x}
    decreases |s|
  {
    if s == [] {
    } else {
      assert s == [s[0]] + s[1..];
      if AtMost(x, s[0]) {
        PrependSorted(x, s);
      } else {
        InsertSorts(x, s[1..]);
        AtMostTotal(x, s[0]);
        var rest := Insert(x, s[1..]);
        assert rest[0] in multiset(rest);
        assert rest[0] == x || rest[0] in s[1..];
        PrependSorted(s[0], rest);
      }
    }
  }

  lemma PrependSorted(x: string, s: seq<string>)
    requires Sorted(s) && (s != [] ==> AtMost(x, s[0]))
    ensures Sorted([x] + s)
  {
    hide AtMost;
    var t := [x] + s;
    forall i, j | 0 <= i < j < |t| ensures AtMost(t[i], t[j]) {
      if i == 0 && j > 1 {
        AtMostTransitive(x, s[0], s[j - 1]);
      }
    }
  }

  /** Sorting keeps the strings and puts them in order. */
  lemma {:induction false} SortSorts(s: seq<string>)
    ensures Sorted(Sort(s)) && multiset(Sort(s)) == multiset(s)
    decreases |s|
  {
    if s == [] {
    } else {
      SortSorts(s[1..]);
      InsertSorts(s[0], Sort(s[1..]));
      assert s == [s[0]] + s[1..];
    }
  }

  lemma AtMostReflexive(a: string)
    ensures AtMost(a, a)
  {
  }

  lemma SortedHead(a: seq<string>, b: seq<string>)
    requires Sorted(a) && Sorted(b) && multiset(a) == multiset(b) && a != []
    ensures b != [] && a[0] == b[0]
  {
    assert |multiset(a)| == |multiset(b)|;
    assert a[0] in multiset(b) && b[0] in multiset(a);
    var i :| 0 <= i < |b| && b[i] == a[0];
    var j :| 0 <= j < |a| && a[j] == b[0];
    AtMostReflexive(a[0]);
    assert AtMost(b[0], b[i]) && AtMost(a[0], a[j]);
    AtMostAntisymmetric(a[0], b[0]);
  }

  lemma TailsAgree<T>(a: seq<T>, b: seq<T>)
    requires a != [] && b != [] && a[0] == b[0] && multiset(a) == multiset(b)
    ensures multiset(a[1..]) == multiset(b[1..])
  {
    assert a == [a[0]] + a[1..] && b == [b[0]] + b[1..];
    assert multiset(a[1..]) == multiset(a) - multiset{a[0]};
    assert multiset(b[1..]) == multiset(b) - multiset{b[0]};
  }

  /** Two sorted lists of the same strings are the same list. */
  lemma {:induction false} SortedIsUnique(a: seq<string>, b: seq<string>)
    requires Sorted(a) && Sorted(b) && multiset(a) == multiset(b)
    ensures a == b
    decreases |a|
  {
    hide AtMost;
    if a == [] {
      assert |multiset(b)| == 0;
    } else {
      SortedHead(a, b);
      TailsAgree(a, b);
      SortedIsUnique(a[1..], b[1..]);
      assert a == [a[0]] + a[1..] && b == [b[0]] + b[1..];
    }
  }

  /** The sorted list does not depend on the order it was built from. */
  lemma SortIgnoresOrder(a: seq<string>, b: seq<string>)
    requires multiset(a) == multiset(b)
    ensures Sort(a) == Sort(b)
  {
    SortSorts(a);
    SortSorts(b);
    SortedIsUnique(Sort(a), Sort(b));
  }
}

/** Dividing a run's load over its workers. */
module LoadSplitting {
  import opened Wire
  import opened SortedStrings

  /** The configured load of a whole run. Durations are in nanoseconds. */
  datatype Load = Load(
    model: LoadModel,
    virtualUsers: int,
    rate: int,
    maxInFlight: int,
    duration: Duration,
    rampUp: Duration)

  datatype SplitError =
    | NoWorkers
    | InvalidWorkerId
    | InvalidVirtualUsers
    | InvalidRate
    | InvalidMaxInFlight
    | UnsupportedModel

  datatype SplitResult = Slices(slices: map<string, LoadSlice>) | Failed(error: SplitError)

  // ----- Even shares --------------------------------------------------------------------

  function SumInts(s: seq<int>): int {
    if s == [] then 0 else SumInts(s[..|s| - 1]) + s[|s| - 1]
  }

  function Share(total: int, parts: int, index: int): int
    requires parts > 0
  {
    total / parts + if index < total % parts then 1 else 0
  }

  lemma {:induction false} SharesPrefix(total: int, parts: int, shares: seq<int>)
    requires parts > 0 && |shares| <= parts
    requires forall i :: 0 <= i < |shares| ==> shares[i] == Share(total, parts, i)
    ensures SumInts(shares) == (total / parts) * |shares| + Min(|shares|, total % parts)
    decreases |shares|
  {
    if shares == [] {
    } else {
      var n := |shares| - 1;
      SharesPrefix(total, parts, shares[..n]);
      assert (total / parts) * |shares| == (total / parts) * n + total / parts;
    }
  }

  /** The shares add up to the total, differ by at most one, the larger ones first, and are
      positive when there is enough to go round. */
  lemma SharesAreFair(total: int, parts: int, shares: seq<int>)
    requires parts > 0 && |shares| == parts && total >= 0
    requires forall i :: 0 <= i < parts ==> shares[i] == Share(total, parts, i)
    ensures SumInts(shares) == total
    ensures forall i, j :: 0 <= i < parts && 0 <= j < parts ==> shares[i] <= shares[j] + 1
    ensures forall i, j :: 0 <= i <= j < parts ==> shares[i] >= shares[j]
    ensures total >= parts ==> forall i :: 0 <= i < parts ==> shares[i] > 0
    ensures forall i :: 0 <= i < parts ==> shares[i] >= 0
  {
    SharesPrefix(total, parts, shares);
    assert (total / parts) * parts + total % parts == total;
    QuotientBounds(total, parts);
  }

  lemma QuotientBounds(total: int, parts: int)
    requires parts > 0 && total >= 0
    ensures total / parts >= 0
    ensures total >= parts ==> total / parts > 0
  {
    assert total == (total / parts) * parts + total % parts;
    if total / parts <= 0 {
      assert (total / parts) * parts <= 0;
    }
  }

  method Divide(total: int, parts: int) returns (shares: array<int>)
    requires parts > 0 && total >= 0
    ensures fresh(shares) && shares.Length == parts
    ensures forall i :: 0 <= i < parts ==> shares[i] == Share(total, parts, i)
    ensures SumInts(shares[..]) == total
  {
    shares := new int[parts];
    var base := total / parts;
    var remainder := total % parts;
    var index := 0;
    while index < parts
      invariant 0 <= index <= parts
      invariant forall i :: 0 <= i < index ==> shares[i] == Share(total, parts, i)
    {
      shares[index] := base;
      if index < remainder {
        shares[index] := shares[index] + 1;
      }
      index := index + 1;
    }
    SharesAreFair(total, parts, shares[..]);
  }

  // ----- The split ------------------------------------------------------------------------

  /** How many workers get a share. */
  function ActiveWorkers(load: Load, workers: nat): int {
    match load.model
    case ConstantVUs => Min(workers, load.virtualUsers)
    case ConstantRate => Min(workers, Min(load.rate, load.maxInFlight))
    case Unspecified => 0
  }

  /** The slice of the worker at this place in the sorted list. */
  function SliceAt(load: Load, workers: nat, index: nat): LoadSlice
    requires load.model.ConstantVUs? ==> load.virtualUsers > 0
    requires load.model.ConstantRate? ==> load.rate > 0 && load.maxInFlight > 0
    requires index < workers
  {
    var active := ActiveWorkers(load, workers);
    var users := if load.model.ConstantVUs? && index < active then Share(load.virtualUsers, active, index) else 0;
    var rate := if load.model.ConstantRate? && index < active then Share(load.rate, active, index) else 0;
    var limit := if load.model.ConstantRate? && index < active then Share(load.maxInFlight, active, index) else 0;
    LoadSlice(load.model, AsCount(users), AsCount(rate), AsCount(limit), Some(load.rampUp))
  }

  function AsCount(n: int): nat {
    if n < 0 then 0 else n
  }

  ghost predicate Distinct(ids: seq<string>) {
    forall i, j :: 0 <= i < j < |ids| ==> ids[i] != ids[j]
  }

  ghost predicate UsableIds(ids: seq<string>) {
    Distinct(ids) && forall i :: 0 <= i < |ids| ==> Trim(ids[i]) != ""
  }

  /** Why a split is refused, if it is. */
  ghost function Refusal(load: Load, ids: seq<string>): Option<SplitError> {
    if ids == [] then Some(NoWorkers)
    else if !UsableIds(ids) then Some(InvalidWorkerId)
    else match load.model
      case ConstantVUs => if load.virtualUsers <= 0 then Some(InvalidVirtualUsers) else None
      case ConstantRate =>
        if load.rate <= 0 then Some(InvalidRate)
        else if load.maxInFlight <= 0 then Some(InvalidMaxInFlight) else None
      case Unspecified => Some(UnsupportedModel)
  }

  /** The slices of the first workers of a sorted list. */
  function SlicesUpTo(load: Load, sorted: seq<string>, n: nat): map<string, LoadSlice>
    requires load.model.ConstantVUs? ==> load.virtualUsers > 0
    requires load.model.ConstantRate? ==> load.rate > 0 && load.maxInFlight > 0
    requires n <= |sorted|
  {
    if n == 0 then map[]
    else SlicesUpTo(load, sorted, n - 1)[sorted[n - 1] := SliceAt(load, |sorted|, n - 1)]
  }

  ghost function Split(load: Load, ids: seq<string>): SplitResult {
    var refusal := Refusal(load, ids);
    if refusal.Some? then Failed(refusal.value)
    else Slices(SlicesUpTo(load, Sort(ids), |Sort(ids)|))
  }

  lemma {:induction false} SlicesUpToAt(load: Load, sorted: seq<string>, n: nat)
    requires load.model.ConstantVUs? ==> load.virtualUsers > 0
    requires load.model.ConstantRate? ==> load.rate > 0 && load.maxInFlight > 0
    requires n <= |sorted| && Distinct(sorted)
    ensures var m := SlicesUpTo(load, sorted, n);
      && (forall w :: w in m <==> w in sorted[..n])
      && (forall i :: 0 <= i < n ==> sorted[i] in m && m[sorted[i]] == SliceAt(load, |sorted|, i))
    decreases n
  {
    hide SliceAt;
    if n == 0 {
    } else {
      SlicesUpToAt(load, sorted, n - 1);
      var last, before := sorted[n - 1], SlicesUpTo(load, sorted, n - 1);
      assert sorted[..n] == sorted[..n - 1] + [last];
      var m := before[last := SliceAt(load, |sorted|, n - 1)];
      assert SlicesUpTo(load, sorted, n) == m;
      forall i | 0 <= i < n ensures sorted[i] in m && m[sorted[i]] == SliceAt(load, |sorted|, i) {
        assert i < n - 1 ==> sorted[i] in before && sorted[i] != last;
      }
    }
  }

  lemma SortedUsable(ids: seq<string>)
    ensures UsableIds(ids) <==> UsableIds(Sort(ids))
    ensures |Sort(ids)| == |ids|
    ensures forall w :: w in Sort(ids) <==> w in ids
  {
    SortSorts(ids);
    var sorted := Sort(ids);
    assert |multiset(ids)| == |multiset(sorted)|;
    assert forall w :: w in sorted <==> w in multiset(sorted);
    assert forall w :: w in ids <==> w in multiset(ids);
    DistinctByCount(ids);
    DistinctByCount(sorted);
    if UsableIds(ids) {
      forall i | 0 <= i < |sorted| ensures Trim(sorted[i]) != "" {
        assert sorted[i] in multiset(sorted);
        assert sorted[i] in ids;
      }
    }
    if UsableIds(sorted) {
      forall i | 0 <= i < |ids| ensures Trim(ids[i]) != "" {
        assert ids[i] in multiset(ids);
        assert ids[i] in sorted;
      }
    }
  }

  lemma {:induction false} DistinctByCount(ids: seq<string>)
    ensures Distinct(ids) <==> forall w :: multiset(ids)[w] <= 1
    decreases |ids|
  {
    if ids == [] {
    } else {
      var init, last := ids[..|ids| - 1], ids[|ids| - 1];
      assert ids == init + [last];
      DistinctByCount(init);
      assert multiset(init)[last] > 0 <==> last in init;
      if Distinct(ids) {
        assert last !in init;
      } else if Distinct(init) {
        var i, j :| 0 <= i < j < |ids| && ids[i] == ids[j];
        assert j == |ids| - 1 && init[i] == last;
        assert multiset(ids)[last] > 1;
      } else {
        var w :| multiset(init)[w] > 1;
        assert multiset(ids)[w] > 1;
      }
    }
  }

  /** A configured load as the configuration check leaves it. */
  predicate ValidLoad(load: Load) {
    && (load.model.ConstantVUs? || load.model.ConstantRate?)
    && (load.model.ConstantVUs? ==> load.virtualUsers > 0 && load.maxInFlight == 0)
    && (load.model.ConstantRate? ==> load.rate > 0 && load.maxInFlight > 0)
    && load.duration > 0
    && load.rampUp >= 0
  }

  function Column(load: Load, workers: nat, field: LoadSlice -> nat): (column: seq<int>)
    requires load.model.ConstantVUs? ==> load.virtualUsers > 0
    requires load.model.ConstantRate? ==> load.rate > 0 && load.maxInFlight > 0
    ensures |column| == workers
  {
    seq(workers, i requires 0 <= i < workers => field(SliceAt(load, workers, i)))
  }

  lemma {:induction false} PaddedShares(total: int, parts: int, s: seq<int>)
    requires parts > 0 && total >= 0 && |s| >= parts
    requires forall i :: 0 <= i < |s| ==> s[i] == if i < parts then Share(total, parts, i) else 0
    ensures SumInts(s) == total
    decreases |s|
  {
    if |s| == parts {
      SharesAreFair(total, parts, s);
    } else {
      PaddedShares(total, parts, s[..|s| - 1]);
    }
  }

  lemma {:induction false} ZeroSum(s: seq<int>)
    requires forall i :: 0 <= i < |s| ==> s[i] == 0
    ensures SumInts(s) == 0
    decreases |s|
  {
    if s == [] {
    } else {
      ZeroSum(s[..|s| - 1]);
    }
  }

  lemma ShareBounds(total: int, parts: int, index: int)
    requires parts > 0 && total >= parts
    ensures Share(total, parts, index) > 0
  {
    QuotientBounds(total, parts);
  }

  /** Shares for a valid load: the whole load and no more is handed out, the workers
      that come first in order are the active ones, and no two active shares of the
      same kind differ by more than one. */
  lemma SplitIsFair(load: Load, workers: nat)
    requires ValidLoad(load) && workers > 0
    ensures SumInts(Column(load, workers, (s: LoadSlice) => s.virtualUsers))
            == if load.model.ConstantVUs? then load.virtualUsers else 0
    ensures SumInts(Column(load, workers, (s: LoadSlice) => s.rate))
            == if load.model.ConstantRate? then load.rate else 0
    ensures SumInts(Column(load, workers, (s: LoadSlice) => s.maxInFlight))
            == if load.model.ConstantRate? then load.maxInFlight else 0
    ensures 0 < ActiveWorkers(load, workers) <= workers
    ensures forall i :: 0 <= i < workers ==>
      (IsActive(Some(SliceAt(load, workers, i))) <==> i < ActiveWorkers(load, workers))
    ensures forall i, j :: 0 <= i < ActiveWorkers(load, workers) && 0 <= j < ActiveWorkers(load, workers) ==>
      var s, t := SliceAt(load, workers, i), SliceAt(load, workers, j);
      s.virtualUsers <= t.virtualUsers + 1 && s.rate <= t.rate + 1 && s.maxInFlight <= t.maxInFlight + 1
  {
    ActiveShares(load, workers);
    ColumnsAddUp(load, workers);
    hide SumInts, Column;
    forall i | 0 <= i < workers
      ensures IsActive(Some(SliceAt(load, workers, i))) <==> i < ActiveWorkers(load, workers)
    {
      assert i < ActiveWorkers(load, workers) ==> load.model.ConstantVUs? || load.model.ConstantRate?;
    }
  }

  lemma ActiveShares(load: Load, workers: nat)
    requires ValidLoad(load) && workers > 0
    ensures 0 < ActiveWorkers(load, workers) <= workers
    ensures forall i :: 0 <= i < ActiveWorkers(load, workers) ==>
      && (load.model.ConstantVUs? ==> Share(load.virtualUsers, ActiveWorkers(load, workers), i) > 0)
      && (load.model.ConstantRate? ==>
            && Share(load.rate, ActiveWorkers(load, workers), i) > 0
            && Share(load.maxInFlight, ActiveWorkers(load, workers), i) > 0)
  {
    var active := ActiveWorkers(load, workers);
    hide Share;
    forall i | 0 <= i < active
      ensures load.model.ConstantVUs? ==> Share(load.virtualUsers, active, i) > 0
      ensures load.model.ConstantRate? ==> Share(load.rate, active, i) > 0 && Share(load.maxInFlight, active, i) > 0
    {
      if load.model.ConstantVUs? {
        ShareBounds(load.virtualUsers, active, i);
      } else {
        ShareBounds(load.rate, active, i);
        ShareBounds(load.maxInFlight, active, i);
      }
    }
  }

  lemma ColumnsAddUp(load: Load, workers: nat)
    requires ValidLoad(load) && workers > 0
    ensures SumInts(Column(load, workers, (s: LoadSlice) => s.virtualUsers))
            == if load.model.ConstantVUs? then load.virtualUsers else 0
    ensures SumInts(Column(load, workers, (s: LoadSlice) => s.rate))
            == if load.model.ConstantRate? then load.rate else 0
    ensures SumInts(Column(load, workers, (s: LoadSlice) => s.maxInFlight))
            == if load.model.ConstantRate? then load.maxInFlight else 0
  {
    ActiveShares(load, workers);
    hide SumInts, Share;
    var active := ActiveWorkers(load, workers);
    var users := Column(load, workers, (s: LoadSlice) => s.virtualUsers);
    var rates := Column(load, workers, (s: LoadSlice) => s.rate);
    var limits := Column(load, workers, (s: LoadSlice) => s.maxInFlight);
    assert forall i :: 0 <= i < workers ==> users[i] == SliceAt(load, workers, i).virtualUsers;
    assert forall i :: 0 <= i < workers ==> rates[i] == SliceAt(load, workers, i).rate;
    assert forall i :: 0 <= i < workers ==> limits[i] == SliceAt(load, workers, i).maxInFlight;
    if load.model.ConstantVUs? {
      PaddedShares(load.virtualUsers, active, users);
      ZeroSum(rates);
      ZeroSum(limits);
    } else {
      ZeroSum(users);
      PaddedShares(load.rate, active, rates);
      PaddedShares(load.maxInFlight, active, limits);
    }
  }

  /** A valid load over distinct, named workers is always split, with one slice for each. */
  lemma SplitSucceeds(load: Load, ids: seq<string>)
    requires ValidLoad(load) && ids != [] && UsableIds(ids)
    ensures Split(load, ids).Slices?
    ensures forall w :: w in Split(load, ids).slices <==> w in ids
    ensures forall i :: 0 <= i < |ids| ==>
      var sorted := Sort(ids);
      && |sorted| == |ids| && sorted[i] in Split(load, ids).slices
      && Split(load, ids).slices[sorted[i]] == SliceAt(load, |ids|, i)
  {
    hide SliceAt;
    SortedUsable(ids);
    var sorted := Sort(ids);
    SlicesUpToAt(load, sorted, |sorted|);
    assert sorted[..|sorted|] == sorted;
  }

  /** What an error says of a load and its workers. */
  ghost predicate CannotSplit(load: Load, ids: seq<string>, error: SplitError) {
    match error
    case NoWorkers => ids == []
    case InvalidWorkerId =>
      || (exists i :: 0 <= i < |ids| && AllSpace(ids[i]))
      || (exists i, j :: 0 <= i < j < |ids| && ids[i] == ids[j])
    case InvalidVirtualUsers => load.model.ConstantVUs? && load.virtualUsers <= 0
    case InvalidRate => load.model.ConstantRate? && load.rate <= 0
    case InvalidMaxInFlight => load.model.ConstantRate? && load.maxInFlight <= 0
    case UnsupportedModel => load.model.Unspecified?
  }

  /** A split fails exactly when something stands in its way, and its error is true. */
  lemma SplitFailsExactly(load: Load, ids: seq<string>)
    ensures Split(load, ids).Failed? <==> exists error :: CannotSplit(load, ids, error)
    ensures Split(load, ids).Failed? ==> CannotSplit(load, ids, Split(load, ids).error)
  {
    forall i | 0 <= i < |ids| ensures Trim(ids[i]) == "" <==> AllSpace(ids[i]) {
      TrimIsExact(ids[i]);
    }
    hide Trim, AllSpace, Sort, SlicesUpTo;
    if Split(load, ids).Failed? {
      assert CannotSplit(load, ids, Split(load, ids).error);
    }
  }

  /** The i-th worker's slice, by the order of the IDs. */
  ghost function Ranked(slices: map<string, LoadSlice>, ids: seq<string>): (ranked: seq<LoadSlice>)
    requires forall i :: 0 <= i < |Sort(ids)| ==> Sort(ids)[i] in slices
    ensures |ranked| == |Sort(ids)|
  {
    seq(|Sort(ids)|, i requires 0 <= i < |Sort(ids)| => slices[Sort(ids)[i]])
  }

  function FieldOf(slices: seq<LoadSlice>, field: LoadSlice -> nat): (column: seq<int>)
    ensures |column| == |slices|
  {
    seq(|slices|, i requires 0 <= i < |slices| => field(slices[i]))
  }

  /** No slice has less of it than one that comes later. */
  ghost predicate LargestFirst(slices: seq<LoadSlice>) {
    forall i, j :: 0 <= i <= j < |slices| ==>
      && slices[i].virtualUsers >= slices[j].virtualUsers
      && slices[i].rate >= slices[j].rate && slices[i].maxInFlight >= slices[j].maxInFlight
  }

  /** Slices with load have no more than one unit more of anything than one another. */
  ghost predicate Balanced(slices: seq<LoadSlice>) {
    forall i, j :: 0 <= i < |slices| && 0 <= j < |slices| && IsActive(Some(slices[i])) && IsActive(Some(slices[j])) ==>
      && slices[i].virtualUsers <= slices[j].virtualUsers + 1
      && slices[i].rate <= slices[j].rate + 1 && slices[i].maxInFlight <= slices[j].maxInFlight + 1
  }

  /** A worker is left idle only if nobody has a second unit of what ran short. */
  ghost predicate NobodyIdleInVain(slices: seq<LoadSlice>) {
    (exists i :: 0 <= i < |slices| && !IsActive(Some(slices[i]))) ==>
      || (forall i :: 0 <= i < |slices| ==> slices[i].virtualUsers <= 1 && slices[i].rate <= 1)
      || (forall i :: 0 <= i < |slices| ==> slices[i].virtualUsers <= 1 && slices[i].maxInFlight <= 1)
  }

  /** The configured model and ramp in every slice, idle or not. */
  ghost predicate KeepsModelAndRamp(load: Load, slices: seq<LoadSlice>) {
    forall i :: 0 <= i < |slices| ==>
      slices[i].model == load.model && slices[i].rampUp == Some(load.rampUp) && WholeOrIdle(slices[i])
  }

  function Users(slice: LoadSlice): nat { slice.virtualUsers }
  function RateOf(slice: LoadSlice): nat { slice.rate }
  function LimitOf(slice: LoadSlice): nat { slice.maxInFlight }

  /** The whole load and no more. */
  ghost predicate AddsUp(load: Load, slices: seq<LoadSlice>) {
    && SumInts(FieldOf(slices, Users)) == (if load.model.ConstantVUs? then load.virtualUsers else 0)
    && SumInts(FieldOf(slices, RateOf)) == (if load.model.ConstantRate? then load.rate else 0)
    && SumInts(FieldOf(slices, LimitOf)) == (if load.model.ConstantRate? then load.maxInFlight else 0)
  }

  /** What a fair division of the load is, said of the slices in the order of the IDs. */
  ghost predicate FairDivision(load: Load, slices: seq<LoadSlice>) {
    && KeepsModelAndRamp(load, slices) && AddsUp(load, slices)
    && LargestFirst(slices) && Balanced(slices) && NobodyIdleInVain(slices)
  }

  lemma SharesDescend(total: int, parts: int)
    requires parts > 0
    ensures forall i, j :: 0 <= i <= j < parts ==> Share(total, parts, i) >= Share(total, parts, j)
    ensures 0 <= total <= parts ==> forall i :: 0 <= i < parts ==> Share(total, parts, i) <= 1
  {
    if 0 <= total <= parts {
      assert total == parts || (total / parts == 0 && total % parts == total);
    }
  }

  lemma SlicesInOrder(load: Load, workers: nat, slices: seq<LoadSlice>)
    requires ValidLoad(load) && workers > 0 && |slices| == workers
    requires forall i :: 0 <= i < workers ==> slices[i] == SliceAt(load, workers, i)
    ensures LargestFirst(slices) && NobodyIdleInVain(slices) && KeepsModelAndRamp(load, slices)
  {
    ActiveShares(load, workers);
    var active := ActiveWorkers(load, workers);
    SharesDescend(load.virtualUsers, active);
    SharesDescend(load.rate, active);
    SharesDescend(load.maxInFlight, active);
    hide Share;
  }

  lemma SlicesAreBalanced(load: Load, workers: nat, slices: seq<LoadSlice>)
    requires ValidLoad(load) && workers > 0 && |slices| == workers
    requires forall i :: 0 <= i < workers ==> slices[i] == SliceAt(load, workers, i)
    ensures Balanced(slices) && AddsUp(load, slices)
  {
    hide SliceAt, SumInts;
    SplitIsFair(load, workers);
    assert FieldOf(slices, Users) == Column(load, workers, (s: LoadSlice) => s.virtualUsers);
    assert FieldOf(slices, RateOf) == Column(load, workers, (s: LoadSlice) => s.rate);
    assert FieldOf(slices, LimitOf) == Column(load, workers, (s: LoadSlice) => s.maxInFlight);
  }

  /** A valid load over usable IDs is divided fairly, with the configured model and ramp in
      every slice, idle or not. */
  lemma SplitIsFairDivision(load: Load, ids: seq<string>)
    requires ValidLoad(load) && ids != [] && UsableIds(ids)
    ensures Split(load, ids).Slices? && |Sort(ids)| == |ids|
    ensures forall i :: 0 <= i < |Sort(ids)| ==> Sort(ids)[i] in Split(load, ids).slices
    ensures FairDivision(load, Ranked(Split(load, ids).slices, ids))
  {
    hide Split, SumInts, Sort, SliceAt, UsableIds;
    SplitSucceeds(load, ids);
    SortedUsable(ids);
    var slices := Ranked(Split(load, ids).slices, ids);
    SlicesInOrder(load, |ids|, slices);
    SlicesAreBalanced(load, |ids|, slices);
  }

  // ----- Only one division is fair --------------------------------------------------------

  lemma {:induction false} StepSum(s: seq<int>, base: int, more: nat)
    requires forall i :: 0 <= i < |s| ==> s[i] == base + if i < more then 1 else 0
    ensures SumInts(s) == base * |s| + Min(|s|, more)
    decreases |s|
  {
    if s == [] {
    } else {
      StepSum(s[..|s| - 1], base, more);
      assert base * |s| == base * (|s| - 1) + base;
    }
  }

  lemma {:induction false} AtLeastOneEach(s: seq<int>, k: nat)
    requires forall i :: 0 <= i < |s| ==> s[i] >= if i < k then 1 else 0
    ensures SumInts(s) >= Min(|s|, k)
    decreases |s|
  {
    if s == [] {
    } else {
      AtLeastOneEach(s[..|s| - 1], k);
    }
  }

  lemma {:induction false} ZeroTail(s: seq<int>, n: nat)
    requires n <= |s| && forall i :: n <= i < |s| ==> s[i] == 0
    ensures SumInts(s) == SumInts(s[..n])
    decreases |s|
  {
    if n == |s| {
      assert s[..n] == s;
    } else {
      ZeroTail(s[..|s| - 1], n);
      assert s[..|s| - 1][..n] == s[..n];
    }
  }

  /** Shares in descending order no more than one apart are fixed by their total. */
  lemma EvenColumn(s: seq<int>)
    requires s != [] && forall i, j :: 0 <= i <= j < |s| ==> s[j] <= s[i] <= s[j] + 1
    ensures forall i :: 0 <= i < |s| ==> s[i] == Share(SumInts(s), |s|, i)
  {
    hide SumInts;
    var base := s[|s| - 1];
    var more := FirstAt(s, base);
    StepSum(s, base, more);
    QuotientFromParts(SumInts(s), base, more, |s|);
  }

  lemma QuotientFromParts(total: int, base: int, more: nat, parts: nat)
    requires more < parts && total == base * parts + more
    ensures total / parts == base && total % parts == more
  {
    var apart := total / parts - base;
    assert (total / parts) * parts == apart * parts + base * parts;
    OnlyZeroBetween(apart, parts);
  }

  lemma OnlyZeroBetween(n: int, parts: int)
    requires 0 - parts < n * parts < parts
    ensures n == 0
  {
    if n > 0 {
      AtLeastOnce(n, parts);
    } else if n < 0 {
      AtLeastOnce(-n, parts);
    }
  }

  lemma AtLeastOnce(n: int, parts: int)
    requires n >= 1 && parts >= 0
    ensures n * parts >= parts
  {
  }

  /** The first place of a value in descending shares; all before it are larger. */
  lemma {:induction false} FirstAt(s: seq<int>, v: int) returns (k: nat)
    requires s != [] && s[|s| - 1] == v && forall i, j :: 0 <= i <= j < |s| ==> s[i] >= s[j]
    ensures k < |s| && forall i :: 0 <= i < |s| ==> (s[i] == v <==> k <= i)
    decreases |s|
  {
    if |s| > 1 && s[|s| - 2] == v {
      k := FirstAt(s[..|s| - 1], v);
    } else {
      k := |s| - 1;
    }
  }

  lemma EvenWithTail(s: seq<int>, active: nat)
    requires 0 < active <= |s| && forall i :: active <= i < |s| ==> s[i] == 0
    requires forall i, j :: 0 <= i <= j < active ==> s[j] <= s[i] <= s[j] + 1
    ensures forall i :: 0 <= i < |s| ==> s[i] == if i < active then Share(SumInts(s), active, i) else 0
  {
    hide SumInts, Share;
    ZeroTail(s, active);
    EvenColumn(s[..active]);
  }

  /** In a fair division the workers with load come first. */
  lemma ActivePrefix(slices: seq<LoadSlice>) returns (k: nat)
    requires LargestFirst(slices) && forall i, j :: 0 <= i < j < |slices| ==> slices[i].model == slices[j].model
    ensures k <= |slices| && forall i :: 0 <= i < |slices| ==> (IsActive(Some(slices[i])) <==> i < k)
  {
    k := 0;
    while k < |slices| && IsActive(Some(slices[k]))
      invariant k <= |slices| && forall i :: 0 <= i < k ==> IsActive(Some(slices[i]))
    {
      k := k + 1;
    }
    if k < |slices| {
      forall i | k <= i < |slices| ensures !IsActive(Some(slices[i])) {
        assert slices[k].virtualUsers >= slices[i].virtualUsers;
      }
    }
  }

  lemma ActiveColumns(load: Load, slices: seq<LoadSlice>, k: nat)
    requires ValidLoad(load) && KeepsModelAndRamp(load, slices)
    requires k <= |slices| && forall i :: 0 <= i < |slices| ==> (IsActive(Some(slices[i])) <==> i < k)
    ensures load.model.ConstantVUs? ==>
      forall i :: 0 <= i < |slices| ==> (slices[i].virtualUsers >= 1 <==> i < k)
    ensures load.model.ConstantRate? ==>
      forall i :: 0 <= i < |slices| ==> (slices[i].rate >= 1 <==> i < k) && (slices[i].maxInFlight >= 1 <==> i < k)
  {
    forall i | 0 <= i < |slices|
      ensures load.model.ConstantVUs? ==> (slices[i].virtualUsers >= 1 <==> i < k)
      ensures load.model.ConstantRate? ==> (slices[i].rate >= 1 <==> i < k) && (slices[i].maxInFlight >= 1 <==> i < k)
    {
      assert IsActive(Some(slices[i])) <==> i < k;
    }
  }

  /** Their number is the one the source computes. */
  lemma ActiveCount(load: Load, slices: seq<LoadSlice>, k: nat)
    requires ValidLoad(load) && slices != [] && FairDivision(load, slices)
    requires k <= |slices| && forall i :: 0 <= i < |slices| ==> (IsActive(Some(slices[i])) <==> i < k)
    ensures k == ActiveWorkers(load, |slices|)
  {
    hide SumInts, LargestFirst, Balanced, KeepsModelAndRamp, IsActive;
    ActiveColumns(load, slices, k);
    var users, rates, limits := FieldOf(slices, Users), FieldOf(slices, RateOf), FieldOf(slices, LimitOf);
    assert forall i :: 0 <= i < |slices| ==> users[i] == slices[i].virtualUsers;
    assert forall i :: 0 <= i < |slices| ==> rates[i] == slices[i].rate;
    assert forall i :: 0 <= i < |slices| ==> limits[i] == slices[i].maxInFlight;
    assert k < |slices| ==> !IsActive(Some(slices[k]));
    if load.model.ConstantVUs? {
      AtLeastOneEach(users, k);
      if k < |slices| {
        StepSum(users, 0, k);
      }
    } else {
      AtLeastOneEach(rates, k);
      AtLeastOneEach(limits, k);
      if k < |slices| {
        if forall i :: 0 <= i < |slices| ==> slices[i].rate <= 1 {
          StepSum(rates, 0, k);
        } else {
          StepSum(limits, 0, k);
        }
      }
    }
  }

  /** Only one division of a load over so many workers is fair: the split's. */
  lemma FairDivisionIsUnique(load: Load, slices: seq<LoadSlice>)
    requires ValidLoad(load) && slices != []
    ensures FairDivision(load, slices)
            <==> forall i :: 0 <= i < |slices| ==> slices[i] == SliceAt(load, |slices|, i)
  {
    hide SliceAt, KeepsModelAndRamp, AddsUp, LargestFirst, Balanced, NobodyIdleInVain;
    if FairDivision(load, slices) {
      FairIsSplit(load, slices);
    } else if forall i :: 0 <= i < |slices| ==> slices[i] == SliceAt(load, |slices|, i) {
      SlicesInOrder(load, |slices|, slices);
      SlicesAreBalanced(load, |slices|, slices);
    }
  }

  lemma FairIsSplit(load: Load, slices: seq<LoadSlice>)
    requires ValidLoad(load) && slices != [] && FairDivision(load, slices)
    ensures forall i :: 0 <= i < |slices| ==> slices[i] == SliceAt(load, |slices|, i)
  {
    hide SumInts, Share, NobodyIdleInVain;
    var active := ActivePrefix(slices);
    ActiveCount(load, slices, active);
    ActiveShares(load, |slices|);
    ActiveColumns(load, slices, active);
    ColumnIsEven(slices, Users, active);
    ColumnIsEven(slices, RateOf, active);
    ColumnIsEven(slices, LimitOf, active);
  }

  /** One column of slices in descending order, no two active ones more than one apart. */
  lemma ColumnIsEven(slices: seq<LoadSlice>, field: LoadSlice -> nat, active: nat)
    requires 0 < active <= |slices| && forall i :: active <= i < |slices| ==> field(slices[i]) == 0
    requires forall i, j :: 0 <= i <= j < active ==> field(slices[j]) <= field(slices[i]) <= field(slices[j]) + 1
    ensures forall i :: 0 <= i < |slices| ==>
      field(slices[i]) == if i < active then Share(SumInts(FieldOf(slices, field)), active, i) else 0
  {
    hide SumInts, Share;
    var column := FieldOf(slices, field);
    assert forall i :: 0 <= i < |slices| ==> column[i] == field(slices[i]);
    EvenWithTail(column, active);
  }

  /** The order in which workers are listed changes nothing. */
  lemma SplitIgnoresOrder(load: Load, a: seq<string>, b: seq<string>)
    requires multiset(a) == multiset(b)
    ensures Split(load, a) == Split(load, b)
  {
    hide SliceAt;
    SortIgnoresOrder(a, b);
    SortedUsable(a);
    SortedUsable(b);
    assert |multiset(a)| == |multiset(b)|;
  }

  /** Inserts one string into a sorted list in place of the library sort. */
  method SortIds(ids: seq<string>) returns (sorted: seq<string>)
    ensures sorted == Sort(ids)
  {
    sorted := [];
    var i := |ids|;
    while i > 0
      invariant 0 <= i <= |ids|
      invariant sorted == Sort(ids[i..])
    {
      i := i - 1;
      assert ids[i..][1..] == ids[i + 1..];
      sorted := Insert(ids[i], sorted);
    }
    assert ids[0..] == ids;
  }

  /** Rejects blank and repeated worker IDs in a sorted list. */
  method CheckIds(sorted: seq<string>) returns (ok: bool)
    requires Sorted(sorted)
    ensures ok <==> UsableIds(sorted)
  {
    var i := 0;
    while i < |sorted|
      invariant 0 <= i <= |sorted|
      invariant forall k :: 0 <= k < i ==> Trim(sorted[k]) != ""
      invariant forall j, k :: 0 <= j < k < i ==> sorted[j] != sorted[k]
    {
      if Trim(sorted[i]) == "" {
        return false;
      }
      if i > 0 && sorted[i] == sorted[i - 1] {
        return false;
      }
      forall j | 0 <= j < i ensures sorted[j] != sorted[i] {
        if sorted[j] == sorted[i] && j < i - 1 {
          AtMostAntisymmetric(sorted[j], sorted[i - 1]);
        }
      }
      i := i + 1;
    }
    return true;
  }

  method SplitUsers(load: Load, sorted: seq<string>) returns (slices: map<string, LoadSlice>)
    requires load.model.ConstantVUs? && load.virtualUsers > 0 && sorted != []
    ensures slices == SlicesUpTo(load, sorted, |sorted|)
  {
    var active := Min(|sorted|, load.virtualUsers);
    var divided := Divide(load.virtualUsers, active);
    var shares := divided[..];
    slices := map[];
    var index := 0;
    while index < |sorted|
      invariant 0 <= index <= |sorted|
      invariant slices == SlicesUpTo(load, sorted, index)
    {
      var slice := LoadSlice(ConstantVUs, 0, 0, 0, Some(load.rampUp));
      if index < active {
        ShareBounds(load.virtualUsers, active, index);
        slice := slice.(virtualUsers := shares[index]);
      }
      slices := slices[sorted[index] := slice];
      index := index + 1;
    }
  }

  method SplitRate(load: Load, sorted: seq<string>) returns (slices: map<string, LoadSlice>)
    requires load.model.ConstantRate? && load.rate > 0 && load.maxInFlight > 0 && sorted != []
    ensures slices == SlicesUpTo(load, sorted, |sorted|)
  {
    var active := Min(|sorted|, Min(load.rate, load.maxInFlight));
    var dividedRate := Divide(load.rate, active);
    var rates := dividedRate[..];
    var dividedLimit := Divide(load.maxInFlight, active);
    var limits := dividedLimit[..];
    slices := map[];
    var index := 0;
    while index < |sorted|
      invariant 0 <= index <= |sorted|
      invariant slices == SlicesUpTo(load, sorted, index)
    {
      var slice := LoadSlice(ConstantRate, 0, 0, 0, Some(load.rampUp));
      if index < active {
        ShareBounds(load.rate, active, index);
        ShareBounds(load.maxInFlight, active, index);
        slice := slice.(rate := rates[index], maxInFlight := limits[index]);
      }
      slices := slices[sorted[index] := slice];
      index := index + 1;
    }
  }

  /** One complete slice per worker, zero-load slices included. */
  method SplitLoad(load: Load, ids: seq<string>) returns (result: SplitResult)
    ensures result == Split(load, ids)
  {
    if ids == [] {
      return Failed(NoWorkers);
    }
    var sorted := SortIds(ids);
    SortSorts(ids);
    SortedUsable(ids);
    var usable := CheckIds(sorted);
    if !usable {
      return Failed(InvalidWorkerId);
    }
    match load.model {
      case ConstantVUs =>
        if load.virtualUsers <= 0 {
          return Failed(InvalidVirtualUsers);
        }
        var slices := SplitUsers(load, sorted);
        return Slices(slices);
      case ConstantRate =>
        if load.rate <= 0 {
          return Failed(InvalidRate);
        }
        if load.maxInFlight <= 0 {
          return Failed(InvalidMaxInFlight);
        }
        var slices := SplitRate(load, sorted);
        return Slices(slices);
      case Unspecified =>
        return Failed(UnsupportedModel);
    }
  }
}
