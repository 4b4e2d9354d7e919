/** The open-model arrival schedule and its late-start search. */
module ArrivalSchedule {
  import opened Wire

  ghost predicate Nondecreasing(offset: nat -> real) {
    forall a: nat, b: nat :: a <= b ==> offset(a) <= offset(b)
  }

  /** n is the first arrival whose offset has not passed yet. */
  ghost predicate IsFirst(offset: nat -> real, elapsed: real, n: nat) {
    offset(n) >= elapsed && forall m: nat :: m < n ==> offset(m) < elapsed
  }

  function Pow2(k: nat): (p: nat)
    ensures p > k
  {
    if k == 0 then 1 else 2 * Pow2(k - 1)
  }

  lemma {:induction false} Pow2Grows(j: nat, k: nat)
    requires j <= k
    ensures Pow2(j) <= Pow2(k)
    decreases k
  {
    if j == k {
    } else {
      Pow2Grows(j, k - 1);
    }
  }

  /** Finds the first arrival that has not already passed below a bound that has not. */
  method Halve(offset: nat --> real, elapsed: real, bound: nat) returns (low: nat)
    requires forall n: nat :: n <= bound ==> offset.requires(n)
    requires forall a: nat, b: nat :: a <= b <= bound ==> offset(a) <= offset(b)
    requires offset(bound) >= elapsed
    ensures low <= bound && offset(low) >= elapsed
    ensures forall m: nat :: m < low ==> offset(m) < elapsed
  {
    var high := bound;
    low := 0;
    while low < high
      invariant 0 <= low <= high <= bound
      invariant offset(high) >= elapsed
      invariant forall m: nat :: m < low ==> offset(m) < elapsed
      decreases high - low
    {
      var middle := low + (high - low) / 2;
      if offset(middle) < elapsed {
        low := middle + 1;
      } else {
        high := middle;
      }
    }
  }

  /** Finds the first arrival that has not already passed, by doubling and then halving.
      No offset beyond the given power of two is ever asked for. */
  method FirstArrivalSequence(offset: nat --> real, elapsed: real, ghost k: nat) returns (low: nat)
    requires forall n: nat :: n <= Pow2(k) ==> offset.requires(n)
    requires forall a: nat, b: nat :: a <= b <= Pow2(k) ==> offset(a) <= offset(b)
    requires offset(0) >= 0.0 && offset(Pow2(k)) >= elapsed
    ensures low <= Pow2(k) && offset(low) >= elapsed
    ensures forall m: nat :: m < low ==> offset(m) < elapsed
  {
    if elapsed <= 0.0 {
      return 0;
    }
    var high: nat := 1;
    ghost var j: nat := 0;
    Pow2Grows(0, k);
    while offset(high) < elapsed
      invariant j <= k && high == Pow2(j) <= Pow2(k)
      decreases k - j
    {
      assert j < k;
      Pow2Grows(j + 1, k);
      high := high * 2;
      j := j + 1;
    }
    low := Halve(offset, elapsed, high);
  }

  // ----- Constant rate -----------------------------------------------------------------

  /** Offset in nanoseconds of an arrival at a constant rate. */
  function ConstantOffset(rate: int, sequence: nat): int
    requires rate > 0
  {
    sequence * SECOND / rate
  }

  function ConstantSchedule(rate: int): nat -> real
    requires rate > 0
  {
    (n: nat) => ConstantOffset(rate, n) as real
  }

  /** Flooring does not move an offset across a whole number. */
  lemma FloorReaches(a: int, b: int, e: int)
    requires b > 0
    ensures a / b >= e <==> a >= e * b
  {
    assert a == (a / b) * b + a % b;
    if a / b >= e {
      assert (a / b) * b >= e * b;
    } else {
      assert (a / b + 1) * b <= e * b;
    }
  }

  lemma ConstantReaches(rate: int, n: nat, elapsed: int)
    requires rate > 0
    ensures ConstantOffset(rate, n) >= elapsed <==> n * SECOND >= elapsed * rate
  {
    FloorReaches(n * SECOND, rate, elapsed);
  }

  lemma ConstantNondecreasing(rate: int)
    requires rate > 0
    ensures Nondecreasing(ConstantSchedule(rate))
    ensures ConstantSchedule(rate)(0) >= 0.0
  {
    forall a: nat, b: nat | a <= b
      ensures ConstantSchedule(rate)(a) <= ConstantSchedule(rate)(b)
    {
      ConstantReaches(rate, b, ConstantOffset(rate, a));
      ConstantReaches(rate, a, ConstantOffset(rate, a));
    }
  }

  function CeilDiv(a: int, b: int): int
    requires b > 0
  {
    (a + b - 1) / b
  }

  /** Without a ramp the first arrival at or after a positive elapsed time is the
      elapsed time multiplied by the rate, rounded up. */
  lemma ConstantFirstArrival(rate: int, elapsed: int, n: nat)
    requires rate > 0 && elapsed > 0
    ensures IsFirst(ConstantSchedule(rate), elapsed as real, n) <==> n == CeilDiv(elapsed * rate, SECOND)
  {
    var target := elapsed * rate;
    var first := CeilDiv(target, SECOND);
    assert target > 0;
    assert (first - 1) * SECOND < target <= first * SECOND;
    forall m: nat
      ensures ConstantSchedule(rate)(m) >= elapsed as real <==> m >= first
    {
      ConstantReaches(rate, m, elapsed);
    }
    if n > first {
      assert ConstantSchedule(rate)(first) >= elapsed as real;
    }
  }

  // ----- The search in 64-bit arithmetic ---------------------------------------------------

  /** A product or a doubled bound as a signed 64-bit word holds it. */
  function Wrap64(x: int): int {
    (x + TWO_64 / 2) % TWO_64 - TWO_64 / 2
  }

  /** Division that truncates toward zero. */
  function Truncated(a: int, b: int): int
    requires b > 0
  {
    if a >= 0 then a / b else -(-a / b)
  }

  /** Offset of an arrival as the program computes it at a constant rate. */
  function ArrivalOffset(rate: int, sequence: int): int
    requires rate > 0
  {
    Truncated(Wrap64(sequence * SECOND), rate)
  }

  /** The largest number of due arrivals the search can handle. */
  const LARGEST: nat := 0x2_0000_0000

  /** The last arrival whose product still fits. */
  const LAST: nat := 9_223_372_036

  /** At any rate a 64-bit integer can hold, an arrival is scheduled at its exact offset
      exactly up to the last whose product fits. */
  lemma ScheduleIsExactExactly(rate: int, n: nat)
    requires 0 < rate <= MAX_I64
    ensures ArrivalOffset(rate, n) == ConstantOffset(rate, n) <==> n <= LAST
    ensures n > LAST ==> ArrivalOffset(rate, n) < ConstantOffset(rate, n)
  {
    hide Wrap64, Truncated;
    if n <= LAST {
      ExactUpToLast(rate, n);
    } else {
      WrappedIsLess(rate, n * SECOND);
    }
  }

  lemma ExactUpToLast(rate: int, n: nat)
    requires rate > 0 && n <= LAST
    ensures ArrivalOffset(rate, n) == ConstantOffset(rate, n)
  {
    assert 0 <= n * SECOND <= MAX_I64;
    assert Wrap64(n * SECOND) == n * SECOND;
    hide Wrap64;
  }

  lemma WrappedIsLess(rate: int, exact: int)
    requires 0 < rate <= MAX_I64 < exact
    ensures Truncated(Wrap64(exact), rate) < exact / rate
  {
    WrapsDown(exact);
    var wrapped := Wrap64(exact);
    hide Wrap64;
    FloorReaches(exact, rate, 1);
    if wrapped >= 0 {
      var q := wrapped / rate;
      assert wrapped == q * rate + wrapped % rate;
      assert (q + 1) * rate == q * rate + rate;
      FloorReaches(exact, rate, q + 1);
    } else {
      FloorReaches(-wrapped, rate, 0);
    }
  }

  lemma WrapsDown(x: int)
    requires x > MAX_I64
    ensures Wrap64(x) <= x - TWO_64
  {
  }

  /** The arrival after that is scheduled before the run's start, so it fires at once. */
  lemma NextArrivalFiresAtOnce(rate: int)
    requires rate > 0
    ensures ArrivalOffset(rate, LAST + 1) <= 0
  {
    assert Wrap64((LAST + 1) * SECOND) < 0;
    FloorReaches(-Wrap64((LAST + 1) * SECOND), rate, 0);
  }

  lemma OffsetIsExact(rate: int, n: nat)
    requires rate > 0 && n <= LARGEST
    ensures ArrivalOffset(rate, n) == ConstantOffset(rate, n)
  {
  }

  lemma LargestIsPower()
    ensures Pow2(33) == LARGEST
  {
    assert Pow2(11) == 0x800;
    assert Pow2(22) == 0x40_0000;
  }

  /** The upper bound after a number of doublings. */
  function High(j: nat): int {
    if j == 0 then 1 else Wrap64(2 * High(j - 1))
  }

  /** The wrapped product the search divides by the rate at that bound. */
  function Product(j: nat): int {
    if j == 0 then SECOND else Wrap64(2 * Product(j - 1))
  }

  lemma WrapFactor(a: int, x: int)
    ensures Wrap64(a * Wrap64(x)) == Wrap64(a * x)
  {
    var half := TWO_64 / 2;
    var q := (x + half) / TWO_64;
    assert Wrap64(x) == x - q * TWO_64;
    assert a * (x - q * TWO_64) == a * x - (a * q) * TWO_64;
    WrapShift(a * x, a * q);
  }

  lemma WrapShift(x: int, q: int)
    ensures Wrap64(x - q * TWO_64) == Wrap64(x)
  {
  }

  lemma {:induction false} ProductOfHigh(j: nat)
    ensures Wrap64(High(j) * SECOND) == Product(j)
    decreases j
  {
    if j == 0 {
    } else {
      ProductOfHigh(j - 1);
      WrapFactor(SECOND, 2 * High(j - 1));
      WrapFactor(2, SECOND * High(j - 1));
    }
  }

  /** A signed 64-bit word doubled in 64-bit arithmetic. */
  function Doubled(p: int): int {
    if 2 * p > MAX_I64 then 2 * p - TWO_64 else if 2 * p < -MAX_I64 - 1 then 2 * p + TWO_64 else 2 * p
  }

  lemma DoublingWraps(p: int)
    requires -MAX_I64 - 1 <= p <= MAX_I64
    ensures Wrap64(2 * p) == Doubled(p)
    ensures -MAX_I64 - 1 <= Doubled(p) <= MAX_I64
  {
  }

  /** Doubling a product again and again never exceeds the largest exact one, and ends at zero. */
  predicate StaysSmall(product: int, doublings: nat)
    decreases doublings
  {
    && product <= LARGEST * SECOND
    && if doublings == 0 then product == 0 else StaysSmall(Doubled(product), doublings - 1)
  }

  lemma ProductInRange(j: nat)
    ensures -MAX_I64 - 1 <= Product(j) <= MAX_I64
  {
  }

  lemma {:induction false} StaySmall(j: nat, doublings: nat, i: nat)
    requires StaysSmall(Product(j), doublings)
    ensures i >= j ==> Product(i) <= LARGEST * SECOND
    decreases doublings, if i > j then i - j else 0
  {
    if i > j {
      ProductInRange(j);
      DoublingWraps(Product(j));
      if doublings == 0 {
        assert Product(j + 1) == 0;
        StaySmall(j + 1, 0, i);
      } else {
        StaySmall(j + 1, doublings - 1, i);
      }
    }
  }

  /** The first sixty-four doublings, from the last to the first. */
  lemma SecondStaysSmall()
    ensures StaysSmall(SECOND, 64)
  {
    assert StaysSmall(0x0, 4);
    assert StaysSmall(0x0, 8);
    assert StaysSmall(-0x6000000000000000, 12);
    assert StaysSmall(-0x3600000000000000, 16);
    assert StaysSmall(-0x5360000000000000, 20);
    assert StaysSmall(-0x6536000000000000, 24);
    assert StaysSmall(-0x4653600000000000, 28);
    assert StaysSmall(0x3B9ACA0000000000, 32);
    assert StaysSmall(0x3B9ACA000000000, 36);
    assert StaysSmall(0x3B9ACA00000000, 40);
    assert StaysSmall(0x3B9ACA0000000, 44);
    assert StaysSmall(0x3B9ACA000000, 48);
    assert StaysSmall(0x3B9ACA00000, 52);
    assert StaysSmall(0x3B9ACA0000, 56);
    assert StaysSmall(0x3B9ACA000, 60);
  }

  /** No bound the doubling loop ever reaches yields a product above the largest exact one. */
  lemma ProductsAreSmall(j: nat)
    ensures Product(j) <= LARGEST * SECOND
  {
    SecondStaysSmall();
    hide StaysSmall;
    StaySmall(0, 64, j);
  }

  /** The doubling loop ends exactly when the arrivals already due are at most 2^33.
      Beyond that every bound it reaches wraps to an offset before the elapsed time. */
  lemma SearchEndsExactly(rate: int, elapsed: int)
    requires rate > 0 && elapsed > 0
    ensures (exists j: nat :: ArrivalOffset(rate, High(j)) >= elapsed) <==> CeilDiv(elapsed * rate, SECOND) <= LARGEST
  {
    hide High, Product;
    if CeilDiv(elapsed * rate, SECOND) <= LARGEST {
      ReachesLargest(rate, elapsed);
    } else {
      forall j: nat ensures ArrivalOffset(rate, High(j)) < elapsed {
        ProductOfHigh(j);
        ProductsAreSmall(j);
        TruncatedBelow(Product(j), rate, elapsed);
      }
    }
  }

  lemma TruncatedBelow(a: int, rate: int, elapsed: int)
    requires rate > 0 && elapsed > 0 && a < elapsed * rate
    ensures Truncated(a, rate) < elapsed
  {
    FloorReaches(a, rate, elapsed);
    FloorReaches(-a, rate, 0);
  }

  lemma {:induction false} HighIsPower(j: nat)
    requires j <= 33
    ensures High(j) == Pow2(j) <= LARGEST
  {
    LargestIsPower();
    Pow2Grows(j, 33);
    hide Wrap64;
    if j == 0 {
      Powers(0);
    } else {
      HighIsPower(j - 1);
      HighDoubles(j - 1);
      Powers(j - 1);
      WrapKeeps(2 * Pow2(j - 1));
    }
  }

  lemma Powers(j: nat)
    ensures Pow2(0) == 1 && Pow2(j + 1) == 2 * Pow2(j)
  {
  }

  lemma WrapKeeps(x: int)
    requires 0 <= x <= MAX_I64
    ensures Wrap64(x) == x
  {
  }

  /** At 100,000 arrivals a second, a worker that starts 86,000 seconds late never gets out
      of the doubling loop. */
  lemma SearchHangs(j: nat)
    ensures ArrivalOffset(100_000, High(j)) < 86_000 * SECOND
  {
    SearchEndsExactly(100_000, 86_000 * SECOND);
  }

  /** The whole search for a worker that starts late, without a ramp, in the program's own
      arithmetic. The patience bounds the doublings watched: up to 2^33 arrivals due the
      answer is exact after at most 33 of them, and beyond that none is ever enough. */
  method LateStart(rate: int, elapsed: int, patience: nat) returns (first: Option<nat>)
    requires rate > 0
    ensures elapsed <= 0 ==> first == Some(0)
    ensures elapsed > 0 ==>
      var due := CeilDiv(elapsed * rate, SECOND);
      && (first.Some? ==> due <= LARGEST && first.value == due)
      && (due <= LARGEST && patience >= 33 ==> first.Some?)
  {
    hide ArrivalOffset, CeilDiv, ConstantOffset, Wrap64, Pow2;
    if elapsed <= 0 {
      return Some(0);
    }
    var high, doublings := 1, 0;
    while ArrivalOffset(rate, high) < elapsed && doublings < patience
      invariant doublings <= patience && high == High(doublings)
      invariant DueFits(rate, elapsed) ==> doublings <= 33
      decreases patience - doublings
    {
      if DueFits(rate, elapsed) {
        ReachesLargest(rate, elapsed);
      }
      HighDoubles(doublings);
      high := Wrap64(2 * high);
      doublings := doublings + 1;
    }
    if DueFits(rate, elapsed) {
      ReachesLargest(rate, elapsed);
    }
    if ArrivalOffset(rate, high) < elapsed {
      return None;
    }
    SearchEndsExactly(rate, elapsed);
    assert DueFits(rate, elapsed);
    hide DueFits, High;
    HighIsPower(doublings);
    OffsetIsExact(rate, high);
    var low := HalveExact(rate, elapsed, high);
    return Some(low);
  }

  /** No more arrivals are due than the search can handle. */
  predicate DueFits(rate: int, elapsed: int) {
    CeilDiv(elapsed * rate, SECOND) <= LARGEST
  }

  lemma HighDoubles(j: nat)
    ensures High(j + 1) == Wrap64(2 * High(j))
  {
  }

  /** The halving below an exact bound. */
  method HalveExact(rate: int, elapsed: int, bound: nat) returns (low: nat)
    requires rate > 0 && elapsed > 0 && bound <= LARGEST && ConstantOffset(rate, bound) >= elapsed
    ensures low == CeilDiv(elapsed * rate, SECOND)
  {
    hide ArrivalOffset;
    var offset := (n: nat) requires n <= LARGEST => ArrivalOffset(rate, n) as real;
    ConstantNondecreasing(rate);
    forall n: nat | n <= LARGEST ensures offset(n) == ConstantSchedule(rate)(n) {
      OffsetIsExact(rate, n);
    }
    low := Halve(offset, elapsed as real, bound);
    ConstantFirstArrival(rate, elapsed, low);
  }

  lemma ReachesLargest(rate: int, elapsed: int)
    requires rate > 0 && CeilDiv(elapsed * rate, SECOND) <= LARGEST
    ensures ArrivalOffset(rate, High(33)) >= elapsed
  {
    HighIsPower(33);
    LargestIsPower();
    OffsetIsExact(rate, LARGEST);
    ConstantReaches(rate, LARGEST, elapsed);
  }

  // ----- Linear ramp ---------------------------------------------------------------------

  /** An exact square root. */
  ghost predicate ExactRoot(root: real -> real) {
    forall x: real :: x >= 0.0 ==> root(x) >= 0.0 && root(x) * root(x) == x
  }

  /** Arrivals after t seconds of a rate that climbs linearly to its target over the ramp. */
  function Climb(rate: real, ramp: real, t: real): real
    requires ramp > 0.0
  {
    rate * t * t / (2.0 * ramp)
  }

  /** Arrivals scheduled during the whole ramp. */
  function RampCount(rate: real, ramp: real): real {
    rate * ramp / 2.0
  }

  /** Cumulative arrivals after t seconds: a climb over the ramp, then the full rate. */
  function ArrivalCurve(rate: real, ramp: real, t: real): real
    requires ramp > 0.0
  {
    if t <= ramp then Climb(rate, ramp, t) else RampCount(rate, ramp) + rate * (t - ramp)
  }

  function SquaredOffset(rate: real, ramp: real, target: real): real
    requires rate > 0.0
  {
    2.0 * target * ramp / rate
  }

  function PlateauOffset(rate: real, ramp: real, target: real): real
    requires rate > 0.0
  {
    ramp + (target - RampCount(rate, ramp)) / rate
  }

  /** Offset in seconds of an arrival on a ramped schedule. */
  function RampOffset(rate: real, ramp: real, root: real -> real, sequence: nat): real
    requires rate > 0.0 && ramp > 0.0
  {
    var target := (sequence + 1) as real;
    if target <= RampCount(rate, ramp) then root(SquaredOffset(rate, ramp, target))
    else PlateauOffset(rate, ramp, target)
  }

  lemma CancelFactor(a: real, b: real, c: real)
    requires c > 0.0
    ensures a * c / c == a
    ensures a / c * c == a
    ensures a < b ==> a * c < b * c && a / c < b / c
  {
    assert a / c * c == a;
    assert b / c * c == b;
  }

  lemma PositiveProduct(x: real, y: real)
    requires x > 0.0 && y > 0.0
    ensures x * y > 0.0
  {
  }

  lemma SquareOrder(a: real, b: real)
    requires a >= 0.0 && b >= 0.0
    ensures a < b <==> a * a < b * b
  {
    assert b * b - a * a == (b - a) * (b + a);
    if a < b {
      PositiveProduct(b - a, b + a);
    } else if b < a {
      PositiveProduct(a - b, b + a);
    }
  }

  lemma ClimbToRamp(rate: real, ramp: real)
    requires ramp > 0.0
    ensures Climb(rate, ramp, ramp) == RampCount(rate, ramp)
  {
    CancelFactor(rate * ramp / 2.0, 0.0, 2.0 * ramp);
    assert rate * ramp * ramp == (rate * ramp / 2.0) * (2.0 * ramp);
  }

  lemma ClimbIncreases(rate: real, ramp: real, s: real, t: real)
    requires rate > 0.0 && ramp > 0.0 && 0.0 <= s < t
    ensures Climb(rate, ramp, s) < Climb(rate, ramp, t)
  {
    SquareOrder(s, t);
    CancelFactor(s * s, t * t, rate);
    assert rate * s * s == s * s * rate && rate * t * t == t * t * rate;
    CancelFactor(rate * s * s, rate * t * t, 2.0 * ramp);
  }

  lemma PlateauIncreases(rate: real, s: real, t: real)
    requires rate > 0.0 && s < t
    ensures rate * s < rate * t
  {
  }

  /** The curve climbs strictly from time zero. */
  lemma CurveIncreases(rate: real, ramp: real, s: real, t: real)
    requires rate > 0.0 && ramp > 0.0 && 0.0 <= s < t
    ensures ArrivalCurve(rate, ramp, s) < ArrivalCurve(rate, ramp, t)
  {
    hide Climb, RampCount;
    ClimbToRamp(rate, ramp);
    if s < ramp {
      ClimbIncreases(rate, ramp, s, Earlier(t, ramp));
    }
    if t > ramp {
      PlateauIncreases(rate, Later(s, ramp) - ramp, t - ramp);
    }
  }

  function Earlier(a: real, b: real): real {
    if a < b then a else b
  }

  function Later(a: real, b: real): real {
    if a > b then a else b
  }

  /** A non-negative square root of the squared offset climbs exactly to the target. */
  lemma RootClimbs(rate: real, ramp: real, target: real, t: real)
    requires rate > 0.0 && ramp > 0.0
    requires t >= 0.0 && t * t == SquaredOffset(rate, ramp, target)
    ensures Climb(rate, ramp, t) == target
  {
    CancelFactor(2.0 * target * ramp, 0.0, rate);
    assert t * t * rate == 2.0 * target * ramp;
    assert rate * t * t == target * (2.0 * ramp);
    CancelFactor(target, 0.0, 2.0 * ramp);
  }

  lemma SquaredOffsetPositive(rate: real, ramp: real, target: real)
    requires rate > 0.0 && ramp > 0.0 && target > 0.0
    ensures SquaredOffset(rate, ramp, target) > 0.0
  {
    PositiveProduct(target, ramp);
    CancelFactor(0.0, 2.0 * target * ramp, rate);
  }

  lemma PlateauReaches(rate: real, ramp: real, target: real)
    requires rate > 0.0 && ramp > 0.0 && target > RampCount(rate, ramp)
    ensures PlateauOffset(rate, ramp, target) > ramp
    ensures RampCount(rate, ramp) + rate * (PlateauOffset(rate, ramp, target) - ramp) == target
  {
    hide RampCount;
    CancelFactor(target - RampCount(rate, ramp), 0.0, rate);
    CancelFactor(0.0, target - RampCount(rate, ramp), rate);
  }

  /** The offset inverts the cumulative curve one arrival ahead, and its two branches
      agree where the ramp ends. */
  lemma OffsetInvertsCurve(rate: real, ramp: real, root: real -> real, n: nat)
    requires rate > 0.0 && ramp > 0.0 && ExactRoot(root)
    ensures RampOffset(rate, ramp, root, n) >= 0.0
    ensures ArrivalCurve(rate, ramp, RampOffset(rate, ramp, root, n)) == (n + 1) as real
    ensures (n + 1) as real == RampCount(rate, ramp) ==>
      RampOffset(rate, ramp, root, n) == ramp == PlateauOffset(rate, ramp, (n + 1) as real)
  {
    hide Climb, RampCount, SquaredOffset;
    var target := (n + 1) as real;
    if target <= RampCount(rate, ramp) {
      SquaredOffsetPositive(rate, ramp, target);
      var square := SquaredOffset(rate, ramp, target);
      var t := root(square);
      RootClimbs(rate, ramp, target, t);
      ClimbToRamp(rate, ramp);
      if t > ramp {
        ClimbIncreases(rate, ramp, ramp, t);
      } else if t < ramp {
        ClimbIncreases(rate, ramp, t, ramp);
      }
    } else {
      PlateauReaches(rate, ramp, target);
    }
  }

  function RampSchedule(rate: real, ramp: real, root: real -> real): nat -> real
    requires rate > 0.0 && ramp > 0.0
  {
    (n: nat) => RampOffset(rate, ramp, root, n)
  }

  /** An arrival is still ahead exactly when the curve has not passed its number. */
  lemma RampReaches(rate: real, ramp: real, root: real -> real, n: nat, elapsed: real)
    requires rate > 0.0 && ramp > 0.0 && ExactRoot(root) && elapsed >= 0.0
    ensures RampOffset(rate, ramp, root, n) >= elapsed <==> (n + 1) as real >= ArrivalCurve(rate, ramp, elapsed)
  {
    var t := RampOffset(rate, ramp, root, n);
    OffsetInvertsCurve(rate, ramp, root, n);
    if t < elapsed {
      CurveIncreases(rate, ramp, t, elapsed);
    } else if elapsed < t {
      CurveIncreases(rate, ramp, elapsed, t);
    }
  }

  /** Ramped offsets strictly increase, so the search applies to them too. */
  lemma RampIncreases(rate: real, ramp: real, root: real -> real)
    requires rate > 0.0 && ramp > 0.0 && ExactRoot(root)
    ensures forall a: nat, b: nat :: a < b ==> RampOffset(rate, ramp, root, a) < RampOffset(rate, ramp, root, b)
    ensures Nondecreasing(RampSchedule(rate, ramp, root))
  {
    forall a: nat, b: nat | a < b
      ensures RampOffset(rate, ramp, root, a) < RampOffset(rate, ramp, root, b)
    {
      OffsetInvertsCurve(rate, ramp, root, a);
      OffsetInvertsCurve(rate, ramp, root, b);
      RampReaches(rate, ramp, root, a, RampOffset(rate, ramp, root, b));
    }
  }

  /** On a ramped schedule the first arrival still ahead is the least one whose
      successor's number reaches the arrivals already due. */
  lemma RampFirstArrival(rate: real, ramp: real, root: real -> real, elapsed: real, n: nat)
    requires rate > 0.0 && ramp > 0.0 && ExactRoot(root) && elapsed >= 0.0
    ensures IsFirst(RampSchedule(rate, ramp, root), elapsed, n) <==>
      var due := ArrivalCurve(rate, ramp, elapsed);
      (n + 1) as real >= due && (n > 0 ==> n as real < due)
  {
    forall m: nat
      ensures RampSchedule(rate, ramp, root)(m) >= elapsed <==>
        (m + 1) as real >= ArrivalCurve(rate, ramp, elapsed)
    {
      RampReaches(rate, ramp, root, m, elapsed);
    }
    if n > 0 {
      assert n as real == ((n - 1) + 1) as real;
      assert RampSchedule(rate, ramp, root)(n - 1) >= elapsed <==> n as real >= ArrivalCurve(rate, ramp, elapsed);
    }
  }

  /** The whole search for a worker that starts late on a ramped schedule. */
  method LateStartOnRamp(rate: real, ramp: real, root: real -> real, elapsed: real) returns (first: nat)
    requires rate > 0.0 && ramp > 0.0 && ExactRoot(root)
    ensures elapsed < 0.0 ==> first == 0
    ensures elapsed >= 0.0 ==>
      var due := ArrivalCurve(rate, ramp, elapsed);
      (first + 1) as real >= due && (first > 0 ==> first as real < due)
  {
    var schedule := RampSchedule(rate, ramp, root);
    RampIncreases(rate, ramp, root);
    OffsetInvertsCurve(rate, ramp, root, 0);
    ghost var bound: nat := 0;
    if elapsed >= 0.0 {
      bound := Max(ArrivalCurve(rate, ramp, elapsed).Floor, 0);
      RampReaches(rate, ramp, root, Pow2(bound), elapsed);
    } else {
      assert schedule(Pow2(0)) >= schedule(0);
    }
    first := FirstArrivalSequence(schedule, elapsed, bound);
    if elapsed >= 0.0 {
      RampFirstArrival(rate, ramp, root, elapsed, first);
    }
    assert 0 < first ==> schedule(0) < elapsed;
  }
}

/** Open-model requests: slots, arrivals and what becomes of each of them. */
module OpenRequests {
  import opened Wire
  import opened CountMaps
  import opened Snapshots
  import opened Recording
  import opened Collecting

  /** The schedule loop: ready for the next arrival, in the middle of offering unmet demand,
      waiting for its requests after the run was cancelled, or returned. */
  datatype Loop = Scheduling | Unmet | UnmetSending | UnmetFailing | Draining | Returned

  /** `slots` counts the tokens in the slot channel and `group` is the wait group. A request
      executes, offers its result (`sending`, and `failing` while a drop is to be counted),
      gives back its slot (`leaving`), and then leaves the group (`exiting`). */
  datatype OpenState = OpenState(
    maxInFlight: nat,
    loop: Loop,
    slots: nat,
    group: nat,
    executing: nat,
    sending: nat,
    failing: nat,
    leaving: nat,
    exiting: nat,
    arrivals: nat,
    interrupted: nat,
    collector: State)

  datatype OpenStep =
    | Arrive
    | CheckUnmet
    | SendUnmet
    | CountUnmet
    | CheckResult
    | SendResult(result: Result)
    | CountResult
    | Interrupt
    | Release
    | Done
    | StopLoop
    | Return
    | Collect(step: Step)

  function NewOpenState(maxInFlight: nat, capacity: nat): OpenState {
    OpenState(maxInFlight, Scheduling, 0, 0, 0, 0, 0, 0, 0, 0, 0, Initial(capacity))
  }

  /** The party that takes the step is at the place where it can. */
  predicate CanStep(s: OpenState, step: OpenStep) {
    match step
    case Arrive => s.loop.Scheduling?
    case CheckUnmet => s.loop.Unmet?
    case SendUnmet => s.loop.UnmetSending? && s.collector.offering > 0
    case CountUnmet => s.loop.UnmetFailing? && s.collector.failing > 0
    case CheckResult => s.executing > 0
    case SendResult(_) => s.sending > 0 && s.collector.offering > 0
    case CountResult => s.failing > 0 && s.collector.failing > 0
    case Interrupt => s.executing > 0
    case Release => s.leaving > 0 && s.slots > 0
    case Done => s.exiting > 0 && s.group > 0
    case StopLoop => s.loop.Scheduling?
    case Return => s.loop.Draining? && s.group == 0
    case Collect(step) => !Producing(step)
  }

  /** One action of the schedule loop, of a request, or of the collector's other users. */
  function OpenNext(s: OpenState, step: OpenStep): OpenState {
    if !CanStep(s, step) then s
    else match step
      case Arrive =>
        if s.slots < s.maxInFlight
        then s.(arrivals := s.arrivals + 1, slots := s.slots + 1, group := s.group + 1, executing := s.executing + 1)
        else s.(arrivals := s.arrivals + 1, loop := Unmet)
      case CheckUnmet =>
        s.(loop := if s.collector.closed then Scheduling else UnmetSending, collector := Next(s.collector, CheckOpen))
      case SendUnmet =>
        s.(loop := if HasRoom(s.collector) then Scheduling else UnmetFailing,
           collector := Sent(s.collector, UnmetDemand))
      case CountUnmet => s.(loop := Scheduling, collector := Next(s.collector, CountDrop))
      case CheckResult =>
        if s.collector.closed then s.(executing := s.executing - 1, leaving := s.leaving + 1)
        else s.(executing := s.executing - 1, sending := s.sending + 1, collector := Next(s.collector, CheckOpen))
      case SendResult(result) =>
        var sent := s.(sending := s.sending - 1, collector := Sent(s.collector, Request(result)));
        if HasRoom(s.collector) then sent.(leaving := s.leaving + 1) else sent.(failing := s.failing + 1)
      case CountResult =>
        s.(failing := s.failing - 1, leaving := s.leaving + 1, collector := Next(s.collector, CountDrop))
      case Interrupt =>
        s.(executing := s.executing - 1, leaving := s.leaving + 1, interrupted := s.interrupted + 1)
      case Release => s.(leaving := s.leaving - 1, exiting := s.exiting + 1, slots := s.slots - 1)
      case Done => s.(exiting := s.exiting - 1, group := s.group - 1)
      case StopLoop => s.(loop := Draining)
      case Return => s.(loop := Returned)
      case Collect(step) => s.(collector := Next(s.collector, step))
  }

  predicate HasRoom(c: State) {
    |c.events| < c.capacity
  }

  function OpenRunOf(maxInFlight: nat, capacity: nat, steps: seq<OpenStep>): OpenState {
    if |steps| == 0 then NewOpenState(maxInFlight, capacity)
    else OpenNext(OpenRunOf(maxInFlight, capacity, steps[..|steps| - 1]), steps[|steps| - 1])
  }

  /** The loop has counted an arrival without a slot and is not done offering it. */
  function UnmetInProgress(s: OpenState): nat {
    Bit(s.loop.Unmet? || s.loop.UnmetSending? || s.loop.UnmetFailing?)
  }

  /** Slots and group count exactly the requests that hold them, every offer in progress
      belongs to a request or the loop, and every arrival is accounted for. */
  ghost predicate Accounted(s: OpenState) {
    && s.slots == s.executing + s.sending + s.failing + s.leaving <= s.maxInFlight
    && s.group == s.slots + s.exiting
    && s.collector.offering == s.sending + Bit(s.loop.UnmetSending?)
    && s.collector.failing == s.failing + Bit(s.loop.UnmetFailing?)
    && (s.loop.Returned? ==> s.group == 0)
    && (!s.collector.closed ==>
          s.arrivals == s.executing + s.sending + s.failing + s.interrupted + UnmetInProgress(s)
                        + |s.collector.accepted| + s.collector.lost)
  }

  /** What the collector's own steps leave alone. */
  lemma CollectFrame(c: State, step: Step)
    requires !Producing(step)
    ensures var d := Next(c, step);
      && d.accepted == c.accepted && d.lost == c.lost && (c.closed ==> d.closed)
      && d.offering == c.offering && d.failing == c.failing && d.capacity == c.capacity
  {
  }

  lemma OpenStepKeeps(s: OpenState, step: OpenStep)
    requires Accounted(s)
    ensures Accounted(OpenNext(s, step))
  {
    if step.Collect? && CanStep(s, step) {
      CollectFrame(s.collector, step.step);
    }
    hide Dequeued, Answered;
  }

  /** Running requests are exactly the occupied slots and never more than the limit, at
      every step of every run, and every arrival is accounted for. */
  lemma {:induction false} EveryOpenRunIsAccounted(maxInFlight: nat, capacity: nat, steps: seq<OpenStep>)
    ensures Accounted(OpenRunOf(maxInFlight, capacity, steps))
    ensures Invariant(OpenRunOf(maxInFlight, capacity, steps).collector)
    decreases |steps|
  {
    hide Accounted, Invariant, Dequeued, Answered;
    if |steps| == 0 {
      NothingAccounted(maxInFlight, capacity);
    } else {
      var before := OpenRunOf(maxInFlight, capacity, steps[..|steps| - 1]);
      EveryOpenRunIsAccounted(maxInFlight, capacity, steps[..|steps| - 1]);
      OpenStepKeeps(before, steps[|steps| - 1]);
      CollectorKeeps(before, steps[|steps| - 1]);
    }
  }

  lemma NothingAccounted(maxInFlight: nat, capacity: nat)
    ensures Accounted(NewOpenState(maxInFlight, capacity)) && Invariant(Initial(capacity))
  {
    EveryRunKeepsInvariant(capacity, []);
  }

  lemma CollectorKeeps(s: OpenState, step: OpenStep)
    requires Invariant(s.collector)
    ensures Invariant(OpenNext(s, step).collector)
  {
    hide Invariant, Dequeued, Answered, Sent;
    match step {
      case SendUnmet => StepKeepsInvariant(s.collector, Send(UnmetDemand));
      case SendResult(result) => StepKeepsInvariant(s.collector, Send(Request(result)));
      case CountUnmet => StepKeepsInvariant(s.collector, CountDrop);
      case CountResult => StepKeepsInvariant(s.collector, CountDrop);
      case CheckUnmet => StepKeepsInvariant(s.collector, CheckOpen);
      case CheckResult => StepKeepsInvariant(s.collector, CheckOpen);
      case Collect(step) => StepKeepsInvariant(s.collector, step);
      case _ =>
    }
  }

  /** A returned scheduler has left nothing behind: no request runs or holds a slot, and no
      offer is in progress, so that closing the collector cannot lose anything. */
  lemma ReturnedIsQuiet(maxInFlight: nat, capacity: nat, steps: seq<OpenStep>)
    requires OpenRunOf(maxInFlight, capacity, steps).loop.Returned?
    ensures var s := OpenRunOf(maxInFlight, capacity, steps);
      && s.slots == s.group == s.executing == 0
      && ProducersDone(s.collector)
  {
    EveryOpenRunIsAccounted(maxInFlight, capacity, steps);
    hide Invariant;
  }

  // ----- The accounting equation ------------------------------------------------------

  /** The totals of one counter over everything reported and being recorded. */
  function RequestsRecorded(reports: seq<Report>): nat {
    if |reports| == 0 then 0
    else RequestsRecorded(reports[..|reports| - 1]) + reports[|reports| - 1].snapshot.counters.requests
  }

  function UnmetRecorded(reports: seq<Report>): nat {
    if |reports| == 0 then 0
    else UnmetRecorded(reports[..|reports| - 1]) + reports[|reports| - 1].snapshot.counters.unmetDemand
  }

  function DropsRecorded(reports: seq<Report>): nat {
    if |reports| == 0 then 0
    else DropsRecorded(reports[..|reports| - 1]) + reports[|reports| - 1].snapshot.counters.droppedSamples
  }

  lemma {:induction false} RecordedCountsSamples(samples: seq<Sample>)
    ensures Recorded(samples).counters.requests + Recorded(samples).counters.unmetDemand == |samples|
    decreases |samples|
  {
    hide Increment, LatencyMicros;
    if |samples| == 0 {
    } else {
      RecordedCountsSamples(samples[..|samples| - 1]);
    }
  }

  lemma {:induction false} ReportsCountSamples(reports: seq<Report>)
    requires forall i :: 0 <= i < |reports| ==> ReportFaithful(reports[i])
    ensures RequestsRecorded(reports) + UnmetRecorded(reports) == |Reported(reports)|
    ensures DropsRecorded(reports) == DropsReported(reports)
    decreases |reports|
  {
    if |reports| == 0 {
    } else {
      ReportsCountSamples(reports[..|reports| - 1]);
      RecordedCountsSamples(reports[|reports| - 1].samples);
    }
  }

  /** Before the collector closes, every arrival processed is a recorded request,
      recorded unmet demand, a dropped sample, an interrupted request, a request in
      flight, unmet demand being offered, or a queued event; and the requests holding a
      slot are exactly the occupied slots, never more than allowed. */
  lemma ArrivalsAreAccounted(maxInFlight: nat, capacity: nat, steps: seq<OpenStep>)
    ensures var s := OpenRunOf(maxInFlight, capacity, steps);
      && s.slots == s.executing + s.sending + s.failing + s.leaving <= s.maxInFlight
      && (!s.collector.closed ==>
            var c := s.collector;
            s.arrivals ==
              (RequestsRecorded(c.reports) + c.snapshot.counters.requests)
              + (UnmetRecorded(c.reports) + c.snapshot.counters.unmetDemand)
              + (DropsRecorded(c.reports) + c.dropped)
              + s.interrupted + (s.executing + s.sending + s.failing) + UnmetInProgress(s) + |Samples(c.events)|)
  {
    var s := OpenRunOf(maxInFlight, capacity, steps);
    EveryOpenRunIsAccounted(maxInFlight, capacity, steps);
    ReportsCountSamples(s.collector.reports);
    RecordedCountsSamples(s.collector.pending);
  }

  lemma SlotsCover(s: OpenState)
    requires Accounted(s)
    ensures s.leaving <= s.slots && s.exiting <= s.group
  {
  }

  lemma LeavingSteps(s: OpenState)
    ensures s.leaving > 0 && s.slots > 0 ==>
      OpenNext(s, Release) == s.(leaving := s.leaving - 1, exiting := s.exiting + 1, slots := s.slots - 1)
    ensures s.exiting > 0 && s.group > 0 ==>
      OpenNext(s, Done) == s.(exiting := s.exiting - 1, group := s.group - 1)
  {
  }

  /** The undisturbed offers keep the accounts too. */
  lemma OffersKeep(s: OpenState, sample: Sample)
    requires Accounted(s)
    ensures s.loop.Scheduling? && s.slots >= s.maxInFlight ==>
      Accounted(s.(arrivals := s.arrivals + 1, collector := Offered(s.collector, sample)))
    ensures s.executing > 0 ==>
      Accounted(s.(executing := s.executing - 1, leaving := s.leaving + 1, collector := Offered(s.collector, sample)))
  {
  }

  /** One open-model run feeding a collector. */
  class OpenRun {
    const maxInFlight: nat
    const collector: Collector
    var loop: Loop
    var slots: nat
    var group: nat
    var executing: nat
    var sending: nat
    var failing: nat
    var leaving: nat
    var exiting: nat
    var arrivals: nat
    var interrupted: nat

    ghost function Contents(): OpenState
      reads this, collector
    {
      OpenState(maxInFlight, loop, slots, group, executing, sending, failing, leaving, exiting, arrivals, interrupted,
                collector.Contents())
    }

    ghost predicate Valid()
      reads this, collector
    {
      collector.Valid() && Accounted(Contents())
    }

    constructor (maxInFlight: nat, collector: Collector)
      requires maxInFlight > 0 && collector.Valid() && collector.accepted == [] && collector.lost == 0
      requires collector.offering == collector.failing == 0
      ensures Valid() && this.collector == collector && this.maxInFlight == maxInFlight
      ensures loop == Scheduling && slots == group == executing == leaving == arrivals == interrupted == 0
    {
      this.maxInFlight, this.collector, loop := maxInFlight, collector, Scheduling;
      slots, group, executing, sending, failing, leaving, exiting := 0, 0, 0, 0, 0, 0, 0;
      arrivals, interrupted := 0, 0;
    }

    /** An arrival becomes a request when a slot is free and unmet demand otherwise. */
    method ProcessArrival() returns (started: bool)
      requires Valid() && loop.Scheduling?
      modifies this, collector
      ensures Valid() && started == (old(slots) < maxInFlight)
      ensures started ==> Contents() == OpenNext(old(Contents()), Arrive)
      ensures !started ==>
        Contents() == old(Contents()).(arrivals := old(arrivals) + 1,
                                       collector := Offered(old(collector.Contents()), UnmetDemand))
    {
      hide Invariant, Accounted, Offered;
      OpenStepKeeps(Contents(), Arrive);
      OffersKeep(Contents(), UnmetDemand);
      arrivals := arrivals + 1;
      started := slots < maxInFlight;
      if started {
        slots, group, executing := slots + 1, group + 1, executing + 1;
      } else {
        var _ := collector.OfferUnmetDemand();
      }
    }

    /** A finished request offers its result unless the run interrupted it, and keeps its slot meanwhile. */
    method CompleteRequest(result: Result, interruptedByRun: bool)
      requires Valid() && executing > 0
      modifies this, collector
      ensures Valid()
      ensures interruptedByRun ==> Contents() == OpenNext(old(Contents()), Interrupt)
      ensures !interruptedByRun ==>
        Contents() == old(Contents()).(executing := old(executing) - 1, leaving := old(leaving) + 1,
                                       collector := Offered(old(collector.Contents()), Request(result)))
    {
      hide Invariant, Accounted, Offered;
      OpenStepKeeps(Contents(), Interrupt);
      OffersKeep(Contents(), Request(result));
      executing, leaving := executing - 1, leaving + 1;
      if interruptedByRun {
        interrupted := interrupted + 1;
      } else {
        var _ := collector.Offer(result);
      }
    }

    method ReleaseSlot()
      requires Valid() && leaving > 0
      modifies this
      ensures Valid() && Contents() == OpenNext(old(Contents()), Release)
    {
      hide Invariant, Accounted, OpenNext;
      SlotsCover(Contents());
      OpenStepKeeps(Contents(), Release);
      LeavingSteps(Contents());
      leaving, exiting, slots := leaving - 1, exiting + 1, slots - 1;
    }

    method LeaveGroup()
      requires Valid() && exiting > 0
      modifies this
      ensures Valid() && Contents() == OpenNext(old(Contents()), Done)
    {
      hide Invariant, Accounted, OpenNext;
      SlotsCover(Contents());
      OpenStepKeeps(Contents(), Done);
      LeavingSteps(Contents());
      exiting, group := exiting - 1, group - 1;
    }

    /** All that a request does once its response is there: the result, then the slot, then
        the wait group. */
    method FinishRequest(result: Result, interruptedByRun: bool)
      requires Valid() && executing > 0
      modifies this, collector
      ensures Valid() && slots == old(slots) - 1 && group == old(group) - 1 && executing == old(executing) - 1
      ensures leaving == old(leaving) && exiting == old(exiting) && arrivals == old(arrivals) && loop == old(loop)
      ensures sending == old(sending) && failing == old(failing)
      ensures interrupted == old(interrupted) + Bit(interruptedByRun)
      ensures collector.Contents()
              == if interruptedByRun then old(collector.Contents()) else Offered(old(collector.Contents()), Request(result))
    {
      hide Invariant, Accounted, Offered;
      CompleteRequest(result, interruptedByRun);
      SlotsCover(Contents());
      LeavingSteps(Contents());
      ReleaseSlot();
      SlotsCover(Contents());
      LeavingSteps(Contents());
      LeaveGroup();
    }
  }

  /** An offer that nothing interrupts is the three steps of the loop taken in a row. */
  lemma UnmetOfferIsSteps(s: OpenState)
    requires s.loop.Scheduling? && s.slots >= s.maxInFlight
    ensures var checked := OpenNext(OpenNext(s, Arrive), CheckUnmet);
      var sent := if s.collector.closed then checked else OpenNext(checked, SendUnmet);
      var counted := if sent.loop.UnmetFailing? then OpenNext(sent, CountUnmet) else sent;
      counted == s.(arrivals := s.arrivals + 1, collector := Offered(s.collector, UnmetDemand))
  {
  }

  lemma ResultOfferIsSteps(s: OpenState, result: Result)
    requires s.executing > 0
    ensures var checked := OpenNext(s, CheckResult);
      var sent := if s.collector.closed then checked else OpenNext(checked, SendResult(result));
      var counted := if sent.failing > s.failing then OpenNext(sent, CountResult) else sent;
      counted == s.(executing := s.executing - 1, leaving := s.leaving + 1,
                    collector := Offered(s.collector, Request(result)))
  {
  }
}
