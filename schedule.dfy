/**
 * The time-decaying point schedule: whole hours since the round opened select a
 * points-per-NEAR rate from a fixed table, with a floor rate of 1 past its end.
 */
module PointSchedule {
  import opened Wrappers

  /** One NEAR in yoctoNEAR, the smallest token unit. */
  const ONE_NEAR: nat := 1_000_000_000_000_000_000_000_000

  /** One hour of block time, in nanoseconds. */
  const HOUR_NS: nat := 3_600_000_000_000

  /** The rate applied once the table is exhausted: one point per NEAR. */
  const FLOOR_RATE: nat := 1

  /** The table `initialize` stores: 24 points per NEAR in the first hour, one fewer each hour after. */
  const DEFAULT_POINT_RATES: seq<nat> := [24, 23, 22, 21, 20, 19, 18, 17, 16, 15]

  /** Whole hours elapsed, rounded down (towards minus infinity for a negative time, as Python's floor division does). */
  function HoursElapsed(elapsed: int): (h: int)
    ensures h * HOUR_NS <= elapsed < h * HOUR_NS + HOUR_NS
  {
    elapsed / HOUR_NS
  }

  /**
   * The rate for a bet placed `elapsed` nanoseconds after the start. A negative
   * hour index (block time before the recorded start) indexes the table from its
   * end, as a Python list does, and one below `-|rates|` raises IndexError (None).
   */
  function PointRate(rates: seq<nat>, elapsed: int): (r: Option<nat>)
    ensures elapsed >= 0 ==> r.Some?
    ensures r.Some? ==> r.value == FLOOR_RATE || r.value in rates
  {
    var h := HoursElapsed(elapsed);
    if h >= |rates| then Some(FLOOR_RATE)
    else if h >= 0 then Some(rates[h])
    else if h >= -|rates| then Some(rates[|rates| + h])
    else None
  }

  /** Points earned by a deposit: its whole NEAR count times the rate. */
  function PointsEarned(deposit: nat, rate: nat): (p: nat)
    ensures deposit < ONE_NEAR ==> p == 0
    ensures p * ONE_NEAR <= deposit * rate
  {
    var whole := deposit / ONE_NEAR;
    assert whole * ONE_NEAR <= deposit;
    MulMono(whole * ONE_NEAR, deposit, rate);
    whole * rate
  }

  lemma MulMono(a: nat, b: nat, c: nat)
    requires a <= b
    ensures a * c <= b * c
  {
  }

  /** A table whose rates never increase from one hour to the next. */
  ghost predicate NonIncreasing(rates: seq<nat>)
  {
    forall i, j :: 0 <= i <= j < |rates| ==> rates[j] <= rates[i]
  }

  /** Every rate in the table is at least the floor rate. */
  ghost predicate AtLeastFloor(rates: seq<nat>)
  {
    forall i :: 0 <= i < |rates| ==> FLOOR_RATE <= rates[i]
  }

  /** During hour `i` of the table the rate is the table's entry `i`. */
  lemma RateInHour(rates: seq<nat>, i: nat, elapsed: int)
    requires i < |rates|
    requires i * HOUR_NS <= elapsed < i * HOUR_NS + HOUR_NS
    ensures PointRate(rates, elapsed) == Some(rates[i])
  {
    var h := HoursElapsed(elapsed);
    FloorUnique(h, i, elapsed);
  }

  /** Once the table's hours have all passed, every bet earns the floor rate. */
  lemma RateAfterTable(rates: seq<nat>, elapsed: int)
    requires elapsed >= |rates| * HOUR_NS
    ensures PointRate(rates, elapsed) == Some(FLOOR_RATE)
  {
  }

  /** Two hour indices that both bracket the same time are equal. */
  lemma FloorUnique(h: int, i: int, elapsed: int)
    requires h * HOUR_NS <= elapsed < h * HOUR_NS + HOUR_NS
    requires i * HOUR_NS <= elapsed < i * HOUR_NS + HOUR_NS
    ensures h == i
  {
  }

  /**
   * Later bets never earn a higher rate than earlier ones, provided the table
   * itself does not increase and stays at or above the floor rate.
   */
  lemma RateNonIncreasing(rates: seq<nat>, e1: int, e2: int)
    requires NonIncreasing(rates) && AtLeastFloor(rates)
    requires 0 <= e1 <= e2
    ensures PointRate(rates, e2).value <= PointRate(rates, e1).value
  {
    var h1, h2 := HoursElapsed(e1), HoursElapsed(e2);
    assert h1 <= h2;
  }

  /** The default table decays by one point per hour and never goes below the floor rate. */
  lemma DefaultTableDecays()
    ensures NonIncreasing(DEFAULT_POINT_RATES) && AtLeastFloor(DEFAULT_POINT_RATES)
    ensures |DEFAULT_POINT_RATES| == 10
    ensures forall i :: 0 <= i < 10 ==> DEFAULT_POINT_RATES[i] == 24 - i
  {
  }

  /** With the default table every defined rate lies between 1 and 24, and the first hour earns 24. */
  lemma DefaultRateBounds(elapsed: int)
    ensures PointRate(DEFAULT_POINT_RATES, elapsed).Some? ==>
      1 <= PointRate(DEFAULT_POINT_RATES, elapsed).value <= 24
    ensures 0 <= elapsed < HOUR_NS ==> PointRate(DEFAULT_POINT_RATES, elapsed) == Some(24)
  {
    DefaultTableDecays();
    if 0 <= elapsed < HOUR_NS {
      RateInHour(DEFAULT_POINT_RATES, 0, elapsed);
    }
  }

  /**
   * The points formula in full: a deposit of `n` whole NEAR plus any fraction
   * `f` of a NEAR earns exactly `n * rate` points; the fraction earns nothing.
   */
  lemma FractionEarnsNothing(n: nat, f: nat, rate: nat)
    requires f < ONE_NEAR
    ensures PointsEarned(n * ONE_NEAR + f, rate) == n * rate
  {
    assert (n * ONE_NEAR + f) / ONE_NEAR == n;
  }

  /**
   * A deposit of exactly `n` whole NEAR earns `n * rate` points: the preview of
   * `calculate_current_points`, which multiplies a NEAR count by the rate, agrees
   * with what `bet_on_team` would record for that deposit.
   */
  lemma WholeNearPoints(n: nat, rate: nat)
    ensures PointsEarned(n * ONE_NEAR, rate) == n * rate
  {
    FractionEarnsNothing(n, 0, rate);
  }

  /** A larger deposit at the same rate never earns fewer points. */
  lemma PointsMonotone(d1: nat, d2: nat, rate: nat)
    requires d1 <= d2
    ensures PointsEarned(d1, rate) <= PointsEarned(d2, rate)
  {
    assert d1 / ONE_NEAR <= d2 / ONE_NEAR;
    MulMono(d1 / ONE_NEAR, d2 / ONE_NEAR, rate);
  }
}
