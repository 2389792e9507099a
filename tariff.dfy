/**
 * The parking tariff: how a stay's elapsed time becomes billed hours and how
 * billed hours become a fee (`calculate_cost` and the duration arithmetic of
 * `checkout_car` in saniya.py). Money and hours are exact reals.
 */
module Tariff {

  const BaseFee: real := 50.0       // the first hour, or any part of it
  const MidRate: real := 40.0       // per hour between one and five hours
  const FiveHourFee: real := 210.0  // what five hours cost
  const LongRate: real := 30.0      // per hour beyond five hours

  function Max(x: real, y: real): real { if x < y then y else x }
  function Min(x: real, y: real): real { if x < y then x else y }

  /** `calculate_cost`: three bands, each closed at its upper end. */
  function Cost(hours: real): (fee: real)
    ensures fee >= BaseFee
    ensures hours <= 1.0 <==> fee == BaseFee
  {
    if hours <= 1.0 then BaseFee
    else if hours <= 5.0 then BaseFee + (hours - 1.0) * MidRate
    else FiveHourFee + (hours - 5.0) * LongRate
  }

  /**
   * The tariff read as marginal rates: the base fee, then 40 for each hour in
   * the band (1, 5], then 30 for each hour past 5. An independent statement
   * of the schedule that `Cost` must agree with everywhere.
   */
  function MarginalFee(hours: real): real
  {
    BaseFee + MidRate * Max(0.0, Min(hours, 5.0) - 1.0) + LongRate * Max(0.0, hours - 5.0)
  }

  lemma CostIsMarginalFee(hours: real)
    ensures Cost(hours) == MarginalFee(hours)
  {
  }

  /** Boundary values; 1 and 5 hours belong to the lower band. */
  lemma CostAtBoundaries()
    ensures Cost(1.0) == 50.0 && Cost(5.0) == 210.0 && Cost(6.0) == 240.0
    ensures Cost(1.0001) == 50.0 + 0.0001 * 40.0
  {
  }

  /** Staying longer never costs less. */
  lemma CostMonotone(h1: real, h2: real)
    requires h1 <= h2
    ensures Cost(h1) <= Cost(h2)
  {
  }

  /** Whole hours of an elapsed time in seconds (`duration_seconds // 3600`). */
  function WholeHours(elapsed: int): int { elapsed / 3600 }

  /** Whole minutes left over (`(duration_seconds % 3600) // 60`), always 0..59. */
  function LeftoverMinutes(elapsed: int): (m: int)
    ensures 0 <= m < 60
  {
    (elapsed % 3600) / 60
  }

  /** Hours and leftover minutes are exactly the elapsed whole minutes. */
  lemma MinutesSplit(elapsed: int)
    ensures WholeHours(elapsed) * 60 + LeftoverMinutes(elapsed) == elapsed / 60
  {
  }

  /**
   * Billed duration: whole hours plus whole minutes over 60. The seconds of a
   * partial minute are dropped, so the bill is never above the true duration
   * and falls short of it by less than one minute.
   */
  function BilledHours(elapsed: int): (h: real)
    ensures h * 60.0 == (elapsed / 60) as real
    ensures h <= elapsed as real / 3600.0 < h + 1.0 / 60.0
  {
    MinutesSplit(elapsed);
    var minutes := elapsed / 60;
    assert 60 * minutes <= elapsed < 60 * minutes + 60;
    WholeHours(elapsed) as real + LeftoverMinutes(elapsed) as real / 60.0
  }

  /** The fee charged at checkout for a stay of `elapsed` seconds. */
  function Fee(elapsed: int): (fee: real)
    ensures fee >= BaseFee
  {
    Cost(BilledHours(elapsed))
  }

  /** A longer stay never costs less, even though partial minutes are dropped. */
  lemma FeeMonotone(e1: int, e2: int)
    requires e1 <= e2
    ensures Fee(e1) <= Fee(e2)
  {
    assert e1 / 60 <= e2 / 60;
    assert BilledHours(e1) * 60.0 <= BilledHours(e2) * 60.0;
    CostMonotone(BilledHours(e1), BilledHours(e2));
  }

  /**
   * The first band ends at 1 hour 0 minutes 59 seconds: the sixty-first
   * minute is the first one charged at the mid rate.
   */
  lemma FeeFirstBand(elapsed: int)
    ensures Fee(elapsed) == BaseFee <==> elapsed < 3660
  {
  }
}
