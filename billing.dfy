/** The check-out billing rule: whole days used, rounded up and at least one,
    times the daily rate, rounded to the cent. Instants are integer
    milliseconds since the epoch; costs are integer cents, so the rounding to
    two decimals is exact arithmetic here. */
module Billing {
  import opened NumberText

  /** `1000 * 60 * 60 * 24`. */
  const MS_PER_DAY: int := 86_400_000

  /** `Math.max(Math.ceil((checkOut - checkIn) / msInDay), 1)`: the days billed
      for a rental from `checkInMs` to `checkOutMs`. */
  function DaysUsed(checkInMs: int, checkOutMs: int): (days: int)
    ensures days >= 1
    ensures checkOutMs <= checkInMs ==> days == 1
    ensures checkOutMs > checkInMs ==>
              (days - 1) * MS_PER_DAY < checkOutMs - checkInMs <= days * MS_PER_DAY
  {
    var ceiled := (checkOutMs - checkInMs + MS_PER_DAY - 1) / MS_PER_DAY;
    if ceiled > 1 then ceiled else 1
  }

  /** `Math.round(n / d)`: the integer nearest to n / d, a half rounded up. */
  function RoundHalfUp(n: int, d: int): (r: int)
    requires d > 0
    ensures 2 * n - d < 2 * d * r <= 2 * n + d
  {
    (2 * n + d) / (2 * d)
  }

  /** `Math.round(days * rate * 100) / 100` dollars, in cents. The result is
      within half a cent of the exact product, a half cent rounded up. */
  function CostCents(days: int, rate: Decimal): (cents: int)
    ensures var exact := days * rate.units * 100;
            2 * exact - Pow10(rate.scale) < 2 * Pow10(rate.scale) * cents <= 2 * exact + Pow10(rate.scale)
  {
    RoundHalfUp(days * rate.units * 100, Pow10(rate.scale))
  }

  /** The days billed are the fewest whole days covering the elapsed time. */
  lemma DaysUsedIsLeast(checkInMs: int, checkOutMs: int, k: int)
    requires k >= 1 && checkOutMs - checkInMs <= k * MS_PER_DAY
    ensures DaysUsed(checkInMs, checkOutMs) <= k
  {
  }

  /** Returning later never bills fewer days. */
  lemma DaysUsedMonotone(checkInMs: int, checkOut1: int, checkOut2: int)
    requires checkOut1 <= checkOut2
    ensures DaysUsed(checkInMs, checkOut1) <= DaysUsed(checkInMs, checkOut2)
  {
  }

  /** Check-in is stored as a date and read back as its midnight, while
      check-out is the current instant with its time of day: a return on the
      k-th calendar day after check-in bills k + 1 days, or k days when it
      falls exactly on midnight (and one day at least). */
  lemma DaysUsedByCalendarDay(inDay: int, outDay: int, timeOfDay: int)
    requires inDay <= outDay && 0 <= timeOfDay < MS_PER_DAY
    ensures DaysUsed(inDay * MS_PER_DAY, outDay * MS_PER_DAY + timeOfDay)
         == if timeOfDay == 0 && inDay < outDay then outDay - inDay else outDay - inDay + 1
  {
  }

  /** Rounding an exact multiple gives the multiplier back. */
  lemma RoundHalfUpOfMultiple(k: int, d: int)
    requires d > 0
    ensures RoundHalfUp(k * d, d) == k
  {
    var r := RoundHalfUp(k * d, d);
    if r > k {
      assert 2 * d * r >= 2 * d * (k + 1) by { MultiplyMonotone(2 * d, k + 1, r); }
    } else if r < k {
      assert 2 * d * r <= 2 * d * (k - 1) by { MultiplyMonotone(2 * d, r, k - 1); }
    }
  }

  lemma MultiplyMonotone(c: int, a: int, b: int)
    requires c >= 0 && a <= b
    ensures c * a <= c * b
  {
  }

  /** Rounding never reverses the order of two amounts. */
  lemma RoundHalfUpMonotone(n1: int, n2: int, d: int)
    requires d > 0 && n1 <= n2
    ensures RoundHalfUp(n1, d) <= RoundHalfUp(n2, d)
  {
    var r1, r2 := RoundHalfUp(n1, d), RoundHalfUp(n2, d);
    if r1 > r2 {
      MultiplyMonotone(2 * d, r2 + 1, r1);
    }
  }

  /** With a rate of whole cents (at most two decimals) nothing is rounded:
      the cost is the days used times the rate in cents. */
  lemma CostOfCentRate(days: int, rate: Decimal)
    requires rate.scale <= 2
    ensures CostCents(days, rate) == days * rate.units * Pow10(2 - rate.scale)
  {
  }

  /** At a non-negative rate, more days never cost less. */
  lemma CostMonotone(days1: int, days2: int, rate: Decimal)
    requires rate.units >= 0 && days1 <= days2
    ensures CostCents(days1, rate) <= CostCents(days2, rate)
  {
    MultiplyMonotone(rate.units * 100, days1, days2);
    assert days1 * rate.units * 100 <= days2 * rate.units * 100;
    RoundHalfUpMonotone(days1 * rate.units * 100, days2 * rate.units * 100, Pow10(rate.scale));
  }

  /** At a non-negative rate, the cost never decreases as the check-out
      instant moves later. */
  lemma CostMonotoneInCheckOut(checkInMs: int, checkOut1: int, checkOut2: int, rate: Decimal)
    requires rate.units >= 0 && checkOut1 <= checkOut2
    ensures CostCents(DaysUsed(checkInMs, checkOut1), rate)
         <= CostCents(DaysUsed(checkInMs, checkOut2), rate)
  {
    DaysUsedMonotone(checkInMs, checkOut1, checkOut2);
    CostMonotone(DaysUsed(checkInMs, checkOut1), DaysUsed(checkInMs, checkOut2), rate);
  }

  /** A "Drill" at 10 per day returned on its check-in day: one day, 10.00. */
  lemma DrillReturnedSameDay(day: int, timeOfDay: int)
    requires 0 <= timeOfDay < MS_PER_DAY
    ensures DaysUsed(day * MS_PER_DAY, day * MS_PER_DAY + timeOfDay) == 1
    ensures CostCents(1, Decimal(10, 0)) == 1000
  {
  }

  /** A "Saw" at 15.5 per day returned exactly three days after check-in:
      three days, 46.50. */
  lemma SawReturnedAfterThreeDays(checkInMs: int)
    ensures DaysUsed(checkInMs, checkInMs + 3 * MS_PER_DAY) == 3
    ensures CostCents(3, Decimal(155, 1)) == 4650
  {
  }

  /** The same saw returned during the third calendar day after check-in,
      after midnight: the started day is billed too, four days, 62.00. */
  lemma SawReturnedOnThirdDay(day: int, timeOfDay: int)
    requires 0 < timeOfDay < MS_PER_DAY
    ensures DaysUsed(day * MS_PER_DAY, (day + 3) * MS_PER_DAY + timeOfDay) == 4
    ensures CostCents(4, Decimal(155, 1)) == 6200
  {
  }
}
