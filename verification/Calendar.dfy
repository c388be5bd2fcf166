/**
 The proleptic Gregorian calendar as the agent uses it to cut traffic into
 billing periods (agent/main.go).  A month is numbered `12 * year + (month - 1)`,
 a day by its distance from 1 January of year 0, an instant by the local
 wall-clock seconds since that day's midnight; all three range over all integers.
 */
module Calendar {

  const SECONDS_PER_DAY := 86400

  predicate IsLeap(year: int) {
    year % 4 == 0 && (year % 100 != 0 || year % 400 == 0)
  }

  /** The length of a month, by the calendar's own rule. */
  function DaysInMonth(month: int): (n: int)
    ensures 28 <= n <= 31
  {
    var m := month % 12;
    if m == 1 then (if IsLeap(month / 12) then 29 else 28)
    else if m == 3 || m == 5 || m == 8 || m == 10 then 30
    else 31
  }

  /** The day number of the first of a month: the lengths of the months between it and month 0. */
  function MonthStart(month: int): int
    decreases if month < 0 then -month else month
  {
    if month == 0 then 0
    else if month > 0 then MonthStart(month - 1) + DaysInMonth(month - 1)
    else MonthStart(month + 1) - DaysInMonth(month)
  }

  lemma {:induction false} MonthStartsGrow(a: int, b: int)
    requires a <= b
    ensures MonthStart(a) + 28 * (b - a) <= MonthStart(b)
    decreases b - a
  {
    if a < b {
      MonthStartsGrow(a, b - 1);
      assert MonthStart(b) == MonthStart(b - 1) + DaysInMonth(b - 1);
    }
  }

  // ----- The calendar's own arithmetic -----

  lemma NextMonthStart(month: int)
    ensures MonthStart(month + 1) == MonthStart(month) + DaysInMonth(month)
  {
  }

  lemma YearLength(year: int)
    ensures MonthStart(12 * year + 12) == MonthStart(12 * year) + (if IsLeap(year) then 366 else 365)
  {
    hide MonthStart, DaysInMonth;
    var m := 12 * year;
    MonthIn(m, 0); MonthIn(m, 1); MonthIn(m, 2); MonthIn(m, 3); MonthIn(m, 4); MonthIn(m, 5);
    MonthIn(m, 6); MonthIn(m, 7); MonthIn(m, 8); MonthIn(m, 9); MonthIn(m, 10); MonthIn(m, 11);
  }

  /** The start of the next month, for a month of the year that starts with month `first`. */
  lemma MonthIn(first: int, k: int)
    requires first % 12 == 0 && 0 <= k < 12
    ensures MonthStart(first + k + 1) == MonthStart(first + k) +
      if k == 1 then (if IsLeap(first / 12) then 29 else 28) else [31, 28, 31, 30, 31, 30, 31, 31, 30, 31, 30, 31][k]
  {
    hide MonthStart;
    NextMonthStart(first + k);
    MonthLengths(first / 12, k);
    assert first == 12 * (first / 12);
  }

  /** The leap years from year 0 up to, not including, a year. */
  function LeapsBefore(year: int): int { (year + 3) / 4 - (year + 99) / 100 + (year + 399) / 400 }

  lemma Fourths(y: int) ensures (y + 4) / 4 - (y + 3) / 4 == if y % 4 == 0 then 1 else 0 { }
  lemma Hundredths(y: int) ensures (y + 100) / 100 - (y + 99) / 100 == if y % 100 == 0 then 1 else 0 { }
  lemma FourHundredths(y: int) ensures (y + 400) / 400 - (y + 399) / 400 == if y % 400 == 0 then 1 else 0 { }

  lemma LeapRule(y: int)
    ensures y % 400 == 0 ==> y % 100 == 0
    ensures y % 100 == 0 ==> y % 4 == 0
  {
    if y % 400 == 0 { OfHundred(4 * (y / 400)); }
    if y % 100 == 0 { OfFour(25 * (y / 100)); }
  }

  lemma OfHundred(k: int) ensures (100 * k) % 100 == 0 { }
  lemma OfFour(k: int) ensures (4 * k) % 4 == 0 { }

  lemma LeapsStep(year: int)
    ensures LeapsBefore(year + 1) == LeapsBefore(year) + (if IsLeap(year) then 1 else 0)
  {
    Fourths(year);
    Hundredths(year);
    FourHundredths(year);
    LeapRule(year);
    assert year + 1 + 3 == year + 4 && year + 1 + 99 == year + 100 && year + 1 + 399 == year + 400;
  }

  /** 1 January of any year, in closed form. */
  lemma {:induction false} YearStarts(year: int)
    ensures MonthStart(12 * year) == 365 * year + LeapsBefore(year)
    decreases if year < 0 then -year else year
  {
    if year > 0 {
      YearStarts(year - 1);
      YearLength(year - 1);
      LeapsStep(year - 1);
    } else if year < 0 {
      YearStarts(year + 1);
      YearLength(year);
      LeapsStep(year);
    }
  }

  /** The calendar repeats after 400 years of 146097 days. */
  lemma FourCenturies(year: int)
    ensures MonthStart(12 * (year + 400)) == MonthStart(12 * year) + 146097
  {
    hide MonthStart;
    YearStarts(year);
    YearStarts(year + 400);
    LeapsIn400(year);
    hide LeapsBefore;
  }

  lemma LeapsIn400(year: int)
    ensures LeapsBefore(year + 400) == LeapsBefore(year) + 97
  {
    assert (year + 400 + 3) / 4 == (year + 3) / 4 + 100;
    assert (year + 400 + 99) / 100 == (year + 99) / 100 + 4;
    assert (year + 400 + 399) / 400 == (year + 399) / 400 + 1;
  }

  lemma MonthInYear(year: int, k: int)
    requires 0 <= k < 12
    ensures (12 * year + k) / 12 == year && (12 * year + k) % 12 == k
  {
  }

  /** The lengths of the months. */
  lemma MonthLengths(year: int, k: int)
    requires 0 <= k < 12
    ensures DaysInMonth(12 * year + k) ==
      if k == 1 then (if year % 4 == 0 && (year % 100 != 0 || year % 400 == 0) then 29 else 28)
      else [31, 28, 31, 30, 31, 30, 31, 31, 30, 31, 30, 31][k]
  {
    MonthInYear(year, k);
  }

  /** The month a day falls in, searched from a month near it. */
  function MonthFrom(month: int, day: int): (r: int)
    ensures MonthStart(r) <= day < MonthStart(r + 1)
    decreases day < MonthStart(month), if day < MonthStart(month) then MonthStart(month) - day
      else day - MonthStart(month)
  {
    if day < MonthStart(month) then MonthFrom(month - 1, day)
    else if day < MonthStart(month + 1) then month
    else MonthFrom(month + 1, day)
  }

  /** Go's `Year()` and `Month()` of a day, read together. */
  function MonthOf(day: int): (r: int)
    ensures MonthStart(r) <= day < MonthStart(r + 1)
  {
    MonthFrom(day / 31, day)
  }

  lemma MonthOfIsUnique(day: int, month: int)
    requires MonthStart(month) <= day < MonthStart(month + 1)
    ensures MonthOf(day) == month
  {
    var r := MonthOf(day);
    if r < month {
      MonthStartsGrow(r + 1, month);
    } else if month < r {
      MonthStartsGrow(month + 1, r);
    }
  }

  /** `time.Date(year, month, day, 0, ...)` with Go's overflow into later months. */
  function Date(month: int, day: int): int {
    MonthStart(month) + day - 1
  }

  /** `Time.Day()` */
  function DayOfMonth(day: int): int {
    day - MonthStart(MonthOf(day)) + 1
  }

  function Midnight(day: int): int {
    day * SECONDS_PER_DAY
  }

  function DayOf(instant: int): (day: int)
    ensures Midnight(day) <= instant < Midnight(day + 1)
  {
    instant / SECONDS_PER_DAY
  }

  function NormalizeResetDay(day: int): (r: int)
    ensures 1 <= r <= 31
    ensures 1 <= day <= 31 ==> r == day
  {
    if day < 1 then 1 else if day > 31 then 31 else day
  }

  /** `actualTrafficResetDate`: the reset day of a month, sliding to the 1st of the next. */
  function ActualResetDate(month: int, resetDay: int): int {
    var firstDayOfNextMonth := Date(month + 1, 1);
    var lastDayOfMonth := DayOfMonth(firstDayOfNextMonth - 1);
    if resetDay <= lastDayOfMonth then Date(month, resetDay) else firstDayOfNextMonth
  }

  /** `lastTrafficResetDate`, as an instant. */
  function LastResetDate(resetDay: int, now: int): int {
    var r := NormalizeResetDay(resetDay);
    var month := MonthOf(DayOf(now));
    var thisMonth := Midnight(ActualResetDate(month, r));
    if now >= thisMonth then thisMonth
    else Midnight(ActualResetDate(MonthOf(Date(month - 1, 1)), r))
  }

  /** The reset date of a month, said by the rule the documentation gives. */
  lemma ResetDateRule(month: int, resetDay: int)
    requires 1 <= resetDay <= 31
    ensures ActualResetDate(month, resetDay) ==
            if resetDay <= DaysInMonth(month) then MonthStart(month) + resetDay - 1 else MonthStart(month + 1)
  {
    MonthOfIsUnique(MonthStart(month + 1) - 1, month);
  }

  /** Consecutive reset dates are strictly increasing and lie 28 to 31 days apart. */
  lemma ConsecutiveResets(month: int, resetDay: int)
    requires 1 <= resetDay <= 31
    ensures 28 <= ActualResetDate(month + 1, resetDay) - ActualResetDate(month, resetDay) <= 31
  {
    ResetDateRule(month, resetDay);
    ResetDateRule(month + 1, resetDay);
  }

  lemma {:induction false} ResetsIncrease(a: int, b: int, resetDay: int)
    requires a < b && 1 <= resetDay <= 31
    ensures ActualResetDate(a, resetDay) + 28 * (b - a) <= ActualResetDate(b, resetDay)
    decreases b - a
  {
    ConsecutiveResets(b - 1, resetDay);
    if a < b - 1 {
      ResetsIncrease(a, b - 1, resetDay);
    }
  }

  /** `LastResetDate` finds the month whose reset date is in force at `now`. */
  lemma LastResetMonth(resetDay: int, now: int) returns (month: int)
    ensures LastResetDate(resetDay, now) == Midnight(ActualResetDate(month, NormalizeResetDay(resetDay)))
    ensures Midnight(ActualResetDate(month, NormalizeResetDay(resetDay))) <= now
    ensures now < Midnight(ActualResetDate(month + 1, NormalizeResetDay(resetDay)))
  {
    hide ActualResetDate, MonthOf, IsLeap;
    var r := NormalizeResetDay(resetDay);
    var current := MonthOf(DayOf(now));
    MonthOfIsUnique(Date(current - 1, 1), current - 1);
    ResetDateRule(current - 1, r);
    ResetDateRule(current, r);
    ResetDateRule(current + 1, r);
    month := if now >= Midnight(ActualResetDate(current, r)) then current else current - 1;
  }

  /** The result is a reset date, is not after `now`, and no reset date lies between. */
  lemma LastResetIsGreatest(resetDay: int, now: int)
    ensures exists k :: LastResetDate(resetDay, now) == Midnight(ActualResetDate(k, NormalizeResetDay(resetDay)))
    ensures LastResetDate(resetDay, now) <= now
    ensures forall k :: Midnight(ActualResetDate(k, NormalizeResetDay(resetDay))) <= now
                    ==> Midnight(ActualResetDate(k, NormalizeResetDay(resetDay))) <= LastResetDate(resetDay, now)
  {
    hide ActualResetDate, LastResetDate;
    var r := NormalizeResetDay(resetDay);
    var month := LastResetMonth(resetDay, now);
    forall k | Midnight(ActualResetDate(k, r)) <= now
      ensures Midnight(ActualResetDate(k, r)) <= LastResetDate(resetDay, now)
    {
      if k > month + 1 {
        ResetsIncrease(month + 1, k, r);
      } else if k < month {
        ResetsIncrease(k, month, r);
      }
    }
  }

  /** The first four weeks after a reset date belong to the period it begins. */
  lemma EarlyInPeriod(resetDay: int, month: int, now: int)
    requires 1 <= resetDay <= 31
    requires 0 <= now - Midnight(ActualResetDate(month, resetDay)) < 28 * SECONDS_PER_DAY
    ensures LastResetDate(resetDay, now) == Midnight(ActualResetDate(month, resetDay))
  {
    hide ActualResetDate, LastResetDate;
    var found := LastResetMonth(resetDay, now);
    if found > month {
      ResetsIncrease(month, found, resetDay);
    } else if found + 1 < month {
      ResetsIncrease(found + 1, month, resetDay);
    }
  }

  /** Periods follow the clock: a later instant is never in an earlier period. */
  lemma PeriodsFollowClock(resetDay: int, earlier: int, later: int)
    requires earlier <= later
    ensures LastResetDate(resetDay, earlier) <= LastResetDate(resetDay, later)
    ensures LastResetDate(resetDay, earlier) == LastResetDate(resetDay, later)
        <==> LastResetDate(resetDay, later) <= earlier
  {
    LastResetIsGreatest(resetDay, earlier);
    LastResetIsGreatest(resetDay, later);
  }
}
