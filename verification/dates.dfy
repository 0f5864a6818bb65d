/**
  The date comparator used by the value optimizers: a strict order on
  date-times and an incrementer that moves a date-time by whole days.

  A date-time is modelled abstractly as a day number (days since an
  arbitrary epoch, negative before it) plus the second of that day. Time
  zones and daylight-saving shifts are not part of the model: a day is
  always 86400 seconds long.
*/
module Dates {

  const SecondsPerDay: int := 86400

  type SecondOfDay = s: int | 0 <= s < SecondsPerDay

  datatype DateTime = DateTime(day: int, time: SecondOfDay)

  /** Field options handed to every comparator method; none of them reads it. */
  type Options = map<string, string>

  /** The moment on a single time line, in seconds since the epoch. */
  function Instant(d: DateTime): int {
    d.day * SecondsPerDay + d.time
  }

  /** The calendar day a proleptic Gregorian date falls on, counted from 1970-01-01. */
  function CivilDay(year: int, month: int, dayOfMonth: int): int
    requires 1 <= month <= 12 && 1 <= dayOfMonth <= 31
  {
    var y := if month <= 2 then year - 1 else year;
    var era := y / 400;
    var yoe := y - era * 400;
    var mp := if month > 2 then month - 3 else month + 9;
    var doy := (153 * mp + 2) / 5 + dayOfMonth - 1;
    var doe := yoe * 365 + yoe / 4 - yoe / 100 + doy;
    era * 146097 + doe - 719468
  }

  /** A date-time written the way the calendar writes it. */
  function At(year: int, month: int, dayOfMonth: int, hour: int, minute: int): DateTime
    requires 1 <= month <= 12 && 1 <= dayOfMonth <= 31
    requires 0 <= hour < 24 && 0 <= minute < 60
  {
    DateTime(CivilDay(year, month, dayOfMonth), hour * 3600 + minute * 60)
  }

  /** Whether the first value is later than the second. */
  predicate IsHigher(higher: DateTime, lower: DateTime, options: Options) {
    Instant(higher) > Instant(lower)
  }

  /** Whether the first value is earlier than the second. */
  predicate IsLower(lower: DateTime, higher: DateTime, options: Options) {
    Instant(lower) < Instant(higher)
  }

  /** Whether both values denote the same moment. */
  predicate IsEqual(value: DateTime, nextValue: DateTime, options: Options) {
    Instant(value) == Instant(nextValue)
  }

  /** The value moved by `increments` days; the time of day is kept and the input is untouched. */
  function GetIncrementedValue(value: DateTime, options: Options, increments: int := 1): (r: DateTime)
    ensures r.time == value.time
    ensures Instant(r) == Instant(value) + increments * SecondsPerDay
  {
    DateTime(value.day + increments, value.time)
  }

  /** Later days are later moments, whatever the times of day. */
  lemma {:induction false} DayOrderDominates(a: DateTime, b: DateTime)
    requires a.day < b.day
    ensures Instant(a) < Instant(b)
  {
    calc {
      Instant(a);
      a.day * SecondsPerDay + a.time;
    <  a.day * SecondsPerDay + SecondsPerDay;
      (a.day + 1) * SecondsPerDay;
    <= { assert a.day + 1 <= b.day; MulMonotone(a.day + 1, b.day); }
      b.day * SecondsPerDay;
    <= Instant(b);
    }
  }

  lemma MulMonotone(x: int, y: int)
    requires x <= y
    ensures x * SecondsPerDay <= y * SecondsPerDay
  {
  }

  /** The instant order is the lexicographic order on (day, time). */
  lemma {:induction false} InstantOrder(a: DateTime, b: DateTime)
    ensures Instant(a) < Instant(b) <==> (a.day < b.day || (a.day == b.day && a.time < b.time))
  {
    if a.day < b.day {
      DayOrderDominates(a, b);
    } else if b.day < a.day {
      DayOrderDominates(b, a);
    }
  }

  /** Two date-times are equal as moments exactly when they are the same value. */
  lemma {:induction false} IsEqualIsIdentity(a: DateTime, b: DateTime, options: Options)
    ensures IsEqual(a, b, options) <==> a == b
  {
    InstantOrder(a, b);
    InstantOrder(b, a);
  }

  /** isHigher(a, b) holds exactly when a is later than b. */
  lemma {:induction false} IsHigherIsLater(a: DateTime, b: DateTime, options: Options)
    ensures IsHigher(a, b, options) <==> (a.day > b.day || (a.day == b.day && a.time > b.time))
  {
    InstantOrder(b, a);
  }

  /** isLower is isHigher with the arguments swapped. */
  lemma IsLowerIsSwappedIsHigher(a: DateTime, b: DateTime, options: Options)
    ensures IsLower(a, b, options) <==> IsHigher(b, a, options)
  {
  }

  /** For any two date-times exactly one of isHigher, isLower and isEqual holds. */
  lemma {:induction false} Trichotomy(a: DateTime, b: DateTime, options: Options)
    ensures IsHigher(a, b, options) || IsLower(a, b, options) || IsEqual(a, b, options)
    ensures !(IsHigher(a, b, options) && IsLower(a, b, options))
    ensures !(IsHigher(a, b, options) && IsEqual(a, b, options))
    ensures !(IsLower(a, b, options) && IsEqual(a, b, options))
    ensures IsEqual(a, b, options) <==> a == b
  {
    IsEqualIsIdentity(a, b, options);
  }

  /** None of the comparator methods reads its options. */
  lemma OptionsAreIgnored(a: DateTime, b: DateTime, o1: Options, o2: Options, n: int)
    ensures IsHigher(a, b, o1) == IsHigher(a, b, o2)
    ensures IsLower(a, b, o1) == IsLower(a, b, o2)
    ensures IsEqual(a, b, o1) == IsEqual(a, b, o2)
    ensures GetIncrementedValue(a, o1, n) == GetIncrementedValue(a, o2, n)
  {
  }

  /** A positive number of increments gives a strictly later value, a negative one an earlier value. */
  lemma {:induction false} IncrementIsMonotonic(v: DateTime, options: Options, n: int)
    ensures n > 0 ==> IsHigher(GetIncrementedValue(v, options, n), v, options)
    ensures n < 0 ==> IsLower(GetIncrementedValue(v, options, n), v, options)
    ensures n == 0 ==> GetIncrementedValue(v, options, n) == v
  {
    var r := GetIncrementedValue(v, options, n);
    if n > 0 {
      DayOrderDominates(v, r);
    } else if n < 0 {
      DayOrderDominates(r, v);
    }
  }

  /** Incrementing preserves the order between two values. */
  lemma {:induction false} IncrementPreservesOrder(a: DateTime, b: DateTime, options: Options, n: int)
    ensures IsLower(a, b, options) <==> IsLower(GetIncrementedValue(a, options, n), GetIncrementedValue(b, options, n), options)
    ensures IsEqual(a, b, options) <==> IsEqual(GetIncrementedValue(a, options, n), GetIncrementedValue(b, options, n), options)
  {
    InstantOrder(a, b);
    InstantOrder(GetIncrementedValue(a, options, n), GetIncrementedValue(b, options, n));
    IsEqualIsIdentity(a, b, options);
    IsEqualIsIdentity(GetIncrementedValue(a, options, n), GetIncrementedValue(b, options, n), options);
  }

  /** Increments compose by adding their day counts. */
  lemma IncrementsCompose(v: DateTime, options: Options, m: int, n: int)
    ensures GetIncrementedValue(GetIncrementedValue(v, options, m), options, n) == GetIncrementedValue(v, options, m + n)
  {
  }

  /** The cases of the comparator's specification, on the calendar dates it uses. */
  lemma SpecificationExamples(options: Options)
    ensures IsEqual(At(2013, 9, 21, 12, 46), At(2013, 9, 21, 12, 46), options)
    ensures !IsEqual(At(2013, 9, 21, 12, 46), At(2013, 9, 22, 12, 46), options)
    ensures !IsEqual(At(2013, 9, 21, 12, 46), At(2013, 9, 21, 12, 40), options)
    ensures IsHigher(At(2013, 9, 23, 12, 46), At(2013, 9, 21, 12, 46), options)
    ensures IsLower(At(2013, 9, 21, 12, 46), At(2013, 9, 23, 12, 46), options)
    ensures GetIncrementedValue(At(2013, 9, 21, 12, 46), options) == At(2013, 9, 22, 12, 46)
  {
  }

  // ---------------------------------------------------------------- the calendar

  /** The Gregorian leap-year rule. */
  predicate LeapYear(y: int) {
    y % 4 == 0 && (y % 100 != 0 || y % 400 == 0)
  }

  /** January 1st after year `b` of the 400-year era `e` (the day count starts its years in March). */
  function NewYearIn(e: int, b: int): int {
    e * 146097 + b * 365 + b / 4 - b / 100 + 306 - 719468
  }

  lemma NewYear(y: int)
    ensures CivilDay(y, 1, 1) == NewYearIn((y - 1) / 400, (y - 1) % 400)
  {
  }

  lemma Step4(a: int)
    requires 0 <= a
    ensures (a + 1) / 4 - a / 4 == if (a + 1) % 4 == 0 then 1 else 0
  {
  }

  lemma Step100(a: int)
    requires 0 <= a
    ensures (a + 1) / 100 - a / 100 == if (a + 1) % 100 == 0 then 1 else 0
  {
  }

  /** Whole eras do not change the remainder by 4, 100 or 400. */
  lemma EraMod(e: int, b: int)
    ensures (400 * e + b) % 4 == b % 4
    ensures (400 * e + b) % 100 == b % 100
    ensures (400 * e + b) % 400 == b % 400
  {
    ShiftMod(4, 100 * e, b);
    ShiftMod(100, 4 * e, b);
    ShiftMod(400, e, b);
  }

  /** Adding a multiple of k keeps the remainder by k. */
  lemma ShiftMod(k: int, q: int, b: int)
    requires k > 0
    ensures (k * q + b) % k == b % k
  {
    var r := b % k;
    var d := b / k;
    assert k * q + b == k * (q + d) + r;
    DivModUnique(k, k * q + b, q + d, r);
  }

  /** Euclidean division has one quotient and remainder. */
  lemma DivModUnique(k: int, x: int, q: int, r: int)
    requires k > 0 && 0 <= r < k && x == k * q + r
    ensures x % k == r
  {
    var q', r' := x / k, x % k;
    assert x == k * q' + r';
    if q > q' {
      Distribute(k, q', q - q');
      MulAtLeast(k, q - q');
    } else if q < q' {
      Distribute(k, q, q' - q);
      MulAtLeast(k, q' - q);
    }
  }

  lemma Distribute(k: int, a: int, b: int)
    ensures k * (a + b) == k * a + k * b
  {
  }

  lemma {:induction false} MulAtLeast(k: int, n: int)
    requires k > 0 && n >= 1
    ensures k * n >= k
    decreases n
  {
    if n > 1 {
      MulAtLeast(k, n - 1);
      Distribute(k, n - 1, 1);
    }
  }

  /** y/400 and y%400 for y written in era form. */
  lemma EraDiv(e: int, b: int)
    requires 0 <= b < 400
    ensures (400 * e + b) / 400 == e && (400 * e + b) % 400 == b
  {
  }

  /** Inside an era, a year adds 365 days and one more in a leap year. */
  lemma WithinEra(e: int, b: int)
    requires 0 <= b < 399
    ensures NewYearIn(e, b + 1) - NewYearIn(e, b) == if LeapYear(400 * e + (b + 1)) then 366 else 365
  {
    EraMod(e, b + 1);
    Step4(b);
    Step100(b);
  }

  /** The last year of an era ends with a leap day: the next era starts on a year divisible by 400. */
  lemma EraEnd(e: int)
    ensures NewYearIn(e + 1, 0) - NewYearIn(e, 399) == 366
    ensures LeapYear(400 * (e + 1) + 0)
  {
    EraMod(e + 1, 0);
  }

  /** The day count starts at 1970-01-01. */
  lemma Epoch()
    ensures CivilDay(1970, 1, 1) == 0
  {
  }

  /** Every year has 365 days, and 366 exactly when the Gregorian rule makes it a leap year; year 0 is one, year -1 is not. */
  lemma YearLength(y: int)
    ensures CivilDay(y + 1, 1, 1) - CivilDay(y, 1, 1) == if LeapYear(y) then 366 else 365
  {
    var era := (y - 1) / 400;
    var yoe := (y - 1) % 400;
    NewYear(y);
    NewYear(y + 1);
    assert CivilDay(y, 1, 1) == NewYearIn(era, yoe);
    if yoe == 399 {
      assert y == 400 * (era + 1) + 0;
      EraDiv(era + 1, 0);
      assert CivilDay(y + 1, 1, 1) == NewYearIn(era + 1, 0);
      EraEnd(era);
    } else {
      assert y == 400 * era + (yoe + 1);
      EraDiv(era, yoe + 1);
      assert CivilDay(y + 1, 1, 1) == NewYearIn(era, yoe + 1);
      WithinEra(era, yoe);
    }
  }
}
