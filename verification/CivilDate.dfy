/** Days since 1970-01-01 and the day of the year, in the Gregorian calendar extended to all years. */
module CivilDate {

  datatype Date = Date(year: int, month: int, day: int) {
    predicate Valid() {
      1 <= month <= 12 && 1 <= day <= MonthLen(year, month)
    }
  }

  predicate IsLeap(year: int) {
    (year % 4 == 0 && year % 100 != 0) || year % 400 == 0
  }

  function MonthLen(year: int, month: int): int
    requires 1 <= month <= 12
  {
    if month == 2 then (if IsLeap(year) then 29 else 28)
    else if month == 4 || month == 6 || month == 9 || month == 11 then 30
    else 31
  }

  /** The next day of the calendar. */
  function Successor(d: Date): (e: Date)
    requires d.Valid()
    ensures e.Valid()
  {
    if d.day < MonthLen(d.year, d.month) then d.(day := d.day + 1)
    else if d.month < 12 then Date(d.year, d.month + 1, 1)
    else Date(d.year + 1, 1, 1)
  }

  predicate Before(d: Date, e: Date) {
    d.year < e.year || (d.year == e.year && (d.month < e.month || (d.month == e.month && d.day < e.day)))
  }

  // ----- The code.

  /** Division in C, which truncates. */
  function Truncated(a: int, b: int): int
    requires b > 0
  {
    if a >= 0 then a / b else -(-a / b)
  }

  /** The year that starts in March. */
  function MarchYear(year: int, month: int): int { if month <= 2 then year - 1 else year }

  function Era(y: int): int { Truncated(if y >= 0 then y else y - 399, 400) }

  /** The day of the year that starts in March, from 0. */
  function MarchDay(month: int, day: int): int {
    (153 * (month + if month > 2 then -3 else 9) + 2) / 5 + day - 1
  }

  /** `days_from_civil` */
  function DaysFromCivil(year: int, month: int, day: int): int {
    var y := MarchYear(year, month);
    var era := Era(y);
    var yoe := y - era * 400;
    var doe := yoe * 365 + yoe / 4 - yoe / 100 + yoe / 400 + MarchDay(month, day);
    era * 146097 + doe - 719468
  }

  function Days(d: Date): int { DaysFromCivil(d.year, d.month, d.day) }

  const SECONDS_PER_DAY := 86400

  /** `utc_midnight_epoch` */
  function UtcMidnightEpoch(year: int, month: int, day: int): int {
    DaysFromCivil(year, month, day) * SECONDS_PER_DAY
  }

  // ----- Years and months.

  /** The number of days before the year that starts in March of `y`, counted from year 0. */
  function YearStart(y: int): int { 365 * y + y / 4 - y / 100 + y / 400 }

  lemma EraIsFloor(y: int)
    ensures Era(y) == y / 400 && y - Era(y) * 400 == y % 400
  {}

  lemma DaysClosed(year: int, month: int, day: int)
    ensures DaysFromCivil(year, month, day) == YearStart(MarchYear(year, month)) + MarchDay(month, day) - 719468
  {
    var y := MarchYear(year, month);
    EraIsFloor(y);
    hide Era, MarchDay;
    var e, r := y / 400, y % 400;
    assert y == 400 * e + r;
    assert y / 4 == 100 * e + r / 4 && y / 100 == 4 * e + r / 100;
  }

  lemma YearLength(y: int)
    ensures YearStart(y + 1) == YearStart(y) + if IsLeap(y + 1) then 366 else 365
  {
    NextQuotient(y, 4);
    NextQuotient(y, 100);
    NextQuotient(y, 400);
    Multiples(y + 1);
  }

  lemma NextQuotient(y: int, n: int)
    requires n == 4 || n == 100 || n == 400
    ensures (y + 1) / n == y / n + if (y + 1) % n == 0 then 1 else 0
  {}

  lemma Multiples(x: int)
    ensures (x % 400 == 0 ==> x % 100 == 0) && (x % 100 == 0 ==> x % 4 == 0)
  {}

  lemma {:induction false} YearsAscend(y: int, z: int)
    requires y <= z
    ensures YearStart(y) + 365 * (z - y) <= YearStart(z)
    decreases z - y
  {
    hide YearStart;
    if y < z {
      YearsAscend(y, z - 1);
      YearLength(z - 1);
    }
  }

  lemma MonthStarts(month: int, day: int)
    requires 1 <= month <= 12
    ensures MarchDay(month, day) == day - 1 +
              if month == 3 then 0 else if month == 4 then 31 else if month == 5 then 61 else if month == 6 then 92
              else if month == 7 then 122 else if month == 8 then 153 else if month == 9 then 184
              else if month == 10 then 214 else if month == 11 then 245 else if month == 12 then 275
              else if month == 1 then 306 else 337
  {}

  // ----- The properties.

  lemma Epoch()
    ensures DaysFromCivil(1970, 1, 1) == 0
  {}

  /** The next day of the calendar has the next number, in every year. */
  lemma SuccessorIsNext(d: Date)
    requires d.Valid()
    ensures Days(Successor(d)) == Days(d) + 1
  {
    hide DaysFromCivil, YearStart, MarchDay, IsLeap;
    var e := Successor(d);
    DaysClosed(d.year, d.month, d.day);
    DaysClosed(e.year, e.month, e.day);
    MonthStarts(d.month, d.day);
    MonthStarts(e.month, e.day);
    YearLength(d.year - 1);
  }

  /** A date lies in its March year. */
  lemma WithinYear(d: Date)
    requires d.Valid()
    ensures var y := MarchYear(d.year, d.month); YearStart(y) <= Days(d) + 719468 < YearStart(y + 1)
  {
    hide DaysFromCivil, YearStart, MarchDay, IsLeap;
    DaysClosed(d.year, d.month, d.day);
    MonthStarts(d.month, d.day);
    YearLength(MarchYear(d.year, d.month));
  }

  /** Later dates have greater numbers. */
  lemma StrictlyMonotone(d: Date, e: Date)
    requires d.Valid() && e.Valid() && Before(d, e)
    ensures Days(d) < Days(e)
  {
    hide DaysFromCivil, YearStart, MarchDay, IsLeap;
    var y, z := MarchYear(d.year, d.month), MarchYear(e.year, e.month);
    if y < z {
      WithinYear(d);
      WithinYear(e);
      YearsAscend(y + 1, z);
    } else {
      SameYearAscends(d, e);
    }
  }

  lemma SameYearAscends(d: Date, e: Date)
    requires d.Valid() && e.Valid() && Before(d, e) && MarchYear(d.year, d.month) == MarchYear(e.year, e.month)
    ensures Days(d) < Days(e)
  {
    hide DaysFromCivil, YearStart, MarchDay, IsLeap;
    DaysClosed(d.year, d.month, d.day);
    DaysClosed(e.year, e.month, e.day);
    MonthStarts(d.month, d.day);
    MonthStarts(e.month, e.day);
  }

  /** Different dates have different midnights, a whole number of days apart. */
  lemma MidnightsApart(d: Date, e: Date)
    requires d.Valid() && e.Valid() && Before(d, e)
    ensures UtcMidnightEpoch(d.year, d.month, d.day) + SECONDS_PER_DAY <= UtcMidnightEpoch(e.year, e.month, e.day)
    ensures UtcMidnightEpoch(d.year, d.month, d.day) % SECONDS_PER_DAY == 0
  {
    hide DaysFromCivil;
    StrictlyMonotone(d, e);
  }

  /** The lengths of the months of a common year. */
  function MonthDays(i: int): int
    requires 1 <= i <= 12
  {
    if i == 2 then 28 else if i == 4 || i == 6 || i == 9 || i == 11 then 30 else 31
  }

  /** The days before a month of a common year. */
  function DaysBefore(month: int): int
    requires 1 <= month <= 12
    decreases month
  {
    if month == 1 then 0 else DaysBefore(month - 1) + MonthDays(month - 1)
  }

  lemma DaysBeforeTable(month: int)
    requires 1 <= month <= 12
    ensures DaysBefore(month) ==
            if month == 1 then 0 else if month == 2 then 31 else if month == 3 then 59 else if month == 4 then 90
            else if month == 5 then 120 else if month == 6 then 151 else if month == 7 then 181
            else if month == 8 then 212
            else if month == 9 then 243 else if month == 10 then 273 else if month == 11 then 304 else 334
  {
    if month > 1 {
      DaysBeforeTable(month - 1);
    }
  }

  /** The day of the year, by both ways of counting. */
  lemma DayOfYearIsDifference(year: int, month: int, day: int)
    requires 1 <= month <= 12
    ensures day + DaysBefore(month) + (if IsLeap(year) && month > 2 then 1 else 0) ==
            DaysFromCivil(year, month, day) - DaysFromCivil(year, 1, 1) + 1
  {
    hide DaysFromCivil, YearStart, MarchDay, DaysBefore, IsLeap;
    DaysClosed(year, month, day);
    DaysClosed(year, 1, 1);
    MonthStarts(month, day);
    MonthStarts(1, 1);
    DaysBeforeTable(month);
    YearLength(year - 1);
  }

  /** The day of the year in `fractional_year_gamma`. */
  method DayOfYear(year: int, month: int, day: int) returns (n: int)
    requires 1 <= month <= 12
    ensures n == DaysFromCivil(year, month, day) - DaysFromCivil(year, 1, 1) + 1
  {
    hide DaysFromCivil;
    var leap := IsLeap(year);
    n := day;
    var i := 1;
    while i < month
      invariant 1 <= i <= month && n == day + DaysBefore(i)
    {
      n := n + MonthDays(i);
      i := i + 1;
    }
    if leap && month > 2 {
      n := n + 1;
    }
    DayOfYearIsDifference(year, month, day);
  }

  const INT_MAX := 0x7FFFFFFF

  predicate FitsInt(v: int) { -INT_MAX - 1 <= v <= INT_MAX }

  /** The source computes in 32 bits; for these years no intermediate result leaves them. */
  lemma NoOverflow(d: Date)
    requires d.Valid() && -5_800_000 <= d.year <= 5_800_000
    ensures var y := MarchYear(d.year, d.month);
            FitsInt(y - 399) && FitsInt(Era(y) * 146097) &&
                FitsInt(Era(y) * 146097 + (Days(d) + 719468 - Era(y) * 146097)) &&
            FitsInt(Days(d)) && 0 <= Days(d) + 719468 - Era(y) * 146097 <= 146096
  {
    var y := MarchYear(d.year, d.month);
    EraIsFloor(y);
    MonthStarts(d.month, d.day);
    var r := y % 400;
    assert Days(d) + 719468 - Era(y) * 146097 == r * 365 + r / 4 - r / 100 + MarchDay(d.month, d.day);
    LastDay(d, r);
  }

  /** The last day of an era is the 29th of February of a year that 400 divides. */
  lemma LastDay(d: Date, r: int)
    requires d.Valid() && r == MarchYear(d.year, d.month) % 400
    ensures 0 <= r * 365 + r / 4 - r / 100 + MarchDay(d.month, d.day) <= 146096
  {
    MonthStarts(d.month, d.day);
    hide MarchDay;
  }
}
