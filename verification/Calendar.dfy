/**
 Civil dates and day numbers (time.rs).  Rust's integer division truncates toward zero, so the
 operators on possibly negative years are written out.
 */
module Calendar {

  function TruncDiv(a: int, b: int): int
    requires b > 0
  {
    if a >= 0 then a / b else -((-a) / b)
  }

  function TruncRem(a: int, b: int): int
    requires b > 0
  {
    a - TruncDiv(a, b) * b
  }

  /** A date as the source passes it around, in range or not; `Valid` says when it is one. */
  datatype Date = Date(year: int, month: int, day: int)

  predicate Leap(year: int) {
    TruncRem(year, 4) == 0 && (TruncRem(year, 100) != 0 || TruncRem(year, 400) == 0)
  }

  function DaysInMonth(year: int, month: int): int {
    if month == 4 || month == 6 || month == 9 || month == 11 then 30
    else if month == 2 then (if Leap(year) then 29 else 28)
    else 31
  }

  predicate Valid(d: Date) {
    1 <= d.month <= 12 && 1 <= d.day <= DaysInMonth(d.year, d.month)
  }

  function DaysFromCivil(d: Date): int {
    var year := d.year - if d.month <= 2 then 1 else 0;
    var era := TruncDiv(if year >= 0 then year else year - 399, 400);
    var yoe := year - era * 400;
    var doy := TruncDiv(153 * (d.month + if d.month > 2 then -3 else 9) + 2, 5) + d.day - 1;
    var doe := yoe * 365 + TruncDiv(yoe, 4) - TruncDiv(yoe, 100) + doy;
    era * 146097 + doe - 719468
  }

  // ---------------------------------------------------------------- the reference: counting days

  function YearLength(year: int): int {
    if Leap(year) then 366 else 365
  }

  /** Days from 1970-01-01 to the first of January. */
  function DaysBeforeYear(year: int): int
    decreases if year < 1970 then 1970 - year else year - 1970
  {
    if year == 1970 then 0
    else if year > 1970 then DaysBeforeYear(year - 1) + YearLength(year - 1)
    else DaysBeforeYear(year + 1) - YearLength(year)
  }

  function DaysBeforeMonth(year: int, month: int): int
    requires 1 <= month <= 12
    decreases month
  {
    if month == 1 then 0 else DaysBeforeMonth(year, month - 1) + DaysInMonth(year, month - 1)
  }

  /** Counting every day of every month and year. */
  function DayNumber(d: Date): int
    requires 1 <= d.month <= 12
  {
    DaysBeforeYear(d.year) + DaysBeforeMonth(d.year, d.month) + d.day - 1
  }

  // ---------------------------------------------------------------- the fast form is the count

  /** Days before the first of March of year `n`, up to a constant. */
  function Closed(n: int): int {
    365 * n + n / 4 - n / 100 + n / 400
  }

  lemma By4(a: int)
    ensures TruncRem(a, 4) == 0 <==> a % 4 == 0
  {
  }

  lemma By100(a: int)
    ensures TruncRem(a, 100) == 0 <==> a % 100 == 0
  {
  }

  lemma By400(a: int)
    ensures TruncRem(a, 400) == 0 <==> a % 400 == 0
  {
  }

  lemma LeapByDivisibility(year: int)
    ensures Leap(year) <==> year % 4 == 0 && (year % 100 != 0 || year % 400 == 0)
  {
    hide TruncRem;
    By4(year);
    By100(year);
    By400(year);
  }

  /** Splitting a year into era and year of era, negative eras included. */
  lemma EraIsFloor(year: int)
    ensures TruncDiv(if year >= 0 then year else year - 399, 400) == year / 400
  {
    if year < 0 {
      assert (399 - year) / 400 == -(year / 400);
    }
  }

  lemma ErasAddUp(year: int)
    ensures var era, yoe := year / 400, year % 400;
            era * 146097 + yoe * 365 + yoe / 4 - yoe / 100 == Closed(year)
  {
    var era, yoe := year / 400, year % 400;
    assert year == era * 400 + yoe;
    assert year / 4 == era * 100 + yoe / 4;
    assert year / 100 == era * 4 + yoe / 100;
  }

  lemma ClosedForm(d: Date)
    requires 1 <= d.month <= 12
    ensures DaysFromCivil(d) == Closed(d.year - if d.month <= 2 then 1 else 0)
                                + (153 * (d.month + if d.month > 2 then -3 else 9) + 2) / 5 + d.day - 1 - 719468
  {
    var year := d.year - if d.month <= 2 then 1 else 0;
    EraIsFloor(year);
    ErasAddUp(year);
  }

  lemma ClosedSteps(n: int)
    ensures Closed(n) - Closed(n - 1) == YearLength(n)
  {
    hide Leap;
    LeapByDivisibility(n);
    assert n / 4 - (n - 1) / 4 == if n % 4 == 0 then 1 else 0;
    assert n / 100 - (n - 1) / 100 == if n % 100 == 0 then 1 else 0;
    assert n / 400 - (n - 1) / 400 == if n % 400 == 0 then 1 else 0;
  }

  lemma {:induction false} ClosedCountsYears(year: int)
    ensures DaysBeforeYear(year) == Closed(year - 1) + 306 - 719468
    decreases if year < 1970 then 1970 - year else year - 1970
  {
    if year > 1970 {
      ClosedCountsYears(year - 1);
      ClosedSteps(year - 1);
    } else if year < 1970 {
      ClosedCountsYears(year + 1);
      ClosedSteps(year);
    }
  }

  lemma {:induction false} MonthTable(year: int, month: int)
    requires 1 <= month <= 12
    ensures DaysBeforeMonth(year, month)
            == (153 * (month + if month > 2 then -3 else 9) + 2) / 5
               + if month > 2 then YearLength(year) - 306 else -306
    decreases month
  {
    hide Leap;
    if month > 1 {
      MonthTable(year, month - 1);
      assert month == 2 || month == 3 || month == 4 || month == 5 || month == 6 || month == 7 || month == 8
             || month == 9 || month == 10 || month == 11 || month == 12;
    }
  }

  /** The arithmetic form counts days, for every year before and after the epoch. */
  lemma DaysFromCivilCounts(d: Date)
    requires 1 <= d.month <= 12
    ensures DaysFromCivil(d) == DayNumber(d)
  {
    ClosedForm(d);
    ClosedCountsYears(d.year);
    MonthTable(d.year, d.month);
    ClosedSteps(d.year);
  }

  // ---------------------------------------------------------------- successor and order

  function NextDay(d: Date): Date {
    if d.day < DaysInMonth(d.year, d.month) then Date(d.year, d.month, d.day + 1)
    else if d.month < 12 then Date(d.year, d.month + 1, 1)
    else Date(d.year + 1, 1, 1)
  }

  /** The day after a date has the next number, and 1970-01-01 has number 0. */
  lemma NextDayIsOneMore(d: Date)
    requires Valid(d)
    ensures Valid(NextDay(d)) && DaysFromCivil(NextDay(d)) == DaysFromCivil(d) + 1
    ensures DaysFromCivil(Date(1970, 1, 1)) == 0
  {
    hide DaysFromCivil, Leap;
    DaysFromCivilCounts(d);
    DaysFromCivilCounts(NextDay(d));
    DaysFromCivilCounts(Date(1970, 1, 1));
    YearsAddUp(d.year);
  }

  lemma YearsAddUp(year: int)
    ensures DaysBeforeYear(year + 1) == DaysBeforeYear(year) + YearLength(year)
    ensures DaysBeforeMonth(year, 12) + 31 == YearLength(year)
  {
    MonthTable(year, 12);
  }

  predicate Before(a: Date, b: Date) {
    || a.year < b.year
    || (a.year == b.year && a.month < b.month)
    || (a.year == b.year && a.month == b.month && a.day < b.day)
  }

  lemma {:induction false} MonthsAscend(year: int, m: int, n: int)
    requires 1 <= m < n <= 12
    ensures DaysBeforeMonth(year, m) + DaysInMonth(year, m) <= DaysBeforeMonth(year, n)
    decreases n
  {
    if m < n - 1 {
      MonthsAscend(year, m, n - 1);
    }
  }

  lemma {:induction false} YearsAscend(a: int, b: int)
    requires a < b
    ensures DaysBeforeYear(a) + YearLength(a) <= DaysBeforeYear(b)
    decreases b - a
  {
    YearsAddUp(b - 1);
    if a < b - 1 {
      YearsAscend(a, b - 1);
    }
  }

  lemma WithinYear(d: Date)
    requires Valid(d)
    ensures 0 <= DaysBeforeMonth(d.year, d.month) + d.day - 1 < YearLength(d.year)
  {
    if d.month < 12 {
      MonthsAscend(d.year, d.month, 12);
    }
    if d.month > 1 {
      MonthsAscend(d.year, 1, d.month);
    }
    YearsAddUp(d.year);
  }

  lemma BeforeIsLess(a: Date, b: Date)
    requires Valid(a) && Valid(b) && Before(a, b)
    ensures DaysFromCivil(a) < DaysFromCivil(b)
  {
    DaysFromCivilCounts(a);
    DaysFromCivilCounts(b);
    if a.year < b.year {
      YearsAscend(a.year, b.year);
      WithinYear(a);
      WithinYear(b);
    } else if a.month < b.month {
      MonthsAscend(a.year, a.month, b.month);
    }
  }

  /** Day numbers order dates strictly, and no two dates share one. */
  lemma DayNumbersOrderDates(a: Date, b: Date)
    requires Valid(a) && Valid(b)
    ensures DaysFromCivil(a) < DaysFromCivil(b) <==> Before(a, b)
    ensures DaysFromCivil(a) == DaysFromCivil(b) <==> a == b
  {
    if Before(a, b) {
      BeforeIsLess(a, b);
    } else if Before(b, a) {
      BeforeIsLess(b, a);
    }
  }

  /** Every day number belongs to a date, so the two are in one-to-one correspondence. */
  lemma {:induction false} EveryDayHasADate(n: int) returns (d: Date)
    ensures Valid(d) && DaysFromCivil(d) == n
    decreases if n < 0 then -n else n
  {
    if n == 0 {
      d := Date(1970, 1, 1);
      NextDayIsOneMore(d);
    } else if n > 0 {
      var e := EveryDayHasADate(n - 1);
      NextDayIsOneMore(e);
      d := NextDay(e);
    } else {
      var e := EveryDayHasADate(n + 1);
      d := PreviousDay(e);
    }
  }

  lemma PreviousDay(e: Date) returns (d: Date)
    requires Valid(e)
    ensures Valid(d) && NextDay(d) == e && DaysFromCivil(d) == DaysFromCivil(e) - 1
  {
    d := if e.day > 1 then Date(e.year, e.month, e.day - 1)
         else if e.month > 1 then Date(e.year, e.month - 1, DaysInMonth(e.year, e.month - 1))
         else Date(e.year - 1, 12, 31);
    NextDayIsOneMore(d);
  }
}
