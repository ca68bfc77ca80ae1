/**
 * Calendar days as the views see them through JavaScript's Date object, at
 * day granularity: proleptic Gregorian calendar, 1-indexed months, and the
 * ECMAScript day numbering (day 0 is 1970-01-01, a Thursday).
 */
module CivilDate {

  /** A calendar day; `month` is 1-indexed (getMonth() + 1), `day` is getDate(). */
  datatype Date = Date(year: int, month: int, day: int)

  predicate IsLeapYear(y: int) {
    y % 4 == 0 && (y % 100 != 0 || y % 400 == 0)
  }

  function DaysInMonth(y: int, m: int): (n: int)
    requires 1 <= m <= 12
    ensures 28 <= n <= 31
    ensures m == 2 ==> (n == 29 <==> IsLeapYear(y))
  {
    if m == 2 then (if IsLeapYear(y) then 29 else 28)
    else if m == 4 || m == 6 || m == 9 || m == 11 then 30
    else 31
  }

  /** A date that names an existing day. */
  predicate Valid(d: Date) {
    1 <= d.month <= 12 && 1 <= d.day <= DaysInMonth(d.year, d.month)
  }

  function YearLength(y: int): int {
    if IsLeapYear(y) then 366 else 365
  }

  /** The day number of January 1 of year `y`, counted out year by year from 1970. */
  function DayFromYear(y: int): int
    decreases if y < 1970 then 1970 - y else y - 1970
  {
    if y == 1970 then 0
    else if y > 1970 then DayFromYear(y - 1) + YearLength(y - 1)
    else DayFromYear(y + 1) - YearLength(y)
  }

  /**
   * ECMAScript DayFromYear in the standard's closed form. Its divisions round
   * down, which is what `/` does for a positive divisor.
   */
  function EcmaDayFromYear(y: int): int {
    365 * (y - 1970) + (y - 1969) / 4 - (y - 1901) / 100 + (y - 1601) / 400
  }

  /** Days of year `y` that lie before the first of month `m` (13 means the year's end). */
  function DaysBeforeMonth(y: int, m: int): int
    requires 1 <= m <= 13
  {
    var leap := if IsLeapYear(y) && m > 2 then 1 else 0;
    leap +
    (if m == 1 then 0 else if m == 2 then 31 else if m == 3 then 59
     else if m == 4 then 90 else if m == 5 then 120 else if m == 6 then 151
     else if m == 7 then 181 else if m == 8 then 212 else if m == 9 then 243
     else if m == 10 then 273 else if m == 11 then 304 else if m == 12 then 334
     else 365)
  }

  /** ECMAScript Day(t) of local midnight on `d`. */
  function DayNumber(d: Date): int
    requires 1 <= d.month <= 12
  {
    DayFromYear(d.year) + DaysBeforeMonth(d.year, d.month) + d.day - 1
  }

  /** Date.prototype.getDay: 0 is Sunday, 6 is Saturday. */
  function WeekDay(d: Date): (w: int)
    requires Valid(d)
    ensures 0 <= w < 7
  {
    (DayNumber(d) + 4) % 7
  }

  /** The JavaScript comparison `a <= b` on two dates at midnight: the same day or earlier in the calendar. */
  predicate NotAfter(a: Date, b: Date)
    requires Valid(a) && Valid(b)
    ensures NotAfter(a, b) <==> (a == b || LexBefore(a, b))
  {
    DayNumberIsCalendarOrder(a, b);
    DayNumber(a) <= DayNumber(b)
  }

  /** Lexicographic order on (year, month, day). */
  predicate LexBefore(a: Date, b: Date) {
    a.year < b.year
    || (a.year == b.year && a.month < b.month)
    || (a.year == b.year && a.month == b.month && a.day < b.day)
  }

  /** `d.setDate(d.getDate() + 1)`: the next day, rolling over months and years. */
  function Succ(d: Date): (r: Date)
    requires Valid(d)
    ensures Valid(r)
    ensures DayNumber(r) == DayNumber(d) + 1
  {
    YearStep(d.year);
    MonthStep(d.year, d.month);
    if d.day < DaysInMonth(d.year, d.month) then Date(d.year, d.month, d.day + 1)
    else if d.month < 12 then Date(d.year, d.month + 1, 1)
    else Date(d.year + 1, 1, 1)
  }

  /** `d.setDate(d.getDate() - 1)`: the previous day, rolling back months and years. */
  function Pred(d: Date): (r: Date)
    requires Valid(d)
    ensures Valid(r)
    ensures DayNumber(r) == DayNumber(d) - 1
  {
    YearStep(d.year - 1);
    MonthStep(d.year, if d.month > 1 then d.month - 1 else 1);
    if d.day > 1 then Date(d.year, d.month, d.day - 1)
    else if d.month > 1 then Date(d.year, d.month - 1, DaysInMonth(d.year, d.month - 1))
    else Date(d.year - 1, 12, 31)
  }

  /** Moves `n` days forward (or back, for negative `n`), one day at a time. */
  function AddDays(d: Date, n: int): (r: Date)
    requires Valid(d)
    ensures Valid(r)
    ensures DayNumber(r) == DayNumber(d) + n
    decreases if n < 0 then -n else n
  {
    if n == 0 then d
    else if n > 0 then AddDays(Succ(d), n - 1)
    else AddDays(Pred(d), n + 1)
  }

  /** The year argument of `new Date(y, m, d)`: 0..99 stand for 1900..1999. */
  function ConstructorYear(y: int): (r: int)
    ensures 0 <= y <= 99 ==> r == 1900 + y
    ensures !(0 <= y <= 99) ==> r == y
  {
    if 0 <= y <= 99 then 1900 + y else y
  }

  /**
   * `new Date(year, monthIndex, day)` at day granularity: an out-of-range month
   * carries into the year and an out-of-range day carries into the month, as
   * ECMAScript MakeDay does.
   */
  function Construct(year: int, monthIndex: int, day: int): (r: Date)
    ensures Valid(r)
    ensures var y := ConstructorYear(year) + monthIndex / 12;
            DayNumber(r) == DayFromYear(y) + DaysBeforeMonth(y, monthIndex % 12 + 1) + day - 1
  {
    var y := ConstructorYear(year) + monthIndex / 12;
    AddDays(Date(y, monthIndex % 12 + 1, 1), day - 1)
  }

  // ---------------------------------------------------------------------------
  // Day numbers

  lemma DivStep(x: int)
    ensures (x + 1) / 4 == x / 4 + (if (x + 1) % 4 == 0 then 1 else 0)
    ensures (x + 1) / 100 == x / 100 + (if (x + 1) % 100 == 0 then 1 else 0)
    ensures (x + 1) / 400 == x / 400 + (if (x + 1) % 400 == 0 then 1 else 0)
  {
  }

  lemma ModShift4(y: int)
    ensures (y - 1968) % 4 == y % 4
  {
  }

  lemma ModShift100(y: int)
    ensures (y - 1900) % 100 == y % 100
  {
  }

  lemma ModShift400(y: int)
    ensures (y - 1600) % 400 == y % 400
  {
  }

  lemma Divides(y: int)
    ensures y % 400 == 0 ==> y % 100 == 0
    ensures y % 100 == 0 ==> y % 4 == 0
  {
  }

  /** The days before the next month are those before this one and this month's. */
  lemma MonthStep(y: int, m: int)
    requires 1 <= m <= 12
    ensures DaysBeforeMonth(y, m + 1) == DaysBeforeMonth(y, m) + DaysInMonth(y, m)
    ensures DaysBeforeMonth(y, 13) == YearLength(y)
  {
  }

  /** A year later, the day number of January 1 has grown by the length of the year. */
  lemma YearStep(y: int)
    ensures DayFromYear(y + 1) == DayFromYear(y) + YearLength(y)
  {
  }

  /** The closed form grows by the length of the year, as the count does. */
  lemma EcmaYearStep(y: int)
    ensures EcmaDayFromYear(y + 1) == EcmaDayFromYear(y) + YearLength(y)
  {
    DivStep(y - 1969);
    DivStep(y - 1901);
    DivStep(y - 1601);
    ModShift4(y);
    ModShift100(y);
    ModShift400(y);
    Divides(y);
    var a := (y - 1968) / 4 - (y - 1969) / 4;
    var b := (y - 1900) / 100 - (y - 1901) / 100;
    var c := (y - 1600) / 400 - (y - 1601) / 400;
    assert EcmaDayFromYear(y + 1) == EcmaDayFromYear(y) + 365 + a - b + c;
  }

  /** Counting the years out agrees with the standard's closed form. */
  lemma {:induction false} DayFromYearIsEcma(y: int)
    ensures DayFromYear(y) == EcmaDayFromYear(y)
    decreases if y < 1970 then 1970 - y else y - 1970
  {
    if y > 1970 {
      DayFromYearIsEcma(y - 1);
      EcmaYearStep(y - 1);
    } else if y < 1970 {
      DayFromYearIsEcma(y + 1);
      EcmaYearStep(y);
    }
  }

  lemma {:induction false} DayFromYearMonotone(x: int, y: int)
    requires x < y
    ensures DayFromYear(x) + YearLength(x) <= DayFromYear(y)
    decreases y - x
  {
    YearStep(x);
    if x + 1 < y {
      DayFromYearMonotone(x + 1, y);
    }
  }

  lemma DayInYear(d: Date)
    requires Valid(d)
    ensures DayFromYear(d.year) <= DayNumber(d) < DayFromYear(d.year) + YearLength(d.year)
  {
  }

  /** Day numbers follow the calendar order: a later day has a larger number. */
  lemma LexBeforeDayNumber(a: Date, b: Date)
    requires Valid(a) && Valid(b)
    requires LexBefore(a, b)
    ensures DayNumber(a) < DayNumber(b)
  {
    DayInYear(a);
    DayInYear(b);
    if a.year < b.year {
      DayFromYearMonotone(a.year, b.year);
    }
  }

  /** Different valid dates have different day numbers. */
  lemma DayNumberInjective(a: Date, b: Date)
    requires Valid(a) && Valid(b)
    requires DayNumber(a) == DayNumber(b)
    ensures a == b
  {
    if LexBefore(a, b) {
      LexBeforeDayNumber(a, b);
    } else if LexBefore(b, a) {
      LexBeforeDayNumber(b, a);
    }
  }

  /** Day numbers are ordered as the calendar is. */
  lemma DayNumberIsCalendarOrder(a: Date, b: Date)
    requires Valid(a) && Valid(b)
    ensures DayNumber(a) <= DayNumber(b) <==> (a == b || LexBefore(a, b))
  {
    if LexBefore(a, b) {
      LexBeforeDayNumber(a, b);
    } else if LexBefore(b, a) {
      LexBeforeDayNumber(b, a);
    }
  }

  /** Predecessor and successor undo each other. */
  lemma SuccPred(d: Date)
    requires Valid(d)
    ensures Pred(Succ(d)) == d
    ensures Succ(Pred(d)) == d
  {
    DayNumberInjective(Pred(Succ(d)), d);
    DayNumberInjective(Succ(Pred(d)), d);
  }

  /** No day lies strictly between a day and its successor. */
  lemma SuccIsNext(d: Date, e: Date)
    requires Valid(d) && Valid(e)
    requires NotAfter(d, e) && d != e
    ensures NotAfter(Succ(d), e)
  {
    if DayNumber(d) == DayNumber(e) {
      DayNumberInjective(d, e);
    }
  }

  /** The weekday advances by one, modulo 7, with every day. */
  lemma WeekDayShift(a: Date, b: Date, n: int)
    requires Valid(a) && Valid(b) && DayNumber(b) == DayNumber(a) + n
    ensures WeekDay(b) == (WeekDay(a) + n) % 7
  {
    ModAdd(DayNumber(a) + 4, n);
  }

  lemma ModAdd(x: int, n: int)
    ensures (x + n) % 7 == (x % 7 + n) % 7
  {
  }

  /** `new Date(y, m - 1, d)` is the identity on valid dates with y outside 0..99. */
  lemma ConstructValid(d: Date)
    requires Valid(d)
    requires !(0 <= d.year <= 99)
    ensures Construct(d.year, d.month - 1, d.day) == d
  {
    var r := Construct(d.year, d.month - 1, d.day);
    assert (d.month - 1) / 12 == 0 && (d.month - 1) % 12 + 1 == d.month;
    DayNumberInjective(r, d);
  }

  /** `new Date(y, 1, 31)` is 2 March in a leap year. */
  lemma ThirtyFirstOfFebruary(y: int)
    requires IsLeapYear(y) && !(0 <= y <= 99)
    ensures Construct(y, 1, 31) == Date(y, 3, 2)
  {
    var r := Construct(y, 1, 31);
    assert ConstructorYear(y) + 1 / 12 == y && 1 % 12 + 1 == 2;
    assert DayNumber(r) == DayFromYear(y) + 61;
    DayNumberInjective(r, Date(y, 3, 2));
  }

  // ---------------------------------------------------------------------------
  // A weekday

  /** January 1, 2024 is a Monday. */
  lemma FirstOfJanuary2024()
    ensures WeekDay(Date(2024, 1, 1)) == 1
  {
    assert DayFromYear(2024) == EcmaDayFromYear(2024) by { DayFromYearIsEcma(2024); }
  }
}
