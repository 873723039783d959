/** Proleptic Gregorian calendar dates as the budget manager reads and writes them:
    ISO 8601 calendar dates `YYYY-MM-DD` (section 4.1.2.2 of ISO 8601:2004), parsed
    into Python `datetime` values whose years run from 1 to 9999. */
module Dates {
  import opened Wrappers

  /** A date as written in the ledger. A triple that is not `IsValid` stands for a
      stored string that `strptime` rejects. */
  datatype Date = Date(year: int, month: int, day: int)

  /** The ways Python's date handling fails in the modelled code:
      `strptime` rejects the text (ValueError), `replace` names a day that
      does not exist (ValueError), `timedelta` arithmetic leaves years 1..9999
      (OverflowError). */
  datatype DateError = Malformed | NoSuchDate | Overflow

  const MinYear: int := 1
  const MaxYear: int := 9999
  const FirstDate: Date := Date(MinYear, 1, 1)
  const LastDate: Date := Date(MaxYear, 12, 31)

  predicate IsLeapYear(y: int)
  {
    y % 4 == 0 && (y % 100 != 0 || y % 400 == 0)
  }

  function DaysInMonth(y: int, m: int): int
  {
    if m == 2 then (if IsLeapYear(y) then 29 else 28)
    else if m == 4 || m == 6 || m == 9 || m == 11 then 30
    else 31
  }

  function DaysInYear(y: int): int
  {
    if IsLeapYear(y) then 366 else 365
  }

  /** The dates a Python `date` can hold. */
  predicate IsValid(d: Date)
  {
    && MinYear <= d.year <= MaxYear
    && 1 <= d.month <= 12
    && 1 <= d.day <= DaysInMonth(d.year, d.month)
  }

  /** Calendar order: year, then month, then day. */
  predicate Before(a: Date, b: Date)
  {
    || a.year < b.year
    || (a.year == b.year && a.month < b.month)
    || (a.year == b.year && a.month == b.month && a.day < b.day)
  }

  predicate NotAfter(a: Date, b: Date)
  {
    a == b || Before(a, b)
  }

  /** Days in the years before `y` (the ordinal count of `date.toordinal`). */
  function DaysBeforeYear(y: int): int
    requires y >= 1
  {
    var p := y - 1;
    365 * p + p / 4 - p / 100 + p / 400
  }

  /** Days in the months of year `y` before month `m`. */
  function DaysBeforeMonth(y: int, m: int): int
    requires 1 <= m <= 12
  {
    var common :=
      if m == 1 then 0 else if m == 2 then 31 else if m == 3 then 59
      else if m == 4 then 90 else if m == 5 then 120 else if m == 6 then 151
      else if m == 7 then 181 else if m == 8 then 212 else if m == 9 then 243
      else if m == 10 then 273 else if m == 11 then 304 else 334;
    if m > 2 && IsLeapYear(y) then common + 1 else common
  }

  /** The proleptic Gregorian ordinal: 0001-01-01 is day 1. This is the reference
      against which day arithmetic is stated. */
  function DayNumber(d: Date): int
    requires IsValid(d)
  {
    DaysBeforeYear(d.year) + DaysBeforeMonth(d.year, d.month) + d.day
  }

  lemma YearStep(y: int)
    requires y >= 1
    ensures DaysBeforeYear(y + 1) == DaysBeforeYear(y) + DaysInYear(y)
  {
    YearGap(y);
    LeapCorrections(y);
  }

  /** Consecutive years start 365 days apart, plus one for each of the
      multiples of 4 and 400, minus one for a multiple of 100, that `y` is. */
  lemma YearGap(y: int)
    requires y >= 1
    ensures DaysBeforeYear(y + 1) - DaysBeforeYear(y)
            == 365 + (if y % 4 == 0 then 1 else 0) - (if y % 100 == 0 then 1 else 0) + (if y % 400 == 0 then 1 else 0)
  {
    StepOver4(y - 1);
    StepOver100(y - 1);
    StepOver400(y - 1);
  }

  /** The Gregorian rule, written as the same corrections. */
  lemma LeapCorrections(y: int)
    ensures DaysInYear(y)
            == 365 + (if y % 4 == 0 then 1 else 0) - (if y % 100 == 0 then 1 else 0) + (if y % 400 == 0 then 1 else 0)
  {
    if y % 400 == 0 {
      Multiple400(y);
    } else if y % 100 == 0 {
      Multiple100(y);
    }
  }

  lemma Multiple400(y: int)
    requires y % 400 == 0
    ensures y % 100 == 0 && y % 4 == 0
  {
    var q := y / 400;
    assert y == 400 * q;
    var hundreds, fours := 4 * q, 100 * q;
    assert y == 100 * hundreds && y == 4 * fours;
  }

  lemma Multiple100(y: int)
    requires y % 100 == 0
    ensures y % 4 == 0
  {
    var q := y / 100;
    assert y == 4 * (25 * q);
  }

  /** Counting up by one passes a multiple of 4, 100 or 400 exactly when it
      lands on one. */
  lemma StepOver4(p: int)
    requires p >= 0
    ensures (p + 1) / 4 == p / 4 + (if (p + 1) % 4 == 0 then 1 else 0)
  {
  }

  lemma StepOver100(p: int)
    requires p >= 0
    ensures (p + 1) / 100 == p / 100 + (if (p + 1) % 100 == 0 then 1 else 0)
  {
  }

  lemma StepOver400(p: int)
    requires p >= 0
    ensures (p + 1) / 400 == p / 400 + (if (p + 1) % 400 == 0 then 1 else 0)
  {
  }

  lemma MonthStep(y: int, m: int)
    requires 1 <= m < 12
    ensures DaysBeforeMonth(y, m + 1) == DaysBeforeMonth(y, m) + DaysInMonth(y, m)
  {
  }

  lemma {:induction false} YearsGrow(y1: int, y2: int)
    requires 1 <= y1 < y2
    ensures DaysBeforeYear(y1 + 1) <= DaysBeforeYear(y2)
    decreases y2 - y1
  {
    if y1 + 1 < y2 {
      YearsGrow(y1 + 1, y2);
      YearStep(y1 + 1);
    }
  }

  lemma MonthsGrow(y: int, m1: int, m2: int)
    requires 1 <= m1 < m2 <= 12
    ensures DaysBeforeMonth(y, m1) + DaysInMonth(y, m1) <= DaysBeforeMonth(y, m2)
  {
  }

  lemma WithinYear(d: Date)
    requires IsValid(d)
    ensures DayNumber(d) <= DaysBeforeYear(d.year) + DaysInYear(d.year)
  {
  }

  /** Calendar order and ordinal order agree on valid dates. */
  lemma OrderIsDayOrder(a: Date, b: Date)
    requires IsValid(a) && IsValid(b)
    ensures Before(a, b) <==> DayNumber(a) < DayNumber(b)
    ensures a == b <==> DayNumber(a) == DayNumber(b)
  {
    if Before(a, b) {
      BeforeHasSmallerNumber(a, b);
    } else if Before(b, a) {
      BeforeHasSmallerNumber(b, a);
    }
  }

  lemma BeforeHasSmallerNumber(a: Date, b: Date)
    requires IsValid(a) && IsValid(b) && Before(a, b)
    ensures DayNumber(a) < DayNumber(b)
  {
    if a.year < b.year {
      WithinYear(a);
      YearStep(a.year);
      if a.year + 1 < b.year {
        YearsGrow(a.year, b.year);
      }
    } else if a.month < b.month {
      MonthsGrow(a.year, a.month, b.month);
    }
  }

  lemma NotAfterLast(d: Date)
    requires IsValid(d)
    ensures NotAfter(d, LastDate) && DayNumber(d) <= DayNumber(LastDate)
  {
    OrderIsDayOrder(d, LastDate);
  }

  lemma NotBeforeFirst(d: Date)
    requires IsValid(d)
    ensures NotAfter(FirstDate, d) && DayNumber(FirstDate) <= DayNumber(d)
  {
    OrderIsDayOrder(FirstDate, d);
  }

  /** `date + timedelta(days=1)`. */
  function NextDay(d: Date): (r: Result<Date, DateError>)
    requires IsValid(d)
    ensures r.Err? <==> d == LastDate
    ensures r.Err? ==> r.error == Overflow
    ensures r.Ok? ==> IsValid(r.value) && Before(d, r.value)
    ensures r.Ok? ==> DayNumber(r.value) == DayNumber(d) + 1
  {
    if d.day < DaysInMonth(d.year, d.month) then
      Ok(Date(d.year, d.month, d.day + 1))
    else if d.month < 12 then
      MonthStep(d.year, d.month);
      Ok(Date(d.year, d.month + 1, 1))
    else if d.year < MaxYear then
      YearStep(d.year);
      Ok(Date(d.year + 1, 1, 1))
    else
      Err(Overflow)
  }

  /** `date - timedelta(days=1)`. */
  function PrevDay(d: Date): (r: Result<Date, DateError>)
    requires IsValid(d)
    ensures r.Err? <==> d == FirstDate
    ensures r.Err? ==> r.error == Overflow
    ensures r.Ok? ==> IsValid(r.value) && Before(r.value, d)
    ensures r.Ok? ==> DayNumber(r.value) == DayNumber(d) - 1
  {
    if d.day > 1 then
      Ok(Date(d.year, d.month, d.day - 1))
    else if d.month > 1 then
      MonthStep(d.year, d.month - 1);
      Ok(Date(d.year, d.month - 1, DaysInMonth(d.year, d.month - 1)))
    else if d.year > MinYear then
      YearStep(d.year - 1);
      Ok(Date(d.year - 1, 12, 31))
    else
      Err(Overflow)
  }

  /** `date + timedelta(days=n)`: the date `n` ordinals later, or an overflow
      exactly when that ordinal lies beyond 9999-12-31. */
  function AddDays(d: Date, n: nat): (r: Result<Date, DateError>)
    requires IsValid(d)
    ensures r.Ok? ==> IsValid(r.value) && DayNumber(r.value) == DayNumber(d) + n
    ensures r.Err? <==> DayNumber(d) + n > DayNumber(LastDate)
    ensures r.Err? ==> r.error == Overflow
    decreases n
  {
    if n == 0 then
      NotAfterLast(d);
      Ok(d)
    else
      match NextDay(d)
      case Err(e) => Err(e)
      case Ok(next) => AddDays(next, n - 1)
  }

  /** A positive number of days always lands strictly later. */
  lemma AddDaysIsLater(d: Date, n: nat)
    requires IsValid(d) && n > 0 && AddDays(d, n).Ok?
    ensures Before(d, AddDays(d, n).value)
  {
    OrderIsDayOrder(d, AddDays(d, n).value);
  }

  /** `datetime.replace(year=y, month=m)` keeping the day: no clamping, a day
      the target month lacks (or a year outside 1..9999) is an error. */
  function Replace(d: Date, y: int, m: int): (r: Result<Date, DateError>)
    ensures r.Ok? <==> IsValid(Date(y, m, d.day))
    ensures r.Ok? ==> r.value.day == d.day && r.value.month == m && r.value.year == y
    ensures r.Err? ==> r.error == NoSuchDate
  {
    var e := Date(y, m, d.day);
    if IsValid(e) then Ok(e) else Err(NoSuchDate)
  }
}
