/** Civil dates of the proleptic Gregorian calendar, their day numbers and weekdays. */
module Dates {
  import opened Kernel

  datatype Date = Date(year: int, month: int, day: int)

  const MIN_YEAR := -9999
  const MAX_YEAR := 9999

  const MONDAY := 0
  const THURSDAY := 3
  const FRIDAY := 4
  const SATURDAY := 5
  const SUNDAY := 6

  predicate Leap(year: int) {
    year % 4 == 0 && (year % 100 != 0 || year % 400 == 0)
  }

  function DaysIn(year: int, month: int): int {
    if month == 2 then (if Leap(year) then 29 else 28)
    else if month == 4 || month == 6 || month == 9 || month == 11 then 30
    else 31
  }

  predicate Valid(d: Date) {
    MIN_YEAR <= d.year <= MAX_YEAR && 1 <= d.month <= 12 && 1 <= d.day <= DaysIn(d.year, d.month)
  }

  function MakeDate(year: int, month: int, day: int): (r: Option<Date>)
    ensures r.Some? ==> Valid(r.value)
  {
    if Valid(Date(year, month, day)) then Some(Date(year, month, day)) else None
  }

  /** Days of the year before a month. */
  function DaysBefore(year: int, month: int): int {
    var leap := if Leap(year) then 1 else 0;
    match month
    case 1 => 0
    case 2 => 31
    case 3 => 59 + leap
    case 4 => 90 + leap
    case 5 => 120 + leap
    case 6 => 151 + leap
    case 7 => 181 + leap
    case 8 => 212 + leap
    case 9 => 243 + leap
    case 10 => 273 + leap
    case 11 => 304 + leap
    case _ => 334 + leap
  }

  /** Days before a year, counted from the first of January of year 1. */
  function DaysBeforeYear(year: int): int {
    365 * (year - 1) + (year - 1) / 4 - (year - 1) / 100 + (year - 1) / 400
  }

  /** Day 1 is the first of January of year 1. */
  function DayNumber(d: Date): int {
    DaysBeforeYear(d.year) + DaysBefore(d.year, d.month) + d.day
  }

  function Weekday(d: Date): (w: int)
    ensures 0 <= w <= 6
  {
    (DayNumber(d) - 1) % 7
  }

  predicate Weekend(d: Date) {
    Weekday(d) == SATURDAY || Weekday(d) == SUNDAY
  }

  function Next(d: Date): Option<Date> {
    if d.day < DaysIn(d.year, d.month) then Some(d.(day := d.day + 1))
    else if d.month < 12 then Some(Date(d.year, d.month + 1, 1))
    else if d.year < MAX_YEAR then Some(Date(d.year + 1, 1, 1))
    else None
  }

  function Previous(d: Date): Option<Date> {
    if d.day > 1 then Some(d.(day := d.day - 1))
    else if d.month > 1 then Some(Date(d.year, d.month - 1, DaysIn(d.year, d.month - 1)))
    else if d.year > MIN_YEAR then Some(Date(d.year - 1, 12, 31))
    else None
  }

  lemma MonthLengths(year: int, month: int)
    requires 1 <= month < 12
    ensures DaysBefore(year, month + 1) == DaysBefore(year, month) + DaysIn(year, month)
  {
  }

  /** One for a year that `every` divides. */
  function Hit(year: int, every: int): int
    requires every > 0
  {
    if year % every == 0 then 1 else 0
  }

  lemma FoursStep(y: int)
    ensures (y + 1) / 4 == y / 4 + Hit(y + 1, 4)
  {
  }

  lemma HundredsStep(y: int)
    ensures (y + 1) / 100 == y / 100 + Hit(y + 1, 100)
  {
  }

  lemma FourHundredsStep(y: int)
    ensures (y + 1) / 400 == y / 400 + Hit(y + 1, 400)
  {
  }

  lemma LeapHits(year: int)
    ensures Hit(year, 4) - Hit(year, 100) + Hit(year, 400) == if Leap(year) then 1 else 0
  {
    HundredsAreFours(year);
    FourHundredsAreHundreds(year);
  }

  lemma HundredsAreFours(year: int)
    ensures year % 100 == 0 ==> year % 4 == 0
  {
  }

  lemma FourHundredsAreHundreds(year: int)
    ensures year % 400 == 0 ==> year % 100 == 0
  {
  }

  lemma YearLengths(year: int)
    ensures DaysBeforeYear(year + 1) == DaysBeforeYear(year) + 365 + if Leap(year) then 1 else 0
    ensures DaysBefore(year, 12) + 31 == 365 + if Leap(year) then 1 else 0
  {
    hide Leap, Hit;
    FoursStep(year - 1);
    HundredsStep(year - 1);
    FourHundredsStep(year - 1);
    LeapHits(year);
  }

  lemma FirstOfYear(year: int)
    ensures DaysBefore(year, 1) == 0 && DaysBefore(year, 12) + 31 == 365 + if Leap(year) then 1 else 0
    ensures DaysIn(year, 12) == 31
  {
  }

  /** The day after a date is one day later; only the last day has none. */
  lemma NextDay(d: Date)
    requires Valid(d)
    ensures Next(d).Some? ==> Valid(Next(d).value) && DayNumber(Next(d).value) == DayNumber(d) + 1
    ensures Next(d).None? <==> d == Date(MAX_YEAR, 12, 31)
  {
    if d.month < 12 {
      MonthLengths(d.year, d.month);
    }
    YearLengths(d.year);
    FirstOfYear(d.year);
    FirstOfYear(d.year + 1);
    hide DaysBefore, DaysBeforeYear;
  }

  /** The day before a date is one day earlier; only the first day has none. */
  lemma PreviousDay(d: Date)
    requires Valid(d)
    ensures Previous(d).Some? ==> Valid(Previous(d).value) && DayNumber(Previous(d).value) == DayNumber(d) - 1
    ensures Previous(d).None? <==> d == Date(MIN_YEAR, 1, 1)
  {
    if d.month > 1 {
      MonthLengths(d.year, d.month - 1);
    }
    YearLengths(d.year - 1);
    FirstOfYear(d.year);
    FirstOfYear(d.year - 1);
    hide DaysBefore, DaysBeforeYear;
  }

  lemma SevenDays(n: int, k: int)
    ensures (n + k) % 7 == (n % 7 + k) % 7
  {
  }

  /** Weekdays follow each other from day to day. */
  lemma WeekdaysFollow(d: Date)
    requires Valid(d) && Next(d).Some?
    ensures Weekday(Next(d).value) == (Weekday(d) + 1) % 7
  {
    NextDay(d);
    hide DayNumber, Next;
    SevenDays(DayNumber(d) - 1, 1);
  }

  /** They start from the right day: the first of January 2000 was a Saturday. */
  lemma WeekdayAnchor(d: Date)
    requires d == Date(2000, 1, 1)
    ensures Weekday(d) == SATURDAY
  {
    assert DayNumber(d) == 730120;
  }

  lemma {:induction false} YearOrder(a: int, b: int)
    requires a <= b
    ensures DaysBeforeYear(a) <= DaysBeforeYear(b)
    decreases b - a
  {
    if a == b {
    } else {
      YearOrder(a, b - 1);
      YearLengths(b - 1);
      hide DaysBeforeYear;
    }
  }

  lemma InYear(d: Date)
    requires Valid(d)
    ensures DaysBeforeYear(d.year) + 1 <= DayNumber(d) <= DaysBeforeYear(d.year + 1)
  {
    YearLengths(d.year);
    hide DaysBeforeYear;
  }

  /** Every date lies between the first and the last of the calendar. */
  lemma InRange(d: Date)
    requires Valid(d)
    ensures DayNumber(Date(MIN_YEAR, 1, 1)) <= DayNumber(d) <= DayNumber(Date(MAX_YEAR, 12, 31))
  {
    InYear(d);
    YearOrder(MIN_YEAR, d.year);
    YearOrder(d.year + 1, MAX_YEAR + 1);
    YearLengths(MAX_YEAR);
    hide DaysBeforeYear;
  }

  /** The date so many days later, or earlier; there is none exactly when that is past an end of the calendar. */
  function AddDays(d: Date, days: int): (r: Option<Date>)
    requires Valid(d)
    ensures r.Some? ==> Valid(r.value) && DayNumber(r.value) == DayNumber(d) + days
    ensures r.None? <==>
      DayNumber(d) + days < DayNumber(Date(MIN_YEAR, 1, 1)) || DayNumber(d) + days > DayNumber(Date(MAX_YEAR, 12, 31))
    decreases if days < 0 then -days else days
  {
    NextDay(d);
    PreviousDay(d);
    InRange(d);
    if days == 0 then Some(d)
    else if days > 0 then (if Next(d).None? then None else AddDays(Next(d).value, days - 1))
    else (if Previous(d).None? then None else AddDays(Previous(d).value, days + 1))
  }

  /** Within a month only the day changes. */
  lemma {:induction false} AddWithin(d: Date, days: int)
    requires Valid(d) && 1 <= d.day + days <= DaysIn(d.year, d.month)
    ensures AddDays(d, days) == Some(d.(day := d.day + days))
    decreases if days < 0 then -days else days
  {
    hide DayNumber;
    if days > 0 {
      assert Next(d) == Some(d.(day := d.day + 1));
      hide DaysIn;
      AddWithin(d.(day := d.day + 1), days - 1);
    } else if days < 0 {
      assert Previous(d) == Some(d.(day := d.day - 1));
      hide DaysIn;
      AddWithin(d.(day := d.day - 1), days + 1);
    }
  }

  lemma SameMonthDays(d: Date, e: Date)
    requires d.year == e.year && d.month == e.month
    ensures DayNumber(e) - DayNumber(d) == e.day - d.day
    ensures Weekday(e) == (Weekday(d) + (e.day - d.day)) % 7
  {
    assert DayNumber(e) == DayNumber(d) + (e.day - d.day);
    hide DayNumber;
    SevenDays(DayNumber(d) - 1, e.day - d.day);
  }
}
