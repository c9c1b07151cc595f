/** On which days the American markets are closed or close early, said of month, day and weekday alone. */
module TradingDays {
  import opened Kernel
  import opened Dates
  import opened Calendar
  import opened Holidays

  // ---- dates and day numbers -------------------------------------------------------------

  lemma {:induction false} MonthOrder(year: int, a: int, b: int)
    requires 1 <= a < b <= 12
    ensures DaysBefore(year, a) + DaysIn(year, a) <= DaysBefore(year, b)
    decreases b
  {
    hide DaysBefore, DaysIn;
    MonthLengths(year, b - 1);
    MonthPositive(year, b - 1);
    if a < b - 1 {
      MonthOrder(year, a, b - 1);
    }
  }

  lemma MonthPositive(year: int, month: int)
    ensures DaysIn(year, month) > 0
  {
  }

  /** A later date has a larger day number. */
  lemma LaterNumber(d: Date, e: Date)
    requires Valid(d) && Valid(e)
    requires d.year < e.year || (d.year == e.year && d.month < e.month)
    ensures DayNumber(d) < DayNumber(e)
  {
    hide DaysBefore, DaysBeforeYear, DaysIn;
    if d.year < e.year {
      InYear(d);
      InYear(e);
      YearOrder(d.year + 1, e.year);
    } else {
      MonthOrder(d.year, d.month, e.month);
    }
  }

  /** A day number belongs to one date. */
  lemma SameNumber(d: Date, e: Date)
    requires Valid(d) && Valid(e) && DayNumber(d) == DayNumber(e)
    ensures d == e
  {
    hide DaysBefore, DaysBeforeYear, DaysIn, DayNumber;
    if d.year != e.year || d.month != e.month {
      if d.year < e.year || (d.year == e.year && d.month < e.month) {
        LaterNumber(d, e);
      } else {
        LaterNumber(e, d);
      }
    } else {
      SameMonthDays(d, e);
    }
  }

  // ---- where a holiday falls -------------------------------------------------------------

  predicate Workday(d: Date) {
    Weekday(d) <= FRIDAY
  }

  /** A fixed date is observed on itself, on the Friday before it or on the Monday after it. */
  predicate ObservedOn(d: Date, month: int, day: int) {
    && d.month == month
    && (|| (d.day == day && Workday(d)) || (d.day == day - 1 && Weekday(d) == FRIDAY)
        || (d.day == day + 1 && Weekday(d) == MONDAY))
  }

  /** The weekday of this month that lies in the seven days from `first` on. */
  predicate InWeek(d: Date, month: int, weekday: int, first: int) {
    d.month == month && Weekday(d) == weekday && first <= d.day < first + 7
  }

  predicate FallsOn(h: Holiday, d: Date) {
    match h
    case NewYearsDay => ObservedOn(d, 1, 1)
    case MartinLutherKingDay => InWeek(d, 1, MONDAY, 15)
    case PresidentsDay => InWeek(d, 2, MONDAY, 15)
    case GoodFridayHoliday => EasterSunday(d.year).Some? && DayNumber(d) + 2 == DayNumber(EasterSunday(d.year).value)
    case MemorialDay => InWeek(d, 5, MONDAY, 25)
    case Juneteenth => ObservedOn(d, 6, 19)
    case IndependenceDay => ObservedOn(d, 7, 4)
    case LaborDay => InWeek(d, 9, MONDAY, 1)
    case Thanksgiving => InWeek(d, 11, THURSDAY, 22)
    case ChristmasDay => ObservedOn(d, 12, 25)
  }

  lemma OnceAWeek(d: Date, e: Date)
    requires d.year == e.year && d.month == e.month && Weekday(d) == Weekday(e) && -7 < e.day - d.day < 7
    ensures d.day == e.day
  {
    SameMonthDays(d, e);
    hide Weekday;
    SevenApart(Weekday(d), e.day - d.day);
  }

  lemma SevenApart(n: int, k: int)
    requires (n + k) % 7 == n && -7 < k < 7
    ensures k == 0
  {
  }

  lemma NthExact(month: int, weekday: int, nth: nat, d: Date)
    requires Valid(d) && 1 <= month <= 12 && 0 <= weekday <= 6 && 1 <= nth <= 4
    ensures NthWeekdayOfMonth(d.year, month, weekday, nth) == Some(d) <==> InWeek(d, month, weekday, 7 * nth - 6)
  {
    hide NthWeekdayOfMonth, Weekday;
    NthWeekdayExact(d.year, month, weekday, nth);
    if InWeek(d, month, weekday, 7 * nth - 6) {
      OnceAWeek(NthWeekdayOfMonth(d.year, month, weekday, nth).value, d);
    }
  }

  lemma MemorialExact(d: Date)
    requires Valid(d)
    ensures LastWeekdayOfMonth(d.year, 5, MONDAY) == Some(d) <==> InWeek(d, 5, MONDAY, 25)
  {
    hide LastWeekdayOfMonth, Weekday;
    LastWeekdayExact(d.year, 5, MONDAY);
    if InWeek(d, 5, MONDAY, 25) {
      OnceAWeek(LastWeekdayOfMonth(d.year, 5, MONDAY).value, d);
    }
  }

  lemma NearWeekday(base: Date, d: Date)
    requires base.year == d.year && base.month == d.month && -1 <= d.day - base.day <= 1
    ensures d.day == base.day - 1 ==> (Weekday(d) == FRIDAY <==> Weekday(base) == SATURDAY)
    ensures d.day == base.day + 1 ==> (Weekday(d) == MONDAY <==> Weekday(base) == SUNDAY)
    ensures d.day == base.day ==> Weekday(d) == Weekday(base)
  {
    SameMonthDays(base, d);
    hide Weekday;
    WeekdaySteps(Weekday(base));
  }

  lemma WeekdayInRange(d: Date)
    ensures 0 <= Weekday(d) <= 6
  {
  }

  lemma WeekdaySteps(w: int)
    requires 0 <= w <= 6
    ensures (w - 1) % 7 == FRIDAY <==> w == SATURDAY
    ensures (w + 1) % 7 == MONDAY <==> w == SUNDAY
    ensures (w + 0) % 7 == w
  {
  }

  lemma ObservedSome(year: int, month: int, day: int)
    requires MIN_YEAR <= year <= MAX_YEAR && 1 <= month <= 12 && 1 < day < DaysIn(year, month)
    ensures ObservedFixedHoliday(year, month, day).Some?
  {
    var base := Date(year, month, day);
    hide Weekday;
    AddWithin(base, -1);
    AddWithin(base, 0);
    AddWithin(base, 1);
  }

  lemma FixedExact(month: int, day: int, d: Date)
    requires Valid(d) && 1 <= month <= 12 && 1 < day < DaysIn(d.year, month)
    ensures ObservedFixedHoliday(d.year, month, day) == Some(d) <==> ObservedOn(d, month, day)
  {
    var base := Date(d.year, month, day);
    ObservedSome(d.year, month, day);
    ObservedNear(d.year, month, day);
    hide ObservedFixedHoliday, Weekday;
    var r := ObservedFixedHoliday(d.year, month, day).value;
    if d.month == month && -1 <= d.day - day <= 1 {
      NearWeekday(base, d);
    }
    NearWeekday(base, r);
  }

  lemma BeforeNewYear(year: int)
    requires MIN_YEAR <= year <= MAX_YEAR
    ensures AddDays(Date(year, 1, 1), -1) ==
      if year == MIN_YEAR then None else Some(Date(year - 1, 12, 31))
  {
    var base := Date(year, 1, 1);
    if MIN_YEAR < year {
      assert Previous(base) == Some(Date(year - 1, 12, 31));
      assert AddDays(base, -1) == AddDays(Date(year - 1, 12, 31), 0);
    } else {
      assert Previous(base) == None;
    }
  }

  /** When New Year's Day is observed. */
  lemma NewYearIs(year: int)
    requires MIN_YEAR <= year <= MAX_YEAR
    ensures ObservedFixedHoliday(year, 1, 1) ==
      if Weekday(Date(year, 1, 1)) == SATURDAY then (if year == MIN_YEAR then None else Some(Date(year - 1, 12, 31)))
      else Some(Date(year, 1, if Weekday(Date(year, 1, 1)) == SUNDAY then 2 else 1))
  {
    var base := Date(year, 1, 1);
    BeforeNewYear(year);
    AddWithin(base, 0);
    AddWithin(base, 1);
    hide Weekday, AddDays;
  }

  lemma NewYearExact(d: Date)
    requires Valid(d)
    ensures ObservedFixedHoliday(d.year, 1, 1) == Some(d) <==> ObservedOn(d, 1, 1)
  {
    var base := Date(d.year, 1, 1);
    hide Weekday, ObservedFixedHoliday;
    NewYearIs(d.year);
    WeekdayInRange(base);
    if d.month == 1 && d.day <= 2 {
      NearWeekday(base, d);
    }
  }

  /** New Year's Day is observed on the last day of the year before when that is a Friday. */
  lemma NextNewYearExact(d: Date)
    requires Valid(d)
    ensures NextNewYear(d) <==> d.month == 12 && d.day == 31 && Weekday(d) == FRIDAY && d.year < MAX_YEAR
  {
    hide Weekday, ObservedFixedHoliday;
    if d.year < MAX_YEAR {
      NewYearIs(d.year + 1);
      EveWeekday(d.year);
    } else {
      NoNextYear(d.year);
    }
  }

  lemma NoNextYear(year: int)
    requires year == MAX_YEAR
    ensures ObservedFixedHoliday(year + 1, 1, 1).None?
  {
    hide Weekday, AddDays;
  }

  lemma EveWeekday(year: int)
    requires MIN_YEAR <= year < MAX_YEAR
    ensures Weekday(Date(year, 12, 31)) == FRIDAY <==> Weekday(Date(year + 1, 1, 1)) == SATURDAY
  {
    NextDay(Date(year, 12, 31));
    WeekdayAfter(Date(year, 12, 31), Date(year + 1, 1, 1), 1);
    hide DayNumber, Weekday;
    WeekdaySteps(Weekday(Date(year + 1, 1, 1)));
    AfterFriday(Weekday(Date(year, 12, 31)));
  }

  lemma AfterFriday(w: int)
    requires 0 <= w <= 6
    ensures (w + 1) % 7 == SATURDAY <==> w == FRIDAY
  {
  }

  lemma EasterInRange(year: int)
    requires EasterSunday(year).Some?
    ensures 0 < year <= MAX_YEAR
  {
    hide EasterSunday;
    if year <= 0 || year > MAX_YEAR {
      NoEaster(year);
    }
  }

  lemma GoodFridayExact(d: Date)
    requires Valid(d)
    ensures GoodFriday(d.year) == Some(d) <==> FallsOn(GoodFridayHoliday, d)
  {
    hide EasterSunday, DayNumber, GoodFriday;
    GoodFridayIsFriday(d.year);
    if FallsOn(GoodFridayHoliday, d) {
      EasterInRange(d.year);
      SameNumber(d, GoodFriday(d.year).value);
    }
  }

  /** A holiday of a year is a day exactly when it falls on that day. */
  lemma HolidayExact(h: Holiday, d: Date)
    requires Valid(d)
    ensures HolidayDate(h, d.year) == Some(d) <==> FallsOn(h, d)
  {
    hide ObservedFixedHoliday, NthWeekdayOfMonth, LastWeekdayOfMonth, GoodFriday, InWeek, ObservedOn, DayNumber;
    match h
    case NewYearsDay => NewYearExact(d);
    case MartinLutherKingDay => NthExact(1, MONDAY, 3, d);
    case PresidentsDay => NthExact(2, MONDAY, 3, d);
    case GoodFridayHoliday => GoodFridayExact(d);
    case MemorialDay => MemorialExact(d);
    case Juneteenth => FixedExact(6, 19, d);
    case IndependenceDay => FixedExact(7, 4, d);
    case LaborDay => NthExact(9, MONDAY, 1, d);
    case Thanksgiving => NthExact(11, THURSDAY, 4, d);
    case ChristmasDay => FixedExact(12, 25, d);
  }

  /** The months a holiday can fall in. */
  lemma HolidayMonth(h: Holiday, d: Date)
    requires Valid(d) && FallsOn(h, d)
    ensures match h
      case NewYearsDay => d.month == 1 && d.day <= 2
      case MartinLutherKingDay => d.month == 1 && d.day >= 15
      case PresidentsDay => d.month == 2
      case GoodFridayHoliday => d.month == 3 || d.month == 4
      case MemorialDay => d.month == 5
      case Juneteenth => d.month == 6
      case IndependenceDay => d.month == 7
      case LaborDay => d.month == 9
      case Thanksgiving => d.month == 11
      case ChristmasDay => d.month == 12
  {
    hide Weekday, HolidayDate;
    if h == GoodFridayHoliday {
      HolidayExact(h, d);
      HolidayPlace(h, d.year);
    }
  }

  /** No two holidays fall on one day. */
  lemma OneHoliday(g: Holiday, h: Holiday, d: Date)
    requires Valid(d) && FallsOn(g, d) && FallsOn(h, d)
    ensures g == h
  {
    hide FallsOn;
    HolidayMonth(g, d);
    HolidayMonth(h, d);
  }

  lemma HolidayListed(h: Holiday, d: Date)
    requires HolidayDate(h, d.year) == Some(d)
    ensures HolidayOn(d).Some?
  {
    hide HolidayDate;
    match h
    case _ =>
  }

  /** The markets are closed for a holiday exactly on the day it falls on, and for New Year's Day also on the last day
      of a year that is a Friday. */
  lemma HolidaysExact(d: Date, h: Holiday)
    requires Valid(d)
    ensures HolidayOn(d) == Some(h) <==> FallsOn(h, d)
    ensures Holidays.Holidays(d) <==>
      || (d.month == 12 && d.day == 31 && Weekday(d) == FRIDAY && d.year < MAX_YEAR)
      || exists g :: FallsOn(g, d)
  {
    hide FallsOn, HolidayOn, NextNewYear, HolidayDate, Weekday;
    NextNewYearExact(d);
    HolidayExact(h, d);
    if FallsOn(h, d) {
      HolidayListed(h, d);
    }
    if HolidayOn(d).Some? {
      var g := HolidayOn(d).value;
      HolidayOnIs(d);
      HolidayExact(g, d);
      if FallsOn(h, d) {
        OneHoliday(g, h, d);
      }
    }
    if g :| FallsOn(g, d) {
      HolidayExact(g, d);
      HolidayListed(g, d);
    }
  }

  // ---- early closes ----------------------------------------------------------------------

  predicate ClosesEarly(d: Date) {
    || (d.month == 7 && d.day == 3 && Weekday(d) <= THURSDAY)
    || (d.month == 7 && d.day == 2 && (Weekday(d) == THURSDAY || Weekday(d) == FRIDAY))
    || InWeek(d, 11, FRIDAY, 23)
    || (d.month == 12 && d.day == 24 && Weekday(d) <= THURSDAY)
  }

  lemma EveExact(d: Date)
    requires Valid(d)
    ensures IndependenceEarlyClose(d) <==>
      || (d.month == 7 && d.day == 3 && Weekday(d) <= THURSDAY)
      || (d.month == 7 && d.day == 2 && (Weekday(d) == THURSDAY || Weekday(d) == FRIDAY))
  {
    var fourth := Date(d.year, 7, 4);
    hide Weekday;
    AddWithin(fourth, -1);
    AddWithin(fourth, -2);
    if d.month == 7 && 2 <= d.day <= 3 {
      SameMonthDays(fourth, d);
      BeforeFourth(Weekday(fourth));
    }
  }

  lemma BeforeFourth(w: int)
    requires 0 <= w <= 6
    ensures w >= SATURDAY <==> (w - 2) % 7 == THURSDAY || (w - 2) % 7 == FRIDAY
    ensures w < SATURDAY && (w - 1) % 7 < SATURDAY <==> (w - 1) % 7 <= THURSDAY
  {
  }

  lemma BlackFridayExact(d: Date)
    requires Valid(d)
    ensures BlackFriday(d) <==> InWeek(d, 11, FRIDAY, 23)
  {
    hide NthWeekdayOfMonth, Weekday, DayNumber;
    NthWeekdayExact(d.year, 11, THURSDAY, 4);
    var thanksgiving := NthWeekdayOfMonth(d.year, 11, THURSDAY, 4).value;
    AddWithin(thanksgiving, 1);
    hide AddDays;
    var friday := thanksgiving.(day := thanksgiving.day + 1);
    SameMonthDays(thanksgiving, friday);
    if InWeek(d, 11, FRIDAY, 23) {
      OnceAWeek(friday, d);
    }
  }

  lemma ChristmasEveExact(d: Date)
    requires Valid(d)
    ensures ChristmasEveEarlyClose(d) <==> d.month == 12 && d.day == 24 && Weekday(d) <= THURSDAY
  {
    hide ObservedFixedHoliday, Weekday;
    FixedExact(12, 25, d);
    WeekdayInRange(d);
  }

  /** The markets close early exactly on these days. */
  lemma EarlyCloseExact(d: Date)
    requires Valid(d)
    ensures EarlyCloseReason(d).Some? <==> ClosesEarly(d)
  {
    hide IndependenceEarlyClose, BlackFriday, ChristmasEveEarlyClose, InWeek, Weekday;
    EveExact(d);
    BlackFridayExact(d);
    ChristmasEveExact(d);
  }
}
