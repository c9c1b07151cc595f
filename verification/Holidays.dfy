/** The holidays and early closes of the builtin calendar, and the schedule of a day. */
module Holidays {
  import opened Kernel
  import opened Dates
  import opened Calendar

  // ---- holiday rules ---------------------------------------------------------------------

  /** A fixed holiday is observed on the Friday before a Saturday and on the Monday after a Sunday. */
  function ObservedFixedHoliday(year: int, month: int, day: int): Option<Date> {
    var base := MakeDate(year, month, day);
    if base.None? then None
    else if Weekday(base.value) == SATURDAY then AddDays(base.value, -1)
    else if Weekday(base.value) == SUNDAY then AddDays(base.value, 1)
    else AddDays(base.value, 0)
  }

  /** The days from one weekday to the next other one. */
  function DaysUntil(from: int, to: int): int {
    Remainder((to + 1) - (from + 1) + 7, 7)
  }

  function NthWeekdayOfMonth(year: int, month: int, weekday: int, nth: nat): Option<Date> {
    var first := MakeDate(year, month, 1);
    if first.None? then None
    else
      var delta := DaysUntil(Weekday(first.value), weekday);
      AddDays(first.value, delta + 7 * (if nth == 0 then 0 else nth - 1))
  }

  function LastWeekdayOfMonth(year: int, month: int, weekday: int): Option<Date> {
    var next := if month == 12 then MakeDate(year + 1, 1, 1) else MakeDate(year, month + 1, 1);
    if next.None? then None
    else
      var last := AddDays(next.value, -1);
      if last.None? then None
      else AddDays(last.value, -DaysUntil(weekday, Weekday(last.value)))
  }

  function GoodFriday(year: int): Option<Date> {
    if EasterSunday(year).None? then None else AddDays(EasterSunday(year).value, -2)
  }

  /** A day and the day so many weekdays on. */
  lemma WeekdayAfter(d: Date, e: Date, days: int)
    requires DayNumber(e) == DayNumber(d) + days
    ensures Weekday(e) == (Weekday(d) + days) % 7
  {
    hide DayNumber;
    SevenDays(DayNumber(d) - 1, days);
  }

  /** An observed fixed holiday lies next to its date and never on a weekend. */
  lemma ObservedNeverWeekend(year: int, month: int, day: int)
    requires ObservedFixedHoliday(year, month, day).Some?
    ensures var base, observed := Date(year, month, day), ObservedFixedHoliday(year, month, day).value;
      && Valid(base) && Valid(observed) && !Weekend(observed) && -1 <= DayNumber(observed) - DayNumber(base) <= 1
      && (!Weekend(base) ==> observed == base)
  {
    var base, observed := Date(year, month, day), ObservedFixedHoliday(year, month, day).value;
    WeekdayAfter(base, observed, DayNumber(observed) - DayNumber(base));
    hide DayNumber;
  }

  lemma DaysUntilArrives(from: int, to: int)
    requires 0 <= from <= 6 && 0 <= to <= 6
    ensures 0 <= DaysUntil(from, to) <= 6 && (from + DaysUntil(from, to)) % 7 == to
  {
  }

  lemma WeekdayBack(from: int, to: int, delta: int)
    requires 0 <= from <= 6 && (from + delta) % 7 == to
    ensures (to - delta) % 7 == from
  {
  }

  lemma WholeWeeks(n: int, weeks: int)
    ensures (n + 7 * weeks) % 7 == n % 7
  {
  }

  /** The nth weekday of a month, for n up to four, is that weekday, in that month, in the nth week of seven days. */
  lemma NthWeekdayExact(year: int, month: int, weekday: int, nth: nat)
    requires MIN_YEAR <= year <= MAX_YEAR && 1 <= month <= 12 && 0 <= weekday <= 6 && 1 <= nth <= 4
    ensures var r := NthWeekdayOfMonth(year, month, weekday, nth);
      && r.Some? && Valid(r.value) && r.value.year == year && r.value.month == month && Weekday(r.value) == weekday
      && 7 * (nth - 1) < r.value.day <= 7 * nth
  {
    hide Weekday, DaysUntil, DayNumber;
    var first := Date(year, month, 1);
    var delta := DaysUntil(Weekday(first), weekday);
    DaysUntilArrives(Weekday(first), weekday);
    WholeWeeks(Weekday(first) + delta, nth - 1);
    var found := first.(day := 1 + delta + 7 * (nth - 1));
    AddWithin(first, delta + 7 * (nth - 1));
    SameMonthDays(first, found);
  }

  /** The last weekday of a month is that weekday, in the last seven days of that month. */
  lemma LastWeekdayExact(year: int, month: int, weekday: int)
    requires MIN_YEAR <= year <= MAX_YEAR && 1 <= month <= 12 && 0 <= weekday <= 6
    ensures LastWeekdayOfMonth(year, month, weekday).Some? <==> !(year == MAX_YEAR && month == 12)
    ensures var r := LastWeekdayOfMonth(year, month, weekday);
      r.Some? ==>
        && Valid(r.value) && r.value.year == year && r.value.month == month && Weekday(r.value) == weekday
        && DaysIn(year, month) - 7 < r.value.day <= DaysIn(year, month)
  {
    hide LastWeekdayOfMonth, Weekday, DaysUntil, DayNumber;
    if year == MAX_YEAR && month == 12 {
      NoLastWeekday(weekday);
    } else {
      LastWeekdayIs(year, month, weekday);
      var last := Date(year, month, DaysIn(year, month));
      var delta := DaysUntil(weekday, Weekday(last));
      DaysUntilArrives(weekday, Weekday(last));
      SameMonthDays(last, last.(day := last.day - delta));
      WeekdayBack(weekday, Weekday(last), delta);
    }
  }

  lemma NoLastWeekday(weekday: int)
    ensures LastWeekdayOfMonth(MAX_YEAR, 12, weekday) == None
  {
  }

  lemma LastWeekdayIs(year: int, month: int, weekday: int)
    requires MIN_YEAR <= year <= MAX_YEAR && 1 <= month <= 12 && 0 <= weekday <= 6 && !(year == MAX_YEAR && month == 12)
    ensures var last := Date(year, month, DaysIn(year, month));
      var delta := DaysUntil(weekday, Weekday(last));
      Valid(last) && 0 <= delta <= 6 && last.day >= 28
      && LastWeekdayOfMonth(year, month, weekday) == Some(last.(day := last.day - delta))
  {
    hide Weekday, DaysUntil, DayNumber;
    var last := Date(year, month, DaysIn(year, month));
    LastOfMonth(year, month);
    DaysUntilArrives(weekday, Weekday(last));
    AddWithin(last, -DaysUntil(weekday, Weekday(last)));
    hide AddDays;
  }

  /** The day before the first of the next month is the last of this one. */
  lemma LastOfMonth(year: int, month: int)
    requires MIN_YEAR <= year <= MAX_YEAR && 1 <= month <= 12 && !(year == MAX_YEAR && month == 12)
    ensures var next := if month == 12 then Date(year + 1, 1, 1) else Date(year, month + 1, 1);
      Valid(next) && AddDays(next, -1) == Some(Date(year, month, DaysIn(year, month)))
  {
    var next := if month == 12 then Date(year + 1, 1, 1) else Date(year, month + 1, 1);
    var last := Date(year, month, DaysIn(year, month));
    assert Previous(next) == Some(last);
    assert AddDays(last, 0) == Some(last);
  }

  /** Good Friday is a Friday of the same year, two days before Easter. */
  lemma GoodFridayIsFriday(year: int)
    ensures GoodFriday(year).Some? <==> 0 < year <= MAX_YEAR
    ensures GoodFriday(year).Some? ==>
      var d := GoodFriday(year).value;
      && Valid(d) && d.year == year && Weekday(d) == FRIDAY
      && EasterSunday(year).Some? && DayNumber(d) + 2 == DayNumber(EasterSunday(year).value)
      && ((d.month == 3 && d.day >= 20) || (d.month == 4 && d.day <= 23))
  {
    hide EasterSunday, Weekday, DayNumber;
    if 0 < year <= MAX_YEAR {
      EasterIsSunday(year);
      var easter := EasterSunday(year).value;
      BackTwoDays(easter);
      WeekdayAfter(easter, AddDays(easter, -2).value, -2);
    } else {
      NoEaster(year);
    }
  }

  lemma BackTwoDays(d: Date)
    requires Valid(d) && ((d.month == 3 && d.day >= 22) || (d.month == 4 && d.day <= 25))
    ensures var r := AddDays(d, -2);
      && r.Some? && r.value.year == d.year
      && ((r.value.month == 3 && r.value.day >= 20) || (r.value.month == 4 && r.value.day <= 23))
  {
    if d.day > 2 {
      AddWithin(d, -2);
    } else {
      var before := if d.day == 2 then Date(d.year, 4, 1) else Date(d.year, 3, 31);
      assert Previous(d) == Some(before);
      assert AddDays(d, -2) == AddDays(before, -1);
      var r := if d.day == 2 then Date(d.year, 3, 31) else Date(d.year, 3, 30);
      assert Previous(before) == Some(r);
      assert AddDays(before, -1) == AddDays(r, 0);
    }
  }

  // ---- holidays of a year ----------------------------------------------------------------

  datatype Holiday =
    NewYearsDay | MartinLutherKingDay | PresidentsDay | GoodFridayHoliday | MemorialDay | Juneteenth | IndependenceDay
    | LaborDay | Thanksgiving | ChristmasDay

  function HolidayDate(h: Holiday, year: int): Option<Date> {
    match h
    case NewYearsDay => ObservedFixedHoliday(year, 1, 1)
    case MartinLutherKingDay => NthWeekdayOfMonth(year, 1, MONDAY, 3)
    case PresidentsDay => NthWeekdayOfMonth(year, 2, MONDAY, 3)
    case GoodFridayHoliday => GoodFriday(year)
    case MemorialDay => LastWeekdayOfMonth(year, 5, MONDAY)
    case Juneteenth => ObservedFixedHoliday(year, 6, 19)
    case IndependenceDay => ObservedFixedHoliday(year, 7, 4)
    case LaborDay => NthWeekdayOfMonth(year, 9, MONDAY, 1)
    case Thanksgiving => NthWeekdayOfMonth(year, 11, THURSDAY, 4)
    case ChristmasDay => ObservedFixedHoliday(year, 12, 25)
  }

  function BaseDate(h: Holiday, year: int): Option<Date> {
    match h
    case NewYearsDay => MakeDate(year, 1, 1)
    case Juneteenth => MakeDate(year, 6, 19)
    case IndependenceDay => MakeDate(year, 7, 4)
    case ChristmasDay => MakeDate(year, 12, 25)
    case _ => None
  }

  predicate Fixed(h: Holiday) {
    h == NewYearsDay || h == Juneteenth || h == IndependenceDay || h == ChristmasDay
  }

  /** The first holiday of the list that falls on a day. */
  function HolidayOn(day: Date): Option<Holiday> {
    if HolidayDate(NewYearsDay, day.year) == Some(day) then Some(NewYearsDay)
    else if HolidayDate(MartinLutherKingDay, day.year) == Some(day) then Some(MartinLutherKingDay)
    else if HolidayDate(PresidentsDay, day.year) == Some(day) then Some(PresidentsDay)
    else if HolidayDate(GoodFridayHoliday, day.year) == Some(day) then Some(GoodFridayHoliday)
    else if HolidayDate(MemorialDay, day.year) == Some(day) then Some(MemorialDay)
    else if HolidayDate(Juneteenth, day.year) == Some(day) then Some(Juneteenth)
    else if HolidayDate(IndependenceDay, day.year) == Some(day) then Some(IndependenceDay)
    else if HolidayDate(LaborDay, day.year) == Some(day) then Some(LaborDay)
    else if HolidayDate(Thanksgiving, day.year) == Some(day) then Some(Thanksgiving)
    else if HolidayDate(ChristmasDay, day.year) == Some(day) then Some(ChristmasDay)
    else None
  }

  function Observed(h: Holiday, day: Date): bool {
    BaseDate(h, day.year) != Some(day) && Fixed(h)
  }

  /** New Year's Day of the next year, observed on the last day of this one. */
  predicate NextNewYear(day: Date) {
    ObservedFixedHoliday(day.year + 1, 1, 1) == Some(day)
  }

  predicate Holidays(day: Date) {
    NextNewYear(day) || HolidayOn(day).Some?
  }

  function IndependenceEve(year: int): Option<Date> {
    var fourth := MakeDate(year, 7, 4);
    if fourth.None? then None
    else AddDays(fourth.value, if Weekend(fourth.value) then -2 else -1)
  }

  predicate IndependenceEarlyClose(day: Date) {
    IndependenceEve(day.year) == Some(day) && !Weekend(day)
  }

  predicate BlackFriday(day: Date) {
    var thanksgiving := NthWeekdayOfMonth(day.year, 11, THURSDAY, 4);
    thanksgiving.Some? && AddDays(thanksgiving.value, 1) == Some(day)
  }

  predicate ChristmasEveEarlyClose(day: Date) {
    day.month == 12 && day.day == 24 && !Weekend(day) && ObservedFixedHoliday(day.year, 12, 25) != Some(day)
  }

  function EarlyCloseReason(day: Date): Option<string> {
    if IndependenceEarlyClose(day) then Some("independence_day_early_close")
    else if BlackFriday(day) then Some("black_friday_early_close")
    else if ChristmasEveEarlyClose(day) then Some("christmas_eve_early_close")
    else None
  }

  // ---- where they fall -------------------------------------------------------------------

  lemma ObservedNear(year: int, month: int, day: int)
    requires ObservedFixedHoliday(year, month, day).Some? && 1 < day < DaysIn(year, month)
    ensures var r := ObservedFixedHoliday(year, month, day).value;
      && r.year == year && r.month == month && day - 1 <= r.day <= day + 1 && !Weekend(r)
      && (Weekday(Date(year, month, day)) == SATURDAY ==> r.day == day - 1)
      && (Weekday(Date(year, month, day)) == SUNDAY ==> r.day == day + 1)
      && (!Weekend(Date(year, month, day)) ==> r.day == day)
  {
    ObservedNeverWeekend(year, month, day);
    var base := Date(year, month, day);
    hide Weekday;
    AddWithin(base, -1);
    AddWithin(base, 0);
    AddWithin(base, 1);
  }

  lemma ObservedNewYear(year: int)
    requires ObservedFixedHoliday(year, 1, 1).Some?
    ensures var r := ObservedFixedHoliday(year, 1, 1).value;
      && !Weekend(r)
      && (r == Date(year, 1, 1) || r == Date(year, 1, 2) || r == Date(year - 1, 12, 31))
  {
    ObservedNeverWeekend(year, 1, 1);
    var base := Date(year, 1, 1);
    hide Weekday;
    AddWithin(base, 0);
    AddWithin(base, 1);
    if MIN_YEAR < year {
      assert Previous(base) == Some(Date(year - 1, 12, 31));
      assert AddDays(base, -1) == AddDays(Date(year - 1, 12, 31), 0);
    } else {
      assert Previous(base) == None;
      assert AddDays(base, -1) == None;
    }
  }

  /** Where a holiday can fall: none of them on a weekend, and only New Year's Day near the turn of the year. */
  lemma HolidayPlace(h: Holiday, year: int)
    requires MIN_YEAR <= year <= MAX_YEAR && HolidayDate(h, year).Some?
    ensures var r := HolidayDate(h, year).value;
      && Valid(r) && !Weekend(r)
      && match h
         case NewYearsDay => r == Date(year, 1, 1) || r == Date(year, 1, 2) || r == Date(year - 1, 12, 31)
         case MartinLutherKingDay => r.month == 1 && Weekday(r) == MONDAY && 15 <= r.day <= 21
         case PresidentsDay => r.month == 2 && Weekday(r) == MONDAY && 15 <= r.day <= 21
         case GoodFridayHoliday => r.month == 3 || r.month == 4
         case MemorialDay => r.month == 5 && Weekday(r) == MONDAY && 25 <= r.day <= 31
         case Juneteenth => r.month == 6 && 18 <= r.day <= 20
         case IndependenceDay => r.month == 7 && 3 <= r.day <= 5
         case LaborDay => r.month == 9 && Weekday(r) == MONDAY && 1 <= r.day <= 7
         case Thanksgiving => r.month == 11 && Weekday(r) == THURSDAY && 22 <= r.day <= 28
         case ChristmasDay => r.month == 12 && 24 <= r.day <= 26
  {
    hide AddDays, Weekday;
    match h
    case NewYearsDay => ObservedNeverWeekend(year, 1, 1); ObservedNewYear(year);
    case MartinLutherKingDay => NthWeekdayExact(year, 1, MONDAY, 3);
    case PresidentsDay => NthWeekdayExact(year, 2, MONDAY, 3);
    case GoodFridayHoliday => GoodFridayIsFriday(year);
    case MemorialDay => LastWeekdayExact(year, 5, MONDAY);
    case Juneteenth => ObservedNeverWeekend(year, 6, 19); ObservedNear(year, 6, 19);
    case IndependenceDay => ObservedNeverWeekend(year, 7, 4); ObservedNear(year, 7, 4);
    case LaborDay => NthWeekdayExact(year, 9, MONDAY, 1);
    case Thanksgiving => NthWeekdayExact(year, 11, THURSDAY, 4);
    case ChristmasDay => ObservedNeverWeekend(year, 12, 25); ObservedNear(year, 12, 25);
  }

  lemma HolidayOnIs(day: Date)
    requires HolidayOn(day).Some?
    ensures HolidayDate(HolidayOn(day).value, day.year) == Some(day)
  {
    hide HolidayDate;
  }

  /** A full holiday never falls on a weekend. */
  lemma HolidayNeverWeekend(day: Date)
    requires Valid(day) && Holidays(day)
    ensures !Weekend(day)
  {
    if NextNewYear(day) {
      ObservedNewYear(day.year + 1);
    } else {
      HolidayOnIs(day);
      HolidayPlace(HolidayOn(day).value, day.year);
    }
  }

  /** Where an early close can fall. */
  lemma IndependenceEvePlace(day: Date)
    requires Valid(day) && IndependenceEarlyClose(day)
    ensures day.month == 7 && !Weekend(day) && day.day == if Weekend(Date(day.year, 7, 4)) then 2 else 3
  {
    var fourth := Date(day.year, 7, 4);
    hide Weekday;
    AddWithin(fourth, -1);
    AddWithin(fourth, -2);
  }

  lemma BlackFridayPlace(day: Date)
    requires Valid(day) && BlackFriday(day)
    ensures day.month == 11 && Weekday(day) == FRIDAY
  {
    hide NthWeekdayOfMonth, Weekday, DayNumber;
    NthWeekdayExact(day.year, 11, THURSDAY, 4);
    var thanksgiving := NthWeekdayOfMonth(day.year, 11, THURSDAY, 4).value;
    AddWithin(thanksgiving, 1);
    hide AddDays;
    SameMonthDays(thanksgiving, day);
  }

  lemma IndependenceDayApart(day: Date)
    requires Valid(day) && IndependenceEarlyClose(day)
    ensures HolidayDate(IndependenceDay, day.year) != Some(day)
  {
    IndependenceEvePlace(day);
    if ObservedFixedHoliday(day.year, 7, 4).Some? {
      ObservedNear(day.year, 7, 4);
    }
    hide Weekday;
  }

  lemma HolidayIn(h: Holiday, day: Date)
    requires Valid(day) && HolidayDate(h, day.year) == Some(day)
    ensures !Weekend(day)
    ensures day.month == 7 ==> h == IndependenceDay
    ensures day.month == 11 ==> Weekday(day) == THURSDAY
    ensures day.month == 12 ==> h == ChristmasDay || day.day == 31
  {
    HolidayPlace(h, day.year);
    hide Weekday, HolidayDate;
  }

  lemma NextNewYearPlace(day: Date)
    requires Valid(day) && NextNewYear(day)
    ensures !Weekend(day) && day.month == 12 && day.day == 31
  {
    ObservedNewYear(day.year + 1);
    hide Weekday;
  }

  lemma ChristmasIs(year: int)
    ensures HolidayDate(ChristmasDay, year) == ObservedFixedHoliday(year, 12, 25)
  {
    hide ObservedFixedHoliday;
  }

  lemma NoNewYearEve(day: Date)
    requires Valid(day) && (day.month != 12 || day.day != 31)
    ensures !NextNewYear(day)
  {
    hide NextNewYear;
    if NextNewYear(day) {
      NextNewYearPlace(day);
    }
  }

  lemma IndependenceEveNoHoliday(day: Date)
    requires Valid(day) && IndependenceEarlyClose(day)
    ensures !Weekend(day) && !Holidays(day)
  {
    IndependenceEvePlace(day);
    IndependenceDayApart(day);
    hide Weekend, HolidayOn, HolidayDate, NextNewYear, IndependenceEarlyClose;
    NoNewYearEve(day);
    if HolidayOn(day).Some? {
      HolidayOnIs(day);
      HolidayIn(HolidayOn(day).value, day);
    }
  }

  lemma BlackFridayNoHoliday(day: Date)
    requires Valid(day) && BlackFriday(day)
    ensures !Weekend(day) && !Holidays(day)
  {
    BlackFridayPlace(day);
    hide HolidayOn, HolidayDate, NextNewYear, BlackFriday, Weekday;
    NoNewYearEve(day);
    if HolidayOn(day).Some? {
      HolidayOnIs(day);
      HolidayIn(HolidayOn(day).value, day);
    }
  }

  lemma ChristmasEveNoHoliday(day: Date)
    requires Valid(day) && ChristmasEveEarlyClose(day)
    ensures !Weekend(day) && !Holidays(day)
  {
    hide Weekend, HolidayOn, HolidayDate, NextNewYear, ObservedFixedHoliday;
    NoNewYearEve(day);
    ChristmasIs(day.year);
    if HolidayOn(day).Some? {
      HolidayOnIs(day);
      HolidayIn(HolidayOn(day).value, day);
    }
  }

  /** A day that closes early is a weekday and no full holiday. */
  lemma EarlyCloseIsNoHoliday(day: Date)
    requires Valid(day) && EarlyCloseReason(day).Some?
    ensures !Weekend(day) && !Holidays(day)
  {
    hide IndependenceEarlyClose, BlackFriday, ChristmasEveEarlyClose, Weekend, Holidays;
    if IndependenceEarlyClose(day) {
      IndependenceEveNoHoliday(day);
    } else if BlackFriday(day) {
      BlackFridayNoHoliday(day);
    } else {
      ChristmasEveNoHoliday(day);
    }
  }

  // ---- the schedule of a day -------------------------------------------------------------

  datatype Window = Window(kind: string, start: int, end: int)

  datatype Status = Open | Closed | EarlyClose

  datatype Schedule = Schedule(status: Status, reason: string, observed: bool, sessions: seq<Window>)

  function UsSessions(day: Date): seq<Window> {
    var regularEnd := if EarlyCloseReason(day).Some? then 780 else 960;
    var afterEnd := if regularEnd == 780 then 1080 else 1200;
    [Window("overnight", 0, 240), Window("pre", 240, 570), Window("regular", 570, regularEnd),
      Window("after", regularEnd, afterEnd)]
  }

  function HolidayText(h: Holiday): string {
    match h
    case NewYearsDay => "new_years_day"
    case MartinLutherKingDay => "martin_luther_king_jr_day"
    case PresidentsDay => "presidents_day"
    case GoodFridayHoliday => "good_friday"
    case MemorialDay => "memorial_day"
    case Juneteenth => "juneteenth"
    case IndependenceDay => "independence_day"
    case LaborDay => "labor_day"
    case Thanksgiving => "thanksgiving"
    case ChristmasDay => "christmas_day"
  }

  function UsSpecialDay(day: Date): Option<Schedule> {
    if NextNewYear(day) then Some(Schedule(Closed, "new_years_day_observed", true, []))
    else if HolidayOn(day).Some? then
      Some(Schedule(Closed, HolidayText(HolidayOn(day).value), Observed(HolidayOn(day).value, day), []))
    else if EarlyCloseReason(day).Some? then Some(Schedule(EarlyClose, EarlyCloseReason(day).value, false,
      UsSessions(day)))
    else None
  }

  function BuiltinSessions(market: string): seq<Window> {
    if market == "US" then [Window("overnight", 0, 240), Window("pre", 240, 570), Window("regular", 570, 960),
      Window("after", 960, 1200)]
    else if market == "HK" then [Window("regular", 570, 720), Window("regular", 780, 960)]
    else if market == "CN" || market == "SH" || market == "SZ" then
      [Window("regular", 570, 690), Window("regular", 780, 900)]
    else [Window("regular", 570, 960)]
  }

  /** `mainland` is what the table of mainland holidays says of the day. */
  function BuiltinSchedule(market: string, day: Date, mainland: Option<string>): Schedule {
    if Weekend(day) then Schedule(Closed, "weekend", false, [])
    else if market == "US" then
      var special := UsSpecialDay(day);
      if special.Some? then special.value else Schedule(Open, "", false, UsSessions(day))
    else if (market == "CN" || market == "SH" || market == "SZ") && mainland.Some? then
      Schedule(Closed, mainland.value, false, [])
    else Schedule(Open, "", false, BuiltinSessions(market))
  }

  /** Windows one after the other, each of positive length. */
  predicate Ordered(sessions: seq<Window>) {
    && (forall i | 0 <= i < |sessions| :: sessions[i].start < sessions[i].end)
    && (forall i | 0 < i < |sessions| :: sessions[i - 1].end <= sessions[i].start)
  }

  /** Trading from 4:00 over the regular window from 9:30 to `regularEnd`, and for some hours after it. */
  predicate FourWindows(sessions: seq<Window>, regularEnd: int) {
    && |sessions| == 4 && Ordered(sessions)
    && sessions[0].kind == "overnight" && sessions[1].kind == "pre" && sessions[2].kind == "regular"
      && sessions[3].kind == "after"
    && sessions[0].start == 0 && (forall i | 0 < i < 4 :: sessions[i - 1].end == sessions[i].start)
      && sessions[2].end == regularEnd
    && sessions[1].start == 4 * 60 && sessions[2].start == 9 * 60 + 30
    && sessions[3].end == if regularEnd == 13 * 60 then 18 * 60 else 20 * 60
  }

  /** On every day and in every market: closed means no windows, and open windows follow each other. */
  lemma ScheduleCoherent(market: string, day: Date, mainland: Option<string>)
    requires Valid(day)
    ensures var s := BuiltinSchedule(market, day, mainland);
      (s.status == Closed <==> s.sessions == []) && Ordered(s.sessions) && (Weekend(day) ==> s.status == Closed)
  {
    hide Weekend, NextNewYear, HolidayOn, EarlyCloseReason;
  }

  predicate Mainland(market: string) {
    market == "CN" || market == "SH" || market == "SZ"
  }

  /** A day of any other market: closed on weekends, on the mainland also on the holidays of its table, and otherwise
      trading from 9:30 with the lunch break of its market. */
  lemma OtherDayCoherent(market: string, day: Date, mainland: Option<string>)
    requires market != "US"
    ensures var s := BuiltinSchedule(market, day, mainland);
      && (s.status == Closed <==> Weekend(day) || (Mainland(market) && mainland.Some?))
      && s.status != EarlyClose
      && (s.status == Open ==>
          && s.sessions != [] && s.sessions[0].start == 9 * 60 + 30
          && (forall i | 0 <= i < |s.sessions| :: s.sessions[i].kind == "regular")
          && s.sessions[|s.sessions| - 1].end == (if Mainland(market) then 15 * 60 else 16 * 60)
          && (if Mainland(market) || market == "HK" then
                && |s.sessions| == 2 && s.sessions[1].start == 13 * 60
                && s.sessions[0].end == (if Mainland(market) then 11 * 60 + 30 else 12 * 60)
              else |s.sessions| == 1))
  {
    hide Weekend;
  }

  /** The day of the American markets: closed on weekends and full holidays, closing early exactly on early-close days,
      and otherwise trading through four adjoining windows, the regular one ending at 780 only when it closes early. */
  lemma UsDayCoherent(day: Date)
    requires Valid(day)
    ensures var s := BuiltinSchedule("US", day, None);
      && (s.status == Closed <==> Weekend(day) || Holidays(day))
      && (s.status == EarlyClose <==> EarlyCloseReason(day).Some?)
      && (s.status != Closed ==> FourWindows(s.sessions, if s.status == EarlyClose then 780 else 960))
  {
    if EarlyCloseReason(day).Some? {
      EarlyCloseIsNoHoliday(day);
    }
    UsSessionsAdjoin(day);
    hide Weekend, NextNewYear, HolidayOn, EarlyCloseReason, UsSessions, FourWindows;
  }

  lemma UsSessionsAdjoin(day: Date)
    ensures FourWindows(UsSessions(day), if EarlyCloseReason(day).Some? then 780 else 960) && UsSessions(day) != []
  {
    hide EarlyCloseReason;
  }

  /** A holiday is marked as observed exactly when it is a fixed one moved off its date. */
  lemma ObservedMark(day: Date)
    requires Valid(day) && HolidayOn(day).Some?
    ensures Observed(HolidayOn(day).value, day) <==>
      Fixed(HolidayOn(day).value) && Weekend(BaseDate(HolidayOn(day).value, day.year).value)
  {
    var h := HolidayOn(day).value;
    HolidayOnIs(day);
    HolidayPlace(h, day.year);
    hide HolidayOn;
    if Fixed(h) {
      FixedMoves(h, day.year);
      var base := BaseDate(h, day.year).value;
      ObservedNeverWeekend(base.year, base.month, base.day);
    }
  }

  lemma FixedMoves(h: Holiday, year: int)
    requires Fixed(h) && MIN_YEAR <= year <= MAX_YEAR
    ensures BaseDate(h, year).Some?
    ensures var base := BaseDate(h, year).value;
      HolidayDate(h, year) == ObservedFixedHoliday(base.year, base.month, base.day)
  {
    hide ObservedFixedHoliday;
  }
}
