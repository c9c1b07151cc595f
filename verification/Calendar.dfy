/** The builtin exchange calendar: Easter, movable and observed holidays, early closes, and the schedule of a day. */
module Calendar {
  import opened Kernel
  import opened Dates

  // ---- Easter ----------------------------------------------------------------------------

  datatype Computus = Computus(
    a: int, b: int, c: int, d: int, e: int, f: int, g: int, hSum: int, h: int, i: int, k: int, lSum: int, l: int,
      m: int)

  function ComputusOf(year: int): Computus {
    var a := Remainder(year, 19);
    var b := Quotient(year, 100);
    var c := Remainder(year, 100);
    var d := Quotient(b, 4);
    var e := Remainder(b, 4);
    var f := Quotient(b + 8, 25);
    var g := Quotient(b - f + 1, 3);
    var hSum := 19 * a + b - d - g + 15;
    var h := Remainder(hSum, 30);
    var i := Quotient(c, 4);
    var k := Remainder(c, 4);
    var lSum := 32 + 2 * e + 2 * i - h - k;
    var l := Remainder(lSum, 7);
    var m := Quotient(a + 11 * h + 22 * l, 451);
    Computus(a, b, c, d, e, f, g, hSum, h, i, k, lSum, l, m)
  }

  function EasterSunday(year: int): (r: Option<Date>)
    ensures r.Some? ==> Valid(r.value)
  {
    if year <= 0 then None
    else
      var q := ComputusOf(year);
      var n := q.h + q.l - 7 * q.m + 114;
      MakeDate(year, Quotient(n, 31), Remainder(n, 31) + 1)
  }

  lemma Divides(a: int, b: int)
    requires a >= 0 && b > 0
    ensures a == b * Quotient(a, b) + Remainder(a, b) && 0 <= Remainder(a, b) < b && 0 <= Quotient(a, b)
  {
  }

  /** No remainder is taken of a negative number, and each is in its range. */
  lemma ComputusRanges(year: int)
    requires year > 0
    ensures var q := ComputusOf(year);
      && 0 <= q.a < 19 && 0 <= q.b && 0 <= q.c < 100 && year == 100 * q.b + q.c
      && 0 <= q.d && 0 <= q.e < 4 && q.b == 4 * q.d + q.e
      && 0 <= q.i && 0 <= q.k < 4 && q.c == 4 * q.i + q.k
      && 0 <= q.b - q.f + 1 && 0 <= q.hSum && 0 <= q.h < 30 && 0 <= q.lSum && 0 <= q.l < 7
  {
    var q := ComputusOf(year);
    Divides(year, 19);
    Divides(year, 100);
    Divides(q.b, 4);
    Divides(q.b + 8, 25);
    Divides(q.b - q.f + 1, 3);
    Divides(q.c, 4);
    Divides(q.hSum, 30);
    Divides(q.lSum, 7);
  }

  /** How far Easter lies after the twenty-second of March. */
  lemma ComputusOffset(year: int)
    requires year > 0
    ensures var q := ComputusOf(year); 0 <= q.h + q.l - 7 * q.m <= 34 && 0 <= q.m <= 1
    ensures var q := ComputusOf(year); exists w :: q.lSum == 7 * w + q.l
  {
    var q := ComputusOf(year);
    ComputusRanges(year);
    var n := q.a + 11 * q.h + 22 * q.l;
    Divides(n, 451);
    assert 451 * q.m <= n < 451 * q.m + 451;
    Divides(q.lSum, 7);
    assert q.lSum == 7 * Quotient(q.lSum, 7) + q.l;
  }

  /** Days of a year before its first of March. */
  lemma MarchNumber(year: int, b: int, c: int, d: int, e: int, i: int, k: int)
    requires year > 0 && year == 100 * b + c && 0 <= c < 100 && b == 4 * d + e && 0 <= e < 4 && c == 4 * i + k
    requires 0 <= k < 4
    ensures DaysBeforeYear(year) + DaysBefore(year, 3) == 36524 * b + 365 * c + i + d - 306
  {
    YearLengths(year);
    assert year == 4 * (25 * b + i) + k && year / 4 == 25 * b + i;
    assert year / 100 == b;
    assert year == 400 * d + (100 * e + c) && year / 400 == d;
    assert DaysBeforeYear(year + 1) == 365 * year + year / 4 - year / 100 + year / 400;
  }

  /** The date that lies `offset` days after the twenty-second of March. */
  function Spring(year: int, offset: int): Date {
    if offset <= 9 then Date(year, 3, 22 + offset) else Date(year, 4, offset - 9)
  }

  lemma SpringNumber(year: int, offset: int)
    requires 0 <= offset <= 34 && 0 < year <= MAX_YEAR
    ensures Valid(Spring(year, offset))
    ensures DayNumber(Spring(year, offset)) == DaysBeforeYear(year) + DaysBefore(year, 3) + 22 + offset
  {
    MonthLengths(year, 3);
  }

  /** Counted from day 114 the thirty-ones are months. */
  lemma SpringMonth(offset: int)
    requires 0 <= offset <= 34
    ensures Quotient(offset + 114, 31) == if offset <= 9 then 3 else 4
    ensures Remainder(offset + 114, 31) + 1 == if offset <= 9 then 22 + offset else offset - 9
  {
  }

  lemma EasterIsSpring(year: int)
    requires 0 < year <= MAX_YEAR
    ensures var q := ComputusOf(year); EasterSunday(year) == Some(Spring(year, q.h + q.l - 7 * q.m))
  {
    hide ComputusOf, Quotient, Remainder, DayNumber;
    ComputusOffset(year);
    var q := ComputusOf(year);
    var offset := q.h + q.l - 7 * q.m;
    SpringNumber(year, offset);
    SpringMonth(offset);
    hide DaysIn;
  }

  /** What makes it a Sunday, in sevens. */
  lemma SundayArithmetic(b: int, c: int, d: int, e: int, i: int, k: int, h: int, l: int, m: int, lSum: int, w: int)
    requires b == 4 * d + e && c == 4 * i + k && lSum == 32 + 2 * e + 2 * i - h - k && lSum == 7 * w + l
    ensures (36524 * b + 365 * c + i + d - 306 + 22 + (h + l - 7 * m) - 1) % 7 == SUNDAY
  {
    var n := 36524 * b + 365 * c + i + d - 306 + 22 + (h + l - 7 * m);
    var sevens := 20871 * d + 5218 * e + 209 * i + 52 * k - w - m - 36;
    assert n == 7 * sevens;
    assert (n - 1) % 7 == 6;
  }

  lemma ComputusSums(year: int)
    ensures var q := ComputusOf(year); q.lSum == 32 + 2 * q.e + 2 * q.i - q.h - q.k
  {
    hide Quotient, Remainder;
  }

  /** The day number of Easter, counted from the parts of the computus. */
  lemma EasterNumber(year: int, q: Computus, offset: int)
    requires 0 < year <= MAX_YEAR && q == ComputusOf(year) && offset == q.h + q.l - 7 * q.m
    ensures 0 <= offset <= 34
    ensures DayNumber(Spring(year, offset)) == 36524 * q.b + 365 * q.c + q.i + q.d - 306 + 22 + (q.h + q.l - 7 * q.m)
  {
    hide *;
    ComputusRanges(year);
    ComputusOffset(year);
    SpringNumber(year, offset);
    MarchNumber(year, q.b, q.c, q.d, q.e, q.i, q.k);
  }

  lemma SundayNumber(year: int, q: Computus)
    requires year > 0 && q == ComputusOf(year)
    ensures (36524 * q.b + 365 * q.c + q.i + q.d - 306 + 22 + (q.h + q.l - 7 * q.m) - 1) % 7 == SUNDAY
  {
    hide *;
    ComputusRanges(year);
    ComputusOffset(year);
    ComputusSums(year);
    var w :| q.lSum == 7 * w + q.l;
    SundayArithmetic(q.b, q.c, q.d, q.e, q.i, q.k, q.h, q.l, q.m, q.lSum, w);
  }

  lemma SundayOf(d: Date, number: int)
    requires DayNumber(d) == number && (number - 1) % 7 == SUNDAY
    ensures Weekday(d) == SUNDAY
  {
    hide DayNumber;
  }

  lemma SpringDates(year: int, offset: int)
    requires 0 <= offset <= 34 && 0 < year <= MAX_YEAR
    ensures var d := Spring(year, offset);
      && Valid(d) && d.year == year && ((d.month == 3 && d.day >= 22) || (d.month == 4 && d.day <= 25))
  {
  }

  /** In every year Easter is a Sunday from the twenty-second of March to the twenty-fifth of April. */
  lemma EasterIsSunday(year: int)
    requires 0 < year <= MAX_YEAR
    ensures EasterSunday(year).Some?
    ensures var easter := EasterSunday(year).value;
      && Valid(easter) && easter.year == year && Weekday(easter) == SUNDAY
      && ((easter.month == 3 && easter.day >= 22) || (easter.month == 4 && easter.day <= 25))
  {
    hide *;
    var q := ComputusOf(year);
    var offset := q.h + q.l - 7 * q.m;
    EasterIsSpring(year);
    EasterNumber(year, q, offset);
    SundayNumber(year, q);
    SundayOf(Spring(year, offset), 36524 * q.b + 365 * q.c + q.i + q.d - 306 + 22 + (q.h + q.l - 7 * q.m));
    SpringDates(year, offset);
  }

  // ---- the ecclesiastical full moon ------------------------------------------------------

  /** The place of a year in the cycle of nineteen years after which the moon returns to the same dates. */
  function GoldenNumber(year: int): int {
    year % 19 + 1
  }

  function Century(year: int): int {
    year / 100 + 1
  }

  /** The leap days left out in centuries since the reform. */
  function SolarCorrection(year: int): int {
    3 * Century(year) / 4 - 12
  }

  /** The days by which the moon has run ahead of its cycle. */
  function LunarCorrection(year: int): int {
    (8 * Century(year) + 5) / 25 - 5
  }

  /** The age of the moon at the start of the year, before its two exceptions. */
  function PlainEpact(year: int): int {
    (11 * GoldenNumber(year) + 20 + LunarCorrection(year) - SolarCorrection(year)) % 30
  }

  /** An epact of 24 counts as 25, and one of 25 in the second part of the cycle as 26. */
  function Epact(year: int): int {
    var e := PlainEpact(year);
    if e == 24 || (e == 25 && GoldenNumber(year) > 11) then e + 1 else e
  }

  /** The day of March, counted on into April, of the full moon that is not before the twenty-first. */
  function MoonDay(year: int): int {
    var n := 44 - Epact(year);
    if n < 21 then n + 30 else n
  }

  /** The full moon that Easter follows. */
  function PaschalMoon(year: int): Date {
    if MoonDay(year) <= 31 then Date(year, 3, MoonDay(year)) else Date(year, 4, MoonDay(year) - 31)
  }

  /** The solar correction leaves out three leap days in four centuries. */
  lemma SolarParts(b: int, d: int, e: int)
    requires b == 4 * d + e && 0 <= e < 4
    ensures 3 * (b + 1) / 4 == b - d
  {
  }

  lemma LunarParts(b: int, f: int, g: int)
    requires 25 * f <= b + 8 < 25 * f + 25 && 3 * g <= b - f + 1 < 3 * g + 3
    ensures (8 * (b + 1) + 5) / 25 == g
  {
    var s, t := g - 8 * f, b - f + 1 - 3 * g;
    assert -3 <= s <= 5 && 0 <= t <= 2;
    assert 8 * (b + 1) + 5 == 25 * g + (5 + 8 * t - s);
  }

  lemma EpactParts(a: int, b: int, d: int, g: int, hSum: int, h: int, w: int, epact: int)
    requires hSum == 19 * a + b - d - g + 15 && hSum == 30 * w + h && 0 <= h < 30
    requires epact == (11 * (a + 1) + 20 + (g - 5) - (b - d - 12)) % 30
    ensures h == if epact <= 23 then 23 - epact else 53 - epact
  {
    var v := (11 * (a + 1) + 20 + (g - 5) - (b - d - 12)) / 30;
    assert 11 * (a + 1) + 20 + (g - 5) - (b - d - 12) == 30 * v + epact;
    assert h + epact == 30 * (a - v - w) + 53;
  }

  lemma ComputusParts(year: int)
    requires year > 0
    ensures var q := ComputusOf(year);
      && GoldenNumber(year) == q.a + 1 && Century(year) == q.b + 1
      && 25 * q.f <= q.b + 8 < 25 * q.f + 25 && 3 * q.g <= q.b - q.f + 1 < 3 * q.g + 3
      && q.hSum == 19 * q.a + q.b - q.d - q.g + 15
      && exists w :: q.hSum == 30 * w + q.h
  {
    var q := ComputusOf(year);
    ComputusRanges(year);
    Divides(year, 19);
    Divides(year, 100);
    Divides(q.b + 8, 25);
    Divides(q.b - q.f + 1, 3);
    Divides(q.hSum, 30);
    assert q.hSum == 30 * Quotient(q.hSum, 30) + q.h;
  }

  /** The computus finds the moon of the epact, before its exceptions. */
  lemma ComputusMoon(year: int)
    requires year > 0
    ensures var q, e := ComputusOf(year), PlainEpact(year); q.h == if e <= 23 then 23 - e else 53 - e
  {
    hide ComputusOf;
    var q := ComputusOf(year);
    ComputusRanges(year);
    ComputusParts(year);
    SolarParts(q.b, q.d, q.e);
    LunarParts(q.b, q.f, q.g);
    var w :| q.hSum == 30 * w + q.h;
    EpactParts(q.a, q.b, q.d, q.g, q.hSum, q.h, w, PlainEpact(year));
  }

  /** The last correction of the computus: a week back exactly where an exception moves the moon over a Sunday. */
  lemma WeekBack(a: int, h: int, l: int, m: int)
    requires 0 <= a < 19 && 0 <= h < 30 && 0 <= l < 7 && 451 * m <= a + 11 * h + 22 * l < 451 * m + 451
    ensures m == if l == 6 && (h == 29 || (h == 28 && a >= 11)) then 1 else 0
  {
  }

  lemma ComputusWeek(year: int)
    requires year > 0
    ensures var q := ComputusOf(year); 451 * q.m <= q.a + 11 * q.h + 22 * q.l < 451 * q.m + 451
  {
    var q := ComputusOf(year);
    ComputusRanges(year);
    Divides(q.a + 11 * q.h + 22 * q.l, 451);
  }

  /** Easter comes one to seven days after the moon of the epact. */
  lemma MoonBeforeEaster(year: int)
    requires year > 0
    ensures 21 <= MoonDay(year) <= 49
    ensures var q := ComputusOf(year); MoonDay(year) < 22 + q.h + q.l - 7 * q.m <= MoonDay(year) + 7
  {
    hide ComputusOf, PlainEpact, GoldenNumber;
    var q := ComputusOf(year);
    ComputusRanges(year);
    ComputusParts(year);
    ComputusMoon(year);
    ComputusWeek(year);
    WeekBack(q.a, q.h, q.l, q.m);
    PlainEpactRange(year);
  }

  lemma PlainEpactRange(year: int)
    ensures 0 <= PlainEpact(year) < 30
  {
  }

  lemma MoonNumber(year: int)
    requires 0 < year <= MAX_YEAR && 21 <= MoonDay(year) <= 49
    ensures var moon := PaschalMoon(year);
      && Valid(moon) && (moon.month == 3 ==> moon.day >= 21)
      && DayNumber(moon) == DaysBeforeYear(year) + DaysBefore(year, 3) + MoonDay(year)
  {
    MonthLengths(year, 3);
    hide MoonDay;
  }

  lemma SundaysApart(d: Date, e: Date)
    requires Weekday(d) == Weekday(e) && DayNumber(d) < DayNumber(e)
    ensures DayNumber(d) + 7 <= DayNumber(e)
  {
    hide DayNumber;
    SameSeventh(DayNumber(d) - 1, DayNumber(e) - 1);
  }

  lemma SameSeventh(m: int, n: int)
    requires m % 7 == n % 7 && m < n
    ensures m + 7 <= n
  {
  }

  /** In every year Easter is the first Sunday after the ecclesiastical full moon that is not before the twenty-first of
      March. */
  lemma EasterIsFirstSunday(year: int)
    requires 0 < year <= MAX_YEAR
    ensures EasterSunday(year).Some?
    ensures var moon, easter := PaschalMoon(year), EasterSunday(year).value;
      && Valid(moon) && moon.year == year && (moon.month == 4 || (moon.month == 3 && moon.day >= 21))
      && Valid(easter) && Weekday(easter) == SUNDAY
      && DayNumber(moon) < DayNumber(easter)
      && forall d: Date | Weekday(d) == SUNDAY && DayNumber(d) > DayNumber(moon) :: DayNumber(easter) <= DayNumber(d)
  {
    var q := ComputusOf(year);
    var offset := q.h + q.l - 7 * q.m;
    MoonBeforeEaster(year);
    MoonNumber(year);
    assert PaschalMoon(year).year == year && (PaschalMoon(year).month == 3 || PaschalMoon(year).month == 4);
    hide *;
    EasterIsSunday(year);
    EasterIsSpring(year);
    ComputusOffset(year);
    SpringNumber(year, offset);
    var moon, easter := PaschalMoon(year), EasterSunday(year).value;
    forall d: Date | Weekday(d) == SUNDAY && DayNumber(d) > DayNumber(moon) ensures DayNumber(easter) <= DayNumber(d) {
      if DayNumber(d) < DayNumber(easter) {
        SundaysApart(d, easter);
      }
    }
  }

  /** Outside the years it is defined for there is none. */
  lemma NoEaster(year: int)
    requires year <= 0 || year > MAX_YEAR
    ensures EasterSunday(year).None?
  {
    hide ComputusOf, Quotient, Remainder;
  }
}
