/** The day count to date conversion (`days_to_ymd`) against the Gregorian calendar. */
module Calendar {

  datatype Date = Date(y: int, m: int, d: int)

  /** The leap rule of Appendix C of RFC 3339. */
  predicate IsLeap(y: int) {
    y % 4 == 0 && (y % 100 != 0 || y % 400 == 0)
  }

  /** The month lengths of section 5.7 of RFC 3339. */
  function DaysInMonth(y: int, m: int): int {
    if m == 2 then (if IsLeap(y) then 29 else 28)
    else if m == 4 || m == 6 || m == 9 || m == 11 then 30
    else 31
  }

  predicate Valid(x: Date) {
    1 <= x.m <= 12 && 1 <= x.d <= DaysInMonth(x.y, x.m)
  }

  /** The day after. */
  function Tomorrow(x: Date): Date {
    if x.d < DaysInMonth(x.y, x.m) then x.(d := x.d + 1)
    else if x.m < 12 then Date(x.y, x.m + 1, 1)
    else Date(x.y + 1, 1, 1)
  }

  /** The year of an era a day of the era is in, the era and its years starting in March. */
  function YearOfEra(doe: int): int {
    (doe - doe / 1460 + doe / 36524 - doe / 146096) / 365
  }

  /** The first day of a year of an era. */
  function FirstDay(yoe: int): int {
    365 * yoe + yoe / 4 - yoe / 100
  }

  /** The month of a day of a year that starts in March, March being 0, and the first day of a month. */
  function MonthOf(doy: int): int {
    (5 * doy + 2) / 153
  }

  function MonthStart(mp: int): int {
    (153 * mp + 2) / 5
  }

  /** Days since 1970-01-01 to a date. */
  function DaysToYmd(days: nat): Date {
    var z := days + 719468;
    var era := z / 146097;
    var doe := z - era * 146097;
    var yoe := YearOfEra(doe);
    var y := yoe + era * 400;
    var doy := doe - FirstDay(yoe);
    var mp := MonthOf(doy);
    var d := doy - MonthStart(mp) + 1;
    var m := if mp < 10 then mp + 3 else mp - 9;
    Date(if m <= 2 then y + 1 else y, m, d)
  }

  /** The number of days from 1970-01-01 to a date: years count from March, eras of 400 years. */
  function DaysFromCivil(x: Date): int {
    var y := if x.m <= 2 then x.y - 1 else x.y;
    var era := y / 400;
    var yoe := y - era * 400;
    var mp := if x.m > 2 then x.m - 3 else x.m + 9;
    era * 146097 + FirstDay(yoe) + MonthStart(mp) + x.d - 1 - 719468
  }

  /**
    A day of an era: century `c`, group of four years `q`, year `a` of the group and day `t` of the
    year. Only a year with a 29 February has a day 365: the last of its group, unless the group is
    the last of a century other than the era's last.
  */
  predicate InEra(c: int, q: int, a: int, t: int) {
    && 0 <= c <= 3 && 0 <= q <= 24 && 0 <= a <= 3 && 0 <= t <= 365
    && (t == 365 ==> a == 3 && (q < 24 || c == 3))
  }

  function DayOfEra(c: int, q: int, a: int, t: int): int {
    36524 * c + 1461 * q + 365 * a + t
  }

  lemma SplitDay(doe: int) returns (c: int, q: int, a: int, t: int)
    requires 0 <= doe < 146097
    ensures InEra(c, q, a, t) && doe == DayOfEra(c, q, a, t)
  {
    c := if doe / 36524 == 4 then 3 else doe / 36524;
    var r := doe - 36524 * c;
    q := r / 1461;
    var s := r - 1461 * q;
    a := if s / 365 == 4 then 3 else s / 365;
    t := s - 365 * a;
  }

  lemma Quotients(c: int, q: int, a: int, t: int)
    requires InEra(c, q, a, t)
    ensures DayOfEra(c, q, a, t) / 1460 == 25 * c + q + (if 24 * c + q + 365 * a + t >= 1460 then 1 else 0)
  {
  }

  lemma Centuries(c: int, q: int, a: int, t: int)
    requires InEra(c, q, a, t)
    ensures var doe := DayOfEra(c, q, a, t); 0 <= doe < 146097 && doe / 36524 - doe / 146096 == c
  {
  }

  lemma YearParts(c: int, q: int, a: int)
    requires 0 <= c <= 3 && 0 <= q <= 24 && 0 <= a <= 3
    ensures var yoe := 100 * c + 4 * q + a; yoe / 4 == 25 * c + q && yoe / 100 == c
  {
  }

  /** The year of an era and the day it starts at. */
  lemma EraYear(doe: int, yoe: int, c: int, q: int, a: int, t: int)
    requires InEra(c, q, a, t) && doe == DayOfEra(c, q, a, t) && yoe == 100 * c + 4 * q + a
    ensures 0 <= doe < 146097 && YearOfEra(doe) == yoe && FirstDay(yoe) == doe - t
  {
    Quotients(c, q, a, t);
    Centuries(c, q, a, t);
    YearParts(c, q, a);
  }

  lemma MonthOfDay(t: int)
    requires 0 <= t <= 365
    ensures var mp := MonthOf(t); 0 <= mp <= 11 && MonthStart(mp) <= t && (mp < 11 ==> t < MonthStart(mp + 1))
  {
  }

  lemma DayOfMonth(mp: int, t: int)
    requires 0 <= mp <= 11 && MonthStart(mp) <= t <= 365 && (mp < 11 ==> t < MonthStart(mp + 1))
    ensures MonthOf(t) == mp
  {
  }

  lemma EraOf(z: int, era: int, doe: int)
    requires z == era * 146097 + doe && 0 <= doe < 146097
    ensures z / 146097 == era
  {
  }

  /** The date of day `t` of the year `y` that starts in March. */
  function MarchDate(y: int, t: int): Date {
    var mp := MonthOf(t);
    var d := t - MonthStart(mp) + 1;
    if mp < 10 then Date(y, mp + 3, d) else Date(y + 1, mp - 9, d)
  }

  /** What the algorithm gives for the day `t` of year `a` of group `q` of century `c` of an era. */
  lemma DateOf(days: nat, y: int, era: int, c: int, q: int, a: int, t: int)
    requires InEra(c, q, a, t) && days + 719468 == era * 146097 + DayOfEra(c, q, a, t)
      && y == 100 * c + 4 * q + a + era * 400
    ensures DaysToYmd(days) == MarchDate(y, t)
  {
    EraYear(DayOfEra(c, q, a, t), 100 * c + 4 * q + a, c, q, a, t);
    MonthOfDay(t);
    EraOf(days + 719468, era, DayOfEra(c, q, a, t));
    hide InEra, DayOfEra, YearOfEra, FirstDay, MonthOf, MonthStart;
  }

  /** The year after year `a` of group `q` of century `c` is a leap year just when that year has a day 365. */
  lemma LeapDay(y: int, era: int, c: int, q: int, a: int)
    requires 0 <= c <= 3 && 0 <= q <= 24 && 0 <= a <= 3 && y == 100 * c + 4 * q + a + era * 400
    ensures IsLeap(y + 1) <==> a == 3 && (q < 24 || c == 3)
  {
  }

  lemma MarchDateIsValid(y: int, t: int)
    requires 0 <= t <= 365 && (t == 365 ==> IsLeap(y + 1))
    ensures Valid(MarchDate(y, t))
  {
  }

  /** A day count as a day of a year that starts in March. */
  lemma SplitDays(days: nat) returns (y: int, t: int, era: int, c: int, q: int, a: int)
    ensures InEra(c, q, a, t) && y == 100 * c + 4 * q + a + era * 400
      && days + 719468 == era * 146097 + DayOfEra(c, q, a, t)
    ensures DaysToYmd(days) == MarchDate(y, t) && (t == 365 ==> IsLeap(y + 1))
  {
    hide IsLeap, DaysToYmd, MarchDate;
    var z := days + 719468;
    era := z / 146097;
    c, q, a, t := SplitDay(z % 146097);
    y := 100 * c + 4 * q + a + era * 400;
    DateOf(days, y, era, c, q, a, t);
    LeapDay(y, era, c, q, a);
  }

  /** Every day count gives a date that exists. */
  lemma DateIsValid(days: nat)
    ensures Valid(DaysToYmd(days))
  {
    var y, t, era, c, q, a := SplitDays(days);
    hide IsLeap, DaysToYmd, MarchDate, Valid;
    MarchDateIsValid(y, t);
  }

  // ── The inverse ──

  /** The days from 1 March of year 0 to 1 March of year `y`. */
  function YearStart(y: int): int {
    y / 400 * 146097 + FirstDay(y % 400)
  }

  lemma CivilOfMarchDate(y: int, t: int)
    requires 0 <= t <= 365
    ensures DaysFromCivil(MarchDate(y, t)) == YearStart(y) + t - 719468
  {
  }

  lemma EraParts(era: int, yoe: int)
    requires 0 <= yoe < 400
    ensures (yoe + era * 400) / 400 == era && (yoe + era * 400) % 400 == yoe
  {
  }

  lemma YearStartOf(y: int, era: int, c: int, q: int, a: int)
    requires 0 <= c <= 3 && 0 <= q <= 24 && 0 <= a <= 3 && y == 100 * c + 4 * q + a + era * 400
    ensures YearStart(y) == era * 146097 + 36524 * c + 1461 * q + 365 * a
  {
    EraParts(era, 100 * c + 4 * q + a);
    YearParts(c, q, a);
  }

  /** The day count of the date of a day count is that day count. */
  lemma DaysRoundTrip(days: nat)
    ensures DaysFromCivil(DaysToYmd(days)) == days
  {
    var y, t, era, c, q, a := SplitDays(days);
    CivilOfMarchDate(y, t);
    YearStartOf(y, era, c, q, a);
    hide DaysToYmd, MarchDate, DaysFromCivil, YearStart;
  }

  /** A valid date as a day of a year that starts in March. */
  lemma AsMarchDate(x: Date) returns (y: int, t: int)
    requires Valid(x)
    ensures x == MarchDate(y, t) && 0 <= t <= 365 && (t == 365 ==> IsLeap(y + 1))
  {
    y := if x.m <= 2 then x.y - 1 else x.y;
    var mp := if x.m > 2 then x.m - 3 else x.m + 9;
    t := MonthStart(mp) + x.d - 1;
    DayOfMonth(mp, t);
    hide IsLeap;
  }

  lemma SplitYear(y: int) returns (era: int, c: int, q: int, a: int)
    ensures 0 <= c <= 3 && 0 <= q <= 24 && 0 <= a <= 3 && y == 100 * c + 4 * q + a + era * 400
  {
    era := y / 400;
    var yoe := y % 400;
    c, q, a := yoe / 100, yoe % 100 / 4, yoe % 4;
  }

  /** The date of the day count of a date from 1970 on is that date: no two days have one date and none is left out. */
  lemma CivilRoundTrip(x: Date)
    requires Valid(x) && DaysFromCivil(x) >= 0
    ensures DaysToYmd(DaysFromCivil(x)) == x
  {
    var y, t := AsMarchDate(x);
    var era, c, q, a := SplitYear(y);
    CivilOfMarchDate(y, t);
    YearStartOf(y, era, c, q, a);
    LeapDay(y, era, c, q, a);
    hide DaysToYmd, MarchDate, DaysFromCivil, YearStart, IsLeap, Valid;
    DateOf(DaysFromCivil(x), y, era, c, q, a, t);
  }

  lemma YearLength(y: int)
    ensures YearStart(y + 1) - YearStart(y) == if IsLeap(y + 1) then 366 else 365
  {
    hide YearStart, IsLeap;
    var era, c, q, a := SplitYear(y);
    LeapDay(y, era, c, q, a);
    YearStartOf(y, era, c, q, a);
    if a < 3 {
      YearStartOf(y + 1, era, c, q, a + 1);
    } else if q < 24 {
      YearStartOf(y + 1, era, c, q + 1, 0);
    } else if c < 3 {
      YearStartOf(y + 1, era, c + 1, 0, 0);
    } else {
      YearStartOf(y + 1, era + 1, 0, 0, 0);
    }
  }

  lemma MonthLength(mp: int)
    requires 0 <= mp < 11
    ensures MonthStart(mp + 1) - MonthStart(mp) == if mp == 1 || mp == 3 || mp == 6 || mp == 8 then 30 else 31
  {
  }

  lemma TomorrowInMarchYear(y: int, t: int)
    requires 0 <= t <= 365 && (t == 365 ==> IsLeap(y + 1))
    ensures Tomorrow(MarchDate(y, t))
         == if t == 365 || (t == 364 && !IsLeap(y + 1)) then MarchDate(y + 1, 0) else MarchDate(y, t + 1)
  {
    var mp := MonthOf(t);
    MonthOfDay(t);
    DayOfMonth(0, 0);
    if mp == 11 {
      if t < 365 {
        DayOfMonth(11, t + 1);
      }
    } else {
      MonthLength(mp);
      DayOfMonth(if t + 1 < MonthStart(mp + 1) then mp else mp + 1, t + 1);
    }
    hide IsLeap, MonthOf;
  }

  /** The day after a date has the next day count. */
  lemma TomorrowIsNext(x: Date)
    requires Valid(x)
    ensures DaysFromCivil(Tomorrow(x)) == DaysFromCivil(x) + 1
  {
    var y, t := AsMarchDate(x);
    hide MarchDate, DaysFromCivil, YearStart, IsLeap, Tomorrow, Valid;
    TomorrowInMarchYear(y, t);
    CivilOfMarchDate(y, t);
    CivilOfMarchDate(y + 1, 0);
    if t < 365 {
      CivilOfMarchDate(y, t + 1);
    }
    YearLength(y);
  }

  lemma TomorrowIsValid(x: Date)
    requires Valid(x)
    ensures Valid(Tomorrow(x))
  {
  }

  lemma First()
    ensures DaysToYmd(0) == Date(1970, 1, 1)
  {
    hide DaysToYmd, MarchDate, MonthOf;
    assert DayOfEra(3, 17, 1, 306) == 135080;
    DateOf(0, 1969, 4, 3, 17, 1, 306);
    DayInMonth(1969, 10, 306);
  }

  /** A day of month `mp` of the year that starts in March. */
  lemma DayInMonth(y: int, mp: int, t: int)
    requires 0 <= mp <= 11 && MonthStart(mp) <= t <= 365 && (mp < 11 ==> t < MonthStart(mp + 1))
    ensures MarchDate(y, t)
         == if mp < 10 then Date(y, mp + 3, t - MonthStart(mp) + 1) else Date(y + 1, mp - 9, t - MonthStart(mp) + 1)
  {
    DayOfMonth(mp, t);
    hide MonthOf;
  }

  /** The algorithm is the calendar: it starts at 1970-01-01 and each day count gives the day after the one before. */
  lemma IsTheCalendar(days: nat)
    ensures DaysToYmd(0) == Date(1970, 1, 1)
    ensures DaysToYmd(days + 1) == Tomorrow(DaysToYmd(days))
  {
    hide DaysFromCivil, Tomorrow, DaysToYmd, Valid;
    var x := DaysToYmd(days);
    DateIsValid(days);
    DaysRoundTrip(days);
    TomorrowIsNext(x);
    TomorrowIsValid(x);
    CivilRoundTrip(Tomorrow(x));
    First();
  }
}
