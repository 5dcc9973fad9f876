/**
 Calendar dates as `Date` sees them in UTC: the day number of a date is that of section 21.4.1 of ECMA-262, and
 years from 100 on are the ones `Date.UTC` takes literally.
 */
module Calendar {

  datatype Date = Date(y: int, m: int, d: int)

  predicate Leap(y: int) {
    (y % 4 == 0 && y % 100 != 0) || y % 400 == 0
  }

  function DaysInMonth(y: int, m: int): (days: int)
    ensures 28 <= days <= 31
  {
    if m == 2 then (if Leap(y) then 29 else 28)
    else if m == 4 || m == 6 || m == 9 || m == 11 then 30
    else 31
  }

  predicate Valid(date: Date) {
    100 <= date.y && 1 <= date.m <= 12 && 1 <= date.d <= DaysInMonth(date.y, date.m)
  }

  function DayFromYear(y: int): int {
    365 * (y - 1970) + (y - 1969) / 4 - (y - 1901) / 100 + (y - 1601) / 400
  }

  function DaysBefore(y: int, m: int): int {
    var common :=
      if m <= 1 then 0 else if m == 2 then 31 else if m == 3 then 59 else if m == 4 then 90
      else if m == 5 then 120 else if m == 6 then 151 else if m == 7 then 181 else if m == 8 then 212
      else if m == 9 then 243 else if m == 10 then 273 else if m == 11 then 304 else if m == 12 then 334 else 365;
    if m > 2 && Leap(y) then common + 1 else common
  }

  function DayNumber(date: Date): int {
    DayFromYear(date.y) + DaysBefore(date.y, date.m) + date.d - 1
  }

  // `setUTCDate(getUTCDate() + 1)`
  function Next(date: Date): Date {
    if date.d < DaysInMonth(date.y, date.m) then Date(date.y, date.m, date.d + 1)
    else if date.m < 12 then Date(date.y, date.m + 1, 1)
    else Date(date.y + 1, 1, 1)
  }

  // ISO weekday, Monday = 1 to Sunday = 7; day 0 was a Thursday.
  function WeekdayOf(day: int): (w: int)
    ensures 1 <= w <= 7
  {
    var w := (day + 4) % 7;
    if w == 0 then 7 else w
  }

  function IsoWeekday(date: Date): int {
    WeekdayOf(DayNumber(date))
  }

  predicate Less(a: Date, b: Date) {
    a.y < b.y || (a.y == b.y && (a.m < b.m || (a.m == b.m && a.d < b.d)))
  }

  lemma FourthYears(y: int)
    ensures (y + 1 - 1969) / 4 == (y - 1969) / 4 + if y % 4 == 0 then 1 else 0
  {
  }

  lemma Centuries(y: int)
    ensures (y + 1 - 1901) / 100 == (y - 1901) / 100 + if y % 100 == 0 then 1 else 0
  {
  }

  lemma FourCenturies(y: int)
    ensures (y + 1 - 1601) / 400 == (y - 1601) / 400 + if y % 400 == 0 then 1 else 0
  {
  }

  lemma FourHundreds(q: int)
    ensures (400 * q) % 100 == 0
  {
  }

  lemma Hundreds(q: int)
    ensures (100 * q) % 4 == 0
  {
  }

  lemma LeapCases(y: int)
    ensures y % 400 == 0 ==> y % 100 == 0
    ensures y % 100 == 0 ==> y % 4 == 0
  {
    if y % 400 == 0 {
      assert y == 400 * (y / 400);
      FourHundreds(y / 400);
    }
    if y % 100 == 0 {
      assert y == 100 * (y / 100);
      Hundreds(y / 100);
    }
  }

  lemma YearLength(y: int)
    ensures DayFromYear(y + 1) == DayFromYear(y) + DaysBefore(y, 13)
  {
    FourthYears(y);
    Centuries(y);
    FourCenturies(y);
    LeapCases(y);
  }

  lemma MonthLength(y: int, m: int)
    requires 1 <= m <= 12
    ensures DaysBefore(y, m + 1) == DaysBefore(y, m) + DaysInMonth(y, m)
  {
  }

  lemma NextIsNextDay(date: Date)
    requires Valid(date)
    ensures Valid(Next(date)) && DayNumber(Next(date)) == DayNumber(date) + 1
  {
    YearLength(date.y);
    MonthLength(date.y, date.m);
  }

  lemma WeekdayStep(day: int)
    ensures WeekdayOf(day + 1) == WeekdayOf(day) % 7 + 1
  {
    var w := (day + 4) % 7;
    assert (day + 1 + 4) % 7 == if w == 6 then 0 else w + 1;
  }

  lemma EpochDay()
    ensures DayNumber(Date(1970, 1, 1)) == 0
  {
  }

  // The first of January 1970 is day 0 and a Thursday, and the weekdays follow each other round the week: with
  // `NextIsNextDay` this fixes the day number and the weekday of every date.
  lemma WeekdaysRun(date: Date)
    requires Valid(date)
    ensures DayNumber(Date(1970, 1, 1)) == 0 && IsoWeekday(Date(1970, 1, 1)) == 4
    ensures IsoWeekday(Next(date)) == IsoWeekday(date) % 7 + 1
  {
    hide DayNumber, Next, Valid;
    EpochDay();
    NextIsNextDay(date);
    WeekdayStep(DayNumber(date));
  }

  lemma {:induction false} YearsOrdered(a: int, b: int)
    requires a < b
    ensures DayFromYear(a) + DaysBefore(a, 13) <= DayFromYear(b)
    decreases b - a
  {
    YearLength(a);
    if a + 1 < b {
      YearsOrdered(a + 1, b);
    }
  }

  lemma {:induction false} MonthsOrdered(y: int, a: int, b: int)
    requires 1 <= a < b <= 13
    ensures DaysBefore(y, a) + DaysInMonth(y, a) <= DaysBefore(y, b)
    decreases b - a
  {
    MonthLength(y, a);
    if a + 1 < b {
      MonthsOrdered(y, a + 1, b);
    }
  }

  // Day numbers order dates as their year-month-day text does, so they identify dates.
  lemma DayNumberOrder(a: Date, b: Date)
    requires Valid(a) && Valid(b)
    ensures Less(a, b) <==> DayNumber(a) < DayNumber(b)
    ensures a == b <==> DayNumber(a) == DayNumber(b)
  {
    if Less(a, b) {
      LessDayNumber(a, b);
    } else if Less(b, a) {
      LessDayNumber(b, a);
    }
  }

  lemma LessDayNumber(a: Date, b: Date)
    requires Valid(a) && Valid(b) && Less(a, b)
    ensures DayNumber(a) < DayNumber(b)
  {
    MonthLength(a.y, a.m);
    if a.m < 12 {
      MonthsOrdered(a.y, a.m, 13);
    }
    if a.y < b.y {
      YearsOrdered(a.y, b.y);
      if b.m > 1 {
        MonthsOrdered(b.y, 1, b.m);
      }
    } else if a.m < b.m {
      MonthsOrdered(a.y, a.m, b.m);
    }
  }

  // ----- weekdays in runs of days

  // Number of days among day, day + 1, ..., day + len - 1 whose weekday is in `ws`.
  function CountDays(ws: set<int>, day: int, len: nat): nat {
    if len == 0 then 0 else CountDays(ws, day, len - 1) + (if WeekdayOf(day + len - 1) in ws then 1 else 0)
  }

  lemma {:induction false} CountDaysSplits(ws: set<int>, day: int, a: nat, b: nat)
    ensures CountDays(ws, day, a + b) == CountDays(ws, day, a) + CountDays(ws, day + a, b)
    decreases b
  {
    if b > 0 {
      CountDaysSplits(ws, day, a, b - 1);
      assert day + (a + b) - 1 == day + a + b - 1;
    }
  }

  lemma {:induction false} CountDaysDisjoint(u: set<int>, v: set<int>, day: int, len: nat)
    requires u !! v
    ensures CountDays(u + v, day, len) == CountDays(u, day, len) + CountDays(v, day, len)
  {
    if len > 0 {
      CountDaysDisjoint(u, v, day, len - 1);
    }
  }

  lemma {:induction false} CountNoDays(ws: set<int>, day: int, len: nat)
    requires ws == {}
    ensures CountDays(ws, day, len) == 0
  {
    if len > 0 {
      CountNoDays(ws, day, len - 1);
    }
  }

  function AllWeekdays(): set<int> {
    {1, 2, 3, 4, 5, 6, 7}
  }

  // How many days after `day` the weekday `w` first comes.
  function DaysUntil(w: int, day: int): int {
    (w - WeekdayOf(day)) % 7
  }

  lemma {:induction false} OneDayPerWeek(w: int, day: int, len: nat)
    requires 1 <= w <= 7 && len <= 7
    ensures CountDays({w}, day, len) == if DaysUntil(w, day) < len then 1 else 0
  {
    if len > 0 {
      OneDayPerWeek(w, day, len - 1);
      WeekdayAfter(w, day, len - 1);
    }
  }

  lemma WeekdayAfter(w: int, day: int, i: nat)
    requires 1 <= w <= 7 && i < 7
    ensures WeekdayOf(day + i) == w <==> i == DaysUntil(w, day)
  {
  }

  lemma OneMoreWeekday(ws: set<int>, w: int, day: int)
    requires w in ws && 1 <= w <= 7
    ensures CountDays(ws, day, 7) == CountDays(ws - {w}, day, 7) + 1
  {
    OneDayPerWeek(w, day, 7);
    CountDaysDisjoint(ws - {w}, {w}, day, 7);
    assert ws - {w} + {w} == ws;
  }

  // Any seven consecutive days contain each weekday once.
  lemma {:induction false} WeekHasEach(ws: set<int>, day: int)
    requires ws <= AllWeekdays()
    ensures CountDays(ws, day, 7) == |ws|
    decreases ws
  {
    if ws == {} {
      CountNoDays(ws, day, 7);
      return;
    }
    var w :| w in ws;
    WeekHasEach(ws - {w}, day);
    OneMoreWeekday(ws, w, day);
  }

  // One to two weeks of days contain each weekday once or twice.
  lemma UpToTwoWeeks(ws: set<int>, day: int, len: nat)
    requires ws <= AllWeekdays()
    requires 7 <= len <= 14
    ensures |ws| <= CountDays(ws, day, len) <= 2 * |ws|
  {
    WeekHasEach(ws, day);
    WeekHasEach(ws, day + 7);
    CountDaysSplits(ws, day, 7, len - 7);
    CountDaysSplits(ws, day + 7, len - 7, 14 - len);
  }
}
