/** What the sessions of a plan look like: where they lie, and how many a monthly pattern gives. */
module TimingPlannerFacts {
  import opened Prelude
  import opened Calendar
  import opened TimingPlanner

  // ----- every session lies in the window

  predicate TimesValid(slots: seq<Slot>) {
    forall slot | slot in slots :: ValidTime(slot.start) && ValidTime(slot.end)
  }

  predicate ValidInput(input: Input) {
    && Valid(input.start) && Valid(input.end)
    && (input.daily.Some? ==>
          var daily := input.daily.value;
          && TimesValid(daily.slots) && TimesValid(daily.weekdaySlots) && TimesValid(daily.weekendSlots)
          && (forall group | group in daily.groups :: TimesValid(group.slots))
          && (forall date | date in daily.customDates :: Valid(date)))
    && (input.monthly.Some? ==> TimesValid(input.monthly.value.slots))
    && (input.custom.Some? ==>
          TimesValid(input.custom.value.slots) && forall date | date in input.custom.value.dates :: Valid(date))
  }

  lemma {:induction false} MentionedTimes(days: seq<int>, slots: seq<Slot>, dow: int)
    requires TimesValid(slots)
    ensures TimesValid(MentionedSlots(days, slots, dow))
  {
    if days != [] {
      MentionedTimes(days[..|days| - 1], slots, dow);
    }
  }

  lemma {:induction false} GroupTimes(groups: seq<Group>, dow: int)
    requires forall group | group in groups :: TimesValid(group.slots)
    ensures TimesValid(GroupSlots(groups, dow))
  {
    if groups != [] {
      var last := groups[|groups| - 1];
      GroupTimes(groups[..|groups| - 1], dow);
      MentionedTimes(last.days, last.slots, dow);
    }
  }

  lemma SlotTimes(input: Input, date: Date, extra: bool)
    requires ValidInput(input)
    ensures TimesValid(SlotsFor(input, date, extra))
  {
    if input.mode.DailyMode? && input.daily.Some? {
      GroupTimes(input.daily.value.groups, IsoWeekday(date));
    }
  }

  predicate InsideWindow(input: Input, s: Session) {
    && s.startsAt < s.endsAt
    && QatarDateTime(input.start, Time(0, 0)) <= s.startsAt
    && s.endsAt <= QatarDateTime(input.end, Time(23, 59))
  }

  lemma SessionInside(input: Input, date: Date, slot: Slot, defaultCapacity: Option<int>)
    requires ValidInput(input) && Valid(date) && InWindow(input, date)
    requires ValidTime(slot.start) && ValidTime(slot.end) && Earlier(slot.start, slot.end)
    ensures InsideWindow(input, SessionOf(date, slot, defaultCapacity))
    ensures QatarDay(SessionOf(date, slot, defaultCapacity).startsAt) == DayNumber(date)
  {
    DayNumberOrder(date, input.start);
    DayNumberOrder(input.end, date);
    EarlierStartsFirst(date, slot.start, slot.end);
    QatarDayOfDateTime(date, slot.start);
  }

  lemma {:induction false} SessionsAre(date: Date, slots: seq<Slot>, defaultCapacity: Option<int>)
    ensures |Sessions(date, slots, defaultCapacity)| == |slots|
    ensures forall i | 0 <= i < |slots| ::
      Sessions(date, slots, defaultCapacity)[i] == SessionOf(date, slots[i], defaultCapacity)
  {
    if slots != [] {
      SessionsAre(date, slots[..|slots| - 1], defaultCapacity);
    }
  }

  lemma DateSessionsInside(input: Input, date: Date, slots: seq<Slot>, defaultCapacity: Option<int>)
    requires ValidInput(input) && TimesValid(slots) && !BadSlots(slots)
    requires slots != [] ==> Valid(date) && InWindow(input, date)
    ensures forall s | s in Sessions(date, slots, defaultCapacity) :: InsideWindow(input, s)
  {
    SessionsAre(date, slots, defaultCapacity);
    forall i | 0 <= i < |slots| ensures InsideWindow(input, Sessions(date, slots, defaultCapacity)[i]) {
      assert slots[i] in slots;
      SessionInside(input, date, slots[i], defaultCapacity);
    }
  }

  lemma {:induction false} ExpandInside(input: Input, dates: seq<Date>, extra: bool, defaultCapacity: Option<int>)
    requires ValidInput(input) && !BadDates(input, dates, extra)
    requires forall date | date in dates :: SlotsFor(input, date, extra) != [] ==> Valid(date) && InWindow(input, date)
    ensures forall s | s in Expand(input, dates, extra, defaultCapacity) :: InsideWindow(input, s)
  {
    hide SlotsFor, Sessions, BadSlots, InsideWindow, InWindow, Valid, TimesValid, ValidInput;
    if dates != [] {
      var rest, last := dates[..|dates| - 1], dates[|dates| - 1];
      assert last in dates;
      ExpandInside(input, rest, extra, defaultCapacity);
      SlotTimes(input, last, extra);
      DateSessionsInside(input, last, SlotsFor(input, last, extra), defaultCapacity);
    }
  }

  lemma WindowDates(input: Input)
    requires Valid(input.start) && Valid(input.end)
    ensures forall date | date in Window(input) :: Valid(date) && InWindow(input, date)
  {
    var n := WindowLength(input.start, input.end);
    DatesFromAre(input.start, n);
    forall date | date in Window(input) ensures Valid(date) && InWindow(input, date) {
      var i :| 0 <= i < n && Window(input)[i] == date;
      DayNumberOrder(date, input.start);
      DayNumberOrder(input.end, date);
    }
  }

  // Every session of an accepted plan starts before it ends and lies between the start of the first and the end of
  // the last day of the window, in Qatar time.
  lemma PlannedInsideWindow(input: Input, defaultCapacity: Option<int>)
    requires ValidInput(input) && PlanError(input).None?
    ensures forall s | s in Expansion(input, defaultCapacity) :: InsideWindow(input, s)
  {
    hide SlotsOn, BadSlots, Sessions, InsideWindow;
    ExpansionByMode(input, defaultCapacity);
    WindowDates(input);
    if input.mode.DailyMode? || input.mode.MonthlyMode? {
      ExpandInside(input, Window(input), false, defaultCapacity);
    }
    if input.mode.DailyMode? || input.mode.CustomMode? {
      if input.mode.CustomMode? {
        CustomNotBad(input);
      }
      ExpandInside(input, ExtraDates(input), true, defaultCapacity);
    }
  }

  lemma CustomNotBad(input: Input)
    requires input.mode.CustomMode? && PlanError(input).None?
    ensures !BadDates(input, ExtraDates(input), true)
  {
  }

  // ----- how many sessions a monthly pattern gives

  // Number of sessions that start, in Qatar, on a day from `lo` to `hi`.
  function StartingIn(sessions: seq<Session>, lo: int, hi: int): nat {
    if sessions == [] then 0
    else
      var last := sessions[|sessions| - 1];
      StartingIn(sessions[..|sessions| - 1], lo, hi) + (if lo <= QatarDay(last.startsAt) <= hi then 1 else 0)
  }

  lemma {:induction false} StartingInSplits(a: seq<Session>, b: seq<Session>, lo: int, hi: int)
    ensures StartingIn(a + b, lo, hi) == StartingIn(a, lo, hi) + StartingIn(b, lo, hi)
  {
    if b == [] {
      assert a + b == a;
    } else {
      StartingInSplits(a, b[..|b| - 1], lo, hi);
      assert (a + b)[..|a + b| - 1] == a + b[..|b| - 1];
    }
  }

  lemma StartingInSnoc(rest: seq<Session>, last: Session, lo: int, hi: int)
    ensures StartingIn(rest + [last], lo, hi) ==
            StartingIn(rest, lo, hi) + if lo <= QatarDay(last.startsAt) <= hi then 1 else 0
    ensures StartingIn([], lo, hi) == 0
  {
    assert (rest + [last])[..|rest|] == rest;
  }

  lemma {:induction false} StartingOnDate(date: Date, slots: seq<Slot>, defaultCapacity: Option<int>, lo: int, hi: int)
    requires TimesValid(slots)
    ensures StartingIn(Sessions(date, slots, defaultCapacity), lo, hi) ==
            if lo <= DayNumber(date) <= hi then |slots| else 0
  {
    hide DayNumber, QatarDay, QatarDateTime, StartingIn;
    if slots == [] {
      StartingInSnoc([], Session(0, 0, None), lo, hi);
    } else {
      var n := |slots| - 1;
      StartingOnDate(date, slots[..n], defaultCapacity, lo, hi);
      assert slots[n] in slots;
      QatarDayOfDateTime(date, slots[n].start);
      StartingInSnoc(Sessions(date, slots[..n], defaultCapacity), SessionOf(date, slots[n], defaultCapacity), lo, hi);
    }
  }

  predicate Hit(monthly: Monthly, date: Date) {
    IsoWeekday(date) in monthly.days && (monthly.weeks.EveryWeek? || WeekBucket(date) == monthly.weeks)
  }

  // Number of dates from `start` on, among `n`, that lie from `lo` to `hi` and match the pattern.
  function HitsAmong(monthly: Monthly, dates: seq<Date>, lo: int, hi: int): nat {
    if dates == [] then 0
    else
      var last := dates[|dates| - 1];
      HitsAmong(monthly, dates[..|dates| - 1], lo, hi)
      + (if lo <= DayNumber(last) <= hi && Hit(monthly, last) then 1 else 0)
  }

  lemma {:induction false} SessionsPerHit(input: Input, dates: seq<Date>, defaultCapacity: Option<int>, lo: int,
                                          hi: int)
    requires input.mode.MonthlyMode? && input.monthly.Some? && TimesValid(input.monthly.value.slots)
    ensures StartingIn(Expand(input, dates, false, defaultCapacity), lo, hi) ==
            HitsAmong(input.monthly.value, dates, lo, hi) * |input.monthly.value.slots|
  {
    hide SlotsOn, SlotsFor, Hit, Sessions, TimesValid, StartingIn;
    if dates == [] {
      StartingNever(lo, hi);
    } else {
      var rest, last := dates[..|dates| - 1], dates[|dates| - 1];
      var monthly := input.monthly.value;
      SessionsPerHit(input, rest, defaultCapacity, lo, hi);
      MonthlySlots(input, last);
      StartingOnDate(last, SlotsFor(input, last, false), defaultCapacity, lo, hi);
      StartingInSplits(Expand(input, rest, false, defaultCapacity),
                       Sessions(last, SlotsFor(input, last, false), defaultCapacity), lo, hi);
      OneMoreTimes(HitsAmong(monthly, rest, lo, hi), |monthly.slots|);
    }
  }

  lemma StartingNever(lo: int, hi: int)
    ensures StartingIn([], lo, hi) == 0
  {
  }

  lemma MonthlySlots(input: Input, date: Date)
    requires input.mode.MonthlyMode? && input.monthly.Some? && TimesValid(input.monthly.value.slots)
    ensures TimesValid(SlotsFor(input, date, false))
    ensures |SlotsFor(input, date, false)| == if Hit(input.monthly.value, date) then |input.monthly.value.slots| else 0
  {
  }

  lemma OneMoreTimes(a: int, s: int)
    ensures (a + 1) * s == a * s + s
  {
  }

  // Number of matching days among the first `len` of a month.
  function MonthHits(monthly: Monthly, y: int, m: int, len: nat): nat {
    if len == 0 then 0
    else MonthHits(monthly, y, m, len - 1) + (if Hit(monthly, Date(y, m, len)) then 1 else 0)
  }

  lemma DayOfMonth(y: int, m: int, d: int, date: Date)
    requires Valid(Date(y, m, 1)) && 1 <= d <= DaysInMonth(y, m)
    requires Valid(date) && DayNumber(date) == DayNumber(Date(y, m, 1)) + d - 1
    ensures date == Date(y, m, d)
  {
    DayNumberOrder(date, Date(y, m, d));
  }

  // In a window that contains the whole month, the dates of the month that match are the matching days of the month.
  lemma {:induction false} WindowHits(monthly: Monthly, start: Date, dates: seq<Date>, y: int, m: int)
    requires Valid(start) && Valid(Date(y, m, 1)) && DayNumber(start) <= DayNumber(Date(y, m, 1))
    requires forall i | 0 <= i < |dates| :: Valid(dates[i]) && DayNumber(dates[i]) == DayNumber(start) + i
    ensures var lo := DayNumber(Date(y, m, 1));
      var len := Max(0, Min(|dates| - (lo - DayNumber(start)), DaysInMonth(y, m)));
      HitsAmong(monthly, dates, lo, lo + DaysInMonth(y, m) - 1) == MonthHits(monthly, y, m, len)
  {
    hide Hit, DayNumber, DaysInMonth;
    if dates != [] {
      var n := |dates| - 1;
      WindowHits(monthly, start, dates[..n], y, m);
      var d := DayNumber(dates[n]) - DayNumber(Date(y, m, 1)) + 1;
      if 1 <= d <= DaysInMonth(y, m) {
        DayOfMonth(y, m, d, dates[n]);
      }
    }
  }

  ghost function Weekdays(days: seq<int>): set<int> {
    set d | d in days
  }

  predicate InWeek(monthly: Monthly, date: Date) {
    monthly.weeks.EveryWeek? || WeekBucket(date) == monthly.weeks
  }

  lemma DayHit(monthly: Monthly, y: int, m: int, d: int)
    ensures Hit(monthly, Date(y, m, d)) <==>
      InWeek(monthly, Date(y, m, d)) && WeekdayOf(DayNumber(Date(y, m, 1)) + d - 1) in Weekdays(monthly.days)
  {
    assert DayNumber(Date(y, m, d)) == DayNumber(Date(y, m, 1)) + d - 1;
  }

  // Matching days among days from + 1 to from + len of the month, all of which the chosen week contains.
  lemma {:induction false} HitsOfRun(monthly: Monthly, y: int, m: int, from: nat, len: nat)
    requires forall d | from < d <= from + len :: InWeek(monthly, Date(y, m, d))
    ensures MonthHits(monthly, y, m, from + len) ==
      MonthHits(monthly, y, m, from) + CountDays(Weekdays(monthly.days), DayNumber(Date(y, m, 1)) + from, len)
  {
    hide Hit, InWeek, DayNumber, WeekdayOf;
    if len > 0 {
      HitsOfRun(monthly, y, m, from, len - 1);
      DayHit(monthly, y, m, from + len);
    }
  }

  lemma {:induction false} NoHitsInRun(monthly: Monthly, y: int, m: int, from: nat, len: nat)
    requires forall d | from < d <= from + len :: !InWeek(monthly, Date(y, m, d))
    ensures MonthHits(monthly, y, m, from + len) == MonthHits(monthly, y, m, from)
  {
    hide Hit, InWeek, DayNumber, WeekdayOf;
    if len > 0 {
      NoHitsInRun(monthly, y, m, from, len - 1);
      DayHit(monthly, y, m, from + len);
    }
  }

  lemma MonthHitsNone(monthly: Monthly, y: int, m: int)
    ensures MonthHits(monthly, y, m, 0) == 0
  {
  }

  // A run of days in one week of the month counts its matching weekdays when that week is chosen.
  lemma WeekHits(monthly: Monthly, y: int, m: int, from: nat, len: nat, week: Week)
    requires Valid(Date(y, m, 1)) && from + len <= DaysInMonth(y, m)
    requires forall d | from < d <= from + len :: WeekBucket(Date(y, m, d)) == week
    ensures MonthHits(monthly, y, m, from + len) == MonthHits(monthly, y, m, from) +
      if monthly.weeks.EveryWeek? || monthly.weeks == week
      then CountDays(Weekdays(monthly.days), DayNumber(Date(y, m, 1)) + from, len) else 0
  {
    if monthly.weeks.EveryWeek? || monthly.weeks == week {
      HitsOfRun(monthly, y, m, from, len);
    } else {
      NoHitsInRun(monthly, y, m, from, len);
    }
  }

  // Matching days of a whole month: each chosen weekday once in each of the first three weeks, and once or twice in
  // the last, which has seven to ten days; four or five times in all of them.
  lemma MonthHitsByWeek(monthly: Monthly, y: int, m: int)
    requires Valid(Date(y, m, 1)) && Weekdays(monthly.days) <= AllWeekdays()
    ensures var hits, k := MonthHits(monthly, y, m, DaysInMonth(y, m)), |Weekdays(monthly.days)|;
      && (monthly.weeks.FirstWeek? || monthly.weeks.SecondWeek? || monthly.weeks.ThirdWeek? ==> hits == k)
      && (monthly.weeks.LastWeek? ==> k <= hits <= 2 * k)
      && (monthly.weeks.EveryWeek? ==> 4 * k <= hits <= 5 * k)
  {
    hide MonthHits, DayNumber, CountDays, DaysInMonth, WeekBucket;
    var ws, first, last := Weekdays(monthly.days), DayNumber(Date(y, m, 1)), DaysInMonth(y, m);
    MonthWeeks(y, m);
    MonthHitsNone(monthly, y, m);
    WeekHits(monthly, y, m, 0, 7, FirstWeek);
    WeekHits(monthly, y, m, 7, 7, SecondWeek);
    WeekHits(monthly, y, m, 14, 7, ThirdWeek);
    WeekHits(monthly, y, m, 21, last - 21, LastWeek);
    WeekHasEach(ws, first + 0);
    WeekHasEach(ws, first + 7);
    WeekHasEach(ws, first + 14);
    UpToTwoWeeks(ws, first + 21, last - 21);
  }

  lemma MonthWeeks(y: int, m: int)
    requires Valid(Date(y, m, 1))
    ensures forall d | 0 < d <= 7 :: WeekBucket(Date(y, m, d)) == FirstWeek
    ensures forall d | 7 < d <= 14 :: WeekBucket(Date(y, m, d)) == SecondWeek
    ensures forall d | 14 < d <= 21 :: WeekBucket(Date(y, m, d)) == ThirdWeek
    ensures forall d | 21 < d <= DaysInMonth(y, m) :: WeekBucket(Date(y, m, d)) == LastWeek
  {
  }

  // A window that contains the whole month yields, for k distinct weekdays and s slots, k * s sessions in the month
  // for each of the first three weeks, between k * s and 2 * k * s for the last, and between 4 * k * s and 5 * k * s
  // for every week.
  lemma MonthlySessionCounts(input: Input, y: int, m: int, defaultCapacity: Option<int>)
    requires input.mode.MonthlyMode? && PlanError(input).None? && ValidInput(input)
    requires Weekdays(input.monthly.value.days) <= AllWeekdays()
    requires Valid(Date(y, m, 1)) && DayNumber(input.start) <= DayNumber(Date(y, m, 1))
    requires DayNumber(Date(y, m, 1)) + DaysInMonth(y, m) - 1 <= DayNumber(input.end)
    ensures var monthly := input.monthly.value;
      var lo := DayNumber(Date(y, m, 1));
      var count := StartingIn(Expansion(input, defaultCapacity), lo, lo + DaysInMonth(y, m) - 1);
      var k, s := |Weekdays(monthly.days)|, |monthly.slots|;
      && (monthly.weeks.FirstWeek? || monthly.weeks.SecondWeek? || monthly.weeks.ThirdWeek? ==> count == k * s)
      && (monthly.weeks.LastWeek? ==> k * s <= count <= 2 * k * s)
      && (monthly.weeks.EveryWeek? ==> 4 * k * s <= count <= 5 * k * s)
  {
    hide MonthHits, DayNumber, DaysInMonth, Expand, StartingIn, HitsAmong, Valid, SlotsOn, BadSlots;
    var monthly := input.monthly.value;
    var lo := DayNumber(Date(y, m, 1));
    ExpansionByMode(input, defaultCapacity);
    DatesFromAre(input.start, WindowLength(input.start, input.end));
    SessionsPerHit(input, Window(input), defaultCapacity, lo, lo + DaysInMonth(y, m) - 1);
    WindowHits(monthly, input.start, Window(input), y, m);
    MonthHitsByWeek(monthly, y, m);
    var hits, k, s := MonthHits(monthly, y, m, DaysInMonth(y, m)), |Weekdays(monthly.days)|, |monthly.slots|;
    if monthly.weeks.LastWeek? {
      TimesMonotone(k, hits, s);
      TimesMonotone(hits, 2 * k, s);
    }
    if monthly.weeks.EveryWeek? {
      TimesMonotone(4 * k, hits, s);
      TimesMonotone(hits, 5 * k, s);
    }
  }

  lemma TimesMonotone(a: int, b: int, s: nat)
    requires a <= b
    ensures a * s <= b * s
  {
  }
}
