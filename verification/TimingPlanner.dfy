/**
 src/modules/admin-events/timing-planner.ts: dates of an event window, the week of the month, and the expansion of a
 timing pattern into sessions. Dates are valid calendar dates and times are HH:MM, which the request validation
 enforces for times; instants are minutes since the epoch. The display text of a session is not modelled.
 */
module TimingPlanner {
  import opened Prelude
  import opened Calendar

  datatype Time = Time(h: int, m: int)

  predicate ValidTime(t: Time) {
    0 <= t.h < 24 && 0 <= t.m < 60
  }

  // The order of HH:MM texts.
  predicate Earlier(a: Time, b: Time) {
    a.h < b.h || (a.h == b.h && a.m < b.m)
  }

  datatype Slot = Slot(start: Time, end: Time, capacity: Option<int>)

  datatype Group = Group(days: seq<int>, slots: seq<Slot>)

  datatype Style = Basic | Advance | Individual

  datatype Visible = OnWeekdays | OnWeekends | OnAll

  datatype Daily = Daily(
    style: Style, weekdays: seq<int>, weekends: seq<int>, visible: Visible, slots: seq<Slot>,
    weekdaySlots: seq<Slot>, weekendSlots: seq<Slot>, groups: seq<Group>, customDates: seq<Date>)

  datatype Week = EveryWeek | FirstWeek | SecondWeek | ThirdWeek | LastWeek

  datatype Monthly = Monthly(weeks: Week, days: seq<int>, slots: seq<Slot>)

  datatype Custom = Custom(dates: seq<Date>, slots: seq<Slot>)

  datatype Mode = PreferredMode | DailyMode | MonthlyMode | CustomMode

  datatype Input = Input(
    mode: Mode, start: Date, end: Date, daily: Option<Daily>, monthly: Option<Monthly>, custom: Option<Custom>)

  datatype Session = Session(startsAt: int, endsAt: int, capacity: Option<int>)

  datatype Error =
    | DailyRequired | NoDayGroups | GroupWithoutDays | GroupWithoutSlots | SlotEndsFirst | NoDailySlots
    | MonthlyRequired | NoMonthlyDays | NoMonthlySlots | CustomRequired | NoCustomDates | NoCustomSlots | OutsideWindow

  // ----- time

  const QATAR_OFFSET := 180
  const MINUTES_PER_DAY := 1440

  function QatarDateTime(date: Date, t: Time): int {
    DayNumber(date) * MINUTES_PER_DAY + t.h * 60 + t.m - QATAR_OFFSET
  }

  // The calendar day of an instant in Qatar.
  function QatarDay(instant: int): int {
    (instant + QATAR_OFFSET) / MINUTES_PER_DAY
  }

  lemma QatarDayOfDateTime(date: Date, t: Time)
    requires ValidTime(t)
    ensures QatarDay(QatarDateTime(date, t)) == DayNumber(date)
  {
  }

  lemma EarlierStartsFirst(date: Date, a: Time, b: Time)
    requires ValidTime(a) && ValidTime(b)
    ensures Earlier(a, b) <==> QatarDateTime(date, a) < QatarDateTime(date, b)
  {
  }

  // ----- dates

  function DatesFrom(start: Date, n: nat): seq<Date>
    decreases n
  {
    if n == 0 then [] else [start] + DatesFrom(Next(start), n - 1)
  }

  function WindowLength(start: Date, end: Date): nat {
    Max(0, DayNumber(end) - DayNumber(start) + 1)
  }

  // Each date of the window once, in order.
  lemma {:induction false} DatesFromAre(start: Date, n: nat)
    requires Valid(start)
    ensures |DatesFrom(start, n)| == n
    ensures forall i | 0 <= i < n ::
      Valid(DatesFrom(start, n)[i]) && DayNumber(DatesFrom(start, n)[i]) == DayNumber(start) + i
    decreases n
  {
    if n > 0 {
      NextIsNextDay(start);
      DatesFromAre(Next(start), n - 1);
    }
  }

  method EachDate(start: Date, end: Date) returns (dates: seq<Date>)
    requires Valid(start) && Valid(end)
    ensures |dates| == WindowLength(start, end)
    ensures forall i | 0 <= i < |dates| :: Valid(dates[i]) && DayNumber(dates[i]) == DayNumber(start) + i
    ensures dates == DatesFrom(start, WindowLength(start, end))
  {
    hide DayNumber, Valid, Next;
    dates := [];
    var cursor := start;
    while DayNumber(cursor) <= DayNumber(end)
      invariant Valid(cursor) && DayNumber(cursor) == DayNumber(start) + |dates|
      invariant |dates| <= WindowLength(start, end)
      invariant dates + DatesFrom(cursor, WindowLength(start, end) - |dates|)
             == DatesFrom(start, WindowLength(start, end))
      decreases DayNumber(end) - DayNumber(cursor)
    {
      NextIsNextDay(cursor);
      ghost var left := WindowLength(start, end) - |dates|;
      assert dates + DatesFrom(cursor, left) == dates + [cursor] + DatesFrom(Next(cursor), left - 1);
      dates := dates + [cursor];
      cursor := Next(cursor);
    }
    DatesFromAre(start, WindowLength(start, end));
    assert dates + [] == dates;
  }

  function WeekBucket(date: Date): Week {
    var lastDay := DaysInMonth(date.y, date.m);
    if date.d > lastDay - 7 then LastWeek
    else if date.d <= 7 then FirstWeek
    else if date.d <= 14 then SecondWeek
    else if date.d <= 21 then ThirdWeek
    else LastWeek
  }

  // In every month the first three weeks are days 1-7, 8-14 and 15-21, and all later days are the last week.
  lemma WeekBuckets(date: Date)
    requires Valid(date)
    ensures WeekBucket(date) == LastWeek <==> date.d >= 22
    ensures WeekBucket(date) == ThirdWeek <==> 15 <= date.d <= 21
    ensures WeekBucket(date) == SecondWeek <==> 8 <= date.d <= 14
    ensures WeekBucket(date) == FirstWeek <==> date.d <= 7
  {
  }

  // ----- the declarative expansion

  function SessionOf(date: Date, slot: Slot, defaultCapacity: Option<int>): Session {
    Session(QatarDateTime(date, slot.start), QatarDateTime(date, slot.end),
            if slot.capacity.Some? then slot.capacity else defaultCapacity)
  }

  function Sessions(date: Date, slots: seq<Slot>, defaultCapacity: Option<int>): seq<Session> {
    if slots == [] then []
    else Sessions(date, slots[..|slots| - 1], defaultCapacity) + [SessionOf(date, slots[|slots| - 1], defaultCapacity)]
  }

  // The slots of the day groups that name a weekday, group by group, once per mention.
  function MentionedSlots(days: seq<int>, slots: seq<Slot>, dow: int): seq<Slot> {
    if days == [] then []
    else MentionedSlots(days[..|days| - 1], slots, dow) + (if days[|days| - 1] == dow then slots else [])
  }

  function GroupSlots(groups: seq<Group>, dow: int): seq<Slot> {
    if groups == [] then []
    else
      var last := groups[|groups| - 1];
      GroupSlots(groups[..|groups| - 1], dow) + MentionedSlots(last.days, last.slots, dow)
  }

  predicate InWindow(input: Input, date: Date) {
    !Less(date, input.start) && !Less(input.end, date)
  }

  // What one date of the window contributes.
  function SlotsOn(input: Input, date: Date): seq<Slot> {
    var dow := IsoWeekday(date);
    match input.mode
    case PreferredMode => []
    case DailyMode =>
      if input.daily.None? then []
      else
        var daily := input.daily.value;
        var weekday, weekend := dow in daily.weekdays, dow in daily.weekends;
        (match daily.style
         case Individual => GroupSlots(daily.groups, dow)
         case Basic =>
           if (weekday || weekend) && (daily.visible.OnWeekdays? ==> weekday) && (daily.visible.OnWeekends? ==> weekend)
           then daily.slots else []
         case Advance =>
           (if weekday then daily.weekdaySlots else []) + (if weekend then daily.weekendSlots else []))
    case MonthlyMode =>
      if input.monthly.None? then []
      else
        var monthly := input.monthly.value;
        if dow in monthly.days && (monthly.weeks.EveryWeek? || WeekBucket(date) == monthly.weeks)
        then monthly.slots else []
    case CustomMode => []
  }

  // What one extra date contributes: `custom_dates` outside the window are skipped.
  function ExtraSlots(input: Input, date: Date): seq<Slot> {
    match input.mode
    case DailyMode =>
      if input.daily.None? || !InWindow(input, date) then []
      else
        var daily := input.daily.value;
        var dow := IsoWeekday(date);
        (match daily.style
         case Individual => GroupSlots(daily.groups, dow)
         case Basic => daily.slots
         case Advance =>
           if dow in daily.weekdays then daily.weekdaySlots
           else if dow in daily.weekends || daily.weekdaySlots == [] then daily.weekendSlots
           else daily.weekdaySlots)
    case CustomMode => if input.custom.Some? then input.custom.value.slots else []
    case _ => []
  }

  function ExtraDates(input: Input): seq<Date> {
    match input.mode
    case DailyMode => if input.daily.Some? then input.daily.value.customDates else []
    case CustomMode => if input.custom.Some? then input.custom.value.dates else []
    case _ => []
  }

  function SlotsFor(input: Input, date: Date, extra: bool): seq<Slot> {
    if extra then ExtraSlots(input, date) else SlotsOn(input, date)
  }

  function Expand(input: Input, dates: seq<Date>, extra: bool, defaultCapacity: Option<int>): seq<Session> {
    if dates == [] then []
    else
      var last := dates[|dates| - 1];
      Expand(input, dates[..|dates| - 1], extra, defaultCapacity)
      + Sessions(last, SlotsFor(input, last, extra), defaultCapacity)
  }

  function Window(input: Input): seq<Date> {
    DatesFrom(input.start, WindowLength(input.start, input.end))
  }

  function Expansion(input: Input, defaultCapacity: Option<int>): seq<Session> {
    Expand(input, Window(input), false, defaultCapacity) + Expand(input, ExtraDates(input), true, defaultCapacity)
  }

  // ----- when a pattern is rejected

  predicate BadSlots(slots: seq<Slot>) {
    exists slot :: slot in slots && !Earlier(slot.start, slot.end)
  }

  predicate BadDates(input: Input, dates: seq<Date>, extra: bool) {
    exists date :: date in dates && BadSlots(SlotsFor(input, date, extra))
  }

  function SlotError(input: Input): Option<Error> {
    if BadDates(input, Window(input), false) || BadDates(input, ExtraDates(input), true)
    then Some(SlotEndsFirst) else None
  }

  function GroupError(groups: seq<Group>): Option<Error> {
    if groups == [] then None
    else if groups[0].days == [] then Some(GroupWithoutDays)
    else if groups[0].slots == [] then Some(GroupWithoutSlots)
    else GroupError(groups[1..])
  }

  predicate Matches(daily: Daily, date: Date) {
    IsoWeekday(date) in daily.weekdays || IsoWeekday(date) in daily.weekends
  }

  predicate IsBasic(input: Input) {
    input.mode.DailyMode? && input.daily.Some? && input.daily.value.style.Basic?
  }

  // A date of the basic style that matches a weekday while there are no slots to push.
  predicate LacksSlots(input: Input, date: Date) {
    IsBasic(input) && input.daily.value.slots == [] && Matches(input.daily.value, date)
  }

  predicate AnyLacksSlots(input: Input) {
    exists date :: date in Window(input) && LacksSlots(input, date)
  }

  function PlanError(input: Input): Option<Error> {
    match input.mode
    case PreferredMode => None
    case DailyMode =>
      if input.daily.None? then Some(DailyRequired)
      else
        var daily := input.daily.value;
        (match daily.style
         case Individual =>
           if daily.groups == [] then Some(NoDayGroups)
           else if GroupError(daily.groups).Some? then GroupError(daily.groups) else SlotError(input)
         case Basic =>
           if AnyLacksSlots(input) then Some(NoDailySlots) else SlotError(input)
         case Advance => SlotError(input))
    case MonthlyMode =>
      if input.monthly.None? then Some(MonthlyRequired)
      else if input.monthly.value.days == [] then Some(NoMonthlyDays)
      else if input.monthly.value.slots == [] then Some(NoMonthlySlots)
      else SlotError(input)
    case CustomMode =>
      if input.custom.None? then Some(CustomRequired)
      else
        var custom := input.custom.value;
        if custom.dates == [] then Some(NoCustomDates)
        else if custom.slots == [] then Some(NoCustomSlots)
        else if !InWindow(input, custom.dates[0]) then Some(OutsideWindow)
        else if BadSlots(custom.slots) then Some(SlotEndsFirst)
        else if exists date :: date in custom.dates && !InWindow(input, date) then Some(OutsideWindow)
        else None
  }

  // ----- the planner

  lemma {:induction false} SessionsSnoc(date: Date, slots: seq<Slot>, i: nat, defaultCapacity: Option<int>)
    requires i < |slots|
    ensures Sessions(date, slots[..i + 1], defaultCapacity) ==
            Sessions(date, slots[..i], defaultCapacity) + [SessionOf(date, slots[i], defaultCapacity)]
  {
    assert slots[..i + 1][..i] == slots[..i];
  }

  method PushSlots(out: seq<Session>, date: Date, slots: seq<Slot>, defaultCapacity: Option<int>)
    returns (r: Result<seq<Session>, Error>)
    ensures r == if BadSlots(slots) then Err(SlotEndsFirst) else Ok(out + Sessions(date, slots, defaultCapacity))
  {
    var pushed := out;
    for i := 0 to |slots|
      invariant pushed == out + Sessions(date, slots[..i], defaultCapacity)
      invariant forall slot | slot in slots[..i] :: Earlier(slot.start, slot.end)
    {
      if !Earlier(slots[i].start, slots[i].end) {
        return Err(SlotEndsFirst);
      }
      SessionsSnoc(date, slots, i, defaultCapacity);
      pushed := pushed + [SessionOf(date, slots[i], defaultCapacity)];
    }
    assert slots[..|slots|] == slots;
    r := Ok(pushed);
  }

  method CheckGroups(groups: seq<Group>) returns (error: Option<Error>)
    ensures error == GroupError(groups)
  {
    for i := 0 to |groups|
      invariant GroupError(groups) == GroupError(groups[i..])
    {
      if |groups[i].days| == 0 {
        return Some(GroupWithoutDays);
      }
      if |groups[i].slots| == 0 {
        return Some(GroupWithoutSlots);
      }
    }
    error := None;
  }

  // The map from weekday to slots, and what looking a weekday up in it gives.
  function Lookup(byDow: map<int, seq<Slot>>, dow: int): seq<Slot> {
    if dow in byDow then byDow[dow] else []
  }

  lemma LookupUpdated(byDow: map<int, seq<Slot>>, key: int, slots: seq<Slot>, dow: int)
    ensures Lookup(byDow[key := slots], dow) == if dow == key then slots else Lookup(byDow, dow)
  {
  }

  lemma MentionedSnoc(days: seq<int>, i: nat, slots: seq<Slot>, dow: int)
    requires i < |days|
    ensures MentionedSlots(days[..i + 1], slots, dow) ==
            MentionedSlots(days[..i], slots, dow) + (if days[i] == dow then slots else [])
  {
    assert days[..i + 1][..i] == days[..i];
  }

  lemma MentionedNone(slots: seq<Slot>, dow: int)
    ensures MentionedSlots([], slots, dow) == []
  {
  }

  method AddGroup(before: map<int, seq<Slot>>, group: Group) returns (byDow: map<int, seq<Slot>>)
    ensures forall dow :: Lookup(byDow, dow) == Lookup(before, dow) + MentionedSlots(group.days, group.slots, dow)
  {
    hide Lookup, MentionedSlots;
    byDow := before;
    forall dow ensures Lookup(before, dow) == Lookup(before, dow) + MentionedSlots(group.days[..0], group.slots, dow) {
      MentionedNone(group.slots, dow);
      assert group.days[..0] == [];
    }
    for i := 0 to |group.days|
      invariant forall dow ::
        Lookup(byDow, dow) == Lookup(before, dow) + MentionedSlots(group.days[..i], group.slots, dow)
    {
      var slots := Lookup(byDow, group.days[i]) + group.slots;
      forall dow
        ensures Lookup(byDow[group.days[i] := slots], dow) ==
                Lookup(before, dow) + MentionedSlots(group.days[..i + 1], group.slots, dow)
      {
        LookupUpdated(byDow, group.days[i], slots, dow);
        MentionedSnoc(group.days, i, group.slots, dow);
      }
      byDow := byDow[group.days[i] := slots];
    }
    assert group.days[..|group.days|] == group.days;
  }

  method SlotsByWeekday(groups: seq<Group>) returns (byDow: map<int, seq<Slot>>)
    ensures forall dow :: Lookup(byDow, dow) == GroupSlots(groups, dow)
  {
    byDow := map[];
    for g := 0 to |groups|
      invariant forall dow :: Lookup(byDow, dow) == GroupSlots(groups[..g], dow)
    {
      assert groups[..g + 1][..g] == groups[..g];
      byDow := AddGroup(byDow, groups[g]);
    }
    assert groups[..|groups|] == groups;
  }

  // Loop state of the planner: nothing rejected so far, and the sessions of the dates done so far.
  ghost predicate Pushed(out: seq<Session>, before: seq<Session>, input: Input, dates: seq<Date>, extra: bool,
                         defaultCapacity: Option<int>) {
    out == before + Expand(input, dates, extra, defaultCapacity) && !BadDates(input, dates, extra)
  }

  lemma PushedNone(before: seq<Session>, input: Input, extra: bool, defaultCapacity: Option<int>)
    ensures Pushed(before, before, input, [], extra, defaultCapacity)
  {
    assert before + [] == before;
  }

  lemma PushedNext(out: seq<Session>, before: seq<Session>, input: Input, dates: seq<Date>, i: nat, extra: bool,
                   defaultCapacity: Option<int>)
    requires i < |dates| && Pushed(out, before, input, dates[..i], extra, defaultCapacity)
    ensures BadSlots(SlotsFor(input, dates[i], extra)) ==> BadDates(input, dates, extra)
    ensures !BadSlots(SlotsFor(input, dates[i], extra)) ==>
      Pushed(out + Sessions(dates[i], SlotsFor(input, dates[i], extra), defaultCapacity), before, input,
             dates[..i + 1], extra, defaultCapacity)
  {
    hide Sessions, SlotsFor, BadSlots;
    assert dates[..i + 1][..i] == dates[..i];
    assert dates[..i + 1] == dates[..i] + [dates[i]];
    assert dates[i] in dates;
  }

  lemma PushedAll(out: seq<Session>, input: Input, dates: seq<Date>, extra: bool, defaultCapacity: Option<int>)
    requires Pushed(out, [], input, dates, extra, defaultCapacity)
    ensures out == Expand(input, dates, extra, defaultCapacity) && !BadDates(input, dates, extra)
  {
  }

  // The outcome of pushing one date of the window.
  function DayOutcome(out: seq<Session>, input: Input, date: Date, defaultCapacity: Option<int>)
    : Result<seq<Session>, Error>
  {
    if LacksSlots(input, date) then Err(NoDailySlots)
    else if BadSlots(SlotsOn(input, date)) then Err(SlotEndsFirst)
    else Ok(out + Sessions(date, SlotsOn(input, date), defaultCapacity))
  }

  method PushBasicDay(out: seq<Session>, input: Input, date: Date, defaultCapacity: Option<int>)
    returns (r: Result<seq<Session>, Error>)
    requires IsBasic(input)
    ensures r == DayOutcome(out, input, date, defaultCapacity)
  {
    var daily := input.daily.value;
    var dow := IsoWeekday(date);
    var isWeekday, isWeekend := dow in daily.weekdays, dow in daily.weekends;
    assert out + [] == out;
    if !isWeekday && !isWeekend {
      return Ok(out);
    }
    if |daily.slots| == 0 {
      return Err(NoDailySlots);
    }
    if (daily.visible.OnWeekdays? && !isWeekday) || (daily.visible.OnWeekends? && !isWeekend) {
      return Ok(out);
    }
    r := PushSlots(out, date, daily.slots, defaultCapacity);
  }

  method PushAdvanceDay(out: seq<Session>, input: Input, date: Date, defaultCapacity: Option<int>)
    returns (r: Result<seq<Session>, Error>)
    requires input.mode.DailyMode? && input.daily.Some? && input.daily.value.style.Advance?
    ensures r == DayOutcome(out, input, date, defaultCapacity)
  {
    hide Sessions, BadSlots;
    var daily := input.daily.value;
    var dow := IsoWeekday(date);
    var isWeekday, isWeekend := dow in daily.weekdays, dow in daily.weekends;
    ghost var a, b := if isWeekday then daily.weekdaySlots else [], if isWeekend then daily.weekendSlots else [];
    assert SlotsOn(input, date) == a + b;
    SessionsSplit(date, a, b, defaultCapacity);
    assert out + (Sessions(date, a, defaultCapacity) + Sessions(date, b, defaultCapacity))
        == out + Sessions(date, a, defaultCapacity) + Sessions(date, b, defaultCapacity);
    if isWeekday {
      r := PushSlots(out, date, daily.weekdaySlots, defaultCapacity);
      if r.Err? {
        return;
      }
    } else {
      NothingToPush(out, date, defaultCapacity);
      r := Ok(out);
    }
    NothingToPush(r.value, date, defaultCapacity);
    if isWeekend {
      r := PushSlots(r.value, date, daily.weekendSlots, defaultCapacity);
    }
  }

  lemma {:induction false} SessionsSplit(date: Date, a: seq<Slot>, b: seq<Slot>, defaultCapacity: Option<int>)
    ensures Sessions(date, a + b, defaultCapacity) ==
            Sessions(date, a, defaultCapacity) + Sessions(date, b, defaultCapacity)
    ensures BadSlots(a + b) <==> BadSlots(a) || BadSlots(b)
  {
    assert forall slot :: slot in a + b <==> slot in a || slot in b;
    if b == [] {
      assert a + b == a;
    } else {
      SessionsSplit(date, a, b[..|b| - 1], defaultCapacity);
      assert (a + b)[..|a + b| - 1] == a + b[..|b| - 1];
    }
  }

  method PushMonthlyDay(out: seq<Session>, input: Input, date: Date, defaultCapacity: Option<int>)
    returns (r: Result<seq<Session>, Error>)
    requires input.mode.MonthlyMode? && input.monthly.Some?
    ensures r == DayOutcome(out, input, date, defaultCapacity)
  {
    var monthly := input.monthly.value;
    if IsoWeekday(date) !in monthly.days {
      assert out + [] == out;
      return Ok(out);
    }
    if !monthly.weeks.EveryWeek? && WeekBucket(date) != monthly.weeks {
      assert out + [] == out;
      return Ok(out);
    }
    r := PushSlots(out, date, monthly.slots, defaultCapacity);
  }

  method PushIndividualDay(out: seq<Session>, input: Input, byDow: map<int, seq<Slot>>, date: Date,
                           defaultCapacity: Option<int>)
    returns (r: Result<seq<Session>, Error>)
    requires input.mode.DailyMode? && input.daily.Some? && input.daily.value.style.Individual?
    requires forall dow :: Lookup(byDow, dow) == GroupSlots(input.daily.value.groups, dow)
    ensures r == DayOutcome(out, input, date, defaultCapacity)
  {
    var dow := IsoWeekday(date);
    assert Lookup(byDow, dow) == SlotsOn(input, date);
    if dow in byDow && |byDow[dow]| > 0 {
      r := PushSlots(out, date, byDow[dow], defaultCapacity);
    } else {
      assert out + [] == out;
      r := Ok(out);
    }
  }

  method PushDay(out: seq<Session>, input: Input, byDow: map<int, seq<Slot>>, date: Date, defaultCapacity: Option<int>)
    returns (r: Result<seq<Session>, Error>)
    requires (input.mode.DailyMode? && input.daily.Some?) || (input.mode.MonthlyMode? && input.monthly.Some?)
    requires input.mode.DailyMode? && input.daily.value.style.Individual? ==>
      forall dow :: Lookup(byDow, dow) == GroupSlots(input.daily.value.groups, dow)
    ensures r == DayOutcome(out, input, date, defaultCapacity)
  {
    hide DayOutcome, Lookup, GroupSlots;
    if input.mode.MonthlyMode? {
      r := PushMonthlyDay(out, input, date, defaultCapacity);
    } else if input.daily.value.style.Individual? {
      r := PushIndividualDay(out, input, byDow, date, defaultCapacity);
    } else if input.daily.value.style.Basic? {
      r := PushBasicDay(out, input, date, defaultCapacity);
    } else {
      r := PushAdvanceDay(out, input, date, defaultCapacity);
    }
  }

  // The three loops over the dates of the window; `byDow` is the weekday map of the individual style.
  method PushWindow(input: Input, byDow: map<int, seq<Slot>>, defaultCapacity: Option<int>)
    returns (r: Result<seq<Session>, Error>)
    requires Valid(input.start) && Valid(input.end)
    requires (input.mode.DailyMode? && input.daily.Some?) || (input.mode.MonthlyMode? && input.monthly.Some?)
    requires input.mode.DailyMode? && input.daily.value.style.Individual? ==>
      forall dow :: Lookup(byDow, dow) == GroupSlots(input.daily.value.groups, dow)
    ensures r == if AnyLacksSlots(input) then Err(NoDailySlots)
                 else if BadDates(input, Window(input), false) then Err(SlotEndsFirst)
                 else Ok(Expand(input, Window(input), false, defaultCapacity))
  {
    hide SlotsOn, BadSlots, Sessions, Expand, GroupSlots, LacksSlots, BadDates, Lookup, WindowLength, DatesFrom;
    hide DayNumber, Valid, Pushed;
    var dates := EachDate(input.start, input.end);
    var out: seq<Session> := [];
    PushedNone([], input, false, defaultCapacity);
    assert dates[..0] == [];
    for i := 0 to |dates|
      invariant Pushed(out, [], input, dates[..i], false, defaultCapacity)
      invariant forall j | 0 <= j < i :: !LacksSlots(input, dates[j])
    {
      var date := dates[i];
      PushedNext(out, [], input, dates, i, false, defaultCapacity);
      BadSlotsAreSlots(input, date);
      assert date in dates;
      var pushed := PushDay(out, input, byDow, date, defaultCapacity);
      if pushed.Err? {
        return pushed;
      }
      out := pushed.value;
    }
    assert dates[..|dates|] == dates;
    PushedAll(out, input, dates, false, defaultCapacity);
    r := Ok(out);
  }

  // A pattern that has a bad slot is not one that lacks slots.
  lemma BadSlotsAreSlots(input: Input, date: Date)
    ensures BadSlots(SlotsOn(input, date)) ==> !AnyLacksSlots(input)
  {
  }

  // The two loops over `custom_dates`, which skip dates outside the window.
  method PushExtras(out: seq<Session>, input: Input, byDow: map<int, seq<Slot>>, defaultCapacity: Option<int>)
    returns (r: Result<seq<Session>, Error>)
    requires input.mode.DailyMode? && input.daily.Some?
    requires input.daily.value.style.Individual? ==>
      forall dow :: Lookup(byDow, dow) == GroupSlots(input.daily.value.groups, dow)
    ensures r == if BadDates(input, ExtraDates(input), true) then Err(SlotEndsFirst)
                 else Ok(out + Expand(input, ExtraDates(input), true, defaultCapacity))
  {
    hide BadSlots, Sessions, Expand, GroupSlots, BadDates;
    var daily := input.daily.value;
    var dates := daily.customDates;
    var pushed := out;
    PushedNone(out, input, true, defaultCapacity);
    assert dates[..0] == [];
    for i := 0 to |dates|
      invariant Pushed(pushed, out, input, dates[..i], true, defaultCapacity)
    {
      var extra := dates[i];
      PushedNext(pushed, out, input, dates, i, true, defaultCapacity);
      var dow := IsoWeekday(extra);
      var step: Result<seq<Session>, Error>;
      if Less(extra, input.start) || Less(input.end, extra) {
        NothingToPush(pushed, extra, defaultCapacity);
        step := Ok(pushed);
      } else if daily.style.Individual? {
        assert Lookup(byDow, dow) == ExtraSlots(input, extra);
        if |Lookup(byDow, dow)| > 0 {
          step := PushSlots(pushed, extra, Lookup(byDow, dow), defaultCapacity);
        } else {
          NothingToPush(pushed, extra, defaultCapacity);
          step := Ok(pushed);
        }
      } else if daily.style.Basic? {
        step := PushSlots(pushed, extra, daily.slots, defaultCapacity);
      } else if dow in daily.weekdays {
        step := PushSlots(pushed, extra, daily.weekdaySlots, defaultCapacity);
      } else if dow in daily.weekends {
        step := PushSlots(pushed, extra, daily.weekendSlots, defaultCapacity);
      } else {
        step := PushSlots(pushed, extra,
                          if |daily.weekdaySlots| > 0 then daily.weekdaySlots else daily.weekendSlots, defaultCapacity);
      }
      if step.Err? {
        return step;
      }
      pushed := step.value;
    }
    assert dates[..|dates|] == dates;
    r := Ok(pushed);
  }

  lemma NothingToPush(out: seq<Session>, date: Date, defaultCapacity: Option<int>)
    ensures out + Sessions(date, [], defaultCapacity) == out && !BadSlots([])
  {
    assert out + [] == out;
  }

  method PlanCustom(input: Input, defaultCapacity: Option<int>) returns (r: Result<seq<Session>, Error>)
    requires input.mode.CustomMode?
    ensures r == match PlanError(input)
                 case Some(e) => Err(e)
                 case None => Ok(Expand(input, ExtraDates(input), true, defaultCapacity))
  {
    hide BadSlots, Sessions, Expand, BadDates;
    if input.custom.None? {
      return Err(CustomRequired);
    }
    var custom := input.custom.value;
    var dates := custom.dates;
    if |dates| == 0 {
      return Err(NoCustomDates);
    }
    if |custom.slots| == 0 {
      return Err(NoCustomSlots);
    }
    var out: seq<Session> := [];
    PushedNone(out, input, true, defaultCapacity);
    assert dates[..0] == [];
    for i := 0 to |dates|
      invariant Pushed(out, [], input, dates[..i], true, defaultCapacity)
      invariant forall j | 0 <= j < i :: InWindow(input, dates[j])
      invariant i > 0 ==> !BadSlots(custom.slots)
    {
      var date := dates[i];
      PushedNext(out, [], input, dates, i, true, defaultCapacity);
      if Less(date, input.start) || Less(input.end, date) {
        assert date in custom.dates && !InWindow(input, date);
        return Err(OutsideWindow);
      }
      var step := PushSlots(out, date, custom.slots, defaultCapacity);
      if step.Err? {
        return step;
      }
      out := step.value;
    }
    assert dates[..|dates|] == dates;
    assert [] + Expand(input, dates, true, defaultCapacity) == Expand(input, dates, true, defaultCapacity);
    r := Ok(out);
  }

  // The planner rejects a pattern exactly when the declarative check does, with the same error, and otherwise returns
  // the declarative expansion.
  method PlanSessions(input: Input, defaultCapacity: Option<int>) returns (r: Result<seq<Session>, Error>)
    requires Valid(input.start) && Valid(input.end)
    ensures r == match PlanError(input)
                 case Some(e) => Err(e)
                 case None => Ok(Expansion(input, defaultCapacity))
  {
    ExpansionByMode(input, defaultCapacity);
    hide BadSlots, Sessions, Expand, BadDates, GroupSlots, SlotsOn, ExtraSlots, GroupError, LacksSlots, Expansion;
    hide Lookup;
    match input.mode
    case PreferredMode =>
      r := Ok([]);
    case DailyMode =>
      if input.daily.None? {
        return Err(DailyRequired);
      }
      var daily := input.daily.value;
      var byDow: map<int, seq<Slot>> := map[];
      if daily.style.Individual? {
        if |daily.groups| == 0 {
          return Err(NoDayGroups);
        }
        var error := CheckGroups(daily.groups);
        if error.Some? {
          return Err(error.value);
        }
        byDow := SlotsByWeekday(daily.groups);
      }
      r := PushWindow(input, byDow, defaultCapacity);
      if r.Ok? {
        r := PushExtras(r.value, input, byDow, defaultCapacity);
      }
    case MonthlyMode =>
      if input.monthly.None? {
        return Err(MonthlyRequired);
      }
      if |input.monthly.value.days| == 0 {
        return Err(NoMonthlyDays);
      }
      if |input.monthly.value.slots| == 0 {
        return Err(NoMonthlySlots);
      }
      r := PushWindow(input, map[], defaultCapacity);
    case CustomMode =>
      r := PlanCustom(input, defaultCapacity);
  }

  lemma {:induction false} NothingOnDates(input: Input, dates: seq<Date>, defaultCapacity: Option<int>)
    requires input.mode.PreferredMode? || input.mode.CustomMode?
    ensures Expand(input, dates, false, defaultCapacity) == [] && !BadDates(input, dates, false)
  {
    if dates != [] {
      NothingOnDates(input, dates[..|dates| - 1], defaultCapacity);
    }
  }

  lemma ExpansionByMode(input: Input, defaultCapacity: Option<int>)
    ensures var window := Expand(input, Window(input), false, defaultCapacity);
      var extra := Expand(input, ExtraDates(input), true, defaultCapacity);
      && Expansion(input, defaultCapacity) == window + extra
      && (input.mode.PreferredMode? ==> Expansion(input, defaultCapacity) == [])
      && (input.mode.MonthlyMode? ==>
            Expansion(input, defaultCapacity) == window && !BadDates(input, ExtraDates(input), true))
      && (input.mode.CustomMode? ==> Expansion(input, defaultCapacity) == extra)
      && (!IsBasic(input) ==> !AnyLacksSlots(input))
  {
    if input.mode.PreferredMode? || input.mode.CustomMode? {
      NothingOnDates(input, Window(input), defaultCapacity);
    }
  }
}
