/** Which sessions a plan holds, and which patterns are accepted, over the fields of the request. */
module TimingSessions {
  import opened Prelude
  import opened Calendar
  import opened TimingPlanner

  // The dates the planner goes through: those of the window, and the extra ones; `custom_dates` of a daily pattern
  // count inside the window only.
  predicate Visited(input: Input, date: Date, extra: bool) {
    var within := !Less(date, input.start) && !Less(input.end, date);
    match input.mode
    case PreferredMode => false
    case DailyMode =>
      input.daily.Some? && within && if extra then date in input.daily.value.customDates else Valid(date)
    case MonthlyMode => input.monthly.Some? && within && !extra && Valid(date)
    case CustomMode => extra && input.custom.Some? && date in input.custom.value.dates
  }

  // The slots a daily pattern has for a date of the window.
  predicate DailyOffers(daily: Daily, date: Date, slot: Slot) {
    var weekday, weekend := IsoWeekday(date) in daily.weekdays, IsoWeekday(date) in daily.weekends;
    match daily.style
    case Individual => exists group :: group in daily.groups && IsoWeekday(date) in group.days && slot in group.slots
    case Basic =>
      && slot in daily.slots
      && (if daily.visible.OnWeekdays? then weekday
          else if daily.visible.OnWeekends? then weekend
          else weekday || weekend)
    case Advance => (weekday && slot in daily.weekdaySlots) || (weekend && slot in daily.weekendSlots)
  }

  // The slots it has for an extra date: the basic style asks for no weekday, and the advanced one falls back on the
  // weekday slots, or the weekend slots without any.
  predicate ExtraOffers(daily: Daily, date: Date, slot: Slot) {
    var weekday, weekend := IsoWeekday(date) in daily.weekdays, IsoWeekday(date) in daily.weekends;
    match daily.style
    case Individual => exists group :: group in daily.groups && IsoWeekday(date) in group.days && slot in group.slots
    case Basic => slot in daily.slots
    case Advance =>
      if weekday || (!weekend && daily.weekdaySlots != []) then slot in daily.weekdaySlots
      else slot in daily.weekendSlots
  }

  predicate MonthlyOffers(monthly: Monthly, date: Date, slot: Slot) {
    && slot in monthly.slots && IsoWeekday(date) in monthly.days
    && match monthly.weeks
       case EveryWeek => true
       case FirstWeek => date.d <= 7
       case SecondWeek => 8 <= date.d <= 14
       case ThirdWeek => 15 <= date.d <= 21
       case LastWeek => 22 <= date.d
  }

  predicate Offers(input: Input, date: Date, extra: bool, slot: Slot) {
    match input.mode
    case PreferredMode => false
    case DailyMode =>
      input.daily.Some? &&
      if extra then ExtraOffers(input.daily.value, date, slot) else DailyOffers(input.daily.value, date, slot)
    case MonthlyMode => input.monthly.Some? && MonthlyOffers(input.monthly.value, date, slot)
    case CustomMode => input.custom.Some? && slot in input.custom.value.slots
  }

  // The slot on the date, three hours ahead of UTC, with its own capacity or else the default one.
  predicate Holds(s: Session, date: Date, slot: Slot, defaultCapacity: Option<int>) {
    && s.startsAt == 1440 * DayNumber(date) + 60 * slot.start.h + slot.start.m - 180
    && s.endsAt == 1440 * DayNumber(date) + 60 * slot.end.h + slot.end.m - 180
    && s.capacity == if slot.capacity.Some? then slot.capacity else defaultCapacity
  }

  lemma {:induction false} MentionedHas(days: seq<int>, slots: seq<Slot>, dow: int, slot: Slot)
    ensures slot in MentionedSlots(days, slots, dow) <==> dow in days && slot in slots
  {
    if days != [] {
      var front, last := days[..|days| - 1], days[|days| - 1];
      MentionedHas(front, slots, dow, slot);
      assert days == front + [last];
    }
  }

  lemma {:induction false} GroupsHave(groups: seq<Group>, dow: int, slot: Slot)
    ensures slot in GroupSlots(groups, dow) <==>
            exists group :: group in groups && dow in group.days && slot in group.slots
  {
    if groups != [] {
      var front, last := groups[..|groups| - 1], groups[|groups| - 1];
      GroupsHave(front, dow, slot);
      MentionedHas(last.days, last.slots, dow, slot);
      assert groups == front + [last];
    }
  }

  lemma WindowHas(input: Input, date: Date)
    requires Valid(input.start) && Valid(input.end)
    ensures date in Window(input) <==> Valid(date) && InWindow(input, date)
  {
    hide DayNumber, Valid, Less, DatesFrom;
    var n := WindowLength(input.start, input.end);
    DatesFromAre(input.start, n);
    if date in Window(input) {
      var i :| 0 <= i < n && Window(input)[i] == date;
      DayNumberOrder(date, input.start);
      DayNumberOrder(input.end, date);
    }
    if Valid(date) && InWindow(input, date) {
      DayNumberOrder(date, input.start);
      DayNumberOrder(input.end, date);
      var k := DayNumber(date) - DayNumber(input.start);
      DayNumberOrder(Window(input)[k], date);
    }
  }

  lemma SlotsOffered(input: Input, date: Date, extra: bool, slot: Slot)
    requires Valid(date) || extra
    requires input.mode.DailyMode? && extra ==> InWindow(input, date)
    requires input.mode.MonthlyMode? ==> !extra
    requires input.mode.CustomMode? ==> extra
    ensures slot in SlotsFor(input, date, extra) <==> Offers(input, date, extra, slot)
  {
    hide GroupSlots, IsoWeekday, InWindow, Valid, WeekBucket;
    if input.mode.DailyMode? && input.daily.Some? {
      GroupsHave(input.daily.value.groups, IsoWeekday(date), slot);
    }
    if input.mode.MonthlyMode? {
      WeekBuckets(date);
    }
  }

  lemma {:induction false} SessionsHold(date: Date, slots: seq<Slot>, defaultCapacity: Option<int>, s: Session)
    ensures s in Sessions(date, slots, defaultCapacity) <==>
            exists slot :: slot in slots && Holds(s, date, slot, defaultCapacity)
  {
    hide DayNumber, IsoWeekday;
    if slots != [] {
      var front, last := slots[..|slots| - 1], slots[|slots| - 1];
      SessionsHold(date, front, defaultCapacity, s);
      assert slots == front + [last];
      assert Holds(s, date, last, defaultCapacity) <==> s == SessionOf(date, last, defaultCapacity);
    }
  }

  // The session comes from a date of the list, with a slot of that date.
  ghost predicate From(input: Input, dates: seq<Date>, extra: bool, defaultCapacity: Option<int>, s: Session) {
    exists date, slot :: date in dates && slot in SlotsFor(input, date, extra) && Holds(s, date, slot, defaultCapacity)
  }

  lemma {:induction false} ExpandHolds(input: Input, dates: seq<Date>, extra: bool, defaultCapacity: Option<int>,
                                       s: Session)
    ensures s in Expand(input, dates, extra, defaultCapacity) <==> From(input, dates, extra, defaultCapacity, s)
  {
    hide SlotsFor, Holds, Sessions;
    if dates != [] {
      var front, last := dates[..|dates| - 1], dates[|dates| - 1];
      ExpandHolds(input, front, extra, defaultCapacity, s);
      SessionsHold(last, SlotsFor(input, last, extra), defaultCapacity, s);
      assert dates == front + [last];
    }
  }

  // A list of dates gives slots exactly where the date is visited and the slot offered.
  lemma SlotsOfDates(input: Input, date: Date, extra: bool, slot: Slot)
    requires Valid(input.start) && Valid(input.end)
    ensures date in (if extra then ExtraDates(input) else Window(input)) && slot in SlotsFor(input, date, extra) <==>
            Visited(input, date, extra) && Offers(input, date, extra, slot)
  {
    hide Window, Offers, Less, Valid, DayNumber, GroupSlots, IsoWeekday, WeekBucket;
    WindowHas(input, date);
    if Visited(input, date, extra) {
      SlotsOffered(input, date, extra, slot);
    }
  }

  // A plan holds exactly the sessions of the slots offered on the dates visited.
  lemma PlannedExactly(input: Input, defaultCapacity: Option<int>, s: Session)
    requires Valid(input.start) && Valid(input.end)
    ensures s in Expansion(input, defaultCapacity) <==>
            exists date, extra, slot ::
              Visited(input, date, extra) && Offers(input, date, extra, slot) && Holds(s, date, slot, defaultCapacity)
  {
    hide Visited, Offers, Holds, Window, ExtraDates, Expand, Valid, SlotsFor;
    ExpandHolds(input, Window(input), false, defaultCapacity, s);
    ExpandHolds(input, ExtraDates(input), true, defaultCapacity, s);
    forall date, extra, slot
      ensures date in (if extra then ExtraDates(input) else Window(input)) && slot in SlotsFor(input, date, extra) <==>
              Visited(input, date, extra) && Offers(input, date, extra, slot)
    {
      SlotsOfDates(input, date, extra, slot);
    }
  }

  // ----- which patterns are accepted

  // Every slot that is offered ends after it starts.
  ghost predicate OffersEnd(input: Input) {
    forall date, extra, slot | Visited(input, date, extra) && Offers(input, date, extra, slot) ::
      Earlier(slot.start, slot.end)
  }

  lemma NoSlotError(input: Input)
    requires Valid(input.start) && Valid(input.end)
    ensures SlotError(input).None? <==> OffersEnd(input)
  {
    hide Visited, Offers, Window, ExtraDates, Valid, SlotsFor, Earlier;
    forall date, extra, slot
      ensures date in (if extra then ExtraDates(input) else Window(input)) && slot in SlotsFor(input, date, extra) <==>
              Visited(input, date, extra) && Offers(input, date, extra, slot)
    {
      SlotsOfDates(input, date, extra, slot);
    }
  }

  lemma {:induction false} GroupsFilled(groups: seq<Group>)
    ensures GroupError(groups).None? <==> forall group | group in groups :: group.days != [] && group.slots != []
  {
    if groups != [] {
      GroupsFilled(groups[1..]);
      assert groups == [groups[0]] + groups[1..];
    }
  }

  // A custom pattern offers its slots on all its dates.
  lemma CustomOffers(input: Input)
    requires input.mode.CustomMode? && input.custom.Some? && input.custom.value.dates != []
    ensures OffersEnd(input) <==> !BadSlots(input.custom.value.slots)
  {
    var custom := input.custom.value;
    if OffersEnd(input) {
      forall slot | slot in custom.slots ensures Earlier(slot.start, slot.end) {
        assert Visited(input, custom.dates[0], true) && Offers(input, custom.dates[0], true, slot);
      }
    }
  }

  // A pattern is accepted exactly when it has its details and nothing to use is missing: an individual one has groups
  // with days and slots, a basic one without slots meets none of its weekdays in the window, a monthly one has days and
  // slots, a custom one has slots and dates, all in the window; and every slot offered ends after it starts.
  lemma AcceptedExactly(input: Input)
    requires Valid(input.start) && Valid(input.end)
    ensures PlanError(input).None? <==>
      match input.mode
      case PreferredMode => true
      case DailyMode =>
        && input.daily.Some? && OffersEnd(input)
        && var daily := input.daily.value;
        (match daily.style
         case Individual =>
           daily.groups != [] && forall group | group in daily.groups :: group.days != [] && group.slots != []
         case Basic =>
           daily.slots == [] ==> forall date ::
             Valid(date) && !Less(date, input.start) && !Less(input.end, date) ==>
             IsoWeekday(date) !in daily.weekdays && IsoWeekday(date) !in daily.weekends
         case Advance => true)
      case MonthlyMode =>
        input.monthly.Some? && input.monthly.value.days != [] && input.monthly.value.slots != [] && OffersEnd(input)
      case CustomMode =>
        && input.custom.Some? && input.custom.value.dates != [] && input.custom.value.slots != [] && OffersEnd(input)
        && forall date | date in input.custom.value.dates :: !Less(date, input.start) && !Less(input.end, date)
  {
    hide OffersEnd, SlotError, Window, Valid, Less, IsoWeekday, BadSlots;
    NoSlotError(input);
    if input.mode.DailyMode? && input.daily.Some? {
      GroupsFilled(input.daily.value.groups);
      forall date ensures date in Window(input) <==> Valid(date) && InWindow(input, date) {
        WindowHas(input, date);
      }
    }
    if input.mode.CustomMode? && input.custom.Some? && input.custom.value.dates != [] {
      CustomOffers(input);
      assert input.custom.value.dates[0] in input.custom.value.dates;
    }
  }
}
