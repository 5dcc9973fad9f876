/** How often a plan holds a session, and exactly when it holds none twice. */
module TimingRepeats {
  import opened Prelude
  import opened Calendar
  import opened TimingPlanner
  import opened TimingPlannerFacts

  function Copies(sessions: seq<Session>, s: Session): nat {
    if sessions == [] then 0
    else Copies(sessions[..|sessions| - 1], s) + if sessions[|sessions| - 1] == s then 1 else 0
  }

  // How often a date is listed.
  function Uses(dates: seq<Date>, date: Date): nat {
    if dates == [] then 0 else Uses(dates[..|dates| - 1], date) + if dates[|dates| - 1] == date then 1 else 0
  }

  lemma {:induction false} CopiesSplit(a: seq<Session>, b: seq<Session>, s: Session)
    ensures Copies(a + b, s) == Copies(a, s) + Copies(b, s)
  {
    if b == [] {
      assert a + b == a;
    } else {
      CopiesSplit(a, b[..|b| - 1], s);
      assert (a + b)[..|a + b| - 1] == a + b[..|b| - 1];
    }
  }

  lemma {:induction false} CopiesOfMember(sessions: seq<Session>, s: Session)
    ensures s in sessions <==> Copies(sessions, s) > 0
  {
    if sessions != [] {
      CopiesOfMember(sessions[..|sessions| - 1], s);
      assert sessions == sessions[..|sessions| - 1] + [sessions[|sessions| - 1]];
    }
  }

  predicate NoRepeats(sessions: seq<Session>) {
    forall i, j | 0 <= i < j < |sessions| :: sessions[i] != sessions[j]
  }

  ghost predicate Once(sessions: seq<Session>) {
    forall s: Session :: Copies(sessions, s) <= 1
  }

  lemma {:induction false} OnceIsNoRepeats(sessions: seq<Session>)
    ensures Once(sessions) <==> NoRepeats(sessions)
  {
    if sessions != [] {
      var n := |sessions| - 1;
      var front, last := sessions[..n], sessions[n];
      OnceIsNoRepeats(front);
      CopiesOfMember(front, last);
      forall s ensures Copies(front, s) <= Copies(sessions, s) {
      }
      assert Copies(sessions, last) == Copies(front, last) + 1;
      if NoRepeats(sessions) {
        assert last !in front;
      }
      if Once(sessions) {
        forall s ensures Copies(front, s) <= 1 {
          assert Copies(sessions, s) <= 1;
        }
        assert last !in front;
        forall i, j | 0 <= i < j < |sessions| ensures sessions[i] != sessions[j] {
          assert sessions[i] == front[i];
        }
      }
    }
  }

  lemma SessionDay(date: Date, slots: seq<Slot>, defaultCapacity: Option<int>)
    requires TimesValid(slots)
    ensures forall s | s in Sessions(date, slots, defaultCapacity) :: QatarDay(s.startsAt) == DayNumber(date)
  {
    hide QatarDay, DayNumber, QatarDateTime;
    SessionsAre(date, slots, defaultCapacity);
    forall i | 0 <= i < |slots|
      ensures QatarDay(SessionOf(date, slots[i], defaultCapacity).startsAt) == DayNumber(date)
    {
      assert slots[i] in slots;
      QatarDayOfDateTime(date, slots[i].start);
    }
  }

  // The dates of a session's day account for all its copies.
  lemma {:induction false} ExpandCopies(input: Input, dates: seq<Date>, extra: bool, defaultCapacity: Option<int>,
                                        date: Date, s: Session)
    requires ValidInput(input) && Valid(date) && QatarDay(s.startsAt) == DayNumber(date)
    requires forall d | d in dates :: Valid(d)
    ensures Copies(Expand(input, dates, extra, defaultCapacity), s) ==
            Uses(dates, date) * Copies(Sessions(date, SlotsFor(input, date, extra), defaultCapacity), s)
  {
    hide Sessions, SlotsFor, QatarDay, DayNumber, Valid, ValidInput, TimesValid, Copies;
    if dates == [] {
      NoCopies(s);
    } else {
      var front, last := dates[..|dates| - 1], dates[|dates| - 1];
      assert last in dates;
      ExpandCopies(input, front, extra, defaultCapacity, date, s);
      var own := Sessions(last, SlotsFor(input, last, extra), defaultCapacity);
      CopiesSplit(Expand(input, front, extra, defaultCapacity), own, s);
      SlotTimes(input, last, extra);
      SessionDay(last, SlotsFor(input, last, extra), defaultCapacity);
      CopiesOfMember(own, s);
      DayNumberOrder(last, date);
      OneMoreUse(Uses(front, date), Copies(own, s));
    }
  }

  lemma NoCopies(s: Session)
    ensures Copies([], s) == 0
  {
  }

  lemma OneMoreUse(uses: nat, copies: nat)
    ensures (uses + 1) * copies == uses * copies + copies && 0 * copies == 0
  {
  }

  lemma {:induction false} UsesOfMember(dates: seq<Date>, date: Date)
    ensures date in dates <==> Uses(dates, date) > 0
  {
    if dates != [] {
      UsesOfMember(dates[..|dates| - 1], date);
      assert dates == dates[..|dates| - 1] + [dates[|dates| - 1]];
    }
  }

  lemma {:induction false} UsesOfRun(dates: seq<Date>, date: Date)
    requires Valid(date)
    requires forall i | 0 <= i < |dates| :: Valid(dates[i]) && DayNumber(dates[i]) == DayNumber(dates[0]) + i
    ensures Uses(dates, date) ==
      if dates != [] && DayNumber(dates[0]) <= DayNumber(date) < DayNumber(dates[0]) + |dates| then 1 else 0
  {
    hide DayNumber, Valid;
    if dates != [] {
      var n := |dates| - 1;
      UsesOfRun(dates[..n], date);
      DayNumberOrder(dates[n], date);
    }
  }

  lemma WindowUses(input: Input, date: Date)
    requires ValidInput(input) && Valid(date)
    ensures Uses(Window(input), date) == if InWindow(input, date) then 1 else 0
  {
    hide DayNumber, Valid, Less, DatesFrom;
    DatesFromAre(input.start, WindowLength(input.start, input.end));
    UsesOfRun(Window(input), date);
    DayNumberOrder(date, input.start);
    DayNumberOrder(input.end, date);
  }

  function OnDate(input: Input, date: Date, extra: bool, defaultCapacity: Option<int>): seq<Session> {
    Sessions(date, SlotsFor(input, date, extra), defaultCapacity)
  }

  lemma ExtraDatesValid(input: Input)
    requires ValidInput(input)
    ensures forall d | d in ExtraDates(input) :: Valid(d)
  {
  }

  // A plan holds a session once for the window and once for each mention of its date as an extra one, times the slots
  // of that date that give it.
  lemma PlannedCopies(input: Input, defaultCapacity: Option<int>, date: Date, s: Session)
    requires ValidInput(input) && Valid(date) && QatarDay(s.startsAt) == DayNumber(date)
    ensures Copies(Expansion(input, defaultCapacity), s) ==
      (if InWindow(input, date) then Copies(OnDate(input, date, false, defaultCapacity), s) else 0) +
      Uses(ExtraDates(input), date) * Copies(OnDate(input, date, true, defaultCapacity), s)
  {
    hide Expand, ExtraDates, Window, InWindow, QatarDay, DayNumber, Valid, ValidInput, Sessions, SlotsFor, Copies, Uses;
    InputDates(input);
    ExtraDatesValid(input);
    CopiesSplit(Expand(input, Window(input), false, defaultCapacity),
                Expand(input, ExtraDates(input), true, defaultCapacity), s);
    ExpandCopies(input, Window(input), false, defaultCapacity, date, s);
    ExpandCopies(input, ExtraDates(input), true, defaultCapacity, date, s);
    WindowUses(input, date);
    OneMoreUse(0, Copies(OnDate(input, date, false, defaultCapacity), s));
  }

  lemma InputDates(input: Input)
    requires ValidInput(input)
    ensures forall d | d in Window(input) :: Valid(d) && InWindow(input, d)
  {
    WindowDates(input);
  }

  // Nothing is planned on a day that is neither in the window nor an extra one.
  lemma {:induction false} ExpandNone(input: Input, dates: seq<Date>, extra: bool, defaultCapacity: Option<int>,
                                      s: Session)
    requires ValidInput(input) && forall d | d in dates :: DayNumber(d) != QatarDay(s.startsAt)
    ensures Copies(Expand(input, dates, extra, defaultCapacity), s) == 0
  {
    hide Sessions, SlotsFor, QatarDay, DayNumber, ValidInput, TimesValid, Copies;
    if dates == [] {
      NoCopies(s);
    } else {
      var front, last := dates[..|dates| - 1], dates[|dates| - 1];
      assert last in dates;
      ExpandNone(input, front, extra, defaultCapacity, s);
      var own := Sessions(last, SlotsFor(input, last, extra), defaultCapacity);
      CopiesSplit(Expand(input, front, extra, defaultCapacity), own, s);
      SlotTimes(input, last, extra);
      SessionDay(last, SlotsFor(input, last, extra), defaultCapacity);
      CopiesOfMember(own, s);
    }
  }

  // An extra date with slots is listed once, and its sessions differ from each other and from those of the pattern.
  predicate ExtraApart(input: Input, date: Date, defaultCapacity: Option<int>) {
    var extra := OnDate(input, date, true, defaultCapacity);
    extra != [] ==>
      && Uses(ExtraDates(input), date) == 1 && NoRepeats(extra)
      && (InWindow(input, date) ==> forall s | s in OnDate(input, date, false, defaultCapacity) :: s !in extra)
  }

  predicate Apart(input: Input, defaultCapacity: Option<int>) {
    && (forall date | date in Window(input) :: NoRepeats(OnDate(input, date, false, defaultCapacity)))
    && (forall date | date in ExtraDates(input) :: ExtraApart(input, date, defaultCapacity))
  }

  // A plan holds no session twice exactly when, date by date, the sessions of the pattern differ, no extra date that
  // has slots is listed twice, and the sessions of extra dates differ from each other and from the pattern's.
  lemma PlannedOnce(input: Input, defaultCapacity: Option<int>)
    requires ValidInput(input)
    ensures NoRepeats(Expansion(input, defaultCapacity)) <==> Apart(input, defaultCapacity)
  {
    hide NoRepeats, Once, Expansion, Window, ExtraDates, ValidInput, OnDate, ExtraApart;
    var plan := Expansion(input, defaultCapacity);
    OnceIsNoRepeats(plan);
    if Once(plan) {
      forall date | date in Window(input) ensures NoRepeats(OnDate(input, date, false, defaultCapacity)) {
        PatternOnce(input, defaultCapacity, date);
      }
      forall date | date in ExtraDates(input) ensures ExtraApart(input, date, defaultCapacity) {
        ExtraOnce(input, defaultCapacity, date);
      }
    }
    if Apart(input, defaultCapacity) {
      OnceWhenApart(input, defaultCapacity);
    }
  }

  lemma OnDateDay(input: Input, date: Date, extra: bool, defaultCapacity: Option<int>, s: Session)
    requires ValidInput(input) && s in OnDate(input, date, extra, defaultCapacity)
    ensures QatarDay(s.startsAt) == DayNumber(date)
  {
    SlotTimes(input, date, extra);
    SessionDay(date, SlotsFor(input, date, extra), defaultCapacity);
  }

  lemma PatternOnce(input: Input, defaultCapacity: Option<int>, date: Date)
    requires ValidInput(input) && date in Window(input) && Once(Expansion(input, defaultCapacity))
    ensures NoRepeats(OnDate(input, date, false, defaultCapacity))
  {
    hide NoRepeats, Expansion, Window, ExtraDates, ValidInput, OnDate, InWindow, Valid, QatarDay, DayNumber, Copies;
    hide Uses;
    var own := OnDate(input, date, false, defaultCapacity);
    InputDates(input);
    forall s ensures Copies(own, s) <= 1 {
      CopiesOfMember(own, s);
      if s in own {
        OnDateDay(input, date, false, defaultCapacity, s);
        PlannedCopies(input, defaultCapacity, date, s);
      }
    }
    OnceIsNoRepeats(own);
  }

  lemma ExtraOnce(input: Input, defaultCapacity: Option<int>, date: Date)
    requires ValidInput(input) && date in ExtraDates(input) && Once(Expansion(input, defaultCapacity))
    ensures ExtraApart(input, date, defaultCapacity)
  {
    hide NoRepeats, Expansion, Window, ExtraDates, ValidInput, OnDate, InWindow, Valid, QatarDay, DayNumber, Copies;
    hide Uses;
    var own, uses := OnDate(input, date, true, defaultCapacity), Uses(ExtraDates(input), date);
    ExtraDatesValid(input);
    UsesOfMember(ExtraDates(input), date);
    forall s
      ensures s in own ==> uses == 1 && Copies(own, s) == 1
      ensures s in own && InWindow(input, date) ==> s !in OnDate(input, date, false, defaultCapacity)
    {
      CopiesOfMember(own, s);
      CopiesOfMember(OnDate(input, date, false, defaultCapacity), s);
      if s in own {
        OnDateDay(input, date, true, defaultCapacity, s);
        PlannedCopies(input, defaultCapacity, date, s);
        assert Copies(Expansion(input, defaultCapacity), s) <= 1;
        ProductAtMostOne(uses, Copies(own, s));
      }
    }
    forall s ensures Copies(own, s) <= 1 {
      CopiesOfMember(own, s);
    }
    OnceIsNoRepeats(own);
    assert own != [] ==> own[0] in own;
  }

  lemma ProductAtMostOne(a: nat, b: nat)
    requires a > 0 && b > 0
    ensures a * b >= 1 && (a * b == 1 ==> a == 1 && b == 1)
  {
    assert a * b == (a - 1) * b + b;
    assert (a - 1) * b >= 0;
    if a > 1 {
      assert (a - 1) * b == (a - 2) * b + b;
    }
  }

  lemma OnceWhenApart(input: Input, defaultCapacity: Option<int>)
    requires ValidInput(input) && Apart(input, defaultCapacity)
    ensures Once(Expansion(input, defaultCapacity))
  {
    hide Apart, Expansion, ValidInput, Copies;
    forall s ensures Copies(Expansion(input, defaultCapacity), s) <= 1 {
      SessionOnce(input, defaultCapacity, s);
    }
  }

  lemma SessionOnce(input: Input, defaultCapacity: Option<int>, s: Session)
    requires ValidInput(input) && Apart(input, defaultCapacity)
    ensures Copies(Expansion(input, defaultCapacity), s) <= 1
  {
    hide NoRepeats, Window, ExtraDates, ValidInput, OnDate, InWindow, Valid, QatarDay, DayNumber, Copies, Uses, Expand;
    InputDates(input);
    ExtraDatesValid(input);
    if date :| date in Window(input) + ExtraDates(input) && DayNumber(date) == QatarDay(s.startsAt) {
      var pattern, extra := OnDate(input, date, false, defaultCapacity), OnDate(input, date, true, defaultCapacity);
      PlannedCopies(input, defaultCapacity, date, s);
      WindowUses(input, date);
      UsesOfMember(Window(input), date);
      UsesOfMember(ExtraDates(input), date);
      CopiesOfMember(pattern, s);
      CopiesOfMember(extra, s);
      OnceIsNoRepeats(pattern);
      OnceIsNoRepeats(extra);
      OneMoreUse(0, Copies(extra, s));
    } else {
      CopiesSplit(Expand(input, Window(input), false, defaultCapacity),
                  Expand(input, ExtraDates(input), true, defaultCapacity), s);
      forall d | d in Window(input) || d in ExtraDates(input) ensures DayNumber(d) != QatarDay(s.startsAt) {
        assert d in Window(input) + ExtraDates(input);
      }
      ExpandNone(input, Window(input), false, defaultCapacity, s);
      ExpandNone(input, ExtraDates(input), true, defaultCapacity, s);
    }
  }

  // An extra date that the basic pattern covers already gets all its slots twice.
  lemma CoveredDateRepeats(input: Input, defaultCapacity: Option<int>, date: Date)
    requires ValidInput(input) && IsBasic(input) && input.daily.value.visible.OnAll?
    requires date in input.daily.value.customDates && InWindow(input, date)
    requires Matches(input.daily.value, date) && input.daily.value.slots != []
    ensures !NoRepeats(Expansion(input, defaultCapacity))
  {
    hide Expansion, Sessions, NoRepeats, InWindow, IsoWeekday;
    PlannedOnce(input, defaultCapacity);
    var pattern, extra := OnDate(input, date, false, defaultCapacity), OnDate(input, date, true, defaultCapacity);
    assert pattern == extra;
    SessionsAre(date, input.daily.value.slots, defaultCapacity);
    assert extra[0] in pattern && extra[0] in extra;
    assert !ExtraApart(input, date, defaultCapacity);
  }
}
