/**
 src/modules/admin-events/admin-events.service.ts: applying a timing pattern to an event. Accepted patterns clear the
 old schedule, create one session per planned item on the event date of its Qatar day, and stock the new sessions.
 Tables are maps from row ids; new ids come from a counter above every id in use.
 */
module EventSchedule {
  import opened Prelude
  import Calendar
  import Planner = TimingPlanner

  type Id = nat

  datatype Status = Active | SoldOut | Cancelled | Hidden

  datatype SessionRow = SessionRow(
    event: Id, date: Id, startsAt: int, endsAt: Option<int>, capacity: Option<int>, status: Status)

  datatype DateRow = DateRow(event: Id, day: int, status: Status)

  datatype Item = TicketItem(id: Id) | VariantItem(id: Id)

  datatype Key = Key(session: Id, item: Item)

  datatype Stock = Stock(event: Id, total: Option<int>)

  datatype StockRow = StockRow(key: Key, stock: Stock)

  datatype Variant = Variant(id: Id, active: bool)

  datatype Ticket = Ticket(id: Id, event: Id, active: bool, hasVariants: bool, variants: seq<Variant>)

  datatype Tables = Tables(
    sessions: map<Id, SessionRow>, dates: map<Id, DateRow>, stock: map<Key, Stock>, holds: map<Id, Id>)

  datatype Request = Request(
    timing: Planner.Input, startTime: Option<Planner.Time>, endTime: Option<Planner.Time>,
    trackInventory: Option<bool>, capacity: Option<int>, replace: bool)

  datatype Error =
    EventMissing | EndBeforeStart | CapacityMissing | Pattern(error: Planner.Error) | TooManySessions | NothingMatches

  // ----- the request

  predicate AnyCapacity(slots: seq<Planner.Slot>) {
    exists slot :: slot in slots && slot.capacity.Some? && slot.capacity.value >= 1
  }

  predicate ProvidesCapacity(input: Planner.Input) {
    || (input.daily.Some? &&
        var daily := input.daily.value;
        || AnyCapacity(daily.slots) || AnyCapacity(daily.weekdaySlots) || AnyCapacity(daily.weekendSlots)
        || exists group :: group in daily.groups && AnyCapacity(group.slots))
    || (input.monthly.Some? && AnyCapacity(input.monthly.value.slots))
    || (input.custom.Some? && AnyCapacity(input.custom.value.slots))
  }

  function DefaultCapacity(request: Request): Option<int> {
    if request.capacity.Some? && request.capacity.value >= 1 then request.capacity else None
  }

  predicate Tracks(request: Request) {
    match request.trackInventory
    case Some(b) => b
    case None => request.capacity.Some?
  }

  // The sessions to create: the plan, or one open session for a preferred window with both times.
  function Wanted(request: Request): seq<Planner.Session> {
    var input, capacity := request.timing, DefaultCapacity(request);
    var planned := Planner.Expansion(input, capacity);
    if planned != [] then planned
    else if input.mode.PreferredMode? && request.startTime.Some? && request.endTime.Some? then
      [Planner.Session(Planner.QatarDateTime(input.start, request.startTime.value),
                       Planner.QatarDateTime(input.end, request.endTime.value), capacity)]
    else []
  }

  function RequestError(request: Request): Option<Error> {
    var input, capacity := request.timing, DefaultCapacity(request);
    if Calendar.Less(input.end, input.start) then Some(EndBeforeStart)
    else if Tracks(request) && capacity.None? && !ProvidesCapacity(input) then Some(CapacityMissing)
    else if Planner.PlanError(input).Some? then Some(Pattern(Planner.PlanError(input).value))
    else if |Planner.Expansion(input, capacity)| > 5000 then Some(TooManySessions)
    else if !input.mode.PreferredMode? && Planner.Expansion(input, capacity) == [] then Some(NothingMatches)
    else None
  }

  // The slots written anywhere in the request.
  predicate Lists(input: Planner.Input, slot: Planner.Slot) {
    || (input.daily.Some? &&
        var daily := input.daily.value;
        || slot in daily.slots || slot in daily.weekdaySlots || slot in daily.weekendSlots
        || exists group :: group in daily.groups && slot in group.slots)
    || (input.monthly.Some? && slot in input.monthly.value.slots)
    || (input.custom.Some? && slot in input.custom.value.slots)
  }

  lemma CapacityListed(input: Planner.Input)
    ensures ProvidesCapacity(input) <==>
            exists slot :: Lists(input, slot) && slot.capacity.Some? && slot.capacity.value >= 1
  {
  }

  // A request passes exactly when its dates are in order, a tracked inventory has a capacity of its own or in some slot
  // (it is tracked when that is asked for, or else when a capacity is given), and the pattern is accepted and makes one
  // to 5000 sessions; a preferred window makes none.
  lemma RequestAccepted(request: Request)
    ensures var input := request.timing;
      var capacity := if request.capacity.Some? && request.capacity.value >= 1 then request.capacity else None;
      var tracked := request.trackInventory == Some(true) || (request.trackInventory.None? && request.capacity.Some?);
      RequestError(request).None? <==>
        && !Calendar.Less(input.end, input.start) && Planner.PlanError(input).None?
        && (tracked && capacity.None? ==>
              exists slot :: Lists(input, slot) && slot.capacity.Some? && slot.capacity.value >= 1)
        && (if input.mode.PreferredMode? then true else 1 <= |Planner.Expansion(input, capacity)| <= 5000)
  {
    hide Lists, ProvidesCapacity, Planner.PlanError, Planner.Window, Planner.ExtraDates, Planner.SlotsFor;
    CapacityListed(request.timing);
    Planner.ExpansionByMode(request.timing, DefaultCapacity(request));
  }

  // It creates the planned sessions, and for a preferred window with both times one from the first to the last day.
  lemma WantedSessions(request: Request)
    ensures var input := request.timing;
      var capacity := if request.capacity.Some? && request.capacity.value >= 1 then request.capacity else None;
      if !input.mode.PreferredMode? then Wanted(request) == Planner.Expansion(input, capacity)
      else if request.startTime.None? || request.endTime.None? then Wanted(request) == []
      else
        var from, to := request.startTime.value, request.endTime.value;
        Wanted(request) == [Planner.Session(1440 * Calendar.DayNumber(input.start) + 60 * from.h + from.m - 180,
                                            1440 * Calendar.DayNumber(input.end) + 60 * to.h + to.m - 180, capacity)]
  {
    hide Calendar.DayNumber, Planner.Window, Planner.ExtraDates, Planner.SlotsFor;
    Planner.ExpansionByMode(request.timing, DefaultCapacity(request));
  }

  // The open session of a preferred window ends after it starts exactly when the end is later in date and time; only
  // the dates are checked.
  lemma OpenSessionOrdered(request: Request)
    requires Calendar.Valid(request.timing.start) && Calendar.Valid(request.timing.end)
    requires request.timing.mode.PreferredMode? && RequestError(request).None?
    requires request.startTime.Some? && request.endTime.Some?
    requires Planner.ValidTime(request.startTime.value) && Planner.ValidTime(request.endTime.value)
    ensures |Wanted(request)| == 1
    ensures Wanted(request)[0].startsAt < Wanted(request)[0].endsAt <==>
            request.timing.start != request.timing.end ||
            Planner.Earlier(request.startTime.value, request.endTime.value)
  {
    hide Planner.Expand, Planner.SlotsOn, Calendar.DayNumber, Calendar.Valid;
    Planner.ExpansionByMode(request.timing, DefaultCapacity(request));
    Calendar.DayNumberOrder(request.timing.start, request.timing.end);
    Calendar.DayNumberOrder(request.timing.end, request.timing.start);
    LessTotal(request.timing.start, request.timing.end);
    Planner.EarlierStartsFirst(request.timing.start, request.startTime.value, request.endTime.value);
  }

  // One day, from six in the evening to nine in the morning.
  function EveningToMorning(): Request {
    var day := Calendar.Date(2024, 1, 1);
    Request(Planner.Input(Planner.PreferredMode, day, day, None, None, None),
            Some(Planner.Time(18, 0)), Some(Planner.Time(9, 0)), None, None, true)
  }

  // Such a request is accepted, and its session ends before it starts.
  lemma OpenSessionBackwards()
    ensures var request := EveningToMorning();
      RequestError(request).None? && |Wanted(request)| == 1 && Wanted(request)[0].endsAt < Wanted(request)[0].startsAt
  {
  }

  lemma LessTotal(a: Calendar.Date, b: Calendar.Date)
    requires !Calendar.Less(b, a)
    ensures a == b || Calendar.Less(a, b)
  {
  }

  // ----- what one application does to the tables

  predicate Sells(ticket: Ticket, event: Id, item: Item) {
    && ticket.event == event && ticket.active
    && match item
       case TicketItem(id) => !ticket.hasVariants && ticket.id == id
       case VariantItem(id) => ticket.hasVariants && Variant(id, true) in ticket.variants
  }

  // An active ticket without variants, or an active variant of an active ticket with variants.
  predicate OnSale(tickets: seq<Ticket>, event: Id, item: Item) {
    exists ticket :: ticket in tickets && Sells(ticket, event, item)
  }

  predicate UniqueDays(dates: map<Id, DateRow>) {
    forall a, b | a in dates && b in dates && dates[a].event == dates[b].event && dates[a].day == dates[b].day :: a == b
  }

  // Ids in use are below `nextId`, each event has a day once, and references resolve.
  predicate Sound(t: Tables, ordered: set<Id>, nextId: Id) {
    && (forall id | id in t.sessions :: id < nextId && t.sessions[id].date in t.dates)
    && (forall id | id in t.dates :: id < nextId)
    && UniqueDays(t.dates)
    && (forall key | key in t.stock :: key.session in t.sessions)
    && (forall hold | hold in t.holds :: t.holds[hold] in t.sessions)
    && ordered <= t.sessions.Keys
  }

  // Deleted by a replacement: a session of the event without orders.
  predicate Removable(sessions: map<Id, SessionRow>, ordered: set<Id>, event: Id, id: Id) {
    id in sessions && sessions[id].event == event && id !in ordered
  }

  function RemovableIds(sessions: map<Id, SessionRow>, ordered: set<Id>, event: Id): set<Id> {
    set id | id in sessions && Removable(sessions, ordered, event, id)
  }

  function BlockedIds(sessions: map<Id, SessionRow>, ordered: set<Id>, event: Id): set<Id> {
    set id | id in sessions && Blocked(sessions[id], id, ordered, event)
  }

  lemma BlockedStay(t: Tables, ordered: set<Id>, event: Id)
    ensures BlockedIds(Deleted(t, ordered, event).sessions, ordered, event) == BlockedIds(t.sessions, ordered, event)
  {
  }

  function Deleted(t: Tables, ordered: set<Id>, event: Id): Tables {
    Tables(map id | id in t.sessions && !Removable(t.sessions, ordered, event, id) :: t.sessions[id], t.dates,
           map key | key in t.stock && !Removable(t.sessions, ordered, event, key.session) :: t.stock[key],
           map h | h in t.holds && !Removable(t.sessions, ordered, event, t.holds[h]) :: t.holds[h])
  }

  predicate Blocked(row: SessionRow, id: Id, ordered: set<Id>, event: Id) {
    row.event == event && row.status != Hidden && id in ordered
  }

  function Hiding(sessions: map<Id, SessionRow>, ordered: set<Id>, event: Id): map<Id, SessionRow> {
    map id | id in sessions ::
      if Blocked(sessions[id], id, ordered, event) then sessions[id].(status := Hidden) else sessions[id]
  }

  predicate InUse(sessions: map<Id, SessionRow>, date: Id) {
    exists id :: id in sessions && sessions[id].date == date
  }

  function UsedDates(t: Tables, event: Id): map<Id, DateRow> {
    map d | d in t.dates && (t.dates[d].event != event || InUse(t.sessions, d)) :: t.dates[d]
  }

  function Cleared(t: Tables, ordered: set<Id>, event: Id): Tables {
    var u := Deleted(t, ordered, event);
    var v := u.(sessions := Hiding(u.sessions, ordered, event));
    v.(dates := UsedDates(v, event))
  }

  // What is left of a session after clearing.
  lemma ClearedSession(t: Tables, ordered: set<Id>, event: Id, id: Id)
    requires id in t.sessions
    ensures var row, u := t.sessions[id], Cleared(t, ordered, event);
      && (id in u.sessions <==> row.event != event || id in ordered)
      && (id in u.sessions ==> u.sessions[id] == if row.event == event then row.(status := Hidden) else row)
  {
  }

  lemma ClearedParts(t: Tables, ordered: set<Id>, event: Id)
    ensures var u := Cleared(t, ordered, event);
      && u.sessions.Keys <= t.sessions.Keys
      && (forall d | d in t.dates :: d in u.dates <==> t.dates[d].event != event || InUse(u.sessions, d))
      && (forall d | d in u.dates :: d in t.dates && u.dates[d] == t.dates[d])
      && (forall key | key in u.stock :: key in t.stock && u.stock[key] == t.stock[key])
      && (forall key | key in t.stock ::
            key in u.stock <==> !Removable(t.sessions, ordered, event, key.session))
      && (forall h | h in u.holds :: h in t.holds && u.holds[h] == t.holds[h])
      && (forall h | h in t.holds :: h in u.holds <==> !Removable(t.sessions, ordered, event, t.holds[h]))
  {
  }

  lemma ClearedSound(t: Tables, ordered: set<Id>, event: Id, nextId: Id)
    requires Sound(t, ordered, nextId)
    ensures Sound(Cleared(t, ordered, event), ordered, nextId)
  {
  }

  predicate HasDay(dates: map<Id, DateRow>, event: Id, day: int) {
    exists d :: d in dates && dates[d].event == event && dates[d].day == day
  }

  // The day of each listed session has an active event date; other dates are as before.
  predicate DatesAdded(before: map<Id, DateRow>, after: map<Id, DateRow>, event: Id, days: seq<int>) {
    && (forall d | d in before :: d in after &&
          after[d] ==
            if before[d].event == event && before[d].day in days then before[d].(status := Active) else before[d])
    && (forall d | d in after && d !in before ::
          after[d].event == event && after[d].day in days && after[d].status == Active)
    && (forall day | day in days :: HasDay(after, event, day))
  }

  // The Qatar days of the items, in order and with repetitions.
  function Days(items: seq<Planner.Session>): (days: seq<int>)
    ensures |days| == |items|
    ensures forall i | 0 <= i < |items| :: days[i] == Planner.QatarDay(items[i].startsAt)
    ensures forall item | item in items :: Planner.QatarDay(item.startsAt) in days
  {
    if items == [] then [] else Days(items[..|items| - 1]) + [Planner.QatarDay(items[|items| - 1].startsAt)]
  }

  predicate IsSession(row: SessionRow, item: Planner.Session, event: Id, dates: map<Id, DateRow>) {
    && row.event == event && row.status == Active
    && row.startsAt == item.startsAt && row.endsAt == Some(item.endsAt) && row.capacity == item.capacity
    && row.date in dates && dates[row.date] == DateRow(event, Planner.QatarDay(item.startsAt), Active)
  }

  // Exactly the sessions `ids` are new, one per item.
  predicate SessionsAdded(before: map<Id, SessionRow>, after: map<Id, SessionRow>, dates: map<Id, DateRow>,
                          event: Id, ids: seq<Id>, items: seq<Planner.Session>)
  {
    && |ids| == |items|
    && (forall i, j | 0 <= i < j < |ids| :: ids[i] != ids[j])
    && (forall id | id in before :: id in after && after[id] == before[id])
    && (forall i | 0 <= i < |ids| ::
          ids[i] !in before && ids[i] in after && IsSession(after[ids[i]], items[i], event, dates))
    && (forall id | id in after :: id in before || id in ids)
  }

  // Each active session of the event has a row for each item on sale; rows that existed are as before.
  ghost predicate StockAdded(before: map<Key, Stock>, after: map<Key, Stock>, sessions: map<Id, SessionRow>,
                       tickets: seq<Ticket>, event: Id, ids: set<Id>)
    requires ids <= sessions.Keys
  {
    && (forall key | key in before :: key in after && after[key] == before[key])
    && (forall key :: key in after <==> key in before || (key.session in ids && OnSale(tickets, event, key.item)))
    && (forall key | key in after && key !in before && key.session in ids ::
          after[key] == Stock(event, sessions[key.session].capacity))
  }

  function ActiveOf(sessions: map<Id, SessionRow>, event: Id): (ids: set<Id>)
    ensures ids <= sessions.Keys
  {
    set id | id in sessions && sessions[id].event == event && sessions[id].status == Active
  }

  ghost predicate Applied(base: Tables, after: Tables, tickets: seq<Ticket>, event: Id, ids: seq<Id>,
                          items: seq<Planner.Session>)
  {
    && after.holds == base.holds
    && DatesAdded(base.dates, after.dates, event, Days(items))
    && SessionsAdded(base.sessions, after.sessions, after.dates, event, ids, items)
    && (if items == [] then after.stock == base.stock
        else StockAdded(base.stock, after.stock, after.sessions, tickets, event, ActiveOf(after.sessions, event)))
  }

  // `Applied` with fresh ids for the new sessions.
  ghost predicate Scheduled(base: Tables, after: Tables, tickets: seq<Ticket>, event: Id, nextId: Id,
                            items: seq<Planner.Session>)
  {
    exists ids :: Applied(base, after, tickets, event, ids, items) && forall id | id in ids :: id >= nextId
  }

  // ----- what a replacement achieves

  // A session that had an order still exists and is hidden, and one without is gone with its stock and holds.
  lemma OrderedSessionsHidden(t: Tables, after: Tables, ordered: set<Id>, tickets: seq<Ticket>, event: Id,
                              nextId: Id, ids: seq<Id>, items: seq<Planner.Session>, id: Id)
    requires Sound(t, ordered, nextId) && Applied(Cleared(t, ordered, event), after, tickets, event, ids, items)
    requires (forall new' | new' in ids :: new' >= nextId) && id in t.sessions && t.sessions[id].event == event
    ensures id in after.sessions <==> id in ordered
    ensures id in ordered ==> after.sessions[id] == t.sessions[id].(status := Hidden)
    ensures id !in ordered ==> forall key | key in after.stock :: key.session != id
    ensures id !in ordered ==> forall hold | hold in after.holds :: after.holds[hold] != id
  {
    hide Cleared;
    ClearedParts(t, ordered, event);
    ClearedSession(t, ordered, event, id);
  }

  lemma NewSession(base: Tables, after: Tables, event: Id, ids: seq<Id>, items: seq<Planner.Session>, i: nat)
    requires SessionsAdded(base.sessions, after.sessions, after.dates, event, ids, items) && i < |ids|
    ensures |ids| == |items| && ids[i] in after.sessions && ids[i] !in base.sessions
    ensures IsSession(after.sessions[ids[i]], items[i], event, after.dates)
    ensures after.sessions[ids[i]].event == event && after.sessions[ids[i]].status == Active
  {
  }

  // The active sessions of the event are the new ones, one per wanted item, each on the event date of its Qatar day.
  lemma ActiveSessionsAreThePlan(t: Tables, after: Tables, ordered: set<Id>, tickets: seq<Ticket>, event: Id,
                                 ids: seq<Id>, items: seq<Planner.Session>)
    requires Applied(Cleared(t, ordered, event), after, tickets, event, ids, items)
    ensures |ids| == |items| && forall i, j | 0 <= i < j < |ids| :: ids[i] != ids[j]
    ensures forall id :: id in ActiveOf(after.sessions, event) <==> id in ids
    ensures forall i | 0 <= i < |items| ::
      ids[i] in after.sessions && IsSession(after.sessions[ids[i]], items[i], event, after.dates)
  {
    hide Cleared, OnSale, StockAdded, DatesAdded, IsSession, Planner.QatarDay;
    ClearedParts(t, ordered, event);
    var base := Cleared(t, ordered, event);
    forall id | id in base.sessions ensures id !in ActiveOf(after.sessions, event) {
      ClearedSession(t, ordered, event, id);
    }
    forall i | 0 <= i < |ids| ensures ids[i] in ActiveOf(after.sessions, event) {
      NewSession(base, after, event, ids, items, i);
    }
  }

  lemma SoundStock(t: Tables, ordered: set<Id>, event: Id, nextId: Id)
    requires Sound(t, ordered, nextId)
    ensures forall key | key in t.stock :: key.session < nextId
    ensures forall key | key in Cleared(t, ordered, event).stock :: key.session < nextId
  {
  }

  // Each new session, having had no stock, is stocked with its own capacity for exactly the items on sale, whether or
  // not the schedule was cleared before.
  lemma NewSessionStocked(base: Tables, after: Tables, tickets: seq<Ticket>, event: Id, ids: seq<Id>,
                          items: seq<Planner.Session>, i: nat, item: Item)
    requires SessionsAdded(base.sessions, after.sessions, after.dates, event, ids, items) && i < |ids|
    requires StockAdded(base.stock, after.stock, after.sessions, tickets, event, ActiveOf(after.sessions, event))
    requires Key(ids[i], item) !in base.stock
    ensures Key(ids[i], item) in after.stock <==> OnSale(tickets, event, item)
    ensures Key(ids[i], item) in after.stock ==> after.stock[Key(ids[i], item)] == Stock(event, items[i].capacity)
  {
  }

  // The stock of a session that was there before clearing.
  lemma OldStockKept(t: Tables, after: Tables, ordered: set<Id>, tickets: seq<Ticket>, event: Id, nextId: Id,
                     ids: seq<Id>, items: seq<Planner.Session>, key: Key)
    requires Sound(t, ordered, nextId) && Applied(Cleared(t, ordered, event), after, tickets, event, ids, items)
    requires key.session in t.sessions && t.sessions[key.session].event == event && key.session !in ids
    ensures key in after.stock <==> key in t.stock && key.session in ordered
    ensures key in after.stock ==> after.stock[key] == t.stock[key]
  {
    hide Cleared, OnSale, DatesAdded, SessionsAdded, Sound;
    ClearedParts(t, ordered, event);
    ActiveSessionsAreThePlan(t, after, ordered, tickets, event, ids, items);
    assert key.session !in ActiveOf(after.sessions, event);
  }

  lemma SoundSessions(t: Tables, ordered: set<Id>, nextId: Id)
    requires Sound(t, ordered, nextId)
    ensures forall id | id in t.sessions :: id < nextId
    ensures forall hold | hold in t.holds :: t.holds[hold] in t.sessions
  {
  }

  lemma AppliedStock(base: Tables, after: Tables, tickets: seq<Ticket>, event: Id, ids: seq<Id>,
                     items: seq<Planner.Session>, i: nat, item: Item)
    requires Applied(base, after, tickets, event, ids, items) && i < |ids| && Key(ids[i], item) !in base.stock
    ensures |ids| == |items|
    ensures Key(ids[i], item) in after.stock <==> OnSale(tickets, event, item)
    ensures Key(ids[i], item) in after.stock ==> after.stock[Key(ids[i], item)] == Stock(event, items[i].capacity)
  {
    hide DatesAdded, OnSale, IsSession;
    NewSessionStocked(base, after, tickets, event, ids, items, i, item);
  }

  lemma HoldsKept(t: Tables, after: Tables, ordered: set<Id>, tickets: seq<Ticket>, event: Id, ids: seq<Id>,
                  items: seq<Planner.Session>)
    requires Applied(Cleared(t, ordered, event), after, tickets, event, ids, items)
    ensures forall hold | hold in t.holds && t.holds[hold] in t.sessions && t.sessions[t.holds[hold]].event == event ::
      hold in after.holds <==> t.holds[hold] in ordered
  {
    hide Cleared, DatesAdded, SessionsAdded, StockAdded;
    ClearedParts(t, ordered, event);
  }

  lemma SessionsKnown(t: Tables, after: Tables, ordered: set<Id>, tickets: seq<Ticket>, event: Id, ids: seq<Id>,
                      items: seq<Planner.Session>)
    requires Applied(Cleared(t, ordered, event), after, tickets, event, ids, items)
    ensures forall id | id in after.sessions && after.sessions[id].event == event ::
      id in ids || (id in t.sessions && t.sessions[id].event == event)
  {
    hide Cleared, OnSale, DatesAdded, StockAdded, IsSession;
    ClearedParts(t, ordered, event);
    forall id | id in after.sessions && after.sessions[id].event == event && id !in ids
      ensures id in t.sessions && t.sessions[id].event == event
    {
      assert id in Cleared(t, ordered, event).sessions;
      ClearedSession(t, ordered, event, id);
    }
  }

  // The event has its sessions that had orders, hidden, and the new ones, one per item.
  predicate SessionsReplaced(t: Tables, after: Tables, ordered: set<Id>, event: Id, ids: seq<Id>,
                             items: seq<Planner.Session>)
  {
    && |ids| == |items|
    && (forall i, j | 0 <= i < j < |ids| :: ids[i] != ids[j])
    && (forall id | id in ids :: id !in t.sessions && id in after.sessions && after.sessions[id].event == event)
    && (forall i | 0 <= i < |items| :: IsSession(after.sessions[ids[i]], items[i], event, after.dates))
    && (forall id | id in after.sessions && after.sessions[id].event == event && id !in ids ::
          id in t.sessions && t.sessions[id].event == event && id in ordered)
    && (forall id | id in t.sessions && t.sessions[id].event == event && id in ordered ::
          id in after.sessions && after.sessions[id] == t.sessions[id].(status := Hidden))
  }

  // The hidden sessions have the stock and holds they had, each new one its own capacity for each item on sale.
  ghost predicate StockReplaced(t: Tables, after: Tables, ordered: set<Id>, tickets: seq<Ticket>, event: Id,
                                ids: seq<Id>, items: seq<Planner.Session>)
    requires |ids| == |items|
  {
    && (forall key: Key | key.session in t.sessions && t.sessions[key.session].event == event ::
          && (key in after.stock <==> key in t.stock && key.session in ordered)
          && (key in after.stock ==> key in t.stock && after.stock[key] == t.stock[key]))
    && (forall i, item | 0 <= i < |items| ::
          && (Key(ids[i], item) in after.stock <==> OnSale(tickets, event, item))
          && (Key(ids[i], item) in after.stock ==>
                after.stock[Key(ids[i], item)] == Stock(event, items[i].capacity)))
    && (forall hold | hold in t.holds && t.holds[hold] in t.sessions && t.sessions[t.holds[hold]].event == event ::
          hold in after.holds <==> t.holds[hold] in ordered)
  }

  lemma ReplacedSessions(t: Tables, after: Tables, ordered: set<Id>, tickets: seq<Ticket>, event: Id, nextId: Id,
                         ids: seq<Id>, items: seq<Planner.Session>)
    requires Sound(t, ordered, nextId) && Applied(Cleared(t, ordered, event), after, tickets, event, ids, items)
    requires forall id | id in ids :: id >= nextId
    ensures SessionsReplaced(t, after, ordered, event, ids, items)
  {
    hide Cleared, IsSession, Applied, Sound;
    SoundSessions(t, ordered, nextId);
    ActiveSessionsAreThePlan(t, after, ordered, tickets, event, ids, items);
    SessionsKnown(t, after, ordered, tickets, event, ids, items);
    forall id | id in t.sessions && t.sessions[id].event == event
      ensures id in after.sessions <==> id in ordered
      ensures id in ordered ==> after.sessions[id] == t.sessions[id].(status := Hidden)
    {
      OrderedSessionsHidden(t, after, ordered, tickets, event, nextId, ids, items, id);
    }
    assert forall id | id in ids :: id in ActiveOf(after.sessions, event);
  }

  lemma ReplacedStock(t: Tables, after: Tables, ordered: set<Id>, tickets: seq<Ticket>, event: Id, nextId: Id,
                      ids: seq<Id>, items: seq<Planner.Session>)
    requires Sound(t, ordered, nextId) && Applied(Cleared(t, ordered, event), after, tickets, event, ids, items)
    requires |ids| == |items| && forall id | id in ids :: id >= nextId && id !in t.sessions
    ensures StockReplaced(t, after, ordered, tickets, event, ids, items)
  {
    hide Cleared, OnSale, Applied, Sound;
    forall key: Key | key.session in t.sessions && t.sessions[key.session].event == event
      ensures key in after.stock <==> key in t.stock && key.session in ordered
      ensures key in after.stock ==> after.stock[key] == t.stock[key]
    {
      OldStockKept(t, after, ordered, tickets, event, nextId, ids, items, key);
    }
    SoundStock(t, ordered, event, nextId);
    forall i, item | 0 <= i < |items|
      ensures Key(ids[i], item) in after.stock <==> OnSale(tickets, event, item)
      ensures Key(ids[i], item) in after.stock ==>
        after.stock[Key(ids[i], item)] == Stock(event, items[i].capacity)
    {
      assert ids[i] in ids;
      AppliedStock(Cleared(t, ordered, event), after, tickets, event, ids, items, i, item);
    }
    HoldsKept(t, after, ordered, tickets, event, ids, items);
  }

  // What the event holds after a replacement: the sessions that had orders, hidden, with the stock and holds they had,
  // and one active session per wanted item, stocked with its own capacity for exactly the items on sale.
  lemma ReplacedSchedule(t: Tables, after: Tables, ordered: set<Id>, tickets: seq<Ticket>, event: Id, nextId: Id,
                         items: seq<Planner.Session>) returns (ids: seq<Id>)
    requires Sound(t, ordered, nextId)
    requires Scheduled(Cleared(t, ordered, event), after, tickets, event, nextId, items) && UniqueDays(after.dates)
    ensures SessionsReplaced(t, after, ordered, event, ids, items)
    ensures StockReplaced(t, after, ordered, tickets, event, ids, items) && NoEmptyDates(after, event)
  {
    hide Cleared, UniqueDays, NoEmptyDates, Applied, Sound, StockReplaced;
    ids :| Applied(Cleared(t, ordered, event), after, tickets, event, ids, items) &&
      forall id | id in ids :: id >= nextId;
    ReplacedSessions(t, after, ordered, tickets, event, nextId, ids, items);
    ReplacedStock(t, after, ordered, tickets, event, nextId, ids, items);
    EveryDateInUse(t, ordered, after, tickets, event, ids, items);
  }

  // Clearing leaves no date of the event without a session.
  lemma ClearedDatesInUse(t: Tables, ordered: set<Id>, event: Id)
    ensures NoEmptyDates(Cleared(t, ordered, event), event)
  {
    ClearedParts(t, ordered, event);
  }

  predicate NoEmptyDates(t: Tables, event: Id) {
    forall d | d in t.dates && t.dates[d].event == event :: InUse(t.sessions, d)
  }

  lemma NewDateInUse(base: Tables, after: Tables, event: Id, ids: seq<Id>, items: seq<Planner.Session>, d: Id)
    requires SessionsAdded(base.sessions, after.sessions, after.dates, event, ids, items)
    requires DatesAdded(base.dates, after.dates, event, Days(items)) && UniqueDays(after.dates)
    requires d in after.dates && d !in base.dates
    ensures InUse(after.sessions, d)
  {
    hide IsSession, HasDay, Planner.QatarDay;
    var i :| 0 <= i < |items| && Days(items)[i] == after.dates[d].day;
    NewSessionDated(base, after, event, ids, items, i);
    assert after.sessions[ids[i]].date == d;
  }

  lemma OldDateInUse(base: Tables, after: Tables, event: Id, ids: seq<Id>, items: seq<Planner.Session>, d: Id)
    requires SessionsAdded(base.sessions, after.sessions, after.dates, event, ids, items) && InUse(base.sessions, d)
    ensures InUse(after.sessions, d)
  {
    hide IsSession;
    var id :| id in base.sessions && base.sessions[id].date == d;
    assert after.sessions[id].date == d;
  }

  // If no date of the event was without a session, none is afterwards.
  lemma DatesStayInUse(base: Tables, after: Tables, tickets: seq<Ticket>, event: Id, ids: seq<Id>,
                       items: seq<Planner.Session>)
    requires Applied(base, after, tickets, event, ids, items) && NoEmptyDates(base, event) && UniqueDays(after.dates)
    ensures NoEmptyDates(after, event)
  {
    hide StockAdded, SessionsAdded, InUse, UniqueDays;
    forall d | d in after.dates && after.dates[d].event == event ensures InUse(after.sessions, d) {
      if d in base.dates {
        OldDateInUse(base, after, event, ids, items, d);
      } else {
        NewDateInUse(base, after, event, ids, items, d);
      }
    }
  }

  // A replaced schedule shows no empty day.
  lemma EveryDateInUse(t: Tables, ordered: set<Id>, after: Tables, tickets: seq<Ticket>, event: Id, ids: seq<Id>,
                       items: seq<Planner.Session>)
    requires Applied(Cleared(t, ordered, event), after, tickets, event, ids, items) && UniqueDays(after.dates)
    ensures NoEmptyDates(after, event)
  {
    hide Applied, Cleared, NoEmptyDates, UniqueDays;
    ClearedDatesInUse(t, ordered, event);
    DatesStayInUse(Cleared(t, ordered, event), after, tickets, event, ids, items);
  }

  lemma NewSessionDated(base: Tables, after: Tables, event: Id, ids: seq<Id>, items: seq<Planner.Session>, i: nat)
    requires SessionsAdded(base.sessions, after.sessions, after.dates, event, ids, items) && i < |items|
    ensures ids[i] in after.sessions && after.sessions[ids[i]].date in after.dates
    ensures after.dates[after.sessions[ids[i]].date] == DateRow(event, Planner.QatarDay(items[i].startsAt), Active)
  {
    assert IsSession(after.sessions[ids[i]], items[i], event, after.dates);
  }

  // Rows of other events are untouched, whether or not the schedule is replaced.
  lemma OtherEventsUntouched(t: Tables, after: Tables, ordered: set<Id>, tickets: seq<Ticket>, event: Id, nextId: Id,
                             ids: seq<Id>, items: seq<Planner.Session>, replace: bool)
    requires Sound(t, ordered, nextId)
    requires Applied(if replace then Cleared(t, ordered, event) else t, after, tickets, event, ids, items)
    ensures forall id | id in t.sessions && t.sessions[id].event != event ::
      id in after.sessions && after.sessions[id] == t.sessions[id]
    ensures forall d | d in t.dates && t.dates[d].event != event :: d in after.dates && after.dates[d] == t.dates[d]
    ensures forall key | key in t.stock && t.sessions[key.session].event != event ::
      key in after.stock && after.stock[key] == t.stock[key]
    ensures forall hold | hold in t.holds && t.sessions[t.holds[hold]].event != event ::
      hold in after.holds && after.holds[hold] == t.holds[hold]
    ensures forall id | id in after.sessions && after.sessions[id].event != event :: id in t.sessions
  {
    hide Cleared, OnSale;
    if replace {
      ClearedParts(t, ordered, event);
      forall id | id in t.sessions && t.sessions[id].event != event
        ensures id in Cleared(t, ordered, event).sessions && Cleared(t, ordered, event).sessions[id] == t.sessions[id]
      {
        ClearedSession(t, ordered, event, id);
      }
    }
    forall id | id in ids ensures after.sessions[id].event == event {
      var i :| 0 <= i < |ids| && ids[i] == id;
      assert IsSession(after.sessions[ids[i]], items[i], event, after.dates);
    }
  }

  // ----- the service

  predicate HasRow(rows: seq<StockRow>, key: Key) {
    exists row :: row in rows && row.key == key
  }

  lemma HasRowSnoc(rows: seq<StockRow>, row: StockRow, key: Key)
    ensures HasRow(rows + [row], key) <==> HasRow(rows, key) || row.key == key
  {
  }

  // A session for each sold item of one ticket.
  ghost predicate RowsAdded(before: seq<StockRow>, after: seq<StockRow>, session: Id, event: Id, tickets: seq<Ticket>) {
    forall key :: HasRow(after, key) <==>
      HasRow(before, key) || (key.session == session && OnSale(tickets, event, key.item))
  }

  predicate RowsCarry(rows: seq<StockRow>, sessions: map<Id, SessionRow>, event: Id) {
    forall row | row in rows ::
      row.key.session in sessions && row.stock == Stock(event, sessions[row.key.session].capacity)
  }

  lemma NoRows(key: Key)
    ensures !HasRow([], key)
  {
  }

  lemma OnSaleSnoc(tickets: seq<Ticket>, i: nat, event: Id, item: Item)
    requires i < |tickets|
    ensures OnSale(tickets[..i + 1], event, item) <==>
      OnSale(tickets[..i], event, item) || Sells(tickets[i], event, item)
  {
    assert tickets[..i + 1] == tickets[..i] + [tickets[i]];
  }

  // A map with the rows of another, up to their status, has its days.
  lemma HasDayKept(before: map<Id, DateRow>, after: map<Id, DateRow>, event: Id, day: int)
    requires HasDay(before, event, day)
    requires forall d | d in before :: d in after && after[d].event == before[d].event && after[d].day == before[d].day
    ensures HasDay(after, event, day)
  {
  }

  lemma SameDays(before: map<Id, DateRow>, after: map<Id, DateRow>, event: Id, days: seq<int>, same: seq<int>)
    requires DatesAdded(before, after, event, days) && forall day :: day in days <==> day in same
    ensures DatesAdded(before, after, event, same)
  {
  }

  // What one chunk of days does, after the chunks before it.
  lemma ChunkAdded(before: map<Id, DateRow>, start: map<Id, DateRow>, created: map<Id, DateRow>,
                   event: Id, days: seq<int>, chunk: seq<int>)
    requires DatesAdded(before, start, event, days)
    requires forall d | d in start :: d in created && created[d] == start[d]
    requires forall d | d in created && d !in start ::
      created[d].event == event && created[d].day in chunk && created[d].status == Active
    requires forall day | day in chunk :: HasDay(created, event, day)
    ensures DatesAdded(before, Activated(created, event, chunk), event, days + chunk)
  {
    hide HasDay;
    var after := Activated(created, event, chunk);
    forall day | day in days + chunk ensures HasDay(after, event, day) {
      if day in days {
        HasDayKept(start, after, event, day);
      } else {
        HasDayKept(created, after, event, day);
      }
    }
  }

  // `updateMany` of the listed days of the event.
  function Activated(dates: map<Id, DateRow>, event: Id, days: seq<int>): map<Id, DateRow> {
    map d | d in dates ::
      if dates[d].event == event && dates[d].day in days then dates[d].(status := Active) else dates[d]
  }

  lemma ActivatedSound(t: Tables, ordered: set<Id>, nextId: Id, event: Id, days: seq<int>)
    requires Sound(t, ordered, nextId)
    ensures Sound(t.(dates := Activated(t.dates, event, days)), ordered, nextId)
  {
  }

  lemma StockSound(t: Tables, ordered: set<Id>, nextId: Id, stock: map<Key, Stock>, tickets: seq<Ticket>, event: Id)
    requires Sound(t, ordered, nextId)
    requires StockAdded(t.stock, stock, t.sessions, tickets, event, ActiveOf(t.sessions, event))
    ensures Sound(t.(stock := stock), ordered, nextId)
  {
    hide OnSale;
  }

  lemma NoDatesAdded(dates: map<Id, DateRow>, event: Id)
    ensures DatesAdded(dates, dates, event, [])
  {
  }

  lemma DayListed(before: map<Id, DateRow>, dates: map<Id, DateRow>, event: Id, items: seq<Planner.Session>,
                  item: Planner.Session)
    requires DatesAdded(before, dates, event, Days(items)) && item in items
    ensures exists d :: d in dates && dates[d] == DateRow(event, Planner.QatarDay(item.startsAt), Active)
  {
  }

  lemma DaysSnoc(items: seq<Planner.Session>, i: nat)
    requires i < |items|
    ensures Days(items[..i + 1]) == Days(items[..i]) + [Planner.QatarDay(items[i].startsAt)]
  {
    assert items[..i + 1][..i] == items[..i];
  }

  lemma NoSessionsAdded(sessions: map<Id, SessionRow>, dates: map<Id, DateRow>, event: Id)
    ensures SessionsAdded(sessions, sessions, dates, event, [], []) && Days([]) == []
  {
  }

  lemma SessionAdded(before: map<Id, SessionRow>, start: map<Id, SessionRow>, after: map<Id, SessionRow>,
                     dates: map<Id, DateRow>, event: Id, ids: seq<Id>, items: seq<Planner.Session>, i: nat, id: Id)
    requires i < |items| && SessionsAdded(before, start, dates, event, ids, items[..i])
    requires id !in start && id in after && after == start[id := after[id]]
    requires IsSession(after[id], items[i], event, dates)
    ensures SessionsAdded(before, after, dates, event, ids + [id], items[..i + 1])
  {
    hide IsSession;
    assert items[..i + 1] == items[..i] + [items[i]];
  }

  method DistinctDays(items: seq<Planner.Session>) returns (days: seq<int>)
    ensures forall day :: day in days <==> day in Days(items)
    ensures forall i, j | 0 <= i < j < |days| :: days[i] != days[j]
  {
    hide Days, Planner.QatarDay;
    days := [];
    for i := 0 to |items|
      invariant forall day :: day in days <==> day in Days(items[..i])
      invariant forall i, j | 0 <= i < j < |days| :: days[i] != days[j]
    {
      var day := Planner.QatarDay(items[i].startsAt);
      DaysSnoc(items, i);
      if day !in days {
        days := days + [day];
      }
    }
    assert items[..|items|] == items;
  }

  // The rows a query returns, in some order.
  method Listed(found: set<Id>) returns (ids: seq<Id>)
    ensures forall id :: id in ids <==> id in found
  {
    var left := found;
    ids := [];
    while |left| > 0
      invariant forall id :: id in found <==> id in ids || id in left
      decreases left
    {
      var id :| id in left;
      ids := ids + [id];
      left := left - {id};
    }
  }

  function WindowOf(request: Request): (int, int) {
    var input := request.timing;
    var from := if request.startTime.Some? then request.startTime.value else Planner.Time(0, 0);
    var to := if request.endTime.Some? then request.endTime.value else Planner.Time(23, 59);
    (Planner.QatarDateTime(input.start, from), Planner.QatarDateTime(input.end, to))
  }

  // The stored window runs from the first day at the given time, or midnight, to the last day at the given time, or a
  // minute before midnight, in Qatar.
  lemma WindowIs(request: Request)
    ensures var (from, to) := WindowOf(request);
      && from == 1440 * Calendar.DayNumber(request.timing.start) - 180 +
                 (if request.startTime.Some? then 60 * request.startTime.value.h + request.startTime.value.m else 0)
      && to == 1440 * Calendar.DayNumber(request.timing.end) - 180 +
               (if request.endTime.Some? then 60 * request.endTime.value.h + request.endTime.value.m else 1439)
  {
    hide Calendar.DayNumber;
  }

  class Schedule {
    var events: map<Id, (int, int)>
    var sessions: map<Id, SessionRow>
    var dates: map<Id, DateRow>
    var stock: map<Key, Stock>
    var holds: map<Id, Id>
    var ordered: set<Id>
    var tickets: seq<Ticket>
    var nextId: Id

    constructor (events: map<Id, (int, int)>, tickets: seq<Ticket>)
      ensures Valid() && Now() == Tables(map[], map[], map[], map[])
    {
      this.events, this.tickets := events, tickets;
      sessions, dates, stock, holds, ordered, nextId := map[], map[], map[], map[], {}, 0;
    }

    ghost function Now(): Tables
      reads this
    {
      Tables(sessions, dates, stock, holds)
    }

    ghost predicate Valid()
      reads this
    {
      Sound(Now(), ordered, nextId)
    }

    // Holds and stock go before the sessions they refer to.
    method DeleteUnordered(event: Id) returns (removed: nat)
      modifies `sessions, `stock, `holds
      ensures Now() == old(Deleted(Now(), ordered, event))
      ensures removed == |RemovableIds(old(sessions), ordered, event)|
    {
      var removable := RemovableIds(sessions, ordered, event);
      assert forall id :: id in removable <==> Removable(sessions, ordered, event, id);
      if |removable| > 0 {
        holds := map h | h in holds && holds[h] !in removable :: holds[h];
        stock := map key | key in stock && key.session !in removable :: stock[key];
        sessions := map id | id in sessions && id !in removable :: sessions[id];
      }
      removed := |removable|;
    }

    // Sessions with orders cannot be deleted.
    method HideOrdered(event: Id) returns (hidden: nat)
      modifies `sessions
      ensures sessions == Hiding(old(sessions), ordered, event)
      ensures hidden == |BlockedIds(old(sessions), ordered, event)|
    {
      var blocked := BlockedIds(sessions, ordered, event);
      sessions := map id | id in sessions :: if id in blocked then sessions[id].(status := Hidden) else sessions[id];
      hidden := |blocked|;
    }

    method DeleteEmptyDates(event: Id)
      modifies `dates
      ensures dates == UsedDates(old(Now()), event)
    {
      var used := set id | id in sessions :: sessions[id].date;
      forall d ensures d in used <==> InUse(sessions, d) {
        if InUse(sessions, d) {
          var id :| id in sessions && sessions[id].date == d;
          assert sessions[id].date in used;
        }
      }
      dates := map d | d in dates && (dates[d].event != event || d in used) :: dates[d];
    }

    method ClearSchedule(event: Id) returns (removed: nat, hidden: nat)
      modifies `sessions, `dates, `stock, `holds
      ensures Now() == old(Cleared(Now(), ordered, event))
      ensures removed == |RemovableIds(old(sessions), ordered, event)|
      ensures hidden == |BlockedIds(old(sessions), ordered, event)|
    {
      hide Deleted, Hiding, UsedDates, RemovableIds, BlockedIds;
      BlockedStay(Now(), ordered, event);
      removed := DeleteUnordered(event);
      hidden := HideOrdered(event);
      DeleteEmptyDates(event);
    }

    // One `createMany` that skips days the event already has.
    method CreateDates(event: Id, days: seq<int>)
      requires Valid()
      modifies `dates, `nextId
      ensures Valid() && nextId >= old(nextId)
      ensures forall d | d in old(dates) :: d in dates && dates[d] == old(dates)[d]
      ensures forall d | d in dates && d !in old(dates) ::
        dates[d].event == event && dates[d].day in days && dates[d].status == Active
      ensures forall day | day in days :: HasDay(dates, event, day)
    {
      hide HasDay;
      for i := 0 to |days|
        invariant Valid() && nextId >= old(nextId)
        invariant forall d | d in old(dates) :: d in dates && dates[d] == old(dates)[d]
        invariant forall d | d in dates && d !in old(dates) ::
          dates[d].event == event && dates[d].day in days && dates[d].status == Active
        invariant forall day | day in days[..i] :: HasDay(dates, event, day)
      {
        ghost var before := dates;
        if !HasDay(dates, event, days[i]) {
          CreateDate(event, days[i]);
        }
        forall day | day in days[..i + 1] ensures HasDay(dates, event, day) {
          if day in days[..i] {
            HasDayKept(before, dates, event, day);
          }
        }
      }
      assert days[..|days|] == days;
    }

    method CreateDate(event: Id, day: int)
      requires Valid() && !HasDay(dates, event, day)
      modifies `dates, `nextId
      ensures Valid() && nextId == old(nextId) + 1
      ensures old(nextId) !in old(dates) && dates == old(dates)[old(nextId) := DateRow(event, day, Active)]
      ensures HasDay(dates, event, day)
    {
      dates := dates[nextId := DateRow(event, day, Active)];
      nextId := nextId + 1;
      assert dates[nextId - 1].day == day;
    }

    // The stored dates of the event by day.
    method DateIds(event: Id) returns (byDay: map<int, Id>)
      requires Valid()
      ensures forall d | d in dates && dates[d].event == event :: dates[d].day in byDay && byDay[dates[d].day] == d
    {
      byDay := map d | d in dates && dates[d].event == event :: dates[d].day := d;
    }

    method EnsureDates(event: Id, days: seq<int>)
      requires Valid()
      modifies `dates, `nextId
      ensures Valid() && nextId >= old(nextId)
      ensures DatesAdded(old(dates), dates, event, days)
    {
      hide HasDay, Activated, DatesAdded, Sound;
      NoDatesAdded(dates, event);
      assert days[..0] == [];
      var i := 0;
      while i < |days|
        invariant 0 <= i <= |days|
        invariant Valid() && nextId >= old(nextId)
        invariant DatesAdded(old(dates), dates, event, days[..i])
      {
        var j := Min(i + 100, |days|);
        var chunk := days[i..j];
        ghost var start := dates;
        CreateDates(event, chunk);
        ChunkAdded(old(dates), start, dates, event, days[..i], chunk);
        ActivatedSound(Now(), ordered, nextId, event, chunk);
        dates := Activated(dates, event, chunk);
        assert days[..j] == days[..i] + chunk;
        i := j;
      }
      assert days[..|days|] == days;
    }

    method CreateSession(event: Id, item: Planner.Session, date: Id) returns (id: Id)
      requires Valid() && date in dates
      modifies `sessions, `nextId
      ensures Valid() && nextId == old(nextId) + 1
      ensures id !in old(sessions) && id >= old(nextId)
      ensures sessions ==
        old(sessions)[id := SessionRow(event, date, item.startsAt, Some(item.endsAt), item.capacity, Active)]
    {
      id := nextId;
      sessions := sessions[id := SessionRow(event, date, item.startsAt, Some(item.endsAt), item.capacity, Active)];
      nextId := nextId + 1;
    }

    // Every wanted day has its date, so the missing date of lines 1663-1665 does not arise.
    method CreateSessions(event: Id, items: seq<Planner.Session>, byDay: map<int, Id>) returns (ghost ids: seq<Id>)
      requires Valid()
      requires forall item | item in items ::
        var day := Planner.QatarDay(item.startsAt);
        day in byDay && byDay[day] in dates && dates[byDay[day]] == DateRow(event, day, Active)
      modifies `sessions, `nextId
      ensures Valid() && nextId >= old(nextId) && forall id | id in ids :: id >= old(nextId)
      ensures SessionsAdded(old(sessions), sessions, dates, event, ids, items)
    {
      hide Planner.QatarDay, Valid;
      ids := [];
      var i := 0;
      while i < |items|
        invariant 0 <= i <= |items|
        invariant Valid() && nextId >= old(nextId) && forall id | id in ids :: id >= old(nextId)
        invariant SessionsAdded(old(sessions), sessions, dates, event, ids, items[..i])
      {
        var end := Min(i + 250, |items|);
        while i < end
          invariant 0 <= i <= end <= |items|
          invariant Valid() && nextId >= old(nextId) && forall id | id in ids :: id >= old(nextId)
          invariant SessionsAdded(old(sessions), sessions, dates, event, ids, items[..i])
        {
          assert items[i] in items;
          ghost var start := sessions;
          var id := CreateSession(event, items[i], byDay[Planner.QatarDay(items[i].startsAt)]);
          SessionAdded(old(sessions), start, sessions, dates, event, ids, items, i, id);
          ids := ids + [id];
          i := i + 1;
        }
      }
      assert items[..|items|] == items;
    }

    method TicketRows(rows: seq<StockRow>, session: Id, event: Id, ticket: Ticket) returns (out: seq<StockRow>)
      requires session in sessions && RowsCarry(rows, sessions, event) && ticket.event == event && ticket.active
      ensures RowsCarry(out, sessions, event)
      ensures forall key :: HasRow(out, key) <==>
        HasRow(rows, key) || (key.session == session && Sells(ticket, event, key.item))
    {
      hide HasRow;
      out := rows;
      var total := sessions[session].capacity;
      if ticket.hasVariants {
        for i := 0 to |ticket.variants|
          invariant RowsCarry(out, sessions, event)
          invariant forall key :: HasRow(out, key) <==>
            HasRow(rows, key) || (key.session == session && key.item.VariantItem?
                                  && Variant(key.item.id, true) in ticket.variants[..i])
        {
          var variant := ticket.variants[i];
          if variant.active {
            var row := StockRow(Key(session, VariantItem(variant.id)), Stock(event, total));
            forall key { HasRowSnoc(out, row, key); }
            out := out + [row];
          }
        }
        assert ticket.variants[..|ticket.variants|] == ticket.variants;
      } else {
        var row := StockRow(Key(session, TicketItem(ticket.id)), Stock(event, total));
        forall key { HasRowSnoc(out, row, key); }
        out := out + [row];
      }
    }

    method SessionRows(rows: seq<StockRow>, session: Id, event: Id) returns (out: seq<StockRow>)
      requires session in sessions && RowsCarry(rows, sessions, event)
      ensures RowsCarry(out, sessions, event) && RowsAdded(rows, out, session, event, tickets)
    {
      hide HasRow;
      out := rows;
      for i := 0 to |tickets|
        invariant RowsCarry(out, sessions, event) && RowsAdded(rows, out, session, event, tickets[..i])
      {
        ghost var before := out;
        if tickets[i].event == event && tickets[i].active {
          out := TicketRows(out, session, event, tickets[i]);
        }
        forall item { OnSaleSnoc(tickets, i, event, item); }
      }
      assert tickets[..|tickets|] == tickets;
    }

    // One `createMany` that skips keys already stocked.
    method CreateStock(rows: seq<StockRow>, event: Id)
      requires RowsCarry(rows, sessions, event)
      modifies `stock
      ensures forall key | key in old(stock) :: key in stock && stock[key] == old(stock)[key]
      ensures forall key :: key in stock <==> key in old(stock) || HasRow(rows, key)
      ensures forall key | key in stock && key !in old(stock) ::
        key.session in sessions && stock[key] == Stock(event, sessions[key.session].capacity)
    {
      for i := 0 to |rows|
        invariant forall key | key in old(stock) :: key in stock && stock[key] == old(stock)[key]
        invariant forall key :: key in stock <==> key in old(stock) || HasRow(rows[..i], key)
        invariant forall key | key in stock && key !in old(stock) ::
          key.session in sessions && stock[key] == Stock(event, sessions[key.session].capacity)
      {
        var row := rows[i];
        assert row in rows;
        assert rows[..i + 1] == rows[..i] + [row];
        forall key { HasRowSnoc(rows[..i], row, key); }
        if row.key !in stock {
          stock := stock[row.key := row.stock];
        }
      }
      assert rows[..|rows|] == rows;
    }

    method EnsureInventory(event: Id, ids: seq<Id>, ghost created: set<Id>)
      requires created <= sessions.Keys && forall id :: id in ids <==> id in created
      modifies `stock
      ensures StockAdded(old(stock), stock, sessions, tickets, event, created)
    {
      hide HasRow, OnSale;
      var rows: seq<StockRow> := [];
      forall key ensures !HasRow(rows, key) { NoRows(key); }
      for i := 0 to |ids|
        invariant stock == old(stock)
        invariant RowsCarry(rows, sessions, event)
        invariant forall key :: HasRow(rows, key) <==> key.session in ids[..i] && OnSale(tickets, event, key.item)
      {
        rows := SessionRows(rows, ids[i], event);
      }
      assert ids[..|ids|] == ids;
      CreateStock(rows, event);
    }

    method ApplyTiming(event: Id, request: Request) returns (r: Result<(nat, nat), Error>)
      requires Valid()
      requires Calendar.Valid(request.timing.start) && Calendar.Valid(request.timing.end)
      modifies this
      ensures tickets == old(tickets) && ordered == old(ordered)
      ensures Valid()
      ensures r.Err? <==> event !in old(events) || RequestError(request).Some?
      ensures r.Err? ==> r.error == if event !in old(events) then EventMissing else RequestError(request).value
      ensures r.Err? ==> Now() == old(Now()) && events == old(events)
      ensures r.Ok? ==>
        Scheduled(if request.replace then Cleared(old(Now()), ordered, event) else old(Now()), Now(), tickets, event,
                  old(nextId), Wanted(request))
      ensures r.Ok? ==> r.value == if request.replace
        then (|RemovableIds(old(sessions), ordered, event)|, |BlockedIds(old(sessions), ordered, event)|) else (0, 0)
      ensures r.Ok? ==> events == old(events)[event := WindowOf(request)]
    {
      hide Planner.Expansion, Planner.PlanError, ProvidesCapacity, Calendar.Less, Calendar.Valid;
      hide Applied, Cleared, Sound, RemovableIds, BlockedIds;
      if event !in events {
        return Err(EventMissing);
      }
      var input, capacity := request.timing, DefaultCapacity(request);
      if Calendar.Less(input.end, input.start) {
        return Err(EndBeforeStart);
      }
      if Tracks(request) && (request.capacity.None? || request.capacity.value < 1) && !ProvidesCapacity(input) {
        return Err(CapacityMissing);
      }
      var plan := Planner.PlanSessions(input, capacity);
      if plan.Err? {
        return Err(Pattern(plan.error));
      }
      var planned := plan.value;
      if |planned| > 5000 {
        return Err(TooManySessions);
      }
      if !input.mode.PreferredMode? && |planned| == 0 {
        return Err(NothingMatches);
      }
      var removed, hidden := 0, 0;
      if request.replace {
        ClearedSound(Now(), ordered, event, nextId);
        removed, hidden := ClearSchedule(event);
      }
      var items := planned;
      if |planned| == 0 && input.mode.PreferredMode? && request.startTime.Some? && request.endTime.Some? {
        items := [Planner.Session(Planner.QatarDateTime(input.start, request.startTime.value),
                                  Planner.QatarDateTime(input.end, request.endTime.value), capacity)];
      }
      assert items == Wanted(request);
      ghost var ids := CreateAll(event, items);
      events := events[event := WindowOf(request)];
      r := Ok((removed, hidden));
    }

    method CreateAll(event: Id, items: seq<Planner.Session>) returns (ghost ids: seq<Id>)
      requires Valid()
      modifies `sessions, `dates, `stock, `nextId
      ensures Valid() && forall id | id in ids :: id >= old(nextId)
      ensures Applied(old(Now()), Now(), tickets, event, ids, items)
    {
      hide Planner.QatarDay, OnSale, HasDay, DatesAdded, SessionsAdded, StockAdded, Days, Sound;
      ids := [];
      if |items| == 0 {
        NoDatesAdded(dates, event);
        NoSessionsAdded(sessions, dates, event);
        return;
      }
      var days := DistinctDays(items);
      EnsureDates(event, days);
      SameDays(old(dates), dates, event, days, Days(items));
      var byDay := DateIds(event);
      forall item | item in items
        ensures var day := Planner.QatarDay(item.startsAt);
          day in byDay && byDay[day] in dates && dates[byDay[day]] == DateRow(event, day, Active)
      {
        DayListed(old(dates), dates, event, items, item);
      }
      ids := CreateSessions(event, items, byDay);
      var listed := Listed(ActiveOf(sessions, event));
      ghost var created := Now();
      EnsureInventory(event, listed, ActiveOf(sessions, event));
      StockSound(created, ordered, nextId, stock, tickets, event);
    }
  }
}
