/**
 src/modules/admin-daily-closings/admin-daily-closings.service.ts and admin-settlements.service.ts: the closing of an
 agent's day for an event, its approval and its history, and the settlement of a day. Money is in thousandths. The
 staff tables that scope a caller, signatures and documents are not modelled: a call carries whether it is in scope.
 */
module DailyClosings {
  import opened Prelude
  import Totals = ClosingTotals

  type Id = nat

  datatype Status = Generated | Rejected | Approved

  datatype Amounts = Amounts(receivedCash: int, receivedCard: int, saleCash: int, saleCard: int, balanceCash: int,
                             balanceCard: int, qty: int)

  datatype Closing = Closing(agent: Id, event: Id, day: int, org: Option<Id>, amounts: Amounts, note: Option<string>,
                             reason: Option<string>, status: Status, deleted: bool)

  datatype Entry = Entry(closing: Id, status: Status, amounts: Amounts, note: Option<string>, reason: Option<string>)

  datatype Tables = Tables(closings: map<Id, Closing>, history: seq<Entry>, nextId: Id)

  datatype Role = PosAgent | FinanceManager | Admin | OtherRole

  datatype Error =
    | FutureDate | NotOwnClosing | AgentRequired | RoleForbidden | EventUnresolved | OutOfScope | AlreadyClosed
    | NoBookings
    | NothingToSettle | NotAllApproved | AlreadySettled | NotFound | ApprovedAlready | HasNote | NoPermission
    | NoteRequired | ReasonRequired

  // `event` is the resolved event, none when it cannot be resolved.
  datatype Op =
    | Create(role: Role, caller: Id, agent: Option<Id>, day: int, today: int, event: Option<Id>, inScope: bool,
             cash: int, card: int, text: Option<string>)
    | Update(id: Id, inScope: bool, cash: int, card: int, text: Option<string>)
    | AddNote(id: Id, inScope: bool, note: string)
    | Decide(id: Id, permitted: bool, inScope: bool, approve: bool, text: Option<string>, reason: Option<string>)
    | Remove(id: Id, roleAllows: bool, inScope: bool)

  // ----- what each operation does

  function OrNone(s: string): Option<string> {
    if s == "" then None else Some(s)
  }

  function TrimmedOr(text: Option<string>, otherwise: Option<string>): Option<string> {
    if text.Some? then OrNone(Trim(text.value)) else otherwise
  }

  function AmountsOf(cash: int, card: int, e: Totals.Expected): Amounts {
    Amounts(cash, card, e.cash, e.card, cash - e.cash, card - e.card, e.qty)
  }

  function EntryOf(id: Id, c: Closing): Entry {
    Entry(id, c.status, c.amounts, c.note, c.reason)
  }

  predicate Discrepant(c: Closing) {
    c.amounts.balanceCash != 0 || c.amounts.balanceCard != 0
  }

  function AgentOf(op: Op): Id
    requires op.Create?
  {
    if op.role == PosAgent || op.agent.None? then op.caller else op.agent.value
  }

  predicate Live(t: Tables, id: Id) {
    id in t.closings && !t.closings[id].deleted
  }

  predicate Closed(t: Tables, agent: Id, event: Id, day: int) {
    exists id :: id in t.closings && Live(t, id) && t.closings[id].agent == agent && t.closings[id].event == event
                 && t.closings[id].day == day
  }

  function CreateError(t: Tables, orders: seq<Totals.Order>, op: Op): Option<Error>
    requires op.Create?
  {
    var agent := AgentOf(op);
    if op.day > op.today then Some(FutureDate)
    else if op.role == PosAgent && op.agent.Some? && op.agent.value != op.caller then Some(NotOwnClosing)
    else if (op.role == Admin || op.role == FinanceManager) && op.agent.None? then Some(AgentRequired)
    else if op.role == OtherRole && agent != op.caller then Some(RoleForbidden)
    else if op.event.None? then Some(EventUnresolved)
    else if !op.inScope then Some(OutOfScope)
    else if Closed(t, agent, op.event.value, op.day) then Some(AlreadyClosed)
    else if Totals.ExpectedFor(orders, agent, op.day, Some({op.event.value})).orders == 0 then Some(NoBookings)
    else None
  }

  function Found(t: Tables, id: Id, inScope: bool): Option<Error> {
    if !Live(t, id) then Some(NotFound) else if !inScope then Some(OutOfScope) else None
  }

  function OpError(t: Tables, orders: seq<Totals.Order>, op: Op): Option<Error> {
    match op
    case Create(_, _, _, _, _, _, _, _, _, _) => CreateError(t, orders, op)
    case Update(id, inScope, _, _, _) =>
      if Found(t, id, inScope).Some? then Found(t, id, inScope)
      else
        var c := t.closings[id];
        if c.status == Approved then Some(ApprovedAlready)
        else if Totals.ExpectedFor(orders, c.agent, c.day, Some({c.event})).orders == 0 then Some(NoBookings) else None
    case AddNote(id, inScope, note) =>
      if Found(t, id, inScope).Some? then Found(t, id, inScope)
      else if t.closings[id].status == Approved then Some(ApprovedAlready)
      else if t.closings[id].note.Some? && t.closings[id].note.value != "" then Some(HasNote) else None
    case Decide(id, permitted, inScope, approve, text, reason) =>
      if !permitted then Some(NoPermission)
      else if Found(t, id, inScope).Some? then Found(t, id, inScope)
      else
        var c := t.closings[id];
        var given := if text.Some? then text.value else if c.note.Some? then c.note.value else "";
        if c.status == Approved then Some(ApprovedAlready)
        else if approve && Discrepant(c) && Trim(given) == "" then Some(NoteRequired)
        else if !approve && (reason.None? || Trim(reason.value) == "") then Some(ReasonRequired)
        else None
    case Remove(id, roleAllows, inScope) => if !roleAllows then Some(RoleForbidden) else Found(t, id, inScope)
  }

  // Stores a row and appends an entry.
  function Store(t: Tables, id: Id, c: Closing, entry: Entry): Tables {
    t.(closings := t.closings[id := c], history := t.history + [entry])
  }

  function Updated(c: Closing, op: Op, e: Totals.Expected): Closing
    requires op.Update?
  {
    c.(amounts := AmountsOf(op.cash, op.card, e), note := TrimmedOr(op.text, c.note), status := Generated,
       reason := None)
  }

  function Decided(c: Closing, op: Op): Closing
    requires op.Decide? && (op.approve || op.reason.Some?)
  {
    var note := if op.text.Some? && Trim(op.text.value) != "" then Some(Trim(op.text.value)) else c.note;
    if op.approve then c.(status := Approved, reason := None, note := note)
    else c.(status := Rejected, reason := Some(Trim(op.reason.value)), note := note)
  }

  function Created(op: Op, e: Totals.Expected): Closing
    requires op.Create? && op.event.Some?
  {
    Closing(AgentOf(op), op.event.value, op.day, e.org, AmountsOf(op.cash, op.card, e), TrimmedOr(op.text, None), None,
            Generated, false)
  }

  function Apply(t: Tables, orders: seq<Totals.Order>, op: Op): Tables
    requires OpError(t, orders, op).None?
  {
    match op
    case Create(_, _, _, day, _, event, _, _, _, _) =>
      var c := Created(op, Totals.ExpectedFor(orders, AgentOf(op), day, Some({event.value})));
      Store(t, t.nextId, c, EntryOf(t.nextId, c)).(nextId := t.nextId + 1)
    case Update(id, _, _, _, _) =>
      var c := t.closings[id];
      var d := Updated(c, op, Totals.ExpectedFor(orders, c.agent, c.day, Some({c.event})));
      Store(t, id, d, EntryOf(id, d))
    case AddNote(id, _, note) => t.(closings := t.closings[id := t.closings[id].(note := Some(Trim(note)))])
    case Decide(id, _, _, _, _, _) =>
      var d := Decided(t.closings[id], op);
      Store(t, id, d, EntryOf(id, d))
    case Remove(id, _, _) =>
      var c := t.closings[id];
      Store(t, id, c.(deleted := true), EntryOf(id, c).(reason := Some("Deleted")))
  }

  function Step(t: Tables, orders: seq<Totals.Order>, op: Op): Tables {
    if OpError(t, orders, op).None? then Apply(t, orders, op) else t
  }

  // ----- what each call leaves, over the fields of the rows

  predicate Blank(text: Option<string>) {
    text.None? || Trim(text.value) == ""
  }

  // What the agent sold for the event on the day.
  function Sales(orders: seq<Totals.Order>, agent: Id, event: Id, day: int): Totals.Expected {
    Totals.ExpectedFor(orders, agent, day, Some({event}))
  }

  predicate SoldSome(orders: seq<Totals.Order>, agent: Id, event: Id, day: int) {
    exists o :: o in orders && Totals.OnDay(o, agent, day, Some({event}))
  }

  // The caller's cash and card as received, the day's as sold, and what is left between them.
  predicate Reckons(a: Amounts, cash: int, card: int, e: Totals.Expected) {
    && a.receivedCash == cash && a.receivedCard == card && a.saleCash == e.cash && a.saleCard == e.card
    && a.balanceCash == cash - e.cash && a.balanceCard == card - e.card && a.qty == e.qty
  }

  // One row written and one entry appended, with the row's amounts and note.
  predicate Recorded(t: Tables, u: Tables, id: Id, status: Status, reason: Option<string>) {
    && id in u.closings && u.closings == t.closings[id := u.closings[id]] && |u.history| == |t.history| + 1
    && t.history <= u.history
    && var entry := u.history[|t.history|];
      && entry.closing == id && entry.status == status && entry.reason == reason
      && entry.amounts == u.closings[id].amounts && entry.note == u.closings[id].note
  }

  lemma SoldSomeIs(orders: seq<Totals.Order>, agent: Id, event: Id, day: int)
    ensures Sales(orders, agent, event, day).orders == 0 <==> !SoldSome(orders, agent, event, day)
  {
    hide Totals.ExpectedFor, Totals.OnDay;
    Totals.NoneOnDay(orders, agent, day, Some({event}));
  }

  // A closing is made for a day not in the future: an agent of the box office closes only its own days, an
  // administrator or finance manager names the agent, anyone else closes own days; it takes an event in scope, no live
  // closing of that agent, event and day, and an order of it.
  lemma CreateLeaves(t: Tables, orders: seq<Totals.Order>, op: Op)
    requires op.Create?
    ensures var agent := if op.role == PosAgent || op.agent.None? then op.caller else op.agent.value;
      OpError(t, orders, op).None? <==>
        && op.day <= op.today && op.event.Some? && op.inScope
        && (op.role == PosAgent || op.role == OtherRole ==> op.agent.None? || op.agent.value == op.caller)
        && (op.role == Admin || op.role == FinanceManager ==> op.agent.Some?)
        && SoldSome(orders, agent, op.event.value, op.day)
        && !exists id :: id in t.closings && !t.closings[id].deleted && t.closings[id].agent == agent
                         && t.closings[id].event == op.event.value && t.closings[id].day == op.day
    ensures var u, id := Step(t, orders, op), t.nextId;
      if OpError(t, orders, op).Some? then u == t
      else
        var agent := if op.role == PosAgent || op.agent.None? then op.caller else op.agent.value;
        var e := Sales(orders, agent, op.event.value, op.day);
        && Recorded(t, u, id, Generated, None) && u.nextId == id + 1
        && var c := u.closings[id];
          && c.agent == agent && c.event == op.event.value && c.day == op.day && c.org == e.org && !c.deleted
          && c.status == Generated && c.reason.None? && Reckons(c.amounts, op.cash, op.card, e)
          && c.note == if Blank(op.text) then None else Some(Trim(op.text.value))
  {
    hide Totals.ExpectedFor, Trim, SoldSome;
    if op.event.Some? {
      SoldSomeIs(orders, AgentOf(op), op.event.value, op.day);
    }
  }

  predicate Reachable(t: Tables, id: Id, inScope: bool) {
    id in t.closings && !t.closings[id].deleted && inScope
  }

  // Correcting a closing that is not approved reckons it anew from the day's orders and opens it again.
  lemma UpdateLeaves(t: Tables, orders: seq<Totals.Order>, op: Op)
    requires op.Update?
    ensures OpError(t, orders, op).None? <==>
      && Reachable(t, op.id, op.inScope) && t.closings[op.id].status != Approved
      && SoldSome(orders, t.closings[op.id].agent, t.closings[op.id].event, t.closings[op.id].day)
    ensures var u := Step(t, orders, op);
      if OpError(t, orders, op).Some? then u == t
      else
        && Recorded(t, u, op.id, Generated, None) && u.nextId == t.nextId
        && var c, d := t.closings[op.id], u.closings[op.id];
          && Reckons(d.amounts, op.cash, op.card, Sales(orders, c.agent, c.event, c.day))
          && d.status == Generated && d.reason.None?
          && d.note == (if op.text.None? then c.note else if Blank(op.text) then None else Some(Trim(op.text.value)))
          && d.agent == c.agent && d.event == c.event && d.day == c.day && d.org == c.org && !d.deleted
  {
    hide Totals.ExpectedFor, Trim, SoldSome;
    if Live(t, op.id) {
      var c := t.closings[op.id];
      SoldSomeIs(orders, c.agent, c.event, c.day);
    }
  }

  // A note goes on a closing that is not approved and has none.
  lemma NoteLeaves(t: Tables, orders: seq<Totals.Order>, op: Op)
    requires op.AddNote?
    ensures OpError(t, orders, op).None? <==>
      && Reachable(t, op.id, op.inScope) && t.closings[op.id].status != Approved
      && (t.closings[op.id].note.None? || t.closings[op.id].note.value == "")
    ensures var u := Step(t, orders, op);
      if OpError(t, orders, op).Some? then u == t
      else
        && op.id in u.closings && u.closings[op.id] == t.closings[op.id].(note := Some(Trim(op.note)))
        && u == t.(closings := t.closings[op.id := u.closings[op.id]])
  {
    hide Totals.ExpectedFor, Trim;
  }

  // A decision is for those permitted, on a closing not approved yet: approving an imbalance takes a note, now or
  // before, and rejecting takes a reason. The closing is then approved or rejected as asked.
  lemma DecideLeaves(t: Tables, orders: seq<Totals.Order>, op: Op)
    requires op.Decide?
    ensures OpError(t, orders, op).None? <==>
      && op.permitted && Reachable(t, op.id, op.inScope) && t.closings[op.id].status != Approved
      && var c := t.closings[op.id];
        if op.approve then
          || (c.amounts.balanceCash == 0 && c.amounts.balanceCard == 0)
          || !Blank(if op.text.Some? then op.text else c.note)
        else !Blank(op.reason)
    ensures var u := Step(t, orders, op);
      if OpError(t, orders, op).Some? then u == t
      else
        var status, reason := if op.approve then Approved else Rejected,
                              if op.approve then None else Some(Trim(op.reason.value));
        && Recorded(t, u, op.id, status, reason) && u.nextId == t.nextId
        && var c, d := t.closings[op.id], u.closings[op.id];
          && d.status == status && d.reason == reason
          && d.note == (if Blank(op.text) then c.note else Some(Trim(op.text.value)))
          && d.agent == c.agent && d.event == c.event && d.day == c.day && d.org == c.org && !d.deleted
          && d.amounts == c.amounts
  {
    hide Totals.ExpectedFor;
    assert Trim("") == "";
    hide Trim;
  }

  // Those whose role allows it delete any closing, approved or not: it is marked, and the entry says so.
  lemma RemoveLeaves(t: Tables, orders: seq<Totals.Order>, op: Op)
    requires op.Remove?
    ensures OpError(t, orders, op).None? <==> op.roleAllows && Reachable(t, op.id, op.inScope)
    ensures var u := Step(t, orders, op);
      if OpError(t, orders, op).Some? then u == t
      else
        && Recorded(t, u, op.id, t.closings[op.id].status, Some("Deleted")) && u.nextId == t.nextId
        && u.closings[op.id] == t.closings[op.id].(deleted := true)
  {
    hide Totals.ExpectedFor, Trim;
  }

  // A call comes with the orders as they then are.
  datatype Call = Call(orders: seq<Totals.Order>, op: Op)

  function Run(t: Tables, calls: seq<Call>): Tables
    decreases |calls|
  {
    if calls == [] then t else Run(Step(t, calls[0].orders, calls[0].op), calls[1..])
  }

  // ----- what every step keeps

  predicate Balanced(a: Amounts) {
    a.balanceCash == a.receivedCash - a.saleCash && a.balanceCard == a.receivedCard - a.saleCard
  }

  predicate NonBlank(text: Option<string>) {
    text.Some? && Trim(text.value) != ""
  }

  predicate GoodClosing(c: Closing) {
    && Balanced(c.amounts)
    && (c.status == Approved && Discrepant(c) ==> NonBlank(c.note))
    && (c.status == Rejected ==> NonBlank(c.reason))
  }

  function Latest(history: seq<Entry>, id: Id): Option<Entry> {
    if history == [] then None
    else if history[|history| - 1].closing == id then Some(history[|history| - 1])
    else Latest(history[..|history| - 1], id)
  }

  // The latest entry of a closing has its status, amounts and quantity.
  predicate Logged(history: seq<Entry>, id: Id, c: Closing) {
    var latest := Latest(history, id);
    latest.Some? && latest.value.status == c.status && latest.value.amounts == c.amounts
  }

  ghost predicate OneLive(t: Tables) {
    forall a, b | Live(t, a) && Live(t, b) && t.closings[a].agent == t.closings[b].agent
                  && t.closings[a].event == t.closings[b].event && t.closings[a].day == t.closings[b].day :: a == b
  }

  ghost predicate Good(t: Tables) {
    && (forall id | id in t.closings :: id < t.nextId)
    && (forall id | id in t.closings :: GoodClosing(t.closings[id]))
    && (forall id | id in t.closings :: Logged(t.history, id, t.closings[id]))
    && OneLive(t)
  }

  lemma LatestSnoc(history: seq<Entry>, entry: Entry, id: Id)
    ensures Latest(history + [entry], id) == if entry.closing == id then Some(entry) else Latest(history, id)
  {
    assert (history + [entry])[..|history|] == history;
  }

  lemma StoreGood(t: Tables, id: Id, c: Closing, entry: Entry)
    requires Good(t) && GoodClosing(c) && entry.closing == id && entry.status == c.status && entry.amounts == c.amounts
    requires id in t.closings
    requires c.deleted || Live(t, id)
    requires c.agent == t.closings[id].agent && c.event == t.closings[id].event && c.day == t.closings[id].day
    ensures Good(Store(t, id, c, entry))
  {
    hide Latest, GoodClosing;
    forall other | other in t.closings[id := c] { LatestSnoc(t.history, entry, other); }
  }

  lemma DecidedGood(c: Closing, op: Op)
    requires op.Decide? && GoodClosing(c)
    requires var given := if op.text.Some? then op.text.value else if c.note.Some? then c.note.value else "";
      op.approve && Discrepant(c) ==> Trim(given) != ""
    requires !op.approve ==> op.reason.Some? && Trim(op.reason.value) != ""
    ensures GoodClosing(Decided(c, op))
  {
    if op.text.Some? {
      TrimIdempotent(op.text.value);
    }
    if op.reason.Some? {
      TrimIdempotent(op.reason.value);
    }
  }

  lemma CreatedGood(op: Op, e: Totals.Expected)
    requires op.Create? && op.event.Some?
    ensures GoodClosing(Created(op, e))
  {
    hide Trim;
  }

  lemma StoreNewGood(t: Tables, c: Closing, entry: Entry)
    requires Good(t) && GoodClosing(c) && !c.deleted && !Closed(t, c.agent, c.event, c.day)
    requires entry.closing == t.nextId && entry.status == c.status && entry.amounts == c.amounts
    ensures Good(Store(t, t.nextId, c, entry).(nextId := t.nextId + 1))
  {
    hide Latest, GoodClosing;
    var u := Store(t, t.nextId, c, entry);
    forall id | id in u.closings { LatestSnoc(t.history, entry, id); }
    forall id | Live(u, id) ensures id == t.nextId || Live(t, id) { }
  }

  lemma CreateGood(t: Tables, orders: seq<Totals.Order>, op: Op)
    requires Good(t) && op.Create? && OpError(t, orders, op).None?
    ensures Good(Apply(t, orders, op))
  {
    hide Good, Totals.ExpectedFor, GoodClosing;
    var e := Totals.ExpectedFor(orders, AgentOf(op), op.day, Some({op.event.value}));
    CreatedGood(op, e);
    StoreNewGood(t, Created(op, e), EntryOf(t.nextId, Created(op, e)));
  }

  lemma StepKeepsGood(t: Tables, orders: seq<Totals.Order>, op: Op)
    requires Good(t)
    ensures Good(Step(t, orders, op))
  {
    hide Latest, Totals.ExpectedFor, Trim, GoodClosing;
    if OpError(t, orders, op).None? {
      match op
      case Create(_, _, _, _, _, _, _, _, _, _) => CreateGood(t, orders, op);
      case Update(id, _, _, _, _) =>
        var c := t.closings[id];
        var d := Updated(c, op, Totals.ExpectedFor(orders, c.agent, c.day, Some({c.event})));
        UpdatedGood(c, op, Totals.ExpectedFor(orders, c.agent, c.day, Some({c.event})));
        StoreGood(t, id, d, EntryOf(id, d));
      case AddNote(id, _, note) => NotedGood(t, id, note);
      case Decide(id, _, _, _, _, _) =>
        var d := Decided(t.closings[id], op);
        DecidedGood(t.closings[id], op);
        StoreGood(t, id, d, EntryOf(id, d));
      case Remove(id, _, _) =>
        var c := t.closings[id];
        DeletedGood(c);
        StoreGood(t, id, c.(deleted := true), EntryOf(id, c).(reason := Some("Deleted")));
    }
  }

  lemma UpdatedGood(c: Closing, op: Op, e: Totals.Expected)
    requires op.Update?
    ensures GoodClosing(Updated(c, op, e))
  {
  }

  lemma DeletedGood(c: Closing)
    requires GoodClosing(c)
    ensures GoodClosing(c.(deleted := true))
  {
  }

  lemma NotedGood(t: Tables, id: Id, note: string)
    requires Good(t) && Live(t, id) && t.closings[id].status != Approved
    ensures Good(t.(closings := t.closings[id := t.closings[id].(note := Some(Trim(note)))]))
  {
    hide Latest, Trim;
  }

  // Calls keep, from any good state: balances are received minus expected, an approved discrepancy carries a note,
  // a rejection carries a reason, the history's latest entry agrees, and an agent has one live closing per event and
  // day.
  lemma {:induction false} RunKeepsGood(t: Tables, calls: seq<Call>)
    requires Good(t)
    ensures Good(Run(t, calls))
    decreases |calls|
  {
    if calls != [] {
      StepKeepsGood(t, calls[0].orders, calls[0].op);
      RunKeepsGood(Step(t, calls[0].orders, calls[0].op), calls[1..]);
    }
  }

  function Start(): Tables {
    Tables(map[], [], 0)
  }

  lemma StartGood()
    ensures Good(Start())
  {
  }

  // So it holds after any calls, from the first closing on.
  lemma ReachedGood(calls: seq<Call>)
    ensures Good(Run(Start(), calls))
  {
    StartGood();
    RunKeepsGood(Start(), calls);
  }

  // An agent that sold something can close the day at what it sold, and the closing can be approved.
  lemma ApprovalReached(orders: seq<Totals.Order>, agent: Id, event: Id, day: int)
    requires SoldSome(orders, agent, event, day)
    ensures var e := Sales(orders, agent, event, day);
      var create := Create(PosAgent, agent, None, day, day, Some(event), true, e.cash, e.card, None);
      var u := Run(Start(), [Call(orders, create), Call(orders, Decide(0, true, true, true, None, None))]);
      && 0 in u.closings && u.closings[0].status == Approved && u.closings[0].agent == agent
      && AnyToSettle(u.closings, day, None) && AllApproved(u.closings, day, None)
  {
    hide Totals.ExpectedFor, SoldSome, OpError, Step;
    var e := Sales(orders, agent, event, day);
    var create := Create(PosAgent, agent, None, day, day, Some(event), true, e.cash, e.card, None);
    var decide := Decide(0, true, true, true, None, None);
    CreateLeaves(Start(), orders, create);
    var t := Step(Start(), orders, create);
    DecideLeaves(t, orders, decide);
    var calls := [Call(orders, create), Call(orders, decide)];
    assert Run(Start(), calls) == Run(t, calls[1..]);
    assert calls[1..] == [calls[1]] && calls[1..][1..] == [];
    assert Run(t, calls[1..]) == Run(Step(t, orders, decide), []);
  }

  // ----- approval is final, and the history only grows

  predicate SameButDeleted(c: Closing, d: Closing) {
    d == c.(deleted := d.deleted) && (c.deleted ==> d.deleted)
  }

  lemma StepFreezes(t: Tables, orders: seq<Totals.Order>, op: Op)
    requires Good(t)
    ensures var u := Step(t, orders, op);
      && t.history <= u.history
      && (forall id | id in t.closings :: id in u.closings)
      && (forall id | id in t.closings && (t.closings[id].status == Approved || t.closings[id].deleted) ::
            SameButDeleted(t.closings[id], u.closings[id]))
  {
    hide Latest, Totals.ExpectedFor, Trim, GoodClosing;
  }

  // Whatever follows, an approved closing keeps its amounts, status, note and reason, and so does a deleted one.
  lemma {:induction false} ApprovedIsFinal(t: Tables, calls: seq<Call>, id: Id)
    requires Good(t) && id in t.closings && (t.closings[id].status == Approved || t.closings[id].deleted)
    ensures id in Run(t, calls).closings && SameButDeleted(t.closings[id], Run(t, calls).closings[id])
    ensures t.history <= Run(t, calls).history
    decreases |calls|
  {
    hide Step, Good;
    if calls != [] {
      StepFreezes(t, calls[0].orders, calls[0].op);
      StepKeepsGood(t, calls[0].orders, calls[0].op);
      ApprovedIsFinal(Step(t, calls[0].orders, calls[0].op), calls[1..], id);
    }
  }

  // ----- settlements

  datatype Settlement = Settlement(org: Option<Id>, received: Pair, booking: Pair, discrepancy: Pair)

  datatype Pair = Pair(cash: int, card: int)

  ghost function Rows(closings: map<Id, Closing>, ids: seq<Id>): seq<Closing>
    requires forall id | id in ids :: id in closings
  {
    seq(|ids|, i requires 0 <= i < |ids| => closings[ids[i]])
  }

  predicate ToSettle(c: Closing, day: int, agents: Option<set<Id>>) {
    !c.deleted && c.day == day && (agents.Some? ==> c.agent in agents.value)
  }

  // The closings of the day in scope, each once.
  ghost predicate Lists(closings: map<Id, Closing>, ids: seq<Id>, day: int, agents: Option<set<Id>>) {
    && (forall i, j | 0 <= i < j < |ids| :: ids[i] != ids[j])
    && (forall id | id in ids :: id in closings && ToSettle(closings[id], day, agents))
    && (forall id | id in closings && ToSettle(closings[id], day, agents) :: id in ids)
  }

  // The sums over the closings, and the organization of the first.
  ghost predicate Settles(s: Settlement, cs: seq<Closing>) {
    && cs != [] && s.org == cs[0].org
    && s.received.cash == SumOver(cs, (c: Closing) => c.amounts.receivedCash)
    && s.received.card == SumOver(cs, (c: Closing) => c.amounts.receivedCard)
    && s.booking.cash == SumOver(cs, (c: Closing) => c.amounts.saleCash)
    && s.booking.card == SumOver(cs, (c: Closing) => c.amounts.saleCard)
    && s.discrepancy.cash == SumOver(cs, (c: Closing) => c.amounts.balanceCash)
    && s.discrepancy.card == SumOver(cs, (c: Closing) => c.amounts.balanceCard)
  }

  lemma {:induction false} SumDifference(cs: seq<Closing>, a: Closing -> int, b: Closing -> int, d: Closing -> int)
    requires forall c | c in cs :: d(c) == a(c) - b(c)
    ensures SumOver(cs, d) == SumOver(cs, a) - SumOver(cs, b)
  {
    if cs != [] {
      SumDifference(cs[..|cs| - 1], a, b, d);
    }
  }

  // A settlement's discrepancy is what was received minus what was booked.
  lemma DiscrepancyIsDifference(s: Settlement, cs: seq<Closing>)
    requires Settles(s, cs) && forall c | c in cs :: Balanced(c.amounts)
    ensures s.discrepancy == Pair(s.received.cash - s.booking.cash, s.received.card - s.booking.card)
  {
    hide SumOver;
    SumDifference(cs, (c: Closing) => c.amounts.receivedCash, (c: Closing) => c.amounts.saleCash,
                  (c: Closing) => c.amounts.balanceCash);
    SumDifference(cs, (c: Closing) => c.amounts.receivedCard, (c: Closing) => c.amounts.saleCard,
                  (c: Closing) => c.amounts.balanceCard);
  }

  // The day has a closing in scope that is not deleted, and all of these are approved.
  predicate AnyToSettle(closings: map<Id, Closing>, day: int, agents: Option<set<Id>>) {
    exists id :: id in closings && !closings[id].deleted && closings[id].day == day
                 && (agents == None || closings[id].agent in agents.value)
  }

  predicate AllApproved(closings: map<Id, Closing>, day: int, agents: Option<set<Id>>) {
    forall id | id in closings && !closings[id].deleted && closings[id].day == day
                && (agents == None || closings[id].agent in agents.value) :: closings[id].status == Approved
  }

  lemma Listed(closings: map<Id, Closing>, ids: seq<Id>, day: int, agents: Option<set<Id>>)
    requires Lists(closings, ids, day, agents)
    ensures forall id | id in ids :: id in closings
    ensures AnyToSettle(closings, day, agents) <==> ids != []
    ensures AllApproved(closings, day, agents) <==> forall id | id in ids :: closings[id].status == Approved
  {
    if ids != [] {
      assert ids[0] in ids;
    }
  }

  // ----- the services

  class Service {
    var orders: seq<Totals.Order>
    var closings: map<Id, Closing>
    var history: seq<Entry>
    var settlements: map<int, Settlement>
    var nextId: Id

    constructor (orders: seq<Totals.Order>)
      ensures Now() == Start() && settlements == map[] && this.orders == orders
    {
      this.orders := orders;
      closings, history, settlements, nextId := map[], [], map[], 0;
    }

    ghost function Now(): Tables
      reads this
    {
      Tables(closings, history, nextId)
    }

    method WriteHistory(id: Id, status: Status)
      requires id in closings
      modifies `history
      ensures history == old(history) + [EntryOf(id, closings[id]).(status := status)]
    {
      var c := closings[id];
      history := history + [Entry(id, status, c.amounts, c.note, c.reason)];
    }

    method RequireClosing(id: Id, inScope: bool) returns (error: Option<Error>)
      ensures error == Found(Now(), id, inScope)
    {
      if id !in closings || closings[id].deleted {
        return Some(NotFound);
      }
      error := if inScope then None else Some(OutOfScope);
    }

    method CreateClosing(op: Op) returns (error: Option<Error>)
      requires op.Create?
      modifies `closings, `history, `nextId
      ensures error == OpError(old(Now()), orders, op) && Now() == Step(old(Now()), orders, op)
    {
      hide Totals.ExpectedFor, Trim;
      if op.day > op.today {
        return Some(FutureDate);
      }
      if op.role == PosAgent && op.agent.Some? && op.agent.value != op.caller {
        return Some(NotOwnClosing);
      }
      if (op.role == Admin || op.role == FinanceManager) && op.agent.None? {
        return Some(AgentRequired);
      }
      var agent := if op.role == PosAgent || op.agent.None? then op.caller else op.agent.value;
      if op.role == OtherRole && agent != op.caller {
        return Some(RoleForbidden);
      }
      if op.event.None? {
        return Some(EventUnresolved);
      }
      var event := op.event.value;
      if !op.inScope {
        return Some(OutOfScope);
      }
      if exists id :: id in closings && !closings[id].deleted && closings[id].agent == agent
                      && closings[id].event == event && closings[id].day == op.day {
        assert Closed(Now(), agent, event, op.day);
        return Some(AlreadyClosed);
      }
      assert !Closed(Now(), agent, event, op.day);
      var expected := Totals.ExpectedForAgentDate(orders, agent, op.day, Some({event}));
      if expected.orders <= 0 {
        return Some(NoBookings);
      }
      var id := nextId;
      var amounts := Amounts(op.cash, op.card, expected.cash, expected.card, op.cash - expected.cash,
                             op.card - expected.card, expected.qty);
      var note := if op.text.Some? && Trim(op.text.value) != "" then Some(Trim(op.text.value)) else None;
      closings := closings[id := Closing(agent, event, op.day, expected.org, amounts, note, None, Generated, false)];
      nextId := nextId + 1;
      WriteHistory(id, Generated);
      error := None;
    }

    method UpdateClosing(op: Op) returns (error: Option<Error>)
      requires op.Update?
      modifies `closings, `history
      ensures error == OpError(old(Now()), orders, op) && Now() == Step(old(Now()), orders, op)
    {
      hide Totals.ExpectedFor, Trim;
      var missing := RequireClosing(op.id, op.inScope);
      if missing.Some? {
        return missing;
      }
      var closing := closings[op.id];
      if closing.status == Approved {
        return Some(ApprovedAlready);
      }
      var expected := Totals.ExpectedForAgentDate(orders, closing.agent, closing.day, Some({closing.event}));
      if expected.orders <= 0 {
        return Some(NoBookings);
      }
      var amounts := Amounts(op.cash, op.card, expected.cash, expected.card, op.cash - expected.cash,
                             op.card - expected.card, expected.qty);
      var note := if op.text.None? then closing.note
                  else if Trim(op.text.value) != "" then Some(Trim(op.text.value)) else None;
      closings := closings[op.id := closing.(amounts := amounts, note := note, status := Generated, reason := None)];
      WriteHistory(op.id, Generated);
      error := None;
    }

    method AddClosingNote(op: Op) returns (error: Option<Error>)
      requires op.AddNote?
      modifies `closings
      ensures error == OpError(old(Now()), orders, op) && Now() == Step(old(Now()), orders, op)
    {
      hide Totals.ExpectedFor, Trim;
      var missing := RequireClosing(op.id, op.inScope);
      if missing.Some? {
        return missing;
      }
      var closing := closings[op.id];
      if closing.status == Approved {
        return Some(ApprovedAlready);
      }
      if closing.note.Some? && closing.note.value != "" {
        return Some(HasNote);
      }
      closings := closings[op.id := closing.(note := Some(Trim(op.note)))];
      error := None;
    }

    method Approve(op: Op) returns (error: Option<Error>)
      requires op.Decide?
      modifies `closings, `history
      ensures error == OpError(old(Now()), orders, op) && Now() == Step(old(Now()), orders, op)
    {
      hide Totals.ExpectedFor, Trim;
      if !op.permitted {
        return Some(NoPermission);
      }
      var missing := RequireClosing(op.id, op.inScope);
      if missing.Some? {
        return missing;
      }
      var closing := closings[op.id];
      if closing.status == Approved {
        return Some(ApprovedAlready);
      }
      if op.approve && (closing.amounts.balanceCash != 0 || closing.amounts.balanceCard != 0) {
        var note := if op.text.Some? then op.text.value else if closing.note.Some? then closing.note.value else "";
        if Trim(note) == "" {
          return Some(NoteRequired);
        }
      }
      if !op.approve && (op.reason.None? || Trim(op.reason.value) == "") {
        return Some(ReasonRequired);
      }
      var status := if op.approve then Approved else Rejected;
      var reason := if op.approve then None else Some(Trim(op.reason.value));
      var note := if op.text.Some? && Trim(op.text.value) != "" then Some(Trim(op.text.value)) else closing.note;
      closings := closings[op.id := closing.(status := status, reason := reason, note := note)];
      WriteHistory(op.id, status);
      error := None;
    }

    method RemoveClosing(op: Op) returns (error: Option<Error>)
      requires op.Remove?
      modifies `closings, `history
      ensures error == OpError(old(Now()), orders, op) && Now() == Step(old(Now()), orders, op)
    {
      hide Totals.ExpectedFor, Trim;
      if !op.roleAllows {
        return Some(RoleForbidden);
      }
      var missing := RequireClosing(op.id, op.inScope);
      if missing.Some? {
        return missing;
      }
      var closing := closings[op.id];
      closings := closings[op.id := closing.(deleted := true)];
      history := history + [Entry(op.id, closing.status, closing.amounts, closing.note, Some("Deleted"))];
      error := None;
    }

    // The rows a query returns, in some order.
    method FindClosings(day: int, agents: Option<set<Id>>) returns (ids: seq<Id>)
      ensures Lists(closings, ids, day, agents)
    {
      var left := set id |
        && id in closings && !closings[id].deleted && closings[id].day == day
        && (agents.None? || closings[id].agent in agents.value);
      ids := [];
      while left != {}
        invariant forall i, j | 0 <= i < j < |ids| :: ids[i] != ids[j]
        invariant forall id | id in ids :: id !in left && id in closings && ToSettle(closings[id], day, agents)
        invariant forall id | id in left :: id in closings && ToSettle(closings[id], day, agents)
        invariant forall id | id in closings && ToSettle(closings[id], day, agents) :: id in ids || id in left
        decreases left
      {
        var id :| id in left;
        ids := ids + [id];
        left := left - {id};
      }
    }

    method SumClosings(ids: seq<Id>) returns (s: Settlement)
      requires ids != [] && forall id | id in ids :: id in closings
      ensures Settles(s, Rows(closings, ids))
    {
      var received, booking, discrepancy := Pair(0, 0), Pair(0, 0), Pair(0, 0);
      ghost var cs := Rows(closings, ids);
      for i := 0 to |ids|
        invariant received.cash == SumOver(cs[..i], (c: Closing) => c.amounts.receivedCash)
        invariant received.card == SumOver(cs[..i], (c: Closing) => c.amounts.receivedCard)
        invariant booking.cash == SumOver(cs[..i], (c: Closing) => c.amounts.saleCash)
        invariant booking.card == SumOver(cs[..i], (c: Closing) => c.amounts.saleCard)
        invariant discrepancy.cash == SumOver(cs[..i], (c: Closing) => c.amounts.balanceCash)
        invariant discrepancy.card == SumOver(cs[..i], (c: Closing) => c.amounts.balanceCard)
      {
        assert cs[..i + 1][..i] == cs[..i] && ids[i] in ids;
        var a := closings[ids[i]].amounts;
        received := Pair(received.cash + a.receivedCash, received.card + a.receivedCard);
        booking := Pair(booking.cash + a.saleCash, booking.card + a.saleCard);
        discrepancy := Pair(discrepancy.cash + a.balanceCash, discrepancy.card + a.balanceCard);
      }
      assert cs[..|ids|] == cs && ids[0] in ids;
      s := Settlement(closings[ids[0]].org, received, booking, discrepancy);
    }

    // At creation a settlement sums the closings in scope, all approved, and its discrepancy is received minus booked;
    // there is at most one for a day.
    method CreateSettlement(permitted: bool, day: int, today: int, agents: Option<set<Id>>)
      returns (error: Option<Error>)
      modifies `settlements
      ensures error.None? <==>
        && permitted && day <= today && day !in old(settlements)
        && AnyToSettle(closings, day, agents) && AllApproved(closings, day, agents)
      ensures error.Some? ==> settlements == old(settlements)
      ensures error.None? ==> day in settlements && settlements == old(settlements)[day := settlements[day]]
      ensures error.None? ==> exists ids ::
        Lists(closings, ids, day, agents) && Settles(settlements[day], Rows(closings, ids))
      ensures error.None? && (forall id | id in closings :: Balanced(closings[id].amounts)) ==>
        var s := settlements[day];
        s.discrepancy == Pair(s.received.cash - s.booking.cash, s.received.card - s.booking.card)
    {
      if !permitted {
        return Some(NoPermission);
      }
      if day > today {
        return Some(FutureDate);
      }
      var ids := FindClosings(day, agents);
      hide Lists, Settles, Balanced, Rows, AnyToSettle, AllApproved;
      Listed(closings, ids, day, agents);
      if |ids| == 0 {
        return Some(NothingToSettle);
      }
      if exists id :: id in ids && closings[id].status != Approved {
        return Some(NotAllApproved);
      }
      if day in settlements {
        return Some(AlreadySettled);
      }
      var settlement := SumClosings(ids);
      if forall id | id in closings :: Balanced(closings[id].amounts) {
        DiscrepancyIsDifference(settlement, Rows(closings, ids));
      }
      assert Lists(closings, ids, day, agents) && Settles(settlement, Rows(closings, ids));
      settlements := settlements[day := settlement];
      error := None;
    }
  }
}
