/**
 What the rollups of EventRollups mean, stated over the orders alone: every accumulator totals, for any selection of
 keys, what a plain group-by over the paid orders would; order counts count distinct orders; promos are taken once.
 */
module EventRollupTotals {
  import opened Prelude
  import opened RollupRows
  import opened EventRollups
  import opened ReportDays

  // ----- reference totals: a sum over the paid orders, once per report basis

  ghost function OverTargets(o: Order, ts: seq<Target>, f: (Order, Target) -> int): int {
    if ts == [] then 0 else OverTargets(o, ts[..|ts| - 1], f) + f(o, ts[|ts| - 1])
  }

  ghost function OverOrders(table: Table, tz: Zone, orders: seq<Order>, f: (Order, Target) -> int): int {
    if orders == [] then 0
    else
      var o := orders[|orders| - 1];
      OverOrders(table, tz, orders[..|orders| - 1], f)
      + (if o.status.Paid? then OverTargets(o, Occasions(table, tz, o), f) else 0)
  }

  ghost predicate Explains(table: Table, tz: Zone, o: Order, p: seq<string> -> bool, m: Measure,
                           f: (Order, Target) -> int) {
    forall t :: Sum(TargetRows(table, tz, o, t), p, m) == f(o, t)
  }

  lemma {:induction false} TargetsTotal(table: Table, tz: Zone, o: Order, ts: seq<Target>, p: seq<string> -> bool,
                                        m: Measure, f: (Order, Target) -> int)
    requires Explains(table, tz, o, p, m, f)
    ensures Sum(RowsOver(table, tz, o, ts), p, m) == OverTargets(o, ts, f)
  {
    if ts != [] {
      var rest, t := ts[..|ts| - 1], ts[|ts| - 1];
      TargetsTotal(table, tz, o, rest, p, m, f);
      SumSplits(RowsOver(table, tz, o, rest), TargetRows(table, tz, o, t), p, m);
    }
  }

  lemma OrderTotal(table: Table, tz: Zone, o: Order, p: seq<string> -> bool, m: Measure, f: (Order, Target) -> int)
    requires Explains(table, tz, o, p, m, f)
    ensures Sum(OrderRows(table, tz, o), p, m) ==
            if o.status.Paid? then OverTargets(o, Occasions(table, tz, o), f) else 0
  {
    if o.status.Paid? {
      TargetsTotal(table, tz, o, Occasions(table, tz, o), p, m, f);
    }
  }

  lemma {:induction false} OrdersTotal(table: Table, tz: Zone, orders: seq<Order>, p: seq<string> -> bool, m: Measure,
                                       f: (Order, Target) -> int)
    requires forall o | o in orders :: Explains(table, tz, o, p, m, f)
    ensures Sum(AllRows(table, tz, orders), p, m) == OverOrders(table, tz, orders, f)
  {
    if orders != [] {
      var rest, o := orders[..|orders| - 1], orders[|orders| - 1];
      OrdersTotal(table, tz, rest, p, m, f);
      OrderTotal(table, tz, o, p, m, f);
      var restRows, rows := AllRows(table, tz, rest), OrderRows(table, tz, o);
      SumSplits(restRows, rows, p, m);
    }
  }

  // ----- key shapes: ids, enumerations and currencies contain no separator; labels and regions may

  predicate PlainItem(item: Item) {
    Plain(item.itemId) && Plain(item.visitorType) && (item.vendor.Some? ==> Plain(item.vendor.value))
  }

  predicate PlainOrder(o: Order) {
    && Plain(o.eventId) && Plain(o.sessionId) && Plain(o.paymentMode) && Plain(o.currency) && Plain(o.ageGroup)
    && (o.agent.Some? ==> Plain(o.agent.value))
    && forall item | item in o.items :: PlainItem(item)
  }

  function Arity(table: Table): nat {
    match table
    case Demo | Pos => 6
    case Counters => 3
    case _ => 5
  }

  // The position of the one component that may contain a separator, if any.
  function Free(table: Table): nat {
    if table.Demo? then 4 else if table.Pay? then 3 else 0
  }

  lemma {:induction false} FacetRowsShaped(facet: Facet, tz: Zone, o: Order, t: Target, n: nat)
    requires PlainDays(tz) && PlainOrder(o) && Plain(t.basis) && n <= |o.items|
    ensures AllShaped(FacetRows(facet, tz, o, t, n), 5, 0)
  {
    if n > 0 {
      FacetRowsShaped(facet, tz, o, t, n - 1);
      assert PlainItem(o.items[n - 1]);
    }
  }

  lemma {:induction false} FirstVendorOccurs(items: seq<Item>, n: nat)
    requires n <= |items|
    ensures FirstVendor(items, n).Some? ==> exists i :: 0 <= i < n && items[i].vendor == FirstVendor(items, n)
  {
    if n > 0 {
      FirstVendorOccurs(items, n - 1);
    }
  }

  lemma PromoRowsShaped(tz: Zone, o: Order, t: Target)
    requires PlainDays(tz) && PlainOrder(o) && Plain(t.basis)
    ensures AllShaped(PromoRows(tz, o, t), 5, 0)
  {
    hide Promo;
    FirstVendorOccurs(o.items, |o.items|);
    if FirstVendor(o.items, |o.items|).Some? {
      var i :| 0 <= i < |o.items| && o.items[i].vendor == FirstVendor(o.items, |o.items|);
      assert PlainItem(o.items[i]);
    }
  }

  lemma TargetRowsShaped(table: Table, tz: Zone, o: Order, t: Target)
    requires PlainDays(tz) && PlainOrder(o) && Plain(t.basis)
    ensures AllShaped(TargetRows(table, tz, o, t), Arity(table), Free(table))
  {
    if table.Lines? {
      hide FacetRows, PromoRows, Shaped;
      FacetRowsShaped(table.facet, tz, o, t, |o.items|);
      PromoRowsShaped(tz, o, t);
    } else {
      OtherRowsShaped(table, tz, o, t);
    }
  }

  lemma OtherRowsShaped(table: Table, tz: Zone, o: Order, t: Target)
    requires PlainDays(tz) && PlainOrder(o) && Plain(t.basis) && !table.Lines?
    ensures AllShaped(TargetRows(table, tz, o, t), Arity(table), Free(table))
  {
  }

  lemma {:induction false} RowsOverShaped(table: Table, tz: Zone, o: Order, ts: seq<Target>)
    requires PlainDays(tz) && PlainOrder(o) && forall t | t in ts :: Plain(t.basis)
    ensures AllShaped(RowsOver(table, tz, o, ts), Arity(table), Free(table))
  {
    if ts != [] {
      RowsOverShaped(table, tz, o, ts[..|ts| - 1]);
      TargetRowsShaped(table, tz, o, ts[|ts| - 1]);
    }
  }

  lemma {:induction false} AllRowsShaped(table: Table, tz: Zone, orders: seq<Order>)
    requires PlainDays(tz) && forall o | o in orders :: PlainOrder(o)
    ensures AllShaped(AllRows(table, tz, orders), Arity(table), Free(table))
  {
    if orders != [] {
      AllRowsShaped(table, tz, orders[..|orders| - 1]);
      var o := orders[|orders| - 1];
      RowsOverShaped(table, tz, o, Occasions(table, tz, o));
    }
  }

  // Whatever rows are selected, the accumulator totals what the orders explain.
  lemma RolledTotal(table: Table, tz: Zone, orders: seq<Order>, p: seq<string> -> bool, m: Measure,
                    f: (Order, Target) -> int)
    requires PlainDays(tz) && forall o | o in orders :: PlainOrder(o) && Explains(table, tz, o, p, m, f)
    ensures Sum(Rolled(table, tz, orders), p, m) == OverOrders(table, tz, orders, f)
  {
    AllRowsShaped(table, tz, orders);
    GroupBySum(AllRows(table, tz, orders), Arity(table), Free(table), p, m);
    OrdersTotal(table, tz, orders, p, m, f);
  }

  // Each accumulator has exactly one row per key that occurs, holding the total of that key's entries.
  lemma RolledIsGroupBy(table: Table, tz: Zone, orders: seq<Order>)
    requires PlainDays(tz) && forall o | o in orders :: PlainOrder(o)
    ensures Distinct(Rolled(table, tz, orders))
    ensures forall d :: HasDims(Rolled(table, tz, orders), d) <==> HasDims(AllRows(table, tz, orders), d)
    ensures forall r | r in Rolled(table, tz, orders) ::
      && (forall m :: At(r.amounts, m) == Sum(AllRows(table, tz, orders), Exactly(r.dims), m))
      && r.caption == LastCaption(AllRows(table, tz, orders), r.dims)
  {
    AllRowsShaped(table, tz, orders);
    GroupBy(AllRows(table, tz, orders), Arity(table), Free(table));
    forall r, m | r in Rolled(table, tz, orders)
      ensures At(r.amounts, m) == Sum(AllRows(table, tz, orders), Exactly(r.dims), m)
    {
      RowIsGroupTotal(AllRows(table, tz, orders), Arity(table), Free(table), r, m);
    }
  }

  // ----- what an order brings to the tables that have one row of it, over its fields alone

  function DailyValue(o: Order, m: Measure): int {
    match m
    case OrderCount => 1
    case Admits => o.admits
    case Qty => o.quantity
    case Revenue => o.total
    case TicketsNet => if o.legacy then Max(0, o.ticketsNet) else Max(0, o.ticketsNet - o.discount)
    case AddonsNet => o.addonsNet
    case _ => 0
  }

  function HeadcountValue(o: Order, m: Measure): int {
    match m
    case OrderCount => 1
    case Admits => o.admits
    case Revenue => o.total
    case _ => 0
  }

  function PosValue(o: Order, m: Measure): int {
    match m
    case Cash => o.cash
    case Card => o.card
    case _ => HeadcountValue(o, m)
  }

  function CounterValue(o: Order, m: Measure): int {
    match m
    case OrderCount => 1
    case Qty => o.admits
    case Revenue => o.total
    case _ => 0
  }

  ghost function ValueAt(p: seq<string> -> bool, key: seq<string>, value: int): int {
    if p(key) then value else 0
  }

  ghost function Brought(table: Table, tz: Zone, p: seq<string> -> bool, m: Measure): (Order, Target) -> int
    requires !table.Lines?
  {
    (o: Order, t: Target) =>
      var event, day, basis, currency := o.eventId, DayText(t.day, tz), t.basis, o.currency;
      match table
      case Daily => ValueAt(p, [event, day, basis, o.paymentMode, currency], DailyValue(o, m))
      case Pay => ValueAt(p, [event, day, basis, o.methodLabel, currency], HeadcountValue(o, m))
      case Demo => ValueAt(p, [event, day, basis, o.ageGroup, o.region, currency], HeadcountValue(o, m))
      case Pos =>
        if o.agent.None? then 0
        else ValueAt(p, [event, day, basis, o.agent.value, o.paymentMode, currency], PosValue(o, m))
      case Counters =>
        ValueAt(p, [event, "*", "*"], CounterValue(o, m)) + ValueAt(p, [event, o.sessionId, "*"], CounterValue(o, m))
  }

  lemma BroughtExplains(table: Table, tz: Zone, o: Order, p: seq<string> -> bool, m: Measure)
    requires !table.Lines?
    ensures Explains(table, tz, o, p, m, Brought(table, tz, p, m))
  {
    hide Sum;
    forall t ensures Sum(TargetRows(table, tz, o, t), p, m) == Brought(table, tz, p, m)(o, t) {
      var event, day, basis, currency := o.eventId, DayText(t.day, tz), t.basis, o.currency;
      match table
      case Daily =>
        SumSingle(DailyRow(tz, o, t), p, m);
        assert DailyRow(tz, o, t).dims == [event, day, basis, o.paymentMode, currency];
      case Pay =>
        SumSingle(PayRow(tz, o, t), p, m);
        assert PayRow(tz, o, t).dims == [event, day, basis, o.methodLabel, currency];
      case Demo =>
        SumSingle(DemoRow(tz, o, t), p, m);
        assert DemoRow(tz, o, t).dims == [event, day, basis, o.ageGroup, o.region, currency];
      case Pos =>
        SumNone(p, m);
        if o.agent.Some? {
          SumSingle(PosRow(tz, o, t, o.agent.value), p, m);
          assert PosRow(tz, o, t, o.agent.value).dims == [event, day, basis, o.agent.value, o.paymentMode, currency];
        }
      case Counters => CounterSum(o, p, m);
    }
  }

  // Every selection of keys of such a table totals what the selected paid orders bring, per report basis.
  lemma TotalsOverFields(table: Table, tz: Zone, orders: seq<Order>, p: seq<string> -> bool, m: Measure)
    requires !table.Lines? && PlainDays(tz) && forall o | o in orders :: PlainOrder(o)
    ensures Sum(Rolled(table, tz, orders), p, m) == OverOrders(table, tz, orders, Brought(table, tz, p, m))
  {
    forall o | o in orders ensures Explains(table, tz, o, p, m, Brought(table, tz, p, m)) {
      BroughtExplains(table, tz, o, p, m);
    }
    RolledTotal(table, tz, orders, p, m, Brought(table, tz, p, m));
  }

  // ----- headline revenue

  // Rows selected by event, report day and basis.
  ghost function ByHead(q: (string, string, string) -> bool): seq<string> -> bool {
    d => |d| >= 3 && q(d[0], d[1], d[2])
  }

  ghost function Headline(tz: Zone, q: (string, string, string) -> bool, m: Measure): (Order, Target) -> int {
    (o: Order, t: Target) => if q(o.eventId, DayText(t.day, tz), t.basis) then DailyValue(o, m) else 0
  }

  // The measures that daily, payment and demographic rows share.
  predicate Shared(m: Measure) {
    m.OrderCount? || m.Admits? || m.Revenue?
  }

  lemma HeadRowSum(r: Row, tz: Zone, o: Order, t: Target, q: (string, string, string) -> bool, m: Measure)
    requires |r.dims| >= 3 && r.dims[0] == o.eventId && r.dims[1] == DayText(t.day, tz) && r.dims[2] == t.basis
    ensures Sum([r], ByHead(q), m) == if q(o.eventId, DayText(t.day, tz), t.basis) then At(r.amounts, m) else 0
  {
    SumSingle(r, ByHead(q), m);
  }

  lemma HeadlineExplains(table: Table, tz: Zone, o: Order, q: (string, string, string) -> bool, m: Measure)
    requires table.Daily? || ((table.Pay? || table.Demo?) && Shared(m))
    ensures Explains(table, tz, o, ByHead(q), m, Headline(tz, q, m))
  {
    forall t ensures Sum(TargetRows(table, tz, o, t), ByHead(q), m) == Headline(tz, q, m)(o, t) {
      match table
      case Daily => HeadRowSum(DailyRow(tz, o, t), tz, o, t, q, m);
      case Pay => HeadRowSum(PayRow(tz, o, t), tz, o, t, q, m);
      case Demo => HeadRowSum(DemoRow(tz, o, t), tz, o, t, q, m);
    }
  }

  // Daily, payment and demographic rows agree on orders, admissions and revenue for every selection of events, report
  // days and bases, and the daily total is that of the paid orders.
  lemma HeadlinesAgree(tz: Zone, orders: seq<Order>, q: (string, string, string) -> bool, m: Measure)
    requires PlainDays(tz) && forall o | o in orders :: PlainOrder(o)
    ensures Sum(Rolled(Daily, tz, orders), ByHead(q), m) == OverOrders(Daily, tz, orders, Headline(tz, q, m))
    ensures Shared(m) ==>
      && Sum(Rolled(Pay, tz, orders), ByHead(q), m) == Sum(Rolled(Daily, tz, orders), ByHead(q), m)
      && Sum(Rolled(Demo, tz, orders), ByHead(q), m) == Sum(Rolled(Daily, tz, orders), ByHead(q), m)
  {
    var f := Headline(tz, q, m);
    forall o | o in orders ensures Explains(Daily, tz, o, ByHead(q), m, f) {
      HeadlineExplains(Daily, tz, o, q, m);
    }
    RolledTotal(Daily, tz, orders, ByHead(q), m, f);
    if Shared(m) {
      forall o | o in orders ensures Explains(Pay, tz, o, ByHead(q), m, f) && Explains(Demo, tz, o, ByHead(q), m, f) {
        HeadlineExplains(Pay, tz, o, q, m);
        HeadlineExplains(Demo, tz, o, q, m);
      }
      RolledTotal(Pay, tz, orders, ByHead(q), m, f);
      RolledTotal(Demo, tz, orders, ByHead(q), m, f);
      SameOccasions(Pay, tz, orders, f);
      SameOccasions(Demo, tz, orders, f);
    }
  }

  lemma {:induction false} SameOccasions(table: Table, tz: Zone, orders: seq<Order>, f: (Order, Target) -> int)
    requires !table.Counters?
    ensures OverOrders(table, tz, orders, f) == OverOrders(Daily, tz, orders, f)
  {
    if orders != [] {
      SameOccasions(table, tz, orders[..|orders| - 1], f);
    }
  }

  // ----- sales counters

  ghost function EventCounter(e: string): seq<string> -> bool {
    Exactly([e, "*", "*"])
  }

  ghost function SessionCounters(e: string): seq<string> -> bool {
    d => |d| == 3 && d[0] == e && d[1] != "*"
  }

  ghost function Sold(e: string, m: Measure): (Order, Target) -> int {
    (o: Order, t: Target) => if o.eventId == e then CounterValue(o, m) else 0
  }

  lemma CounterSum(o: Order, p: seq<string> -> bool, m: Measure)
    ensures Sum([CounterRow(o, "*"), CounterRow(o, o.sessionId)], p, m) ==
            Counted(CounterRow(o, "*"), p, m) + Counted(CounterRow(o, o.sessionId), p, m)
  {
    assert [CounterRow(o, "*"), CounterRow(o, o.sessionId)] == [CounterRow(o, "*")] + [CounterRow(o, o.sessionId)];
    SumSnoc([CounterRow(o, "*")], CounterRow(o, o.sessionId), p, m);
    SumSingle(CounterRow(o, "*"), p, m);
  }

  lemma CounterKeys(o: Order, e: string)
    requires o.sessionId != "*"
    ensures EventCounter(e)([o.eventId, "*", "*"]) <==> o.eventId == e
    ensures !EventCounter(e)([o.eventId, o.sessionId, "*"])
    ensures !SessionCounters(e)([o.eventId, "*", "*"])
    ensures SessionCounters(e)([o.eventId, o.sessionId, "*"]) <==> o.eventId == e
  {
  }

  lemma CounterExplains(tz: Zone, o: Order, e: string, m: Measure)
    requires o.sessionId != "*"
    ensures Explains(Counters, tz, o, EventCounter(e), m, Sold(e, m))
    ensures Explains(Counters, tz, o, SessionCounters(e), m, Sold(e, m))
  {
    CounterKeys(o, e);
    CounterSum(o, EventCounter(e), m);
    CounterSum(o, SessionCounters(e), m);
    forall t
      ensures Sum(TargetRows(Counters, tz, o, t), EventCounter(e), m) == Sold(e, m)(o, t)
      ensures Sum(TargetRows(Counters, tz, o, t), SessionCounters(e), m) == Sold(e, m)(o, t)
    {
    }
  }

  // The session counters of an event sum to its event counter, and that is the paid orders of the event.
  lemma SessionsSumToEvent(tz: Zone, orders: seq<Order>, e: string, m: Measure)
    requires PlainDays(tz) && forall o | o in orders :: PlainOrder(o) && o.sessionId != "*"
    ensures Sum(Rolled(Counters, tz, orders), SessionCounters(e), m)
         == Sum(Rolled(Counters, tz, orders), EventCounter(e), m)
         == OverOrders(Counters, tz, orders, Sold(e, m))
  {
    forall o | o in orders
      ensures Explains(Counters, tz, o, EventCounter(e), m, Sold(e, m))
      ensures Explains(Counters, tz, o, SessionCounters(e), m, Sold(e, m))
    {
      CounterExplains(tz, o, e, m);
    }
    RolledTotal(Counters, tz, orders, EventCounter(e), m, Sold(e, m));
    RolledTotal(Counters, tz, orders, SessionCounters(e), m, Sold(e, m));
  }

  // ----- visitor, ticket and vendor rows

  // The line counts for the row of the tag: visitor and ticket rows take ticket lines alone.
  predicate Carries(facet: Facet, item: Item, tag: string) {
    match facet
    case ByVisitor => (item.itemType == TicketType || item.itemType == TicketVariant) && item.visitorType == tag
    case ByTicket => (item.itemType == TicketType || item.itemType == TicketVariant) && item.itemId == tag
    case ByVendor => item.vendor == Some(tag)
  }

  lemma TagIsCarried(facet: Facet, item: Item, tag: string)
    ensures Tag(facet, item) == Some(tag) <==> Carries(facet, item, tag)
  {
  }

  function LineMeasure(facet: Facet, item: Item, m: Measure): int {
    var admitted :=
      !item.isCafe && (facet.ByVendor? ==> item.itemType == TicketType || item.itemType == TicketVariant);
    match m
    case OrderCount => 0
    case Admits => if admitted then item.admitCount * item.quantity else 0
    case Qty => if admitted then item.quantity else 0
    case Revenue => item.total
    case _ => 0
  }

  // What the first `n` lines of an order bring to the row of `tag`.
  function LinesOf(facet: Facet, o: Order, n: nat, tag: string, m: Measure): int
    requires n <= |o.items|
  {
    if n == 0 then 0
    else
      var own := if Carries(facet, o.items[n - 1], tag) then LineMeasure(facet, o.items[n - 1], m) else 0;
      LinesOf(facet, o, n - 1, tag, m) + own
  }

  // Row key of `tag` under the order and target.
  function KeyOf(tz: Zone, o: Order, t: Target, tag: string): seq<string> {
    Head(tz, o, t) + [tag, o.currency]
  }

  // The part of the row of `tag` that the first `n` lines explain.
  function Share(facet: Facet, o: Order, n: nat, tag: string, m: Measure): int
    requires n <= |o.items|
  {
    if !m.OrderCount? then LinesOf(facet, o, n, tag, m)
    else if exists j :: 0 <= j < n && Carries(facet, o.items[j], tag) then 1 else 0
  }

  // The first of `n` lines that has a vendor has this one.
  predicate FirstHas(items: seq<Item>, n: nat, vendor: string)
    requires n <= |items|
  {
    exists i :: 0 <= i < n && items[i].vendor == Some(vendor) && forall j | 0 <= j < i :: items[j].vendor.None?
  }

  // The promo of an order that was not migrated, taken from vendor revenue.
  function PromoTaken(facet: Facet, o: Order, tag: string, m: Measure): int {
    if facet.ByVendor? && m.Revenue? && !o.legacy && o.discount > 0 && FirstHas(o.items, |o.items|, tag)
    then o.discount else 0
  }

  lemma {:induction false} FirstVendorIs(items: seq<Item>, n: nat, vendor: string)
    requires n <= |items|
    ensures FirstVendor(items, n) == Some(vendor) <==> FirstHas(items, n, vendor)
    ensures FirstVendor(items, n).Some? <==> exists i :: 0 <= i < n && items[i].vendor.Some?
  {
    if n > 0 {
      FirstVendorIs(items, n - 1, vendor);
      if FirstHas(items, n, vendor) {
        var i :| 0 <= i < n && items[i].vendor == Some(vendor) && forall j | 0 <= j < i :: items[j].vendor.None?;
        assert i < n - 1 ==> FirstHas(items, n - 1, vendor);
      }
    }
  }

  ghost function FromLines(facet: Facet, tz: Zone, d: seq<string>, m: Measure): (Order, Target) -> int {
    (o: Order, t: Target) =>
      if |d| != 5 || d != [o.eventId, DayText(t.day, tz), t.basis, d[3], o.currency] then 0
      else Share(facet, o, |o.items|, d[3], m) - PromoTaken(facet, o, d[3], m)
  }

  lemma ShareNone(facet: Facet, o: Order, tag: string, m: Measure)
    ensures Share(facet, o, 0, tag, m) == 0
  {
  }

  lemma ShareStep(facet: Facet, tz: Zone, o: Order, t: Target, n: nat, tag: string, m: Measure)
    requires 0 < n <= |o.items|
    ensures Share(facet, o, n, tag, m) == Share(facet, o, n - 1, tag, m) +
      if Tag(facet, o.items[n - 1]) != Some(tag) then 0
      else At(FacetRow(facet, tz, o, t, o.items[n - 1], tag, !Seen(facet, o.items, n - 1, tag)).amounts, m)
  {
  }

  lemma KeyTag(tz: Zone, o: Order, t: Target, a: string, b: string)
    ensures KeyOf(tz, o, t, a)[3] == a
    ensures KeyOf(tz, o, t, a) == KeyOf(tz, o, t, b) <==> a == b
  {
    assert KeyOf(tz, o, t, a)[3] == a && KeyOf(tz, o, t, b)[3] == b;
  }

  lemma FacetRowCounted(facet: Facet, tz: Zone, o: Order, t: Target, item: Item, v: string, first: bool, tag: string,
                        m: Measure)
    ensures Counted(FacetRow(facet, tz, o, t, item, v, first), Exactly(KeyOf(tz, o, t, tag)), m) ==
            if v == tag then At(FacetRow(facet, tz, o, t, item, v, first).amounts, m) else 0
  {
    KeyTag(tz, o, t, v, tag);
  }

  lemma {:induction false} FacetRowsSum(facet: Facet, tz: Zone, o: Order, t: Target, n: nat, tag: string, m: Measure)
    requires n <= |o.items|
    ensures Sum(FacetRows(facet, tz, o, t, n), Exactly(KeyOf(tz, o, t, tag)), m) == Share(facet, o, n, tag, m)
  {
    hide Sum, Exactly, KeyOf, FacetRow, Share, Counted, Seen;
    SumNone(Exactly(KeyOf(tz, o, t, tag)), m);
    ShareNone(facet, o, tag, m);
    if n > 0 {
      FacetRowsSum(facet, tz, o, t, n - 1, tag, m);
      ShareStep(facet, tz, o, t, n, tag, m);
      var item := o.items[n - 1];
      if Tag(facet, item).Some? {
        var v := Tag(facet, item).value;
        var first := !Seen(facet, o.items, n - 1, v);
        FacetRowCounted(facet, tz, o, t, item, v, first, tag, m);
        SumSnoc(FacetRows(facet, tz, o, t, n - 1), FacetRow(facet, tz, o, t, item, v, first),
                    Exactly(KeyOf(tz, o, t, tag)), m);
      }
    }
  }

  lemma {:induction false} FacetRowsKeys(facet: Facet, tz: Zone, o: Order, t: Target, n: nat)
    requires n <= |o.items|
    ensures forall r | r in FacetRows(facet, tz, o, t, n) :: |r.dims| == 5 && r.dims == KeyOf(tz, o, t, r.dims[3])
  {
    if n > 0 {
      FacetRowsKeys(facet, tz, o, t, n - 1);
    }
  }

  lemma PromoRowCounted(tz: Zone, o: Order, t: Target, v: string, tag: string, m: Measure)
    ensures Counted(PromoRow(tz, o, t, v), Exactly(KeyOf(tz, o, t, tag)), m) ==
            if v == tag && m.Revenue? then -Promo(o) else 0
  {
    KeyTag(tz, o, t, v, tag);
  }

  lemma PromoSum(tz: Zone, o: Order, t: Target, tag: string, m: Measure)
    ensures Sum(PromoRows(tz, o, t), Exactly(KeyOf(tz, o, t, tag)), m) == -PromoTaken(ByVendor, o, tag, m)
  {
    var rows, vendor := PromoRows(tz, o, t), FirstVendor(o.items, |o.items|);
    FirstVendorIs(o.items, |o.items|, tag);
    hide FirstVendor, FirstHas;
    if rows != [] {
      var row := PromoRow(tz, o, t, vendor.value);
      assert rows == [row];
      PromoRowCounted(tz, o, t, vendor.value, tag, m);
      SumSingle(row, Exactly(KeyOf(tz, o, t, tag)), m);
    }
  }

  lemma FacetExplainsOwnKey(facet: Facet, tz: Zone, o: Order, t: Target, tag: string, m: Measure)
    ensures Sum(TargetRows(Lines(facet), tz, o, t), Exactly(KeyOf(tz, o, t, tag)), m) ==
            Share(facet, o, |o.items|, tag, m) - PromoTaken(facet, o, tag, m)
  {
    var lines, d := FacetRows(facet, tz, o, t, |o.items|), KeyOf(tz, o, t, tag);
    FacetRowsSum(facet, tz, o, t, |o.items|, tag, m);
    if facet.ByVendor? {
      SumSplits(lines, PromoRows(tz, o, t), Exactly(d), m);
      PromoSum(tz, o, t, tag, m);
    } else {
      assert TargetRows(Lines(facet), tz, o, t) == lines;
    }
  }

  lemma FacetExplainsOtherKey(facet: Facet, tz: Zone, o: Order, t: Target, d: seq<string>, m: Measure)
    requires |d| != 5 || d != KeyOf(tz, o, t, d[3])
    ensures Sum(TargetRows(Lines(facet), tz, o, t), Exactly(d), m) == 0
  {
    FacetRowsKeys(facet, tz, o, t, |o.items|);
    forall r | r in TargetRows(Lines(facet), tz, o, t) ensures r.dims != d {
      assert |r.dims| == 5 && r.dims == KeyOf(tz, o, t, r.dims[3]);
    }
    SumAbsent(TargetRows(Lines(facet), tz, o, t), d, m);
  }

  lemma FacetExplains(facet: Facet, tz: Zone, o: Order, d: seq<string>, m: Measure)
    ensures Explains(Lines(facet), tz, o, Exactly(d), m, FromLines(facet, tz, d, m))
  {
    forall t ensures Sum(TargetRows(Lines(facet), tz, o, t), Exactly(d), m) == FromLines(facet, tz, d, m)(o, t) {
      if |d| == 5 && d == KeyOf(tz, o, t, d[3]) {
        FacetExplainsOwnKey(facet, tz, o, t, d[3], m);
      } else {
        FacetExplainsOtherKey(facet, tz, o, t, d, m);
      }
    }
  }

  // Every visitor, ticket and vendor row holds, per measure, what the lines with its tag bring; vendor revenue is the
  // vendor's lines minus the promo of each order whose first vendor it is.
  lemma FacetRowsMean(facet: Facet, tz: Zone, orders: seq<Order>, d: seq<string>, m: Measure)
    requires PlainDays(tz) && forall o | o in orders :: PlainOrder(o)
    ensures Sum(Rolled(Lines(facet), tz, orders), Exactly(d), m) ==
            OverOrders(Lines(facet), tz, orders, FromLines(facet, tz, d, m))
  {
    forall o | o in orders ensures Explains(Lines(facet), tz, o, Exactly(d), m, FromLines(facet, tz, d, m)) {
      FacetExplains(facet, tz, o, d, m);
    }
    RolledTotal(Lines(facet), tz, orders, Exactly(d), m, FromLines(facet, tz, d, m));
  }

  // The display name of the last of `n` lines of a ticket.
  function LastName(o: Order, n: nat, ticket: string): string
    requires n <= |o.items|
  {
    if n == 0 then ""
    else if Carries(ByTicket, o.items[n - 1], ticket) then o.items[n - 1].displayName
    else LastName(o, n - 1, ticket)
  }

  // The display name that a ticket row ends with: that of the last line of the last order that touches it.
  ghost function LabelOf(tz: Zone, orders: seq<Order>, d: seq<string>): string
    requires |d| == 5
  {
    if orders == [] then ""
    else
      var o := orders[|orders| - 1];
      if Touches(ByTicket, tz, o, d) then LastName(o, |o.items|, d[3])
      else LabelOf(tz, orders[..|orders| - 1], d)
  }

  lemma {:induction false} CaptionSplits(a: seq<Row>, b: seq<Row>, d: seq<string>)
    ensures LastCaption(a + b, d) == if HasDims(b, d) then LastCaption(b, d) else LastCaption(a, d)
  {
    if b == [] {
      assert a + b == a;
    } else {
      var front, last := b[..|b| - 1], b[|b| - 1];
      CaptionSplits(a, front, d);
      HasDimsSnoc(front, last, d);
      assert b == front + [last];
      assert (a + b)[..|a + b| - 1] == a + front;
    }
  }

  lemma {:induction false} NamesOfLines(tz: Zone, o: Order, t: Target, n: nat, tag: string)
    requires n <= |o.items|
    ensures var rows, d := FacetRows(ByTicket, tz, o, t, n), KeyOf(tz, o, t, tag);
      && (HasDims(rows, d) <==> exists j :: 0 <= j < n && Carries(ByTicket, o.items[j], tag))
      && LastCaption(rows, d) == LastName(o, n, tag)
  {
    hide KeyOf, Seen, FacetRow, HasDims, LastCaption, Carries;
    NoNames(KeyOf(tz, o, t, tag));
    if n > 0 {
      NamesOfLines(tz, o, t, n - 1, tag);
      var item := o.items[n - 1];
      TagIsCarried(ByTicket, item, tag);
      if Tag(ByTicket, item).Some? {
        var v := Tag(ByTicket, item).value;
        var row := FacetRow(ByTicket, tz, o, t, item, v, !Seen(ByTicket, o.items, n - 1, v));
        KeyTag(tz, o, t, v, tag);
        RowKey(ByTicket, tz, o, t, item, v, !Seen(ByTicket, o.items, n - 1, v));
        HasDimsSnoc(FacetRows(ByTicket, tz, o, t, n - 1), row, KeyOf(tz, o, t, tag));
        CaptionSplits(FacetRows(ByTicket, tz, o, t, n - 1), [row], KeyOf(tz, o, t, tag));
        OneCaption(row, KeyOf(tz, o, t, tag));
      }
    }
  }

  lemma NoNames(d: seq<string>)
    ensures !HasDims([], d) && LastCaption([], d) == ""
  {
  }

  lemma RowKey(facet: Facet, tz: Zone, o: Order, t: Target, item: Item, v: string, first: bool)
    ensures FacetRow(facet, tz, o, t, item, v, first).dims == KeyOf(tz, o, t, v)
    ensures facet.ByTicket? ==> FacetRow(facet, tz, o, t, item, v, first).caption == item.displayName
  {
  }

  lemma OneCaption(row: Row, d: seq<string>)
    ensures LastCaption([row], d) == if row.dims == d then row.caption else ""
    ensures HasDims([row], d) <==> row.dims == d
  {
    assert [row][..0] == [] && row in [row];
  }

  // The order is paid, falls on the row's report day, and has a line with the row's tag.
  ghost predicate Touches(facet: Facet, tz: Zone, o: Order, d: seq<string>)
    requires |d| == 5
  {
    && o.status.Paid?
    && (exists item :: item in o.items && Carries(facet, item, d[3]))
    && exists t :: t in Targets(tz, o) && d == [o.eventId, DayText(t.day, tz), t.basis, d[3], o.currency]
  }

  lemma TouchesOnce(facet: Facet, tz: Zone, o: Order, d: seq<string>)
    requires |d| == 5 && o.status.Paid?
    ensures OverTargets(o, Targets(tz, o), FromLines(facet, tz, d, OrderCount)) ==
            if Touches(facet, tz, o, d) then 1 else 0
  {
    hide Carries, DayText, Targets;
    var ts, f := Targets(tz, o), FromLines(facet, tz, d, OrderCount);
    TwoBases(tz, o);
    ShareIsOne(facet, o, d[3]);
    assert ts[..1] == [ts[0]] && ts[..1][..0] == [] && ts[..|ts|] == ts;
    assert OverTargets(o, ts[..1], f) == f(o, ts[0]);
    if |ts| == 2 {
      assert OverTargets(o, ts, f) == f(o, ts[0]) + f(o, ts[1]);
      assert f(o, ts[0]) == 0 || f(o, ts[1]) == 0 by {
        assert d[2] != ts[0].basis || d[2] != ts[1].basis;
      }
    }
  }

  lemma TwoBases(tz: Zone, o: Order)
    ensures 1 <= |Targets(tz, o)| <= 2
    ensures |Targets(tz, o)| == 2 ==> Targets(tz, o)[0].basis != Targets(tz, o)[1].basis
  {
  }

  lemma ShareIsOne(facet: Facet, o: Order, tag: string)
    ensures Share(facet, o, |o.items|, tag, OrderCount) - PromoTaken(facet, o, tag, OrderCount) ==
      if exists item :: item in o.items && Carries(facet, item, tag) then 1 else 0
  {
    hide Carries;
    if exists item :: item in o.items && Carries(facet, item, tag) {
      var item :| item in o.items && Carries(facet, item, tag);
      var j :| 0 <= j < |o.items| && o.items[j] == item;
      assert Carries(facet, o.items[j], tag);
    }
    if j :| 0 <= j < |o.items| && Carries(facet, o.items[j], tag) {
      assert o.items[j] in o.items;
    }
  }

  lemma {:induction false} NamesOverTargets(tz: Zone, o: Order, ts: seq<Target>, d: seq<string>)
    requires |d| == 5
    ensures var rows := RowsOver(Lines(ByTicket), tz, o, ts);
      && (HasDims(rows, d) <==>
            (exists item :: item in o.items && Carries(ByTicket, item, d[3])) &&
            exists t :: t in ts && d == KeyOf(tz, o, t, d[3]))
      && (HasDims(rows, d) ==> LastCaption(rows, d) == LastName(o, |o.items|, d[3]))
  {
    hide KeyOf, Carries, LastName, FacetRows;
    if ts != [] {
      var front, t := ts[..|ts| - 1], ts[|ts| - 1];
      NamesOverTargets(tz, o, front, d);
      assert ts == front + [t];
      assert TargetRows(Lines(ByTicket), tz, o, t) == FacetRows(ByTicket, tz, o, t, |o.items|);
      CaptionSplits(RowsOver(Lines(ByTicket), tz, o, front), FacetRows(ByTicket, tz, o, t, |o.items|), d);
      DimsSplit(RowsOver(Lines(ByTicket), tz, o, front), FacetRows(ByTicket, tz, o, t, |o.items|), d);
      NamesOfLines(tz, o, t, |o.items|, d[3]);
      if d != KeyOf(tz, o, t, d[3]) {
        FacetRowsKeys(ByTicket, tz, o, t, |o.items|);
      }
    }
  }

  lemma DimsSplit(a: seq<Row>, b: seq<Row>, d: seq<string>)
    ensures HasDims(a + b, d) <==> HasDims(a, d) || HasDims(b, d)
  {
  }

  lemma {:induction false} CaptionOfAll(tz: Zone, orders: seq<Order>, d: seq<string>)
    requires |d| == 5
    ensures LastCaption(AllRows(Lines(ByTicket), tz, orders), d) == LabelOf(tz, orders, d)
  {
    hide RowsOver, Carries, LastName, DayText, Targets;
    if orders != [] {
      var front, o := orders[..|orders| - 1], orders[|orders| - 1];
      CaptionOfAll(tz, front, d);
      CaptionSplits(AllRows(Lines(ByTicket), tz, front), OrderRows(Lines(ByTicket), tz, o), d);
      NamesOverTargets(tz, o, Targets(tz, o), d);
      SameKeys(tz, o, d);
    }
  }

  lemma SameKeys(tz: Zone, o: Order, d: seq<string>)
    requires |d| == 5
    ensures forall t: Target ::
      d == KeyOf(tz, o, t, d[3]) <==> d == [o.eventId, DayText(t.day, tz), t.basis, d[3], o.currency]
  {
    hide DayText;
    forall t: Target
      ensures KeyOf(tz, o, t, d[3]) == [o.eventId, DayText(t.day, tz), t.basis, d[3], o.currency]
    {
    }
  }

  // A ticket row is captioned by the last line of its ticket in the last paid order that touches it.
  lemma TicketLabels(tz: Zone, orders: seq<Order>, r: Row)
    requires PlainDays(tz) && forall o | o in orders :: PlainOrder(o)
    requires r in Rolled(Lines(ByTicket), tz, orders) && |r.dims| == 5
    ensures r.caption == LabelOf(tz, orders, r.dims)
  {
    hide Rolled, AllRows, LabelOf, LastCaption;
    RolledIsGroupBy(Lines(ByTicket), tz, orders);
    CaptionOfAll(tz, orders, r.dims);
  }

  // The order count of a visitor, ticket or vendor row is the number of distinct orders that touch it, however many
  // of their lines share the tag.
  lemma {:induction false} OrderCountsAreDistinctOrders(facet: Facet, tz: Zone, orders: seq<Order>, d: seq<string>)
    requires ById(orders) && |d| == 5
    requires PlainDays(tz) && forall o | o in orders :: PlainOrder(o)
    ensures Sum(Rolled(Lines(facet), tz, orders), Exactly(d), OrderCount) ==
            |Touching(facet, tz, orders, d)|
  {
    FacetRowsMean(facet, tz, orders, d, OrderCount);
    CountTouching(facet, tz, orders, d);
  }

  ghost function Chosen(orders: seq<Order>, choice: Order -> bool): set<Order> {
    set o | o in orders && choice(o)
  }

  ghost function Touching(facet: Facet, tz: Zone, orders: seq<Order>, d: seq<string>): set<Order>
    requires |d| == 5
  {
    Chosen(orders, o => Touches(facet, tz, o, d))
  }

  lemma ChosenSnoc(rest: seq<Order>, o: Order, choice: Order -> bool)
    requires o !in rest
    ensures |Chosen(rest + [o], choice)| == |Chosen(rest, choice)| + if choice(o) then 1 else 0
  {
    var before := Chosen(rest, choice);
    assert Chosen(rest + [o], choice) == if choice(o) then before + {o} else before;
  }

  lemma {:induction false} CountTouching(facet: Facet, tz: Zone, orders: seq<Order>, d: seq<string>)
    requires ById(orders) && |d| == 5
    ensures OverOrders(Lines(facet), tz, orders, FromLines(facet, tz, d, OrderCount)) ==
            |Touching(facet, tz, orders, d)|
  {
    hide FromLines, Targets, DayText, Carries, OverTargets;
    if orders != [] {
      var rest, o := orders[..|orders| - 1], orders[|orders| - 1];
      CountTouching(facet, tz, rest, d);
      assert orders == rest + [o];
      ChosenSnoc(rest, o, o => Touches(facet, tz, o, d));
      if o.status.Paid? {
        TouchesOnce(facet, tz, o, d);
      }
    }
  }

  // ----- vendor revenue over all vendors

  function VendorLines(o: Order, n: nat): int
    requires n <= |o.items|
  {
    if n == 0 then 0
    else VendorLines(o, n - 1) + if o.items[n - 1].vendor.Some? then o.items[n - 1].total else 0
  }

  ghost function VendorNet(tz: Zone, q: (string, string, string) -> bool): (Order, Target) -> int {
    (o: Order, t: Target) =>
      if !q(o.eventId, DayText(t.day, tz), t.basis) then 0
      else VendorLines(o, |o.items|)
           - (if !o.legacy && o.discount > 0 && (exists item :: item in o.items && item.vendor.Some?)
              then o.discount else 0)
  }

  lemma {:induction false} VendorRowsSum(tz: Zone, o: Order, t: Target, n: nat, q: (string, string, string) -> bool)
    requires n <= |o.items|
    ensures Sum(FacetRows(ByVendor, tz, o, t, n), ByHead(q), Revenue) ==
            if q(o.eventId, DayText(t.day, tz), t.basis) then VendorLines(o, n) else 0
  {
    hide Sum, DayText, Seen, ByHead;
    SumNone(ByHead(q), Revenue);
    if n > 0 {
      VendorRowsSum(tz, o, t, n - 1, q);
      var item := o.items[n - 1];
      if item.vendor.Some? {
        var v := item.vendor.value;
        var row := FacetRow(ByVendor, tz, o, t, item, v, !Seen(ByVendor, o.items, n - 1, v));
        HeadRowSum(row, tz, o, t, q, Revenue);
        SumSplits(FacetRows(ByVendor, tz, o, t, n - 1), [row], ByHead(q), Revenue);
      }
    }
  }

  lemma PromoHeadSum(tz: Zone, o: Order, t: Target, q: (string, string, string) -> bool)
    ensures var v := FirstVendor(o.items, |o.items|);
      Sum(PromoRows(tz, o, t), ByHead(q), Revenue) ==
        if v.Some? && Promo(o) > 0 && q(o.eventId, DayText(t.day, tz), t.basis) then -Promo(o) else 0
  {
  }

  lemma VendorExplains(tz: Zone, o: Order, t: Target, q: (string, string, string) -> bool)
    ensures Sum(TargetRows(Lines(ByVendor), tz, o, t), ByHead(q), Revenue) == VendorNet(tz, q)(o, t)
  {
    VendorRowsSum(tz, o, t, |o.items|, q);
    PromoHeadSum(tz, o, t, q);
    FirstVendorIs(o.items, |o.items|, "");
    SumSplits(FacetRows(ByVendor, tz, o, t, |o.items|), PromoRows(tz, o, t), ByHead(q), Revenue);
  }

  // Over all vendors of an event, report day or basis, the vendor rows hold the vendor lines minus the promo of each
  // order that has one, taken once.
  lemma VendorRevenueTakesPromoOnce(tz: Zone, orders: seq<Order>, q: (string, string, string) -> bool)
    requires PlainDays(tz) && forall o | o in orders :: PlainOrder(o)
    ensures Sum(Rolled(Lines(ByVendor), tz, orders), ByHead(q), Revenue) ==
            OverOrders(Lines(ByVendor), tz, orders, VendorNet(tz, q))
  {
    forall o | o in orders ensures Explains(Lines(ByVendor), tz, o, ByHead(q), Revenue, VendorNet(tz, q)) {
      forall t ensures Sum(TargetRows(Lines(ByVendor), tz, o, t), ByHead(q), Revenue) == VendorNet(tz, q)(o, t) {
        VendorExplains(tz, o, t, q);
      }
    }
    RolledTotal(Lines(ByVendor), tz, orders, ByHead(q), Revenue, VendorNet(tz, q));
  }
}
