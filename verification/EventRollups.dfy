/**
 The order pass of prisma/sync-perf-order-rollups.ts (`rebuildEventRollups`): orders are read in pages after a cursor,
 and each paid order bumps the daily, payment, demographic, agent, visitor, ticket and vendor accumulators once per
 report basis, and the sales counters once. Amounts are thousandths, instants are minutes since the epoch, and the
 reporting time zone gives an offset in minutes for each instant.
 */
module EventRollups {
  import opened Prelude
  import opened ReportDays
  import opened RollupRows
  import Paging

  datatype Status = Paid | Refunded | PartiallyRefunded

  datatype ItemType = TicketType | TicketVariant | Addon | AddonVariant | Customization | CafeItem

  datatype Item = Item(
    itemId: string, itemType: ItemType, displayName: string, quantity: int, admitCount: int, total: int,
    visitorType: string, vendor: Option<string>, isCafe: bool)

  datatype Order = Order(
    id: nat, eventId: string, sessionId: string, status: Status,
    paidAt: Option<int>, createdAt: int, eventStart: Option<int>,
    paymentMode: string, methodLabel: string, currency: string,
    total: int, discount: int, legacy: bool, ticketsNet: int, addonsNet: int, admits: int, quantity: int,
    ageGroup: string, region: string, agent: Option<string>, cash: int, card: int, items: seq<Item>)

  // ----- the row each bump receives

  function Targets(tz: Zone, o: Order): (ts: seq<Target>)
    ensures 1 <= |ts| <= 2
  {
    ReportTargets(tz, o.paidAt, o.createdAt, o.eventStart)
  }

  function Promo(o: Order): int {
    if o.legacy then 0 else o.discount
  }

  function Head(tz: Zone, o: Order, t: Target): seq<string> {
    [o.eventId, DayText(t.day, tz), t.basis]
  }

  function DailyRow(tz: Zone, o: Order, t: Target): Row {
    Row(Head(tz, o, t) + [o.paymentMode, o.currency],
        Amounts(1, o.admits, o.quantity, o.total, Max(0, o.ticketsNet - Promo(o)), o.addonsNet, 0, 0), "")
  }

  function PayRow(tz: Zone, o: Order, t: Target): Row {
    Row(Head(tz, o, t) + [o.methodLabel, o.currency], Amounts(1, o.admits, 0, o.total, 0, 0, 0, 0), "")
  }

  function DemoRow(tz: Zone, o: Order, t: Target): Row {
    Row(Head(tz, o, t) + [o.ageGroup, o.region, o.currency], Amounts(1, o.admits, 0, o.total, 0, 0, 0, 0), "")
  }

  function PosRow(tz: Zone, o: Order, t: Target, agent: string): Row {
    Row(Head(tz, o, t) + [agent, o.paymentMode, o.currency],
        Amounts(1, o.admits, 0, o.total, 0, 0, o.cash, o.card), "")
  }

  function CounterRow(o: Order, session: string): Row {
    Row([o.eventId, session, "*"], Amounts(1, 0, o.admits, o.total, 0, 0, 0, 0), "")
  }

  // Visitor, ticket and vendor rollups break an order down by one attribute of its lines.
  datatype Facet = ByVisitor | ByTicket | ByVendor

  predicate IsTicket(item: Item) {
    item.itemType.TicketType? || item.itemType.TicketVariant?
  }

  function Tag(facet: Facet, item: Item): Option<string> {
    match facet
    case ByVisitor => if IsTicket(item) then Some(item.visitorType) else None
    case ByTicket => if IsTicket(item) then Some(item.itemId) else None
    case ByVendor => item.vendor
  }

  function FacetRow(facet: Facet, tz: Zone, o: Order, t: Target, item: Item, tag: string, first: bool): Row {
    var admits := if item.isCafe then 0 else item.admitCount * item.quantity;
    var qty := if item.isCafe then 0 else item.quantity;
    var counts := facet.ByVendor? ==> IsTicket(item) && !item.isCafe;
    Row(Head(tz, o, t) + [tag, o.currency],
        Amounts(if first then 1 else 0, if counts then admits else 0, if counts then qty else 0,
                item.total, 0, 0, 0, 0),
        if facet.ByTicket? then item.displayName else "")
  }

  function PromoRow(tz: Zone, o: Order, t: Target, vendor: string): Row {
    Row(Head(tz, o, t) + [vendor, o.currency], Amounts(0, 0, 0, -Promo(o), 0, 0, 0, 0), "")
  }

  // ----- what the accumulators should contain

  predicate Seen(facet: Facet, items: seq<Item>, n: nat, tag: string)
    requires n <= |items|
  {
    exists j :: 0 <= j < n && Tag(facet, items[j]) == Some(tag)
  }

  function FirstVendor(items: seq<Item>, n: nat): Option<string>
    requires n <= |items|
  {
    if n == 0 then None
    else if FirstVendor(items, n - 1).Some? then FirstVendor(items, n - 1) else items[n - 1].vendor
  }

  // Rows of the first `n` lines: a line counts the order unless an earlier line already has its tag.
  function FacetRows(facet: Facet, tz: Zone, o: Order, t: Target, n: nat): seq<Row>
    requires n <= |o.items|
  {
    if n == 0 then []
    else
      var rest := FacetRows(facet, tz, o, t, n - 1);
      var item := o.items[n - 1];
      match Tag(facet, item)
      case None => rest
      case Some(tag) => rest + [FacetRow(facet, tz, o, t, item, tag, !Seen(facet, o.items, n - 1, tag))]
  }

  // The loop's view of one facet: the accumulator and the tags seen so far, in insertion order.
  datatype Tally = Tally(rows: seq<Row>, seen: seq<string>)

  function TallyLine(facet: Facet, tally: Tally, tz: Zone, o: Order, t: Target, item: Item): Tally {
    match Tag(facet, item)
    case None => tally
    case Some(tag) =>
      Tally(Bumped(tally.rows, FacetRow(facet, tz, o, t, item, tag, tag !in tally.seen)),
            if tag in tally.seen then tally.seen else tally.seen + [tag])
  }

  function TallyLines(facet: Facet, rows: seq<Row>, tz: Zone, o: Order, t: Target, n: nat): Tally
    requires n <= |o.items|
  {
    if n == 0 then Tally(rows, [])
    else TallyLine(facet, TallyLines(facet, rows, tz, o, t, n - 1), tz, o, t, o.items[n - 1])
  }

  lemma {:induction false} TallySeen(facet: Facet, rows: seq<Row>, tz: Zone, o: Order, t: Target, n: nat)
    requires n <= |o.items|
    ensures forall v :: v in TallyLines(facet, rows, tz, o, t, n).seen <==> Seen(facet, o.items, n, v)
    ensures facet.ByVendor? ==>
      var seen := TallyLines(facet, rows, tz, o, t, n).seen;
      FirstVendor(o.items, n) == if seen == [] then None else Some(seen[0])
  {
    hide Bumped, FacetRow;
    if n > 0 {
      TallySeen(facet, rows, tz, o, t, n - 1);
      forall v ensures Seen(facet, o.items, n, v) <==>
          Seen(facet, o.items, n - 1, v) || Tag(facet, o.items[n - 1]) == Some(v)
      {
      }
    }
  }

  lemma {:induction false} TallyIsBumpAll(facet: Facet, rows: seq<Row>, tz: Zone, o: Order, t: Target, n: nat)
    requires n <= |o.items|
    ensures TallyLines(facet, rows, tz, o, t, n).rows == BumpAll(rows, FacetRows(facet, tz, o, t, n))
  {
    hide BumpAll, Bumped, FacetRow, Seen;
    BumpAllNone(rows);
    if n > 0 {
      TallyIsBumpAll(facet, rows, tz, o, t, n - 1);
      TallySeen(facet, rows, tz, o, t, n - 1);
      var rest, item := FacetRows(facet, tz, o, t, n - 1), o.items[n - 1];
      if tag :| Tag(facet, item) == Some(tag) {
        BumpAllSnoc(rows, rest, FacetRow(facet, tz, o, t, item, tag, !Seen(facet, o.items, n - 1, tag)));
      }
    }
  }

  function PromoRows(tz: Zone, o: Order, t: Target): seq<Row> {
    var vendor := FirstVendor(o.items, |o.items|);
    if Promo(o) > 0 && vendor.Some? then [PromoRow(tz, o, t, vendor.value)] else []
  }

  datatype Table = Daily | Pay | Demo | Pos | Lines(facet: Facet) | Counters

  function TargetRows(table: Table, tz: Zone, o: Order, t: Target): seq<Row> {
    match table
    case Daily => [DailyRow(tz, o, t)]
    case Pay => [PayRow(tz, o, t)]
    case Demo => [DemoRow(tz, o, t)]
    case Pos => if o.agent.Some? then [PosRow(tz, o, t, o.agent.value)] else []
    case Lines(facet) =>
      FacetRows(facet, tz, o, t, |o.items|) + (if facet.ByVendor? then PromoRows(tz, o, t) else [])
    case Counters => [CounterRow(o, "*"), CounterRow(o, o.sessionId)]
  }

  // Counters are bumped once per order, everything else once per report basis.
  function Occasions(table: Table, tz: Zone, o: Order): seq<Target> {
    if table.Counters? then [Target(0, "")] else Targets(tz, o)
  }

  function RowsOver(table: Table, tz: Zone, o: Order, ts: seq<Target>): seq<Row> {
    if ts == [] then [] else RowsOver(table, tz, o, ts[..|ts| - 1]) + TargetRows(table, tz, o, ts[|ts| - 1])
  }

  // The promo of an order is taken once, from the vendor of its first vendor line.
  lemma LinesFinished(shares: seq<Row>, tz: Zone, o: Order, t: Target)
    ensures TargetRows(Lines(ByVisitor), tz, o, t) == FacetRows(ByVisitor, tz, o, t, |o.items|)
    ensures TargetRows(Lines(ByTicket), tz, o, t) == FacetRows(ByTicket, tz, o, t, |o.items|)
    ensures var lines := BumpAll(shares, FacetRows(ByVendor, tz, o, t, |o.items|));
      BumpAll(shares, TargetRows(Lines(ByVendor), tz, o, t)) ==
        match FirstVendor(o.items, |o.items|)
        case Some(v) => if Promo(o) > 0 then Bumped(lines, PromoRow(tz, o, t, v)) else lines
        case None => lines
  {
    assert TargetRows(Lines(ByVisitor), tz, o, t) == FacetRows(ByVisitor, tz, o, t, |o.items|);
    assert TargetRows(Lines(ByTicket), tz, o, t) == FacetRows(ByTicket, tz, o, t, |o.items|);
    var rows := FacetRows(ByVendor, tz, o, t, |o.items|);
    var v := FirstVendor(o.items, |o.items|);
    if Promo(o) > 0 && v.Some? {
      BumpAllSnoc(shares, rows, PromoRow(tz, o, t, v.value));
    } else {
      assert rows + [] == rows;
    }
  }

  function OrderRows(table: Table, tz: Zone, o: Order): seq<Row> {
    if o.status.Paid? then RowsOver(table, tz, o, Occasions(table, tz, o)) else []
  }

  lemma CounterRows(rows: seq<Row>, tz: Zone, o: Order)
    requires o.status.Paid?
    ensures BumpAll(rows, OrderRows(Counters, tz, o)) ==
            Bumped(Bumped(rows, CounterRow(o, "*")), CounterRow(o, o.sessionId))
  {
    var t := Target(0, "");
    assert [t][..0] == [];
    assert RowsOver(Counters, tz, o, [t]) == [] + TargetRows(Counters, tz, o, t);
    assert OrderRows(Counters, tz, o) == [] + [CounterRow(o, "*")] + [CounterRow(o, o.sessionId)];
    BumpAllSnoc(rows, [CounterRow(o, "*")], CounterRow(o, o.sessionId));
    BumpAllSnoc(rows, [], CounterRow(o, "*"));
  }

  function AllRows(table: Table, tz: Zone, orders: seq<Order>): seq<Row> {
    if orders == [] then []
    else AllRows(table, tz, orders[..|orders| - 1]) + OrderRows(table, tz, orders[|orders| - 1])
  }

  function Rolled(table: Table, tz: Zone, orders: seq<Order>): seq<Row> {
    BumpAll([], AllRows(table, tz, orders))
  }

  // ----- the pass itself

  function IdOf(o: Order): nat {
    o.id
  }

  predicate ById(orders: seq<Order>) {
    Paging.ById(orders, IdOf)
  }

  lemma RolledSnoc(table: Table, tz: Zone, orders: seq<Order>, o: Order)
    ensures Rolled(table, tz, orders + [o]) == BumpAll(Rolled(table, tz, orders), OrderRows(table, tz, o))
  {
    assert (orders + [o])[..|orders|] == orders;
    BumpAllSplits([], AllRows(table, tz, orders), OrderRows(table, tz, o));
  }

  class RollupPass {
    const tz: Zone
    var daily: seq<Row>
    var pay: seq<Row>
    var demo: seq<Row>
    var pos: seq<Row>
    var visitors: seq<Row>
    var tickets: seq<Row>
    var shares: seq<Row>
    var counters: seq<Row>

    function Rows(table: Table): seq<Row>
      reads this
    {
      match table
      case Daily => daily
      case Pay => pay
      case Demo => demo
      case Pos => pos
      case Lines(ByVisitor) => visitors
      case Lines(ByTicket) => tickets
      case Lines(ByVendor) => shares
      case Counters => counters
    }

    // Every accumulator holds what bumping the rows of `orders` gives.
    ghost predicate Holds(orders: seq<Order>)
      reads this
    {
      forall table :: Rows(table) == Rolled(table, tz, orders)
    }

    ghost predicate HoldsFirst(orders: seq<Order>, n: nat)
      reads this
    {
      n <= |orders| && Holds(orders[..n])
    }

    lemma FirstNone(orders: seq<Order>)
      requires Holds([])
      ensures HoldsFirst(orders, 0)
    {
      assert orders[..0] == [];
    }

    lemma FirstAll(orders: seq<Order>)
      requires HoldsFirst(orders, |orders|)
      ensures Holds(orders)
    {
      assert orders[..|orders|] == orders;
    }

    constructor (tz: Zone)
      ensures this.tz == tz && Holds([])
    {
      this.tz := tz;
      daily, pay, demo, pos := [], [], [], [];
      visitors, tickets, shares, counters := [], [], [], [];
    }

    method BumpLine(o: Order, t: Target, item: Item, visitorSeen: seq<string>, ticketSeen: seq<string>,
                    shareSeen: seq<string>)
      returns (visitorSeen': seq<string>, ticketSeen': seq<string>, shareSeen': seq<string>)
      modifies `visitors, `tickets, `shares
      ensures Tally(visitors, visitorSeen') == TallyLine(ByVisitor, Tally(old(visitors), visitorSeen), tz, o, t, item)
      ensures Tally(tickets, ticketSeen') == TallyLine(ByTicket, Tally(old(tickets), ticketSeen), tz, o, t, item)
      ensures Tally(shares, shareSeen') == TallyLine(ByVendor, Tally(old(shares), shareSeen), tz, o, t, item)
    {
      visitorSeen', ticketSeen', shareSeen' := visitorSeen, ticketSeen, shareSeen;
      if IsTicket(item) {
        var first := item.visitorType !in visitorSeen;
        visitors := Bumped(visitors, FacetRow(ByVisitor, tz, o, t, item, item.visitorType, first));
        visitorSeen' := if first then visitorSeen + [item.visitorType] else visitorSeen;
        first := item.itemId !in ticketSeen;
        tickets := Bumped(tickets, FacetRow(ByTicket, tz, o, t, item, item.itemId, first));
        ticketSeen' := if first then ticketSeen + [item.itemId] else ticketSeen;
      }
      if item.vendor.Some? {
        var first := item.vendor.value !in shareSeen;
        shares := Bumped(shares, FacetRow(ByVendor, tz, o, t, item, item.vendor.value, first));
        shareSeen' := if first then shareSeen + [item.vendor.value] else shareSeen;
      }
    }

    method BumpLines(o: Order, t: Target)
      modifies `visitors, `tickets, `shares
      ensures visitors == BumpAll(old(visitors), TargetRows(Lines(ByVisitor), tz, o, t))
      ensures tickets == BumpAll(old(tickets), TargetRows(Lines(ByTicket), tz, o, t))
      ensures shares == BumpAll(old(shares), TargetRows(Lines(ByVendor), tz, o, t))
    {
      var visitorSeen: seq<string>, ticketSeen: seq<string>, shareSeen: seq<string> := [], [], [];
      for i := 0 to |o.items|
        invariant Tally(visitors, visitorSeen) == TallyLines(ByVisitor, old(visitors), tz, o, t, i)
        invariant Tally(tickets, ticketSeen) == TallyLines(ByTicket, old(tickets), tz, o, t, i)
        invariant Tally(shares, shareSeen) == TallyLines(ByVendor, old(shares), tz, o, t, i)
      {
        visitorSeen, ticketSeen, shareSeen := BumpLine(o, t, o.items[i], visitorSeen, ticketSeen, shareSeen);
      }
      TallyIsBumpAll(ByVisitor, old(visitors), tz, o, t, |o.items|);
      TallyIsBumpAll(ByTicket, old(tickets), tz, o, t, |o.items|);
      TallyIsBumpAll(ByVendor, old(shares), tz, o, t, |o.items|);
      TallySeen(ByVendor, old(shares), tz, o, t, |o.items|);
      LinesFinished(old(shares), tz, o, t);
      if Promo(o) > 0 && |shareSeen| > 0 {
        shares := Bumped(shares, PromoRow(tz, o, t, shareSeen[0]));
      }
    }

    method BumpHeadlines(o: Order, t: Target)
      modifies `daily, `pay, `demo, `pos
      ensures daily == BumpAll(old(daily), TargetRows(Daily, tz, o, t))
      ensures pay == BumpAll(old(pay), TargetRows(Pay, tz, o, t))
      ensures demo == BumpAll(old(demo), TargetRows(Demo, tz, o, t))
      ensures pos == BumpAll(old(pos), TargetRows(Pos, tz, o, t))
    {
      daily := Bumped(daily, DailyRow(tz, o, t));
      pay := Bumped(pay, PayRow(tz, o, t));
      demo := Bumped(demo, DemoRow(tz, o, t));
      BumpAllSingle(old(daily), DailyRow(tz, o, t));
      BumpAllSingle(old(pay), PayRow(tz, o, t));
      BumpAllSingle(old(demo), DemoRow(tz, o, t));
      if o.agent.Some? {
        pos := Bumped(pos, PosRow(tz, o, t, o.agent.value));
        BumpAllSingle(old(pos), PosRow(tz, o, t, o.agent.value));
      }
    }

    method BumpTarget(o: Order, t: Target)
      modifies this
      ensures counters == old(counters)
      ensures forall table: Table | !table.Counters? ::
        Rows(table) == BumpAll(old(Rows(table)), TargetRows(table, tz, o, t))
    {
      BumpHeadlines(o, t);
      BumpLines(o, t);
      forall table: Table | !table.Counters?
        ensures Rows(table) == BumpAll(old(Rows(table)), TargetRows(table, tz, o, t))
      {
        match table
        case Lines(facet) =>
          match facet {
            case ByVisitor =>
            case ByTicket =>
            case ByVendor =>
          }
        case _ =>
      }
    }

    method AddTargets(o: Order, targets: seq<Target>)
      modifies this
      ensures counters == old(counters)
      ensures forall table: Table | !table.Counters? ::
        Rows(table) == BumpAll(old(Rows(table)), RowsOver(table, tz, o, targets))
    {
      for i := 0 to |targets|
        invariant counters == old(counters)
        invariant forall table: Table | !table.Counters? ::
          Rows(table) == BumpAll(old(Rows(table)), RowsOver(table, tz, o, targets[..i]))
      {
        label before:
        BumpTarget(o, targets[i]);
        assert targets[..i + 1][..i] == targets[..i];
        forall table: Table | !table.Counters?
          ensures Rows(table) == BumpAll(old(Rows(table)), RowsOver(table, tz, o, targets[..i + 1]))
        {
          assert Rows(table) == BumpAll(old@before(Rows(table)), TargetRows(table, tz, o, targets[i]));
          BumpAllSplits(old(Rows(table)), RowsOver(table, tz, o, targets[..i]), TargetRows(table, tz, o, targets[i]));
        }
      }
      assert targets[..|targets|] == targets;
    }

    method AddOrder(o: Order)
      modifies this
      ensures forall table :: Rows(table) == BumpAll(old(Rows(table)), OrderRows(table, tz, o))
    {
      hide BumpAll, Bumped, RowsOver, TargetRows, CounterRow;
      if !o.status.Paid? {
        forall table {
          BumpAllNone(Rows(table));
        }
        return;
      }
      AddTargets(o, Targets(tz, o));
      CounterRows(counters, tz, o);
      counters := Bumped(counters, CounterRow(o, "*"));
      counters := Bumped(counters, CounterRow(o, o.sessionId));
      forall table ensures Rows(table) == BumpAll(old(Rows(table)), OrderRows(table, tz, o)) {
        assert table.Counters? || OrderRows(table, tz, o) == RowsOver(table, tz, o, Targets(tz, o));
      }
    }

    method AddPage(page: seq<Order>, ghost done: seq<Order>)
      requires Holds(done)
      modifies this
      ensures Holds(done + page)
    {
      assert done + page[..0] == done;
      for i := 0 to |page|
        invariant Holds(done + page[..i])
      {
        label before:
        AddOrder(page[i]);
        assert done + page[..i + 1] == done + page[..i] + [page[i]];
        forall table ensures Rows(table) == Rolled(table, tz, done + page[..i + 1]) {
          assert Rows(table) == BumpAll(old@before(Rows(table)), OrderRows(table, tz, page[i]));
          RolledSnoc(table, tz, done + page[..i], page[i]);
        }
      }
      assert page[..|page|] == page;
    }

    // One round of the scan: read the next page and add its orders.
    method ScanPage(orders: seq<Order>, cursor: Option<nat>, ghost scanned: nat) returns (page: seq<Order>)
      requires ById(orders) && HoldsFirst(orders, scanned)
      requires cursor == if scanned == 0 then None else Some(orders[scanned - 1].id)
      modifies this
      ensures |page| == Min(Paging.BATCH, |orders| - scanned) && page == orders[scanned..scanned + |page|]
      ensures HoldsFirst(orders, scanned + |page|)
    {
      page := Paging.FindMany(orders, IdOf, cursor, scanned);
      AddPage(page, orders[..scanned]);
      assert orders[..scanned] + page == orders[..scanned + |page|];
    }

    // Reads the selected orders page by page; every order is added exactly once, in order of id.
    method Rebuild(orders: seq<Order>) returns (scanned: nat)
      requires ById(orders) && Holds([])
      modifies this
      ensures scanned == |orders|
      ensures Holds(orders)
    {
      hide Holds, HoldsFirst;
      scanned := 0;
      var cursor: Option<nat> := None;
      FirstNone(orders);
      while true
        invariant scanned <= |orders| && HoldsFirst(orders, scanned)
        invariant cursor == if scanned == 0 then None else Some(orders[scanned - 1].id)
        decreases |orders| - scanned
      {
        var page := ScanPage(orders, cursor, scanned);
        if |page| == 0 {
          break;
        }
        scanned := scanned + |page|;
        cursor := Some(page[|page| - 1].id);
      }
      FirstAll(orders);
    }
  }
}
