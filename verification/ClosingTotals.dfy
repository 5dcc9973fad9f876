/**
 src/modules/admin-daily-closings/daily-closing-totals.service.ts: expected sales of an agent on a Qatar calendar day.
 Days are day numbers since the epoch, instants are milliseconds, money is in thousandths.
 */
module ClosingTotals {
  import opened Prelude

  type Id = nat

  const DAY_MS := 86_400_000
  const QATAR_MS := 10_800_000

  datatype OrderStatus = Pending | Paid | Refunded | PartiallyRefunded | OtherStatus

  datatype Order = Order(
    agent: Option<Id>, event: Id, status: OrderStatus, cancelled: bool, paidAt: Option<int>, createdAt: int,
    cash: Option<int>, card: Option<int>, tickets: Option<int>, addons: Option<int>, extensions: Option<int>,
    discount: Option<int>, quantity: Option<int>, org: Option<Id>, currency: string)

  datatype Measure = Cash | Card | Tickets | Addons | Extensions | Discounts | Quantity | Count

  datatype Expected = Expected(
    cash: int, card: int, tickets: int, addons: int, extensions: int, discounts: int, sale: int, qty: int, orders: nat,
    org: Option<Id>, currency: string)

  function Money(amount: Option<int>): int {
    if amount.Some? then amount.value else 0
  }

  function At(o: Order, m: Measure): int {
    match m
    case Cash => Money(o.cash)
    case Card => Money(o.card)
    case Tickets => Money(o.tickets)
    case Addons => Money(o.addons)
    case Extensions => Money(o.extensions)
    case Discounts => Min(Money(o.tickets), Max(0, Money(o.discount)))
    case Quantity => Money(o.quantity)
    case Count => 1
  }

  // ----- windows

  function WindowStart(day: int): int {
    day * DAY_MS - QATAR_MS
  }

  predicate InDay(instant: int, day: int) {
    WindowStart(day) <= instant < WindowStart(day) + DAY_MS
  }

  function DayOf(instant: int): int {
    (instant + QATAR_MS) / DAY_MS
  }

  // Consecutive windows meet, and every instant lies in exactly one.
  lemma WindowsPartition(instant: int, day: int)
    ensures InDay(instant, day) <==> day == DayOf(instant)
    ensures WindowStart(day + 1) == WindowStart(day) + DAY_MS
  {
  }

  // ----- which orders count

  predicate Qualifies(o: Order, agent: Id, events: Option<set<Id>>) {
    && o.agent == Some(agent) && o.status in {Paid, Refunded, PartiallyRefunded} && !o.cancelled
    && (events.Some? ==> o.event in events.value)
  }

  // When the order was paid, or else made.
  function Instant(o: Order): int {
    if o.paidAt.Some? then o.paidAt.value else o.createdAt
  }

  predicate Counts(o: Order, agent: Id, day: int, events: Option<set<Id>>) {
    && Qualifies(o, agent, events)
    && ((o.paidAt.Some? && InDay(o.paidAt.value, day)) || (o.paidAt.None? && InDay(o.createdAt, day)))
  }

  // A qualifying order counts on exactly one day.
  lemma CountsOnce(o: Order, agent: Id, day: int, events: Option<set<Id>>)
    ensures Counts(o, agent, day, events) <==> Qualifies(o, agent, events) && day == DayOf(Instant(o))
  {
    WindowsPartition(Instant(o), day);
  }

  // ----- sums

  function Total(orders: seq<Order>, agent: Id, day: int, events: Option<set<Id>>, m: Measure): int {
    if orders == [] then 0
    else
      var last := orders[|orders| - 1];
      Total(orders[..|orders| - 1], agent, day, events, m) +
      (if Counts(last, agent, day, events) then At(last, m) else 0)
  }

  // Sum over the days from lo up to hi, hi not included.
  function RangeTotal(orders: seq<Order>, agent: Id, lo: int, hi: int, events: Option<set<Id>>, m: Measure): int
    decreases hi - lo
  {
    if hi <= lo then 0
    else RangeTotal(orders, agent, lo, hi - 1, events, m) + Total(orders, agent, hi - 1, events, m)
  }

  // Sum over the qualifying orders of those days, each once.
  function SumOfOrders(orders: seq<Order>, agent: Id, lo: int, hi: int, events: Option<set<Id>>, m: Measure): int {
    if orders == [] then 0
    else
      var last := orders[|orders| - 1];
      SumOfOrders(orders[..|orders| - 1], agent, lo, hi, events, m)
      + (if Qualifies(last, agent, events) && lo <= DayOf(Instant(last)) < hi then At(last, m) else 0)
  }

  lemma {:induction false} OneMoreDay(orders: seq<Order>, agent: Id, lo: int, hi: int, events: Option<set<Id>>,
                                      m: Measure)
    requires lo <= hi
    ensures SumOfOrders(orders, agent, lo, hi + 1, events, m) ==
            SumOfOrders(orders, agent, lo, hi, events, m) + Total(orders, agent, hi, events, m)
  {
    hide Qualifies, DayOf, Counts, At;
    if orders != [] {
      OneMoreDay(orders[..|orders| - 1], agent, lo, hi, events, m);
      CountsOnce(orders[|orders| - 1], agent, hi, events);
    }
  }

  lemma {:induction false} NoDays(orders: seq<Order>, agent: Id, lo: int, hi: int, events: Option<set<Id>>, m: Measure)
    requires hi <= lo
    ensures SumOfOrders(orders, agent, lo, hi, events, m) == 0
  {
    hide Qualifies, DayOf, At;
    if orders != [] {
      NoDays(orders[..|orders| - 1], agent, lo, hi, events, m);
    }
  }

  // Expected totals over a range of dates are the totals of the orders of the range.
  lemma {:induction false} RangeIsSumOfOrders(orders: seq<Order>, agent: Id, lo: int, hi: int, events: Option<set<Id>>,
                                              m: Measure)
    ensures RangeTotal(orders, agent, lo, hi, events, m) == SumOfOrders(orders, agent, lo, hi, events, m)
    decreases hi - lo
  {
    hide Total, SumOfOrders;
    if hi <= lo {
      NoDays(orders, agent, lo, hi, events, m);
    } else {
      RangeIsSumOfOrders(orders, agent, lo, hi - 1, events, m);
      OneMoreDay(orders, agent, lo, hi - 1, events, m);
    }
  }

  // Expected totals of separate event sets add up.
  lemma {:induction false} EventsAddUp(orders: seq<Order>, agent: Id, day: int, a: set<Id>, b: set<Id>, m: Measure)
    requires a !! b
    ensures Total(orders, agent, day, Some(a + b), m) ==
            Total(orders, agent, day, Some(a), m) + Total(orders, agent, day, Some(b), m)
  {
    hide At, InDay;
    if orders != [] {
      EventsAddUp(orders[..|orders| - 1], agent, day, a, b, m);
    }
  }

  // The first organization and the last currency given.
  function FirstOrg(orders: seq<Order>, agent: Id, day: int, events: Option<set<Id>>): Option<Id> {
    if orders == [] then None
    else
      var last, front := orders[|orders| - 1], FirstOrg(orders[..|orders| - 1], agent, day, events);
      if front.None? && Counts(last, agent, day, events) then last.org else front
  }

  function LastCurrency(orders: seq<Order>, agent: Id, day: int, events: Option<set<Id>>): string {
    if orders == [] then "QAR"
    else
      var last := orders[|orders| - 1];
      if Counts(last, agent, day, events) && last.currency != "" then last.currency
      else LastCurrency(orders[..|orders| - 1], agent, day, events)
  }

  function ExpectedFor(orders: seq<Order>, agent: Id, day: int, events: Option<set<Id>>): Expected {
    var cash := Total(orders, agent, day, events, Cash);
    var card := Total(orders, agent, day, events, Card);
    Expected(cash, card, Total(orders, agent, day, events, Tickets), Total(orders, agent, day, events, Addons),
             Total(orders, agent, day, events, Extensions), Total(orders, agent, day, events, Discounts), cash + card,
             Total(orders, agent, day, events, Quantity), CountOf(orders, agent, day, events),
             FirstOrg(orders, agent, day, events), LastCurrency(orders, agent, day, events))
  }

  function CountOf(orders: seq<Order>, agent: Id, day: int, events: Option<set<Id>>): (n: nat)
    ensures n == Total(orders, agent, day, events, Count)
  {
    if orders == [] then 0
    else
      CountOf(orders[..|orders| - 1], agent, day, events) +
      if Counts(orders[|orders| - 1], agent, day, events) then 1 else 0
  }

  lemma Measures(o: Order)
    ensures At(o, Cash) == Money(o.cash) && At(o, Card) == Money(o.card) && At(o, Tickets) == Money(o.tickets)
    ensures At(o, Addons) == Money(o.addons) && At(o, Extensions) == Money(o.extensions)
    ensures At(o, Discounts) == Min(Money(o.tickets), Max(0, Money(o.discount))) && At(o, Quantity) == Money(o.quantity)
  {
  }

  // ----- what the totals are, over the fields of the orders

  // The agent's paid or refunded orders that are not cancelled, paid (or else made) on the Qatar day, three hours ahead
  // of UTC.
  predicate OnDay(o: Order, agent: Id, day: int, events: Option<set<Id>>) {
    var instant := if o.paidAt.Some? then o.paidAt.value else o.createdAt;
    && o.agent == Some(agent) && (events == None || o.event in events.value)
    && (o.status == Paid || o.status == Refunded || o.status == PartiallyRefunded) && !o.cancelled
    && 86_400_000 * day <= instant + 10_800_000 < 86_400_000 * (day + 1)
  }

  lemma CountsOnDay(o: Order, agent: Id, day: int, events: Option<set<Id>>)
    ensures Counts(o, agent, day, events) <==> OnDay(o, agent, day, events)
  {
  }

  ghost function SumOnDay(orders: seq<Order>, agent: Id, day: int, events: Option<set<Id>>, amount: Order -> int): int {
    SumOver(orders, (o: Order) => if OnDay(o, agent, day, events) then amount(o) else 0)
  }

  lemma {:induction false} TotalIs(orders: seq<Order>, agent: Id, day: int, events: Option<set<Id>>, m: Measure,
                                   amount: Order -> int)
    requires forall o :: At(o, m) == amount(o)
    ensures Total(orders, agent, day, events, m) == SumOnDay(orders, agent, day, events, amount)
  {
    hide Counts, OnDay, At;
    if orders != [] {
      TotalIs(orders[..|orders| - 1], agent, day, events, m, amount);
      CountsOnDay(orders[|orders| - 1], agent, day, events);
    }
  }

  // Every figure is the sum of its own column, an absent amount counting as zero; a discount counts up to the ticket
  // amount of its order and never below zero.
  lemma ExpectedOverFields(orders: seq<Order>, agent: Id, day: int, events: Option<set<Id>>)
    ensures var e := ExpectedFor(orders, agent, day, events);
      var sum := (amount: Order -> int) => SumOnDay(orders, agent, day, events, amount);
      && e.cash == sum((o: Order) => if o.cash.Some? then o.cash.value else 0)
      && e.card == sum((o: Order) => if o.card.Some? then o.card.value else 0)
      && e.tickets == sum((o: Order) => if o.tickets.Some? then o.tickets.value else 0)
      && e.addons == sum((o: Order) => if o.addons.Some? then o.addons.value else 0)
      && e.extensions == sum((o: Order) => if o.extensions.Some? then o.extensions.value else 0)
      && e.discounts == sum((o: Order) =>
           var tickets := if o.tickets.Some? then o.tickets.value else 0;
           var discount := if o.discount.Some? && o.discount.value > 0 then o.discount.value else 0;
           if discount < tickets then discount else tickets)
      && e.qty == sum((o: Order) => if o.quantity.Some? then o.quantity.value else 0)
      && e.orders == sum((o: Order) => 1)
      && e.sale == e.cash + e.card
  {
    hide SumOnDay, Total;
    TotalIs(orders, agent, day, events, Cash, (o: Order) => if o.cash.Some? then o.cash.value else 0);
    TotalIs(orders, agent, day, events, Card, (o: Order) => if o.card.Some? then o.card.value else 0);
    TotalIs(orders, agent, day, events, Tickets, (o: Order) => if o.tickets.Some? then o.tickets.value else 0);
    TotalIs(orders, agent, day, events, Addons, (o: Order) => if o.addons.Some? then o.addons.value else 0);
    TotalIs(orders, agent, day, events, Extensions, (o: Order) =>
      if o.extensions.Some? then o.extensions.value else 0);
    TotalIs(orders, agent, day, events, Discounts, (o: Order) =>
      var tickets := if o.tickets.Some? then o.tickets.value else 0;
      var discount := if o.discount.Some? && o.discount.value > 0 then o.discount.value else 0;
      if discount < tickets then discount else tickets);
    TotalIs(orders, agent, day, events, Quantity, (o: Order) => if o.quantity.Some? then o.quantity.value else 0);
    TotalIs(orders, agent, day, events, Count, (o: Order) => 1);
  }

  // There is nothing to close exactly when no order falls on the day.
  lemma {:induction false} NoneOnDay(orders: seq<Order>, agent: Id, day: int, events: Option<set<Id>>)
    ensures ExpectedFor(orders, agent, day, events).orders == 0 <==>
            forall o :: o in orders ==> !OnDay(o, agent, day, events)
  {
    hide Counts, OnDay, Total;
    if orders != [] {
      var front, last := orders[..|orders| - 1], orders[|orders| - 1];
      NoneOnDay(front, agent, day, events);
      CountsOnDay(last, agent, day, events);
      assert orders == front + [last];
    }
  }

  // The organization is that of the first order of the day that has one.
  lemma {:induction false} OrgOfDay(orders: seq<Order>, agent: Id, day: int, events: Option<set<Id>>)
    ensures var org := ExpectedFor(orders, agent, day, events).org;
      && (forall i | 0 <= i < |orders| && OnDay(orders[i], agent, day, events) && orders[i].org.Some?
            && (forall j | 0 <= j < i :: OnDay(orders[j], agent, day, events) ==> orders[j].org.None?) ::
            org == orders[i].org)
      && ((forall o :: o in orders && OnDay(o, agent, day, events) ==> o.org.None?) ==> org.None?)
  {
    hide Counts, OnDay, Total, CountOf, LastCurrency;
    if orders != [] {
      var front, last := orders[..|orders| - 1], orders[|orders| - 1];
      OrgOfDay(front, agent, day, events);
      CountsOnDay(last, agent, day, events);
      assert orders == front + [last];
    }
  }

  // The currency is that of the last order of the day that has one, and riyals without any.
  lemma {:induction false} CurrencyOfDay(orders: seq<Order>, agent: Id, day: int, events: Option<set<Id>>)
    ensures var currency := ExpectedFor(orders, agent, day, events).currency;
      && (forall i | 0 <= i < |orders| && OnDay(orders[i], agent, day, events) && orders[i].currency != ""
            && (forall j | i < j < |orders| :: OnDay(orders[j], agent, day, events) ==> orders[j].currency == "") ::
            currency == orders[i].currency)
      && ((forall o :: o in orders && OnDay(o, agent, day, events) ==> o.currency == "") ==> currency == "QAR")
  {
    hide Counts, OnDay, Total, CountOf, FirstOrg;
    if orders != [] {
      var front, last := orders[..|orders| - 1], orders[|orders| - 1];
      CurrencyOfDay(front, agent, day, events);
      CountsOnDay(last, agent, day, events);
      assert orders == front + [last];
    }
  }

  method ExpectedForAgentDate(orders: seq<Order>, agent: Id, day: int, events: Option<set<Id>>) returns (r: Expected)
    ensures r == ExpectedFor(orders, agent, day, events)
  {
    hide Counts, At;
    var cash, card, tickets, addons, extensions, discounts, qty := 0, 0, 0, 0, 0, 0, 0;
    var count, org, currency := 0, None, "QAR";
    for i := 0 to |orders|
      invariant cash == Total(orders[..i], agent, day, events, Cash)
      invariant card == Total(orders[..i], agent, day, events, Card)
      invariant tickets == Total(orders[..i], agent, day, events, Tickets)
      invariant addons == Total(orders[..i], agent, day, events, Addons)
      invariant extensions == Total(orders[..i], agent, day, events, Extensions)
      invariant discounts == Total(orders[..i], agent, day, events, Discounts)
      invariant qty == Total(orders[..i], agent, day, events, Quantity)
      invariant count == CountOf(orders[..i], agent, day, events)
      invariant org == FirstOrg(orders[..i], agent, day, events)
      invariant currency == LastCurrency(orders[..i], agent, day, events)
    {
      assert orders[..i + 1][..i] == orders[..i];
      var order := orders[i];
      Measures(order);
      if Counts(order, agent, day, events) {
        var gross := Money(order.tickets);
        cash := cash + Money(order.cash);
        card := card + Money(order.card);
        tickets := tickets + gross;
        addons := addons + Money(order.addons);
        extensions := extensions + Money(order.extensions);
        discounts := discounts + Min(gross, Max(0, Money(order.discount)));
        qty := qty + Money(order.quantity);
        count := count + 1;
        if org.None? {
          org := order.org;
        }
        if order.currency != "" {
          currency := order.currency;
        }
      }
    }
    assert orders[..|orders|] == orders;
    r := Expected(cash, card, tickets, addons, extensions, discounts, cash + card, qty, count, org, currency);
  }
}
