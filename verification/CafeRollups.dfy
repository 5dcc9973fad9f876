/**
 The cafe pass of prisma/sync-perf-order-rollups.ts (`rebuildCafeRollupsForEvents`): the buckets of each paid order are
 posted to keyed accumulators by cafe, by agent and by menu item, once per report basis. A row keeps the report day of
 the order that opened it.
 */
module CafeRollups {
  import opened Prelude
  import opened CafeBuckets
  import opened ReportDays
  import EventRollups
  import Paging
  import RollupRows

  // What a written row is selected by; `day` is its report day.
  datatype Group = Group(cafe: string, event: string, day: int, basis: string)

  // `dayKey` is the text that stands for the day in the map key, `rest` the components of the key behind the group.
  datatype Row = Row(group: Group, dayKey: string, rest: seq<string>, caption: string, orders: int, qty: int,
                     revenue: real, cash: real, card: real, online: real)

  datatype Field = RevenueOf | CashOf | CardOf | OnlineOf

  function KeyOf(r: Row): string {
    RollupRows.Join([r.group.cafe, r.group.event, r.dayKey, r.group.basis] + r.rest)
  }

  function At(r: Row, f: Field): real {
    match f
    case RevenueOf => r.revenue
    case CashOf => r.cash
    case CardOf => r.card
    case OnlineOf => r.online
  }

  function Merged(r: Row, add: Row): Row {
    Row(r.group, r.dayKey, r.rest, OrElse(add.caption, r.caption), r.orders + add.orders, r.qty + add.qty,
        r.revenue + add.revenue, r.cash + add.cash, r.card + add.card, r.online + add.online)
  }

  lemma MergedKeeps(r: Row, add: Row)
    ensures KeyOf(Merged(r, add)) == KeyOf(r) && Merged(r, add).group == r.group
    ensures forall f :: At(Merged(r, add), f) == At(r, f) + At(add, f)
  {
  }

  // `map.get(key) ?? {zeros}`, the additions, and `map.set`.
  function Posted(rows: seq<Row>, add: Row): seq<Row> {
    if rows == [] then [add]
    else if KeyOf(rows[0]) == KeyOf(add) then [Merged(rows[0], add)] + rows[1..]
    else [rows[0]] + Posted(rows[1..], add)
  }

  function PostAll(rows: seq<Row>, entries: seq<Row>): seq<Row> {
    if entries == [] then rows else Posted(PostAll(rows, entries[..|entries| - 1]), entries[|entries| - 1])
  }

  lemma PostAllSnoc(rows: seq<Row>, entries: seq<Row>, add: Row)
    ensures PostAll(rows, entries + [add]) == Posted(PostAll(rows, entries), add)
  {
    assert (entries + [add])[..|entries|] == entries;
  }

  lemma {:induction false} PostAllSplits(rows: seq<Row>, a: seq<Row>, b: seq<Row>)
    ensures PostAll(rows, a + b) == PostAll(PostAll(rows, a), b)
  {
    hide Posted;
    if b == [] {
      assert a + b == a;
    } else {
      PostAllSplits(rows, a, b[..|b| - 1]);
      assert (a + b)[..|a + b| - 1] == a + b[..|b| - 1];
    }
  }

  // ----- an accumulator is the group-by of its entries

  predicate DistinctKeys(rows: seq<Row>) {
    forall i, j | 0 <= i < j < |rows| :: KeyOf(rows[i]) != KeyOf(rows[j])
  }

  function FieldAt(entries: seq<Row>, key: string, f: Field): real {
    if entries == [] then 0.0
    else
      var last := entries[|entries| - 1];
      FieldAt(entries[..|entries| - 1], key, f) + (if KeyOf(last) == key then At(last, f) else 0.0)
  }

  function CountAt(entries: seq<Row>, key: string, qty: bool): int {
    if entries == [] then 0
    else
      var last := entries[|entries| - 1];
      CountAt(entries[..|entries| - 1], key, qty)
      + (if KeyOf(last) == key then (if qty then last.qty else last.orders) else 0)
  }

  // The last caption given that is not empty.
  function CaptionAt(entries: seq<Row>, key: string): string {
    if entries == [] then ""
    else
      var last, before := entries[|entries| - 1], CaptionAt(entries[..|entries| - 1], key);
      if KeyOf(last) == key then OrElse(last.caption, before) else before
  }

  // The group of the first entry with the key.
  ghost predicate OpenedBy(entries: seq<Row>, key: string, g: Group) {
    exists i :: 0 <= i < |entries| && KeyOf(entries[i]) == key && entries[i].group == g &&
                forall j | 0 <= j < i :: KeyOf(entries[j]) != key
  }

  lemma OpenedSnoc(entries: seq<Row>, add: Row, key: string, g: Group)
    requires if HasKey(entries, key) then OpenedBy(entries, key, g) else key == KeyOf(add) && g == add.group
    ensures OpenedBy(entries + [add], key, g)
  {
    hide KeyOf;
    var all := entries + [add];
    if HasKey(entries, key) {
      var i :| 0 <= i < |entries| && KeyOf(entries[i]) == key && entries[i].group == g &&
        forall j | 0 <= j < i :: KeyOf(entries[j]) != key;
      assert KeyOf(all[i]) == key && all[i].group == g && forall j | 0 <= j < i :: all[j] == entries[j];
    } else {
      assert all[|entries|] == add && forall j | 0 <= j < |entries| :: all[j] == entries[j];
    }
  }

  predicate HasKey(rows: seq<Row>, key: string) {
    exists i :: 0 <= i < |rows| && KeyOf(rows[i]) == key
  }

  // One row of a key, in terms of the row it replaces.
  lemma {:induction false} PostedAt(rows: seq<Row>, add: Row, i: nat)
    requires DistinctKeys(rows) && i < |Posted(rows, add)|
    ensures var r := Posted(rows, add)[i];
      && DistinctKeys(Posted(rows, add))
      && (forall key :: HasKey(Posted(rows, add), key) <==> HasKey(rows, key) || key == KeyOf(add))
      && (KeyOf(r) != KeyOf(add) ==> i < |rows| && r == rows[i])
      && (KeyOf(r) == KeyOf(add) ==>
            if HasKey(rows, KeyOf(add)) then
              && i < |rows| && KeyOf(rows[i]) == KeyOf(add)
              && r == Merged(rows[i], add)
            else r == add)
  {
    hide OrElse, KeyOf;
    PostedKeys(rows, add);
    if rows != [] {
      MergedKeeps(rows[0], add);
      if KeyOf(rows[0]) != KeyOf(add) && i > 0 {
        PostedAt(rows[1..], add, i - 1);
        TailKeys(rows);
      }
    }
  }

  lemma TailKeys(rows: seq<Row>)
    requires rows != []
    ensures forall key :: HasKey(rows, key) <==> KeyOf(rows[0]) == key || HasKey(rows[1..], key)
  {
  }

  lemma {:induction false} PostedKeys(rows: seq<Row>, add: Row)
    requires DistinctKeys(rows)
    ensures DistinctKeys(Posted(rows, add))
    ensures forall key :: HasKey(Posted(rows, add), key) <==> HasKey(rows, key) || key == KeyOf(add)
  {
    hide OrElse, KeyOf;
    var after := Posted(rows, add);
    if rows == [] {
      assert after == [add] && KeyOf(after[0]) == KeyOf(add);
    } else if KeyOf(rows[0]) == KeyOf(add) {
      MergedKeeps(rows[0], add);
      assert after[1..] == rows[1..];
      TailKeys(rows);
      TailKeys(after);
    } else {
      PostedKeys(rows[1..], add);
      assert after[1..] == Posted(rows[1..], add);
      TailKeys(rows);
      TailKeys(after);
      forall j | 0 <= j < |rows[1..]| ensures KeyOf(rows[1..][j]) != KeyOf(rows[0]) {
        assert KeyOf(rows[j + 1]) != KeyOf(rows[0]);
      }
      assert !HasKey(rows[1..], KeyOf(rows[0])) && !HasKey(after[1..], KeyOf(rows[0]));
      forall i | 0 < i < |after| ensures KeyOf(after[i]) != KeyOf(after[0]) {
        assert after[i] == after[1..][i - 1];
      }
      forall i, j | 0 <= i < j < |after| ensures KeyOf(after[i]) != KeyOf(after[j]) {
        assert i > 0 ==> after[i] == after[1..][i - 1] && after[j] == after[1..][j - 1];
      }
    }
  }

  // Each accumulator has one row per key posted, holding the sums of that key's entries and its last caption.
  lemma {:induction false} PostedIsGroupBy(entries: seq<Row>)
    ensures var rows := PostAll([], entries);
      && DistinctKeys(rows)
      && (forall key :: HasKey(rows, key) <==> HasKey(entries, key))
      && (forall r | r in rows ::
            && (forall f :: At(r, f) == FieldAt(entries, KeyOf(r), f))
            && r.orders == CountAt(entries, KeyOf(r), false) && r.qty == CountAt(entries, KeyOf(r), true)
            && r.caption == CaptionAt(entries, KeyOf(r)) && OpenedBy(entries, KeyOf(r), r.group))
  {
    hide OrElse, Posted, KeyOf, OpenedBy;
    if entries != [] {
      var front, add := entries[..|entries| - 1], entries[|entries| - 1];
      PostedIsGroupBy(front);
      var before, after := PostAll([], front), PostAll([], entries);
      PostedKeys(before, add);
      assert entries == front + [add];
      KeysSnoc(front, add);
      forall r | r in after
        ensures forall f :: At(r, f) == FieldAt(entries, KeyOf(r), f)
        ensures r.orders == CountAt(entries, KeyOf(r), false) && r.qty == CountAt(entries, KeyOf(r), true)
        ensures r.caption == CaptionAt(entries, KeyOf(r)) && OpenedBy(entries, KeyOf(r), r.group)
      {
        var i :| 0 <= i < |after| && after[i] == r;
        PostedAt(before, add, i);
        OrElseNothing(add.caption);
        if !HasKey(front, KeyOf(r)) {
          AbsentKey(front, KeyOf(r));
        }
        if KeyOf(r) != KeyOf(add) || HasKey(before, KeyOf(add)) {
          assert before[i] in before;
        }
        OpenedSnoc(front, add, KeyOf(r), r.group);
      }
    }
  }

  lemma OrElseNothing(a: string)
    ensures OrElse(a, "") == a
  {
  }

  lemma KeysSnoc(rows: seq<Row>, add: Row)
    ensures forall key :: HasKey(rows + [add], key) <==> HasKey(rows, key) || key == KeyOf(add)
  {
    forall key ensures HasKey(rows + [add], key) <==> HasKey(rows, key) || key == KeyOf(add) {
      assert (rows + [add])[|rows|] == add;
      if i :| 0 <= i < |rows| && KeyOf(rows[i]) == key {
        assert KeyOf((rows + [add])[i]) == key;
      }
    }
  }

  lemma {:induction false} AbsentKey(entries: seq<Row>, key: string)
    requires !HasKey(entries, key)
    ensures forall f :: FieldAt(entries, key, f) == 0.0
    ensures forall qty :: CountAt(entries, key, qty) == 0
    ensures CaptionAt(entries, key) == ""
  {
    if entries != [] {
      var front := entries[..|entries| - 1];
      assert entries == front + [entries[|entries| - 1]];
      KeysSnoc(front, entries[|entries| - 1]);
      AbsentKey(front, key);
    }
  }

  function TenderOf(o: Order, f: Field): real {
    match f
    case RevenueOf => 0.0
    case CashOf => o.cash
    case CardOf => o.card
    case OnlineOf => o.online
  }

  function TargetsOf(tz: Zone, o: Order): seq<Target> {
    ReportTargets(tz, o.paidAt, o.createdAt, o.eventStart)
  }

  function GroupOf(o: Order, target: Target, b: Bucket): Group {
    Group(b.cafeId, o.eventId, target.day, target.basis)
  }

  function AgentRow(tz: Zone, o: Order, target: Target, b: Bucket, i: nat, cash: real, card: real): (r: Row)
    requires i < |b.agents|
  {
    var agent := b.agents[i];
    var agentRatio := Ratio(agent.revenue, b.revenue);
    Row(GroupOf(o, target, b), DayText(target.day, tz), [agent.key, o.paymentMode, o.currency], "",
        1, agent.qty, agent.revenue, cash * agentRatio, card * agentRatio, 0.0)
  }

  function DailyRow(tz: Zone, o: Order, target: Target, b: Bucket, share: real, revenue: real): Row {
    var tenderRatio := share * Ratio(b.revenue, revenue);
    Row(GroupOf(o, target, b), DayText(target.day, tz), [o.paymentMode, o.currency], "",
        1, b.qty, b.revenue, o.cash * tenderRatio, o.card * tenderRatio, o.online * tenderRatio)
  }

  function ItemRow(tz: Zone, o: Order, target: Target, b: Bucket, i: nat): Row
    requires i < |b.items|
  {
    var item := b.items[i];
    Row(GroupOf(o, target, b), DayText(target.day, tz), [item.key, o.currency], item.caption,
        1, item.qty, item.revenue, 0.0, 0.0, 0.0)
  }

  datatype Table = Daily | Agents | Items

  function AgentRows(tz: Zone, o: Order, target: Target, b: Bucket, n: nat, cash: real, card: real): seq<Row>
    requires n <= |b.agents|
  {
    if n == 0 then []
    else AgentRows(tz, o, target, b, n - 1, cash, card) + [AgentRow(tz, o, target, b, n - 1, cash, card)]
  }

  function ItemRows(tz: Zone, o: Order, target: Target, b: Bucket, n: nat): seq<Row>
    requires n <= |b.items|
  {
    if n == 0 then [] else ItemRows(tz, o, target, b, n - 1) + [ItemRow(tz, o, target, b, n - 1)]
  }

  // What one bucket of an order adds to an accumulator for one report basis.
  function BucketRows(table: Table, tz: Zone, o: Order, target: Target, b: Bucket, share: real, revenue: real)
    : seq<Row>
  {
    var row := DailyRow(tz, o, target, b, share, revenue);
    match table
    case Daily => [row]
    case Agents => AgentRows(tz, o, target, b, |b.agents|, row.cash, row.card)
    case Items => ItemRows(tz, o, target, b, |b.items|)
  }

  function TargetRows(table: Table, tz: Zone, o: Order, target: Target, buckets: seq<Bucket>, share: real,
                      revenue: real): seq<Row>
  {
    if buckets == [] then []
    else
      TargetRows(table, tz, o, target, buckets[..|buckets| - 1], share, revenue)
      + BucketRows(table, tz, o, target, buckets[|buckets| - 1], share, revenue)
  }

  function RowsOver(table: Table, tz: Zone, o: Order, targets: seq<Target>, buckets: seq<Bucket>, share: real,
                    revenue: real): seq<Row>
  {
    if targets == [] then []
    else
      RowsOver(table, tz, o, targets[..|targets| - 1], buckets, share, revenue)
      + TargetRows(table, tz, o, targets[|targets| - 1], buckets, share, revenue)
  }

  // What an order adds: its net buckets, with tenders in the cafe share, once per report basis.
  function OrderRows(table: Table, tz: Zone, o: Order, menu: map<string, string>): seq<Row> {
    var buckets := NetOf(o, menu);
    RowsOver(table, tz, o, TargetsOf(tz, o), buckets, CafeShare(o, Revenue(buckets)), Revenue(buckets))
  }

  function AllRows(table: Table, tz: Zone, orders: seq<Order>, menu: map<string, string>): seq<Row> {
    if orders == [] then []
    else AllRows(table, tz, orders[..|orders| - 1], menu) + OrderRows(table, tz, orders[|orders| - 1], menu)
  }

  lemma PostNothing(rows: seq<Row>)
    ensures PostAll(rows, []) == rows
  {
  }

  lemma PostOne(rows: seq<Row>, add: Row)
    ensures PostAll(rows, [add]) == Posted(rows, add)
  {
    assert [add][..0] == [];
  }

  // ----- selections of cafes, events, days and bases

  ghost function Counted(r: Row, p: Group -> bool, f: Field): real {
    if p(r.group) then At(r, f) else 0.0
  }

  // The total of a field over the rows of the groups that satisfy `p`.
  ghost function Sum(rows: seq<Row>, p: Group -> bool, f: Field): real {
    if rows == [] then 0.0 else Counted(rows[0], p, f) + Sum(rows[1..], p, f)
  }

  lemma {:induction false} SumSplits(a: seq<Row>, b: seq<Row>, p: Group -> bool, f: Field)
    ensures Sum(a + b, p, f) == Sum(a, p, f) + Sum(b, p, f)
  {
    if a == [] {
      assert a + b == b;
    } else {
      assert (a + b)[1..] == a[1..] + b;
      SumSplits(a[1..], b, p, f);
    }
  }

  lemma SumOne(r: Row, p: Group -> bool, f: Field)
    ensures Sum([r], p, f) == Counted(r, p, f) && Sum([], p, f) == 0.0
  {
  }

  // The joined keys tell whether a row is selected.
  ghost predicate Told(rows: seq<Row>, p: Group -> bool, keys: string -> bool) {
    forall r | r in rows :: p(r.group) == keys(KeyOf(r))
  }

  lemma {:induction false} PostedSum(rows: seq<Row>, add: Row, p: Group -> bool, keys: string -> bool, f: Field)
    requires Told(rows, p, keys) && Told([add], p, keys)
    ensures Told(Posted(rows, add), p, keys)
    ensures Sum(Posted(rows, add), p, f) == Sum(rows, p, f) + Counted(add, p, f)
  {
    hide KeyOf, OrElse;
    assert add in [add];
    if rows != [] {
      assert rows[0] in rows;
      assert Told(rows[1..], p, keys);
      if KeyOf(rows[0]) != KeyOf(add) {
        PostedSum(rows[1..], add, p, keys, f);
      } else {
        MergedKeeps(rows[0], add);
        assert Posted(rows, add)[1..] == rows[1..];
      }
    }
  }

  // An accumulator totals what its entries total, over every selection its keys tell.
  lemma {:induction false} PostAllSum(entries: seq<Row>, p: Group -> bool, keys: string -> bool, f: Field)
    requires Told(entries, p, keys)
    ensures Told(PostAll([], entries), p, keys)
    ensures Sum(PostAll([], entries), p, f) == Sum(entries, p, f)
  {
    hide KeyOf, Posted;
    if entries != [] {
      var front, add := entries[..|entries| - 1], entries[|entries| - 1];
      PostAllSum(front, p, keys, f);
      assert entries == front + [add];
      PostedSum(PostAll([], front), add, p, keys, f);
      SumSplits(front, [add], p, f);
      SumOne(add, p, f);
    }
  }

  predicate PlainRow(r: Row) {
    && RollupRows.Plain(r.group.cafe) && RollupRows.Plain(r.group.event) && RollupRows.Plain(r.group.basis)
    && RollupRows.Plain(r.dayKey) && r.rest != []
  }

  lemma JoinFour(r: Row)
    requires r.rest != []
    ensures var tail := RollupRows.Join(r.rest);
      KeyOf(r) == r.group.cafe + "|" + (r.group.event + "|" + (r.dayKey + "|" + (r.group.basis + "|" + tail)))
  {
    var g := r.group;
    JoinCons(g.basis, r.rest);
    JoinCons(r.dayKey, [g.basis] + r.rest);
    JoinCons(g.event, [r.dayKey] + ([g.basis] + r.rest));
    JoinCons(g.cafe, [g.event] + ([r.dayKey] + ([g.basis] + r.rest)));
    assert [g.cafe, g.event, r.dayKey, g.basis] + r.rest ==
           [g.cafe] + ([g.event] + ([r.dayKey] + ([g.basis] + r.rest)));
  }

  lemma JoinCons(first: string, parts: seq<string>)
    requires parts != []
    ensures RollupRows.Join([first] + parts) == first + "|" + RollupRows.Join(parts)
  {
    assert ([first] + parts)[1..] == parts;
  }

  // Whatever the agent, item, payment mode and currency hold, one key has one cafe, event, day text and basis.
  lemma SameParts(a: Row, b: Row)
    requires PlainRow(a) && PlainRow(b) && KeyOf(a) == KeyOf(b)
    ensures a.group == b.group.(day := a.group.day) && a.dayKey == b.dayKey
    ensures RollupRows.Join(a.rest) == RollupRows.Join(b.rest)
  {
    hide KeyOf;
    JoinFour(a);
    JoinFour(b);
    var x, y, d, e := a.group, b.group, a.dayKey, b.dayKey;
    var s, t := RollupRows.Join(a.rest), RollupRows.Join(b.rest);
    RollupRows.SplitFirst(x.cafe, x.event + "|" + (d + "|" + (x.basis + "|" + s)),
                          y.cafe, y.event + "|" + (e + "|" + (y.basis + "|" + t)));
    RollupRows.SplitFirst(x.event, d + "|" + (x.basis + "|" + s), y.event, e + "|" + (y.basis + "|" + t));
    RollupRows.SplitFirst(d, x.basis + "|" + s, e, y.basis + "|" + t);
    RollupRows.SplitFirst(x.basis, s, y.basis, t);
  }

  // The day text of each row is that of its report day.
  ghost predicate Dated(rows: seq<Row>, tz: Zone) {
    forall r | r in rows :: PlainRow(r) && r.dayKey == DayText(r.group.day, tz)
  }

  // The selection does not tell days apart that have one text.
  ghost predicate ByText(tz: Zone, p: Group -> bool) {
    forall g: Group, day: int | DayText(day, tz) == DayText(g.day, tz) :: p(g.(day := day)) == p(g)
  }

  ghost function KeysOf(rows: seq<Row>, p: Group -> bool): string -> bool {
    key => exists r: Row :: r in rows && KeyOf(r) == key && p(r.group)
  }

  lemma DatedTold(rows: seq<Row>, tz: Zone, p: Group -> bool)
    requires Dated(rows, tz) && ByText(tz, p)
    ensures Told(rows, p, KeysOf(rows, p))
  {
    hide KeyOf, PlainRow, DayText;
    forall r | r in rows ensures p(r.group) == KeysOf(rows, p)(KeyOf(r)) {
      if KeysOf(rows, p)(KeyOf(r)) {
        var s: Row :| s in rows && KeyOf(s) == KeyOf(r) && p(s.group);
        SameParts(r, s);
        assert p(r.group.(day := s.group.day)) == p(r.group);
      }
    }
  }

  // The identifiers that select rows hold no separator.
  predicate PlainIds(o: Order, menu: map<string, string>) {
    && RollupRows.Plain(o.eventId)
    && (forall item | item in o.items :: RollupRows.Plain(CafeOf(o, menu, item)))
  }

  predicate PlainCafes(buckets: seq<Bucket>) {
    forall b | b in buckets :: RollupRows.Plain(b.cafeId)
  }

  lemma {:induction false} LineAddedPlain(buckets: seq<Bucket>, cafe: string, o: Order, item: Line)
    requires PlainCafes(buckets) && RollupRows.Plain(cafe)
    ensures PlainCafes(LineAdded(buckets, cafe, o, item))
  {
    if buckets != [] && buckets[0].cafeId != cafe {
      LineAddedPlain(buckets[1..], cafe, o, item);
    }
  }

  lemma {:induction false} BucketsPlain(o: Order, menu: map<string, string>, n: nat)
    requires PlainIds(o, menu) && n <= |o.items|
    ensures PlainCafes(BucketsOf(o, menu, n))
  {
    hide LineAdded, CafeOf, IsCafeLine;
    if n > 0 {
      BucketsPlain(o, menu, n - 1);
      LineAddedPlain(BucketsOf(o, menu, n - 1), CafeOf(o, menu, o.items[n - 1]), o, o.items[n - 1]);
    }
  }

  lemma NetPlain(o: Order, menu: map<string, string>)
    requires PlainIds(o, menu)
    ensures PlainCafes(NetOf(o, menu))
  {
    hide BucketsOf, CafePromo, Larger, Revenue;
    BucketsPlain(o, menu, |o.items|);
  }

  lemma {:induction false} AgentRowsOf(tz: Zone, o: Order, target: Target, b: Bucket, n: nat, cash: real, card: real)
    requires n <= |b.agents|
    ensures forall r | r in AgentRows(tz, o, target, b, n, cash, card) ::
      r.group == GroupOf(o, target, b) && r.dayKey == DayText(target.day, tz) && r.rest != []
  {
    hide DayText;
    if n > 0 {
      AgentRowsOf(tz, o, target, b, n - 1, cash, card);
    }
  }

  lemma {:induction false} ItemRowsOf(tz: Zone, o: Order, target: Target, b: Bucket, n: nat)
    requires n <= |b.items|
    ensures forall r | r in ItemRows(tz, o, target, b, n) ::
      r.group == GroupOf(o, target, b) && r.dayKey == DayText(target.day, tz) && r.rest != []
  {
    hide DayText;
    if n > 0 {
      ItemRowsOf(tz, o, target, b, n - 1);
    }
  }

  lemma BucketRowsDated(table: Table, tz: Zone, o: Order, target: Target, b: Bucket, share: real, revenue: real)
    requires PlainDays(tz)
    requires RollupRows.Plain(b.cafeId) && RollupRows.Plain(o.eventId) && RollupRows.Plain(target.basis)
    ensures Dated(BucketRows(table, tz, o, target, b, share, revenue), tz)
  {
    var row := DailyRow(tz, o, target, b, share, revenue);
    AgentRowsOf(tz, o, target, b, |b.agents|, row.cash, row.card);
    ItemRowsOf(tz, o, target, b, |b.items|);
    hide AgentRows, ItemRows;
  }

  lemma {:induction false} TargetRowsDated(table: Table, tz: Zone, o: Order, target: Target, buckets: seq<Bucket>,
                                           share: real, revenue: real)
    requires PlainDays(tz) && PlainCafes(buckets) && RollupRows.Plain(o.eventId) && RollupRows.Plain(target.basis)
    ensures Dated(TargetRows(table, tz, o, target, buckets, share, revenue), tz)
  {
    hide BucketRows, PlainRow, PlainDays, DayText;
    if buckets != [] {
      TargetRowsDated(table, tz, o, target, buckets[..|buckets| - 1], share, revenue);
      BucketRowsDated(table, tz, o, target, buckets[|buckets| - 1], share, revenue);
    }
  }

  lemma {:induction false} RowsOverDated(table: Table, tz: Zone, o: Order, targets: seq<Target>, buckets: seq<Bucket>,
                                         share: real, revenue: real)
    requires PlainDays(tz) && PlainCafes(buckets) && RollupRows.Plain(o.eventId)
    requires forall t | t in targets :: RollupRows.Plain(t.basis)
    ensures Dated(RowsOver(table, tz, o, targets, buckets, share, revenue), tz)
  {
    hide TargetRows, PlainRow, PlainDays, DayText;
    if targets != [] {
      RowsOverDated(table, tz, o, targets[..|targets| - 1], buckets, share, revenue);
      TargetRowsDated(table, tz, o, targets[|targets| - 1], buckets, share, revenue);
    }
  }

  lemma BasesPlain(tz: Zone, o: Order)
    ensures forall t | t in TargetsOf(tz, o) :: RollupRows.Plain(t.basis)
  {
  }

  lemma {:induction false} AllRowsDated(table: Table, tz: Zone, orders: seq<Order>, menu: map<string, string>)
    requires PlainDays(tz) && forall o | o in orders :: PlainIds(o, menu)
    ensures Dated(AllRows(table, tz, orders, menu), tz)
  {
    hide NetOf, CafeShare, Revenue, RowsOver, PlainRow, PlainDays, DayText, TargetsOf;
    if orders != [] {
      var o := orders[|orders| - 1];
      AllRowsDated(table, tz, orders[..|orders| - 1], menu);
      NetPlain(o, menu);
      BasesPlain(tz, o);
      var buckets := NetOf(o, menu);
      RowsOverDated(table, tz, o, TargetsOf(tz, o), buckets, CafeShare(o, Revenue(buckets)), Revenue(buckets));
    }
  }

  ghost predicate AllPlainIds(orders: seq<Order>, menu: map<string, string>) {
    forall o | o in orders :: PlainIds(o, menu)
  }

  // A selection that the keys tell: that of all groups, and, when identifiers and day texts hold no separator, each
  // that tells no days apart of one text.
  ghost predicate Selectable(tz: Zone, orders: seq<Order>, menu: map<string, string>, p: Group -> bool) {
    (forall g: Group :: p(g)) || (PlainDays(tz) && AllPlainIds(orders, menu) && ByText(tz, p))
  }

  lemma SelectedSum(table: Table, tz: Zone, orders: seq<Order>, menu: map<string, string>, p: Group -> bool, f: Field)
    requires Selectable(tz, orders, menu, p)
    ensures Sum(PostAll([], AllRows(table, tz, orders, menu)), p, f) == Sum(AllRows(table, tz, orders, menu), p, f)
  {
    hide AllRows, PostAll, Sum, KeyOf, ByText, PlainDays, PlainIds, Dated;
    var entries := AllRows(table, tz, orders, menu);
    if forall g: Group :: p(g) {
      PostAllSum(entries, p, key => true, f);
    } else {
      AllRowsDated(table, tz, orders, menu);
      DatedTold(entries, tz, p);
      PostAllSum(entries, p, KeysOf(entries, p), f);
    }
  }

  // ----- the three tables agree

  // Items bring the revenue of their cafes; agents bring no more than their cafes.
  ghost predicate Agree(daily: seq<Row>, agents: seq<Row>, items: seq<Row>, p: Group -> bool) {
    && Sum(items, p, RevenueOf) == Sum(daily, p, RevenueOf)
    && forall f: Field | !f.OnlineOf? :: 0.0 <= Sum(agents, p, f) <= Sum(daily, p, f)
  }

  lemma AgreeTogether(d: seq<Row>, a: seq<Row>, i: seq<Row>, d': seq<Row>, a': seq<Row>, i': seq<Row>, p: Group -> bool)
    requires Agree(d, a, i, p) && Agree(d', a', i', p)
    ensures Agree(d + d', a + a', i + i', p)
  {
    hide Sum;
    SumSplits(i, i', p, RevenueOf);
    forall f {
      SumSplits(d, d', p, f);
    }
    forall f {
      SumSplits(a, a', p, f);
    }
  }

  lemma {:induction false} ItemRowsSum(tz: Zone, o: Order, target: Target, b: Bucket, n: nat, p: Group -> bool)
    requires n <= |b.items|
    ensures Sum(ItemRows(tz, o, target, b, n), p, RevenueOf) ==
            if p(GroupOf(o, target, b)) then PartsRevenue(b.items[..n]) else 0.0
  {
    hide PartsRevenue, Sum;
    PartsRevenueNone(b.items);
    if n == 0 {
      NoSum(p, RevenueOf);
    } else {
      ItemRowsSum(tz, o, target, b, n - 1, p);
      PartsRevenueSnoc(b.items, n - 1);
      SumSplits(ItemRows(tz, o, target, b, n - 1), [ItemRow(tz, o, target, b, n - 1)], p, RevenueOf);
      SumOne(ItemRow(tz, o, target, b, n - 1), p, RevenueOf);
    }
  }

  lemma NoSum(p: Group -> bool, f: Field)
    ensures Sum([], p, f) == 0.0
  {
  }

  // What the first `n` agents of a cafe are given of its revenue, cash or card.
  ghost function GivenTo(b: Bucket, n: nat, cash: real, card: real, f: Field): real
    requires n <= |b.agents| && !f.OnlineOf?
  {
    match f
    case RevenueOf => PartsRevenue(b.agents[..n])
    case CashOf => AgentsGiven(b, n, cash)
    case CardOf => AgentsGiven(b, n, card)
  }

  lemma GivenSnoc(tz: Zone, o: Order, target: Target, b: Bucket, n: nat, cash: real, card: real, f: Field)
    requires n < |b.agents| && !f.OnlineOf?
    ensures GivenTo(b, 0, cash, card, f) == 0.0
    ensures GivenTo(b, n + 1, cash, card, f) ==
            GivenTo(b, n, cash, card, f) + At(AgentRow(tz, o, target, b, n, cash, card), f)
  {
    PartsRevenueNone(b.agents);
    PartsRevenueSnoc(b.agents, n);
  }

  lemma {:induction false} AgentRowsSum(tz: Zone, o: Order, target: Target, b: Bucket, n: nat, cash: real, card: real,
                                        p: Group -> bool, f: Field)
    requires n <= |b.agents| && !f.OnlineOf?
    ensures Sum(AgentRows(tz, o, target, b, n, cash, card), p, f) ==
            if p(GroupOf(o, target, b)) then GivenTo(b, n, cash, card, f) else 0.0
  {
    hide PartsRevenue, Sum;
    if n == 0 {
      NoSum(p, f);
      PartsRevenueNone(b.agents);
    } else {
      hide GivenTo;
      AgentRowsSum(tz, o, target, b, n - 1, cash, card, p, f);
      GivenSnoc(tz, o, target, b, n - 1, cash, card, f);
      SumSplits(AgentRows(tz, o, target, b, n - 1, cash, card), [AgentRow(tz, o, target, b, n - 1, cash, card)], p, f);
      SumOne(AgentRow(tz, o, target, b, n - 1, cash, card), p, f);
    }
  }

  lemma GivenWithin(b: Bucket, row: Row, f: Field)
    requires Balanced(b) && row.revenue == b.revenue && 0.0 <= row.cash && 0.0 <= row.card && !f.OnlineOf?
    ensures 0.0 <= GivenTo(b, |b.agents|, row.cash, row.card, f) <= At(row, f)
  {
    hide PartsRevenue, AgentsGiven;
    assert b.agents[..|b.agents|] == b.agents;
    AgentsWithinCafe(b, row.cash);
    AgentsWithinCafe(b, row.card);
  }

  lemma BucketAgrees(tz: Zone, o: Order, target: Target, b: Bucket, share: real, revenue: real, p: Group -> bool)
    requires Balanced(b) && NonNegative(o) && 0.0 <= share && 0.0 <= revenue
    ensures Agree(BucketRows(Daily, tz, o, target, b, share, revenue),
                  BucketRows(Agents, tz, o, target, b, share, revenue),
                  BucketRows(Items, tz, o, target, b, share, revenue), p)
  {
    hide PartsRevenue, Sum, AgentsGiven, GivenTo, ItemRows, AgentRows;
    var row := DailyRow(tz, o, target, b, share, revenue);
    RatioNonNegative(share, b.revenue, revenue);
    NonNegativeProduct(o.cash, share * Ratio(b.revenue, revenue));
    NonNegativeProduct(o.card, share * Ratio(b.revenue, revenue));
    ItemRowsSum(tz, o, target, b, |b.items|, p);
    assert b.items[..|b.items|] == b.items;
    SumOne(row, p, RevenueOf);
    forall f: Field | !f.OnlineOf?
      ensures 0.0 <= Sum(BucketRows(Agents, tz, o, target, b, share, revenue), p, f) <= Sum([row], p, f)
    {
      AgentRowsSum(tz, o, target, b, |b.agents|, row.cash, row.card, p, f);
      GivenWithin(b, row, f);
      SumOne(row, p, f);
    }
  }

  lemma NothingAgrees(p: Group -> bool)
    ensures Agree([], [], [], p)
  {
  }

  lemma {:induction false} TargetAgrees(tz: Zone, o: Order, target: Target, buckets: seq<Bucket>, share: real,
                                        revenue: real, p: Group -> bool)
    requires AllBalanced(buckets) && NonNegative(o) && 0.0 <= share && 0.0 <= revenue
    ensures Agree(TargetRows(Daily, tz, o, target, buckets, share, revenue),
                  TargetRows(Agents, tz, o, target, buckets, share, revenue),
                  TargetRows(Items, tz, o, target, buckets, share, revenue), p)
  {
    hide Agree, BucketRows, Balanced, NonNegative;
    if buckets == [] {
      NothingAgrees(p);
    } else {
      var front, b := buckets[..|buckets| - 1], buckets[|buckets| - 1];
      TargetAgrees(tz, o, target, front, share, revenue, p);
      BucketAgrees(tz, o, target, b, share, revenue, p);
      AgreeTogether(TargetRows(Daily, tz, o, target, front, share, revenue),
                    TargetRows(Agents, tz, o, target, front, share, revenue),
                    TargetRows(Items, tz, o, target, front, share, revenue),
                    BucketRows(Daily, tz, o, target, b, share, revenue),
                    BucketRows(Agents, tz, o, target, b, share, revenue),
                    BucketRows(Items, tz, o, target, b, share, revenue), p);
    }
  }

  lemma {:induction false} RowsOverAgree(tz: Zone, o: Order, targets: seq<Target>, buckets: seq<Bucket>, share: real,
                                         revenue: real, p: Group -> bool)
    requires AllBalanced(buckets) && NonNegative(o) && 0.0 <= share && 0.0 <= revenue
    ensures Agree(RowsOver(Daily, tz, o, targets, buckets, share, revenue),
                  RowsOver(Agents, tz, o, targets, buckets, share, revenue),
                  RowsOver(Items, tz, o, targets, buckets, share, revenue), p)
  {
    hide Agree, TargetRows, AllBalanced, NonNegative;
    if targets == [] {
      NothingAgrees(p);
    } else {
      var front, target := targets[..|targets| - 1], targets[|targets| - 1];
      RowsOverAgree(tz, o, front, buckets, share, revenue, p);
      TargetAgrees(tz, o, target, buckets, share, revenue, p);
      AgreeTogether(RowsOver(Daily, tz, o, front, buckets, share, revenue),
                    RowsOver(Agents, tz, o, front, buckets, share, revenue),
                    RowsOver(Items, tz, o, front, buckets, share, revenue),
                    TargetRows(Daily, tz, o, target, buckets, share, revenue),
                    TargetRows(Agents, tz, o, target, buckets, share, revenue),
                    TargetRows(Items, tz, o, target, buckets, share, revenue), p);
    }
  }

  lemma {:induction false} EntriesAgree(tz: Zone, orders: seq<Order>, menu: map<string, string>, p: Group -> bool)
    requires forall o | o in orders :: NonNegative(o)
    ensures Agree(AllRows(Daily, tz, orders, menu), AllRows(Agents, tz, orders, menu),
                  AllRows(Items, tz, orders, menu), p)
  {
    hide Agree, RowsOver, AllBalanced, NonNegative, NetOf, Revenue, CafeShare, DistinctCafes;
    if orders == [] {
      NothingAgrees(p);
    } else {
      var front, o := orders[..|orders| - 1], orders[|orders| - 1];
      EntriesAgree(tz, front, menu, p);
      var buckets := NetOf(o, menu);
      NetOfIs(o, menu);
      RevenueNonNegative(buckets);
      ShareBounds(o, Revenue(buckets));
      RowsOverAgree(tz, o, TargetsOf(tz, o), buckets, CafeShare(o, Revenue(buckets)), Revenue(buckets), p);
      AgreeTogether(AllRows(Daily, tz, front, menu), AllRows(Agents, tz, front, menu), AllRows(Items, tz, front, menu),
                    OrderRows(Daily, tz, o, menu), OrderRows(Agents, tz, o, menu), OrderRows(Items, tz, o, menu), p);
    }
  }

  function Rolled(table: Table, tz: Zone, orders: seq<Order>, menu: map<string, string>): seq<Row> {
    PostAll([], AllRows(table, tz, orders, menu))
  }

  // For each selection of cafes, events, days and bases, item revenue is cafe revenue, and agents have no more revenue,
  // cash or card than their cafes.
  lemma TablesAgree(tz: Zone, orders: seq<Order>, menu: map<string, string>, p: Group -> bool)
    requires (forall o | o in orders :: NonNegative(o)) && Selectable(tz, orders, menu, p)
    ensures Agree(Rolled(Daily, tz, orders, menu), Rolled(Agents, tz, orders, menu), Rolled(Items, tz, orders, menu), p)
  {
    hide AllRows, PostAll, Sum, NonNegative, Selectable;
    EntriesAgree(tz, orders, menu, p);
    SelectedSum(Items, tz, orders, menu, p, RevenueOf);
    forall f {
      SelectedSum(Daily, tz, orders, menu, p, f);
    }
    forall f {
      SelectedSum(Agents, tz, orders, menu, p, f);
    }
  }

  // ----- selections by stored day

  ghost predicate Ordinary(orders: seq<Order>, menu: map<string, string>) {
    Paging.ById(orders, IdOf) && (forall o | o in orders :: NonNegative(o)) && AllPlainIds(orders, menu)
  }

  // The tables agree over every selection, also one that tells apart days of one text, whatever the orders.
  ghost predicate AlwaysAgree(tz: Zone) {
    forall orders: seq<Order>, menu: map<string, string>, p: Group -> bool | Ordinary(orders, menu) ::
      Agree(Rolled(Daily, tz, orders, menu), Rolled(Agents, tz, orders, menu), Rolled(Items, tz, orders, menu), p)
  }

  function Coffee(first: bool): string {
    if first then "x" else "y"
  }

  // The first or second coffee sold, each of its own kind, at cafe c for an event on the day.
  function Sale(day: int, first: bool): Order {
    Order(if first then 0 else 1, "e", "", "", 1.0, 0.0, 0.0, 0.0, 0.0, None, false, Some("c"), None,
          Some(0), 0, Some(Midnight(day)), [Line(Coffee(first), true, false, false, "", 1, 1.0, None)])
  }

  function TwoSales(day: int): seq<Order> {
    [Sale(day, true), Sale(day + 1, false)]
  }

  function SaleBucket(first: bool): Bucket {
    Bucket("c", 1.0, 1, [], [Part(Coffee(first), "", 1.0, 1)])
  }

  lemma SaleNet(day: int, first: bool)
    ensures NetOf(Sale(day, first), map[]) == [SaleBucket(first)]
  {
    var o := Sale(day, first);
    var buckets := BucketsOf(o, map[], 1);
    assert BucketsOf(o, map[], 0) == [];
    assert buckets == LineAdded([], "c", o, o.items[0]) == [SaleBucket(first)];
  }

  lemma SaleRows(table: Table, tz: Zone, day: int, first: bool)
    ensures var o, share := Sale(day, first), CafeShare(Sale(day, first), 1.0);
      var sold, seen := Target(CalendarDay(0, tz.offset), "trx"), Target(day, "event");
      OrderRows(table, tz, o, map[]) ==
        BucketRows(table, tz, o, sold, SaleBucket(first), share, 1.0) +
        BucketRows(table, tz, o, seen, SaleBucket(first), share, 1.0)
  {
    hide BucketRows, CafeShare, NetOf;
    var o, share, b := Sale(day, first), CafeShare(Sale(day, first), 1.0), SaleBucket(first);
    var sold, seen := Target(CalendarDay(0, tz.offset), "trx"), Target(day, "event");
    SaleNet(day, first);
    assert Revenue([b]) == 1.0;
    assert TargetsOf(tz, o) == [sold, seen] && [sold, seen][..1] == [sold] && [sold][..0] == [] && [b][..0] == [];
    assert TargetRows(table, tz, o, sold, [b], share, 1.0) == BucketRows(table, tz, o, sold, b, share, 1.0);
    assert TargetRows(table, tz, o, seen, [b], share, 1.0) == BucketRows(table, tz, o, seen, b, share, 1.0);
    assert RowsOver(table, tz, o, [sold], [b], share, 1.0) == BucketRows(table, tz, o, sold, b, share, 1.0);
  }

  // The two rows that a sale posts to a table, for its own day and for that of the event.
  function SaleRow(table: Table, tz: Zone, day: int, first: bool, byEvent: bool): Row
    requires !table.Agents?
  {
    var o, share := Sale(day, first), CafeShare(Sale(day, first), 1.0);
    var target := if byEvent then Target(day, "event") else Target(CalendarDay(0, tz.offset), "trx");
    if table.Daily? then DailyRow(tz, o, target, SaleBucket(first), share, 1.0)
    else ItemRow(tz, o, target, SaleBucket(first), 0)
  }

  lemma TwoSaleRows(table: Table, tz: Zone, day: int)
    requires !table.Agents?
    ensures AllRows(table, tz, TwoSales(day), map[]) ==
      [SaleRow(table, tz, day, true, false), SaleRow(table, tz, day, true, true),
       SaleRow(table, tz, day + 1, false, false), SaleRow(table, tz, day + 1, false, true)]
  {
    hide CafeShare, OrderRows;
    var x, y := Sale(day, true), Sale(day + 1, false);
    assert [x, y][..1] == [x] && [x][..0] == [];
    SaleRows(table, tz, day, true);
    SaleRows(table, tz, day + 1, false);
    assert AllRows(table, tz, [x], map[]) == [] + OrderRows(table, tz, x, map[]);
    OneItemRow(tz, day, true);
    OneItemRow(tz, day + 1, false);
  }

  lemma OneItemRow(tz: Zone, day: int, first: bool)
    ensures forall target: Target ::
      ItemRows(tz, Sale(day, first), target, SaleBucket(first), 1) ==
        [ItemRow(tz, Sale(day, first), target, SaleBucket(first), 0)]
  {
  }

  function OnEventDay(day: int): Group -> bool {
    (g: Group) => g.day == day && g.basis == "event"
  }

  lemma SalesOrdinary(day: int)
    ensures Ordinary(TwoSales(day), map[])
  {
  }

  lemma SaleRowParts(table: Table, tz: Zone, day: int, first: bool, byEvent: bool)
    requires !table.Agents?
    ensures var r, own := SaleRow(table, tz, day, first, byEvent), if byEvent then day else CalendarDay(0, tz.offset);
      && r.group == Group("c", "e", own, if byEvent then "event" else "trx")
      && r.dayKey == DayText(own, tz) && At(r, RevenueOf) == 1.0
      && r.rest == (if table.Daily? then ["", ""] else [Coffee(first), ""])
      && (PlainDays(tz) ==> PlainRow(r))
  {
    hide CafeShare;
  }

  // The coffees are different items, so their item rows stay apart.
  lemma LaterItemKey(tz: Zone, day: int, other: int, first: bool, byEvent: bool)
    requires PlainDays(tz) && (!byEvent || first)
    ensures KeyOf(SaleRow(Items, tz, other, first, byEvent)) != KeyOf(SaleRow(Items, tz, day, false, true))
  {
    var r, last := SaleRow(Items, tz, other, first, byEvent), SaleRow(Items, tz, day, false, true);
    SaleRowParts(Items, tz, other, first, byEvent);
    SaleRowParts(Items, tz, day, false, true);
    hide KeyOf, SaleRow, DayText, PlainDays;
    assert RollupRows.Join(["x", ""])[0] == 'x' && RollupRows.Join(["y", ""])[0] == 'y';
    if KeyOf(r) == KeyOf(last) {
      SameParts(r, last);
    }
  }

  lemma LaterItemSold(tz: Zone, day: int)
    requires PlainDays(tz)
    ensures Sum(Rolled(Items, tz, TwoSales(day), map[]), OnEventDay(day + 1), RevenueOf) == 1.0
  {
    hide KeyOf, DayText, PostAll, SaleRow, AllRows, Sale, PlainDays;
    var p, last := OnEventDay(day + 1), SaleRow(Items, tz, day + 1, false, true);
    var a, b := SaleRow(Items, tz, day, true, false), SaleRow(Items, tz, day, true, true);
    var c := SaleRow(Items, tz, day + 1, false, false);
    TwoSaleRows(Items, tz, day);
    LaterItemKey(tz, day + 1, day, true, false);
    LaterItemKey(tz, day + 1, day, true, true);
    LaterItemKey(tz, day + 1, day + 1, false, false);
    SaleRowParts(Items, tz, day, true, false);
    SaleRowParts(Items, tz, day, true, true);
    SaleRowParts(Items, tz, day + 1, false, false);
    SaleRowParts(Items, tz, day + 1, false, true);
    PostAllSum([a, b, c, last], p, key => key == KeyOf(last), RevenueOf);
    SumOfFour(a, b, c, last, p);
  }

  lemma SumOfFour(a: Row, b: Row, c: Row, d: Row, p: Group -> bool)
    ensures Sum([a, b, c, d], p, RevenueOf) ==
      Counted(a, p, RevenueOf) + Counted(b, p, RevenueOf) + Counted(c, p, RevenueOf) + Counted(d, p, RevenueOf)
  {
    hide Counted;
    SumOne(d, p, RevenueOf);
    assert [a, b, c, d][1..] == [b, c, d] && [b, c, d][1..] == [c, d] && [c, d][1..] == [d];
    assert Sum([c, d], p, RevenueOf) == Counted(c, p, RevenueOf) + Sum([d], p, RevenueOf);
    assert Sum([b, c, d], p, RevenueOf) == Counted(b, p, RevenueOf) + Sum([c, d], p, RevenueOf);
  }

  lemma {:induction false} SumNothing(rows: seq<Row>, p: Group -> bool, f: Field)
    requires forall r | r in rows :: !p(r.group)
    ensures Sum(rows, p, f) == 0.0
  {
    if rows != [] {
      SumNothing(rows[1..], p, f);
    }
  }

  // Their cafe rows have one key, and the row is stored under the day of the first.
  lemma LaterDayMissing(tz: Zone, day: int)
    requires DayText(day, tz) == DayText(day + 1, tz)
    ensures Sum(Rolled(Daily, tz, TwoSales(day), map[]), OnEventDay(day + 1), RevenueOf) == 0.0
  {
    hide DayText, PostAll, Sum, AllRows, SaleRow, Sale;
    var p, entries := OnEventDay(day + 1), AllRows(Daily, tz, TwoSales(day), map[]);
    TwoSaleRows(Daily, tz, day);
    SaleRowParts(Daily, tz, day, true, false);
    SaleRowParts(Daily, tz, day, true, true);
    SaleRowParts(Daily, tz, day + 1, false, false);
    SaleRowParts(Daily, tz, day + 1, false, true);
    assert KeyOf(entries[1]) == KeyOf(entries[3]);
    hide KeyOf;
    PostedIsGroupBy(entries);
    forall r | r in PostAll([], entries) ensures !p(r.group) {
      var i :| 0 <= i < |entries| && KeyOf(entries[i]) == KeyOf(r) && entries[i].group == r.group &&
        forall j | 0 <= j < i :: KeyOf(entries[j]) != KeyOf(r);
      assert i != 3;
    }
    SumNothing(PostAll([], entries), p, RevenueOf);
  }

  lemma WestDisagrees(tz: Zone, day: int)
    requires PlainDays(tz) && DayText(day, tz) == DayText(day + 1, tz)
    ensures var orders := TwoSales(day);
      && Ordinary(orders, map[])
      && !Agree(Rolled(Daily, tz, orders, map[]), Rolled(Agents, tz, orders, map[]), Rolled(Items, tz, orders, map[]),
                OnEventDay(day + 1))
  {
    hide Rolled, Sum, DayText, PlainDays;
    SalesOrdinary(day);
    LaterItemSold(tz, day);
    LaterDayMissing(tz, day);
  }

  // By stored day the tables agree whatever the orders exactly when the zone never goes west of Greenwich between the
  // midnights of two days.
  lemma AgreeByStoredDay(tz: Zone)
    requires Proper(tz)
    ensures AlwaysAgree(tz) <==> forall day :: !GoesWest(day, tz.offset)
  {
    hide Agree, Rolled, GoesWest, Stored, Ordinary, NearUtc, PlainDays;
    TellsDaysUnlessWest(tz);
    if TellsDays(tz) {
      forall orders: seq<Order>, menu: map<string, string>, p: Group -> bool | Ordinary(orders, menu)
        ensures Agree(Rolled(Daily, tz, orders, menu), Rolled(Agents, tz, orders, menu),
                      Rolled(Items, tz, orders, menu), p)
      {
        ToldApart(tz, p);
        OrdinarySelectable(tz, orders, menu, p);
        TablesAgree(tz, orders, menu, p);
      }
    }
    if day :| GoesWest(day, tz.offset) {
      StoredTogether(day, day + 1, tz.offset);
      WestDisagrees(tz, day);
      assert !AlwaysAgree(tz);
    }
  }

  lemma ToldApart(tz: Zone, p: Group -> bool)
    requires TellsDays(tz)
    ensures ByText(tz, p)
  {
    hide DayText;
    forall g: Group, day: int | DayText(day, tz) == DayText(g.day, tz) ensures g.(day := day) == g {
    }
  }

  lemma OrdinarySelectable(tz: Zone, orders: seq<Order>, menu: map<string, string>, p: Group -> bool)
    requires Ordinary(orders, menu) && Proper(tz) && ByText(tz, p)
    ensures (forall o | o in orders :: NonNegative(o)) && Selectable(tz, orders, menu, p)
  {
    hide NonNegative, PlainIds, ByText;
  }

  // The event pass stores the day it keys by, this pass the report day itself: rows of one order and report basis show
  // the same day exactly where the zone is not west of Greenwich at its midnight.
  lemma CafeAndEventDay(tz: Zone, o: Order, booked: EventRollups.Order, target: Target, b: Bucket, share: real,
                        revenue: real)
    requires Proper(tz)
    ensures var row := DailyRow(tz, o, target, b, share, revenue);
      EventRollups.DailyRow(tz, booked, target).dims[1] == tz.render(row.group.day) <==>
      0 <= tz.offset(Midnight(target.day))
  {
    hide Stored;
    StoredDay(target.day, tz.offset);
    assert NearUtc(target.day, tz.offset);
  }

  // ----- what the cafe rows hold, in terms of the orders

  // One cafe, or all, over some events, days and bases.
  ghost function Selects(only: Option<string>, q: (string, int, string) -> bool): Group -> bool {
    (g: Group) => (only.None? || only == Some(g.cafe)) && q(g.event, g.day, g.basis)
  }

  ghost function OfCafe(buckets: seq<Bucket>, only: Option<string>): real {
    if only.None? then Revenue(buckets) else RevenueAt(buckets, only.value)
  }

  // Revenue, or a tender in proportion to revenue.
  ghost function Due(o: Order, own: real, share: real, revenue: real, f: Field): real {
    if f.RevenueOf? then own else TenderOf(o, f) * (share * Ratio(own, revenue))
  }

  lemma RatioAdds(a: real, b: real, whole: real)
    ensures Ratio(a, whole) + Ratio(b, whole) == Ratio(a + b, whole) && Ratio(0.0, whole) == 0.0
  {
    if whole > 0.0 {
      var x, y, z := a / whole, b / whole, (a + b) / whole;
      assert x * whole == a && y * whole == b && z * whole == a + b;
      Distribute(x, y, whole);
      CancelRight(x + y, z, whole);
      assert 0.0 / whole * whole == 0.0 * whole;
      CancelRight(0.0 / whole, 0.0, whole);
    }
  }

  lemma DueAdds(o: Order, a: real, b: real, share: real, revenue: real, f: Field)
    ensures Due(o, a, share, revenue, f) + Due(o, b, share, revenue, f) == Due(o, a + b, share, revenue, f)
    ensures Due(o, 0.0, share, revenue, f) == 0.0
  {
    hide Ratio;
    RatioAdds(a, b, revenue);
    assert share * Ratio(0.0, revenue) == 0.0;
    DistributeLeft(share, Ratio(a, revenue), Ratio(b, revenue));
    DistributeLeft(TenderOf(o, f), share * Ratio(a, revenue), share * Ratio(b, revenue));
  }

  lemma {:induction false} OfCafeSnoc(rest: seq<Bucket>, b: Bucket, only: Option<string>)
    ensures OfCafe(rest + [b], only) ==
            OfCafe(rest, only) + if only.None? || only == Some(b.cafeId) then b.revenue else 0.0
  {
    if rest == [] {
      assert rest + [b] == [b];
    } else {
      OfCafeSnoc(rest[1..], b, only);
      assert (rest + [b])[1..] == rest[1..] + [b];
    }
  }

  lemma DailyRowDue(tz: Zone, o: Order, target: Target, b: Bucket, share: real, revenue: real, f: Field)
    ensures var row := DailyRow(tz, o, target, b, share, revenue);
      row.group == GroupOf(o, target, b) && At(row, f) == Due(o, b.revenue, share, revenue, f)
  {
  }

  lemma {:induction false} TargetSum(tz: Zone, o: Order, target: Target, buckets: seq<Bucket>, share: real,
                                     revenue: real, only: Option<string>, q: (string, int, string) -> bool, f: Field)
    ensures Sum(TargetRows(Daily, tz, o, target, buckets, share, revenue), Selects(only, q), f) ==
            if q(o.eventId, target.day, target.basis) then Due(o, OfCafe(buckets, only), share, revenue, f) else 0.0
  {
    hide Sum, OfCafe, Due, DailyRow;
    if buckets == [] {
      NoSum(Selects(only, q), f);
      DueAdds(o, 0.0, 0.0, share, revenue, f);
      NoCafe(only);
    } else {
      var front, b := buckets[..|buckets| - 1], buckets[|buckets| - 1];
      TargetSum(tz, o, target, front, share, revenue, only, q, f);
      var row := DailyRow(tz, o, target, b, share, revenue);
      SumSplits(TargetRows(Daily, tz, o, target, front, share, revenue), [row], Selects(only, q), f);
      SumOne(row, Selects(only, q), f);
      DailyRowDue(tz, o, target, b, share, revenue, f);
      assert buckets == front + [b];
      OfCafeSnoc(front, b, only);
      DueAdds(o, OfCafe(front, only), b.revenue, share, revenue, f);
    }
  }

  lemma NoCafe(only: Option<string>)
    ensures OfCafe([], only) == 0.0
  {
  }

  // The report bases of an order that are selected.
  function Hits(o: Order, targets: seq<Target>, q: (string, int, string) -> bool): nat {
    if targets == [] then 0
    else
      var last := targets[|targets| - 1];
      Hits(o, targets[..|targets| - 1], q) + if q(o.eventId, last.day, last.basis) then 1 else 0
  }

  function Times(n: nat, x: real): real {
    if n == 0 then 0.0 else Times(n - 1, x) + x
  }

  lemma {:induction false} RowsOverSum(tz: Zone, o: Order, targets: seq<Target>, buckets: seq<Bucket>, share: real,
                                       revenue: real, only: Option<string>, q: (string, int, string) -> bool,
                                       f: Field)
    ensures Sum(RowsOver(Daily, tz, o, targets, buckets, share, revenue), Selects(only, q), f) ==
            Times(Hits(o, targets, q), Due(o, OfCafe(buckets, only), share, revenue, f))
  {
    hide Sum, Due, OfCafe, TargetRows;
    if targets == [] {
      NoSum(Selects(only, q), f);
    } else {
      var front, target := targets[..|targets| - 1], targets[|targets| - 1];
      RowsOverSum(tz, o, front, buckets, share, revenue, only, q, f);
      TargetSum(tz, o, target, buckets, share, revenue, only, q, f);
      SumSplits(RowsOver(Daily, tz, o, front, buckets, share, revenue),
                TargetRows(Daily, tz, o, target, buckets, share, revenue), Selects(only, q), f);
    }
  }

  // Revenue, or the same part of a tender as the revenue is of the whole order.
  ghost function Owed(o: Order, own: real, net: real, f: Field): real {
    match f
    case RevenueOf => own
    case CashOf => PartOf(o.cash, own, Whole(o, net))
    case CardOf => PartOf(o.card, own, Whole(o, net))
    case OnlineOf => PartOf(o.online, own, Whole(o, net))
  }

  lemma DueIsOwed(o: Order, own: real, net: real, f: Field)
    requires 0.0 <= net && (net == 0.0 ==> own == 0.0)
    ensures Due(o, own, CafeShare(o, net), net, f) == Owed(o, own, net, f)
  {
    hide CafeShare, Ratio, Whole, PartOf;
    if !f.RevenueOf? {
      DueIs(o, TenderOf(o, f), own, net);
    }
  }

  // What one order brings to the rows of one cafe, or of all, per report basis; stated over the order alone.
  ghost function Gained(o: Order, menu: map<string, string>, only: Option<string>, f: Field): real {
    var net := NetTotal(o, menu);
    Owed(o, if only.None? then net else CafeNet(o, menu, only.value), net, f)
  }

  ghost function GainedOver(tz: Zone, orders: seq<Order>, menu: map<string, string>, only: Option<string>,
                            q: (string, int, string) -> bool, f: Field): real
  {
    if orders == [] then 0.0
    else
      var o := orders[|orders| - 1];
      GainedOver(tz, orders[..|orders| - 1], menu, only, q, f) +
      Times(Hits(o, TargetsOf(tz, o), q), Gained(o, menu, only, f))
  }

  lemma OrderSum(tz: Zone, o: Order, menu: map<string, string>, only: Option<string>, q: (string, int, string) -> bool,
                 f: Field)
    requires NonNegative(o)
    ensures Sum(OrderRows(Daily, tz, o, menu), Selects(only, q), f) ==
            Times(Hits(o, TargetsOf(tz, o), q), Gained(o, menu, only, f))
  {
    hide NetOf, Revenue, RevenueAt, CafeNet, CafeShare, Sum, RowsOver, NonNegative, Due, NetTotal;
    hide Hits, AllBalanced, DistinctCafes, Times, NetAt, Gained;
    var buckets := NetOf(o, menu);
    NetOfIs(o, menu);
    RowsOverSum(tz, o, TargetsOf(tz, o), buckets, CafeShare(o, Revenue(buckets)), Revenue(buckets), only, q, f);
    DueGained(o, menu, only, f);
  }

  lemma {:induction false} RevenueWithin(buckets: seq<Bucket>, cafe: string)
    requires AllBalanced(buckets)
    ensures 0.0 <= RevenueAt(buckets, cafe) <= Revenue(buckets)
  {
    if buckets != [] {
      assert Balanced(buckets[0]);
      RevenueWithin(buckets[1..], cafe);
    }
  }

  lemma DueGained(o: Order, menu: map<string, string>, only: Option<string>, f: Field)
    requires NonNegative(o)
    ensures var buckets := NetOf(o, menu);
      Due(o, OfCafe(buckets, only), CafeShare(o, Revenue(buckets)), Revenue(buckets), f) == Gained(o, menu, only, f)
  {
    hide NetOf, Revenue, RevenueAt, CafeNet, CafeShare, NonNegative, NetTotal, AllBalanced, NetAt, Due, Owed;
    var buckets := NetOf(o, menu);
    NetOfIs(o, menu);
    RevenueNonNegative(buckets);
    if only.Some? {
      RevenueWithin(buckets, only.value);
    }
    DueIsOwed(o, OfCafe(buckets, only), Revenue(buckets), f);
  }

  lemma {:induction false} EntriesSum(tz: Zone, orders: seq<Order>, menu: map<string, string>, only: Option<string>,
                                      q: (string, int, string) -> bool, f: Field)
    requires forall o | o in orders :: NonNegative(o)
    ensures Sum(AllRows(Daily, tz, orders, menu), Selects(only, q), f) == GainedOver(tz, orders, menu, only, q, f)
  {
    hide Sum, OrderRows, NonNegative, Gained, Hits, Times;
    if orders == [] {
      NoSum(Selects(only, q), f);
    } else {
      var front, o := orders[..|orders| - 1], orders[|orders| - 1];
      EntriesSum(tz, front, menu, only, q, f);
      OrderSum(tz, o, menu, only, q, f);
      SumSplits(AllRows(Daily, tz, front, menu), OrderRows(Daily, tz, o, menu), Selects(only, q), f);
    }
  }

  // The cafe rows of one cafe, or of all, over any events, days and bases hold what the orders bring to them.
  lemma DailyTotals(tz: Zone, orders: seq<Order>, menu: map<string, string>, only: Option<string>,
                    q: (string, int, string) -> bool, f: Field)
    requires forall o | o in orders :: NonNegative(o)
    requires Selectable(tz, orders, menu, Selects(only, q))
    ensures Sum(Rolled(Daily, tz, orders, menu), Selects(only, q), f) == GainedOver(tz, orders, menu, only, q, f)
  {
    hide AllRows, PostAll, Sum, NonNegative, Selectable, GainedOver, Selects;
    EntriesSum(tz, orders, menu, only, q, f);
    SelectedSum(Daily, tz, orders, menu, Selects(only, q), f);
  }

  // ----- the pass

  lemma NothingRolled(tz: Zone, menu: map<string, string>)
    ensures forall table :: Rolled(table, tz, [], menu) == []
  {
  }

  class CafePass {
    const tz: Zone
    var daily: seq<Row>
    var agents: seq<Row>
    var items: seq<Row>

    constructor (tz: Zone)
      ensures this.tz == tz && daily == [] && agents == [] && items == []
    {
      this.tz := tz;
      daily, agents, items := [], [], [];
    }

    function Rows(table: Table): seq<Row>
      reads this
    {
      match table
      case Daily => daily
      case Agents => agents
      case Items => items
    }

    method PostItems(o: Order, target: Target, b: Bucket)
      modifies `items
      ensures items == PostAll(old(items), ItemRows(tz, o, target, b, |b.items|))
    {
      hide Posted;
      PostNothing(items);
      for i := 0 to |b.items|
        invariant items == PostAll(old(items), ItemRows(tz, o, target, b, i))
      {
        var item := b.items[i];
        var row := Row(Group(b.cafeId, o.eventId, target.day, target.basis), DayText(target.day, tz),
                       [item.key, o.currency], item.caption,
                       1, item.qty, item.revenue, 0.0, 0.0, 0.0);
        PostAllSnoc(old(items), ItemRows(tz, o, target, b, i), row);
        items := Posted(items, row);
      }
    }

    method PostAgents(o: Order, target: Target, b: Bucket, cash: real, card: real)
      modifies `agents
      ensures agents == PostAll(old(agents), AgentRows(tz, o, target, b, |b.agents|, cash, card))
    {
      hide Posted, Ratio;
      PostNothing(agents);
      for i := 0 to |b.agents|
        invariant agents == PostAll(old(agents), AgentRows(tz, o, target, b, i, cash, card))
      {
        var agent := b.agents[i];
        var agentRatio := Ratio(agent.revenue, b.revenue);
        var row := Row(Group(b.cafeId, o.eventId, target.day, target.basis), DayText(target.day, tz),
                       [agent.key, o.paymentMode, o.currency], "",
                       1, agent.qty, agent.revenue, cash * agentRatio, card * agentRatio, 0.0);
        assert row == AgentRow(tz, o, target, b, i, cash, card);
        PostAllSnoc(old(agents), AgentRows(tz, o, target, b, i, cash, card), row);
        agents := Posted(agents, row);
      }
    }

    method PostDaily(o: Order, target: Target, b: Bucket, share: real, revenue: real) returns (row: Row)
      modifies `daily
      ensures row == DailyRow(tz, o, target, b, share, revenue) && daily == Posted(old(daily), row)
    {
      var cafeRatio := Ratio(b.revenue, revenue);
      var tenderRatio := share * cafeRatio;
      row := Row(Group(b.cafeId, o.eventId, target.day, target.basis), DayText(target.day, tz),
                 [o.paymentMode, o.currency], "",
                 1, b.qty, b.revenue, o.cash * tenderRatio, o.card * tenderRatio, o.online * tenderRatio);
      daily := Posted(daily, row);
    }

    method PostBucket(o: Order, target: Target, b: Bucket, share: real, revenue: real)
      modifies this
      ensures forall table ::
        Rows(table) == PostAll(old(Rows(table)), BucketRows(table, tz, o, target, b, share, revenue))
    {
      hide DailyRow, AgentRows, ItemRows, PostAll, Posted;
      var row := PostDaily(o, target, b, share, revenue);
      PostOne(old(daily), row);
      PostAgents(o, target, b, row.cash, row.card);
      PostItems(o, target, b);
    }

    method PostTarget(o: Order, target: Target, buckets: seq<Bucket>, share: real, revenue: real)
      modifies this
      ensures forall table ::
        Rows(table) == PostAll(old(Rows(table)), TargetRows(table, tz, o, target, buckets, share, revenue))
    {
      hide Posted, PostAll, BucketRows, Rows;
      forall table { PostNothing(Rows(table)); }
      for i := 0 to |buckets|
        invariant forall table ::
          Rows(table) == PostAll(old(Rows(table)), TargetRows(table, tz, o, target, buckets[..i], share, revenue))
      {
        assert buckets[..i + 1][..i] == buckets[..i];
        PostBucket(o, target, buckets[i], share, revenue);
        forall table
          ensures Rows(table) ==
            PostAll(old(Rows(table)), TargetRows(table, tz, o, target, buckets[..i + 1], share, revenue))
        {
          PostAllSplits(old(Rows(table)), TargetRows(table, tz, o, target, buckets[..i], share, revenue),
                        BucketRows(table, tz, o, target, buckets[i], share, revenue));
        }
      }
      assert buckets[..|buckets|] == buckets;
    }

    // Posts the net buckets of one order once per report basis.
    method PostOrder(o: Order, menu: map<string, string>)
      modifies this
      ensures forall table :: Rows(table) == PostAll(old(Rows(table)), OrderRows(table, tz, o, menu))
    {
      hide Posted, PostAll, TargetRows, Rows, NetOf, Revenue, CafeShare;
      var buckets := NetBuckets(o, menu);
      var revenue := Revenue(buckets);
      var share := CafeShare(o, revenue);
      forall table { PostNothing(Rows(table)); }
      for i := 0 to |TargetsOf(tz, o)|
        invariant forall table ::
          Rows(table) ==
            PostAll(old(Rows(table)), RowsOver(table, tz, o, TargetsOf(tz, o)[..i], buckets, share, revenue))
      {
        assert TargetsOf(tz, o)[..i + 1][..i] == TargetsOf(tz, o)[..i];
        PostTarget(o, TargetsOf(tz, o)[i], buckets, share, revenue);
        forall table
          ensures Rows(table) ==
            PostAll(old(Rows(table)), RowsOver(table, tz, o, TargetsOf(tz, o)[..i + 1], buckets, share, revenue))
        {
          PostAllSplits(old(Rows(table)), RowsOver(table, tz, o, TargetsOf(tz, o)[..i], buckets, share, revenue),
                        TargetRows(table, tz, o, TargetsOf(tz, o)[i], buckets, share, revenue));
        }
      }
      assert TargetsOf(tz, o)[..|TargetsOf(tz, o)|] == TargetsOf(tz, o);
    }

    // The orders of one page, in their order.
    method PostPage(page: seq<Order>, menu: map<string, string>, ghost posted: seq<Order>)
      requires forall table :: Rows(table) == Rolled(table, tz, posted, menu)
      modifies this
      ensures forall table :: Rows(table) == Rolled(table, tz, posted + page, menu)
    {
      hide Posted, PostAll, OrderRows;
      assert posted + page[..0] == posted;
      for i := 0 to |page|
        invariant forall table :: Rows(table) == Rolled(table, tz, posted + page[..i], menu)
      {
        ghost var before, after := posted + page[..i], posted + page[..i + 1];
        assert after == before + [page[i]] && after[..|after| - 1] == before;
        PostOrder(page[i], menu);
        forall table ensures Rows(table) == Rolled(table, tz, after, menu) {
          PostAllSplits([], AllRows(table, tz, before, menu), OrderRows(table, tz, page[i], menu));
        }
      }
      assert page[..|page|] == page;
    }

    // Reads the paid orders page by page. The accumulators end as the postings of all of them; the tables agree, and
    // the cafe rows hold what the orders bring, over every selection.
    method Rebuild(orders: seq<Order>, menu: map<string, string>)
      requires daily == [] && agents == [] && items == []
      requires Paging.ById(orders, IdOf) && forall o | o in orders :: NonNegative(o)
      modifies this
      ensures forall table :: Rows(table) == Rolled(table, tz, orders, menu)
      ensures forall p: Group -> bool | Selectable(tz, orders, menu, p) :: Agree(daily, agents, items, p)
      ensures forall only: Option<string>, q: (string, int, string) -> bool, f |
        only != Some("") && Selectable(tz, orders, menu, Selects(only, q)) ::
          Sum(daily, Selects(only, q), f) == GainedOver(tz, orders, menu, only, q, f)
    {
      hide Posted, PostAll, AllRows, Agree, Selectable, GainedOver, Sum, Selects, NonNegative, Paging.ById;
      NothingRolled(tz, menu);
      ghost var scanned: nat := 0;
      var cursor: Option<nat> := None;
      assert orders[..0] == [];
      while true
        invariant scanned <= |orders|
        invariant forall table :: Rows(table) == Rolled(table, tz, orders[..scanned], menu)
        invariant cursor == if scanned == 0 then None else Some(IdOf(orders[scanned - 1]))
        decreases |orders| - scanned
      {
        var page := Paging.FindMany(orders, IdOf, cursor, scanned);
        if |page| == 0 {
          break;
        }
        PostPage(page, menu, orders[..scanned]);
        assert orders[..scanned] + page == orders[..scanned + |page|];
        scanned := scanned + |page|;
        cursor := Some(IdOf(page[|page| - 1]));
      }
      assert orders[..|orders|] == orders;
      assert Rows(Daily) == daily && Rows(Agents) == agents && Rows(Items) == items;
      forall p: Group -> bool | Selectable(tz, orders, menu, p) ensures Agree(daily, agents, items, p) {
        TablesAgree(tz, orders, menu, p);
      }
      forall only: Option<string>, q: (string, int, string) -> bool, f |
        only != Some("") && Selectable(tz, orders, menu, Selects(only, q))
        ensures Sum(daily, Selects(only, q), f) == GainedOver(tz, orders, menu, only, q, f)
      {
        DailyTotals(tz, orders, menu, only, q, f);
      }
    }
  }
}
