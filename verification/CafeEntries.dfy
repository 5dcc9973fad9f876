/**
 What one paid order posts to the cafe tables, row by row and over the fields of the order: with the group-by of
 `CafeRollups.PostedIsGroupBy` this fixes every cell of the three tables.
 */
module CafeEntries {
  import opened Prelude
  import opened CafeBuckets
  import opened CafeRollups
  import opened ReportDays

  // A row of one report basis of an order: one for each cafe the order has lines of, for each agent of such a cafe, or
  // for each of its menu items. It counts one order, the lines' quantities and their revenue less the promo. Rows of
  // cafes and agents have the same part of the order's tenders as their revenue is of the whole order.
  ghost predicate Posts(table: Table, tz: Zone, o: Order, menu: map<string, string>, target: Target, r: Row) {
    var cafe, whole := r.group.cafe, Whole(o, NetTotal(o, menu));
    && CafeSold(o, menu, |o.items|, cafe) && r.group.event == o.eventId && r.orders == 1
    && r.group.day == target.day && r.group.basis == target.basis && r.dayKey == DayText(target.day, tz)
    && match table
       case Daily =>
         && r.rest == [o.paymentMode, o.currency] && r.caption == ""
         && r.qty == CafeQty(o, menu, |o.items|, cafe) && r.revenue == CafeNet(o, menu, cafe)
         && r.cash == PartOf(o.cash, r.revenue, whole) && r.card == PartOf(o.card, r.revenue, whole)
         && r.online == PartOf(o.online, r.revenue, whole)
       case Agents =>
         && |r.rest| == 3 && r.rest[1] == o.paymentMode && r.rest[2] == o.currency && r.caption == ""
         && NetPart(o, menu, cafe, true, r.rest[0]) == Some(Part(r.rest[0], "", r.revenue, r.qty))
         && r.cash == PartOf(o.cash, r.revenue, whole) && r.card == PartOf(o.card, r.revenue, whole) && r.online == 0.0
       case Items =>
         && |r.rest| == 2 && r.rest[1] == o.currency
         && NetPart(o, menu, cafe, false, r.rest[0]) == Some(Part(r.rest[0], r.caption, r.revenue, r.qty))
         && r.cash == 0.0 && r.card == 0.0 && r.online == 0.0
  }

  // The bucket of a cafe of the order.
  ghost predicate BucketFor(b: Bucket, o: Order, menu: map<string, string>) {
    && CafeSold(o, menu, |o.items|, b.cafeId) && NetBucket(b, o, menu, b.cafeId) && Balanced(b)
    && 0.0 <= b.revenue <= NetTotal(o, menu)
  }

  function OrderBucketRows(table: Table, tz: Zone, o: Order, menu: map<string, string>, target: Target, b: Bucket)
    : seq<Row>
  {
    BucketRows(table, tz, o, target, b, CafeShare(o, NetTotal(o, menu)), NetTotal(o, menu))
  }

  lemma DailyPosts(tz: Zone, o: Order, menu: map<string, string>, target: Target, b: Bucket, r: Row)
    requires BucketFor(b, o, menu)
    ensures r == DailyRow(tz, o, target, b, CafeShare(o, NetTotal(o, menu)), NetTotal(o, menu)) <==>
            Posts(Daily, tz, o, menu, target, r) && r.group.cafe == b.cafeId
  {
    hide CafeSold, NetTotal, CafeNet, CafeQty, CafeShare, Ratio, PartOf, Whole, NetParts, Balanced, DayText;
    DueIs(o, o.cash, b.revenue, NetTotal(o, menu));
    DueIs(o, o.card, b.revenue, NetTotal(o, menu));
    DueIs(o, o.online, b.revenue, NetTotal(o, menu));
  }

  lemma {:induction false} AgentRowsAre(tz: Zone, o: Order, target: Target, b: Bucket, n: nat, cash: real, card: real,
                                        r: Row)
    requires n <= |b.agents|
    ensures r in AgentRows(tz, o, target, b, n, cash, card) <==>
            exists i: nat :: i < n && r == AgentRow(tz, o, target, b, i, cash, card)
  {
    hide AgentRow;
    if n > 0 {
      AgentRowsAre(tz, o, target, b, n - 1, cash, card, r);
    }
  }

  lemma {:induction false} ItemRowsAre(tz: Zone, o: Order, target: Target, b: Bucket, n: nat, r: Row)
    requires n <= |b.items|
    ensures r in ItemRows(tz, o, target, b, n) <==> exists i: nat :: i < n && r == ItemRow(tz, o, target, b, i)
  {
    hide ItemRow;
    if n > 0 {
      ItemRowsAre(tz, o, target, b, n - 1, r);
    }
  }

  lemma PartOfBucket(b: Bucket, o: Order, menu: map<string, string>, byAgent: bool, i: nat)
    requires NetBucket(b, o, menu, b.cafeId) && i < |Parts(b, byAgent)|
    ensures NetPart(o, menu, b.cafeId, byAgent, Parts(b, byAgent)[i].key) == Some(Parts(b, byAgent)[i])
  {
    hide NetPart, CafeNet, CafeQty;
    PartOfList(Parts(b, byAgent), i);
  }

  lemma BucketOfPart(b: Bucket, o: Order, menu: map<string, string>, byAgent: bool, part: Part) returns (i: nat)
    requires NetBucket(b, o, menu, b.cafeId) && NetPart(o, menu, b.cafeId, byAgent, part.key) == Some(part)
    ensures i < |Parts(b, byAgent)| && Parts(b, byAgent)[i] == part
  {
    hide NetPart, CafeNet, CafeQty;
    PartListed(Parts(b, byAgent), part.key);
    i :| i < |Parts(b, byAgent)| && Parts(b, byAgent)[i].key == part.key;
    PartOfList(Parts(b, byAgent), i);
  }

  // The captions of agents are empty.
  lemma AgentCaption(o: Order, menu: map<string, string>, cafe: string, key: string)
    ensures var p := NetPart(o, menu, cafe, true, key); p.Some? ==> p.value.caption == ""
  {
  }

  lemma AgentRowPosts(tz: Zone, o: Order, menu: map<string, string>, target: Target, b: Bucket, i: nat)
    requires BucketFor(b, o, menu) && i < |b.agents|
    ensures var row := DailyRow(tz, o, target, b, CafeShare(o, NetTotal(o, menu)), NetTotal(o, menu));
      Posts(Agents, tz, o, menu, target, AgentRow(tz, o, target, b, i, row.cash, row.card))
  {
    hide CafeSold, NetTotal, CafeNet, CafeQty, CafeShare, Ratio, PartOf, Whole, NetParts, Balanced, NetPart, DayText;
    hide NetBucket;
    var row := DailyRow(tz, o, target, b, CafeShare(o, NetTotal(o, menu)), NetTotal(o, menu));
    PartOfBucket(b, o, menu, true, i);
    AgentCaption(o, menu, b.cafeId, b.agents[i].key);
    DailyPosts(tz, o, menu, target, b, row);
    AgentTender(o, menu, b, i, o.cash, row.cash);
    AgentTender(o, menu, b, i, o.card, row.card);
  }

  lemma AgentTender(o: Order, menu: map<string, string>, b: Bucket, i: nat, tender: real, due: real)
    requires BucketFor(b, o, menu) && i < |b.agents|
    requires due == PartOf(tender, b.revenue, Whole(o, NetTotal(o, menu)))
    ensures due * Ratio(b.agents[i].revenue, b.revenue) ==
            PartOf(tender, b.agents[i].revenue, Whole(o, NetTotal(o, menu)))
  {
    hide NetTotal, NetBucket, CafeSold, Ratio, PartOf, Whole;
    PartWithinTotal(b.agents, i);
    AgentDueIs(due, tender, b.revenue, b.agents[i].revenue, Whole(o, NetTotal(o, menu)));
  }

  lemma AgentsPost(tz: Zone, o: Order, menu: map<string, string>, target: Target, b: Bucket, r: Row)
    requires BucketFor(b, o, menu)
    ensures r in OrderBucketRows(Agents, tz, o, menu, target, b) <==>
            Posts(Agents, tz, o, menu, target, r) && r.group.cafe == b.cafeId
  {
    hide CafeSold, NetTotal, CafeNet, CafeQty, CafeShare, Ratio, PartOf, Whole, NetBucket, Balanced, NetPart, DayText;
    var row := DailyRow(tz, o, target, b, CafeShare(o, NetTotal(o, menu)), NetTotal(o, menu));
    AgentRowsAre(tz, o, target, b, |b.agents|, row.cash, row.card, r);
    if i: nat :| i < |b.agents| && r == AgentRow(tz, o, target, b, i, row.cash, row.card) {
      AgentRowPosts(tz, o, menu, target, b, i);
    }
    if Posts(Agents, tz, o, menu, target, r) && r.group.cafe == b.cafeId {
      var i := BucketOfPart(b, o, menu, true, Part(r.rest[0], "", r.revenue, r.qty));
      AgentRowPosts(tz, o, menu, target, b, i);
      var s := AgentRow(tz, o, target, b, i, row.cash, row.card);
      assert r.rest == [r.rest[0], o.paymentMode, o.currency] == s.rest;
      assert r == s;
    }
  }

  lemma ItemRowPosts(tz: Zone, o: Order, menu: map<string, string>, target: Target, b: Bucket, i: nat)
    requires BucketFor(b, o, menu) && i < |b.items|
    ensures Posts(Items, tz, o, menu, target, ItemRow(tz, o, target, b, i))
  {
    hide CafeSold, NetTotal, CafeNet, CafeQty, PartOf, Whole, Balanced, NetPart, NetBucket, DayText;
    PartOfBucket(b, o, menu, false, i);
  }

  lemma ItemsPost(tz: Zone, o: Order, menu: map<string, string>, target: Target, b: Bucket, r: Row)
    requires BucketFor(b, o, menu)
    ensures r in OrderBucketRows(Items, tz, o, menu, target, b) <==>
            Posts(Items, tz, o, menu, target, r) && r.group.cafe == b.cafeId
  {
    hide CafeSold, NetTotal, CafeNet, CafeQty, CafeShare, PartOf, Whole, NetBucket, Balanced, NetPart, DayText;
    ItemRowsAre(tz, o, target, b, |b.items|, r);
    if i: nat :| i < |b.items| && r == ItemRow(tz, o, target, b, i) {
      ItemRowPosts(tz, o, menu, target, b, i);
    }
    if Posts(Items, tz, o, menu, target, r) && r.group.cafe == b.cafeId {
      var i := BucketOfPart(b, o, menu, false, Part(r.rest[0], r.caption, r.revenue, r.qty));
      ItemRowPosts(tz, o, menu, target, b, i);
      var s := ItemRow(tz, o, target, b, i);
      assert r.rest == [r.rest[0], o.currency] == s.rest;
      assert r == s;
    }
  }

  lemma BucketPosts(table: Table, tz: Zone, o: Order, menu: map<string, string>, target: Target, b: Bucket, r: Row)
    requires BucketFor(b, o, menu)
    ensures r in OrderBucketRows(table, tz, o, menu, target, b) <==>
            Posts(table, tz, o, menu, target, r) && r.group.cafe == b.cafeId
  {
    hide Posts, BucketFor, DailyRow, NetTotal, CafeShare;
    match table
    case Daily => DailyPosts(tz, o, menu, target, b, r);
    case Agents => AgentsPost(tz, o, menu, target, b, r);
    case Items => ItemsPost(tz, o, menu, target, b, r);
  }

  lemma {:induction false} TargetRowsAre(table: Table, tz: Zone, o: Order, target: Target, buckets: seq<Bucket>,
                                         share: real, revenue: real, r: Row)
    ensures r in TargetRows(table, tz, o, target, buckets, share, revenue) <==>
            exists i :: 0 <= i < |buckets| && r in BucketRows(table, tz, o, target, buckets[i], share, revenue)
  {
    hide BucketRows;
    if buckets != [] {
      TargetRowsAre(table, tz, o, target, buckets[..|buckets| - 1], share, revenue, r);
    }
  }

  lemma {:induction false} BucketWithin(buckets: seq<Bucket>, i: nat)
    requires AllBalanced(buckets) && i < |buckets|
    ensures 0.0 <= buckets[i].revenue <= Revenue(buckets)
  {
    assert Balanced(buckets[0]);
    RevenueNonNegative(buckets[1..]);
    if i > 0 {
      BucketWithin(buckets[1..], i - 1);
    }
  }

  lemma BucketsFor(o: Order, menu: map<string, string>, i: nat)
    requires NonNegative(o) && i < |NetOf(o, menu)|
    ensures BucketFor(NetOf(o, menu)[i], o, menu)
  {
    hide NetOf, NetTotal, CafeSold, NetBucket, CafeNet, RevenueAt, Revenue, Balanced, BucketAt, NonNegative;
    NetOfIs(o, menu);
    var buckets := NetOf(o, menu);
    BucketWithin(buckets, i);
    BucketOfList(buckets, i);
    assert buckets[i] in buckets;
    assert NetAt(buckets, o, menu, buckets[i].cafeId);
  }

  function OrderTargetRows(table: Table, tz: Zone, o: Order, menu: map<string, string>, target: Target): seq<Row> {
    TargetRows(table, tz, o, target, NetOf(o, menu), CafeShare(o, NetTotal(o, menu)), NetTotal(o, menu))
  }

  lemma TargetPosts(table: Table, tz: Zone, o: Order, menu: map<string, string>, target: Target, r: Row)
    requires NonNegative(o)
    ensures r in OrderTargetRows(table, tz, o, menu, target) <==> Posts(table, tz, o, menu, target, r)
  {
    hide NetOf, NetTotal, CafeShare, Posts, BucketRows, BucketFor, NonNegative, TargetRows;
    var buckets := NetOf(o, menu);
    TargetRowsAre(table, tz, o, target, buckets, CafeShare(o, NetTotal(o, menu)), NetTotal(o, menu), r);
    forall i | 0 <= i < |buckets|
      ensures r in OrderBucketRows(table, tz, o, menu, target, buckets[i]) <==>
              Posts(table, tz, o, menu, target, r) && r.group.cafe == buckets[i].cafeId
    {
      BucketsFor(o, menu, i);
      BucketPosts(table, tz, o, menu, target, buckets[i], r);
    }
    if Posts(table, tz, o, menu, target, r) {
      PostedCafe(table, tz, o, menu, target, r);
    }
  }

  lemma PostedCafe(table: Table, tz: Zone, o: Order, menu: map<string, string>, target: Target, r: Row)
    requires NonNegative(o) && Posts(table, tz, o, menu, target, r)
    ensures exists i :: 0 <= i < |NetOf(o, menu)| && NetOf(o, menu)[i].cafeId == r.group.cafe
  {
    hide NetOf, NetTotal, CafeSold, NetBucket, RevenueAt, Revenue, AllBalanced, NonNegative, NetPart, CafeNet;
    NetOfIs(o, menu);
    BucketListed(NetOf(o, menu), r.group.cafe);
    assert NetAt(NetOf(o, menu), o, menu, r.group.cafe);
  }

  // ----- no row is posted twice

  predicate Apart(rows: seq<Row>) {
    forall i, j | 0 <= i < j < |rows| :: rows[i].group != rows[j].group || rows[i].rest != rows[j].rest
  }

  lemma {:induction false} AgentRowsApart(tz: Zone, o: Order, target: Target, b: Bucket, n: nat, cash: real,
                                          card: real)
    requires n <= |b.agents| && DistinctParts(b.agents)
    ensures Apart(AgentRows(tz, o, target, b, n, cash, card))
  {
    hide GroupOf, Ratio, DayText;
    if n > 0 {
      AgentRowsApart(tz, o, target, b, n - 1, cash, card);
      var front := AgentRows(tz, o, target, b, n - 1, cash, card);
      forall k | 0 <= k < |front| ensures front[k].rest != [b.agents[n - 1].key, o.paymentMode, o.currency] {
        AgentRowsAre(tz, o, target, b, n - 1, cash, card, front[k]);
        var i: nat :| i < n - 1 && front[k] == AgentRow(tz, o, target, b, i, cash, card);
        assert front[k].rest[0] == b.agents[i].key;
      }
    }
  }

  lemma {:induction false} ItemRowsApart(tz: Zone, o: Order, target: Target, b: Bucket, n: nat)
    requires n <= |b.items| && DistinctParts(b.items)
    ensures Apart(ItemRows(tz, o, target, b, n))
  {
    hide GroupOf, DayText;
    if n > 0 {
      ItemRowsApart(tz, o, target, b, n - 1);
      var front := ItemRows(tz, o, target, b, n - 1);
      forall k | 0 <= k < |front| ensures front[k].rest != [b.items[n - 1].key, o.currency] {
        ItemRowsAre(tz, o, target, b, n - 1, front[k]);
        var i: nat :| i < n - 1 && front[k] == ItemRow(tz, o, target, b, i);
        assert front[k].rest[0] == b.items[i].key;
      }
    }
  }

  lemma BucketRowsApart(table: Table, tz: Zone, o: Order, menu: map<string, string>, target: Target, b: Bucket)
    requires BucketFor(b, o, menu)
    ensures Apart(OrderBucketRows(table, tz, o, menu, target, b))
  {
    hide NetTotal, CafeShare, CafeSold, CafeNet, CafeQty, DailyRow, Balanced;
    var row := DailyRow(tz, o, target, b, CafeShare(o, NetTotal(o, menu)), NetTotal(o, menu));
    AgentRowsApart(tz, o, target, b, |b.agents|, row.cash, row.card);
    ItemRowsApart(tz, o, target, b, |b.items|);
  }

  lemma ApartTogether(a: seq<Row>, b: seq<Row>)
    requires Apart(a) && Apart(b) && forall r, s | r in a && s in b :: r.group != s.group
    ensures Apart(a + b)
  {
    var all := a + b;
    forall i, j | 0 <= i < j < |all| ensures all[i].group != all[j].group || all[i].rest != all[j].rest {
      if i < |a| <= j {
        assert all[i] in a && all[j] in b;
      } else if |a| <= i {
        assert all[i] == b[i - |a|] && all[j] == b[j - |a|];
      }
    }
  }

  lemma {:induction false} TargetRowsApart(table: Table, tz: Zone, o: Order, menu: map<string, string>, target: Target,
                                           n: nat)
    requires NonNegative(o) && n <= |NetOf(o, menu)|
    ensures Apart(TargetRows(table, tz, o, target, NetOf(o, menu)[..n], CafeShare(o, NetTotal(o, menu)),
                             NetTotal(o, menu)))
  {
    hide NetOf, NetTotal, CafeShare, BucketRows, BucketFor, NonNegative, Posts;
    if n > 0 {
      var buckets := NetOf(o, menu);
      var share, net := CafeShare(o, NetTotal(o, menu)), NetTotal(o, menu);
      TargetRowsApart(table, tz, o, menu, target, n - 1);
      assert buckets[..n][..n - 1] == buckets[..n - 1];
      var front := TargetRows(table, tz, o, target, buckets[..n - 1], share, net);
      var last := OrderBucketRows(table, tz, o, menu, target, buckets[n - 1]);
      BucketsFor(o, menu, n - 1);
      BucketRowsApart(table, tz, o, menu, target, buckets[n - 1]);
      CafesDiffer(o, menu);
      forall r, s | r in front && s in last ensures r.group != s.group {
        TargetRowsAre(table, tz, o, target, buckets[..n - 1], share, net, r);
        var i :| 0 <= i < n - 1 && r in BucketRows(table, tz, o, target, buckets[..n - 1][i], share, net);
        BucketsFor(o, menu, i);
        BucketPosts(table, tz, o, menu, target, buckets[i], r);
        BucketPosts(table, tz, o, menu, target, buckets[n - 1], s);
      }
      ApartTogether(front, last);
    }
  }

  lemma CafesDiffer(o: Order, menu: map<string, string>)
    requires NonNegative(o)
    ensures DistinctCafes(NetOf(o, menu))
  {
    hide NetOf, NetTotal, NetAt, RevenueAt, Revenue, AllBalanced, NonNegative, DistinctCafes, CafeNet;
    NetOfIs(o, menu);
  }

  lemma {:induction false} RowsOverAre(table: Table, tz: Zone, o: Order, targets: seq<Target>, buckets: seq<Bucket>,
                                       share: real, revenue: real, r: Row)
    ensures r in RowsOver(table, tz, o, targets, buckets, share, revenue) <==>
            exists t :: t in targets && r in TargetRows(table, tz, o, t, buckets, share, revenue)
  {
    hide TargetRows;
    if targets != [] {
      var front, last := targets[..|targets| - 1], targets[|targets| - 1];
      RowsOverAre(table, tz, o, front, buckets, share, revenue, r);
      assert targets == front + [last];
      assert last in targets && forall t :: t in targets <==> t in front || t == last;
    }
  }

  lemma OrderRowsAre(table: Table, tz: Zone, o: Order, menu: map<string, string>)
    requires NonNegative(o)
    ensures OrderRows(table, tz, o, menu) ==
            RowsOver(table, tz, o, TargetsOf(tz, o), NetOf(o, menu), CafeShare(o, NetTotal(o, menu)),
                     NetTotal(o, menu))
  {
    hide NetOf, NetTotal, NetAt, RevenueAt, AllBalanced, DistinctCafes, CafeShare, RowsOver, NonNegative, CafeNet;
    hide Revenue;
    NetOfIs(o, menu);
  }

  lemma {:induction false} RowsOverApart(table: Table, tz: Zone, o: Order, menu: map<string, string>,
                                         targets: seq<Target>)
    requires NonNegative(o) && forall i, j | 0 <= i < j < |targets| :: targets[i].basis != targets[j].basis
    ensures Apart(RowsOver(table, tz, o, targets, NetOf(o, menu), CafeShare(o, NetTotal(o, menu)), NetTotal(o, menu)))
  {
    hide NetOf, NetTotal, CafeShare, TargetRows, NonNegative, Apart;
    if targets == [] {
      NoneApart();
    } else {
      var buckets, share, net := NetOf(o, menu), CafeShare(o, NetTotal(o, menu)), NetTotal(o, menu);
      var front, last := targets[..|targets| - 1], targets[|targets| - 1];
      RowsOverApart(table, tz, o, menu, front);
      TargetRowsApart(table, tz, o, menu, last, |buckets|);
      assert buckets[..|buckets|] == buckets;
      var a, b := RowsOver(table, tz, o, front, buckets, share, net), OrderTargetRows(table, tz, o, menu, last);
      forall r, s | r in a && s in b ensures r.group != s.group {
        RowsOverAre(table, tz, o, front, buckets, share, net, r);
        var t :| t in front && r in OrderTargetRows(table, tz, o, menu, t);
        TargetPosts(table, tz, o, menu, t, r);
        TargetPosts(table, tz, o, menu, last, s);
      }
      ApartTogether(a, b);
    }
  }

  lemma NoneApart()
    ensures Apart([])
  {
  }

  // An order posts exactly the rows described, for each of its report bases, and each of them once.
  lemma EntriesAre(table: Table, tz: Zone, o: Order, menu: map<string, string>)
    requires NonNegative(o)
    ensures forall r :: r in OrderRows(table, tz, o, menu) <==>
                        exists target :: target in TargetsOf(tz, o) && Posts(table, tz, o, menu, target, r)
    ensures var rows := OrderRows(table, tz, o, menu);
      forall i, j | 0 <= i < j < |rows| :: rows[i].group != rows[j].group || rows[i].rest != rows[j].rest
  {
    hide OrderRows, RowsOver, Posts, NonNegative, NetOf, NetTotal, CafeShare, TargetRows;
    var targets := TargetsOf(tz, o);
    OrderRowsAre(table, tz, o, menu);
    forall r
      ensures r in OrderRows(table, tz, o, menu) <==>
              exists target :: target in targets && Posts(table, tz, o, menu, target, r)
    {
      RowsOverAre(table, tz, o, targets, NetOf(o, menu), CafeShare(o, NetTotal(o, menu)), NetTotal(o, menu), r);
      forall t ensures r in OrderTargetRows(table, tz, o, menu, t) <==> Posts(table, tz, o, menu, t, r) {
        TargetPosts(table, tz, o, menu, t, r);
      }
    }
    RowsOverApart(table, tz, o, menu, targets);
  }
}
