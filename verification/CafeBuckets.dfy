/**
 How the cafe pass of prisma/sync-perf-order-rollups.ts (`rebuildCafeRollupsForEvents`) divides one paid order: its
 cafe lines are bucketed by cafe, agent and menu item, the buckets are scaled down by the order's promo, and the
 order's tenders are attributed to cafes and agents in proportion. Ratios and amounts are exact reals; JavaScript Maps
 are sequences in insertion order.
 */
module CafeBuckets {
  import opened Prelude

  datatype Line = Line(
    itemId: string, isCafeItem: bool, isTicket: bool, ticketIsCafe: bool, displayName: string,
    quantity: int, total: real, agent: Option<string>)

  datatype Order = Order(
    id: nat, eventId: string, paymentMode: string, currency: string, total: real, discount: real,
    cash: real, card: real, online: real, agent: Option<string>, legacy: bool,
    metaCafeId: Option<string>, metaCafeIds: Option<seq<string>>,
    paidAt: Option<int>, createdAt: int, eventStart: Option<int>, items: seq<Line>)

  datatype Part = Part(key: string, caption: string, revenue: real, qty: int)

  datatype Bucket = Bucket(cafeId: string, revenue: real, qty: int, agents: seq<Part>, items: seq<Part>)

  function IdOf(o: Order): nat {
    o.id
  }

  // ----- bucketing

  function OrElse(a: string, b: string): string {
    if a != "" then a else b
  }

  function PartAdded(parts: seq<Part>, key: string, caption: string, revenue: real, qty: int): seq<Part> {
    if parts == [] then [Part(key, caption, revenue, qty)]
    else if parts[0].key == key then
      [Part(key, OrElse(caption, parts[0].caption), parts[0].revenue + revenue, parts[0].qty + qty)] + parts[1..]
    else [parts[0]] + PartAdded(parts[1..], key, caption, revenue, qty)
  }

  function MetaCafe(o: Order): string {
    if o.metaCafeId.Some? && o.metaCafeId.value != "" then o.metaCafeId.value
    else if o.metaCafeIds.Some? && |o.metaCafeIds.value| == 1 then o.metaCafeIds.value[0]
    else ""
  }

  // The cafe a line belongs to; the empty string when there is none.
  function CafeOf(o: Order, menu: map<string, string>, item: Line): string {
    OrElse(MetaCafe(o), if item.itemId in menu then menu[item.itemId] else "")
  }

  function AgentOf(o: Order, item: Line): Option<string> {
    if item.agent.Some? then item.agent else o.agent
  }

  function BucketWith(b: Bucket, o: Order, item: Line): Bucket {
    var agent := AgentOf(o, item);
    Bucket(b.cafeId, b.revenue + item.total, b.qty + item.quantity,
           if agent.Some? then PartAdded(b.agents, agent.value, "", item.total, item.quantity) else b.agents,
           PartAdded(b.items, item.itemId, item.displayName, item.total, item.quantity))
  }

  function LineAdded(buckets: seq<Bucket>, cafe: string, o: Order, item: Line): seq<Bucket> {
    if buckets == [] then [BucketWith(Bucket(cafe, 0.0, 0, [], []), o, item)]
    else if buckets[0].cafeId == cafe then [BucketWith(buckets[0], o, item)] + buckets[1..]
    else [buckets[0]] + LineAdded(buckets[1..], cafe, o, item)
  }

  predicate IsCafeLine(item: Line) {
    item.isCafeItem || item.ticketIsCafe
  }

  // ----- which lines a cafe, an agent and a menu item have

  // The cafe of a line, if it has one: a menu item or a cafe ticket belongs to the order's cafe when the order names
  // one, also as the only one of a list, and to the menu's cafe otherwise.
  function Home(o: Order, menu: map<string, string>, item: Line): Option<string> {
    if !item.isCafeItem && !item.ticketIsCafe then None
    else if o.metaCafeId.Some? && o.metaCafeId.value != "" then o.metaCafeId
    else if o.metaCafeIds.Some? && |o.metaCafeIds.value| == 1 && o.metaCafeIds.value[0] != ""
    then Some(o.metaCafeIds.value[0])
    else if item.itemId in menu && menu[item.itemId] != "" then Some(menu[item.itemId])
    else None
  }

  lemma HomeIs(o: Order, menu: map<string, string>, item: Line)
    ensures Home(o, menu, item) ==
            if IsCafeLine(item) && CafeOf(o, menu, item) != "" then Some(CafeOf(o, menu, item)) else None
  {
  }

  // The agent of a line, or else of the order; or its menu item.
  function PartKey(o: Order, item: Line, byAgent: bool): Option<string> {
    if !byAgent then Some(item.itemId) else if item.agent.Some? then item.agent else o.agent
  }

  // The line counts for the cafe and the agent or menu item.
  predicate For(o: Order, menu: map<string, string>, item: Line, cafe: string, byAgent: bool, key: string) {
    Home(o, menu, item) == Some(cafe) && PartKey(o, item, byAgent) == Some(key)
  }

  // Total of the first `n` lines that have a cafe, or of those of one cafe.
  function AttributedTotal(o: Order, menu: map<string, string>, n: nat): real
    requires n <= |o.items|
  {
    if n == 0 then 0.0
    else
      var item := o.items[n - 1];
      AttributedTotal(o, menu, n - 1) + (if Home(o, menu, item).Some? then item.total else 0.0)
  }

  function CafeTotal(o: Order, menu: map<string, string>, n: nat, cafe: string): real
    requires n <= |o.items|
  {
    if n == 0 then 0.0
    else
      var item := o.items[n - 1];
      CafeTotal(o, menu, n - 1, cafe) + (if Home(o, menu, item) == Some(cafe) then item.total else 0.0)
  }

  function CafeQty(o: Order, menu: map<string, string>, n: nat, cafe: string): int
    requires n <= |o.items|
  {
    if n == 0 then 0
    else
      var item := o.items[n - 1];
      CafeQty(o, menu, n - 1, cafe) + (if Home(o, menu, item) == Some(cafe) then item.quantity else 0)
  }

  predicate CafeSold(o: Order, menu: map<string, string>, n: nat, cafe: string)
    requires n <= |o.items|
  {
    exists i :: 0 <= i < n && Home(o, menu, o.items[i]) == Some(cafe)
  }

  // The same for an agent or a menu item of a cafe, and the last caption given.
  function KeyTotal(o: Order, menu: map<string, string>, n: nat, cafe: string, byAgent: bool, key: string): real
    requires n <= |o.items|
  {
    if n == 0 then 0.0
    else
      var item := o.items[n - 1];
      KeyTotal(o, menu, n - 1, cafe, byAgent, key)
      + (if For(o, menu, item, cafe, byAgent, key) then item.total else 0.0)
  }

  function KeyQty(o: Order, menu: map<string, string>, n: nat, cafe: string, byAgent: bool, key: string): int
    requires n <= |o.items|
  {
    if n == 0 then 0
    else
      var item := o.items[n - 1];
      KeyQty(o, menu, n - 1, cafe, byAgent, key)
      + (if For(o, menu, item, cafe, byAgent, key) then item.quantity else 0)
  }

  function KeyLabel(o: Order, menu: map<string, string>, n: nat, cafe: string, key: string): string
    requires n <= |o.items|
  {
    if n == 0 then ""
    else
      var item := o.items[n - 1];
      if For(o, menu, item, cafe, false, key) && item.displayName != "" then item.displayName
      else KeyLabel(o, menu, n - 1, cafe, key)
  }

  predicate KeySold(o: Order, menu: map<string, string>, n: nat, cafe: string, byAgent: bool, key: string)
    requires n <= |o.items|
  {
    exists i :: 0 <= i < n && For(o, menu, o.items[i], cafe, byAgent, key)
  }

  ghost function PartsRevenue(parts: seq<Part>): real {
    if parts == [] then 0.0 else parts[0].revenue + PartsRevenue(parts[1..])
  }

  ghost function PartsQty(parts: seq<Part>): int {
    if parts == [] then 0 else parts[0].qty + PartsQty(parts[1..])
  }

  function Revenue(buckets: seq<Bucket>): real {
    if buckets == [] then 0.0 else buckets[0].revenue + Revenue(buckets[1..])
  }

  // Revenue recorded for one cafe.
  function RevenueAt(buckets: seq<Bucket>, cafe: string): real {
    if buckets == [] then 0.0
    else (if buckets[0].cafeId == cafe then buckets[0].revenue else 0.0) + RevenueAt(buckets[1..], cafe)
  }

  // The breakdown of a cafe by agent or by menu item.
  function Parts(b: Bucket, byAgent: bool): seq<Part> {
    if byAgent then b.agents else b.items
  }

  predicate DistinctParts(parts: seq<Part>) {
    forall i, j | 0 <= i < j < |parts| :: parts[i].key != parts[j].key
  }

  function PartAt(parts: seq<Part>, key: string): Option<Part> {
    if parts == [] then None else if parts[0].key == key then Some(parts[0]) else PartAt(parts[1..], key)
  }

  function BucketAt(buckets: seq<Bucket>, cafe: string): Option<Bucket> {
    if buckets == [] then None else if buckets[0].cafeId == cafe then Some(buckets[0]) else BucketAt(buckets[1..], cafe)
  }

  lemma {:induction false} PartOfList(parts: seq<Part>, i: nat)
    requires DistinctParts(parts) && i < |parts|
    ensures PartAt(parts, parts[i].key) == Some(parts[i])
  {
    if i > 0 {
      PartOfList(parts[1..], i - 1);
    }
  }

  lemma {:induction false} PartListed(parts: seq<Part>, key: string)
    ensures PartAt(parts, key).Some? <==> exists i :: 0 <= i < |parts| && parts[i].key == key
    ensures PartAt(parts, key).Some? ==> PartAt(parts, key).value.key == key
  {
    if parts != [] && parts[0].key != key {
      PartListed(parts[1..], key);
      if i :| 0 <= i < |parts| && parts[i].key == key {
        assert parts[1..][i - 1].key == key;
      }
    }
  }

  lemma {:induction false} BucketOfList(buckets: seq<Bucket>, i: nat)
    requires DistinctCafes(buckets) && i < |buckets|
    ensures BucketAt(buckets, buckets[i].cafeId) == Some(buckets[i])
  {
    if i > 0 {
      BucketOfList(buckets[1..], i - 1);
    }
  }

  lemma {:induction false} BucketListed(buckets: seq<Bucket>, cafe: string)
    ensures BucketAt(buckets, cafe).Some? <==> exists i :: 0 <= i < |buckets| && buckets[i].cafeId == cafe
    ensures BucketAt(buckets, cafe).Some? ==> BucketAt(buckets, cafe).value.cafeId == cafe
  {
    if buckets != [] && buckets[0].cafeId != cafe {
      BucketListed(buckets[1..], cafe);
      if i :| 0 <= i < |buckets| && buckets[i].cafeId == cafe {
        assert buckets[1..][i - 1].cafeId == cafe;
      }
    }
  }

  // The part of the key after a line is added.
  function PartWith(part: Option<Part>, key: string, caption: string, revenue: real, qty: int): Part {
    match part
    case None => Part(key, caption, revenue, qty)
    case Some(p) => Part(key, if caption != "" then caption else p.caption, p.revenue + revenue, p.qty + qty)
  }

  lemma {:induction false} PartAddedIs(parts: seq<Part>, key: string, caption: string, revenue: real, qty: int,
                                       k: string)
    ensures PartAt(PartAdded(parts, key, caption, revenue, qty), k) ==
            if k != key then PartAt(parts, k) else Some(PartWith(PartAt(parts, key), key, caption, revenue, qty))
  {
    if parts != [] && parts[0].key != key {
      PartAddedIs(parts[1..], key, caption, revenue, qty, k);
    }
  }

  lemma {:induction false} PartAddedDistinct(parts: seq<Part>, key: string, caption: string, revenue: real, qty: int)
    requires DistinctParts(parts)
    ensures DistinctParts(PartAdded(parts, key, caption, revenue, qty))
  {
    if parts != [] && parts[0].key != key {
      PartAddedDistinct(parts[1..], key, caption, revenue, qty);
      var after := PartAdded(parts[1..], key, caption, revenue, qty);
      forall p | p in after ensures p.key != parts[0].key {
        PartAddedKeys(parts[1..], key, caption, revenue, qty, p);
      }
    }
  }

  lemma {:induction false} PartAddedKeys(parts: seq<Part>, key: string, caption: string, revenue: real, qty: int,
                                         p: Part)
    requires p in PartAdded(parts, key, caption, revenue, qty)
    ensures p.key == key || exists q :: q in parts && q.key == p.key
  {
    if parts != [] && parts[0].key != key && p != parts[0] {
      PartAddedKeys(parts[1..], key, caption, revenue, qty, p);
    }
  }

  function NewBucket(cafe: string): Bucket {
    Bucket(cafe, 0.0, 0, [], [])
  }

  lemma {:induction false} LineAddedIs(buckets: seq<Bucket>, cafe: string, o: Order, item: Line, c: string)
    ensures BucketAt(LineAdded(buckets, cafe, o, item), c) ==
            if c != cafe then BucketAt(buckets, c)
            else match BucketAt(buckets, cafe)
              case None => Some(BucketWith(NewBucket(cafe), o, item))
              case Some(b) => Some(BucketWith(b, o, item))
  {
    hide BucketWith;
    BucketWithCafe(NewBucket(cafe), o, item);
    if buckets != [] {
      BucketWithCafe(buckets[0], o, item);
      if buckets[0].cafeId != cafe {
        LineAddedIs(buckets[1..], cafe, o, item, c);
      }
    }
  }

  lemma BucketWithCafe(b: Bucket, o: Order, item: Line)
    ensures BucketWith(b, o, item).cafeId == b.cafeId
  {
  }

  // The items of a cafe account for all of it; its agents for at most all of it, since a line may have no agent.
  ghost predicate Balanced(b: Bucket) {
    && PartsRevenue(b.items) == b.revenue
    && PartsQty(b.items) == b.qty
    && 0.0 <= PartsRevenue(b.agents) <= b.revenue
    && (forall p | p in b.agents :: 0.0 <= p.revenue)
    && (forall p | p in b.items :: 0.0 <= p.revenue)
  }

  ghost predicate AllBalanced(buckets: seq<Bucket>) {
    forall b | b in buckets :: Balanced(b)
  }

  predicate DistinctCafes(buckets: seq<Bucket>) {
    forall i, j | 0 <= i < j < |buckets| :: buckets[i].cafeId != buckets[j].cafeId
  }

  lemma {:induction false} PartAddedTotals(parts: seq<Part>, key: string, caption: string, revenue: real, qty: int)
    ensures PartsRevenue(PartAdded(parts, key, caption, revenue, qty)) == PartsRevenue(parts) + revenue
    ensures PartsQty(PartAdded(parts, key, caption, revenue, qty)) == PartsQty(parts) + qty
    ensures 0.0 <= revenue && (forall p | p in parts :: 0.0 <= p.revenue) ==>
      forall p | p in PartAdded(parts, key, caption, revenue, qty) :: 0.0 <= p.revenue
  {
    if parts != [] && parts[0].key != key {
      PartAddedTotals(parts[1..], key, caption, revenue, qty);
    }
  }

  lemma BucketWithBalanced(b: Bucket, o: Order, item: Line)
    requires Balanced(b) && 0.0 <= item.total
    ensures Balanced(BucketWith(b, o, item))
  {
    PartAddedTotals(b.items, item.itemId, item.displayName, item.total, item.quantity);
    if a :| AgentOf(o, item) == Some(a) {
      PartAddedTotals(b.agents, a, "", item.total, item.quantity);
    }
  }

  lemma {:induction false} LineAddedKeeps(buckets: seq<Bucket>, cafe: string, o: Order, item: Line)
    requires AllBalanced(buckets) && DistinctCafes(buckets) && 0.0 <= item.total
    ensures var after := LineAdded(buckets, cafe, o, item);
      && AllBalanced(after)
      && DistinctCafes(after)
      && (forall b | b in after :: b.cafeId == cafe || exists b' :: b' in buckets && b'.cafeId == b.cafeId)
      && Revenue(after) == Revenue(buckets) + item.total
      && (forall c :: RevenueAt(after, c) == RevenueAt(buckets, c) + if c == cafe then item.total else 0.0)
  {
    if buckets == [] {
      BucketWithBalanced(Bucket(cafe, 0.0, 0, [], []), o, item);
    } else if buckets[0].cafeId == cafe {
      BucketWithBalanced(buckets[0], o, item);
    } else {
      LineAddedKeeps(buckets[1..], cafe, o, item);
      var after := LineAdded(buckets[1..], cafe, o, item);
      forall b | b in after ensures b.cafeId != buckets[0].cafeId {
        if b' :| b' in buckets[1..] && b'.cafeId == b.cafeId {
        }
      }
    }
  }

  ghost predicate NonNegative(o: Order) {
    && 0.0 <= o.discount && 0.0 <= o.cash && 0.0 <= o.card && 0.0 <= o.online
    && forall item | item in o.items :: 0.0 <= item.total
  }

  // The buckets after the first `n` lines.
  function BucketsOf(o: Order, menu: map<string, string>, n: nat): seq<Bucket>
    requires n <= |o.items|
  {
    if n == 0 then []
    else
      var before, item := BucketsOf(o, menu, n - 1), o.items[n - 1];
      var cafe := CafeOf(o, menu, item);
      if IsCafeLine(item) && cafe != "" then LineAdded(before, cafe, o, item) else before
  }

  // The part of an agent or a menu item after the first `n` lines.
  function KeyPart(o: Order, menu: map<string, string>, n: nat, cafe: string, byAgent: bool, key: string): Option<Part>
    requires n <= |o.items|
  {
    if KeySold(o, menu, n, cafe, byAgent, key)
    then Some(Part(key, if byAgent then "" else KeyLabel(o, menu, n, cafe, key),
                   KeyTotal(o, menu, n, cafe, byAgent, key), KeyQty(o, menu, n, cafe, byAgent, key)))
    else None
  }

  ghost predicate PartsGather(parts: seq<Part>, o: Order, menu: map<string, string>, n: nat, cafe: string,
                              byAgent: bool)
    requires n <= |o.items|
  {
    DistinctParts(parts) && forall key :: PartAt(parts, key) == KeyPart(o, menu, n, cafe, byAgent, key)
  }

  // The bucket has the cafe's lines, each agent's and each menu item's once.
  ghost predicate Gathers(b: Bucket, o: Order, menu: map<string, string>, n: nat, cafe: string)
    requires n <= |o.items|
  {
    && b.cafeId == cafe && b.revenue == CafeTotal(o, menu, n, cafe) && b.qty == CafeQty(o, menu, n, cafe)
    && PartsGather(b.agents, o, menu, n, cafe, true) && PartsGather(b.items, o, menu, n, cafe, false)
  }

  ghost predicate GathersAt(buckets: seq<Bucket>, o: Order, menu: map<string, string>, n: nat, cafe: string)
    requires n <= |o.items|
  {
    match BucketAt(buckets, cafe)
    case None => !CafeSold(o, menu, n, cafe)
    case Some(b) => CafeSold(o, menu, n, cafe) && Gathers(b, o, menu, n, cafe)
  }

  lemma {:induction false} KeyNone(o: Order, menu: map<string, string>, n: nat, cafe: string, byAgent: bool,
                                   key: string)
    requires n <= |o.items| && !KeySold(o, menu, n, cafe, byAgent, key)
    ensures KeyTotal(o, menu, n, cafe, byAgent, key) == 0.0 && KeyQty(o, menu, n, cafe, byAgent, key) == 0
    ensures !byAgent ==> KeyLabel(o, menu, n, cafe, key) == ""
  {
    hide For;
    if n > 0 {
      KeyNone(o, menu, n - 1, cafe, byAgent, key);
    }
  }

  lemma KeySoldStep(o: Order, menu: map<string, string>, n: nat, cafe: string, byAgent: bool, key: string)
    requires n < |o.items|
    ensures KeySold(o, menu, n + 1, cafe, byAgent, key) <==>
            KeySold(o, menu, n, cafe, byAgent, key) || For(o, menu, o.items[n], cafe, byAgent, key)
  {
    hide For;
  }

  // One more line of a key.
  lemma KeyStep(o: Order, menu: map<string, string>, n: nat, cafe: string, byAgent: bool, key: string)
    requires n < |o.items|
    ensures var item, before := o.items[n], KeyPart(o, menu, n, cafe, byAgent, key);
      var caption := if byAgent then "" else item.displayName;
      KeyPart(o, menu, n + 1, cafe, byAgent, key) ==
      if !For(o, menu, item, cafe, byAgent, key) then before
      else Some(PartWith(before, key, caption, item.total, item.quantity))
  {
    hide For, KeySold;
    KeySoldStep(o, menu, n, cafe, byAgent, key);
    if !KeySold(o, menu, n, cafe, byAgent, key) {
      KeyNone(o, menu, n, cafe, byAgent, key);
    }
  }

  lemma PartsStep(parts: seq<Part>, o: Order, menu: map<string, string>, n: nat, cafe: string, byAgent: bool)
    requires n < |o.items| && PartsGather(parts, o, menu, n, cafe, byAgent)
    ensures var item := o.items[n];
      var key, caption := PartKey(o, item, byAgent), if byAgent then "" else item.displayName;
      PartsGather(if Home(o, menu, item) == Some(cafe) && key.Some?
                  then PartAdded(parts, key.value, caption, item.total, item.quantity) else parts,
                  o, menu, n + 1, cafe, byAgent)
  {
    hide Home, KeyPart, PartKey, PartAdded, PartAt, DistinctParts, PartWith;
    var item := o.items[n];
    var key, caption := PartKey(o, item, byAgent), if byAgent then "" else item.displayName;
    if key.Some? {
      PartAddedDistinct(parts, key.value, caption, item.total, item.quantity);
    }
    var after := if Home(o, menu, item) == Some(cafe) && key.Some?
                 then PartAdded(parts, key.value, caption, item.total, item.quantity) else parts;
    forall k ensures PartAt(after, k) == KeyPart(o, menu, n + 1, cafe, byAgent, k) {
      KeyStep(o, menu, n, cafe, byAgent, k);
      if key.Some? {
        PartAddedIs(parts, key.value, caption, item.total, item.quantity, k);
      }
    }
  }

  lemma {:induction false} CafeNone(o: Order, menu: map<string, string>, n: nat, cafe: string)
    requires n <= |o.items| && !CafeSold(o, menu, n, cafe)
    ensures CafeTotal(o, menu, n, cafe) == 0.0 && CafeQty(o, menu, n, cafe) == 0
    ensures forall byAgent, key :: KeyPart(o, menu, n, cafe, byAgent, key) == None
  {
    hide Home;
    if n > 0 {
      CafeNone(o, menu, n - 1, cafe);
    }
  }

  lemma NewGathers(o: Order, menu: map<string, string>, n: nat, cafe: string)
    requires n <= |o.items| && !CafeSold(o, menu, n, cafe)
    ensures Gathers(NewBucket(cafe), o, menu, n, cafe)
  {
    hide CafeSold, KeyPart;
    CafeNone(o, menu, n, cafe);
  }

  lemma BucketStep(b: Bucket, o: Order, menu: map<string, string>, n: nat, cafe: string)
    requires n < |o.items| && Gathers(b, o, menu, n, cafe)
    ensures Gathers(if Home(o, menu, o.items[n]) == Some(cafe) then BucketWith(b, o, o.items[n]) else b, o, menu, n + 1,
                    cafe)
  {
    hide Home, PartAdded, PartsGather;
    PartsStep(b.agents, o, menu, n, cafe, true);
    PartsStep(b.items, o, menu, n, cafe, false);
  }

  lemma CafeSoldStep(o: Order, menu: map<string, string>, n: nat, cafe: string)
    requires n < |o.items|
    ensures CafeSold(o, menu, n + 1, cafe) <==> CafeSold(o, menu, n, cafe) || Home(o, menu, o.items[n]) == Some(cafe)
  {
    hide Home;
  }

  lemma GathersStep(buckets: seq<Bucket>, o: Order, menu: map<string, string>, n: nat, cafe: string)
    requires n < |o.items| && GathersAt(buckets, o, menu, n, cafe)
    ensures var home := Home(o, menu, o.items[n]);
      GathersAt(if home.Some? then LineAdded(buckets, home.value, o, o.items[n]) else buckets, o, menu, n + 1, cafe)
  {
    hide Home, CafeSold, Gathers, LineAdded, BucketAt, BucketWith;
    var item := o.items[n];
    var home := Home(o, menu, item);
    CafeSoldStep(o, menu, n, cafe);
    if home.Some? {
      LineAddedIs(buckets, home.value, o, item, cafe);
    }
    match BucketAt(buckets, cafe)
    case None =>
      NewGathers(o, menu, n, cafe);
      BucketStep(NewBucket(cafe), o, menu, n, cafe);
    case Some(b) =>
      BucketStep(b, o, menu, n, cafe);
  }

  lemma NoBuckets(o: Order, menu: map<string, string>)
    ensures AllBalanced([]) && DistinctCafes([]) && Revenue([]) == 0.0
    ensures forall c :: RevenueAt([], c) == 0.0
    ensures forall c :: GathersAt([], o, menu, 0, c)
  {
  }

  // One bucket per cafe with lines, with the totals of these lines, also by agent and by item.
  lemma {:induction false} BucketsAre(o: Order, menu: map<string, string>, n: nat)
    requires NonNegative(o) && n <= |o.items|
    ensures var buckets := BucketsOf(o, menu, n);
      && AllBalanced(buckets) && DistinctCafes(buckets)
      && Revenue(buckets) == AttributedTotal(o, menu, n)
      && (forall c :: RevenueAt(buckets, c) == CafeTotal(o, menu, n, c))
      && (forall c :: GathersAt(buckets, o, menu, n, c))
  {
    hide AllBalanced, DistinctCafes, Revenue, RevenueAt, GathersAt, LineAdded, CafeOf, IsCafeLine, Home;
    NoBuckets(o, menu);
    if n > 0 {
      BucketsAre(o, menu, n - 1);
      var before, item := BucketsOf(o, menu, n - 1), o.items[n - 1];
      var cafe := CafeOf(o, menu, item);
      HomeIs(o, menu, item);
      LineAddedKeeps(before, cafe, o, item);
      forall c ensures GathersAt(BucketsOf(o, menu, n), o, menu, n, c) {
        GathersStep(before, o, menu, n - 1, c);
      }
    }
  }

  method BucketLines(o: Order, menu: map<string, string>) returns (buckets: seq<Bucket>)
    ensures buckets == BucketsOf(o, menu, |o.items|)
  {
    buckets := [];
    for i := 0 to |o.items|
      invariant buckets == BucketsOf(o, menu, i)
    {
      var item := o.items[i];
      if !IsCafeLine(item) {
        continue;
      }
      var cafe := CafeOf(o, menu, item);
      if cafe == "" {
        continue;
      }
      buckets := LineAdded(buckets, cafe, o, item);
    }
  }

  // ----- promo scaling

  function PartScaled(part: Part, k: real): Part {
    part.(revenue := part.revenue * k)
  }

  function PartsScaled(parts: seq<Part>, k: real): seq<Part> {
    if parts == [] then [] else [PartScaled(parts[0], k)] + PartsScaled(parts[1..], k)
  }

  function BucketScaled(b: Bucket, k: real): Bucket {
    b.(revenue := b.revenue * k, agents := PartsScaled(b.agents, k), items := PartsScaled(b.items, k))
  }

  function AllScaled(buckets: seq<Bucket>, k: real): (scaled: seq<Bucket>)
    ensures |scaled| == |buckets| && forall i | 0 <= i < |buckets| :: scaled[i] == BucketScaled(buckets[i], k)
  {
    if buckets == [] then [] else [BucketScaled(buckets[0], k)] + AllScaled(buckets[1..], k)
  }

  lemma {:induction false} PartsScaledTotals(parts: seq<Part>, k: real)
    ensures PartsRevenue(PartsScaled(parts, k)) == PartsRevenue(parts) * k
    ensures PartsQty(PartsScaled(parts, k)) == PartsQty(parts)
  {
    if parts != [] {
      var scaled := PartsScaled(parts, k);
      PartsScaledTotals(parts[1..], k);
      Distribute(parts[0].revenue, PartsRevenue(parts[1..]), k);
      assert scaled[1..] == PartsScaled(parts[1..], k);
    }
  }

  lemma {:induction false} PartsScaledNonNegative(parts: seq<Part>, k: real)
    requires 0.0 <= k && forall p | p in parts :: 0.0 <= p.revenue
    ensures forall p | p in PartsScaled(parts, k) :: 0.0 <= p.revenue
  {
    if parts != [] {
      PartsScaledNonNegative(parts[1..], k);
      MulMono(0.0, parts[0].revenue, k);
    }
  }

  lemma BucketScaledBalanced(b: Bucket, k: real)
    requires Balanced(b) && 0.0 <= k
    ensures Balanced(BucketScaled(b, k))
  {
    hide PartsRevenue, PartsQty, PartsScaled;
    PartsScaledTotals(b.items, k);
    PartsScaledTotals(b.agents, k);
    PartsScaledNonNegative(b.items, k);
    PartsScaledNonNegative(b.agents, k);
    MulMono(PartsRevenue(b.agents), b.revenue, k);
    MulMono(0.0, PartsRevenue(b.agents), k);
  }

  lemma MulMono(a: real, b: real, k: real)
    requires a <= b && 0.0 <= k
    ensures a * k <= b * k
  {
  }

  ghost predicate ScaledBy(before: seq<Bucket>, after: seq<Bucket>, k: real) {
    |after| == |before| && forall i | 0 <= i < |after| :: after[i] == BucketScaled(before[i], k)
  }

  lemma {:induction false} ScaledTotals(before: seq<Bucket>, after: seq<Bucket>, k: real)
    requires ScaledBy(before, after, k)
    ensures Revenue(after) == Revenue(before) * k
  {
    if before != [] {
      assert ScaledBy(before[1..], after[1..], k);
      ScaledTotals(before[1..], after[1..], k);
      Distribute(before[0].revenue, Revenue(before[1..]), k);
    }
  }

  lemma Distribute(a: real, b: real, k: real)
    ensures (a + b) * k == a * k + b * k
  {
  }

  // Scales every bucket, and every agent and item in it, by the same factor.
  method ScaleBuckets(buckets: seq<Bucket>, k: real) returns (scaled: seq<Bucket>)
    ensures ScaledBy(buckets, scaled, k) && scaled == AllScaled(buckets, k)
  {
    scaled := buckets;
    for i := 0 to |buckets|
      invariant |scaled| == |buckets|
      invariant forall j | 0 <= j < i :: scaled[j] == BucketScaled(buckets[j], k)
      invariant forall j | i <= j < |scaled| :: scaled[j] == buckets[j]
    {
      scaled := scaled[i := BucketScaled(scaled[i], k)];
    }
  }

  lemma ScaledKeeps(before: seq<Bucket>, after: seq<Bucket>, k: real)
    requires ScaledBy(before, after, k) && AllBalanced(before) && DistinctCafes(before) && 0.0 <= k
    ensures AllBalanced(after) && DistinctCafes(after)
  {
    forall b | b in after ensures Balanced(b) {
      var i :| 0 <= i < |after| && after[i] == b;
      BucketScaledBalanced(before[i], k);
    }
  }

  function Larger(a: real, b: real): real {
    if a < b then b else a
  }

  function Smaller(a: real, b: real): real {
    if b < a then b else a
  }

  // The promo that reduces cafe revenue: none for migrated orders or orders that also hold ordinary tickets.
  function CafePromo(o: Order): real {
    if o.legacy || (exists item :: item in o.items && item.isTicket && !item.ticketIsCafe) then 0.0 else o.discount
  }

  predicate ScalesDown(gross: real, promo: real) {
    promo > 0.0 && gross > 0.0
  }

  // The buckets of an order, all scaled by the same factor when it has a promo to take.
  function NetOf(o: Order, menu: map<string, string>): seq<Bucket> {
    var buckets, promo := BucketsOf(o, menu, |o.items|), CafePromo(o);
    var gross := Revenue(buckets);
    if ScalesDown(gross, promo) then AllScaled(buckets, Larger(0.0, gross - promo) / gross) else buckets
  }

  // What the cafes of an order bring in together: their lines less the discount, and never less than nothing. A
  // migrated order, and one with a ticket that is not a cafe's, takes no discount here.
  function NetTotal(o: Order, menu: map<string, string>): real {
    var gross := AttributedTotal(o, menu, |o.items|);
    if o.legacy || (exists item :: item in o.items && item.isTicket && !item.ticketIsCafe) then gross
    else if o.discount < gross then gross - o.discount
    else 0.0
  }

  // All lines are taken down in the same proportion.
  function NetScale(o: Order, menu: map<string, string>): real {
    var gross := AttributedTotal(o, menu, |o.items|);
    if gross > 0.0 then NetTotal(o, menu) / gross else 1.0
  }

  // A cafe's own lines in that proportion, and the part of an agent or a menu item.
  function CafeNet(o: Order, menu: map<string, string>, cafe: string): real {
    CafeTotal(o, menu, |o.items|, cafe) * NetScale(o, menu)
  }

  function Reduced(part: Option<Part>, k: real): Option<Part> {
    if part.None? then None else Some(PartScaled(part.value, k))
  }

  function NetPart(o: Order, menu: map<string, string>, cafe: string, byAgent: bool, key: string): Option<Part> {
    Reduced(KeyPart(o, menu, |o.items|, cafe, byAgent, key), NetScale(o, menu))
  }

  ghost predicate NetParts(parts: seq<Part>, o: Order, menu: map<string, string>, cafe: string, byAgent: bool) {
    DistinctParts(parts) && forall key :: PartAt(parts, key) == NetPart(o, menu, cafe, byAgent, key)
  }

  ghost predicate NetBucket(b: Bucket, o: Order, menu: map<string, string>, cafe: string) {
    && b.cafeId == cafe && b.revenue == CafeNet(o, menu, cafe) && b.qty == CafeQty(o, menu, |o.items|, cafe)
    && NetParts(b.agents, o, menu, cafe, true) && NetParts(b.items, o, menu, cafe, false)
  }

  ghost predicate NetAt(buckets: seq<Bucket>, o: Order, menu: map<string, string>, cafe: string) {
    match BucketAt(buckets, cafe)
    case None => !CafeSold(o, menu, |o.items|, cafe)
    case Some(b) => CafeSold(o, menu, |o.items|, cafe) && NetBucket(b, o, menu, cafe)
  }

  lemma {:induction false} PartsScaledAt(parts: seq<Part>, k: real, key: string)
    ensures PartAt(PartsScaled(parts, k), key) == Reduced(PartAt(parts, key), k)
  {
    if parts != [] {
      PartsScaledAt(parts[1..], k, key);
      var scaled := PartsScaled(parts, k);
      assert scaled[0] == PartScaled(parts[0], k) && scaled[1..] == PartsScaled(parts[1..], k);
      assert scaled[0].key == parts[0].key;
      hide PartsScaled, PartScaled;
      if parts[0].key == key {
        assert PartAt(scaled, key) == Some(scaled[0]) && PartAt(parts, key) == Some(parts[0]);
      }
    }
  }

  lemma {:induction false} PartsScaledKeys(parts: seq<Part>, k: real)
    ensures |PartsScaled(parts, k)| == |parts|
    ensures forall i | 0 <= i < |parts| :: PartsScaled(parts, k)[i].key == parts[i].key
  {
    if parts != [] {
      PartsScaledKeys(parts[1..], k);
      assert PartsScaled(parts, k)[1..] == PartsScaled(parts[1..], k);
    }
  }

  lemma {:induction false} BucketsScaledAt(buckets: seq<Bucket>, k: real, cafe: string)
    ensures BucketAt(AllScaled(buckets, k), cafe) ==
            match BucketAt(buckets, cafe) case None => None case Some(b) => Some(BucketScaled(b, k))
  {
    hide BucketScaled;
    if buckets != [] {
      ScaledRevenue(buckets[0], k);
      BucketsScaledAt(buckets[1..], k, cafe);
      assert AllScaled(buckets, k)[1..] == AllScaled(buckets[1..], k);
    }
  }

  lemma ScaledParts(parts: seq<Part>, o: Order, menu: map<string, string>, cafe: string, byAgent: bool)
    requires PartsGather(parts, o, menu, |o.items|, cafe, byAgent)
    ensures NetParts(PartsScaled(parts, NetScale(o, menu)), o, menu, cafe, byAgent)
  {
    hide KeyPart, NetScale, PartAt, PartsScaled;
    var k := NetScale(o, menu);
    PartsScaledKeys(parts, k);
    forall key ensures PartAt(PartsScaled(parts, k), key) == NetPart(o, menu, cafe, byAgent, key) {
      PartsScaledAt(parts, k, key);
    }
  }

  lemma ScaledNetAt(buckets: seq<Bucket>, o: Order, menu: map<string, string>, cafe: string)
    requires GathersAt(buckets, o, menu, |o.items|, cafe)
    ensures NetAt(AllScaled(buckets, NetScale(o, menu)), o, menu, cafe)
  {
    hide CafeSold, NetScale, PartsScaled, AllScaled, BucketAt, PartsGather, NetParts;
    BucketsScaledAt(buckets, NetScale(o, menu), cafe);
    if b :| BucketAt(buckets, cafe) == Some(b) {
      ScaledParts(b.agents, o, menu, cafe, true);
      ScaledParts(b.items, o, menu, cafe, false);
    }
  }

  lemma {:induction false} PartsUnscaled(parts: seq<Part>)
    ensures PartsScaled(parts, 1.0) == parts
  {
    if parts != [] {
      PartsUnscaled(parts[1..]);
      assert parts[0].revenue * 1.0 == parts[0].revenue;
    }
  }

  lemma {:induction false} Unscaled(buckets: seq<Bucket>)
    ensures AllScaled(buckets, 1.0) == buckets
  {
    if buckets != [] {
      Unscaled(buckets[1..]);
      PartsUnscaled(buckets[0].agents);
      PartsUnscaled(buckets[0].items);
      assert buckets[0].revenue * 1.0 == buckets[0].revenue;
    }
  }

  lemma WholeOverWhole(gross: real)
    requires gross > 0.0
    ensures gross / gross == 1.0
  {
  }

  lemma ScaleIs(o: Order, menu: map<string, string>)
    requires NonNegative(o) && 0.0 <= AttributedTotal(o, menu, |o.items|)
    ensures var gross, promo := AttributedTotal(o, menu, |o.items|), CafePromo(o);
      NetScale(o, menu) == if ScalesDown(gross, promo) then Larger(0.0, gross - promo) / gross else 1.0
  {
    hide AttributedTotal;
    var gross := AttributedTotal(o, menu, |o.items|);
    if gross > 0.0 {
      WholeOverWhole(gross);
    }
  }

  // The buckets of an order are those of its lines, scaled.
  lemma NetOfScales(o: Order, menu: map<string, string>)
    requires NonNegative(o)
    ensures var buckets := BucketsOf(o, menu, |o.items|);
      NetOf(o, menu) == AllScaled(buckets, NetScale(o, menu)) && 0.0 <= NetScale(o, menu)
      && Revenue(buckets) * NetScale(o, menu) == NetTotal(o, menu)
  {
    hide BucketsOf, AttributedTotal, AllScaled, GathersAt, RevenueAt, CafeTotal, NetScale, NetTotal, AllBalanced;
    hide CafePromo, NonNegative, Revenue;
    BucketsAre(o, menu, |o.items|);
    var buckets := BucketsOf(o, menu, |o.items|);
    RevenueNonNegative(buckets);
    ScaleIs(o, menu);
    Unscaled(buckets);
    ScaledTotalIs(o, menu);
  }

  lemma ScaledTotalIs(o: Order, menu: map<string, string>)
    requires NonNegative(o) && 0.0 <= AttributedTotal(o, menu, |o.items|)
    ensures AttributedTotal(o, menu, |o.items|) * NetScale(o, menu) == NetTotal(o, menu) && 0.0 <= NetScale(o, menu)
  {
    hide AttributedTotal;
    var gross := AttributedTotal(o, menu, |o.items|);
    if gross > 0.0 {
      var k := NetTotal(o, menu) / gross;
      assert k * gross == NetTotal(o, menu);
    }
  }

  // After promo scaling the buckets sum to the attributed lines less the promo, each cafe has its lines in the same
  // proportion, also by agent and by item, and every bucket still balances with its items and agents.
  lemma NetOfIs(o: Order, menu: map<string, string>)
    requires NonNegative(o)
    ensures var buckets := NetOf(o, menu);
      && AllBalanced(buckets) && DistinctCafes(buckets) && Revenue(buckets) == NetTotal(o, menu)
      && (forall c :: RevenueAt(buckets, c) == CafeNet(o, menu, c))
      && (forall c :: NetAt(buckets, o, menu, c))
  {
    hide BucketsOf, AttributedTotal, AllScaled, GathersAt, NetAt, RevenueAt, CafeTotal, NetScale, NetTotal, Revenue;
    hide AllBalanced, DistinctCafes, NonNegative, NetOf;
    BucketsAre(o, menu, |o.items|);
    NetOfScales(o, menu);
    var buckets, k := BucketsOf(o, menu, |o.items|), NetScale(o, menu);
    AllScaledBy(buckets, k);
    ScaledTotals(buckets, AllScaled(buckets, k), k);
    ScaledKeeps(buckets, AllScaled(buckets, k), k);
    forall c ensures RevenueAt(AllScaled(buckets, k), c) == CafeNet(o, menu, c) {
      ScaledAt(buckets, k, c);
    }
    forall c ensures NetAt(AllScaled(buckets, k), o, menu, c) {
      ScaledNetAt(buckets, o, menu, c);
    }
  }

  lemma AllScaledBy(buckets: seq<Bucket>, k: real)
    ensures ScaledBy(buckets, AllScaled(buckets, k), k)
  {
  }

  lemma ScaledRevenue(b: Bucket, k: real)
    ensures BucketScaled(b, k).revenue == b.revenue * k && BucketScaled(b, k).cafeId == b.cafeId
  {
  }

  lemma {:induction false} ScaledAt(buckets: seq<Bucket>, k: real, c: string)
    ensures RevenueAt(AllScaled(buckets, k), c) == RevenueAt(buckets, c) * k
  {
    hide BucketScaled;
    if buckets != [] {
      ScaledAt(buckets[1..], k, c);
      Distribute(buckets[0].revenue, RevenueAt(buckets[1..], c), k);
      ScaledRevenue(buckets[0], k);
      assert AllScaled(buckets, k)[1..] == AllScaled(buckets[1..], k);
    }
  }

  method NetBuckets(o: Order, menu: map<string, string>) returns (buckets: seq<Bucket>)
    ensures buckets == NetOf(o, menu)
  {
    hide BucketsOf, Revenue, CafePromo, AllScaled, BucketScaled, Larger;
    buckets := BucketLines(o, menu);
    var gross, promo := Revenue(buckets), CafePromo(o);
    if promo > 0.0 && gross > 0.0 {
      var netScale := Larger(0.0, gross - promo) / gross;
      buckets := ScaleBuckets(buckets, netScale);
    }
  }

  // ----- attribution of tenders

  function CafeShare(o: Order, revenue: real): real {
    var orderTotal := Larger(Larger(o.total, revenue), 0.000001);
    Smaller(1.0, revenue / orderTotal)
  }

  function Ratio(part: real, whole: real): real {
    if whole > 0.0 then part / whole else 0.0
  }

  // The order's total, or its cafe revenue where that is more, and no less than a millionth.
  function Whole(o: Order, revenue: real): (whole: real)
    ensures whole > 0.0
  {
    var most := if o.total < revenue then revenue else o.total;
    if most < 0.000001 then 0.000001 else most
  }

  lemma QuotientIs(part: real, whole: real, q: real)
    requires 0.0 < whole && q * whole == part
    ensures q == part / whole
  {
    assert part / whole * whole == part;
    CancelRight(q, part / whole, whole);
  }

  lemma ShareTimesRatio(o: Order, own: real, revenue: real)
    requires 0.0 <= revenue && (revenue == 0.0 ==> own == 0.0)
    ensures CafeShare(o, revenue) * Ratio(own, revenue) * Whole(o, revenue) == own
  {
    var whole := Whole(o, revenue);
    var share, ratio := CafeShare(o, revenue), Ratio(own, revenue);
    if revenue > 0.0 {
      var q := revenue / whole;
      assert q * whole == revenue;
      if q > 1.0 {
        MulLess(1.0, q, whole);
      }
      assert share == q && ratio * revenue == own;
      assert share * ratio * whole == ratio * (share * whole);
    }
  }

  // The part of a tender that `own` is of the whole.
  function PartOf(tender: real, own: real, whole: real): real
    requires 0.0 < whole
  {
    tender * own / whole
  }

  // A cafe is due its revenue's part of every tender.
  lemma DueIs(o: Order, tender: real, own: real, revenue: real)
    requires 0.0 <= revenue && (revenue == 0.0 ==> own == 0.0)
    ensures tender * (CafeShare(o, revenue) * Ratio(own, revenue)) == PartOf(tender, own, Whole(o, revenue))
  {
    ShareTimesRatio(o, own, revenue);
    hide CafeShare, Ratio;
    var q, whole := CafeShare(o, revenue) * Ratio(own, revenue), Whole(o, revenue);
    assert tender * q * whole == tender * (q * whole);
    QuotientIs(tender * own, whole, tender * q);
  }

  // And an agent is due the part of the agent's revenue.
  lemma AgentDueIs(due: real, tender: real, own: real, part: real, whole: real)
    requires 0.0 < whole && 0.0 <= part && 0.0 <= own && (own <= 0.0 ==> part == 0.0)
    requires due == PartOf(tender, own, whole)
    ensures due * Ratio(part, own) == PartOf(tender, part, whole)
  {
    RatioTimes(part, own);
    hide Ratio;
    var r := Ratio(part, own);
    assert due * whole == tender * own;
    assert due * r * whole == due * whole * r == tender * own * r == tender * (r * own) == tender * part;
    QuotientIs(tender * part, whole, due * r);
  }

  // Sum over the buckets of the share of `tender` each cafe is given.
  ghost function Attributed(buckets: seq<Bucket>, tender: real, share: real, revenue: real): real {
    if buckets == [] then 0.0
    else tender * (share * Ratio(buckets[0].revenue, revenue)) + Attributed(buckets[1..], tender, share, revenue)
  }

  lemma {:induction false} AttributedIsShare(buckets: seq<Bucket>, tender: real, share: real, revenue: real)
    requires 0.0 < revenue
    ensures Attributed(buckets, tender, share, revenue) * revenue == tender * share * Revenue(buckets)
  {
    if buckets != [] {
      AttributedIsShare(buckets[1..], tender, share, revenue);
      var r := buckets[0].revenue;
      assert Ratio(r, revenue) * revenue == r;
      assert tender * (share * Ratio(r, revenue)) * revenue == tender * share * r;
      Distribute(tender * (share * Ratio(r, revenue)), Attributed(buckets[1..], tender, share, revenue), revenue);
    }
  }

  lemma CancelRight(a: real, b: real, k: real)
    requires a * k == b * k && k != 0.0
    ensures a == b
  {
    assert (a - b) * k == 0.0;
  }

  lemma ShareBounds(o: Order, revenue: real)
    requires 0.0 <= revenue
    ensures 0.0 <= CafeShare(o, revenue) <= 1.0
    ensures CafeShare(o, revenue) == 1.0 <==> o.total <= revenue && 0.000001 <= revenue
  {
    var orderTotal := Larger(Larger(o.total, revenue), 0.000001);
    var q := revenue / orderTotal;
    assert q * orderTotal == revenue;
    if q < 1.0 {
      MulLess(q, 1.0, orderTotal);
    } else {
      MulMono(1.0, q, orderTotal);
    }
  }

  lemma MulLess(a: real, b: real, k: real)
    requires a < b && 0.0 < k
    ensures a * k < b * k
  {
  }

  lemma AttributedTotalShare(o: Order, buckets: seq<Bucket>, tender: real)
    requires AllBalanced(buckets)
    ensures Attributed(buckets, tender, CafeShare(o, Revenue(buckets)), Revenue(buckets)) ==
            tender * CafeShare(o, Revenue(buckets))
  {
    hide Attributed, Revenue, CafeShare, AllBalanced, Balanced;
    var revenue := Revenue(buckets);
    var share := CafeShare(o, revenue);
    RevenueNonNegative(buckets);
    if revenue > 0.0 {
      AttributedIsShare(buckets, tender, share, revenue);
      CancelRight(Attributed(buckets, tender, share, revenue), tender * share, revenue);
    } else {
      ShareOfNothing(o);
      NothingAttributed(buckets, tender, share, revenue);
    }
  }

  lemma ShareOfNothing(o: Order)
    ensures CafeShare(o, 0.0) == 0.0
  {
  }

  lemma ShareOfTender(tender: real, share: real)
    requires 0.0 <= tender && 0.0 <= share <= 1.0
    ensures 0.0 <= tender * share <= tender
    ensures 0.0 < tender ==> (tender * share == tender <==> share == 1.0)
  {
    MulMono(0.0, share, tender);
    MulMono(share, 1.0, tender);
    if 0.0 < tender && tender * share == tender {
      CancelRight(share, 1.0, tender);
    }
  }

  // The cafes together are attributed the cafe share of a tender: never more than the tender, and all of a positive
  // tender exactly when cafe revenue covers the order total and is at least a millionth.
  lemma TendersConserved(o: Order, buckets: seq<Bucket>, tender: real)
    requires AllBalanced(buckets) && 0.0 <= tender
    ensures var revenue := Revenue(buckets);
      var given := Attributed(buckets, tender, CafeShare(o, revenue), revenue);
      && 0.0 <= given <= tender
      && (0.0 < tender ==> (given == tender <==> o.total <= revenue && 0.000001 <= revenue))
  {
    hide Attributed, Revenue, CafeShare, AllBalanced;
    var revenue := Revenue(buckets);
    RevenueNonNegative(buckets);
    AttributedTotalShare(o, buckets, tender);
    ShareBounds(o, revenue);
    ShareOfTender(tender, CafeShare(o, revenue));
  }

  lemma {:induction false} NothingAttributed(buckets: seq<Bucket>, tender: real, share: real, revenue: real)
    requires revenue == 0.0
    ensures Attributed(buckets, tender, share, revenue) == 0.0
  {
    if buckets != [] {
      NothingAttributed(buckets[1..], tender, share, revenue);
    }
  }

  lemma {:induction false} RevenueNonNegative(buckets: seq<Bucket>)
    requires AllBalanced(buckets)
    ensures 0.0 <= Revenue(buckets)
  {
    if buckets != [] {
      assert Balanced(buckets[0]);
      RevenueNonNegative(buckets[1..]);
    }
  }

  // Sum of what the first `n` agents of a cafe are given of an amount.
  ghost function AgentsGiven(b: Bucket, n: nat, amount: real): real
    requires n <= |b.agents|
  {
    if n == 0 then 0.0 else AgentsGiven(b, n - 1, amount) + amount * Ratio(b.agents[n - 1].revenue, b.revenue)
  }

  ghost function Weight(b: Bucket, n: nat): real
    requires n <= |b.agents|
  {
    if n == 0 then 0.0 else Weight(b, n - 1) + Ratio(b.agents[n - 1].revenue, b.revenue)
  }

  lemma {:induction false} GivenIsWeighted(b: Bucket, n: nat, amount: real)
    requires n <= |b.agents|
    ensures AgentsGiven(b, n, amount) == amount * Weight(b, n)
  {
    if n > 0 {
      GivenIsWeighted(b, n - 1, amount);
      DistributeLeft(amount, Weight(b, n - 1), Ratio(b.agents[n - 1].revenue, b.revenue));
    }
  }

  lemma AgentRatio(b: Bucket, i: nat)
    requires Balanced(b) && i < |b.agents|
    ensures var ratio := Ratio(b.agents[i].revenue, b.revenue);
      0.0 <= ratio && ratio * b.revenue == b.agents[i].revenue && (b.revenue == 0.0 ==> ratio == 0.0)
  {
    PartWithinTotal(b.agents, i);
    RatioTimes(b.agents[i].revenue, b.revenue);
  }

  lemma PartsRevenueNone(parts: seq<Part>)
    ensures PartsRevenue(parts[..0]) == 0.0
  {
  }

  lemma WeightStep(weight: real, done: real, ratio: real, part: real, whole: real)
    requires weight * whole == done && ratio * whole == part
    ensures (weight + ratio) * whole == done + part
  {
    Distribute(weight, ratio, whole);
  }

  lemma {:induction false} WeightProportion(b: Bucket, n: nat)
    requires Balanced(b) && n <= |b.agents|
    ensures 0.0 <= Weight(b, n) && (b.revenue == 0.0 ==> Weight(b, n) == 0.0)
    ensures Weight(b, n) * b.revenue == PartsRevenue(b.agents[..n])
  {
    hide PartsRevenue, Ratio, Balanced;
    PartsRevenueNone(b.agents);
    if n > 0 {
      WeightProportion(b, n - 1);
      AgentRatio(b, n - 1);
      PartsRevenueSnoc(b.agents, n - 1);
      WeightStep(Weight(b, n - 1), PartsRevenue(b.agents[..n - 1]), Ratio(b.agents[n - 1].revenue, b.revenue),
                 b.agents[n - 1].revenue, b.revenue);
    }
  }

  lemma AtMostOne(weight: real, part: real, whole: real)
    requires weight * whole == part && part <= whole && 0.0 < whole
    ensures weight <= 1.0
  {
    if weight > 1.0 {
      MulLess(1.0, weight, whole);
    }
  }

  lemma WeightBounds(b: Bucket)
    requires Balanced(b)
    ensures 0.0 <= Weight(b, |b.agents|) <= 1.0
  {
    WeightProportion(b, |b.agents|);
    assert b.agents[..|b.agents|] == b.agents;
    if b.revenue > 0.0 {
      AtMostOne(Weight(b, |b.agents|), PartsRevenue(b.agents), b.revenue);
    }
  }

  lemma WithinAmount(weight: real, amount: real)
    requires 0.0 <= weight <= 1.0 && 0.0 <= amount
    ensures 0.0 <= amount * weight <= amount
  {
    MulMono(weight, 1.0, amount);
  }

  lemma AgentsWithinCafe(b: Bucket, amount: real)
    requires Balanced(b) && 0.0 <= amount
    ensures 0.0 <= AgentsGiven(b, |b.agents|, amount) <= amount
  {
    WeightBounds(b);
    WithinAmount(Weight(b, |b.agents|), amount);
    GivenIsWeighted(b, |b.agents|, amount);
  }

  lemma NonNegativeProduct(a: real, b: real)
    requires 0.0 <= a && 0.0 <= b
    ensures 0.0 <= a * b
  {
  }

  lemma {:induction false} PartWithinTotal(parts: seq<Part>, i: nat)
    requires i < |parts| && forall p | p in parts :: 0.0 <= p.revenue
    ensures 0.0 <= PartsRevenue(parts) && parts[i].revenue <= PartsRevenue(parts)
  {
    if |parts| > 1 {
      PartWithinTotal(parts[1..], if i > 0 then i - 1 else 0);
    }
  }

  lemma RatioTimes(part: real, whole: real)
    requires 0.0 <= part && 0.0 <= whole && (whole <= 0.0 ==> part == 0.0)
    ensures Ratio(part, whole) * whole == part && 0.0 <= Ratio(part, whole)
  {
  }

  lemma RatioNonNegative(share: real, part: real, whole: real)
    requires 0.0 <= share && 0.0 <= part && 0.0 <= whole
    ensures 0.0 <= share * Ratio(part, whole)
  {
    MulMono(0.0, share, Ratio(part, whole));
  }

  lemma DistributeLeft(k: real, a: real, b: real)
    ensures k * (a + b) == k * a + k * b
  {
  }

  lemma {:induction false} PartsRevenueSnoc(parts: seq<Part>, i: nat)
    requires i < |parts|
    ensures PartsRevenue(parts[..i + 1]) == PartsRevenue(parts[..i]) + parts[i].revenue
  {
    if i > 0 {
      PartsRevenueSnoc(parts[1..], i - 1);
      assert parts[..i + 1][1..] == parts[1..][..i] && parts[..i][1..] == parts[1..][..i - 1];
    }
  }
}
