/**
 The keyed accumulators of prisma/sync-perf-order-rollups.ts. Each `bump*` function looks a row up in a JavaScript
 Map under the string `[...dimensions].join('|')`, stores the row when the key is new, and otherwise adds the measures
 in place. A Map iterates in insertion order, so it is modelled as the sequence of its rows.
 */
module RollupRows {

  // Money is in thousandths, the scale of every decimal column involved.
  datatype Amounts = Amounts(
    orders: int, admits: int, qty: int, revenue: int,
    ticketsNet: int, addonsNet: int, cash: int, card: int)
  {
    function Plus(b: Amounts): Amounts {
      Amounts(orders + b.orders, admits + b.admits, qty + b.qty, revenue + b.revenue,
              ticketsNet + b.ticketsNet, addonsNet + b.addonsNet, cash + b.cash, card + b.card)
    }
  }

  datatype Measure = OrderCount | Admits | Qty | Revenue | TicketsNet | AddonsNet | Cash | Card

  function At(a: Amounts, m: Measure): int {
    match m
    case OrderCount => a.orders
    case Admits => a.admits
    case Qty => a.qty
    case Revenue => a.revenue
    case TicketsNet => a.ticketsNet
    case AddonsNet => a.addonsNet
    case Cash => a.cash
    case Card => a.card
  }

  // `dims` are the components of the map key; `caption` is the one attribute that is overwritten by later rows.
  datatype Row = Row(dims: seq<string>, amounts: Amounts, caption: string)

  function Join(parts: seq<string>): string {
    if parts == [] then ""
    else if |parts| == 1 then parts[0]
    else parts[0] + "|" + Join(parts[1..])
  }

  function Bumped(rows: seq<Row>, row: Row): seq<Row> {
    if rows == [] then [row]
    else if Join(rows[0].dims) == Join(row.dims) then
      [Row(rows[0].dims, rows[0].amounts.Plus(row.amounts), row.caption)] + rows[1..]
    else [rows[0]] + Bumped(rows[1..], row)
  }

  function BumpAll(rows: seq<Row>, entries: seq<Row>): seq<Row> {
    if entries == [] then rows
    else Bumped(BumpAll(rows, entries[..|entries| - 1]), entries[|entries| - 1])
  }

  // ----- key injectivity

  predicate Plain(s: string) {
    '|' !in s
  }

  // All components but the one at `free` are known to contain no separator.
  predicate Shaped(dims: seq<string>, n: nat, free: nat) {
    |dims| == n && forall i | 0 <= i < n && i != free :: Plain(dims[i])
  }

  lemma SplitFirst(p: string, x: string, q: string, y: string)
    requires Plain(p) && Plain(q) && p + "|" + x == q + "|" + y
    ensures p == q && x == y
  {
    var s := p + "|" + x;
    assert s[|p|] == '|' && s[|q|] == '|';
    forall k | 0 <= k < |p| ensures s[k] != '|' {
      assert s[k] == p[k];
    }
    forall k | 0 <= k < |q| ensures s[k] != '|' {
      assert s[k] == q[k];
    }
    assert p == s[..|p|] && x == s[|p| + 1..];
    assert q == s[..|q|] && y == s[|q| + 1..];
  }

  lemma SplitLast(p: string, x: string, q: string, y: string)
    requires Plain(x) && Plain(y) && p + "|" + x == q + "|" + y
    ensures p == q && x == y
  {
    var s := p + "|" + x;
    assert s == q + "|" + y;
    assert s[|p|] == '|' && s[|q|] == '|';
    forall k | |p| < k < |s| ensures s[k] != '|' {
      assert s[k] == x[k - |p| - 1];
    }
    forall k | |q| < k < |s| ensures s[k] != '|' {
      assert s[k] == y[k - |q| - 1];
    }
    assert p == s[..|p|] && x == s[|p| + 1..];
    assert q == s[..|q|] && y == s[|q| + 1..];
  }

  lemma {:induction false} JoinSplitsLast(parts: seq<string>)
    requires |parts| > 1
    ensures Join(parts) == Join(parts[..|parts| - 1]) + "|" + parts[|parts| - 1]
  {
    var n := |parts|;
    if n > 2 {
      JoinSplitsLast(parts[1..]);
      assert parts[1..][..n - 2] == parts[..n - 1][1..];
    }
  }

  // Two keys with at most one unrestricted component are equal only when every component is.
  lemma {:induction false} JoinInjective(a: seq<string>, b: seq<string>, n: nat, free: nat)
    requires Shaped(a, n, free) && Shaped(b, n, free)
    requires Join(a) == Join(b)
    ensures a == b
    decreases n
  {
    if n > 1 {
      if free == 0 {
        JoinSplitsLast(a);
        JoinSplitsLast(b);
        SplitLast(Join(a[..n - 1]), a[n - 1], Join(b[..n - 1]), b[n - 1]);
        JoinInjective(a[..n - 1], b[..n - 1], n - 1, 0);
        assert a == a[..n - 1] + [a[n - 1]] && b == b[..n - 1] + [b[n - 1]];
      } else {
        SplitFirst(a[0], Join(a[1..]), b[0], Join(b[1..]));
        JoinInjective(a[1..], b[1..], n - 1, free - 1);
        assert a == [a[0]] + a[1..] && b == [b[0]] + b[1..];
      }
    }
  }

  // One unrestricted component is the most a joined key can carry.
  lemma JoinAmbiguousWithTwoFree(x: string, y: string, z: string)
    ensures Join([x + "|" + y, z]) == Join([x, y + "|" + z])
    ensures [x + "|" + y, z] != [x, y + "|" + z]
  {
  }

  // ----- the accumulators agree with a plain group-by

  predicate AllShaped(rows: seq<Row>, n: nat, free: nat) {
    forall r | r in rows :: Shaped(r.dims, n, free)
  }

  predicate Distinct(rows: seq<Row>) {
    forall i, j | 0 <= i < j < |rows| :: rows[i].dims != rows[j].dims
  }

  predicate HasDims(rows: seq<Row>, d: seq<string>) {
    exists r :: r in rows && r.dims == d
  }

  // The part of a measure that one row brings to the total of the keys that satisfy `p`.
  ghost function Counted(r: Row, p: seq<string> -> bool, m: Measure): int {
    if p(r.dims) then At(r.amounts, m) else 0
  }

  ghost function Sum(rows: seq<Row>, p: seq<string> -> bool, m: Measure): int {
    if rows == [] then 0 else Sum(rows[..|rows| - 1], p, m) + Counted(rows[|rows| - 1], p, m)
  }

  ghost function LastCaption(rows: seq<Row>, dims: seq<string>): string {
    if rows == [] then ""
    else if rows[|rows| - 1].dims == dims then rows[|rows| - 1].caption
    else LastCaption(rows[..|rows| - 1], dims)
  }

  ghost function Exactly(dims: seq<string>): seq<string> -> bool {
    d => d == dims
  }

  lemma {:induction false} SumSplits(a: seq<Row>, b: seq<Row>, p: seq<string> -> bool, m: Measure)
    ensures Sum(a + b, p, m) == Sum(a, p, m) + Sum(b, p, m)
  {
    if b == [] {
      assert a + b == a;
    } else {
      var n := |b| - 1;
      SumSplits(a, b[..n], p, m);
      assert a + b == a + b[..n] + [b[n]];
      SumSnoc(a + b[..n], b[n], p, m);
    }
  }

  lemma SumNone(p: seq<string> -> bool, m: Measure)
    ensures Sum([], p, m) == 0
  {
  }

  lemma SumSnoc(rows: seq<Row>, r: Row, p: seq<string> -> bool, m: Measure)
    ensures Sum(rows + [r], p, m) == Sum(rows, p, m) + Counted(r, p, m)
  {
    assert (rows + [r])[..|rows|] == rows;
  }

  lemma SumSingle(r: Row, p: seq<string> -> bool, m: Measure)
    ensures Sum([r], p, m) == Counted(r, p, m)
  {
  }

  lemma {:induction false} BumpAllSplits(rows: seq<Row>, a: seq<Row>, b: seq<Row>)
    ensures BumpAll(rows, a + b) == BumpAll(BumpAll(rows, a), b)
  {
    if b == [] {
      assert a + b == a;
    } else {
      BumpAllSplits(rows, a, b[..|b| - 1]);
      assert (a + b)[..|a + b| - 1] == a + b[..|b| - 1];
    }
  }

  lemma BumpAllNone(rows: seq<Row>)
    ensures BumpAll(rows, []) == rows
  {
  }

  lemma BumpAllSnoc(rows: seq<Row>, a: seq<Row>, r: Row)
    ensures BumpAll(rows, a + [r]) == Bumped(BumpAll(rows, a), r)
  {
    assert (a + [r])[..|a + [r]| - 1] == a;
  }

  lemma BumpAllSingle(rows: seq<Row>, r: Row)
    ensures BumpAll(rows, [r]) == Bumped(rows, r)
  {
  }

  // `after` is `before` with `row` merged into the row of the same dimensions at `k`, or appended when there is none.
  ghost predicate MergedAt(before: seq<Row>, row: Row, after: seq<Row>, k: nat) {
    && k <= |before|
    && (forall i | 0 <= i < k :: before[i].dims != row.dims)
    && (if k == |before| then after == before + [row]
        else
          && before[k].dims == row.dims
          && after == before[k := Row(row.dims, before[k].amounts.Plus(row.amounts), row.caption)])
  }

  lemma {:induction false} BumpedAt(rows: seq<Row>, row: Row, n: nat, free: nat) returns (k: nat)
    requires AllShaped(rows, n, free) && Shaped(row.dims, n, free)
    ensures MergedAt(rows, row, Bumped(rows, row), k)
  {
    if rows == [] {
      k := 0;
    } else if Join(rows[0].dims) == Join(row.dims) {
      JoinInjective(rows[0].dims, row.dims, n, free);
      k := 0;
    } else {
      var k' := BumpedAt(rows[1..], row, n, free);
      k := k' + 1;
    }
  }

  lemma {:induction false} SumUpdated(rows: seq<Row>, k: nat, r: Row, p: seq<string> -> bool, m: Measure)
    requires k < |rows| && r.dims == rows[k].dims
    ensures Sum(rows[k := r], p, m) == Sum(rows, p, m) - Counted(rows[k], p, m) + Counted(r, p, m)
  {
    var n := |rows| - 1;
    if k < n {
      SumUpdated(rows[..n], k, r, p, m);
      assert rows[k := r][..n] == rows[..n][k := r];
    } else {
      assert rows[k := r][..n] == rows[..n];
    }
  }

  lemma MergedSum(before: seq<Row>, row: Row, after: seq<Row>, k: nat, p: seq<string> -> bool, m: Measure)
    requires MergedAt(before, row, after, k)
    ensures Sum(after, p, m) == Sum(before, p, m) + Counted(row, p, m)
  {
    if k < |before| {
      SumUpdated(before, k, after[k], p, m);
    } else {
      SumSnoc(before, row, p, m);
    }
  }

  lemma MergedKeepsDistinct(before: seq<Row>, row: Row, after: seq<Row>, k: nat)
    requires MergedAt(before, row, after, k) && Distinct(before)
    ensures Distinct(after)
  {
  }

  lemma MergedDims(before: seq<Row>, row: Row, after: seq<Row>, k: nat, d: seq<string>)
    requires MergedAt(before, row, after, k)
    ensures HasDims(after, d) <==> HasDims(before, d) || d == row.dims
  {
    assert after[k].dims == row.dims && after[k] in after;
    if r :| r in after && r.dims == d {
      var i :| 0 <= i < |after| && after[i] == r;
      if i != k {
        assert before[i] in before;
      }
    }
    if r :| r in before && r.dims == d {
      var i :| 0 <= i < |before| && before[i] == r;
      if i != k {
        assert after[i] in after;
      }
    }
  }

  // The accumulator has one row per distinct key of the bumped entries, and its caption is the one bumped last.
  lemma {:induction false} GroupBy(entries: seq<Row>, n: nat, free: nat)
    requires AllShaped(entries, n, free)
    ensures Distinct(BumpAll([], entries)) && AllShaped(BumpAll([], entries), n, free)
    ensures forall d :: HasDims(BumpAll([], entries), d) <==> HasDims(entries, d)
    ensures forall r | r in BumpAll([], entries) :: r.caption == LastCaption(entries, r.dims)
  {
    if entries != [] {
      var m := |entries| - 1;
      var rest, row := entries[..m], entries[m];
      GroupBy(rest, n, free);
      var before, after := BumpAll([], rest), BumpAll([], entries);
      var k := BumpedAt(before, row, n, free);
      MergedKeepsDistinct(before, row, after, k);
      forall d ensures HasDims(after, d) <==> HasDims(entries, d) {
        MergedDims(before, row, after, k, d);
        HasDimsSnoc(rest, row, d);
        assert entries == rest + [row];
      }
      forall r | r in after ensures r.caption == LastCaption(entries, r.dims) && Shaped(r.dims, n, free) {
        if r.dims != row.dims {
          assert r in before;
        } else {
          assert r == after[k];
        }
      }
    }
  }

  lemma HasDimsSnoc(rest: seq<Row>, row: Row, d: seq<string>)
    ensures HasDims(rest + [row], d) <==> HasDims(rest, d) || d == row.dims
  {
  }

  // For every way of selecting keys, the rows of the accumulator total what the bumped entries total.
  lemma {:induction false} GroupBySum(entries: seq<Row>, n: nat, free: nat, p: seq<string> -> bool, m: Measure)
    requires AllShaped(entries, n, free)
    ensures Sum(BumpAll([], entries), p, m) == Sum(entries, p, m)
  {
    if entries != [] {
      var last := |entries| - 1;
      GroupBySum(entries[..last], n, free, p, m);
      GroupBy(entries[..last], n, free);
      var k := BumpedAt(BumpAll([], entries[..last]), entries[last], n, free);
      MergedSum(BumpAll([], entries[..last]), entries[last], BumpAll([], entries), k, p, m);
    }
  }

  lemma {:induction false} SumAbsent(rows: seq<Row>, d: seq<string>, m: Measure)
    requires forall r | r in rows :: r.dims != d
    ensures Sum(rows, Exactly(d), m) == 0
  {
    if rows != [] {
      SumAbsent(rows[..|rows| - 1], d, m);
    }
  }

  lemma {:induction false} SumOfOneRow(rows: seq<Row>, r: Row, m: Measure)
    requires Distinct(rows) && r in rows
    ensures Sum(rows, Exactly(r.dims), m) == At(r.amounts, m)
  {
    var n := |rows| - 1;
    if rows[n] == r {
      SumAbsent(rows[..n], r.dims, m);
    } else {
      var i :| 0 <= i < |rows| && rows[i] == r;
      assert rows[..n][i] == r;
      SumOfOneRow(rows[..n], r, m);
    }
  }

  // A row of the accumulator holds the totals of the entries with its dimensions.
  lemma RowIsGroupTotal(entries: seq<Row>, n: nat, free: nat, r: Row, m: Measure)
    requires AllShaped(entries, n, free) && r in BumpAll([], entries)
    ensures At(r.amounts, m) == Sum(entries, Exactly(r.dims), m)
  {
    GroupBy(entries, n, free);
    GroupBySum(entries, n, free, Exactly(r.dims), m);
    SumOfOneRow(BumpAll([], entries), r, m);
  }
}
