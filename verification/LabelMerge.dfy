/**
 prisma/backfill-payment-method-labels.ts: legacy payment labels are replaced in place in a table whose rows are unique
 by event, day, basis, label and currency. A row whose new key is taken is merged into the row that has it.
 */
module LabelMerge {
  import opened Prelude

  type Id = nat

  datatype Key = Key(event: Id, day: int, byEvent: bool, methodLabel: string, currency: string)

  datatype Measure = Orders | Admits | Revenue

  datatype Row = Row(key: Key, orders: int, admits: int, revenue: int)

  datatype Pair = Pair(legacy: string, next: string)

  function At(row: Row, m: Measure): int {
    match m
    case Orders => row.orders
    case Admits => row.admits
    case Revenue => row.revenue
  }

  predicate Unique(rows: map<Id, Row>) {
    forall a, b | a in rows && b in rows && rows[a].key == rows[b].key :: a == b
  }

  // ----- totals over a table

  function Weight(row: Row, f: Key -> bool, m: Measure): int {
    if f(row.key) then At(row, m) else 0
  }

  ghost function Pick(rows: map<Id, Row>): (id: Id)
    requires |rows| > 0
    ensures id in rows
  {
    var id :| id in rows;
    id
  }

  // Sum of a measure over the rows whose key is selected.
  ghost function Total(rows: map<Id, Row>, f: Key -> bool, m: Measure): int
    decreases |rows|
  {
    if |rows| == 0 then 0 else Weight(rows[Pick(rows)], f, m) + Total(rows - {Pick(rows)}, f, m)
  }

  lemma {:induction false} TotalWithout(rows: map<Id, Row>, id: Id, f: Key -> bool, m: Measure)
    requires id in rows
    ensures Total(rows, f, m) == Weight(rows[id], f, m) + Total(rows - {id}, f, m)
    decreases |rows|
  {
    hide Weight;
    var first := Pick(rows);
    if first != id {
      TotalWithout(rows - {first}, id, f, m);
      TotalWithout(rows - {id}, first, f, m);
      assert rows - {first} - {id} == rows - {id} - {first};
    }
  }

  lemma TotalUpdated(rows: map<Id, Row>, id: Id, row: Row, f: Key -> bool, m: Measure)
    requires id in rows
    ensures Total(rows[id := row], f, m) ==
            Total(rows, f, m) - Weight(rows[id], f, m) + Weight(row, f, m)
  {
    hide Weight, Total;
    TotalWithout(rows, id, f, m);
    TotalWithout(rows[id := row], id, f, m);
    assert rows[id := row] - {id} == rows - {id};
  }

  ghost predicate AnySelected(rows: map<Id, Row>, f: Key -> bool) {
    exists id :: id in rows && f(rows[id].key)
  }

  // ----- one row

  function Moved(key: Key, next: string): Key {
    key.(methodLabel := next)
  }

  function Merged(into: Row, row: Row): Row {
    Row(into.key, into.orders + row.orders, into.admits + row.admits, into.revenue + row.revenue)
  }

  // A selection that does not tell the two labels apart.
  ghost predicate Respects(f: Key -> bool, legacy: string, next: string) {
    forall key: Key | key.methodLabel == legacy :: f(key) == f(Moved(key, next))
  }

  // What relabelling keeps: every total, and whether any row is selected.
  ghost predicate Keeps(before: map<Id, Row>, after: map<Id, Row>, legacy: string, next: string) {
    && (forall f: Key -> bool, m | Respects(f, legacy, next) :: Total(after, f, m) == Total(before, f, m))
    && (forall f: Key -> bool | Respects(f, legacy, next) :: AnySelected(after, f) <==> AnySelected(before, f))
  }

  lemma RelabelledKeeps(rows: map<Id, Row>, id: Id, next: string)
    requires id in rows
    ensures Keeps(rows, rows[id := rows[id].(key := Moved(rows[id].key, next))], rows[id].key.methodLabel, next)
  {
    hide Total;
    var row := rows[id].(key := Moved(rows[id].key, next));
    var after := rows[id := row];
    forall f: Key -> bool, m | Respects(f, rows[id].key.methodLabel, next)
      ensures Total(after, f, m) == Total(rows, f, m)
    {
      TotalUpdated(rows, id, row, f, m);
    }
    forall f: Key -> bool | Respects(f, rows[id].key.methodLabel, next)
      ensures AnySelected(after, f) <==> AnySelected(rows, f)
    {
      forall other | other in rows ensures f(after[other].key) == f(rows[other].key) {
      }
    }
  }

  lemma MergedKeeps(rows: map<Id, Row>, id: Id, into: Id, next: string)
    requires id in rows && into in rows && id != into && rows[into].key == Moved(rows[id].key, next)
    ensures Keeps(rows, rows[into := Merged(rows[into], rows[id])] - {id}, rows[id].key.methodLabel, next)
  {
    hide Total;
    var row := Merged(rows[into], rows[id]);
    var both := rows[into := row];
    forall f: Key -> bool, m | Respects(f, rows[id].key.methodLabel, next)
      ensures Total(both - {id}, f, m) == Total(rows, f, m)
    {
      TotalUpdated(rows, into, row, f, m);
      TotalWithout(both, id, f, m);
    }
    forall f: Key -> bool | Respects(f, rows[id].key.methodLabel, next)
      ensures AnySelected(both - {id}, f) <==> AnySelected(rows, f)
    {
      if AnySelected(rows, f) {
        var other :| other in rows && f(rows[other].key);
        var kept := if other == id then into else other;
        assert kept in both - {id} && f((both - {id})[kept].key);
      }
    }
  }

  lemma KeepsTrans(a: map<Id, Row>, b: map<Id, Row>, c: map<Id, Row>, legacy: string, next: string)
    requires Keeps(a, b, legacy, next) && Keeps(b, c, legacy, next)
    ensures Keeps(a, c, legacy, next)
  {
    hide Total, AnySelected;
  }

  lemma KeepsSelf(rows: map<Id, Row>, legacy: string, next: string)
    ensures Keeps(rows, rows, legacy, next)
  {
  }

  // ----- all labels

  predicate IsLegacy(pairs: seq<Pair>, text: string) {
    exists pair :: pair in pairs && pair.legacy == text
  }

  // Legacy labels are listed once, and none of them is a new label.
  predicate WellChosen(pairs: seq<Pair>) {
    && (forall i, j | 0 <= i < j < |pairs| :: pairs[i].legacy != pairs[j].legacy)
    && (forall pair | pair in pairs :: !IsLegacy(pairs, pair.next))
  }

  function Rename(pairs: seq<Pair>, text: string): string {
    if pairs == [] then text else if pairs[0].legacy == text then pairs[0].next else Rename(pairs[1..], text)
  }

  function Renamed(pairs: seq<Pair>, key: Key): Key {
    Moved(key, Rename(pairs, key.methodLabel))
  }

  lemma {:induction false} RenameOf(pairs: seq<Pair>, text: string)
    ensures !IsLegacy(pairs, text) ==> Rename(pairs, text) == text
    ensures IsLegacy(pairs, text) ==> Pair(text, Rename(pairs, text)) in pairs
  {
    if pairs != [] {
      assert pairs == [pairs[0]] + pairs[1..];
      RenameOf(pairs[1..], text);
    }
  }

  lemma RenameListed(pairs: seq<Pair>, pair: Pair)
    requires WellChosen(pairs) && pair in pairs
    ensures Rename(pairs, pair.legacy) == pair.next && Rename(pairs, pair.next) == pair.next
  {
    RenameOf(pairs, pair.legacy);
    RenameOf(pairs, pair.next);
    assert IsLegacy(pairs, pair.legacy);
  }

  ghost predicate RespectsAll(f: Key -> bool, pairs: seq<Pair>) {
    forall pair | pair in pairs :: Respects(f, pair.legacy, pair.next)
  }

  ghost predicate KeepsAll(before: map<Id, Row>, after: map<Id, Row>, pairs: seq<Pair>) {
    && (forall f: Key -> bool, m | RespectsAll(f, pairs) :: Total(after, f, m) == Total(before, f, m))
    && (forall f: Key -> bool | RespectsAll(f, pairs) :: AnySelected(after, f) <==> AnySelected(before, f))
  }

  predicate NoLegacy(rows: map<Id, Row>, pairs: seq<Pair>) {
    forall id | id in rows :: !IsLegacy(pairs, rows[id].key.methodLabel)
  }

  lemma KeepsMore(a: map<Id, Row>, b: map<Id, Row>, c: map<Id, Row>, pairs: seq<Pair>, pair: Pair)
    requires KeepsAll(a, b, pairs) && Keeps(b, c, pair.legacy, pair.next) && pair in pairs
    ensures KeepsAll(a, c, pairs)
  {
    hide Total, AnySelected, Respects;
  }

  lemma KeepsAllSelf(rows: map<Id, Row>, pairs: seq<Pair>)
    ensures KeepsAll(rows, rows, pairs)
  {
  }

  lemma {:induction false} RenameSnoc(pairs: seq<Pair>, i: nat, text: string)
    requires i < |pairs| && WellChosen(pairs)
    ensures Rename(pairs[..i + 1], text) == Rename([pairs[i]], Rename(pairs[..i], text))
  {
    hide Rename;
    RenameOf(pairs[..i + 1], text);
    RenameOf(pairs[..i], text);
    RenameOf([pairs[i]], Rename(pairs[..i], text));
    assert pairs[..i + 1] == pairs[..i] + [pairs[i]];
    assert forall pair | pair in pairs[..i + 1] :: pair in pairs;
  }

  lemma {:induction false} TotalOfNone(rows: map<Id, Row>, f: Key -> bool, m: Measure)
    requires forall id | id in rows :: !f(rows[id].key)
    ensures Total(rows, f, m) == 0
    decreases |rows|
  {
    if |rows| > 0 {
      TotalOfNone(rows - {Pick(rows)}, f, m);
    }
  }

  lemma TotalOfOne(rows: map<Id, Row>, id: Id, f: Key -> bool, m: Measure)
    requires id in rows && f(rows[id].key) && forall other | other in rows && other != id :: !f(rows[other].key)
    ensures Total(rows, f, m) == At(rows[id], m)
  {
    TotalWithout(rows, id, f, m);
    TotalOfNone(rows - {id}, f, m);
  }

  lemma RenamedRespects(pairs: seq<Pair>, key: Key)
    requires WellChosen(pairs)
    ensures RespectsAll(k => Renamed(pairs, k) == key, pairs)
  {
    forall pair | pair in pairs ensures Respects(k => Renamed(pairs, k) == key, pair.legacy, pair.next) {
      RenameListed(pairs, pair);
    }
  }

  // The table after is the group-by of the table before over renamed keys: a key is present exactly when some row had
  // it after renaming, and its row then holds the sums of those rows.
  lemma BackfilledIsGroupBy(before: map<Id, Row>, after: map<Id, Row>, pairs: seq<Pair>, key: Key)
    requires WellChosen(pairs) && Unique(after) && NoLegacy(after, pairs) && KeepsAll(before, after, pairs)
    ensures (exists id :: id in after && after[id].key == key) <==>
            (exists id :: id in before && Renamed(pairs, before[id].key) == key)
    ensures forall id, m | id in after && after[id].key == key ::
      At(after[id], m) == Total(before, k => Renamed(pairs, k) == key, m)
  {
    hide Total, RespectsAll, WellChosen;
    var f := k => Renamed(pairs, k) == key;
    RenamedRespects(pairs, key);
    forall id | id in after ensures f(after[id].key) <==> after[id].key == key {
      RenameOf(pairs, after[id].key.methodLabel);
    }
    assert AnySelected(after, f) <==> AnySelected(before, f);
    forall id, m | id in after && after[id].key == key ensures At(after[id], m) == Total(before, f, m) {
      TotalOfOne(after, id, f, m);
    }
  }

  // Sums per event, day, basis and currency are kept.
  lemma GroupSumsKept(before: map<Id, Row>, after: map<Id, Row>, pairs: seq<Pair>, group: Key, m: Measure)
    requires KeepsAll(before, after, pairs)
    ensures var f := (k: Key) => Moved(k, "") == Moved(group, ""); Total(after, f, m) == Total(before, f, m)
  {
    hide Total;
    var f := (k: Key) => Moved(k, "") == Moved(group, "");
    assert RespectsAll(f, pairs);
  }

  // ----- the labels of the script

  function LegacyPairs(): seq<Pair> {
    [Pair("MyFatoorah-7", "Qpay"), Pair("MyFatoorah-8", "MPGS"), Pair("MyFatoorah-10", "Myfatoorah . ApplePay"),
     Pair("MyFatoorah-11", "Myfatoorah . Googlepay"), Pair("MyFatoorah-12", "Myfatoorah . Card")]
  }

  lemma LegacyPairsWellChosen()
    ensures WellChosen(LegacyPairs())
  {
    var pairs := LegacyPairs();
    assert forall pair | pair in pairs :: |pair.legacy| in {12, 13} && |pair.next| in {4, 17, 21, 22};
    LegacyDistinct();
  }

  lemma LegacyLabels()
    ensures var to := (text: string) => Rename(LegacyPairs(), text);
      && to("MyFatoorah-7") == "Qpay" && to("MyFatoorah-8") == "MPGS"
      && to("MyFatoorah-10") == "Myfatoorah . ApplePay" && to("MyFatoorah-11") == "Myfatoorah . Googlepay"
      && to("MyFatoorah-12") == "Myfatoorah . Card"
    ensures |LegacyPairs()| == 5
  {
    hide Rename, WellChosen;
    LegacyPairsWellChosen();
    forall pair | pair in LegacyPairs() { RenameListed(LegacyPairs(), pair); }
    var pairs := LegacyPairs();
    assert pairs[0] in pairs && pairs[1] in pairs && pairs[2] in pairs && pairs[3] in pairs && pairs[4] in pairs;
  }

  lemma LegacyDistinct()
    ensures var pairs := LegacyPairs(); forall i, j | 0 <= i < j < |pairs| :: pairs[i].legacy != pairs[j].legacy
  {
  }

  // The key of one row is renamed, and the row may be gone.
  predicate OneMoved(before: map<Id, Row>, after: map<Id, Row>, id: Id, next: string) {
    && id in before
    && (forall other | other in after ::
          other in before && after[other].key == if other == id then Moved(before[id].key, next) else before[other].key)
    && (forall other | other in before && other != id :: other in after)
  }

  // Rows with the legacy label are the ones still listed; the other rows kept or were given their new key.
  ghost predicate SomeMoved(before: map<Id, Row>, after: map<Id, Row>, legacy: string, next: string, left: seq<Id>) {
    && (forall id | id in left :: id in after && after[id].key.methodLabel == legacy)
    && (forall id | id in after && after[id].key.methodLabel == legacy :: id in left)
    && (forall id | id in after ::
          id in before &&
          (after[id].key == before[id].key || after[id].key == Renamed([Pair(legacy, next)], before[id].key)))
  }

  predicate AllMoved(before: map<Id, Row>, after: map<Id, Row>, legacy: string, next: string) {
    forall id | id in after :: id in before && after[id].key == Renamed([Pair(legacy, next)], before[id].key)
  }

  lemma RenamedOne(legacy: string, next: string, key: Key)
    ensures Renamed([Pair(legacy, next)], key) == if key.methodLabel == legacy then Moved(key, next) else key
  {
    var pairs := [Pair(legacy, next)];
    assert pairs[0].legacy == legacy && pairs[1..] == [];
    assert Rename(pairs, key.methodLabel) == if key.methodLabel == legacy then next else key.methodLabel;
  }

  // Neither outcome of a move disturbs the other keys, and both leave keys unique.
  lemma MoveOne(rows: map<Id, Row>, id: Id, next: string)
    requires Unique(rows) && id in rows
    ensures forall into | into in rows && into != id && rows[into].key == Moved(rows[id].key, next) ::
      var after := rows[into := Merged(rows[into], rows[id])] - {id};
      Unique(after) && OneMoved(rows, after, id, next)
    ensures (forall into | into in rows :: rows[into].key != Moved(rows[id].key, next)) ==>
      var after := rows[id := rows[id].(key := Moved(rows[id].key, next))];
      Unique(after) && OneMoved(rows, after, id, next)
  {
  }

  lemma NoneMoved(rows: map<Id, Row>, legacy: string, next: string, left: seq<Id>)
    requires forall id :: id in left <==> id in rows && rows[id].key.methodLabel == legacy
    ensures SomeMoved(rows, rows, legacy, next, left)
  {
  }

  lemma FirstLeft(before: map<Id, Row>, after: map<Id, Row>, legacy: string, next: string, left: seq<Id>)
    requires SomeMoved(before, after, legacy, next, left) && left != []
    ensures left[0] in after && after[left[0]].key.methodLabel == legacy
  {
  }

  lemma MovedOneMore(before: map<Id, Row>, start: map<Id, Row>, after: map<Id, Row>, legacy: string, next: string,
                     id: Id, left: seq<Id>)
    requires legacy != next && SomeMoved(before, start, legacy, next, [id] + left) && OneMoved(start, after, id, next)
    requires id !in left
    ensures SomeMoved(before, after, legacy, next, left)
  {
    hide Renamed;
    forall other ensures other in [id] + left <==> other == id || other in left { }
    forall other | other in after ensures other in before &&
      (after[other].key == before[other].key || after[other].key == Renamed([Pair(legacy, next)], before[other].key))
    {
      RenamedOne(legacy, next, before[other].key);
    }
  }

  predicate AllRenamed(before: map<Id, Row>, after: map<Id, Row>, pairs: seq<Pair>) {
    forall id | id in after :: id in before && after[id].key == Renamed(pairs, before[id].key)
  }

  lemma NoneRenamed(rows: map<Id, Row>)
    ensures AllRenamed(rows, rows, []) && forall text :: Rename([], text) == text
  {
  }

  lemma RenamedMore(before: map<Id, Row>, start: map<Id, Row>, after: map<Id, Row>, pairs: seq<Pair>, i: nat)
    requires i < |pairs| && WellChosen(pairs) && AllRenamed(before, start, pairs[..i])
    requires AllMoved(start, after, pairs[i].legacy, pairs[i].next)
    ensures AllRenamed(before, after, pairs[..i + 1])
  {
    hide Rename;
    forall id | id in after {
      RenameSnoc(pairs, i, before[id].key.methodLabel);
    }
  }

  lemma ListedPair(pairs: seq<Pair>, i: nat)
    requires i < |pairs| && WellChosen(pairs)
    ensures pairs[i] in pairs && IsLegacy(pairs, pairs[i].legacy) && pairs[i].legacy != pairs[i].next
  {
  }

  lemma RenamedNoLegacy(before: map<Id, Row>, after: map<Id, Row>, pairs: seq<Pair>)
    requires WellChosen(pairs) && AllRenamed(before, after, pairs)
    ensures NoLegacy(after, pairs)
  {
    hide Rename;
    forall id | id in after ensures !IsLegacy(pairs, after[id].key.methodLabel) {
      RenameOf(pairs, before[id].key.methodLabel);
    }
  }

  lemma MovedAll(before: map<Id, Row>, after: map<Id, Row>, legacy: string, next: string)
    requires SomeMoved(before, after, legacy, next, [])
    ensures AllMoved(before, after, legacy, next)
  {
    hide Renamed;
    forall id | id in after { RenamedOne(legacy, next, before[id].key); }
  }

  // ----- the script

  class Backfill {
    var rows: map<Id, Row>
    var orders: map<Id, string>

    method LabelledRows(text: string) returns (ids: seq<Id>)
      ensures forall id :: id in ids <==> id in rows && rows[id].key.methodLabel == text
      ensures forall i, j | 0 <= i < j < |ids| :: ids[i] != ids[j]
    {
      var left := set id | id in rows && rows[id].key.methodLabel == text;
      ids := [];
      while left != {}
        invariant forall id :: id in rows && rows[id].key.methodLabel == text <==> id in ids || id in left
        invariant forall id | id in ids :: id !in left
        invariant forall i, j | 0 <= i < j < |ids| :: ids[i] != ids[j]
        decreases left
      {
        var id :| id in left;
        ids := ids + [id];
        left := left - {id};
      }
    }

    // Relabels one row, or merges it into the row that has the new key.
    method MoveRow(id: Id, next: string)
      requires Unique(rows) && id in rows && rows[id].key.methodLabel != next
      modifies `rows
      ensures Unique(rows) && Keeps(old(rows), rows, old(rows)[id].key.methodLabel, next)
      ensures OneMoved(old(rows), rows, id, next)
    {
      hide Keeps, OneMoved;
      MoveOne(rows, id, next);
      var row := rows[id];
      if existing :| existing in rows && rows[existing].key == Moved(row.key, next) {
        MergedKeeps(rows, id, existing, next);
        rows := rows[existing := Merged(rows[existing], row)];
        rows := rows - {id};
      } else {
        RelabelledKeeps(rows, id, next);
        rows := rows[id := row.(key := Moved(row.key, next))];
      }
    }

    method RelabelRows(legacy: string, next: string)
      requires Unique(rows) && legacy != next
      modifies `rows
      ensures Unique(rows) && Keeps(old(rows), rows, legacy, next)
      ensures AllMoved(old(rows), rows, legacy, next)
      ensures (forall id | id in old(rows) :: old(rows)[id].key.methodLabel != legacy) ==> rows == old(rows)
    {
      hide Keeps, SomeMoved, AllMoved, OneMoved, Unique;
      KeepsSelf(rows, legacy, next);
      var daily := LabelledRows(legacy);
      NoneMoved(rows, legacy, next, daily);
      assert daily[0..] == daily;
      if |daily| > 0 {
        assert daily[0] in daily;
      }
      for i := 0 to |daily|
        invariant Unique(rows) && Keeps(old(rows), rows, legacy, next)
        invariant SomeMoved(old(rows), rows, legacy, next, daily[i..])
        invariant i == 0 ==> rows == old(rows)
      {
        ghost var start := rows;
        assert daily[i..] == [daily[i]] + daily[i + 1..];
        FirstLeft(old(rows), rows, legacy, next, daily[i..]);
        MoveRow(daily[i], next);
        MovedOneMore(old(rows), start, rows, legacy, next, daily[i], daily[i + 1..]);
        KeepsTrans(old(rows), start, rows, legacy, next);
      }
      assert daily[|daily|..] == [];
      MovedAll(old(rows), rows, legacy, next);
    }

    method RelabelOrders(legacy: string, next: string)
      modifies `orders
      ensures orders == map id | id in old(orders) :: Rename([Pair(legacy, next)], old(orders)[id])
    {
      orders := map id | id in orders :: if orders[id] == legacy then next else orders[id];
    }

    // Labels with the legacy prefix that the list does not name.
    method RelabelLeftovers(normalize: string -> string)
      modifies `orders
      ensures orders.Keys == old(orders).Keys
      ensures forall id | id in orders ::
        orders[id] == if "MyFatoorah-" <= old(orders)[id] then normalize(old(orders)[id]) else old(orders)[id]
    {
      var left := set id | id in orders && "MyFatoorah-" <= orders[id];
      while left != {}
        invariant orders.Keys == old(orders.Keys)
        invariant forall id | id in left :: id in orders && orders[id] == old(orders)[id]
        invariant forall id | id in orders && id !in left ::
          orders[id] == if "MyFatoorah-" <= old(orders)[id] then normalize(old(orders)[id]) else old(orders)[id]
        decreases left
      {
        var id :| id in left;
        var next := normalize(orders[id]);
        assert orders[id] == old(orders)[id];
        if next != orders[id] {
          orders := orders[id := next];
        }
        left := left - {id};
      }
    }

    method Run(pairs: seq<Pair>, normalize: string -> string)
      requires Unique(rows) && WellChosen(pairs)
      modifies this
      ensures Unique(rows) && NoLegacy(rows, pairs) && KeepsAll(old(rows), rows, pairs)
      ensures AllRenamed(old(rows), rows, pairs)
      ensures old(NoLegacy(rows, pairs)) ==> rows == old(rows)
      ensures orders.Keys == old(orders).Keys
      ensures forall id | id in orders ::
        var text := Rename(pairs, old(orders)[id]);
        orders[id] == if "MyFatoorah-" <= text then normalize(text) else text
    {
      hide KeepsAll, Keeps, Rename, AllRenamed, AllMoved, Unique, WellChosen;
      KeepsAllSelf(rows, pairs);
      NoneRenamed(rows);
      assert pairs[..0] == [];
      for i := 0 to |pairs|
        invariant Unique(rows) && KeepsAll(old(rows), rows, pairs)
        invariant AllRenamed(old(rows), rows, pairs[..i])
        invariant old(NoLegacy(rows, pairs)) ==> rows == old(rows)
        invariant orders == map id | id in old(orders) :: Rename(pairs[..i], old(orders)[id])
      {
        var pair := pairs[i];
        ghost var start := rows;
        forall text ensures Rename(pairs[..i + 1], text) == Rename([pair], Rename(pairs[..i], text)) {
          RenameSnoc(pairs, i, text);
        }
        ListedPair(pairs, i);
        RelabelOrders(pair.legacy, pair.next);
        RelabelRows(pair.legacy, pair.next);
        KeepsMore(old(rows), start, rows, pairs, pair);
        RenamedMore(old(rows), start, rows, pairs, i);
      }
      assert pairs[..|pairs|] == pairs;
      RenamedNoLegacy(old(rows), rows, pairs);
      RelabelLeftovers(normalize);
    }
  }
}
