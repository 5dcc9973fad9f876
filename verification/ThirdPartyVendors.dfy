/**
 src/modules/admin-events/admin-events.service.ts: replacing the vendors of an event. Rows are checked, vendors that no
 row keeps are taken out of tickets and staff assignments and deleted, and the rows are written in order. Percentages
 are in hundredths. A failure part way leaves the tables as they were.
 */
module ThirdPartyVendors {
  import opened Prelude

  type Id = nat

  datatype Rule = Normal | Fixed

  datatype Row = Row(id: Option<Id>, name: string, isMain: bool, organiser: int, share: int, isCafe: bool,
                     collectedBy: Option<string>, owner: Option<string>, rule: Option<Rule>)

  datatype Vendor = Vendor(event: Id, name: string, isMain: bool, organiser: int, share: int, isCafe: bool,
                           collectedBy: Option<string>, owner: Option<string>, rule: Option<Rule>, sortOrder: nat)

  datatype Ticket = Ticket(event: Id, vendor: Option<Id>)

  datatype Assignment = Assignment(event: Option<Id>, vendor: Option<Id>, vendors: seq<Id>, tickets: seq<Id>,
                                   isCafeAgent: bool)

  datatype Tables = Tables(vendors: map<Id, Vendor>, tickets: map<Id, Ticket>, staff: map<Id, Assignment>, nextId: Id)

  datatype Error =
    | EventMissing | NameRequired | NameRepeated | SharesUneven(row: nat) | OwnerRequired | RuleRequired
    | SharesExceed(row: nat) | ForeignVendor | NameTaken

  // ----- the rows

  function TrimmedOrNone(text: Option<string>): Option<string> {
    if text.Some? && Trim(text.value) != "" then Some(Trim(text.value)) else None
  }

  function Normalized(row: Row, index: nat): Row {
    row.(name := Trim(row.name), isMain := index == 0 || row.isMain, collectedBy := TrimmedOrNone(row.collectedBy),
         owner := TrimmedOrNone(row.owner))
  }

  function NormalizedRows(rows: seq<Row>): (r: seq<Row>)
    ensures |r| == |rows| && forall i | 0 <= i < |rows| :: r[i] == Normalized(rows[i], i)
  {
    seq(|rows|, i requires 0 <= i < |rows| => Normalized(rows[i], i))
  }

  predicate Uneven(row: Row) {
    row.organiser + row.share > 10001 || row.organiser + row.share < 9999
  }

  function RowError(row: Row, index: nat): Option<Error> {
    if Uneven(row) then Some(SharesUneven(index))
    else if index == 0 && row.share > 0 && row.owner.None? then Some(OwnerRequired)
    else if index == 0 && row.share > 0 && row.rule.None? then Some(RuleRequired)
    else None
  }

  predicate DistinctNames(rows: seq<Row>, lower: string -> string) {
    forall i, j | 0 <= i < j < |rows| :: lower(rows[i].name) != lower(rows[j].name)
  }

  // The first row with a fixed share leaves the others no more than the rest.
  predicate Exceeds(rows: seq<Row>, i: nat) {
    0 < i < |rows| && rows[0].share > 0 && rows[0].rule == Some(Fixed) && rows[0].share + rows[i].share > 10001
  }

  predicate Acceptable(rows: seq<Row>, lower: string -> string) {
    && (forall row | row in rows :: lower(row.name) != "")
    && DistinctNames(rows, lower)
    && (forall i | 0 <= i < |rows| :: RowError(rows[i], i).None?)
    && (forall i: nat | i < |rows| :: !Exceeds(rows, i))
  }

  // The error names the first rule broken, checked in this order.
  predicate Explains(rows: seq<Row>, lower: string -> string, e: Error) {
    match e
    case NameRequired => exists row :: row in rows && lower(row.name) == ""
    case NameRepeated => (forall row | row in rows :: lower(row.name) != "") && !DistinctNames(rows, lower)
    case SharesExceed(i) =>
      && (forall j | 0 <= j < |rows| :: RowError(rows[j], j).None?)
      && Exceeds(rows, i) && forall j: nat | j < i :: !Exceeds(rows, j)
    case _ =>
      && DistinctNames(rows, lower)
      && exists i | 0 <= i < |rows| ::
        RowError(rows[i], i) == Some(e) && forall j | 0 <= j < i :: RowError(rows[j], j).None?
  }

  lemma RepeatedExplains(rows: seq<Row>, lower: string -> string)
    requires !DistinctNames(rows, lower) && forall j | 0 <= j < |rows| :: lower(rows[j].name) != ""
    ensures Explains(rows, lower, NameRepeated)
  {
  }

  method CheckNames(rows: seq<Row>, lower: string -> string) returns (error: Option<Error>)
    ensures error.None? <==> DistinctNames(rows, lower) && forall row | row in rows :: lower(row.name) != ""
    ensures error.Some? ==> error.value == NameRequired || error.value == NameRepeated
    ensures error.Some? ==> Explains(rows, lower, error.value)
  {
    hide RowError, Exceeds;
    for i := 0 to |rows|
      invariant forall j | 0 <= j < i :: lower(rows[j].name) != ""
    {
      if lower(rows[i].name) == "" {
        assert rows[i] in rows;
        return Some(NameRequired);
      }
    }
    hide Explains;
    var names: set<string> := {};
    for i := 0 to |rows|
      invariant forall j | 0 <= j < i :: lower(rows[j].name) in names
      invariant forall name | name in names :: exists j :: 0 <= j < i && lower(rows[j].name) == name
      invariant forall j, k | 0 <= j < k < i :: lower(rows[j].name) != lower(rows[k].name)
    {
      if lower(rows[i].name) in names {
        RepeatedExplains(rows, lower);
        return Some(NameRepeated);
      }
      names := names + {lower(rows[i].name)};
    }
    error := None;
  }

  method CheckShares(rows: seq<Row>) returns (error: Option<Error>)
    ensures error.None? <==> forall i | 0 <= i < |rows| :: RowError(rows[i], i).None?
    ensures error.Some? ==> (error.value.SharesUneven? || error.value.OwnerRequired? || error.value.RuleRequired?)
    ensures error.Some? ==> exists i | 0 <= i < |rows| ::
      RowError(rows[i], i) == Some(error.value) && forall j | 0 <= j < i :: RowError(rows[j], j).None?
  {
    for i := 0 to |rows|
      invariant forall j | 0 <= j < i :: RowError(rows[j], j).None?
    {
      var row := rows[i];
      if row.organiser + row.share > 10001 || row.organiser + row.share < 9999 {
        return Some(SharesUneven(i));
      }
      if i == 0 && row.share > 0 && row.owner.None? {
        return Some(OwnerRequired);
      }
      if i == 0 && row.share > 0 && row.rule.None? {
        return Some(RuleRequired);
      }
    }
    error := None;
  }

  method CheckRules(rows: seq<Row>, lower: string -> string) returns (error: Option<Error>)
    ensures error.None? <==> Acceptable(rows, lower)
    ensures error.Some? ==> Explains(rows, lower, error.value)
  {
    hide RowError, DistinctNames;
    if |rows| == 0 {
      NoRows(rows, lower);
      return None;
    }
    error := CheckNames(rows, lower);
    if error.Some? {
      return;
    }
    error := CheckShares(rows);
    if error.Some? {
      return;
    }
    if |rows| > 1 && rows[0].share > 0 && rows[0].rule == Some(Fixed) {
      for i := 1 to |rows|
        invariant forall j: nat | j < i :: !Exceeds(rows, j)
      {
        if rows[0].share + rows[i].share > 10001 {
          assert Exceeds(rows, i);
          return Some(SharesExceed(i));
        }
      }
    }
    error := None;
  }

  lemma NoRows(rows: seq<Row>, lower: string -> string)
    requires rows == []
    ensures Acceptable(rows, lower)
  {
  }

  predicate Blank(text: Option<string>) {
    text.None? || Trim(text.value) == ""
  }

  // Submitted shares pass the checks exactly when their names are given and differ, every row adds up to 100% within a
  // hundredth, a first row with a vendor share has an owner and a rule, and a fixed one leaves the others the rest.
  lemma AcceptedExactly(shares: seq<Row>, lower: string -> string)
    ensures Acceptable(NormalizedRows(shares), lower) <==>
      && (forall i | 0 <= i < |shares| :: lower(Trim(shares[i].name)) != "")
      && (forall i, j | 0 <= i < j < |shares| :: lower(Trim(shares[i].name)) != lower(Trim(shares[j].name)))
      && (forall i | 0 <= i < |shares| :: 9999 <= shares[i].organiser + shares[i].share <= 10001)
      && (shares != [] && shares[0].share > 0 ==> !Blank(shares[0].owner) && shares[0].rule.Some?)
      && (shares != [] && shares[0].share > 0 && shares[0].rule == Some(Fixed) ==>
            forall i | 1 <= i < |shares| :: shares[0].share + shares[i].share <= 10001)
  {
    hide Trim, RowError, Exceeds;
    var rows := NormalizedRows(shares);
    NamesNormalized(shares, lower);
    forall i | 0 <= i < |shares| { RowErrorIs(rows[i], i); }
    forall i: nat | i < |shares| { ExceedsIs(shares, i); }
  }

  lemma NamesNormalized(shares: seq<Row>, lower: string -> string)
    ensures var rows := NormalizedRows(shares);
      && ((forall row | row in rows :: lower(row.name) != "") <==>
          forall i | 0 <= i < |shares| :: lower(Trim(shares[i].name)) != "")
      && (DistinctNames(rows, lower) <==>
          forall i, j | 0 <= i < j < |shares| :: lower(Trim(shares[i].name)) != lower(Trim(shares[j].name)))
  {
    hide Trim;
    var rows := NormalizedRows(shares);
    assert forall i | 0 <= i < |shares| :: rows[i] in rows && rows[i].name == Trim(shares[i].name);
  }

  lemma ExceedsIs(shares: seq<Row>, i: nat)
    requires i < |shares|
    ensures Exceeds(NormalizedRows(shares), i) <==>
            0 < i && shares[0].share > 0 && shares[0].rule == Some(Fixed) && shares[0].share + shares[i].share > 10001
  {
    hide Trim;
  }

  // Which rule of a row is broken, the first in this order.
  lemma RowErrorIs(row: Row, index: nat)
    ensures var even := 9999 <= row.organiser + row.share <= 10001; var leads := index == 0 && row.share > 0;
      match RowError(row, index)
      case Some(SharesUneven(i)) => !even && i == index
      case Some(OwnerRequired) => even && leads && row.owner == None
      case Some(RuleRequired) => even && leads && row.owner != None && row.rule == None
      case None => even && (leads ==> row.owner != None && row.rule != None)
      case _ => false
  {
  }

  function VendorOf(row: Row, index: nat, event: Id): Vendor {
    Vendor(event, row.name, index == 0 || row.isMain, row.organiser, row.share, row.isCafe,
           if index > 0 then row.collectedBy else None,
           if index == 0 && row.share > 0
           then Some(if row.owner.Some? then row.owner.value else "Event Owner") else None,
           if index == 0 && row.share > 0 then Some(if row.rule.Some? then row.rule.value else Normal) else None,
           index + 1)
  }

  // ----- taking vendors out

  function Without(ids: seq<Id>, gone: set<Id>): seq<Id> {
    if ids == [] then []
    else Without(ids[..|ids| - 1], gone) + if ids[|ids| - 1] in gone then [] else [ids[|ids| - 1]]
  }

  // Filtering drops exactly the listed ids, and changes nothing when the length stays.
  lemma {:induction false} WithoutIs(ids: seq<Id>, gone: set<Id>)
    ensures |Without(ids, gone)| <= |ids|
    ensures |Without(ids, gone)| == |ids| ==> Without(ids, gone) == ids
    ensures forall id: Id :: id in Without(ids, gone) <==> id in ids && id !in gone
  {
    if ids != [] {
      WithoutIs(ids[..|ids| - 1], gone);
      assert ids == ids[..|ids| - 1] + [ids[|ids| - 1]];
    }
  }

  // It filters every stretch by itself, so what remains keeps its order and its copies.
  lemma {:induction false} WithoutSplits(a: seq<Id>, b: seq<Id>, gone: set<Id>)
    ensures Without(a + b, gone) == Without(a, gone) + Without(b, gone)
  {
    if b == [] {
      assert a + b == a;
    } else {
      var n := |b| - 1;
      WithoutSplits(a, b[..n], gone);
      assert (a + b)[..|a + b| - 1] == a + b[..n];
    }
  }

  function Detached(a: Assignment, gone: set<Id>, goneTickets: set<Id>): Assignment {
    var single := a.vendor.Some? && a.vendor.value in gone;
    var next := Without(a.vendors, gone);
    a.(vendor := if single then None else a.vendor, vendors := next, tickets := Without(a.tickets, goneTickets),
       isCafeAgent := a.isCafeAgent && !(next == [] && (single || |next| != |a.vendors|)))
  }

  function DetachedFrom(t: Tables, event: Id, gone: set<Id>): Tables {
    var goneTickets := TicketsOf(t.tickets, event, gone);
    t.(vendors := t.vendors - gone,
       tickets := map id | id in t.tickets ::
         if id in goneTickets then t.tickets[id].(vendor := None) else t.tickets[id],
       staff := map id | id in t.staff ::
         if t.staff[id].event == Some(event) then Detached(t.staff[id], gone, goneTickets) else t.staff[id])
  }

  function TicketsOf(tickets: map<Id, Ticket>, event: Id, vendors: set<Id>): set<Id> {
    set id |
      && id in tickets && tickets[id].event == event
      && tickets[id].vendor.Some? && tickets[id].vendor.value in vendors
  }

  function VendorsOf(vendors: map<Id, Vendor>, event: Id): set<Id> {
    set id | id in vendors && vendors[id].event == event
  }

  function Kept(rows: seq<Row>): set<Id> {
    set row | row in rows && row.id.Some? :: row.id.value
  }

  function Gone(t: Tables, event: Id, rows: seq<Row>): set<Id> {
    VendorsOf(t.vendors, event) - Kept(rows)
  }

  // ----- writing rows

  predicate Taken(vendors: map<Id, Vendor>, event: Id, name: string, except: Option<Id>) {
    exists id :: id in vendors && vendors[id].event == event && vendors[id].name == name && Some(id) != except
  }

  // Update by id within the event, or create; the table refuses a second vendor of a name.
  function SaveRow(t: Tables, event: Id, row: Row, index: nat): Result<Tables, Error> {
    if row.id.Some? && (row.id.value !in t.vendors || t.vendors[row.id.value].event != event) then Err(ForeignVendor)
    else if Taken(t.vendors, event, row.name, row.id) then Err(NameTaken)
    else if row.id.Some? then Ok(t.(vendors := t.vendors[row.id.value := VendorOf(row, index, event)]))
    else Ok(t.(vendors := t.vendors[t.nextId := VendorOf(row, index, event)], nextId := t.nextId + 1))
  }

  function SaveRows(t: Tables, event: Id, rows: seq<Row>): Result<Tables, Error> {
    if rows == [] then Ok(t)
    else
      var front := SaveRows(t, event, rows[..|rows| - 1]);
      if front.Err? then front else SaveRow(front.value, event, rows[|rows| - 1], |rows| - 1)
  }

  function Replaced(t: Tables, event: Id, rows: seq<Row>): Result<Tables, Error> {
    SaveRows(DetachedFrom(t, event, Gone(t, event, rows)), event, rows)
  }

  // ----- what a replacement achieves

  predicate DistinctIds(rows: seq<Row>) {
    forall i, j | 0 <= i < j < |rows| && rows[i].id.Some? && rows[j].id.Some? :: rows[i].id != rows[j].id
  }

  // Ids that rows name were given out before: an id created now is none of them.
  predicate KnownIds(rows: seq<Row>, nextId: Id) {
    forall row | row in rows && row.id.Some? :: row.id.value < nextId
  }

  predicate Fresh(t: Tables) {
    forall id | id in t.vendors :: id < t.nextId
  }

  // Position i was written to the vendor that the row names, or to a new one.
  ghost predicate Placed(rows: seq<Row>, ids: seq<Id>, from: Id, to: Id) {
    && |ids| == |rows|
    && (forall i | 0 <= i < |rows| && rows[i].id.Some? :: ids[i] == rows[i].id.value)
    && (forall i | 0 <= i < |rows| && rows[i].id.None? :: from <= ids[i] < to)
    && (forall i, j | 0 <= i < j < |rows| && rows[i].id.None? && rows[j].id.None? :: ids[i] != ids[j])
  }

  // The last row written to a vendor is what it holds.
  ghost predicate Stored(vendors: map<Id, Vendor>, event: Id, rows: seq<Row>, ids: seq<Id>)
    requires |ids| == |rows|
  {
    forall i | 0 <= i < |rows| ::
      ids[i] in vendors &&
      ((forall j | i < j < |rows| :: ids[j] != ids[i]) ==> vendors[ids[i]] == VendorOf(rows[i], i, event))
  }

  // Other vendors are as before, and no vendor of another event is written.
  ghost predicate Spared(before: map<Id, Vendor>, after: map<Id, Vendor>, event: Id, ids: seq<Id>) {
    && (forall id | id in after && id !in ids :: id in before && after[id] == before[id])
    && (forall id | id in before :: id in after)
    && (forall id | id in ids && id in before :: before[id].event == event)
    && (forall id | id in ids && id in after :: after[id].event == event)
  }

  ghost predicate Written(t: Tables, after: Tables, event: Id, rows: seq<Row>, ids: seq<Id>) {
    && Placed(rows, ids, t.nextId, after.nextId) && Stored(after.vendors, event, rows, ids)
    && Spared(t.vendors, after.vendors, event, ids)
    && after.tickets == t.tickets && after.staff == t.staff && after.nextId >= t.nextId && Fresh(after)
  }

  lemma PlacedMore(rows: seq<Row>, ids: seq<Id>, id: Id, from: Id, to: Id, to': Id)
    requires rows != [] && Placed(rows[..|rows| - 1], ids, from, to) && to <= to'
    requires var last := rows[|rows| - 1];
      if last.id.Some? then id == last.id.value else id == to && to' == to + 1 && from <= to
    ensures Placed(rows, ids + [id], from, to')
  {
  }

  lemma StoredMore(vendors: map<Id, Vendor>, event: Id, rows: seq<Row>, ids: seq<Id>, id: Id)
    requires rows != [] && |ids| == |rows| - 1 && Stored(vendors, event, rows[..|rows| - 1], ids)
    ensures Stored(vendors[id := VendorOf(rows[|rows| - 1], |rows| - 1, event)], event, rows, ids + [id])
  {
    hide VendorOf;
    var n, all := |rows| - 1, ids + [id];
    var after := vendors[id := VendorOf(rows[n], n, event)];
    forall i | 0 <= i < |rows|
      ensures all[i] in after &&
        ((forall j | i < j < |rows| :: all[j] != all[i]) ==> after[all[i]] == VendorOf(rows[i], i, event))
    {
      if i < n {
        assert ids[i] in vendors && rows[..n][i] == rows[i] && all[i] == ids[i];
        if forall j | i < j < |rows| :: all[j] != all[i] {
          assert all[n] != all[i];
          assert forall j | i < j < n :: ids[j] == all[j];
        }
      }
    }
  }

  lemma SparedMore(before: map<Id, Vendor>, vendors: map<Id, Vendor>, event: Id, ids: seq<Id>, id: Id, v: Vendor)
    requires Spared(before, vendors, event, ids) && v.event == event
    requires id in vendors ==> vendors[id].event == event
    ensures Spared(before, vendors[id := v], event, ids + [id])
  {
  }

  lemma {:induction false} SaveRowsWrite(t: Tables, event: Id, rows: seq<Row>) returns (ids: seq<Id>)
    requires Fresh(t) && SaveRows(t, event, rows).Ok?
    ensures Written(t, SaveRows(t, event, rows).value, event, rows, ids)
  {
    hide Taken, VendorOf, Placed, Stored, Spared;
    if rows == [] {
      ids := [];
      NothingWritten(t, event);
    } else {
      var n, front := |rows| - 1, rows[..|rows| - 1];
      var before := SaveRowsWrite(t, event, front);
      var u, row := SaveRows(t, event, front).value, rows[n];
      var id := if row.id.Some? then row.id.value else u.nextId;
      ids := before + [id];
      var after := SaveRow(u, event, row, n).value;
      PlacedLength(front, before, t.nextId, u.nextId);
      PlacedMore(rows, before, id, t.nextId, u.nextId, after.nextId);
      StoredMore(u.vendors, event, rows, before, id);
      VendorEvent(row, n, event);
      SparedMore(t.vendors, u.vendors, event, before, id, VendorOf(row, n, event));
    }
  }

  lemma NothingWritten(t: Tables, event: Id)
    ensures Placed([], [], t.nextId, t.nextId) && Stored(t.vendors, event, [], [])
    ensures Spared(t.vendors, t.vendors, event, [])
  {
  }

  lemma PlacedLength(rows: seq<Row>, ids: seq<Id>, from: Id, to: Id)
    requires Placed(rows, ids, from, to)
    ensures |ids| == |rows|
  {
  }

  lemma VendorEvent(row: Row, index: nat, event: Id)
    ensures VendorOf(row, index, event).event == event && VendorOf(row, index, event).sortOrder == index + 1
  {
  }

  predicate Distinct(ids: seq<Id>) {
    forall i, j | 0 <= i < j < |ids| :: ids[i] != ids[j]
  }

  lemma PlacedDistinct(rows: seq<Row>, ids: seq<Id>, from: Id, to: Id)
    requires Placed(rows, ids, from, to) && KnownIds(rows, from)
    ensures Distinct(ids) <==> DistinctIds(rows)
  {
  }

  // The vendors of the event after a replacement are those written, also those of repeated ids.
  lemma EventVendors(t: Tables, after: Tables, event: Id, rows: seq<Row>, ids: seq<Id>)
    requires Written(DetachedFrom(t, event, Gone(t, event, rows)), after, event, rows, ids)
    ensures forall id: Id :: id in VendorsOf(after.vendors, event) <==> id in ids
  {
  }

  lemma DetachedFresh(t: Tables, event: Id, gone: set<Id>)
    requires Fresh(t)
    ensures Fresh(DetachedFrom(t, event, gone))
  {
  }

  lemma RowsPlaced(t: Tables, event: Id, rows: seq<Row>) returns (ids: seq<Id>)
    requires Fresh(t) && KnownIds(rows, t.nextId) && Replaced(t, event, rows).Ok? && DistinctIds(rows)
    ensures var after := Replaced(t, event, rows).value;
      && |ids| == |rows| && Distinct(ids)
      && (forall id: Id :: id in VendorsOf(after.vendors, event) <==> id in ids)
      && (forall i | 0 <= i < |rows| ::
            && ids[i] in after.vendors && after.vendors[ids[i]] == VendorOf(rows[i], i, event)
            && (rows[i].id.Some? ==> ids[i] == rows[i].id.value)
            && (rows[i].id.None? ==> ids[i] !in t.vendors))
  {
    hide SaveRows, DetachedFrom, Gone, VendorsOf, VendorOf;
    var base := DetachedFrom(t, event, Gone(t, event, rows));
    DetachedFresh(t, event, Gone(t, event, rows));
    SameNextId(t, event, rows);
    ids := SaveRowsWrite(base, event, rows);
    PlacedDistinct(rows, ids, base.nextId, Replaced(t, event, rows).value.nextId);
    EventVendors(t, Replaced(t, event, rows).value, event, rows, ids);
  }

  // The vendor holds what the submitted row says: texts trimmed, the first row main, a payee only behind the first row,
  // and an owner with a rule only on a first row with a vendor share.
  predicate HoldsShare(v: Vendor, share: Row, index: nat) {
    && v.name == Trim(share.name) && v.organiser == share.organiser && v.share == share.share
    && v.isCafe == share.isCafe && v.isMain == (index == 0 || share.isMain) && v.sortOrder == index + 1
    && v.collectedBy == (if index == 0 || Blank(share.collectedBy) then None else Some(Trim(share.collectedBy.value)))
    && (if index == 0 && share.share > 0
        then v.owner == Some(if Blank(share.owner) then "Event Owner" else Trim(share.owner.value))
             && v.rule == Some(if share.rule.Some? then share.rule.value else Normal)
        else v.owner.None? && v.rule.None?)
  }

  lemma VendorHoldsShare(share: Row, index: nat, event: Id)
    ensures HoldsShare(VendorOf(Normalized(share, index), index, event), share, index)
  {
    hide Trim;
  }

  // With distinct row ids the vendors of the event are exactly the submitted rows, each on the vendor it names or else
  // on a new one, in sort order 1, 2, ....
  lemma VendorsAreRows(t: Tables, event: Id, shares: seq<Row>) returns (ids: seq<Id>)
    requires Fresh(t) && KnownIds(shares, t.nextId) && DistinctIds(shares)
    requires Replaced(t, event, NormalizedRows(shares)).Ok?
    ensures var after := Replaced(t, event, NormalizedRows(shares)).value.vendors;
      && |ids| == |shares| && (forall i, j | 0 <= i < j < |ids| :: ids[i] != ids[j])
      && (forall id: Id :: id in ids <==> id in after && after[id].event == event)
      && (forall i | 0 <= i < |shares| ::
            && ids[i] in after && HoldsShare(after[ids[i]], shares[i], i)
            && (if shares[i].id.Some? then ids[i] == shares[i].id.value else ids[i] !in t.vendors))
  {
    hide Replaced, HoldsShare, VendorOf;
    var rows := NormalizedRows(shares);
    forall row | row in rows && row.id.Some? ensures row.id.value < t.nextId {
      var i :| 0 <= i < |rows| && rows[i] == row;
      assert shares[i] in shares && row.id == shares[i].id;
    }
    ids := RowsPlaced(t, event, rows);
    var after := Replaced(t, event, rows).value.vendors;
    forall id: Id ensures id in ids <==> id in after && after[id].event == event {
      assert id in ids <==> id in VendorsOf(after, event);
    }
    forall i | 0 <= i < |shares| ensures HoldsShare(after[ids[i]], shares[i], i) {
      VendorHoldsShare(shares[i], i, event);
    }
  }

  lemma SameNextId(t: Tables, event: Id, rows: seq<Row>)
    ensures DetachedFrom(t, event, Gone(t, event, rows)).nextId == t.nextId
  {
  }

  function SetOf(ids: seq<Id>): set<Id> {
    set id | id in ids
  }

  lemma {:induction false} DistinctSize(ids: seq<Id>)
    ensures |SetOf(ids)| <= |ids|
    ensures |SetOf(ids)| == |ids| <==> Distinct(ids)
  {
    if ids != [] {
      var front, last := ids[..|ids| - 1], ids[|ids| - 1];
      DistinctSize(front);
      assert ids == front + [last];
      assert SetOf(ids) == SetOf(front) + {last};
      if last in front {
        assert SetOf(ids) == SetOf(front);
      }
    }
  }

  // Every row has a vendor of its own exactly when no id is repeated; the checks do not ask for that.
  lemma EachRowStored(t: Tables, event: Id, rows: seq<Row>)
    requires Fresh(t) && KnownIds(rows, t.nextId) && Replaced(t, event, rows).Ok?
    ensures |VendorsOf(Replaced(t, event, rows).value.vendors, event)| == |rows| <==> DistinctIds(rows)
  {
    hide SaveRows, DetachedFrom, Gone, VendorsOf, Placed, Stored, Spared, Distinct, DistinctIds, KnownIds;
    var base, after := DetachedFrom(t, event, Gone(t, event, rows)), Replaced(t, event, rows).value;
    DetachedFresh(t, event, Gone(t, event, rows));
    SameNextId(t, event, rows);
    var ids := SaveRowsWrite(base, event, rows);
    PlacedDistinct(rows, ids, base.nextId, after.nextId);
    PlacedLength(rows, ids, base.nextId, after.nextId);
    EventVendors(t, after, event, rows, ids);
    DistinctSize(ids);
    assert VendorsOf(after.vendors, event) == SetOf(ids);
  }

  // A vendor of the event that no row keeps.
  predicate Removed(t: Tables, event: Id, rows: seq<Row>, v: Id) {
    v in t.vendors && t.vendors[v].event == event && forall row :: row in rows ==> row.id != Some(v)
  }

  predicate LosesVendor(t: Tables, event: Id, rows: seq<Row>, ticket: Id) {
    && ticket in t.tickets && t.tickets[ticket].event == event
    && t.tickets[ticket].vendor.Some? && Removed(t, event, rows, t.tickets[ticket].vendor.value)
  }

  // What a removal leaves of an assignment: the removed vendors and their tickets are off it, what remains is as it
  // was, and it stops being a cafe agent's when it is left with no listed vendor after losing one.
  ghost predicate Relieved(t: Tables, event: Id, rows: seq<Row>, a: Assignment, b: Assignment) {
    && b.event == a.event
    && b.vendor == (if a.vendor.Some? && Removed(t, event, rows, a.vendor.value) then None else a.vendor)
    && (forall v: Id :: v in b.vendors <==> v in a.vendors && !Removed(t, event, rows, v))
    && (forall k: Id :: k in b.tickets <==> k in a.tickets && !LosesVendor(t, event, rows, k))
    && (b.isCafeAgent <==> a.isCafeAgent && !(b.vendors == [] && (b.vendor != a.vendor || a.vendors != [])))
  }

  lemma RemovedIsGone(t: Tables, event: Id, rows: seq<Row>, v: Id)
    ensures v in Gone(t, event, rows) <==> Removed(t, event, rows, v)
  {
  }

  lemma LosersAreTickets(t: Tables, event: Id, rows: seq<Row>, k: Id)
    ensures k in TicketsOf(t.tickets, event, Gone(t, event, rows)) <==> LosesVendor(t, event, rows, k)
  {
    hide Gone, Removed;
    if k in t.tickets && t.tickets[k].vendor.Some? {
      RemovedIsGone(t, event, rows, t.tickets[k].vendor.value);
    }
  }

  lemma DetachedIs(a: Assignment, gone: set<Id>, goneTickets: set<Id>)
    ensures var b := Detached(a, gone, goneTickets);
      && b.event == a.event
      && b.vendor == (if a.vendor.Some? && a.vendor.value in gone then None else a.vendor)
      && (forall v: Id :: v in b.vendors <==> v in a.vendors && v !in gone)
      && (forall k: Id :: k in b.tickets <==> k in a.tickets && k !in goneTickets)
      && (b.isCafeAgent <==> a.isCafeAgent && !(b.vendors == [] && (b.vendor != a.vendor || a.vendors != [])))
  {
    hide Without;
    WithoutIs(a.vendors, gone);
    WithoutIs(a.tickets, goneTickets);
  }

  lemma DetachedRelieves(t: Tables, event: Id, rows: seq<Row>, a: Assignment)
    ensures var gone := Gone(t, event, rows);
      Relieved(t, event, rows, a, Detached(a, gone, TicketsOf(t.tickets, event, gone)))
  {
    hide Gone, TicketsOf, Removed, LosesVendor, Detached;
    var gone := Gone(t, event, rows);
    DetachedIs(a, gone, TicketsOf(t.tickets, event, gone));
    forall v: Id ensures v in gone <==> Removed(t, event, rows, v) { RemovedIsGone(t, event, rows, v); }
    forall k: Id ensures k in TicketsOf(t.tickets, event, gone) <==> LosesVendor(t, event, rows, k) {
      LosersAreTickets(t, event, rows, k);
    }
  }

  // No ticket or assignment of the event refers to a removed vendor, and no assignment lists a ticket of one; nothing
  // else about tickets and assignments changes.
  lemma NoDanglingReferences(t: Tables, event: Id, rows: seq<Row>)
    requires Fresh(t) && Replaced(t, event, rows).Ok?
    ensures var after := Replaced(t, event, rows).value;
      && after.tickets.Keys == t.tickets.Keys && after.staff.Keys == t.staff.Keys
      && (forall id | id in t.tickets ::
            after.tickets[id] ==
            if LosesVendor(t, event, rows, id) then t.tickets[id].(vendor := None) else t.tickets[id])
      && (forall id | id in t.staff ::
            if t.staff[id].event == Some(event) then Relieved(t, event, rows, t.staff[id], after.staff[id])
            else after.staff[id] == t.staff[id])
  {
    hide SaveRows, Gone, Detached, Relieved, TicketsOf, LosesVendor;
    var base := DetachedFrom(t, event, Gone(t, event, rows));
    DetachedFresh(t, event, Gone(t, event, rows));
    var ids := SaveRowsWrite(base, event, rows);
    forall id | id in t.tickets { LosersAreTickets(t, event, rows, id); }
    forall id | id in t.staff { DetachedRelieves(t, event, rows, t.staff[id]); }
  }

  lemma OtherEventsUntouched(t: Tables, event: Id, rows: seq<Row>)
    requires Fresh(t) && Replaced(t, event, rows).Ok?
    ensures var after := Replaced(t, event, rows).value;
      && (forall id | id in t.vendors && t.vendors[id].event != event ::
            id in after.vendors && after.vendors[id] == t.vendors[id])
      && (forall id | id in t.tickets && t.tickets[id].event != event ::
            id in after.tickets && after.tickets[id] == t.tickets[id])
      && (forall id | id in t.staff && t.staff[id].event != Some(event) ::
            id in after.staff && after.staff[id] == t.staff[id])
  {
    hide SaveRows, Detached, VendorOf;
    var base := DetachedFrom(t, event, Gone(t, event, rows));
    DetachedFresh(t, event, Gone(t, event, rows));
    var ids := SaveRowsWrite(base, event, rows);
  }

  // ----- when rows are stored

  // The row names a vendor of the event, or none.
  predicate Own(t: Tables, event: Id, row: Row) {
    row.id.Some? ==> row.id.value in t.vendors && t.vendors[row.id.value].event == event
  }

  predicate OwnRows(t: Tables, event: Id, rows: seq<Row>) {
    forall i | 0 <= i < |rows| :: Own(t, event, rows[i])
  }

  // Row j names a vendor that no row up to i has renamed yet, and that still has the name row i wants.
  predicate InTheWay(t: Tables, event: Id, rows: seq<Row>, i: nat, j: nat)
    requires i < |rows| && j < |rows|
  {
    && i < j && rows[j].id.Some? && Own(t, event, rows[j]) && t.vendors[rows[j].id.value].name == rows[i].name
    && forall k | 0 <= k <= i :: rows[k].id != rows[j].id
  }

  predicate Writable(t: Tables, event: Id, rows: seq<Row>, i: nat)
    requires i < |rows|
  {
    Own(t, event, rows[i]) && forall j: nat | j < |rows| :: !InTheWay(t, event, rows, i, j)
  }

  predicate NamesDiffer(rows: seq<Row>) {
    forall i, j | 0 <= i < j < |rows| :: rows[i].name != rows[j].name
  }

  // A vendor already written holds the name of one of the rows written.
  lemma {:induction false} LastWritten(vendors: map<Id, Vendor>, event: Id, rows: seq<Row>, ids: seq<Id>, k: nat)
    requires |ids| == |rows| && k < |ids| && Stored(vendors, event, rows, ids)
    ensures ids[k] in vendors && exists i :: 0 <= i < |rows| && vendors[ids[k]].name == rows[i].name
    decreases |rows| - k
  {
    if m :| k < m < |ids| && ids[m] == ids[k] {
      LastWritten(vendors, event, rows, ids, m);
    } else {
      assert vendors[ids[k]] == VendorOf(rows[k], k, event);
    }
  }

  // Behind the first n rows, ids below `from` are written exactly when one of these rows names them.
  lemma WrittenIds(rows: seq<Row>, ids: seq<Id>, from: Id, to: Id, v: Id)
    requires Placed(rows, ids, from, to) && v < from
    ensures v in ids <==> exists k :: 0 <= k < |rows| && rows[k].id == Some(v)
  {
  }

  // Before any row is written, the vendors of the event are those that rows name.
  lemma BaseVendors(t: Tables, event: Id, rows: seq<Row>, v: Id)
    ensures var base := DetachedFrom(t, event, Gone(t, event, rows)).vendors;
      (v in base && base[v].event == event) <==>
      (v in t.vendors && t.vendors[v].event == event && exists k :: 0 <= k < |rows| && rows[k].id == Some(v))
    ensures var base := DetachedFrom(t, event, Gone(t, event, rows)).vendors;
      v in base ==> v in t.vendors && base[v] == t.vendors[v]
  {
  }

  // The next row finds its vendor, and its name free, exactly when it is writable.
  lemma NextOwned(t: Tables, u: Tables, event: Id, rows: seq<Row>, n: nat, ids: seq<Id>)
    requires n < |rows| && Fresh(t) && KnownIds(rows, t.nextId)
    requires Written(DetachedFrom(t, event, Gone(t, event, rows)), u, event, rows[..n], ids)
    requires forall i | 0 <= i < n :: Own(t, event, rows[i])
    ensures Own(t, event, rows[n]) <==> Own(u, event, rows[n])
  {
    hide VendorOf, Stored, DetachedFrom, Gone;
    if rows[n].id.Some? {
      var v := rows[n].id.value;
      assert rows[n] in rows;
      SameNextId(t, event, rows);
      BaseVendors(t, event, rows, v);
      WrittenIds(rows[..n], ids, t.nextId, u.nextId, v);
    }
  }

  lemma SparedAt(before: map<Id, Vendor>, after: map<Id, Vendor>, event: Id, ids: seq<Id>, w: Id)
    requires Spared(before, after, event, ids) && w !in ids
    ensures w in after <==> w in before
    ensures w in after ==> after[w] == before[w]
  {
  }

  lemma TakenInTheWay(t: Tables, u: Tables, event: Id, rows: seq<Row>, n: nat, ids: seq<Id>, w: Id) returns (j: nat)
    requires n < |rows| && Fresh(t) && KnownIds(rows, t.nextId) && NamesDiffer(rows)
    requires Written(DetachedFrom(t, event, Gone(t, event, rows)), u, event, rows[..n], ids)
    requires w in u.vendors && u.vendors[w].event == event && u.vendors[w].name == rows[n].name && Some(w) != rows[n].id
    ensures j < |rows| && InTheWay(t, event, rows, n, j)
  {
    hide VendorOf, DetachedFrom, Gone, Stored, Spared, Placed, Fresh;
    SameNextId(t, event, rows);
    var base := DetachedFrom(t, event, Gone(t, event, rows));
    PlacedLength(rows[..n], ids, base.nextId, u.nextId);
    NotWrittenYet(u.vendors, event, rows, n, ids, w);
    SparedAt(base.vendors, u.vendors, event, ids, w);
    BaseVendors(t, event, rows, w);
    j :| j < |rows| && rows[j].id == Some(w);
    assert rows[j] in rows;
    WrittenIds(rows[..n], ids, t.nextId, u.nextId, w);
    forall k | 0 <= k <= n ensures rows[k].id != Some(w) {
      assert k < n ==> rows[..n][k] == rows[k];
    }
  }

  lemma NotWrittenYet(vendors: map<Id, Vendor>, event: Id, rows: seq<Row>, n: nat, ids: seq<Id>, w: Id)
    requires n < |rows| && NamesDiffer(rows) && |ids| == n && Stored(vendors, event, rows[..n], ids)
    requires w in vendors && vendors[w].name == rows[n].name
    ensures w !in ids
  {
    forall k | 0 <= k < |ids| ensures ids[k] != w {
      LastWritten(vendors, event, rows[..n], ids, k);
    }
  }

  lemma InTheWayTaken(t: Tables, u: Tables, event: Id, rows: seq<Row>, n: nat, ids: seq<Id>, j: nat)
    requires n < |rows| && Fresh(t) && KnownIds(rows, t.nextId)
    requires Written(DetachedFrom(t, event, Gone(t, event, rows)), u, event, rows[..n], ids)
    requires j < |rows| && InTheWay(t, event, rows, n, j)
    ensures Taken(u.vendors, event, rows[n].name, rows[n].id)
  {
  }

  lemma NextTaken(t: Tables, u: Tables, event: Id, rows: seq<Row>, n: nat, ids: seq<Id>)
    requires n < |rows| && Fresh(t) && KnownIds(rows, t.nextId) && NamesDiffer(rows)
    requires Written(DetachedFrom(t, event, Gone(t, event, rows)), u, event, rows[..n], ids)
    ensures Taken(u.vendors, event, rows[n].name, rows[n].id) <==>
            exists j: nat :: j < |rows| && InTheWay(t, event, rows, n, j)
  {
    hide Written, InTheWay, KnownIds, NamesDiffer, Fresh;
    if Taken(u.vendors, event, rows[n].name, rows[n].id) {
      var w: Id :| w in u.vendors && u.vendors[w].event == event && u.vendors[w].name == rows[n].name
                   && Some(w) != rows[n].id;
      var j := TakenInTheWay(t, u, event, rows, n, ids, w);
    }
    if j: nat :| j < |rows| && InTheWay(t, event, rows, n, j) {
      InTheWayTaken(t, u, event, rows, n, ids, j);
    }
  }

  lemma {:induction false} PrefixStored(t: Tables, event: Id, rows: seq<Row>, n: nat)
    requires n <= |rows| && Fresh(t) && KnownIds(rows, t.nextId) && NamesDiffer(rows)
    ensures var r := SaveRows(DetachedFrom(t, event, Gone(t, event, rows)), event, rows[..n]);
      && (r.Ok? <==> forall i: nat | i < n :: Writable(t, event, rows, i))
      && (r.Err? && OwnRows(t, event, rows) ==> r.error == NameTaken)
  {
    hide DetachedFrom, Gone, InTheWay, Taken, KnownIds, Fresh, Placed, Stored, Spared, SaveRow, NamesDiffer;
    if n > 0 {
      var m := n - 1;
      var base := DetachedFrom(t, event, Gone(t, event, rows));
      PrefixStored(t, event, rows, m);
      assert rows[..n][..m] == rows[..m];
      var front := SaveRows(base, event, rows[..m]);
      if front.Ok? {
        forall i | 0 <= i < m ensures Own(t, event, rows[i]) {
          assert Writable(t, event, rows, i);
        }
        DetachedFresh(t, event, Gone(t, event, rows));
        var ids := SaveRowsWrite(base, event, rows[..m]);
        NextOwned(t, front.value, event, rows, m, ids);
        NextTaken(t, front.value, event, rows, m, ids);
        SaveRowOk(front.value, event, rows[m], m);
        assert rows[..n][m] == rows[m];
        assert SaveRow(front.value, event, rows[m], m).Ok? <==> Writable(t, event, rows, m);
      } else {
        assert exists i: nat :: i < m && !Writable(t, event, rows, i);
      }
    }
  }

  lemma SaveRowOk(t: Tables, event: Id, row: Row, index: nat)
    ensures var r := SaveRow(t, event, row, index);
      && (r.Ok? <==> Own(t, event, row) && !Taken(t.vendors, event, row.name, row.id))
      && (r.Err? && Own(t, event, row) ==> r.error == NameTaken)
  {
  }

  // Rows of different names are stored exactly when every id is a vendor of the event and no row wants a name that a
  // vendor still has whose own row comes later; otherwise, if the ids are right, the name is refused.
  lemma StoredExactly(t: Tables, event: Id, rows: seq<Row>)
    requires Fresh(t) && KnownIds(rows, t.nextId) && NamesDiffer(rows)
    ensures Replaced(t, event, rows).Ok? <==> forall i: nat | i < |rows| :: Writable(t, event, rows, i)
    ensures Replaced(t, event, rows).Err? && OwnRows(t, event, rows) ==> Replaced(t, event, rows) == Err(NameTaken)
  {
    hide SaveRows, Writable, OwnRows, NamesDiffer, KnownIds, Fresh;
    PrefixStored(t, event, rows, |rows|);
    assert rows[..|rows|] == rows;
  }

  // With distinct ids of the event: stored exactly when no row takes the stored name of a vendor of a later row.
  lemma DistinctRowsStored(t: Tables, event: Id, rows: seq<Row>)
    requires Fresh(t) && KnownIds(rows, t.nextId) && NamesDiffer(rows) && DistinctIds(rows)
    requires forall i | 0 <= i < |rows| && rows[i].id.Some? ::
      rows[i].id.value in t.vendors && t.vendors[rows[i].id.value].event == event
    ensures Replaced(t, event, rows).Ok? <==>
      forall i, j | 0 <= i < j < |rows| && rows[j].id.Some? :: t.vendors[rows[j].id.value].name != rows[i].name
  {
    hide Replaced, KnownIds, Fresh, NamesDiffer;
    StoredExactly(t, event, rows);
    forall i: nat, j: nat | i < j < |rows| && rows[j].id.Some?
      ensures InTheWay(t, event, rows, i, j) <==> t.vendors[rows[j].id.value].name == rows[i].name
    {
      forall k | 0 <= k <= i ensures rows[k].id != rows[j].id { }
    }
    forall i: nat | i < |rows|
      ensures Writable(t, event, rows, i) <==>
        forall j | i < j < |rows| && rows[j].id.Some? :: t.vendors[rows[j].id.value].name != rows[i].name
    {
      forall j: nat | j < |rows| ensures InTheWay(t, event, rows, i, j) ==> i < j && rows[j].id.Some? { }
    }
  }

  lemma AcceptableNames(rows: seq<Row>, lower: string -> string)
    requires Acceptable(rows, lower)
    ensures NamesDiffer(rows)
  {
  }

  function NamedRow(id: Id, name: string): Row {
    Row(Some(id), name, false, 10000, 0, false, None, None, None)
  }

  // An event with vendors 0, Stage, and 1, Food.
  function TwoVendors(event: Id): Tables {
    Tables(map[0 := VendorOf(NamedRow(0, "Stage"), 0, event), 1 := VendorOf(NamedRow(1, "Food"), 1, event)],
           map[], map[], 2)
  }

  predicate Tells(lower: string -> string, a: string, b: string) {
    lower(a) != "" && lower(b) != "" && lower(a) != lower(b)
  }

  lemma TwoAccepted(lower: string -> string, a: Id, b: Id, x: string, y: string)
    requires Tells(lower, x, y)
    ensures Acceptable([NamedRow(a, x), NamedRow(b, y)], lower)
  {
  }

  // Swapping the names of two vendors passes the checks and is refused: the first write meets the old name.
  lemma SwapRefused(event: Id, lower: string -> string)
    requires Tells(lower, "Food", "Stage")
    ensures var t, rows := TwoVendors(event), [NamedRow(0, "Food"), NamedRow(1, "Stage")];
      && Fresh(t) && KnownIds(rows, t.nextId) && DistinctIds(rows) && Acceptable(rows, lower)
      && Replaced(t, event, rows) == Err(NameTaken)
  {
    hide Replaced, Acceptable;
    var t, rows := TwoVendors(event), [NamedRow(0, "Food"), NamedRow(1, "Stage")];
    TwoAccepted(lower, 0, 1, "Food", "Stage");
    AcceptableNames(rows, lower);
    StoredExactly(t, event, rows);
    assert InTheWay(t, event, rows, 0, 1);
    assert !Writable(t, event, rows, 0);
  }

  // Two rows for one vendor pass the checks and are stored, and the event is left with that vendor alone.
  lemma RepeatedIdStored(event: Id, lower: string -> string)
    requires Tells(lower, "Stage", "Food")
    ensures var t, rows := TwoVendors(event), [NamedRow(0, "Stage"), NamedRow(0, "Food")];
      && Fresh(t) && KnownIds(rows, t.nextId) && !DistinctIds(rows) && Acceptable(rows, lower)
      && Replaced(t, event, rows).Ok? && VendorsOf(Replaced(t, event, rows).value.vendors, event) == {0}
  {
    hide SaveRows, Acceptable, DetachedFrom, Gone, VendorsOf, Stored, Spared;
    var t, rows := TwoVendors(event), [NamedRow(0, "Stage"), NamedRow(0, "Food")];
    TwoAccepted(lower, 0, 0, "Stage", "Food");
    AcceptableNames(rows, lower);
    StoredExactly(t, event, rows);
    assert Own(t, event, rows[0]) && Own(t, event, rows[1]);
    forall i: nat, j: nat | i < |rows| && j < |rows| ensures !InTheWay(t, event, rows, i, j) {
      assert rows[0].id == rows[j].id;
    }
    assert Writable(t, event, rows, 0) && Writable(t, event, rows, 1);
    DetachedFresh(t, event, Gone(t, event, rows));
    var ids := SaveRowsWrite(DetachedFrom(t, event, Gone(t, event, rows)), event, rows);
    EventVendors(t, Replaced(t, event, rows).value, event, rows, ids);
    assert ids == [0, 0];
  }

  // ----- the service

  class Service {
    var events: set<Id>
    var vendors: map<Id, Vendor>
    var tickets: map<Id, Ticket>
    var staff: map<Id, Assignment>
    var nextId: Id

    ghost function Now(): Tables
      reads this
    {
      Tables(vendors, tickets, staff, nextId)
    }

    // An assignment is written only when something in it changes.
    method DetachStaff(event: Id, gone: set<Id>, goneTickets: set<Id>)
      modifies `staff
      ensures staff == map id | id in old(staff) ::
        if old(staff)[id].event == Some(event) then Detached(old(staff)[id], gone, goneTickets) else old(staff)[id]
    {
      hide Without;
      var left := set id | id in staff && staff[id].event == Some(event);
      while left != {}
        invariant staff.Keys == old(staff.Keys)
        invariant forall id | id in left :: id in staff && staff[id] == old(staff)[id] && staff[id].event == Some(event)
        invariant forall id | id in staff && id !in left ::
          staff[id] ==
            if old(staff)[id].event == Some(event) then Detached(old(staff)[id], gone, goneTickets) else old(staff)[id]
        decreases left
      {
        var id :| id in left;
        var a := staff[id];
        var removesSingle := a.vendor.Some? && a.vendor.value in gone;
        var nextShares := Without(a.vendors, gone);
        var nextTickets := Without(a.tickets, goneTickets);
        var removesArray := |nextShares| != |a.vendors|;
        WithoutIs(a.vendors, gone);
        WithoutIs(a.tickets, goneTickets);
        if removesSingle || removesArray || |nextTickets| != |a.tickets| {
          staff := staff[id := Assignment(
            a.event, if removesSingle then None else a.vendor, nextShares, nextTickets,
            if |nextShares| == 0 && (removesSingle || removesArray) then false else a.isCafeAgent)];
        }
        left := left - {id};
      }
    }

    method DetachVendors(event: Id, gone: set<Id>)
      modifies `vendors, `tickets, `staff
      ensures Now() == DetachedFrom(old(Now()), event, gone)
    {
      hide Detached;
      var goneTickets := TicketsOf(tickets, event, gone);
      DetachStaff(event, gone, goneTickets);
      tickets := map id | id in tickets ::
        if tickets[id].event == event && tickets[id].vendor.Some? && tickets[id].vendor.value in gone
        then tickets[id].(vendor := None) else tickets[id];
      vendors := vendors - gone;
    }

    method SaveVendor(event: Id, row: Row, index: nat) returns (error: Option<Error>)
      modifies `vendors, `nextId
      ensures match SaveRow(old(Now()), event, row, index)
        case Err(e) => error == Some(e) && Now() == old(Now())
        case Ok(t) => error == None && Now() == t
    {
      hide VendorOf;
      if row.id.Some? && (row.id.value !in vendors || vendors[row.id.value].event != event) {
        return Some(ForeignVendor);
      }
      if Taken(vendors, event, row.name, row.id) {
        return Some(NameTaken);
      }
      if row.id.Some? {
        vendors := vendors[row.id.value := VendorOf(row, index, event)];
      } else {
        vendors := vendors[nextId := VendorOf(row, index, event)];
        nextId := nextId + 1;
      }
      error := None;
    }

    method SaveVendors(event: Id, rows: seq<Row>) returns (error: Option<Error>)
      modifies `vendors, `nextId
      ensures match SaveRows(old(Now()), event, rows)
        case Err(e) => error == Some(e)
        case Ok(t) => error == None && Now() == t
    {
      hide SaveRow;
      ghost var base := Now();
      for i := 0 to |rows|
        invariant tickets == old(tickets) && staff == old(staff)
        invariant SaveRows(base, event, rows[..i]) == Ok(Now())
      {
        assert rows[..i + 1][..i] == rows[..i];
        error := SaveVendor(event, rows[i], i);
        if error.Some? {
          FailsOn(base, event, rows, i + 1);
          return;
        }
      }
      assert rows[..|rows|] == rows;
      error := None;
    }

    method ReplaceVendors(event: Id, shares: seq<Row>, lower: string -> string) returns (error: Option<Error>)
      modifies `vendors, `tickets, `staff, `nextId
      ensures error.Some? ==> Now() == old(Now())
      ensures event !in events ==> error == Some(EventMissing)
      ensures event in events && !Acceptable(NormalizedRows(shares), lower) ==>
        error.Some? && Explains(NormalizedRows(shares), lower, error.value)
      ensures event in events && Acceptable(NormalizedRows(shares), lower) ==>
        match Replaced(old(Now()), event, NormalizedRows(shares))
        case Err(e) => error == Some(e)
        case Ok(t) => error == None && Now() == t
    {
      hide SaveRows, DetachedFrom, Acceptable, Explains, Normalized;
      if event !in events {
        return Some(EventMissing);
      }
      var rows := NormalizedRows(shares);
      error := CheckRules(rows, lower);
      if error.Some? {
        return;
      }
      var snapshot := (vendors, tickets, staff, nextId);
      var gone := FindGone(event, rows);
      if |gone| > 0 {
        DetachVendors(event, gone);
      } else {
        NothingGone(Now(), event);
      }
      error := SaveVendors(event, rows);
      if error.Some? {
        vendors, tickets, staff, nextId := snapshot.0, snapshot.1, snapshot.2, snapshot.3;
      }
    }

    method FindGone(event: Id, rows: seq<Row>) returns (gone: set<Id>)
      ensures gone == Gone(Now(), event, rows)
    {
      var keep := set row | row in rows && row.id.Some? :: row.id.value;
      gone := set id | id in vendors && vendors[id].event == event && id !in keep;
    }
  }

  lemma {:induction false} FailsOn(t: Tables, event: Id, rows: seq<Row>, n: nat)
    requires n <= |rows| && SaveRows(t, event, rows[..n]).Err?
    ensures SaveRows(t, event, rows) == SaveRows(t, event, rows[..n])
    decreases |rows|
  {
    hide SaveRow;
    if n < |rows| {
      assert rows[..|rows| - 1][..n] == rows[..n];
      FailsOn(t, event, rows[..|rows| - 1], n);
    } else {
      assert rows[..n] == rows;
    }
  }

  lemma {:induction false} WithoutNone(ids: seq<Id>)
    ensures Without(ids, {}) == ids
  {
    if ids != [] {
      WithoutNone(ids[..|ids| - 1]);
    }
  }

  lemma DetachedNone(a: Assignment)
    ensures Detached(a, {}, {}) == a
  {
    WithoutNone(a.vendors);
    WithoutNone(a.tickets);
  }

  lemma NothingGone(t: Tables, event: Id)
    ensures DetachedFrom(t, event, {}) == t
  {
    hide Detached;
    assert t.vendors - {} == t.vendors;
    assert TicketsOf(t.tickets, event, {}) == {};
    forall id | id in t.staff ensures Detached(t.staff[id], {}, {}) == t.staff[id] {
      DetachedNone(t.staff[id]);
    }
  }
}
