/**
 src/modules/admin-footer-menus/admin-footer-menus.service.ts: a forest of menu items kept as parent links, with
 create, update, remove and a bulk reorder. Slugs arrive normalised and the display fields are not modelled.
 */
module FooterMenu {
  import opened Prelude

  type Id = string

  datatype Item = Item(parent: Option<Id>, sortOrder: int, createdAt: int, slug: Option<string>)

  type Rows = map<Id, Item>

  datatype Error =
    | ItemNotFound | OwnParent | ParentNotFound | ParentNested | UnderDescendant | SlugTaken | DuplicateIds | UnknownIds

  // ----- ancestors

  function ParentOf(rows: Rows, cursor: Option<Id>): Option<Id> {
    if cursor.Some? && cursor.value in rows then rows[cursor.value].parent else None
  }

  function Ancestor(rows: Rows, cursor: Option<Id>, n: nat): Option<Id> {
    if n == 0 then cursor else ParentOf(rows, Ancestor(rows, cursor, n - 1))
  }

  // `id` is `candidate` itself or one of its ancestors.
  ghost predicate OnChain(rows: Rows, candidate: Id, id: Id) {
    exists n: nat :: Ancestor(rows, Some(candidate), n) == Some(id)
  }

  // Following parents from `cursor` leaves the top of the menu within `n` steps.
  ghost predicate ReachesTop(rows: Rows, cursor: Option<Id>, n: nat)
    decreases n
  {
    cursor.None? || (n > 0 && ReachesTop(rows, ParentOf(rows, cursor), n - 1))
  }

  ghost predicate Acyclic(rows: Rows) {
    forall id | id in rows :: exists n: nat :: ReachesTop(rows, Some(id), n)
  }

  ghost predicate ParentsExist(rows: Rows) {
    forall id | id in rows && rows[id].parent.Some? :: rows[id].parent.value in rows
  }

  ghost predicate SlugsUnique(rows: Rows) {
    forall a, b | a in rows && b in rows && a != b && rows[a].slug.Some? :: rows[a].slug != rows[b].slug
  }

  ghost predicate Forest(rows: Rows) {
    ParentsExist(rows) && Acyclic(rows) && SlugsUnique(rows)
  }

  lemma {:induction false} Periodic(rows: Rows, cursor: Option<Id>, j: nat, k: nat, n: nat)
    requires j < k && j <= n && Ancestor(rows, cursor, j) == Ancestor(rows, cursor, k)
    ensures Ancestor(rows, cursor, n) == Ancestor(rows, cursor, n + (k - j))
    decreases n
  {
    if n > j {
      Periodic(rows, cursor, j, k, n - 1);
    }
  }

  // Once an ancestor repeats, no new ones follow.
  lemma {:induction false} RepeatsAll(rows: Rows, cursor: Option<Id>, j: nat, k: nat, n: nat) returns (m: nat)
    requires j < k && Ancestor(rows, cursor, j) == Ancestor(rows, cursor, k)
    ensures m < k && Ancestor(rows, cursor, n) == Ancestor(rows, cursor, m)
    decreases n
  {
    if n < k {
      m := n;
    } else {
      Periodic(rows, cursor, j, k, n - (k - j));
      m := RepeatsAll(rows, cursor, j, k, n - (k - j));
    }
  }

  lemma {:induction false} NoneAfterNone(rows: Rows, cursor: Option<Id>, k: nat, n: nat)
    requires k <= n && Ancestor(rows, cursor, k).None?
    ensures Ancestor(rows, cursor, n).None?
    decreases n
  {
    if n > k {
      NoneAfterNone(rows, cursor, k, n - 1);
    }
  }

  lemma {:induction false} AncestorFromParent(rows: Rows, cursor: Option<Id>, n: nat)
    ensures Ancestor(rows, cursor, n + 1) == Ancestor(rows, ParentOf(rows, cursor), n)
  {
    if n > 0 {
      AncestorFromParent(rows, cursor, n - 1);
    }
  }

  lemma ChainOfChild(rows: Rows, child: Id, id: Id)
    requires child in rows && rows[child].parent.Some?
    ensures OnChain(rows, child, id) <==> child == id || OnChain(rows, rows[child].parent.value, id)
  {
    var parent := rows[child].parent.value;
    if n: nat :| Ancestor(rows, Some(child), n) == Some(id) {
      if n > 0 {
        AncestorFromParent(rows, Some(child), n - 1);
      }
    }
    if n: nat :| Ancestor(rows, Some(parent), n) == Some(id) {
      AncestorFromParent(rows, Some(child), n);
    }
    assert Ancestor(rows, Some(child), 0) == Some(child);
  }

  lemma {:induction false} ReachesTopMonotone(rows: Rows, cursor: Option<Id>, n: nat, m: nat)
    requires n <= m && ReachesTop(rows, cursor, n)
    ensures ReachesTop(rows, cursor, m)
    decreases n
  {
    if cursor.Some? {
      ReachesTopMonotone(rows, ParentOf(rows, cursor), n - 1, m - 1);
    }
  }

  // ----- sibling listings

  predicate Before(rows: Rows, a: Id, b: Id)
    requires a in rows && b in rows
  {
    || rows[a].sortOrder < rows[b].sortOrder
    || (rows[a].sortOrder == rows[b].sortOrder && rows[a].createdAt <= rows[b].createdAt)
  }

  ghost predicate NoDuplicates<T(!new)>(s: seq<T>) {
    forall i, j | 0 <= i < j < |s| :: s[i] != s[j]
  }

  // `ids` are the items under `parent`, ordered by sort order and then by creation.
  ghost predicate IsListing(rows: Rows, parent: Option<Id>, ids: seq<Id>) {
    && NoDuplicates(ids)
    && (forall id :: id in ids <==> id in rows && rows[id].parent == parent)
    && (forall i, j | 0 <= i < j < |ids| :: Before(rows, ids[i], ids[j]))
  }

  // A new last sibling is listed after the others.
  lemma ListedLast(rows: Rows, parent: Option<Id>, ids: seq<Id>, id: Id, item: Item)
    requires id !in rows && item.parent == parent && IsListing(rows, parent, ids)
    requires forall x | x in rows && rows[x].parent == parent :: rows[x].sortOrder < item.sortOrder
    ensures IsListing(rows[id := item], parent, ids + [id])
  {
  }

  // ----- reorder payloads

  datatype Node = Node(id: Id, children: seq<Node>)

  datatype Flat = Flat(id: Id, parent: Option<Id>, sortOrder: nat)

  function Flatten(nodes: seq<Node>, parent: Option<Id>, index: nat): seq<Flat> {
    if nodes == [] then []
    else
      [Flat(nodes[0].id, parent, index)]
      + Flatten(nodes[0].children, Some(nodes[0].id), 0)
      + Flatten(nodes[1..], parent, index + 1)
  }

  function AllIds(nodes: seq<Node>): seq<Id> {
    if nodes == [] then [] else [nodes[0].id] + AllIds(nodes[0].children) + AllIds(nodes[1..])
  }

  function RootIds(nodes: seq<Node>): seq<Id> {
    if nodes == [] then [] else [nodes[0].id] + RootIds(nodes[1..])
  }

  lemma {:induction false} FlatIds(nodes: seq<Node>, parent: Option<Id>, index: nat)
    ensures HasIds(Flatten(nodes, parent, index), AllIds(nodes))
  {
    if nodes != [] {
      var kids, kidIds := Flatten(nodes[0].children, Some(nodes[0].id), 0), AllIds(nodes[0].children);
      var rest, restIds := Flatten(nodes[1..], parent, index + 1), AllIds(nodes[1..]);
      FlatIds(nodes[0].children, Some(nodes[0].id), 0);
      FlatIds(nodes[1..], parent, index + 1);
      ConcatIds([Flat(nodes[0].id, parent, index)], [nodes[0].id], kids, kidIds);
      ConcatIds([Flat(nodes[0].id, parent, index)] + kids, [nodes[0].id] + kidIds, rest, restIds);
    }
  }

  ghost predicate HasIds(flat: seq<Flat>, ids: seq<Id>) {
    |flat| == |ids| && forall k | 0 <= k < |ids| :: flat[k].id == ids[k]
  }

  lemma ConcatIds(a: seq<Flat>, aIds: seq<Id>, b: seq<Flat>, bIds: seq<Id>)
    requires HasIds(a, aIds) && HasIds(b, bIds)
    ensures HasIds(a + b, aIds + bIds)
  {
  }

  // An entry of a flattened payload is top level, or its parent comes earlier in the payload.
  lemma {:induction false} ParentEarlier(nodes: seq<Node>, parent: Option<Id>, index: nat, k: nat) returns (j: nat)
    requires k < |Flatten(nodes, parent, index)|
    ensures Flatten(nodes, parent, index)[k].parent != parent ==>
      j < k && Flatten(nodes, parent, index)[k].parent == Some(Flatten(nodes, parent, index)[j].id)
  {
    j := 0;
    var kids := Flatten(nodes[0].children, Some(nodes[0].id), 0);
    var rest := Flatten(nodes[1..], parent, index + 1);
    var flat := Flatten(nodes, parent, index);
    if 0 < k <= |kids| {
      assert flat[k] == kids[k - 1];
      var i := ParentEarlier(nodes[0].children, Some(nodes[0].id), 0, k - 1);
      if kids[k - 1].parent == Some(nodes[0].id) {
        j := 0;
      } else {
        j := i + 1;
        assert flat[j] == kids[i];
      }
    } else if k > |kids| {
      var k' := k - 1 - |kids|;
      assert flat[k] == rest[k'];
      var i := ParentEarlier(nodes[1..], parent, index + 1, k');
      if rest[k'].parent != parent {
        j := i + 1 + |kids|;
        assert flat[j] == rest[i];
      }
    }
  }

  // `after` is `before` with the parents and sort orders of the payload written over it.
  ghost predicate Reordered(before: Rows, after: Rows, flat: seq<Flat>) {
    && after.Keys == before.Keys
    && (forall k | 0 <= k < |flat| ::
         && flat[k].id in after
         && after[flat[k].id] == before[flat[k].id].(parent := flat[k].parent, sortOrder := flat[k].sortOrder))
    && (forall id | id in after && (forall k | 0 <= k < |flat| :: flat[k].id != id) :: after[id] == before[id])
  }

  lemma {:induction false} PayloadReachesTop(nodes: seq<Node>, before: Rows, after: Rows, k: nat)
    requires Reordered(before, after, Flatten(nodes, None, 0)) && k < |Flatten(nodes, None, 0)|
    ensures ReachesTop(after, Some(Flatten(nodes, None, 0)[k].id), k + 1)
    decreases k
  {
    var flat := Flatten(nodes, None, 0);
    var j := ParentEarlier(nodes, None, 0, k);
    if flat[k].parent.Some? {
      PayloadReachesTop(nodes, before, after, j);
      ReachesTopMonotone(after, flat[k].parent, j + 1, k);
    }
  }

  lemma {:induction false} OthersReachTop(nodes: seq<Node>, before: Rows, after: Rows, cursor: Option<Id>, n: nat)
    requires Reordered(before, after, Flatten(nodes, None, 0)) && ReachesTop(before, cursor, n)
    ensures exists m: nat :: ReachesTop(after, cursor, m)
    decreases n
  {
    var flat := Flatten(nodes, None, 0);
    if cursor.None? {
      assert ReachesTop(after, cursor, 0);
    } else if k :| 0 <= k < |flat| && flat[k].id == cursor.value {
      PayloadReachesTop(nodes, before, after, k);
    } else {
      OthersReachTop(nodes, before, after, ParentOf(before, cursor), n - 1);
      var m: nat :| ReachesTop(after, ParentOf(before, cursor), m);
      assert ReachesTop(after, cursor, m + 1);
    }
  }

  // A reorder keeps the forest, also when the payload names only some of the items.
  lemma ReorderKeepsForest(nodes: seq<Node>, before: Rows, after: Rows)
    requires Forest(before) && Reordered(before, after, Flatten(nodes, None, 0))
    ensures Forest(after)
  {
    var flat := Flatten(nodes, None, 0);
    forall id | id in after
      ensures exists n: nat :: ReachesTop(after, Some(id), n)
    {
      var n: nat :| ReachesTop(before, Some(id), n);
      OthersReachTop(nodes, before, after, Some(id), n);
    }
    forall id | id in after
      ensures after[id].parent.Some? ==> after[id].parent.value in after
      ensures after[id].slug == before[id].slug
    {
      if k :| 0 <= k < |flat| && flat[k].id == id {
        var j := ParentEarlier(nodes, None, 0, k);
      }
    }
  }

  // Re-parenting an item under a different top-level item keeps every chain finite.
  lemma {:induction false} MovedReachesTop(before: Rows, after: Rows, id: Id, cursor: Option<Id>, n: nat)
    requires id in before && after.Keys == before.Keys
    requires forall x | x in before && x != id :: after[x].parent == before[x].parent
    requires after[id].parent.Some? ==>
      var p := after[id].parent.value; p != id && p in before && before[p].parent.None?
    requires ReachesTop(before, cursor, n)
    ensures exists m: nat :: ReachesTop(after, cursor, m)
    decreases n
  {
    if cursor.None? {
      assert ReachesTop(after, cursor, 0);
    } else if cursor == Some(id) {
      assert ParentOf(after, ParentOf(after, cursor)).None?;
      assert ReachesTop(after, ParentOf(after, ParentOf(after, cursor)), 0);
      assert ReachesTop(after, ParentOf(after, cursor), 1);
      assert ReachesTop(after, cursor, 2);
    } else {
      MovedReachesTop(before, after, id, ParentOf(before, cursor), n - 1);
      var m: nat :| ReachesTop(after, ParentOf(before, cursor), m);
      assert ParentOf(after, cursor) == ParentOf(before, cursor);
      assert ReachesTop(after, cursor, m + 1);
    }
  }

  lemma {:induction false} CreatedReachesTop(before: Rows, after: Rows, cursor: Option<Id>, n: nat)
    requires forall x | x in before :: x in after && after[x].parent == before[x].parent
    requires ParentsExist(before) && (cursor.Some? ==> cursor.value in before)
    requires ReachesTop(before, cursor, n)
    ensures ReachesTop(after, cursor, n)
    decreases n
  {
    if cursor.Some? {
      CreatedReachesTop(before, after, ParentOf(before, cursor), n - 1);
    }
  }

  class Menu {
    var rows: Rows

    constructor ()
      ensures rows == map[] && Forest(rows)
    {
      rows := map[];
    }

    // The cycle check walks up from the candidate parent. It ends on any parent map, even a cyclic one, and finds the
    // item exactly when it is on the candidate's chain.
    method AssertNotDescendant(id: Id, candidate: Id) returns (rejected: bool)
      ensures rejected <==> OnChain(rows, candidate, id)
    {
      var cursor := Some(candidate);
      var seen: set<Id> := {};
      ghost var universe :=
        rows.Keys + {candidate} + set x | x in rows && rows[x].parent.Some? :: rows[x].parent.value;
      ghost var k: nat := 0;
      while cursor.Some?
        invariant cursor == Ancestor(rows, Some(candidate), k)
        invariant cursor.Some? ==> cursor.value in universe
        invariant forall j: nat | j < k :: Ancestor(rows, Some(candidate), j) != Some(id)
        invariant forall x | x in seen :: exists j: nat :: j < k && Ancestor(rows, Some(candidate), j) == Some(x)
        invariant seen <= universe
        decreases universe - seen
      {
        if cursor.value == id {
          return true;
        }
        if cursor.value in seen {
          ghost var j: nat :| j < k && Ancestor(rows, Some(candidate), j) == cursor;
          forall n: nat ensures Ancestor(rows, Some(candidate), n) != Some(id) {
            var m := RepeatsAll(rows, Some(candidate), j, k, n);
          }
          return false;
        }
        seen := seen + {cursor.value};
        cursor := ParentOf(rows, cursor);
        k := k + 1;
      }
      forall n: nat ensures Ancestor(rows, Some(candidate), n) != Some(id) {
        if n >= k {
          NoneAfterNone(rows, Some(candidate), k, n);
        }
      }
      rejected := false;
    }

    method AssertParentExists(parent: Id) returns (error: Option<Error>)
      ensures error == if parent !in rows then Some(ParentNotFound)
                       else if rows[parent].parent.Some? then Some(ParentNested) else None
    {
      if parent !in rows {
        return Some(ParentNotFound);
      }
      if rows[parent].parent.Some? {
        return Some(ParentNested);
      }
      error := None;
    }

    ghost predicate SlugTaken(slug: Option<string>, except: Option<Id>)
      reads this
    {
      slug.Some? && exists id :: id in rows && Some(id) != except && rows[id].slug == slug
    }

    method AssertSlugAvailable(slug: Option<string>, except: Option<Id>) returns (error: Option<Error>)
      ensures error == if SlugTaken(slug, except) then Some(Error.SlugTaken) else None
    {
      if slug.None? {
        return None;
      }
      var left := rows.Keys;
      while left != {}
        invariant left <= rows.Keys
        invariant forall id | id in rows && id !in left && Some(id) != except :: rows[id].slug != slug
        decreases left
      {
        var id :| id in left;
        if Some(id) != except && rows[id].slug == slug {
          return Some(Error.SlugTaken);
        }
        left := left - {id};
      }
      error := None;
    }

    // One more than the largest sort order under the parent, and zero when there is none.
    method NextSortOrder(parent: Option<Id>) returns (next: int)
      ensures forall id | id in rows && rows[id].parent == parent :: rows[id].sortOrder < next
      ensures if exists id :: id in rows && rows[id].parent == parent
              then exists id :: id in rows && rows[id].parent == parent && rows[id].sortOrder == next - 1
              else next == 0
    {
      var last: Option<int> := None;
      var left := rows.Keys;
      while left != {}
        invariant left <= rows.Keys
        invariant forall id | id in rows && id !in left && rows[id].parent == parent ::
          last.Some? && rows[id].sortOrder <= last.value
        invariant last.Some? ==>
          exists id :: id in rows && rows[id].parent == parent && rows[id].sortOrder == last.value
        decreases left
      {
        var id :| id in left;
        if rows[id].parent == parent && (last.None? || rows[id].sortOrder > last.value) {
          last := Some(rows[id].sortOrder);
        }
        left := left - {id};
      }
      next := (if last.Some? then last.value else -1) + 1;
    }

    // Creates an item under the top level or a top-level section. Without an explicit sort order it is listed after
    // its siblings.
    method Create(id: Id, parent: Option<Id>, slug: Option<string>, sortOrder: Option<int>, now: int)
      returns (error: Option<Error>)
      requires Forest(rows) && id !in rows
      modifies this
      ensures Forest(rows)
      ensures error.Some? ==> rows == old(rows)
      ensures error.None? <==>
        (parent.Some? ==> parent.value in old(rows) && old(rows)[parent.value].parent.None?)
        && !old(SlugTaken(slug, None))
      ensures error.None? ==>
        && id in rows && rows == old(rows)[id := rows[id]]
        && rows[id].parent == parent && rows[id].slug == slug && rows[id].createdAt == now
        && (sortOrder.Some? ==> rows[id].sortOrder == sortOrder.value)
        && (sortOrder.None? ==> forall ids | IsListing(old(rows), parent, ids) :: IsListing(rows, parent, ids + [id]))
    {
      if parent.Some? {
        error := AssertParentExists(parent.value);
        if error.Some? {
          return;
        }
      }
      error := AssertSlugAvailable(slug, None);
      if error.Some? {
        return;
      }
      var order: int;
      if sortOrder.Some? {
        order := sortOrder.value;
      } else {
        order := NextSortOrder(parent);
      }
      var item := Item(parent, order, now, slug);
      ghost var before := rows;
      rows := rows[id := item];
      CreatedKeepsForest(before, id, item);
      if sortOrder.None? {
        forall ids | IsListing(before, parent, ids) ensures IsListing(rows, parent, ids + [id]) {
          ListedLast(before, parent, ids, id, item);
        }
      }
    }

    // Absent fields keep their value; `Some(None)` moves the item to the top level.
    method Update(id: Id, newParent: Option<Option<Id>>, newSlug: Option<Option<string>>, sortOrder: Option<int>)
      returns (error: Option<Error>)
      requires Forest(rows)
      modifies this
      ensures Forest(rows)
      ensures error.Some? ==> rows == old(rows)
      ensures error != Some(UnderDescendant)
      ensures id !in old(rows) <==> error == Some(ItemNotFound)
      ensures id in old(rows) ==>
        var item := old(rows)[id];
        var parent := if newParent.Some? then newParent.value else item.parent;
        var slug := if newSlug.Some? then newSlug.value else item.slug;
        && (error.None? <==>
              && parent != Some(id)
              && (parent.Some? ==> parent.value in old(rows) && old(rows)[parent.value].parent.None?)
              && (slug == item.slug || !old(SlugTaken(slug, Some(id)))))
        && (error.None? ==> rows == old(rows)[id :=
              Item(parent, if sortOrder.Some? then sortOrder.value else item.sortOrder, item.createdAt, slug)])
    {
      if id !in rows {
        return Some(ItemNotFound);
      }
      var existing := rows[id];
      var parent := if newParent.Some? then newParent.value else existing.parent;
      if parent == Some(id) {
        return Some(OwnParent);
      }
      if parent.Some? {
        error := AssertParentExists(parent.value);
        if error.Some? {
          return;
        }
        var rejected := AssertNotDescendant(id, parent.value);
        TopLevelChain(rows, parent.value, id);
        if rejected {
          return Some(UnderDescendant);
        }
      }
      var slug := if newSlug.Some? then newSlug.value else existing.slug;
      if slug.Some? && slug != existing.slug {
        error := AssertSlugAvailable(slug, Some(id));
        if error.Some? {
          return;
        }
      }
      error := None;
      ghost var before := rows;
      rows := rows[id :=
        Item(parent, if sortOrder.Some? then sortOrder.value else existing.sortOrder, existing.createdAt, slug)];
      MovedKeepsForest(before, rows, id);
    }

    // Deletes an item; the foreign key cascades to everything below it.
    method Remove(id: Id) returns (error: Option<Error>)
      requires Forest(rows)
      modifies this
      ensures Forest(rows)
      ensures error == if id in old(rows) then None else Some(ItemNotFound)
      ensures forall x :: x in rows <==> x in old(rows) && !(id in old(rows) && OnChain(old(rows), x, id))
      ensures forall x | x in rows :: rows[x] == old(rows)[x]
    {
      if id !in rows {
        return Some(ItemNotFound);
      }
      ghost var before := rows;
      var doomed: set<Id> := {};
      var left := rows.Keys;
      while left != {}
        invariant rows == before && left <= rows.Keys && doomed <= rows.Keys
        invariant forall x | x in rows && x !in left :: x in doomed <==> OnChain(rows, x, id)
        invariant forall x | x in left :: x !in doomed
        decreases left
      {
        var x :| x in left;
        var below := AssertNotDescendant(id, x);
        if below {
          doomed := doomed + {x};
        }
        left := left - {x};
      }
      rows := rows - doomed;
      RemovedKeepsForest(before, rows, id);
      error := None;
    }

    // `walk` pushes the nodes in preorder, each with its parent and its index among its siblings.
    method Walk(nodes: seq<Node>, parent: Option<Id>, flat: seq<Flat>) returns (walked: seq<Flat>)
      ensures walked == flat + Flatten(nodes, parent, 0)
      decreases nodes
    {
      walked := flat;
      for index := 0 to |nodes|
        invariant walked + Flatten(nodes[index..], parent, index) == flat + Flatten(nodes, parent, 0)
      {
        var node := nodes[index];
        ghost var before := walked;
        walked := walked + [Flat(node.id, parent, index)];
        if |node.children| > 0 {
          walked := Walk(node.children, Some(node.id), walked);
        }
        FlattenStep(nodes[index..], parent, index);
        assert nodes[index..][1..] == nodes[index + 1..];
        assert walked + Flatten(nodes[index + 1..], parent, index + 1)
            == before + Flatten(nodes[index..], parent, index);
      }
    }

    method WriteOrder(flat: seq<Flat>)
      requires NoDuplicates(seq(|flat|, i requires 0 <= i < |flat| => flat[i].id))
      requires forall k | 0 <= k < |flat| :: flat[k].id in rows
      modifies this
      ensures Reordered(old(rows), rows, flat)
    {
      ghost var ids := seq(|flat|, i requires 0 <= i < |flat| => flat[i].id);
      for k := 0 to |flat|
        invariant Reordered(old(rows), rows, flat[..k])
      {
        var entry := flat[k];
        forall j | 0 <= j < k ensures flat[j].id != entry.id {
          assert ids[j] != ids[k];
        }
        rows := rows[entry.id := rows[entry.id].(parent := entry.parent, sortOrder := entry.sortOrder)];
      }
      assert flat[..|flat|] == flat;
    }

    method Reorder(items: seq<Node>) returns (error: Option<Error>)
      requires Forest(rows)
      modifies this
      ensures Forest(rows)
      ensures error ==
        if !NoDuplicates(AllIds(items)) then Some(DuplicateIds)
        else if exists id :: id in AllIds(items) && id !in old(rows) then Some(UnknownIds) else None
      ensures error.Some? ==> rows == old(rows)
      ensures error.None? ==> Reordered(old(rows), rows, Flatten(items, None, 0))
    {
      var flat := Walk(items, None, []);
      FlatIds(items, None, 0);
      var ids := seq(|flat|, i requires 0 <= i < |flat| => flat[i].id);
      assert ids == AllIds(items);
      var distinct := AllDistinct(ids);
      if !distinct {
        return Some(DuplicateIds);
      }
      if exists k :: 0 <= k < |ids| && ids[k] !in rows {
        return Some(UnknownIds);
      }
      WriteOrder(flat);
      ReorderKeepsForest(items, old(rows), rows);
      error := None;
    }
  }

  // `new Set(ids).size === ids.length`
  method AllDistinct(ids: seq<Id>) returns (distinct: bool)
    ensures distinct <==> NoDuplicates(ids)
  {
    var seen: set<Id> := {};
    for i := 0 to |ids|
      invariant forall x :: x in seen <==> x in ids[..i]
      invariant |seen| <= i
      invariant |seen| == i <==> NoDuplicates(ids[..i])
    {
      assert ids[..i + 1] == ids[..i] + [ids[i]];
      if ids[i] in seen {
        var j :| 0 <= j < i && ids[j] == ids[i];
        assert ids[..i + 1][j] == ids[..i + 1][i];
        assert !NoDuplicates(ids[..i + 1]);
      } else if NoDuplicates(ids[..i + 1]) {
        forall a, b | 0 <= a < b < i ensures ids[..i][a] != ids[..i][b] {
          assert ids[..i + 1][a] != ids[..i + 1][b];
        }
      }
      seen := seen + {ids[i]};
    }
    assert ids[..|ids|] == ids;
    distinct := |seen| == |ids|;
  }

  lemma FlattenStep(nodes: seq<Node>, parent: Option<Id>, index: nat)
    requires nodes != []
    ensures Flatten(nodes, parent, index) ==
      [Flat(nodes[0].id, parent, index)] + Flatten(nodes[0].children, Some(nodes[0].id), 0)
      + Flatten(nodes[1..], parent, index + 1)
  {
  }

  // Since a parent must be top level, its chain is itself alone: the descendant check after it never rejects.
  lemma TopLevelChain(rows: Rows, parent: Id, id: Id)
    requires parent in rows && rows[parent].parent.None? && parent != id
    ensures !OnChain(rows, parent, id)
  {
    forall n: nat ensures Ancestor(rows, Some(parent), n) != Some(id) {
      if n > 0 {
        NoneAfterNone(rows, Some(parent), 1, n);
      }
    }
  }

  lemma CreatedKeepsForest(before: Rows, id: Id, item: Item)
    requires Forest(before) && id !in before && (item.parent.Some? ==> item.parent.value in before)
    requires item.slug.Some? ==> forall x | x in before :: before[x].slug != item.slug
    ensures Forest(before[id := item])
  {
    var after := before[id := item];
    forall x | x in after ensures exists n: nat :: ReachesTop(after, Some(x), n) {
      if x == id && item.parent.None? {
        assert ReachesTop(after, Some(x), 1);
      } else {
        var y := if x == id then item.parent.value else x;
        var n: nat :| ReachesTop(before, Some(y), n);
        CreatedReachesTop(before, after, Some(y), n);
        assert ReachesTop(after, Some(id), n + 1) || x != id;
      }
    }
  }

  lemma MovedKeepsForest(before: Rows, after: Rows, id: Id)
    requires Forest(before) && id in before && id in after && after == before[id := after[id]]
    requires after[id].parent.Some? ==>
      var p := after[id].parent.value; p != id && p in before && before[p].parent.None?
    requires after[id].slug.Some? ==> forall x | x in before && x != id :: before[x].slug != after[id].slug
    ensures Forest(after)
  {
    forall x | x in after ensures exists n: nat :: ReachesTop(after, Some(x), n) {
      var n: nat :| ReachesTop(before, Some(x), n);
      MovedReachesTop(before, after, id, Some(x), n);
    }
  }

  lemma {:induction false} SurvivorReachesTop(before: Rows, after: Rows, cursor: Option<Id>, n: nat)
    requires forall x | x in after :: x in before && after[x] == before[x]
    requires ReachesTop(before, cursor, n)
    ensures ReachesTop(after, cursor, n)
    decreases n
  {
    if cursor.Some? {
      SurvivorReachesTop(before, after, ParentOf(before, cursor), n - 1);
    }
  }

  lemma RemovedKeepsForest(before: Rows, after: Rows, id: Id)
    requires Forest(before) && id in before
    requires forall x :: x in after <==> x in before && !OnChain(before, x, id)
    requires forall x | x in after :: after[x] == before[x]
    ensures Forest(after)
  {
    forall x | x in after
      ensures exists n: nat :: ReachesTop(after, Some(x), n)
      ensures after[x].parent.Some? ==> after[x].parent.value in after
    {
      var n: nat :| ReachesTop(before, Some(x), n);
      SurvivorReachesTop(before, after, Some(x), n);
      if after[x].parent.Some? {
        ChainOfChild(before, x, id);
      }
    }
  }

  // ----- reorder is a round trip

  // `ids` is what any listing of the items under `parent` shows.
  ghost predicate Shows(rows: Rows, parent: Option<Id>, ids: seq<Id>) {
    IsListing(rows, parent, ids) && forall other | IsListing(rows, parent, other) :: other == ids
  }

  // Listing the stored items level by level gives back the subtrees of `nodes`.
  ghost predicate ShowsBelow(rows: Rows, nodes: seq<Node>) {
    nodes == [] || (
      && Shows(rows, Some(nodes[0].id), RootIds(nodes[0].children))
      && ShowsBelow(rows, nodes[0].children)
      && ShowsBelow(rows, nodes[1..]))
  }

  ghost predicate ShowsForest(rows: Rows, parent: Option<Id>, nodes: seq<Node>) {
    Shows(rows, parent, RootIds(nodes)) && ShowsBelow(rows, nodes)
  }

  ghost predicate Stored(rows: Rows, flat: seq<Flat>) {
    forall e | e in flat :: e.id in rows && rows[e.id].parent == e.parent && rows[e.id].sortOrder == e.sortOrder
  }

  lemma {:induction false} RootIdAt(nodes: seq<Node>, parent: Option<Id>, index: nat)
    ensures |RootIds(nodes)| == |nodes|
    ensures forall i | 0 <= i < |nodes| ::
      RootIds(nodes)[i] == nodes[i].id && Flat(nodes[i].id, parent, index + i) in Flatten(nodes, parent, index)
  {
    if nodes != [] {
      RootIdAt(nodes[1..], parent, index + 1);
      forall i | 0 <= i < |nodes|
        ensures RootIds(nodes)[i] == nodes[i].id
        ensures Flat(nodes[i].id, parent, index + i) in Flatten(nodes, parent, index)
      {
        if i > 0 {
          assert RootIds(nodes[1..])[i - 1] == nodes[1..][i - 1].id;
          assert Flat(nodes[1..][i - 1].id, parent, index + 1 + (i - 1)) in Flatten(nodes[1..], parent, index + 1);
        }
      }
    }
  }

  lemma {:induction false} EntryIds(nodes: seq<Node>, parent: Option<Id>, index: nat)
    ensures forall id :: id in AllIds(nodes) <==> exists e :: e in Flatten(nodes, parent, index) && e.id == id
  {
    FlatIds(nodes, parent, index);
    var flat, ids := Flatten(nodes, parent, index), AllIds(nodes);
    forall id ensures id in ids <==> exists e :: e in flat && e.id == id {
      if id in ids {
        var k :| 0 <= k < |ids| && ids[k] == id;
        assert flat[k] in flat;
      }
      if e :| e in flat && e.id == id {
        var k :| 0 <= k < |flat| && flat[k] == e;
        assert ids[k] == id;
      }
    }
  }

  // The parent of an entry is the one the forest hangs under, and then the entry is a root; or it is in the forest.
  lemma {:induction false} EntryParent(nodes: seq<Node>, parent: Option<Id>, index: nat, e: Flat)
    requires e in Flatten(nodes, parent, index)
    ensures e.parent == parent ==> e.id in RootIds(nodes) || (parent.Some? && parent.value in AllIds(nodes))
    ensures e.parent != parent ==> e.parent.Some? && e.parent.value in AllIds(nodes)
  {
    FlattenStep(nodes, parent, index);
    var kids := Flatten(nodes[0].children, Some(nodes[0].id), 0);
    if e in kids {
      EntryParent(nodes[0].children, Some(nodes[0].id), 0, e);
    } else if e in Flatten(nodes[1..], parent, index + 1) {
      EntryParent(nodes[1..], parent, index + 1, e);
    }
  }

  lemma NoDuplicatesParts(a: seq<Id>, b: seq<Id>)
    requires NoDuplicates(a + b)
    ensures NoDuplicates(a) && NoDuplicates(b) && forall x | x in a :: x !in b
  {
    var s := a + b;
    forall i, j | 0 <= i < j < |a| ensures a[i] != a[j] {
      assert s[i] != s[j];
    }
    forall i, j | 0 <= i < j < |b| ensures b[i] != b[j] {
      assert s[|a| + i] != s[|a| + j];
    }
    forall x | x in a ensures x !in b {
      var i :| 0 <= i < |a| && a[i] == x;
      forall j | 0 <= j < |b| ensures b[j] != x {
        assert s[i] != s[|a| + j];
      }
    }
  }

  lemma DistinctParts(nodes: seq<Node>)
    requires nodes != [] && NoDuplicates(AllIds(nodes))
    ensures var kids, rest := AllIds(nodes[0].children), AllIds(nodes[1..]);
      && NoDuplicates(kids) && NoDuplicates(rest)
      && nodes[0].id !in kids && nodes[0].id !in rest
      && forall x | x in kids :: x !in rest
  {
    var kids, rest := AllIds(nodes[0].children), AllIds(nodes[1..]);
    NoDuplicatesParts([nodes[0].id] + kids, rest);
    NoDuplicatesParts([nodes[0].id], kids);
    assert nodes[0].id in [nodes[0].id] + kids;
  }

  // Strictly indexed siblings have exactly one listing.
  lemma ShowsIndexed(rows: Rows, parent: Option<Id>, ids: seq<Id>)
    requires forall id :: id in ids <==> id in rows && rows[id].parent == parent
    requires forall i | 0 <= i < |ids| :: rows[ids[i]].sortOrder == i
    ensures Shows(rows, parent, ids)
  {
    assert IsListing(rows, parent, ids);
    forall other | IsListing(rows, parent, other) ensures other == ids {
      SameListing(rows, ids, other, 0);
    }
  }

  lemma {:induction false} SameListing(rows: Rows, ids: seq<Id>, other: seq<Id>, k: nat)
    requires k <= |ids| && k <= |other| && other[..k] == ids[..k]
    requires NoDuplicates(ids) && NoDuplicates(other)
    requires forall id :: id in ids <==> id in other
    requires forall id | id in ids :: id in rows
    requires forall i | 0 <= i < |ids| :: rows[ids[i]].sortOrder == i
    requires forall i, j | 0 <= i < j < |other| :: Before(rows, other[i], other[j])
    ensures other == ids
    decreases |ids| - k
  {
    if k == |ids| {
      forall m | 0 <= m < |other| ensures m < k && other[m] in ids {
        assert other[m] in other && other[m] in ids;
        var i :| 0 <= i < |ids| && ids[i] == other[m];
        assert other[i] == other[..k][i];
      }
      assert |other| == 0 || other[|other| - 1] in ids;
    } else {
      var i := IndexAfter(ids, other, k, ids[k]);
      var j := IndexAfter(other, ids, k, other[k]);
      assert rows[other[k]].sortOrder == j >= k;
      assert i > k ==> Before(rows, other[k], other[i]);
      assert ids[j] == other[k] && j == k;
      SameListing(rows, ids, other, k + 1);
    }
  }

  // An element of `a` behind a common prefix is behind it in `b` too.
  lemma IndexAfter(a: seq<Id>, b: seq<Id>, k: nat, x: Id) returns (i: nat)
    requires k < |a| && k <= |b| && b[..k] == a[..k] && a[k] == x && x in b && NoDuplicates(a)
    ensures k <= i < |b| && b[i] == x
  {
    i :| 0 <= i < |b| && b[i] == x;
    forall j | 0 <= j < k ensures b[j] != x {
      assert a[..k][j] == b[..k][j];
    }
  }

  // Items stored under an item of the forest belong to the forest, with the parent their payload entry gives.
  ghost predicate Closed(rows: Rows, nodes: seq<Node>) {
    forall x | x in rows && rows[x].parent.Some? && rows[x].parent.value in AllIds(nodes) :: x in AllIds(nodes)
  }

  lemma EntryOf(rows: Rows, nodes: seq<Node>, parent: Option<Id>, index: nat, x: Id) returns (e: Flat)
    requires Stored(rows, Flatten(nodes, parent, index)) && x in AllIds(nodes)
    ensures e in Flatten(nodes, parent, index) && e.id == x && x in rows && rows[x].parent == e.parent
  {
    EntryIds(nodes, parent, index);
    e :| e in Flatten(nodes, parent, index) && e.id == x;
  }

  // Which part of a forest an entry is in is decided by its parent.
  lemma EntryPart(nodes: seq<Node>, parent: Option<Id>, index: nat, e: Flat)
    requires nodes != [] && NoDuplicates(AllIds(nodes)) && e in Flatten(nodes, parent, index)
    requires parent.Some? ==> parent.value !in AllIds(nodes)
    ensures e.parent == Some(nodes[0].id) ==> e.id in RootIds(nodes[0].children)
    ensures e.parent.Some? && e.parent.value in AllIds(nodes[0].children) ==> e.id in AllIds(nodes[0].children)
    ensures e.parent.Some? && e.parent.value in AllIds(nodes[1..]) ==> e.id in AllIds(nodes[1..])
  {
    FlattenStep(nodes, parent, index);
    DistinctParts(nodes);
    EntryIds(nodes[0].children, Some(nodes[0].id), 0);
    EntryIds(nodes[1..], parent, index + 1);
    if e in Flatten(nodes[0].children, Some(nodes[0].id), 0) {
      EntryParent(nodes[0].children, Some(nodes[0].id), 0, e);
    } else if e in Flatten(nodes[1..], parent, index + 1) {
      EntryParent(nodes[1..], parent, index + 1, e);
    }
  }

  lemma {:induction false} StoredShowsBelow(rows: Rows, nodes: seq<Node>, parent: Option<Id>, index: nat)
    requires Stored(rows, Flatten(nodes, parent, index)) && NoDuplicates(AllIds(nodes)) && Closed(rows, nodes)
    requires parent.Some? ==> parent.value !in AllIds(nodes)
    ensures ShowsBelow(rows, nodes)
    decreases nodes
  {
    hide Shows, NoDuplicates, RootIds, Flatten;
    if nodes != [] {
      var kids, rest, head := nodes[0].children, nodes[1..], nodes[0].id;
      FlattenStep(nodes, parent, index);
      DistinctParts(nodes);
      assert head in AllIds(nodes);
      forall x | x in rows && rows[x].parent.Some? && rows[x].parent.value in AllIds(nodes)
        ensures rows[x].parent == Some(head) ==> x in RootIds(kids)
        ensures rows[x].parent.value in AllIds(kids) ==> x in AllIds(kids)
        ensures rows[x].parent.value in AllIds(rest) ==> x in AllIds(rest)
      {
        var e := EntryOf(rows, nodes, parent, index, x);
        EntryPart(nodes, parent, index, e);
      }
      RootIdAt(kids, Some(head), 0);
      ShowsIndexed(rows, Some(head), RootIds(kids));
      StoredShowsBelow(rows, kids, Some(head), 0);
      StoredShowsBelow(rows, rest, parent, index + 1);
    }
  }

  // After a reorder whose payload names every item, listing the menu level by level gives back the payload, and no
  // other listing is possible.
  lemma ReorderRoundTrip(nodes: seq<Node>, before: Rows, after: Rows)
    requires NoDuplicates(AllIds(nodes)) && Reordered(before, after, Flatten(nodes, None, 0))
    requires forall id | id in before :: id in AllIds(nodes)
    ensures ShowsForest(after, None, nodes)
  {
    var flat := Flatten(nodes, None, 0);
    forall e | e in flat
      ensures e.id in after && after[e.id].parent == e.parent && after[e.id].sortOrder == e.sortOrder
    {
      var k :| 0 <= k < |flat| && flat[k] == e;
    }
    StoredShowsBelow(after, nodes, None, 0);
    RootIdAt(nodes, None, 0);
    forall id ensures id in RootIds(nodes) <==> id in after && after[id].parent.None? {
      if id in after && after[id].parent.None? {
        var e := EntryOf(after, nodes, None, 0, id);
        EntryParent(nodes, None, 0, e);
      }
    }
    ShowsIndexed(after, None, RootIds(nodes));
  }

  // Two forests shown by the same items are the same.
  lemma {:induction false} ShownForestUnique(rows: Rows, parent: Option<Id>, a: seq<Node>, b: seq<Node>)
    requires ShowsForest(rows, parent, a) && ShowsForest(rows, parent, b)
    ensures a == b
  {
    assert RootIds(a) == RootIds(b);
    SameRootsBelow(rows, a, b);
  }

  lemma {:induction false} SameRootsBelow(rows: Rows, a: seq<Node>, b: seq<Node>)
    requires RootIds(a) == RootIds(b) && ShowsBelow(rows, a) && ShowsBelow(rows, b)
    ensures a == b
    decreases a
  {
    if a != [] && b != [] {
      assert a[0].id == RootIds(a)[0] == RootIds(b)[0] == b[0].id;
      assert RootIds(a)[1..] == RootIds(a[1..]) && RootIds(b)[1..] == RootIds(b[1..]);
      SameRootsBelow(rows, a[0].children, b[0].children);
      SameRootsBelow(rows, a[1..], b[1..]);
      assert a == [a[0]] + a[1..] && b == [b[0]] + b[1..];
    }
  }

  // ----- `list`

  function Leaves(nodes: seq<Node>): seq<Node> {
    if nodes == [] then [] else [Node(nodes[0].id, [])] + Leaves(nodes[1..])
  }

  function TopTwo(nodes: seq<Node>): seq<Node> {
    if nodes == [] then [] else [Node(nodes[0].id, Leaves(nodes[0].children))] + TopTwo(nodes[1..])
  }

  // What `list` may return: the items without a parent in order, each with its children in order.
  ghost predicate Listed(rows: Rows, tree: seq<Node>) {
    IsListing(rows, None, RootIds(tree)) && ListedBelow(rows, tree)
  }

  ghost predicate ListedBelow(rows: Rows, tree: seq<Node>) {
    tree != [] ==>
      && IsListing(rows, Some(tree[0].id), RootIds(tree[0].children)) && tree[0].children == Leaves(tree[0].children)
      && ListedBelow(rows, tree[1..])
  }

  lemma {:induction false} LeavesIds(nodes: seq<Node>)
    ensures RootIds(Leaves(nodes)) == RootIds(nodes) && Leaves(Leaves(nodes)) == Leaves(nodes)
  {
    if nodes != [] {
      LeavesIds(nodes[1..]);
      assert Leaves(nodes)[1..] == Leaves(nodes[1..]);
    }
  }

  lemma {:induction false} SameLeaves(a: seq<Node>, b: seq<Node>)
    requires RootIds(a) == RootIds(b)
    ensures Leaves(a) == Leaves(b)
  {
    if a != [] && b != [] {
      assert RootIds(a)[0] == a[0].id && RootIds(b)[0] == b[0].id;
      assert RootIds(a)[1..] == RootIds(a[1..]) && RootIds(b)[1..] == RootIds(b[1..]);
      SameLeaves(a[1..], b[1..]);
    }
  }

  lemma {:induction false} TopTwoListed(rows: Rows, nodes: seq<Node>)
    requires ShowsBelow(rows, nodes)
    ensures RootIds(TopTwo(nodes)) == RootIds(nodes) && ListedBelow(rows, TopTwo(nodes))
  {
    hide Shows, IsListing;
    if nodes != [] {
      LeavesIds(nodes[0].children);
      TopTwoListed(rows, nodes[1..]);
      assert TopTwo(nodes)[1..] == TopTwo(nodes[1..]);
      ShownIsListing(rows, Some(nodes[0].id), RootIds(nodes[0].children));
    }
  }

  lemma ShownIsListing(rows: Rows, parent: Option<Id>, ids: seq<Id>)
    requires Shows(rows, parent, ids)
    ensures forall other :: IsListing(rows, parent, other) <==> other == ids
  {
  }

  lemma {:induction false} ListedIsTopTwo(rows: Rows, nodes: seq<Node>, tree: seq<Node>)
    requires ShowsBelow(rows, nodes) && ListedBelow(rows, tree) && RootIds(tree) == RootIds(nodes)
    ensures tree == TopTwo(nodes)
    decreases |tree|
  {
    hide Shows, IsListing;
    if tree != [] && nodes != [] {
      assert RootIds(tree)[0] == tree[0].id && RootIds(nodes)[0] == nodes[0].id;
      assert RootIds(tree)[1..] == RootIds(tree[1..]) && RootIds(nodes)[1..] == RootIds(nodes[1..]);
      ShownIsListing(rows, Some(nodes[0].id), RootIds(nodes[0].children));
      SameLeaves(tree[0].children, nodes[0].children);
      ListedIsTopTwo(rows, nodes[1..], tree[1..]);
      assert tree == [tree[0]] + tree[1..];
    }
  }

  // After such a reorder `list` returns the first two levels of the payload, in order, and nothing else.
  lemma ListAfterReorder(nodes: seq<Node>, before: Rows, after: Rows, tree: seq<Node>)
    requires NoDuplicates(AllIds(nodes)) && Reordered(before, after, Flatten(nodes, None, 0))
    requires forall id | id in before :: id in AllIds(nodes)
    ensures Listed(after, tree) <==> tree == TopTwo(nodes)
  {
    hide ShowsBelow, ListedBelow, IsListing, Shows, Reordered, Flatten, RootIds;
    ReorderRoundTrip(nodes, before, after);
    TopTwoListed(after, nodes);
    ShownIsListing(after, None, RootIds(nodes));
    if Listed(after, tree) {
      ListedIsTopTwo(after, nodes, tree);
    }
  }
}
