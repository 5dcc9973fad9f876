/**
 The promise of src/modules/admin-footer-menus/admin-footer-menus.service.ts that the menu has two levels, sections and
 their links: which operations keep it, and exactly when an update or a reorder does.
 */
module FooterLevels {
  import opened Prelude
  import opened FooterMenu

  predicate TwoLevels(rows: Rows) {
    forall id | id in rows && rows[id].parent.Some? ::
      rows[id].parent.value in rows && rows[rows[id].parent.value].parent.None?
  }

  predicate HasLinks(rows: Rows, id: Id) {
    exists x :: x in rows && rows[x].parent == Some(id)
  }

  // A parent that the service accepts for an item.
  predicate AcceptedParent(rows: Rows, id: Id, parent: Option<Id>) {
    parent.Some? ==> parent != Some(id) && parent.value in rows && rows[parent.value].parent.None?
  }

  lemma CreateKeepsLevels(rows: Rows, id: Id, item: Item)
    requires TwoLevels(rows) && id !in rows && AcceptedParent(rows, id, item.parent)
    ensures TwoLevels(rows[id := item])
  {
  }

  lemma RemoveKeepsLevels(rows: Rows, after: Rows)
    requires TwoLevels(rows) && ParentsExist(after)
    requires forall id | id in after :: id in rows && after[id] == rows[id]
    ensures TwoLevels(after)
  {
  }

  // An accepted update keeps two levels exactly when the item has no links or becomes a section.
  lemma UpdateKeepsLevels(rows: Rows, id: Id, item: Item)
    requires TwoLevels(rows) && id in rows && AcceptedParent(rows, id, item.parent)
    ensures TwoLevels(rows[id := item]) <==> !HasLinks(rows, id) || item.parent.None?
  {
    var after := rows[id := item];
    if x :| x in rows && rows[x].parent == Some(id) {
      assert x != id && after[x].parent == Some(id);
    }
  }

  // A section with a link of its own is accepted as a link of another section.
  lemma SectionUnderSection()
    ensures var item := (parent: Option<Id>) => Item(parent, 0, 0, None);
      var rows := map["a" := item(None), "b" := item(None), "c" := item(Some("a"))];
      && TwoLevels(rows) && AcceptedParent(rows, "a", Some("b"))
      && !TwoLevels(rows["a" := item(Some("b"))])
  {
    var item := (parent: Option<Id>) => Item(parent, 0, 0, None);
    var rows := map["a" := item(None), "b" := item(None), "c" := item(Some("a"))];
    assert "c" in rows && rows["c"].parent == Some("a");
    UpdateKeepsLevels(rows, "a", item(Some("b")));
  }

  // ----- reorder payloads

  // The payload has no third level.
  predicate Shallow(nodes: seq<Node>) {
    forall i, j | 0 <= i < |nodes| && 0 <= j < |nodes[i].children| :: nodes[i].children[j].children == []
  }

  // No item that the payload leaves out hangs under an item that the payload makes a link.
  predicate LeavesNoThird(rows: Rows, nodes: seq<Node>) {
    forall x | x in rows && x !in AllIds(nodes) && rows[x].parent.Some? ::
      rows[x].parent.value in AllIds(nodes) ==> rows[x].parent.value in RootIds(nodes)
  }

  ghost predicate HasEntry(flat: seq<Flat>, id: Id, parent: Option<Id>) {
    exists k :: 0 <= k < |flat| && flat[k].id == id && flat[k].parent == parent
  }

  lemma EntryWithin(a: seq<Flat>, b: seq<Flat>, c: seq<Flat>, id: Id, parent: Option<Id>)
    requires HasEntry(b, id, parent)
    ensures HasEntry(a + b + c, id, parent)
  {
    var k :| 0 <= k < |b| && b[k].id == id && b[k].parent == parent;
    assert (a + b + c)[|a| + k] == b[k];
  }

  lemma RootEntry(nodes: seq<Node>, parent: Option<Id>, index: nat, i: nat)
    requires i < |nodes|
    ensures HasEntry(Flatten(nodes, parent, index), nodes[i].id, parent)
  {
    RootIdAt(nodes, parent, index);
  }

  lemma {:induction false} ChildEntry(nodes: seq<Node>, parent: Option<Id>, index: nat, i: nat, j: nat)
    requires i < |nodes| && j < |nodes[i].children|
    ensures HasEntry(Flatten(nodes, parent, index), nodes[i].children[j].id, Some(nodes[i].id))
  {
    var kids, rest := Flatten(nodes[0].children, Some(nodes[0].id), 0), Flatten(nodes[1..], parent, index + 1);
    var head := [Flat(nodes[0].id, parent, index)];
    if i == 0 {
      RootEntry(nodes[0].children, Some(nodes[0].id), 0, j);
      EntryWithin(head, kids, rest, nodes[0].children[j].id, Some(nodes[0].id));
    } else {
      ChildEntry(nodes[1..], parent, index + 1, i - 1, j);
      EntryWithin(head + kids, rest, [], nodes[i].children[j].id, Some(nodes[i].id));
      assert head + kids + rest + [] == head + kids + rest;
    }
  }

  lemma {:induction false} GrandchildEntry(nodes: seq<Node>, parent: Option<Id>, index: nat, i: nat, j: nat, k: nat)
    requires i < |nodes| && j < |nodes[i].children| && k < |nodes[i].children[j].children|
    ensures var link := nodes[i].children[j];
      HasEntry(Flatten(nodes, parent, index), link.children[k].id, Some(link.id))
  {
    var kids, rest := Flatten(nodes[0].children, Some(nodes[0].id), 0), Flatten(nodes[1..], parent, index + 1);
    var head, link := [Flat(nodes[0].id, parent, index)], nodes[i].children[j];
    if i == 0 {
      ChildEntry(nodes[0].children, Some(nodes[0].id), 0, j, k);
      EntryWithin(head, kids, rest, link.children[k].id, Some(link.id));
    } else {
      GrandchildEntry(nodes[1..], parent, index + 1, i - 1, j, k);
      EntryWithin(head + kids, rest, [], link.children[k].id, Some(link.id));
      assert head + kids + rest + [] == head + kids + rest;
    }
  }

  lemma {:induction false} LeafEntries(nodes: seq<Node>, parent: Option<Id>, index: nat)
    requires forall i | 0 <= i < |nodes| :: nodes[i].children == []
    ensures forall f | f in Flatten(nodes, parent, index) :: f.parent == parent
  {
    if nodes != [] {
      LeafEntries(nodes[1..], parent, index + 1);
    }
  }

  // In a payload of two levels each entry is a section, or a link of one.
  lemma {:induction false} ShallowEntries(nodes: seq<Node>, parent: Option<Id>, index: nat)
    requires Shallow(nodes)
    ensures forall f | f in Flatten(nodes, parent, index) ::
      f.parent == parent || (f.parent.Some? && f.parent.value in RootIds(nodes))
  {
    if nodes != [] {
      LeafEntries(nodes[0].children, Some(nodes[0].id), 0);
      assert forall i | 0 <= i < |nodes[1..]| :: nodes[1..][i] == nodes[i + 1];
      ShallowEntries(nodes[1..], parent, index + 1);
    }
  }

  // Entries without a parent are the sections.
  lemma {:induction false} TopEntries(nodes: seq<Node>, parent: Option<Id>, index: nat)
    ensures parent.Some? ==> forall f | f in Flatten(nodes, parent, index) :: f.parent.Some?
    ensures parent.None? ==> forall f | f in Flatten(nodes, parent, index) && f.parent.None? :: f.id in RootIds(nodes)
  {
    if nodes != [] {
      TopEntries(nodes[0].children, Some(nodes[0].id), 0);
      TopEntries(nodes[1..], parent, index + 1);
    }
  }

  lemma WrittenEntry(before: Rows, after: Rows, flat: seq<Flat>, id: Id, parent: Option<Id>)
    requires Reordered(before, after, flat) && HasEntry(flat, id, parent)
    ensures id in after && after[id].parent == parent
  {
  }

  // An accepted reorder keeps two levels exactly when neither the payload, nor the items it leaves out, make a third.
  lemma ReorderKeepsLevels(nodes: seq<Node>, before: Rows, after: Rows)
    requires TwoLevels(before) && Reordered(before, after, Flatten(nodes, None, 0))
    ensures TwoLevels(after) <==> Shallow(nodes) && LeavesNoThird(before, nodes)
  {
    if TwoLevels(after) {
      ShallowWhenTwo(nodes, before, after);
      NoThirdWhenTwo(nodes, before, after);
    }
    if Shallow(nodes) && LeavesNoThird(before, nodes) {
      TwoWhenShallow(nodes, before, after);
    }
  }

  lemma ShallowWhenTwo(nodes: seq<Node>, before: Rows, after: Rows)
    requires TwoLevels(after) && Reordered(before, after, Flatten(nodes, None, 0))
    ensures Shallow(nodes)
  {
    hide Reordered, Flatten, HasEntry;
    var flat := Flatten(nodes, None, 0);
    forall i, j | 0 <= i < |nodes| && 0 <= j < |nodes[i].children| ensures nodes[i].children[j].children == [] {
      var link := nodes[i].children[j];
      if link.children != [] {
        ChildEntry(nodes, None, 0, i, j);
        WrittenEntry(before, after, flat, link.id, Some(nodes[i].id));
        GrandchildEntry(nodes, None, 0, i, j, 0);
        WrittenEntry(before, after, flat, link.children[0].id, Some(link.id));
      }
    }
  }

  lemma NoThirdWhenTwo(nodes: seq<Node>, before: Rows, after: Rows)
    requires TwoLevels(after) && Reordered(before, after, Flatten(nodes, None, 0))
    ensures LeavesNoThird(before, nodes)
  {
    hide Flatten;
    var flat := Flatten(nodes, None, 0);
    FlatIds(nodes, None, 0);
    TopEntries(nodes, None, 0);
    forall x | x in before && x !in AllIds(nodes) && before[x].parent.Some? && before[x].parent.value in AllIds(nodes)
      ensures before[x].parent.value in RootIds(nodes)
    {
      var p := before[x].parent.value;
      assert after[x] == before[x];
      var k :| 0 <= k < |AllIds(nodes)| && AllIds(nodes)[k] == p;
      assert flat[k].id == p && after[p].parent == flat[k].parent;
      assert flat[k] in flat;
    }
  }

  lemma TwoWhenShallow(nodes: seq<Node>, before: Rows, after: Rows)
    requires TwoLevels(before) && Reordered(before, after, Flatten(nodes, None, 0))
    requires Shallow(nodes) && LeavesNoThird(before, nodes)
    ensures TwoLevels(after)
  {
    hide Flatten, Shallow, HasEntry;
    var flat := Flatten(nodes, None, 0);
    FlatIds(nodes, None, 0);
    ShallowEntries(nodes, None, 0);
    forall id | id in RootIds(nodes) ensures id in after && after[id].parent.None? {
      RootIdAt(nodes, None, 0);
      var i :| 0 <= i < |nodes| && RootIds(nodes)[i] == id;
      RootEntry(nodes, None, 0, i);
      WrittenEntry(before, after, flat, id, None);
    }
    forall x | x in after && after[x].parent.Some?
      ensures after[x].parent.value in after && after[after[x].parent.value].parent.None?
    {
      if k :| 0 <= k < |flat| && flat[k].id == x {
        assert flat[k] in flat;
      } else {
        assert after[x] == before[x];
        forall k | 0 <= k < |AllIds(nodes)| ensures AllIds(nodes)[k] != x {
          assert flat[k].id == AllIds(nodes)[k];
        }
        var p := before[x].parent.value;
        if k :| 0 <= k < |flat| && flat[k].id == p {
          assert AllIds(nodes)[k] == p;
        }
      }
    }
  }
}
