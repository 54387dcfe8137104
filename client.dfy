/** The value side of the browser client (react-client/src/solvent): items,
    lists and notebooks and their merges, `isChecked`, `nextOrderValue` and
    the midpoint rule of `moveItem`. The client reuses the set of the Go
    package `crdt` unchanged in behaviour (PSet.js), with element merges
    that never fail on ids and an item timestamp of its own. */
module Client {
  import opened Types
  import opened Collections
  import opened Crdt
  import opened Solvent

  /** A browser item. Besides the order value's own stamp it carries an
      item-level `updatedAt`, which `addItem` and `uncheckItem` leave
      undefined (None). */
  datatype ClientItem = ClientItem(id: Uuid, title: string, checked: bool, orderValue: OrderValue, updatedAt: Option<int>)

  /** The key PSet.js stores an item under. ToDoItem.js defines no
      `identifier()`, so the id is taken as the key. */
  function ClientItemKey(item: ClientItem): Uuid {
    item.id
  }

  function ClientItemValue(item: ClientItem): real {
    item.orderValue.value
  }

  /** JavaScript's `a > b` on numbers that may be undefined: false as soon
      as either side is undefined. */
  predicate Newer(a: Option<int>, b: Option<int>) {
    a.Some? && b.Some? && a.value > b.value
  }

  /** `ToDoItem.merge`: `checked` by OR; order value and `updatedAt` taken
      together from `other` only when its `updatedAt` is strictly newer; id
      and title from the receiver. Never fails, whatever the ids. */
  function MergeClientItems(t: ClientItem, other: ClientItem): (r: ClientItem)
    ensures r.id == t.id && r.title == t.title
    ensures r.checked <==> t.checked || other.checked
    ensures (r.orderValue, r.updatedAt) == (t.orderValue, t.updatedAt) ||
            (r.orderValue, r.updatedAt) == (other.orderValue, other.updatedAt)
    ensures !Newer(other.updatedAt, t.updatedAt) ==> r.orderValue == t.orderValue && r.updatedAt == t.updatedAt
  {
    var newer := Newer(other.updatedAt, t.updatedAt);
    var orderValue := if newer then other.orderValue else t.orderValue;
    var updatedAt := if newer then other.updatedAt else t.updatedAt;
    ClientItem(t.id, t.title, t.checked || other.checked, orderValue, updatedAt)
  }

  /** `ToDoItem.merge` as an element merge of the set: it always succeeds. */
  function MergeClientItemsOk(t: ClientItem, other: ClientItem): (r: Result<ClientItem>)
    ensures r.Ok?
  {
    Ok(MergeClientItems(t, other))
  }

  lemma MergeClientItemsIdempotent(t: ClientItem)
    ensures MergeClientItems(t, t) == t
  {
  }

  /** Unlike the server, the client merges items with different ids and
      keeps the receiver's id. */
  lemma ClientMergeIgnoresIds()
    ensures var a := ClientItem(1, "a", false, OrderValue(10.0, 1), None);
            var b := ClientItem(2, "b", true, OrderValue(20.0, 2), None);
            MergeClientItems(a, b) == a.(checked := true) && MergeItems(ServerItem(a), ServerItem(b)) == Err(CannotBeMerged)
  {
  }

  /** The client's last-writer-wins looks at the item stamp only: with it
      undefined, a newer order value on `other` is ignored, where the
      server would take it. */
  lemma ClientMergeIgnoresOrderStamp(t: ClientItem, other: ClientItem)
    requires t.id == other.id
    requires other.orderValue.updatedAt > t.orderValue.updatedAt
    requires t.updatedAt.None? || other.updatedAt.None?
    ensures MergeClientItems(t, other).orderValue == t.orderValue
    ensures MergeItems(ServerItem(t), ServerItem(other)).value.orderValue == other.orderValue
  {
  }

  /** The item the server stores for a client item: the same fields without
      the item stamp. */
  function ServerItem(c: ClientItem): (s: ToDoItem)
    ensures s.id == c.id && s.title == c.title && s.checked == c.checked && s.orderValue == c.orderValue
  {
    ToDoItem(c.id, c.title, c.checked, c.orderValue)
  }

  /** When the item stamp mirrors the order value's stamp, the client merge
      and the server merge agree on items with one id. */
  lemma ClientMergeAgreesWithServer(a: ClientItem, b: ClientItem)
    requires a.id == b.id
    requires a.updatedAt == Some(a.orderValue.updatedAt) && b.updatedAt == Some(b.orderValue.updatedAt)
    ensures MergeItems(ServerItem(a), ServerItem(b)) == Ok(ServerItem(MergeClientItems(a, b)))
  {
  }

  /** Two copies of one item (equal titles, equal stamps only on equal
      order values) merge the same either way. */
  lemma MergeClientItemsCommutative(a: ClientItem, b: ClientItem)
    requires a.id == b.id && a.title == b.title
    requires a.updatedAt.Some? && b.updatedAt.Some?
    requires a.updatedAt == b.updatedAt ==> a.orderValue == b.orderValue
    ensures MergeClientItems(a, b) == MergeClientItems(b, a)
  {
  }

  /** The items the client creates have no item stamp, and on them the
      merge keeps the receiver's order value: two copies of one item that
      differ only in order value merge differently in the two orders. */
  lemma MergeClientItemsNotCommutative()
    ensures var a := ClientItem(1, "a", false, OrderValue(10.0, 1), None);
            var b := ClientItem(1, "a", false, OrderValue(20.0, 2), None);
            MergeClientItems(a, b) == a && MergeClientItems(b, a) == b && MergeClientItems(a, b) != MergeClientItems(b, a)
  {
  }

  /** With stamps defined on some copies and not on others the merge is
      not associative: an undefined stamp in the middle blocks the newer
      stamp on the right. */
  lemma MergeClientItemsNotAssociative()
    ensures var a := ClientItem(1, "a", false, OrderValue(10.0, 1), Some(5));
            var b := ClientItem(1, "a", false, OrderValue(20.0, 2), None);
            var c := ClientItem(1, "a", false, OrderValue(30.0, 3), Some(7));
            MergeClientItems(MergeClientItems(a, b), c) == c &&
            MergeClientItems(a, MergeClientItems(b, c)) == a
  {
  }

  /** With the stamps of three copies all undefined, or all defined, the
      merge is associative. */
  lemma MergeClientItemsAssociative(a: ClientItem, b: ClientItem, c: ClientItem)
    requires (a.updatedAt.None? && b.updatedAt.None? && c.updatedAt.None?) ||
             (a.updatedAt.Some? && b.updatedAt.Some? && c.updatedAt.Some?)
    ensures MergeClientItems(MergeClientItems(a, b), c) == MergeClientItems(a, MergeClientItems(b, c))
  {
  }

  // ---------------------------------------------------------------------
  // Item sets, lists and notebooks
  // ---------------------------------------------------------------------

  type ClientItemPSet = PSet<ClientItem>

  /** `PSet.merge` on item sets: fails only on differing identifiers. */
  function ClientItemSetMerge(p: ClientItemPSet, other: ClientItemPSet): (r: Result<ClientItemPSet>)
    ensures r.Ok? <==> p.identifier == other.identifier
    ensures r.Err? ==> r.error == CannotBeMerged
    ensures r.Ok? ==> r.value.identifier == p.identifier
  {
    MergeTotal(p, other, ClientItemKey, MergeClientItemsOk);
    Merge(p, other, ClientItemKey, MergeClientItemsOk)
  }

  /** Item sets with one identifier always merge, into the union of their
      live ids and of their tombstoned ids. */
  lemma ClientItemSetMergeKeys(p: ClientItemPSet, q: ClientItemPSet)
    requires Valid(q, ClientItemKey)
    ensures ClientItemSetMerge(p, q).Ok? ==>
              ClientItemSetMerge(p, q).value.liveSet.Keys == p.liveSet.Keys + q.liveSet.Keys &&
              ClientItemSetMerge(p, q).value.tombstoneSet.Keys == p.tombstoneSet.Keys + q.tombstoneSet.Keys
  {
    if ClientItemSetMerge(p, q).Ok? {
      MergeKeys(p, q, ClientItemKey, MergeClientItemsOk);
    }
  }

  lemma ClientItemSetMergeIdempotent(p: ClientItemPSet)
    requires Valid(p, ClientItemKey)
    ensures ClientItemSetMerge(p, p) == Ok(p)
  {
    MergeIdempotent(p, ClientItemKey, MergeClientItemsOk);
  }

  /** No item of the map carries an item stamp, as no client code sets one. */
  ghost predicate Unstamped(m: map<Uuid, ClientItem>) {
    forall k | k in m :: m[k].updatedAt.None?
  }

  lemma ClientItemsMergeAssociatively(a: map<Uuid, ClientItem>, b: map<Uuid, ClientItem>, c: map<Uuid, ClientItem>)
    requires Unstamped(a) && Unstamped(b) && Unstamped(c)
    ensures MergesAssociatively(a, b, c, MergeClientItemsOk)
  {
    forall k | k in a && k in b && k in c
      ensures MergeClientItems(MergeClientItems(a[k], b[k]), c[k]) == MergeClientItems(a[k], MergeClientItems(b[k], c[k]))
    {
      MergeClientItemsAssociative(a[k], b[k], c[k]);
    }
  }

  /** Three replicas of one item set whose items carry no item stamp
      converge whatever the grouping of their merges. */
  lemma ClientItemSetMergeAssociative(p: ClientItemPSet, q: ClientItemPSet, s: ClientItemPSet)
    requires Valid(p, ClientItemKey) && Valid(q, ClientItemKey) && Valid(s, ClientItemKey)
    requires p.identifier == q.identifier == s.identifier
    requires Unstamped(p.liveSet) && Unstamped(q.liveSet) && Unstamped(s.liveSet)
    requires Unstamped(p.tombstoneSet) && Unstamped(q.tombstoneSet) && Unstamped(s.tombstoneSet)
    ensures ClientItemSetMerge(p, q).Ok? && ClientItemSetMerge(q, s).Ok? && ClientItemSetMerge(ClientItemSetMerge(p, q).value, s).Ok?
    ensures ClientItemSetMerge(ClientItemSetMerge(p, q).value, s) == ClientItemSetMerge(p, ClientItemSetMerge(q, s).value)
  {
    ClientItemsMergeAssociatively(p.liveSet, q.liveSet, s.liveSet);
    ClientItemsMergeAssociatively(p.tombstoneSet, q.tombstoneSet, s.tombstoneSet);
    MergeAssociative(p, q, s, ClientItemKey, MergeClientItemsOk);
  }

  /** Two replicas holding one item that was moved on one of them do not
      converge: each keeps its own order value. */
  lemma ClientItemSetMergeNotCommutative()
    ensures var a := ClientItem(1, "a", false, OrderValue(10.0, 1), None);
            var b := ClientItem(1, "a", false, OrderValue(20.0, 2), None);
            var p := PSet(map[1 := a], map[], ToDoItemPSetIdentifier);
            var q := PSet(map[1 := b], map[], ToDoItemPSetIdentifier);
            ClientItemSetMerge(p, q) == Ok(p) && ClientItemSetMerge(q, p) == Ok(q) && p != q
  {
    var a := ClientItem(1, "a", false, OrderValue(10.0, 1), None);
    var b := ClientItem(1, "a", false, OrderValue(20.0, 2), None);
    var p: ClientItemPSet := PSet(map[1 := a], map[], ToDoItemPSetIdentifier);
    var q: ClientItemPSet := PSet(map[1 := b], map[], ToDoItemPSetIdentifier);
    assert MergeClientItems(a, b) == a && MergeClientItems(b, a) == b;
    SingleEntryPointwise(1, a, b);
    SingleEntryPointwise(1, b, a);
    MergeContents(p, q, ClientItemKey, MergeClientItemsOk);
    MergeContents(q, p, ClientItemKey, MergeClientItemsOk);
    assert p.liveSet[1] != q.liveSet[1];
  }

  /** The union of two one-entry maps under one key is that key with the
      merged item; the union of two empty maps is empty. */
  lemma SingleEntryPointwise(k: Uuid, x: ClientItem, y: ClientItem)
    ensures Pointwise(map[k := x], map[k := y], MergeClientItemsOk) == map[k := MergeClientItems(x, y)]
    ensures Pointwise(map[], map[], MergeClientItemsOk) == map[]
  {
    var u := Pointwise(map[k := x], map[k := y], MergeClientItemsOk);
    assert u.Keys == {k};
    var e: map<Uuid, ClientItem> := Pointwise(map[], map[], MergeClientItemsOk);
    assert e.Keys == {};
  }

  /** A browser list. It has no `updatedAt` of its own. */
  datatype ClientList = ClientList(id: Uuid, title: Title, toDoItems: ClientItemPSet, createdAt: int)

  /** `ToDoList.identifier`. */
  function ClientListKey(list: ClientList): Uuid {
    list.id
  }

  /** `ToDoList.merge`: the title is last-writer-wins, the receiver
      keeping its own on a tie; the item sets are merged, and their
      identifier mismatch is the only failure. There is no id check; id
      and creation time come from the receiver. */
  function MergeClientLists(l: ClientList, other: ClientList): (r: Result<ClientList>)
    ensures r.Ok? <==> l.toDoItems.identifier == other.toDoItems.identifier
    ensures r.Err? ==> r.error == CannotBeMerged
    ensures r.Ok? ==> r.value.id == l.id && r.value.createdAt == l.createdAt
    ensures r.Ok? ==> ClientItemSetMerge(l.toDoItems, other.toDoItems) == Ok(r.value.toDoItems)
    ensures r.Ok? ==> r.value.title == l.title || r.value.title == other.title
    ensures r.Ok? ==> r.value.title.updatedAt >= l.title.updatedAt && r.value.title.updatedAt >= other.title.updatedAt
    ensures r.Ok? && other.title.updatedAt <= l.title.updatedAt ==> r.value.title == l.title
  {
    var title := if other.title.updatedAt > l.title.updatedAt then other.title else l.title;
    match ClientItemSetMerge(l.toDoItems, other.toDoItems)
    case Err(e) => Err(e)
    case Ok(items) => Ok(ClientList(l.id, title, items, l.createdAt))
  }

  lemma MergeClientListsIdempotent(l: ClientList)
    requires Valid(l.toDoItems, ClientItemKey)
    ensures MergeClientLists(l, l) == Ok(l)
  {
    ClientItemSetMergeIdempotent(l.toDoItems);
  }

  /** Three replicas of one list whose items carry no item stamp converge
      whatever the grouping of their merges. */
  lemma MergeClientListsAssociative(l: ClientList, m: ClientList, n: ClientList)
    requires ClientListWellFormed(l) && ClientListWellFormed(m) && ClientListWellFormed(n)
    ensures MergeClientLists(l, m).Ok? && MergeClientLists(m, n).Ok? && MergeClientLists(MergeClientLists(l, m).value, n).Ok?
    ensures MergeClientLists(MergeClientLists(l, m).value, n) == MergeClientLists(l, MergeClientLists(m, n).value)
  {
    ClientItemSetMergeAssociative(l.toDoItems, m.toDoItems, n.toDoItems);
  }

  /** A list as the client builds it: items under their own ids, in a set
      named `ToDoItemPSet`, none with an item stamp. */
  ghost predicate ClientListWellFormed(l: ClientList) {
    Valid(l.toDoItems, ClientItemKey) && l.toDoItems.identifier == ToDoItemPSetIdentifier &&
    Unstamped(l.toDoItems.liveSet) && Unstamped(l.toDoItems.tombstoneSet)
  }

  type ClientListPSet = PSet<ClientList>

  /** `PSet.merge` on list sets, with `ToDoList.merge` on collisions. */
  function ClientListSetMerge(p: ClientListPSet, other: ClientListPSet): (r: Result<ClientListPSet>)
    ensures p.identifier != other.identifier ==> r == Err(CannotBeMerged)
    ensures r.Ok? ==> r.value.identifier == p.identifier
  {
    Merge(p, other, ClientListKey, MergeClientLists)
  }

  datatype ClientNotebook = ClientNotebook(id: Uuid, toDoLists: ClientListPSet, createdAt: int)

  /** `Notebook.merge`: throws on differing ids; otherwise merges the list
      sets, keeping the receiver's id and creation time. */
  function MergeClientNotebooks(n: ClientNotebook, other: ClientNotebook): (r: Result<ClientNotebook>)
    ensures n.id != other.id ==> r == Err(CannotBeMerged)
    ensures n.id == other.id ==> (r.Ok? <==> ClientListSetMerge(n.toDoLists, other.toDoLists).Ok?)
    ensures r.Ok? ==> r.value == ClientNotebook(n.id, ClientListSetMerge(n.toDoLists, other.toDoLists).value, n.createdAt)
  {
    if n.id != other.id then Err(CannotBeMerged)
    else
      match ClientListSetMerge(n.toDoLists, other.toDoLists)
      case Err(e) => Err(e)
      case Ok(lists) => Ok(ClientNotebook(n.id, lists, n.createdAt))
  }

  /** Lists stored under their own ids, each with its items under theirs. */
  ghost predicate ClientNotebookValid(n: ClientNotebook) {
    Valid(n.toDoLists, ClientListKey) &&
    (forall k | k in n.toDoLists.liveSet :: Valid(n.toDoLists.liveSet[k].toDoItems, ClientItemKey)) &&
    (forall k | k in n.toDoLists.tombstoneSet :: Valid(n.toDoLists.tombstoneSet[k].toDoItems, ClientItemKey))
  }

  lemma MergeClientNotebooksIdempotent(n: ClientNotebook)
    requires ClientNotebookValid(n)
    ensures MergeClientNotebooks(n, n) == Ok(n)
  {
    var p := n.toDoLists;
    forall k | k in p.liveSet ensures MergeClientLists(p.liveSet[k], p.liveSet[k]) == Ok(p.liveSet[k]) {
      MergeClientListsIdempotent(p.liveSet[k]);
    }
    forall k | k in p.tombstoneSet ensures MergeClientLists(p.tombstoneSet[k], p.tombstoneSet[k]) == Ok(p.tombstoneSet[k]) {
      MergeClientListsIdempotent(p.tombstoneSet[k]);
    }
    MergeIdempotent(p, ClientListKey, MergeClientLists);
  }

  /** A list set whose lists are stored under their ids and built as the
      client builds them. */
  ghost predicate ClientListSetWellFormed(p: ClientListPSet) {
    Valid(p, ClientListKey) &&
    (forall k | k in p.liveSet :: ClientListWellFormed(p.liveSet[k])) &&
    (forall k | k in p.tombstoneSet :: ClientListWellFormed(p.tombstoneSet[k]))
  }

  lemma ClientListsMergeAssociatively(a: map<Uuid, ClientList>, b: map<Uuid, ClientList>, c: map<Uuid, ClientList>)
    requires forall k | k in a :: ClientListWellFormed(a[k])
    requires forall k | k in b :: ClientListWellFormed(b[k])
    requires forall k | k in c :: ClientListWellFormed(c[k])
    requires WellKeyed(b, ClientListKey)
    ensures MergesAssociatively(a, b, c, MergeClientLists) && KeyPreserving(b, c, MergeClientLists, ClientListKey)
  {
    assert CollisionsMerge(a, b, MergeClientLists) by {
      forall k | k in a && k in b ensures MergeClientLists(a[k], b[k]).Ok? {
        assert ClientListWellFormed(a[k]) && ClientListWellFormed(b[k]);
      }
    }
    assert CollisionsMerge(b, c, MergeClientLists) by {
      forall k | k in b && k in c ensures MergeClientLists(b[k], c[k]).Ok? {
        assert ClientListWellFormed(b[k]) && ClientListWellFormed(c[k]);
      }
    }
    assert CollisionsMerge(a, c, MergeClientLists) by {
      forall k | k in a && k in c ensures MergeClientLists(a[k], c[k]).Ok? {
        assert ClientListWellFormed(a[k]) && ClientListWellFormed(c[k]);
      }
    }
    forall k | k in a && k in b && k in c
      ensures MergeClientLists(MergeClientLists(a[k], b[k]).value, c[k]).Ok?
      ensures MergeClientLists(MergeClientLists(a[k], b[k]).value, c[k]) == MergeClientLists(a[k], MergeClientLists(b[k], c[k]).value)
    {
      MergeClientListsAssociative(a[k], b[k], c[k]);
    }
  }

  /** Three replicas of one notebook built by the client converge whatever
      the grouping of their merges. */
  lemma MergeClientNotebooksAssociative(n: ClientNotebook, m: ClientNotebook, o: ClientNotebook)
    requires n.id == m.id == o.id
    requires ClientListSetWellFormed(n.toDoLists) && ClientListSetWellFormed(m.toDoLists) && ClientListSetWellFormed(o.toDoLists)
    requires n.toDoLists.identifier == m.toDoLists.identifier == o.toDoLists.identifier
    ensures MergeClientNotebooks(n, m).Ok? && MergeClientNotebooks(m, o).Ok? && MergeClientNotebooks(MergeClientNotebooks(n, m).value, o).Ok?
    ensures MergeClientNotebooks(MergeClientNotebooks(n, m).value, o) == MergeClientNotebooks(n, MergeClientNotebooks(m, o).value)
  {
    var p, q, s := n.toDoLists, m.toDoLists, o.toDoLists;
    ClientListsMergeAssociatively(p.liveSet, q.liveSet, s.liveSet);
    ClientListsMergeAssociatively(p.tombstoneSet, q.tombstoneSet, s.tombstoneSet);
    MergeAssociative(p, q, s, ClientListKey, MergeClientLists);
  }

  // ---------------------------------------------------------------------
  // Reading and reordering a list
  // ---------------------------------------------------------------------

  /** `isChecked` on a live view: some item is live and none is unchecked. */
  ghost predicate AllChecked(view: map<Uuid, ClientItem>) {
    |view| > 0 && forall k | k in view :: view[k].checked
  }

  /** The search of `isChecked` over the items of a live view: the first
      unchecked item decides, and an empty view is not checked. */
  method AllCheckedIn(view: map<Uuid, ClientItem>) returns (b: bool)
    ensures b <==> AllChecked(view)
  {
    var items := CollectValues(view, Identity);
    var i := 0;
    while i < |items|
      invariant 0 <= i <= |items|
      invariant forall j | 0 <= j < i :: items[j].checked
    {
      if !items[i].checked {
        MapValuesEntries(view, Identity);
        assert items[i] in items;
        return false;
      }
      i := i + 1;
    }
    MapValuesEntries(view, Identity);
    forall k | k in view ensures view[k].checked {
      assert Identity(view[k]) in items;
    }
    return |items| > 0;
  }

  /** `nextOrderValue` on a live view. */
  function ClientNextOrderValueOf(view: map<Uuid, ClientItem>): real {
    MaxFrom(0.0, MapValues(view, ClientItemValue)) + 10.0
  }

  /** The server's items for a client view, key by key. */
  function ServerView(view: map<Uuid, ClientItem>): (s: map<Uuid, ToDoItem>)
    ensures s.Keys == view.Keys
    ensures forall k | k in s :: s[k] == ServerItem(view[k])
  {
    map k | k in view :: ServerItem(view[k])
  }

  /** The client and the server read the same order values off a view. */
  lemma ServerViewValues(view: map<Uuid, ClientItem>)
    ensures MapValues(ServerView(view), ItemValue) == MapValues(view, ClientItemValue)
  {
    var ks := SortedKeys(view.Keys);
    assert SortedKeys(ServerView(view).Keys) == ks;
    var a := MapValues(ServerView(view), ItemValue);
    var b := MapValues(view, ClientItemValue);
    assert |a| == |b|;
    forall i | 0 <= i < |a| ensures a[i] == b[i] {
      assert a[i] == ItemValue(ServerView(view)[ks[i]]);
      assert b[i] == ClientItemValue(view[ks[i]]);
    }
  }

  /** Both implementations compute the same next order value. */
  lemma ClientNextOrderValueAgrees(view: map<Uuid, ClientItem>)
    ensures ClientNextOrderValueOf(view) == NextOrderValueOf(ServerView(view))
  {
    ServerViewValues(view);
  }

  /** At least 10, and at least 10 above every live value. */
  lemma ClientNextOrderValueBounds(view: map<Uuid, ClientItem>)
    ensures ClientNextOrderValueOf(view) >= 10.0
    ensures forall k | k in view :: view[k].orderValue.value + 10.0 <= ClientNextOrderValueOf(view)
  {
    ClientNextOrderValueAgrees(view);
    NextOrderValueBounds(ServerView(view));
    forall k | k in view ensures view[k].orderValue.value + 10.0 <= ClientNextOrderValueOf(view) {
      assert ServerView(view)[k].orderValue == view[k].orderValue;
    }
  }

  /** The loop of `nextOrderValue` over a live view. */
  method ClientNextOrderValueIn(view: map<Uuid, ClientItem>) returns (v: real)
    ensures v == ClientNextOrderValueOf(view)
  {
    var ks := SortedKeys(view.Keys);
    ghost var vs := MapValues(view, ClientItemValue);
    var orderValue := 0.0;
    var i := 0;
    while i < |ks|
      invariant 0 <= i <= |ks|
      invariant MaxFrom(orderValue, vs[i..]) == MaxFrom(0.0, vs)
    {
      assert vs[i..][0] == ClientItemValue(view[ks[i]]) && vs[i..][1..] == vs[i + 1..];
      var item := view[ks[i]];
      if item.orderValue.value > orderValue {
        orderValue := item.orderValue.value;
      }
      i := i + 1;
    }
    assert vs[i..] == [];
    return orderValue + 10.0;
  }

  /** The value `moveItem` gives the live item `id` moved to `targetIndex`
      of the sorted live items: the server's midpoint rule, without
      clamping, so the index must already lie in range. */
  function ClientMoveValue(view: map<Uuid, ClientItem>, id: Uuid, targetIndex: int): (r: Option<real>)
    requires id in view && 0 <= targetIndex < |view|
    ensures var sorted := SortAscending(MapValues(view, ClientItemValue));
            |sorted| == |view| && (r.None? <==> sorted[targetIndex] == view[id].orderValue.value)
  {
    MapValuesEntries(view, ClientItemValue);
    var sorted := SortAscending(MapValues(view, ClientItemValue));
    assert |sorted| == |multiset(sorted)| == |MapValues(view, ClientItemValue)|;
    MoveTarget(sorted, targetIndex, view[id].orderValue.value, ClientNextOrderValueOf(view))
  }

  /** On an index in range, the client moves an item exactly as the server
      does; the two differ only in the server's clamping. */
  lemma ClientMoveAgreesWithServer(view: map<Uuid, ClientItem>, id: Uuid, targetIndex: int)
    requires id in view && 0 <= targetIndex < |view|
    ensures ClientMoveValue(view, id, targetIndex) == MoveValue(ServerView(view), id, targetIndex)
  {
    ServerViewValues(view);
    ClientNextOrderValueAgrees(view);
    MoveValueUnfold(ServerView(view), id, targetIndex);
  }

  /** `ClientMoveValue` spelled out on the sorted live values, which are
      as many as the live items. */
  lemma ClientMoveValueUnfold(view: map<Uuid, ClientItem>, id: Uuid, targetIndex: int)
    requires id in view && 0 <= targetIndex < |view|
    ensures var sorted := SortAscending(MapValues(view, ClientItemValue));
            |sorted| == |view| &&
            ClientMoveValue(view, id, targetIndex) ==
              MoveTarget(sorted, targetIndex, view[id].orderValue.value, ClientNextOrderValueOf(view))
  {
    MapValuesEntries(view, ClientItemValue);
    var sorted := SortAscending(MapValues(view, ClientItemValue));
    assert |sorted| == |multiset(sorted)| == |MapValues(view, ClientItemValue)|;
  }

  /** `moveItem`'s computation on a live view: sort the live values and
      apply the midpoint rule at `targetIndex`. */
  method ClientMoveValueIn(view: map<Uuid, ClientItem>, id: Uuid, targetIndex: int) returns (target: Option<real>)
    requires id in view && 0 <= targetIndex < |view|
    ensures target == ClientMoveValue(view, id, targetIndex)
  {
    var items := CollectValues(view, Identity);
    ClientValuesOfMapValues(view);
    var values := SortAscending(ValuesOfClient(items));
    ClientMoveValueUnfold(view, id, targetIndex);
    target := ClientMidpointIn(values, targetIndex, view[id].orderValue.value, view);
  }

  /** The midpoint rule of `moveItem`, reading the next order value of
      `view` only when the item moves past the tail. */
  method ClientMidpointIn(values: seq<real>, index: int, current: real, view: map<Uuid, ClientItem>)
    returns (target: Option<real>)
    requires 0 <= index < |values|
    ensures target == MoveTarget(values, index, current, ClientNextOrderValueOf(view))
  {
    var orderValueMid := values[index];
    if orderValueMid < current {
      var orderValueAdjacent := if index - 1 >= 0 then values[index - 1] else 0.0;
      return Some((orderValueMid + orderValueAdjacent) / 2.0);
    } else if orderValueMid > current {
      var orderValueAdjacent: real;
      if index + 1 < |values| {
        orderValueAdjacent := values[index + 1];
      } else {
        orderValueAdjacent := ClientNextOrderValueIn(view);
      }
      return Some((orderValueMid + orderValueAdjacent) / 2.0);
    }
    return None;
  }

  /** The order values of `items`, in the same order; on the values of a
      view it reads off the view's values. */
  function ValuesOfClient(items: seq<ClientItem>): (vs: seq<real>)
    ensures |vs| == |items|
    ensures forall i | 0 <= i < |items| :: vs[i] == items[i].orderValue.value
  {
    seq(|items|, i requires 0 <= i < |items| => items[i].orderValue.value)
  }

  /** Reading the values off the items of a view gives the view's values. */
  lemma ClientValuesOfMapValues(view: map<Uuid, ClientItem>)
    ensures ValuesOfClient(MapValues(view, Identity)) == MapValues(view, ClientItemValue)
  {
  }
}
