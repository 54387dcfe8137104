/** The value side of the Go package `solvent`: to-do items, lists and
    notebooks, their merges, the typed item and list sets of
    pset_wrappers.go, and the pure helpers behind list reordering
    (`nextOrderValue`, `clampIndex` and the midpoint rule of `MoveItem`). */
module Solvent {
  import opened Types
  import opened Collections
  import opened Crdt

  /** A single task. Its title never changes after creation. */
  datatype ToDoItem = ToDoItem(id: Uuid, title: string, checked: bool, orderValue: OrderValue)

  /** `ToDoItem.Identifier`. */
  function ItemKey(item: ToDoItem): Uuid {
    item.id
  }

  /** The sort key of an item. */
  function ItemValue(item: ToDoItem): real {
    item.orderValue.value
  }

  /** `ToDoItem.Merge`: identical ids are required; `Checked` merges by OR
      and the order value is last-writer-wins, the receiver keeping its
      own on a timestamp tie. Id and title come from the receiver. */
  function MergeItems(t: ToDoItem, other: ToDoItem): (r: Result<ToDoItem>)
    ensures t.id != other.id ==> r == Err(CannotBeMerged)
    ensures t.id == other.id ==> r.Ok? && r.value.id == t.id && r.value.title == t.title
    ensures r.Ok? ==> (r.value.checked <==> t.checked || other.checked)
    ensures r.Ok? ==> r.value.orderValue == t.orderValue || r.value.orderValue == other.orderValue
    ensures r.Ok? ==> r.value.orderValue.updatedAt >= t.orderValue.updatedAt &&
                      r.value.orderValue.updatedAt >= other.orderValue.updatedAt
    ensures r.Ok? && other.orderValue.updatedAt <= t.orderValue.updatedAt ==> r.value.orderValue == t.orderValue
  {
    if t.id != other.id then Err(CannotBeMerged)
    else
      var orderValue := if other.orderValue.updatedAt > t.orderValue.updatedAt then other.orderValue else t.orderValue;
      Ok(ToDoItem(t.id, t.title, t.checked || other.checked, orderValue))
  }

  /** Merging an item with itself gives it back. */
  lemma MergeItemsIdempotent(t: ToDoItem)
    ensures MergeItems(t, t) == Ok(t)
  {
  }

  /** Two copies of one item (same id, same title, and equal timestamps
      only on equal order values) merge to the same item in either order. */
  lemma MergeItemsCommutative(a: ToDoItem, b: ToDoItem)
    requires a.id == b.id && a.title == b.title
    requires a.orderValue.updatedAt == b.orderValue.updatedAt ==> a.orderValue == b.orderValue
    ensures MergeItems(a, b) == MergeItems(b, a)
  {
  }

  /** On a timestamp tie the receiver's order value wins, so without the
      timestamp assumption above the merge is not commutative. */
  lemma MergeItemsTieKeepsReceiver()
    ensures var a := ToDoItem(1, "a", false, OrderValue(10.0, 5));
            var b := ToDoItem(1, "a", false, OrderValue(20.0, 5));
            MergeItems(a, b) == Ok(a) && MergeItems(b, a) == Ok(b) && MergeItems(a, b) != MergeItems(b, a)
  {
  }

  /** Merging three copies of one item does not depend on grouping. */
  lemma MergeItemsAssociative(a: ToDoItem, b: ToDoItem, c: ToDoItem)
    requires a.id == b.id == c.id
    ensures MergeItems(MergeItems(a, b).value, c) == MergeItems(a, MergeItems(b, c).value)
  {
  }

  // ---------------------------------------------------------------------
  // pset_wrappers.go: the typed sets
  // ---------------------------------------------------------------------

  type ToDoItemPSet = PSet<ToDoItem>

  type ToDoListPSet = PSet<ToDoList>

  const ToDoItemPSetIdentifier: string := "ToDoItemPSet"

  const ToDoListPSetIdentifier: string := "ToDoListPSet"

  /** `NewToDoItemPSet`: an empty item set tagged "ToDoItemPSet". */
  function NewToDoItemPSet(): (p: ToDoItemPSet)
    ensures LiveViewOf(p) == map[] && p.tombstoneSet == map[]
    ensures p.identifier == ToDoItemPSetIdentifier
    ensures Valid(p, ItemKey)
  {
    NewPSet(ToDoItemPSetIdentifier)
  }

  /** `NewToDoListPSet`: an empty list set tagged "ToDoListPSet". */
  function NewToDoListPSet(): (p: ToDoListPSet)
    ensures LiveViewOf(p) == map[] && p.tombstoneSet == map[]
    ensures p.identifier == ToDoListPSetIdentifier
    ensures Valid(p, ListKey)
  {
    NewPSet(ToDoListPSetIdentifier)
  }

  /** `ToDoItemPSet.Merge`: the set merge with `ToDoItem.Merge` on
      collisions; a failure carries the error and no set. */
  function ItemSetMerge(p: ToDoItemPSet, other: ToDoItemPSet): (r: Result<ToDoItemPSet>)
    ensures p.identifier != other.identifier ==> r == Err(CannotBeMerged)
    ensures r.Ok? ==> r.value.identifier == p.identifier
  {
    Merge(p, other, ItemKey, MergeItems)
  }

  /** Items stored under the same id on two replicas are copies of one item. */
  ghost predicate ItemsAgree(a: map<Uuid, ToDoItem>, b: map<Uuid, ToDoItem>) {
    forall k | k in a && k in b ::
      a[k].title == b[k].title &&
      (a[k].orderValue.updatedAt == b[k].orderValue.updatedAt ==> a[k].orderValue == b[k].orderValue)
  }

  lemma ItemCollisionsMerge(a: map<Uuid, ToDoItem>, b: map<Uuid, ToDoItem>)
    requires WellKeyed(a, ItemKey) && WellKeyed(b, ItemKey)
    ensures CollisionsMerge(a, b, MergeItems) && KeyPreserving(a, b, MergeItems, ItemKey)
  {
  }

  /** Two well-keyed item sets with the same identifier always merge: the
      result holds the union of the live ids and of the tombstoned ids. */
  lemma ItemSetMergeSucceeds(p: ToDoItemPSet, q: ToDoItemPSet)
    requires Valid(p, ItemKey) && Valid(q, ItemKey) && p.identifier == q.identifier
    ensures ItemSetMerge(p, q).Ok?
    ensures Valid(ItemSetMerge(p, q).value, ItemKey)
    ensures ItemSetMerge(p, q).value.liveSet.Keys == p.liveSet.Keys + q.liveSet.Keys
    ensures ItemSetMerge(p, q).value.tombstoneSet.Keys == p.tombstoneSet.Keys + q.tombstoneSet.Keys
  {
    ItemCollisionsMerge(p.liveSet, q.liveSet);
    ItemCollisionsMerge(p.tombstoneSet, q.tombstoneSet);
    MergeContents(p, q, ItemKey, MergeItems);
    MergeKeys(p, q, ItemKey, MergeItems);
    MergePreservesValid(p, q, ItemKey, MergeItems);
  }

  /** Merging an item set with itself changes nothing. */
  lemma ItemSetMergeIdempotent(p: ToDoItemPSet)
    requires Valid(p, ItemKey)
    ensures ItemSetMerge(p, p) == Ok(p)
  {
    MergeIdempotent(p, ItemKey, MergeItems);
  }

  /** Two replicas whose shared items agree converge whichever merges
      into which. */
  lemma ItemSetMergeCommutative(p: ToDoItemPSet, q: ToDoItemPSet)
    requires Valid(p, ItemKey) && Valid(q, ItemKey) && p.identifier == q.identifier
    requires ItemsAgree(p.liveSet, q.liveSet) && ItemsAgree(p.tombstoneSet, q.tombstoneSet)
    ensures ItemSetMerge(p, q) == ItemSetMerge(q, p)
  {
    forall k | k in p.liveSet && k in q.liveSet
      ensures MergeItems(p.liveSet[k], q.liveSet[k]) == MergeItems(q.liveSet[k], p.liveSet[k])
    {
      MergeItemsCommutative(p.liveSet[k], q.liveSet[k]);
    }
    forall k | k in p.tombstoneSet && k in q.tombstoneSet
      ensures MergeItems(p.tombstoneSet[k], q.tombstoneSet[k]) == MergeItems(q.tombstoneSet[k], p.tombstoneSet[k])
    {
      MergeItemsCommutative(p.tombstoneSet[k], q.tombstoneSet[k]);
    }
    MergeCommutative(p, q, ItemKey, MergeItems);
    ItemSetMergeSucceeds(p, q);
  }

  /** Three replicas of one item set converge whatever the grouping of
      their merges. */
  lemma ItemSetMergeAssociative(p: ToDoItemPSet, q: ToDoItemPSet, s: ToDoItemPSet)
    requires Valid(p, ItemKey) && Valid(q, ItemKey) && Valid(s, ItemKey)
    requires p.identifier == q.identifier == s.identifier
    ensures ItemSetMerge(p, q).Ok? && ItemSetMerge(q, s).Ok? && ItemSetMerge(ItemSetMerge(p, q).value, s).Ok?
    ensures ItemSetMerge(ItemSetMerge(p, q).value, s) == ItemSetMerge(p, ItemSetMerge(q, s).value)
  {
    ItemsMergeAssociatively(p.liveSet, q.liveSet, s.liveSet);
    ItemsMergeAssociatively(p.tombstoneSet, q.tombstoneSet, s.tombstoneSet);
    ItemCollisionsMerge(q.liveSet, s.liveSet);
    ItemCollisionsMerge(q.tombstoneSet, s.tombstoneSet);
    MergeAssociative(p, q, s, ItemKey, MergeItems);
  }

  lemma ItemsMergeAssociatively(a: map<Uuid, ToDoItem>, b: map<Uuid, ToDoItem>, c: map<Uuid, ToDoItem>)
    requires WellKeyed(a, ItemKey) && WellKeyed(b, ItemKey) && WellKeyed(c, ItemKey)
    ensures MergesAssociatively(a, b, c, MergeItems)
  {
    forall k | k in a && k in b && k in c
      ensures MergeItems(MergeItems(a[k], b[k]).value, c[k]) == MergeItems(a[k], MergeItems(b[k], c[k]).value)
    {
      MergeItemsAssociative(a[k], b[k], c[k]);
    }
  }

  // ---------------------------------------------------------------------
  // Lists and notebooks
  // ---------------------------------------------------------------------

  datatype ToDoList = ToDoList(id: Uuid, title: Title, toDoItems: ToDoItemPSet, createdAt: int)

  /** `ToDoList.Identifier`. */
  function ListKey(list: ToDoList): Uuid {
    list.id
  }

  /** `ToDoList.Merge`: identical ids are required; the title is
      last-writer-wins with the receiver keeping its own on a tie; the item
      sets are merged and their error aborts the merge. Id and creation
      time come from the receiver. */
  function MergeLists(l: ToDoList, other: ToDoList): (r: Result<ToDoList>)
    ensures l.id != other.id ==> r == Err(CannotBeMerged)
    ensures l.id == other.id ==> (r.Ok? <==> ItemSetMerge(l.toDoItems, other.toDoItems).Ok?)
    ensures l.id == other.id && r.Err? ==> r.error == ItemSetMerge(l.toDoItems, other.toDoItems).error
    ensures r.Ok? ==> r.value.id == l.id && r.value.createdAt == l.createdAt
    ensures r.Ok? ==> r.value.toDoItems == ItemSetMerge(l.toDoItems, other.toDoItems).value
    ensures r.Ok? ==> r.value.title == l.title || r.value.title == other.title
    ensures r.Ok? ==> r.value.title.updatedAt >= l.title.updatedAt && r.value.title.updatedAt >= other.title.updatedAt
    ensures r.Ok? && other.title.updatedAt <= l.title.updatedAt ==> r.value.title == l.title
  {
    if l.id != other.id then Err(CannotBeMerged)
    else
      var title := if other.title.updatedAt > l.title.updatedAt then other.title else l.title;
      match ItemSetMerge(l.toDoItems, other.toDoItems)
      case Err(e) => Err(e)
      case Ok(items) => Ok(ToDoList(l.id, title, items, l.createdAt))
  }

  /** Merging a list with itself gives it back. */
  lemma MergeListsIdempotent(l: ToDoList)
    requires Valid(l.toDoItems, ItemKey)
    ensures MergeLists(l, l) == Ok(l)
  {
    ItemSetMergeIdempotent(l.toDoItems);
  }

  /** Lists with the same id and compatible contents merge the same way in
      either order. */
  lemma MergeListsCommutative(l: ToDoList, m: ToDoList)
    requires l.id == m.id && l.createdAt == m.createdAt
    requires l.title.updatedAt == m.title.updatedAt ==> l.title == m.title
    requires Valid(l.toDoItems, ItemKey) && Valid(m.toDoItems, ItemKey)
    requires l.toDoItems.identifier == m.toDoItems.identifier
    requires ItemsAgree(l.toDoItems.liveSet, m.toDoItems.liveSet)
    requires ItemsAgree(l.toDoItems.tombstoneSet, m.toDoItems.tombstoneSet)
    ensures MergeLists(l, m) == MergeLists(m, l)
  {
    ItemSetMergeCommutative(l.toDoItems, m.toDoItems);
  }

  /** Three replicas of one list converge whatever the grouping of their
      merges: titles by the newest stamp, the earliest replica winning ties,
      and items by the item-set law. */
  lemma MergeListsAssociative(l: ToDoList, m: ToDoList, n: ToDoList)
    requires l.id == m.id == n.id
    requires Valid(l.toDoItems, ItemKey) && Valid(m.toDoItems, ItemKey) && Valid(n.toDoItems, ItemKey)
    requires l.toDoItems.identifier == m.toDoItems.identifier == n.toDoItems.identifier
    ensures MergeLists(l, m).Ok? && MergeLists(m, n).Ok? && MergeLists(MergeLists(l, m).value, n).Ok?
    ensures MergeLists(MergeLists(l, m).value, n) == MergeLists(l, MergeLists(m, n).value)
  {
    ItemSetMergeAssociative(l.toDoItems, m.toDoItems, n.toDoItems);
  }

  /** `ToDoListPSet.Merge`: the set merge with `ToDoList.Merge` on
      collisions. */
  function ListSetMerge(p: ToDoListPSet, other: ToDoListPSet): (r: Result<ToDoListPSet>)
    ensures p.identifier != other.identifier ==> r == Err(CannotBeMerged)
    ensures r.Ok? ==> r.value.identifier == p.identifier
  {
    Merge(p, other, ListKey, MergeLists)
  }

  datatype Notebook = Notebook(id: Uuid, toDoLists: ToDoListPSet, createdAt: int)

  /** `Notebook.Merge`: identical ids are required; the list sets are
      merged and their error aborts the merge; id and creation time come
      from the receiver. */
  function MergeNotebooks(n: Notebook, other: Notebook): (r: Result<Notebook>)
    ensures n.id != other.id ==> r == Err(CannotBeMerged)
    ensures n.id == other.id ==> (r.Ok? <==> ListSetMerge(n.toDoLists, other.toDoLists).Ok?)
    ensures n.id == other.id && r.Err? ==> r.error == ListSetMerge(n.toDoLists, other.toDoLists).error
    ensures r.Ok? ==> r.value == Notebook(n.id, ListSetMerge(n.toDoLists, other.toDoLists).value, n.createdAt)
  {
    if n.id != other.id then Err(CannotBeMerged)
    else
      match ListSetMerge(n.toDoLists, other.toDoLists)
      case Err(e) => Err(e)
      case Ok(lists) => Ok(Notebook(n.id, lists, n.createdAt))
  }

  /** Every list of the notebook is stored under its own id and keeps its
      items under their own ids. */
  ghost predicate NotebookValid(n: Notebook) {
    Valid(n.toDoLists, ListKey) &&
    (forall k | k in n.toDoLists.liveSet :: Valid(n.toDoLists.liveSet[k].toDoItems, ItemKey)) &&
    (forall k | k in n.toDoLists.tombstoneSet :: Valid(n.toDoLists.tombstoneSet[k].toDoItems, ItemKey))
  }

  /** Merging a notebook with itself gives it back. */
  lemma MergeNotebooksIdempotent(n: Notebook)
    requires NotebookValid(n)
    ensures MergeNotebooks(n, n) == Ok(n)
  {
    var p := n.toDoLists;
    forall k | k in p.liveSet ensures MergeLists(p.liveSet[k], p.liveSet[k]) == Ok(p.liveSet[k]) {
      MergeListsIdempotent(p.liveSet[k]);
    }
    forall k | k in p.tombstoneSet ensures MergeLists(p.tombstoneSet[k], p.tombstoneSet[k]) == Ok(p.tombstoneSet[k]) {
      MergeListsIdempotent(p.tombstoneSet[k]);
    }
    MergeIdempotent(p, ListKey, MergeLists);
  }

  /** Every list keeps its items under their own ids in a set named
      `ToDoItemPSet`, as every list the server creates does. */
  ghost predicate ListsWellFormed(m: map<Uuid, ToDoList>) {
    forall k | k in m :: Valid(m[k].toDoItems, ItemKey) && m[k].toDoItems.identifier == ToDoItemPSetIdentifier
  }

  /** Lists stored under the same id on two replicas are copies of one
      list: one creation time, one title per stamp, agreeing items. */
  ghost predicate ListsAgree(a: map<Uuid, ToDoList>, b: map<Uuid, ToDoList>) {
    forall k | k in a && k in b ::
      a[k].createdAt == b[k].createdAt &&
      (a[k].title.updatedAt == b[k].title.updatedAt ==> a[k].title == b[k].title) &&
      ItemsAgree(a[k].toDoItems.liveSet, b[k].toDoItems.liveSet) &&
      ItemsAgree(a[k].toDoItems.tombstoneSet, b[k].toDoItems.tombstoneSet)
  }

  /** A list set whose lists are stored under their ids and well formed. */
  ghost predicate ListSetWellFormed(p: ToDoListPSet) {
    Valid(p, ListKey) && ListsWellFormed(p.liveSet) && ListsWellFormed(p.tombstoneSet)
  }

  lemma ListsMergeAssociatively(a: map<Uuid, ToDoList>, b: map<Uuid, ToDoList>, c: map<Uuid, ToDoList>)
    requires WellKeyed(a, ListKey) && WellKeyed(b, ListKey) && WellKeyed(c, ListKey)
    requires ListsWellFormed(a) && ListsWellFormed(b) && ListsWellFormed(c)
    ensures MergesAssociatively(a, b, c, MergeLists) && KeyPreserving(b, c, MergeLists, ListKey)
  {
    forall k | k in a && k in b ensures MergeLists(a[k], b[k]).Ok? {
      ItemSetMergeSucceeds(a[k].toDoItems, b[k].toDoItems);
    }
    forall k | k in b && k in c ensures MergeLists(b[k], c[k]).Ok? {
      ItemSetMergeSucceeds(b[k].toDoItems, c[k].toDoItems);
    }
    forall k | k in a && k in c ensures MergeLists(a[k], c[k]).Ok? {
      ItemSetMergeSucceeds(a[k].toDoItems, c[k].toDoItems);
    }
    forall k | k in a && k in b && k in c
      ensures MergeLists(MergeLists(a[k], b[k]).value, c[k]).Ok?
      ensures MergeLists(MergeLists(a[k], b[k]).value, c[k]) == MergeLists(a[k], MergeLists(b[k], c[k]).value)
    {
      MergeListsAssociative(a[k], b[k], c[k]);
    }
  }

  /** Three replicas of the list set converge whatever the grouping. */
  lemma ListSetMergeAssociative(p: ToDoListPSet, q: ToDoListPSet, s: ToDoListPSet)
    requires ListSetWellFormed(p) && ListSetWellFormed(q) && ListSetWellFormed(s)
    requires p.identifier == q.identifier == s.identifier
    ensures ListSetMerge(p, q).Ok? && ListSetMerge(q, s).Ok? && ListSetMerge(ListSetMerge(p, q).value, s).Ok?
    ensures ListSetMerge(ListSetMerge(p, q).value, s) == ListSetMerge(p, ListSetMerge(q, s).value)
  {
    ListsMergeAssociatively(p.liveSet, q.liveSet, s.liveSet);
    ListsMergeAssociatively(p.tombstoneSet, q.tombstoneSet, s.tombstoneSet);
    MergeAssociative(p, q, s, ListKey, MergeLists);
  }

  /** Two replicas of the list set whose shared lists are copies of one
      list converge whichever merges into which. */
  lemma ListSetMergeCommutative(p: ToDoListPSet, q: ToDoListPSet)
    requires ListSetWellFormed(p) && ListSetWellFormed(q) && p.identifier == q.identifier
    requires ListsAgree(p.liveSet, q.liveSet) && ListsAgree(p.tombstoneSet, q.tombstoneSet)
    ensures ListSetMerge(p, q).Ok?
    ensures ListSetMerge(p, q) == ListSetMerge(q, p)
  {
    ListsMergeCommute(p.liveSet, q.liveSet);
    ListsMergeCommute(p.tombstoneSet, q.tombstoneSet);
    MergeContents(p, q, ListKey, MergeLists);
    MergeCommutative(p, q, ListKey, MergeLists);
  }

  lemma ListsMergeCommute(a: map<Uuid, ToDoList>, b: map<Uuid, ToDoList>)
    requires WellKeyed(a, ListKey) && WellKeyed(b, ListKey)
    requires ListsWellFormed(a) && ListsWellFormed(b) && ListsAgree(a, b)
    ensures CollisionsMerge(a, b, MergeLists)
    ensures forall k | k in a && k in b :: MergeLists(a[k], b[k]) == MergeLists(b[k], a[k])
  {
    forall k | k in a && k in b
      ensures MergeLists(a[k], b[k]).Ok? && MergeLists(a[k], b[k]) == MergeLists(b[k], a[k])
    {
      assert a[k].id == k == b[k].id;
      ItemSetMergeSucceeds(a[k].toDoItems, b[k].toDoItems);
      MergeListsCommutative(a[k], b[k]);
    }
  }

  /** Three replicas of one notebook converge whatever the grouping. */
  lemma MergeNotebooksAssociative(n: Notebook, m: Notebook, o: Notebook)
    requires n.id == m.id == o.id
    requires ListSetWellFormed(n.toDoLists) && ListSetWellFormed(m.toDoLists) && ListSetWellFormed(o.toDoLists)
    requires n.toDoLists.identifier == m.toDoLists.identifier == o.toDoLists.identifier
    ensures MergeNotebooks(n, m).Ok? && MergeNotebooks(m, o).Ok? && MergeNotebooks(MergeNotebooks(n, m).value, o).Ok?
    ensures MergeNotebooks(MergeNotebooks(n, m).value, o) == MergeNotebooks(n, MergeNotebooks(m, o).value)
  {
    ListSetMergeAssociative(n.toDoLists, m.toDoLists, o.toDoLists);
  }

  /** Two replicas of one notebook whose shared lists are copies of one
      list converge whichever merges into which. */
  lemma MergeNotebooksCommutative(n: Notebook, m: Notebook)
    requires n.id == m.id && n.createdAt == m.createdAt
    requires ListSetWellFormed(n.toDoLists) && ListSetWellFormed(m.toDoLists)
    requires n.toDoLists.identifier == m.toDoLists.identifier
    requires ListsAgree(n.toDoLists.liveSet, m.toDoLists.liveSet)
    requires ListsAgree(n.toDoLists.tombstoneSet, m.toDoLists.tombstoneSet)
    ensures MergeNotebooks(n, m).Ok?
    ensures MergeNotebooks(n, m) == MergeNotebooks(m, n)
  {
    ListSetMergeCommutative(n.toDoLists, m.toDoLists);
  }

  // ---------------------------------------------------------------------
  // Reordering
  // ---------------------------------------------------------------------

  /** `nextOrderValue` on a live view: the largest order value, or 0 when
      that is larger (or the view is empty), plus 10. */
  function NextOrderValueOf(view: map<Uuid, ToDoItem>): real {
    MaxFrom(0.0, MapValues(view, ItemValue)) + 10.0
  }

  /** The next order value is at least 10 and exceeds every live value by
      at least 10, and it is 10 above 0 or above some live value. */
  lemma NextOrderValueBounds(view: map<Uuid, ToDoItem>)
    ensures NextOrderValueOf(view) >= 10.0
    ensures forall k | k in view :: view[k].orderValue.value + 10.0 <= NextOrderValueOf(view)
    ensures NextOrderValueOf(view) == 10.0 ||
            exists k :: k in view && NextOrderValueOf(view) == view[k].orderValue.value + 10.0
  {
    var vs := MapValues(view, ItemValue);
    var ks := SortedKeys(view.Keys);
    MaxFromBounds(0.0, vs);
    forall k | k in view ensures view[k].orderValue.value + 10.0 <= NextOrderValueOf(view) {
      var i :| 0 <= i < |ks| && ks[i] == k;
      assert vs[i] == ItemValue(view[k]);
    }
    if MaxFrom(0.0, vs) != 0.0 {
      var i :| 0 <= i < |vs| && MaxFrom(0.0, vs) == vs[i];
      assert vs[i] == ItemValue(view[ks[i]]);
    }
  }

  /** The order values of `items`, in the same order. */
  function ValuesOf(items: seq<ToDoItem>): (vs: seq<real>)
    ensures |vs| == |items|
    ensures forall i | 0 <= i < |items| :: vs[i] == items[i].orderValue.value
  {
    seq(|items|, i requires 0 <= i < |items| => items[i].orderValue.value)
  }

  /** Reading the values off the items of a view gives the values of the
      view. */
  lemma ValuesOfMapValues(view: map<Uuid, ToDoItem>)
    ensures ValuesOf(MapValues(view, Identity)) == MapValues(view, ItemValue)
  {
  }

  /** `clampIndex`: the index forced into [0, n - 1]. */
  function ClampIndex(index: int, n: nat): (r: int)
    ensures n > 0 ==> 0 <= r < n
    ensures 0 <= index < n ==> r == index
    ensures index < 0 ==> r == 0
    ensures n > 0 && index >= n ==> r == n - 1
  {
    var max := n - 1;
    if index < 0 then 0
    else if index > max then max
    else index
  }

  /** The new order value `MoveItem` computes for an item whose current
      value is `current`, moved to position `index` of the ascending live
      values `sorted`; `next` is the list's next order value. None when the
      target slot already holds the item's value. */
  function MoveTarget(sorted: seq<real>, index: int, current: real, next: real): (r: Option<real>)
    requires 0 <= index < |sorted|
    ensures r.None? <==> sorted[index] == current
    ensures sorted[index] < current ==>
              r == Some((sorted[index] + (if index - 1 >= 0 then sorted[index - 1] else 0.0)) / 2.0)
    ensures sorted[index] > current ==>
              r == Some((sorted[index] + (if index + 1 < |sorted| then sorted[index + 1] else next)) / 2.0)
  {
    var mid := sorted[index];
    if mid < current then
      var adjacent := if index - 1 >= 0 then sorted[index - 1] else 0.0;
      Some((mid + adjacent) / 2.0)
    else if mid > current then
      var adjacent := if index + 1 < |sorted| then sorted[index + 1] else next;
      Some((mid + adjacent) / 2.0)
    else
      None
  }

  /** The order value `MoveItem` computes for the live item `id` of
      `view`: the midpoint rule applied to the sorted live values at the
      clamped target index; None when the item already sits at that value. */
  function MoveValue(view: map<Uuid, ToDoItem>, id: Uuid, targetIndex: int): (r: Option<real>)
    requires id in view
    ensures var sorted := SortAscending(MapValues(view, ItemValue));
            |sorted| == |view| > 0 &&
            (r.None? <==> sorted[ClampIndex(targetIndex, |sorted|)] == view[id].orderValue.value)
  {
    MapValuesEntries(view, ItemValue);
    var sorted := SortAscending(MapValues(view, ItemValue));
    assert |sorted| == |multiset(sorted)| == |MapValues(view, ItemValue)|;
    MoveTarget(sorted, ClampIndex(targetIndex, |sorted|), view[id].orderValue.value, NextOrderValueOf(view))
  }

  /** `MoveValue` spelled out: the midpoint rule on the sorted live values,
      which are as many as the live items. */
  lemma MoveValueUnfold(view: map<Uuid, ToDoItem>, id: Uuid, targetIndex: int)
    requires id in view
    ensures var sorted := SortAscending(MapValues(view, ItemValue));
            |sorted| == |view| &&
            MoveValue(view, id, targetIndex) ==
              MoveTarget(sorted, ClampIndex(targetIndex, |view|), view[id].orderValue.value, NextOrderValueOf(view))
  {
    MapValuesEntries(view, ItemValue);
    var sorted := SortAscending(MapValues(view, ItemValue));
    assert |sorted| == |multiset(sorted)| == |MapValues(view, ItemValue)|;
  }

  /** The reordering step of `MoveItem` on a live view: sort the live
      values, clamp the target index and apply the midpoint rule. */
  method MoveValueIn(view: map<Uuid, ToDoItem>, id: Uuid, targetIndex: int) returns (target: Option<real>)
    requires id in view
    ensures target == MoveValue(view, id, targetIndex)
  {
    var items := CollectValues(view, Identity);
    ValuesOfMapValues(view);
    var values := SortAscending(ValuesOf(items));
    MoveValueUnfold(view, id, targetIndex);
    var index := ClampIndex(targetIndex, |values|);
    target := MidpointIn(values, index, view[id].orderValue.value, view);
  }

  /** The midpoint rule of `MoveItem`, reading the next order value of
      `view` only when the item moves past the tail. */
  method MidpointIn(values: seq<real>, index: int, current: real, view: map<Uuid, ToDoItem>)
    returns (target: Option<real>)
    requires 0 <= index < |values|
    ensures target == MoveTarget(values, index, current, NextOrderValueOf(view))
  {
    var orderValueMid := values[index];
    if orderValueMid < current {
      var orderValueAdjacent := if index - 1 >= 0 then values[index - 1] else 0.0;
      return Some((orderValueMid + orderValueAdjacent) / 2.0);
    } else if orderValueMid > current {
      var orderValueAdjacent: real;
      if index + 1 < |values| {
        orderValueAdjacent := values[index + 1];
      } else {
        orderValueAdjacent := NextOrderValueIn(view);
      }
      return Some((orderValueMid + orderValueAdjacent) / 2.0);
    }
    return None;
  }

  /** The loop of `nextOrderValue` over a live view. */
  method NextOrderValueIn(view: map<Uuid, ToDoItem>) returns (v: real)
    ensures v == NextOrderValueOf(view)
  {
    var ks := SortedKeys(view.Keys);
    ghost var vs := MapValues(view, ItemValue);
    var orderValue := 0.0;
    var i := 0;
    while i < |ks|
      invariant 0 <= i <= |ks|
      invariant MaxFrom(orderValue, vs[i..]) == MaxFrom(0.0, vs)
    {
      assert vs[i..][0] == ItemValue(view[ks[i]]) && vs[i..][1..] == vs[i + 1..];
      var item := view[ks[i]];
      if item.orderValue.value > orderValue {
        orderValue := item.orderValue.value;
      }
      i := i + 1;
    }
    assert vs[i..] == [];
    return orderValue + 10.0;
  }

  /** The moved value lands between the target slot and its neighbour on
      the side the item comes from: moving up it is at most the target's
      value and at least its lower neighbour's (or 0 at the head); moving
      down it is at least the target's value and at most its upper
      neighbour's (or `next` at the tail). */
  lemma MoveTargetBetween(sorted: seq<real>, index: int, current: real, next: real)
    requires 0 <= index < |sorted| && Ascending(sorted)
    requires forall i | 0 <= i < |sorted| :: 0.0 <= sorted[i] < next
    ensures var r := MoveTarget(sorted, index, current, next);
            sorted[index] < current ==>
              r.Some? && r.value <= sorted[index] && r.value < current &&
              (index > 0 ==> sorted[index - 1] <= r.value) && 0.0 <= r.value
    ensures var r := MoveTarget(sorted, index, current, next);
            sorted[index] > current ==>
              r.Some? && sorted[index] <= r.value && current < r.value && r.value < next &&
              (index + 1 < |sorted| ==> r.value <= sorted[index + 1])
  {
  }

  /** A list of three live items with ids 1, 2 and 3 and the given order
      values, as three `AddItem` calls and later moves leave it. */
  function ThreeItems(v1: real, v2: real, v3: real): map<Uuid, ToDoItem> {
    map[1 := ToDoItem(1, "first", false, OrderValue(v1, 0)),
        2 := ToDoItem(2, "second", false, OrderValue(v2, 0)),
        3 := ToDoItem(3, "third", false, OrderValue(v3, 0))]
  }

  lemma ThreeItemsValues(v1: real, v2: real, v3: real)
    ensures MapValues(ThreeItems(v1, v2, v3), ItemValue) == [v1, v2, v3]
  {
    var view := ThreeItems(v1, v2, v3);
    assert view.Keys == {1, 2, 3};
    OneTwoThreeSorted();
    ValuesAtThree(view, 1, 2, 3, ItemValue);
  }

  lemma ValuesAtThree<D>(m: map<Uuid, ToDoItem>, a: Uuid, b: Uuid, c: Uuid, f: ToDoItem -> D)
    requires a in m && b in m && c in m
    ensures ValuesAt(m, [a, b, c], f) == [f(m[a]), f(m[b]), f(m[c])]
  {
  }

  lemma OneTwoThreeSorted()
    ensures SortedKeys({1, 2, 3}) == [1, 2, 3]
  {
    assert Least({1, 2, 3}) == 1 && {1, 2, 3} - {1} == {2, 3};
    assert Least({2, 3}) == 2 && {2, 3} - {2} == {3};
    assert Least({3}) == 3 && {3} - {3} == {};
  }

  /** `MoveValue` once the live values of the view and their ascending
      arrangement are known. */
  lemma MoveValueOf(view: map<Uuid, ToDoItem>, id: Uuid, index: int, values: seq<real>, sorted: seq<real>)
    requires id in view && MapValues(view, ItemValue) == values
    requires Ascending(sorted) && multiset(sorted) == multiset(values)
    ensures |sorted| == |view| > 0
    ensures MoveValue(view, id, index) ==
            MoveTarget(sorted, ClampIndex(index, |sorted|), view[id].orderValue.value, MaxFrom(0.0, values) + 10.0)
  {
    var sortedValues := SortAscending(MapValues(view, ItemValue));
    MoveValueUnfold(view, id, index);
    assert multiset(sortedValues) == multiset(sorted);
    AscendingUnique(sortedValues, sorted);
    assert |sorted| == |view| > 0;
    assert NextOrderValueOf(view) == MaxFrom(0.0, values) + 10.0;
  }

  lemma AscendingThree(a: real, b: real, c: real)
    requires a <= b <= c
    ensures Ascending([a, b, c])
  {
  }

  lemma SwappedLastTwo(a: real, b: real, c: real)
    ensures multiset([a, c, b]) == multiset([a, b, c])
  {
    assert [a, c, b] == [a] + [c] + [b] && [a, b, c] == [a] + [b] + [c];
  }

  lemma RotatedThree(a: real, b: real, c: real)
    ensures multiset([b, c, a]) == multiset([a, b, c])
  {
    assert [b, c, a] == [b, c] + [a] && [a, b, c] == [a] + [b, c];
  }

  /** `TestMoveItem`: items valued 10, 20 and 30 by `AddItem`; moving the
      third to index 1 gives it 15, then to index -10 (clamped to 0) gives
      it 5, then to index 10 (clamped to 2) gives it 25, past the last item
      and below the next order value 30. */
  lemma MoveItemScenario()
    ensures MoveValue(ThreeItems(10.0, 20.0, 30.0), 3, 1) == Some(15.0)
    ensures MoveValue(ThreeItems(10.0, 20.0, 15.0), 3, -10) == Some(5.0)
    ensures MoveValue(ThreeItems(10.0, 20.0, 5.0), 3, 10) == Some(25.0)
  {
    MoveFirstStep();
    MoveSecondStep();
    MoveThirdStep();
  }

  lemma MoveFirstStep()
    ensures MoveValue(ThreeItems(10.0, 20.0, 30.0), 3, 1) == Some(15.0)
  {
    ThreeItemsValues(10.0, 20.0, 30.0);
    AscendingThree(10.0, 20.0, 30.0);
    MoveValueOf(ThreeItems(10.0, 20.0, 30.0), 3, 1, [10.0, 20.0, 30.0], [10.0, 20.0, 30.0]);
  }

  lemma MoveSecondStep()
    ensures MoveValue(ThreeItems(10.0, 20.0, 15.0), 3, -10) == Some(5.0)
  {
    ThreeItemsValues(10.0, 20.0, 15.0);
    AscendingThree(10.0, 15.0, 20.0);
    SwappedLastTwo(10.0, 15.0, 20.0);
    MoveValueOf(ThreeItems(10.0, 20.0, 15.0), 3, -10, [10.0, 20.0, 15.0], [10.0, 15.0, 20.0]);
  }

  lemma MoveThirdStep()
    ensures MoveValue(ThreeItems(10.0, 20.0, 5.0), 3, 10) == Some(25.0)
  {
    ThreeItemsValues(10.0, 20.0, 5.0);
    AscendingThree(5.0, 10.0, 20.0);
    RotatedThree(5.0, 10.0, 20.0);
    MoveValueOf(ThreeItems(10.0, 20.0, 5.0), 3, 10, [10.0, 20.0, 5.0], [5.0, 10.0, 20.0]);
  }
}
