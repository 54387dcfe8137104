/** The stateful side of the Go package `solvent`: the typed set wrappers'
    in-place `Add`/`Remove`, a to-do list whose title and item set change
    in place, and a notebook whose list set changes in place. Fresh ids and
    clock readings are parameters. */
module SolventState {
  import opened Types
  import opened Collections
  import opened Crdt
  import opened Solvent

  // ---------------------------------------------------------------------
  // pset_wrappers.go
  // ---------------------------------------------------------------------

  /** `ToDoItemPSet.Add`: a new id is inserted as given; an id already
      live or stored is merged with `ToDoItem.Merge`, which only fails when
      the stored item carries another id. */
  method ItemSetAdd(s: PSetReplica<ToDoItem>, item: ToDoItem) returns (err: Outcome)
    modifies s
    ensures s.tombstoneSet == old(s.tombstoneSet)
    ensures item.id !in old(s.liveSet) ==> s.liveSet == old(s.liveSet)[item.id := item] && err == Pass
    ensures item.id in old(s.liveSet) && old(s.liveSet)[item.id].id == item.id ==>
              s.liveSet == old(s.liveSet)[item.id := MergeItems(old(s.liveSet)[item.id], item).value] && err == Pass
    ensures item.id in old(s.liveSet) && old(s.liveSet)[item.id].id != item.id ==>
              s.liveSet == old(s.liveSet) && err == Fail(CannotBeMerged)
    ensures old(Valid(s.Value(), ItemKey)) ==> Valid(s.Value(), ItemKey)
  {
    err := s.Add(item, ItemKey, MergeItems);
  }

  /** Adding a copy of the stored `item` with a new order value stamped
      `now`: the item's merge keeps the copy's value only when `now` is
      strictly newer, and nothing else changes. */
  method ItemSetReorder(s: PSetReplica<ToDoItem>, item: ToDoItem, value: real, now: int) returns (err: Outcome)
    requires item.id in s.liveSet && s.liveSet[item.id] == item
    modifies s
    ensures s.tombstoneSet == old(s.tombstoneSet) && err == Pass
    ensures s.liveSet ==
              if now > item.orderValue.updatedAt
              then old(s.liveSet)[item.id := item.(orderValue := OrderValue(value, now))]
              else old(s.liveSet)
    ensures old(Valid(s.Value(), ItemKey)) ==> Valid(s.Value(), ItemKey)
  {
    ghost var before := s.liveSet;
    var moved := item.(orderValue := OrderValue(value, now));
    ghost var kept := if now > item.orderValue.updatedAt then moved else item;
    assert MergeItems(item, moved) == Ok(kept);
    err := ItemSetAdd(s, moved);
    MapUpdateSame(before, item.id);
  }

  /** `ToDoItemPSet.Remove`: a tombstone for a live id, nothing otherwise. */
  method ItemSetRemove(s: PSetReplica<ToDoItem>, item: ToDoItem)
    modifies s
    ensures s.liveSet == old(s.liveSet)
    ensures item.id in LiveViewOf(old(s.Value())) ==> s.tombstoneSet == old(s.tombstoneSet)[item.id := item]
    ensures item.id !in LiveViewOf(old(s.Value())) ==> s.tombstoneSet == old(s.tombstoneSet)
    ensures old(Valid(s.Value(), ItemKey)) ==> Valid(s.Value(), ItemKey)
  {
    s.Remove(item, ItemKey);
  }

  /** `ToDoItemPSet.LiveView`: the keys and items of the set's live view. */
  method ItemSetLiveView(s: PSetReplica<ToDoItem>) returns (view: map<Uuid, ToDoItem>)
    ensures view == LiveViewOf(s.Value())
    ensures view.Keys == s.liveSet.Keys - s.tombstoneSet.Keys
    ensures forall k | k in view :: view[k] == s.liveSet[k]
  {
    view := s.LiveView();
  }

  /** `ToDoListPSet.Add`: a new id is inserted as given; an existing one is
      merged with `ToDoList.Merge`, whose error leaves the set unchanged. */
  method ListSetAdd(s: PSetReplica<ToDoList>, list: ToDoList) returns (err: Outcome)
    modifies s
    ensures s.tombstoneSet == old(s.tombstoneSet)
    ensures list.id !in old(s.liveSet) ==> s.liveSet == old(s.liveSet)[list.id := list] && err == Pass
    ensures list.id in old(s.liveSet) ==>
              match MergeLists(old(s.liveSet)[list.id], list)
              case Ok(merged) => s.liveSet == old(s.liveSet)[list.id := merged] && err == Pass
              case Err(e) => s.liveSet == old(s.liveSet) && err == Fail(e)
    ensures old(Valid(s.Value(), ListKey)) ==> Valid(s.Value(), ListKey)
  {
    err := s.Add(list, ListKey, MergeLists);
  }

  /** `ToDoListPSet.Remove`: a tombstone for a live id, nothing otherwise. */
  method ListSetRemove(s: PSetReplica<ToDoList>, list: ToDoList)
    modifies s
    ensures s.liveSet == old(s.liveSet)
    ensures list.id in LiveViewOf(old(s.Value())) ==> s.tombstoneSet == old(s.tombstoneSet)[list.id := list]
    ensures list.id !in LiveViewOf(old(s.Value())) ==> s.tombstoneSet == old(s.tombstoneSet)
    ensures old(Valid(s.Value(), ListKey)) ==> Valid(s.Value(), ListKey)
  {
    s.Remove(list, ListKey);
  }

  /** `ToDoListPSet.LiveView`: the keys and lists of the set's live view. */
  method ListSetLiveView(s: PSetReplica<ToDoList>) returns (view: map<Uuid, ToDoList>)
    ensures view == LiveViewOf(s.Value())
    ensures view.Keys == s.liveSet.Keys - s.tombstoneSet.Keys
    ensures forall k | k in view :: view[k] == s.liveSet[k]
  {
    view := s.LiveView();
  }

  // ---------------------------------------------------------------------
  // ToDoList
  // ---------------------------------------------------------------------

  /** A to-do list whose title and item set are updated in place. */
  class ToDoListReplica {
    const id: Uuid
    var title: Title
    const toDoItems: PSetReplica<ToDoItem>
    const createdAt: int

    function Value(): ToDoList
      reads this, toDoItems
    {
      ToDoList(id, title, toDoItems.Value(), createdAt)
    }

    /** Every item is stored under its own id. */
    ghost predicate Valid()
      reads this, toDoItems
    {
      Crdt.Valid(toDoItems.Value(), ItemKey)
    }

    /** The items currently visible. */
    function LiveItems(): map<Uuid, ToDoItem>
      reads this, toDoItems
    {
      LiveViewOf(toDoItems.Value())
    }

    /** `newToDoList`: a list with an empty item set; the title stamp and
        the creation time are two clock readings. */
    constructor (id: Uuid, title: string, titleUpdatedAt: int, createdAt: int)
      ensures Value() == ToDoList(id, Title(title, titleUpdatedAt), NewToDoItemPSet(), createdAt)
      ensures Valid() && fresh(toDoItems)
    {
      this.id := id;
      this.title := Title(title, titleUpdatedAt);
      toDoItems := new PSetReplica(ToDoItemPSetIdentifier);
      this.createdAt := createdAt;
    }

    /** `Rename`: the title becomes the new one stamped `now`. */
    method Rename(newTitle: string, now: int) returns (listId: Uuid, err: Outcome)
      modifies this
      ensures title == Title(newTitle, now)
      ensures listId == id && err == Pass
    {
      title := Title(newTitle, now);
      return id, Pass;
    }

    /** `GetItem`: the live item with that id, or NotFound. */
    function GetItem(itemId: Uuid): (r: Result<ToDoItem>)
      reads this, toDoItems
      ensures r.Ok? <==> itemId in LiveItems()
      ensures r.Ok? ==> r.value == LiveItems()[itemId]
      ensures r.Err? ==> r.error == NotFound(itemId)
    {
      var view := LiveViewOf(toDoItems.Value());
      if itemId in view then Ok(view[itemId]) else Err(NotFound(itemId))
    }

    /** `nextOrderValue`: the accumulator loop over the live items. */
    method NextOrderValue() returns (v: real)
      ensures v == NextOrderValueOf(LiveItems())
    {
      var view := ItemSetLiveView(toDoItems);
      assert view == LiveItems();
      v := NextOrderValueIn(view);
    }

    /** `GetItems`: the live items, one per live id. */
    method GetItems() returns (items: seq<ToDoItem>)
      ensures items == MapValues(LiveItems(), Identity)
      ensures |items| == |LiveItems()|
      ensures forall k | k in LiveItems() :: LiveItems()[k] in items
      ensures forall x | x in items :: exists k :: k in LiveItems() && LiveItems()[k] == x
    {
      var view := ItemSetLiveView(toDoItems);
      assert view == LiveItems();
      items := CollectValues(view, Identity);
      MapValuesEntries(view, Identity);
    }

    /** `AddItem`: an unchecked item under the fresh id `newId`, ordered
        after every live item and stamped `now`. */
    method AddItem(itemTitle: string, newId: Uuid, now: int) returns (itemId: Uuid, err: Outcome)
      requires newId !in toDoItems.liveSet && newId !in toDoItems.tombstoneSet
      modifies toDoItems
      ensures toDoItems.liveSet ==
              old(toDoItems.liveSet)[newId := ToDoItem(newId, itemTitle, false, OrderValue(NextOrderValueOf(old(LiveItems())), now))]
      ensures toDoItems.tombstoneSet == old(toDoItems.tombstoneSet)
      ensures itemId == newId && err == Pass
      ensures GetItem(newId) == Ok(ToDoItem(newId, itemTitle, false, OrderValue(NextOrderValueOf(old(LiveItems())), now)))
      ensures forall k | k in old(LiveItems()) :: old(LiveItems())[k].orderValue.value < GetItem(newId).value.orderValue.value
      ensures old(Valid()) ==> Valid()
    {
      NextOrderValueBounds(LiveItems());
      var value := NextOrderValue();
      var item := ToDoItem(newId, itemTitle, false, OrderValue(value, now));
      err := ItemSetAdd(toDoItems, item);
      return newId, err;
    }

    /** `RemoveItem`: tombstones a live item and ignores an absent id. */
    method RemoveItem(itemId: Uuid)
      requires Valid()
      modifies toDoItems
      ensures toDoItems.liveSet == old(toDoItems.liveSet)
      ensures itemId in old(LiveItems()) ==> toDoItems.tombstoneSet == old(toDoItems.tombstoneSet)[itemId := old(LiveItems())[itemId]]
      ensures itemId !in old(LiveItems()) ==> toDoItems.tombstoneSet == old(toDoItems.tombstoneSet)
      ensures GetItem(itemId) == Err(NotFound(itemId))
      ensures Valid()
    {
      var r := GetItem(itemId);
      if r.Ok? {
        ItemSetRemove(toDoItems, r.value);
      }
    }

    /** `CheckItem`: the live item becomes checked and its id is returned;
        an absent id gives NotFound with the nil id. */
    method CheckItem(itemId: Uuid) returns (checkedId: Uuid, err: Outcome)
      requires Valid()
      modifies toDoItems
      ensures toDoItems.tombstoneSet == old(toDoItems.tombstoneSet)
      ensures itemId in old(LiveItems()) ==>
                checkedId == itemId && err == Pass &&
                toDoItems.liveSet == old(toDoItems.liveSet)[itemId := old(LiveItems())[itemId].(checked := true)]
      ensures itemId in old(LiveItems()) ==> GetItem(itemId).Ok? && GetItem(itemId).value.checked
      ensures itemId !in old(LiveItems()) ==>
                checkedId == NilUuid && err == Fail(NotFound(itemId)) && toDoItems.liveSet == old(toDoItems.liveSet)
      ensures Valid()
    {
      var r := GetItem(itemId);
      if r.Err? {
        return NilUuid, Fail(r.error);
      }
      var item := r.value.(checked := true);
      var _ := ItemSetAdd(toDoItems, item);
      return item.id, Pass;
    }

    /** `UncheckItem`: the live item is tombstoned and an unchecked copy
        with the same title and order value is added under the fresh id
        `newId`, which is returned; an absent id gives NotFound with the
        nil id. */
    method UncheckItem(itemId: Uuid, newId: Uuid) returns (resultId: Uuid, err: Outcome)
      requires Valid()
      requires newId !in toDoItems.liveSet && newId !in toDoItems.tombstoneSet
      modifies toDoItems
      ensures itemId in old(LiveItems()) ==>
                var item := old(LiveItems())[itemId];
                resultId == newId && err == Pass &&
                toDoItems.tombstoneSet == old(toDoItems.tombstoneSet)[itemId := item] &&
                toDoItems.liveSet == old(toDoItems.liveSet)[newId := ToDoItem(newId, item.title, false, item.orderValue)]
      ensures itemId in old(LiveItems()) ==> GetItem(itemId).Err? && GetItem(newId).Ok? && !GetItem(newId).value.checked
      ensures itemId !in old(LiveItems()) ==>
                resultId == NilUuid && err == Fail(NotFound(itemId)) &&
                toDoItems.liveSet == old(toDoItems.liveSet) && toDoItems.tombstoneSet == old(toDoItems.tombstoneSet)
      ensures Valid()
    {
      var r := GetItem(itemId);
      if r.Err? {
        return NilUuid, Fail(r.error);
      }
      var item := r.value;
      RemoveItem(item.id);
      var newItem := ToDoItem(newId, item.title, false, item.orderValue);
      err := ItemSetAdd(toDoItems, newItem);
      return newId, err;
    }

    /** The first half of `MoveItem`: sort the live items' values, clamp
        the target index and apply the midpoint rule to the live `item`. */
    method MoveValueOf(item: ToDoItem, targetIndex: int) returns (target: Option<real>)
      requires item.id in LiveItems() && LiveItems()[item.id] == item
      ensures target == MoveValue(LiveItems(), item.id, targetIndex)
    {
      var view := ItemSetLiveView(toDoItems);
      target := MoveValueIn(view, item.id, targetIndex);
    }

    /** `MoveItem`: gives the live item the order value computed by the
        midpoint rule. The new value is written through `Add`, so it only
        takes effect when `now` is strictly newer than the item's order
        value stamp; no other item changes. */
    method MoveItem(itemId: Uuid, targetIndex: int, now: int) returns (err: Outcome)
      requires Valid()
      modifies toDoItems
      ensures toDoItems.tombstoneSet == old(toDoItems.tombstoneSet)
      ensures itemId !in old(LiveItems()) ==> err == Fail(NotFound(itemId)) && toDoItems.liveSet == old(toDoItems.liveSet)
      ensures itemId in old(LiveItems()) ==>
                var item := old(LiveItems())[itemId];
                var target := MoveValue(old(LiveItems()), itemId, targetIndex);
                err == Pass &&
                toDoItems.liveSet ==
                  if target.Some? && now > item.orderValue.updatedAt
                  then old(toDoItems.liveSet)[itemId := item.(orderValue := OrderValue(target.value, now))]
                  else old(toDoItems.liveSet)
      ensures Valid()
    {
      var r := GetItem(itemId);
      if r.Err? {
        return Fail(r.error);
      }
      var item := r.value;
      ghost var before := toDoItems.liveSet;
      assert item.id == itemId && before[itemId] == item;
      var target := MoveValueOf(item, targetIndex);
      if target.None? {
        return Pass;
      }
      err := ItemSetReorder(toDoItems, item, target.value, now);
    }
  }

  // ---------------------------------------------------------------------
  // Notebook
  // ---------------------------------------------------------------------

  /** A notebook whose list set is updated in place. Lists are stored as
      values. */
  class NotebookReplica {
    const id: Uuid
    const toDoLists: PSetReplica<ToDoList>
    const createdAt: int

    function Value(): Notebook
      reads this, toDoLists
    {
      Notebook(id, toDoLists.Value(), createdAt)
    }

    /** Every list is stored under its own id. */
    ghost predicate Valid()
      reads this, toDoLists
    {
      Crdt.Valid(toDoLists.Value(), ListKey)
    }

    /** The lists currently visible. */
    function LiveLists(): map<Uuid, ToDoList>
      reads this, toDoLists
    {
      LiveViewOf(toDoLists.Value())
    }

    /** `NewNotebook`: an empty list set tagged "ToDoListPSet". */
    constructor (id: Uuid, createdAt: int)
      ensures Value() == Notebook(id, NewToDoListPSet(), createdAt)
      ensures Valid() && fresh(toDoLists)
    {
      this.id := id;
      toDoLists := new PSetReplica(ToDoListPSetIdentifier);
      this.createdAt := createdAt;
    }

    /** `GetList`: the live list with that id, or NotFound. */
    function GetList(listId: Uuid): (r: Result<ToDoList>)
      reads this, toDoLists
      ensures r.Ok? <==> listId in LiveLists()
      ensures r.Ok? ==> r.value == LiveLists()[listId]
      ensures r.Err? ==> r.error == NotFound(listId)
    {
      var view := LiveViewOf(toDoLists.Value());
      if listId in view then Ok(view[listId]) else Err(NotFound(listId))
    }

    /** `AddList`: a new empty list under the fresh id `newId`, which
        `GetList` then returns. */
    method AddList(title: string, newId: Uuid, titleUpdatedAt: int, listCreatedAt: int) returns (list: ToDoList, err: Outcome)
      requires newId !in toDoLists.liveSet && newId !in toDoLists.tombstoneSet
      modifies toDoLists
      ensures list == ToDoList(newId, Title(title, titleUpdatedAt), NewToDoItemPSet(), listCreatedAt)
      ensures toDoLists.liveSet == old(toDoLists.liveSet)[newId := list]
      ensures toDoLists.tombstoneSet == old(toDoLists.tombstoneSet)
      ensures err == Pass && GetList(newId) == Ok(list)
      ensures old(Valid()) ==> Valid()
    {
      var created := new ToDoListReplica(newId, title, titleUpdatedAt, listCreatedAt);
      list := created.Value();
      err := ListSetAdd(toDoLists, list);
    }

    /** `RemoveList`: tombstones a live list and ignores an absent id. */
    method RemoveList(listId: Uuid)
      requires Valid()
      modifies toDoLists
      ensures toDoLists.liveSet == old(toDoLists.liveSet)
      ensures listId in old(LiveLists()) ==> toDoLists.tombstoneSet == old(toDoLists.tombstoneSet)[listId := old(LiveLists())[listId]]
      ensures listId !in old(LiveLists()) ==> toDoLists.tombstoneSet == old(toDoLists.tombstoneSet)
      ensures GetList(listId) == Err(NotFound(listId))
      ensures Valid()
    {
      var r := GetList(listId);
      if r.Ok? {
        ListSetRemove(toDoLists, r.value);
      }
    }

    /** `GetLists`: the live lists, one per live id. */
    method GetLists() returns (lists: seq<ToDoList>)
      ensures lists == MapValues(LiveLists(), Identity)
      ensures |lists| == |LiveLists()|
      ensures forall k | k in LiveLists() :: LiveLists()[k] in lists
    {
      var view := ListSetLiveView(toDoLists);
      assert view == LiveLists();
      lists := CollectValues(view, Identity);
      MapValuesEntries(view, Identity);
    }
  }
}
