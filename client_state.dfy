/** The mutable side of the browser client: `ToDoList` and `Notebook`
    objects whose methods update their item set or list set (a PSet.js
    instance) in place. Where the client writes to an item it got from
    `getItem`, it writes to the stored object itself, since a live view
    shares its objects with the live map; the model writes that entry of
    the live map. */
module ClientState {
  import opened Types
  import opened Collections
  import opened Crdt
  import opened Solvent
  import opened Client

  /** `PSet.add` on an item set: a new id is inserted as given; an
      existing one is replaced by `ToDoItem.merge`, which never fails. */
  method ClientItemSetAdd(s: PSetReplica<ClientItem>, item: ClientItem)
    modifies s
    ensures s.tombstoneSet == old(s.tombstoneSet)
    ensures item.id !in old(s.liveSet) ==> s.liveSet == old(s.liveSet)[item.id := item]
    ensures item.id in old(s.liveSet) ==> s.liveSet == old(s.liveSet)[item.id := MergeClientItems(old(s.liveSet)[item.id], item)]
    ensures old(Valid(s.Value(), ClientItemKey)) ==> Valid(s.Value(), ClientItemKey)
  {
    var err := s.Add(item, ClientItemKey, MergeClientItemsOk);
  }

  /** A write into the stored item under `key`, followed by `add` of that
      same object, as `moveItem` and `renameItem` do: the element merge of
      an item with itself gives it back, so the add changes nothing
      further and the entry simply holds the written item. */
  method ClientItemSetWriteBack(s: PSetReplica<ClientItem>, key: Uuid, written: ClientItem)
    requires key in s.liveSet && written.id == key
    modifies s
    ensures s.liveSet == old(s.liveSet)[key := written]
    ensures s.tombstoneSet == old(s.tombstoneSet)
    ensures old(Valid(s.Value(), ClientItemKey)) ==> Valid(s.Value(), ClientItemKey)
  {
    s.liveSet := s.liveSet[key := written];
    ghost var before := s.liveSet;
    MergeClientItemsIdempotent(written);
    ClientItemSetAdd(s, written);
    MapUpdateSame(before, key);
  }

  // ---------------------------------------------------------------------
  // ToDoList.js
  // ---------------------------------------------------------------------

  /** A browser to-do list whose title and item set are updated in place. */
  class ClientListReplica {
    const id: Uuid
    var title: Title
    const toDoItems: PSetReplica<ClientItem>
    const createdAt: int

    function Value(): ClientList
      reads this, toDoItems
    {
      ClientList(id, title, toDoItems.Value(), createdAt)
    }

    /** Every item is stored under its own id. */
    ghost predicate Valid()
      reads this, toDoItems
    {
      Crdt.Valid(toDoItems.Value(), ClientItemKey)
    }

    /** The items currently visible. */
    function LiveItems(): map<Uuid, ClientItem>
      reads this, toDoItems
    {
      LiveViewOf(toDoItems.Value())
    }

    /** `ToDoList.new`: a list with an empty set tagged "ToDoItemPSet"; the
        id is a parameter and the title stamp and creation time are two
        clock readings. */
    constructor (id: Uuid, title: string, titleUpdatedAt: int, createdAt: int)
      ensures Value() == ClientList(id, Title(title, titleUpdatedAt), NewPSet(ToDoItemPSetIdentifier), createdAt)
      ensures Valid() && fresh(toDoItems)
    {
      this.id := id;
      this.title := Title(title, titleUpdatedAt);
      toDoItems := new PSetReplica(ToDoItemPSetIdentifier);
      this.createdAt := createdAt;
    }

    /** `items`: the live items, one per live id. */
    method Items() returns (items: seq<ClientItem>)
      ensures items == MapValues(LiveItems(), Identity)
      ensures |items| == |LiveItems()|
      ensures forall k | k in LiveItems() :: LiveItems()[k] in items
    {
      var view := toDoItems.LiveView();
      items := CollectValues(view, Identity);
      MapValuesEntries(view, Identity);
    }

    /** `getItem`: the live item with that id, or undefined. */
    function GetItem(itemId: Uuid): (r: Option<ClientItem>)
      reads this, toDoItems
      ensures r.Some? <==> itemId in LiveItems()
      ensures r.Some? ==> r.value == LiveItems()[itemId]
    {
      var view := LiveViewOf(toDoItems.Value());
      if itemId in view then Some(view[itemId]) else None
    }

    /** `nextOrderValue`: the accumulator loop over the live items. */
    method NextOrderValue() returns (v: real)
      ensures v == ClientNextOrderValueOf(LiveItems())
    {
      var view := toDoItems.LiveView();
      v := ClientNextOrderValueIn(view);
    }

    /** `addItem`: an unchecked item under the fresh id `newId`, ordered
        after every live item, its order value stamped `now` and its item
        stamp left undefined. */
    method AddItem(itemTitle: string, newId: Uuid, now: int) returns (itemId: Uuid)
      requires newId !in toDoItems.liveSet && newId !in toDoItems.tombstoneSet
      modifies toDoItems
      ensures toDoItems.liveSet ==
              old(toDoItems.liveSet)[newId := ClientItem(newId, itemTitle, false, OrderValue(ClientNextOrderValueOf(old(LiveItems())), now), None)]
      ensures toDoItems.tombstoneSet == old(toDoItems.tombstoneSet)
      ensures itemId == newId
      ensures GetItem(newId).Some?
      ensures forall k | k in old(LiveItems()) :: old(LiveItems())[k].orderValue.value < GetItem(newId).value.orderValue.value
      ensures old(Valid()) ==> Valid()
    {
      ClientNextOrderValueBounds(LiveItems());
      var value := NextOrderValue();
      var item := ClientItem(newId, itemTitle, false, OrderValue(value, now), None);
      ClientItemSetAdd(toDoItems, item);
      return newId;
    }

    /** `removeItem`: tombstones a live item and ignores an absent id. */
    method RemoveItem(itemId: Uuid)
      requires Valid()
      modifies toDoItems
      ensures toDoItems.liveSet == old(toDoItems.liveSet)
      ensures itemId in old(LiveItems()) ==> toDoItems.tombstoneSet == old(toDoItems.tombstoneSet)[itemId := old(LiveItems())[itemId]]
      ensures itemId !in old(LiveItems()) ==> toDoItems.tombstoneSet == old(toDoItems.tombstoneSet)
      ensures GetItem(itemId).None?
      ensures Valid()
    {
      var item := GetItem(itemId);
      if item.Some? {
        toDoItems.Remove(item.value, ClientItemKey);
      }
    }

    /** `checkItem`: sets `checked` on the stored item itself, without going
        through `add`, and returns the id. The id must be live: on an
        absent one the client fails reading a field of undefined. */
    method CheckItem(itemId: Uuid) returns (checkedId: Uuid)
      requires itemId in LiveItems()
      modifies toDoItems
      ensures toDoItems.liveSet == old(toDoItems.liveSet)[itemId := old(LiveItems())[itemId].(checked := true)]
      ensures toDoItems.tombstoneSet == old(toDoItems.tombstoneSet)
      ensures checkedId == itemId
      ensures GetItem(itemId).Some? && GetItem(itemId).value.checked
      ensures old(Valid()) ==> Valid()
    {
      var item := GetItem(itemId).value;
      toDoItems.liveSet := toDoItems.liveSet[itemId := item.(checked := true)];
      return itemId;
    }

    /** `uncheckItem`: tombstones the live item and adds an unchecked copy
        with its title and order value under the fresh id `newId`, which is
        returned. The id must be live. */
    method UncheckItem(itemId: Uuid, newId: Uuid) returns (resultId: Uuid)
      requires Valid() && itemId in LiveItems()
      requires newId !in toDoItems.liveSet && newId !in toDoItems.tombstoneSet
      modifies toDoItems
      ensures var item := old(LiveItems())[itemId];
              toDoItems.tombstoneSet == old(toDoItems.tombstoneSet)[itemId := item] &&
              toDoItems.liveSet == old(toDoItems.liveSet)[newId := ClientItem(newId, item.title, false, item.orderValue, None)]
      ensures resultId == newId
      ensures GetItem(itemId).None? && GetItem(newId).Some? && !GetItem(newId).value.checked
      ensures Valid()
    {
      var item := GetItem(itemId).value;
      RemoveItem(itemId);
      var newItem := ClientItem(newId, item.title, false, item.orderValue, None);
      ClientItemSetAdd(toDoItems, newItem);
      return newId;
    }

    /** `moveItem`: writes the midpoint-rule value, stamped `now`, into the
        stored item and adds it back, which changes nothing further; no
        other item changes. Returns the id, or undefined (None) when the
        target slot already holds the item's value. Without clamping, the
        target index must lie in range. */
    method MoveItem(itemId: Uuid, targetIndex: int, now: int) returns (movedId: Option<Uuid>)
      requires Valid() && itemId in LiveItems() && 0 <= targetIndex < |LiveItems()|
      modifies toDoItems
      ensures var item := old(LiveItems())[itemId];
              var target := ClientMoveValue(old(LiveItems()), itemId, targetIndex);
              (target.None? ==> movedId.None? && toDoItems.liveSet == old(toDoItems.liveSet)) &&
              (target.Some? ==>
                 movedId == Some(itemId) &&
                 toDoItems.liveSet == old(toDoItems.liveSet)[itemId := item.(orderValue := OrderValue(target.value, now))])
      ensures toDoItems.tombstoneSet == old(toDoItems.tombstoneSet)
      ensures Valid()
    {
      var item := GetItem(itemId).value;
      var view := toDoItems.LiveView();
      var target := ClientMoveValueIn(view, itemId, targetIndex);
      if target.None? {
        return None;
      }
      var moved := item.(orderValue := OrderValue(target.value, now));
      ClientItemSetWriteBack(toDoItems, itemId, moved);
      return Some(moved.id);
    }

    /** `renameItem`: with an unchanged title, returns the id and changes
        nothing. Otherwise tombstones the item, adds an item with the new
        title under the fresh id `newId`, then writes the old order value
        and item stamp into it; returns `newId`. The id must be live. */
    method RenameItem(itemId: Uuid, newTitle: string, newId: Uuid, now: int) returns (resultId: Uuid)
      requires Valid() && itemId in LiveItems()
      requires newId !in toDoItems.liveSet && newId !in toDoItems.tombstoneSet
      modifies toDoItems
      ensures var item := old(LiveItems())[itemId];
              (item.title == newTitle ==>
                 resultId == itemId &&
                 toDoItems.liveSet == old(toDoItems.liveSet) && toDoItems.tombstoneSet == old(toDoItems.tombstoneSet)) &&
              (item.title != newTitle ==>
                 resultId == newId &&
                 toDoItems.tombstoneSet == old(toDoItems.tombstoneSet)[itemId := item] &&
                 toDoItems.liveSet == old(toDoItems.liveSet)[newId := ClientItem(newId, newTitle, false, item.orderValue, item.updatedAt)])
      ensures Valid()
    {
      var oldItem := GetItem(itemId).value;
      if oldItem.title == newTitle {
        return oldItem.id;
      }
      ghost var live := toDoItems.liveSet;
      RemoveItem(oldItem.id);
      var addedId := AddItem(newTitle, newId, now);
      ghost var added := toDoItems.liveSet[newId];
      assert toDoItems.liveSet == live[newId := added];
      var newItem := GetItem(addedId).value;
      newItem := newItem.(orderValue := oldItem.orderValue, updatedAt := oldItem.updatedAt);
      assert newItem == ClientItem(newId, newTitle, false, oldItem.orderValue, oldItem.updatedAt);
      ClientItemSetWriteBack(toDoItems, addedId, newItem);
      MapUpdateTwice(live, newId, added, newItem);
      return addedId;
    }

    /** `rename`: the title becomes the new one stamped `now`; the items are
        untouched. */
    method Rename(newTitle: string, now: int)
      modifies this
      ensures title == Title(newTitle, now)
    {
      title := Title(newTitle, now);
    }

    /** `isChecked`: true when some item is live and a search for an
        unchecked live item finds none. */
    method IsChecked() returns (b: bool)
      ensures b <==> AllChecked(LiveItems())
    {
      var view := toDoItems.LiveView();
      b := AllCheckedIn(view);
    }
  }

  // ---------------------------------------------------------------------
  // Notebook.js
  // ---------------------------------------------------------------------

  /** A browser notebook whose list set is updated in place. Lists are
      stored as values. */
  class ClientNotebookReplica {
    const id: Uuid
    const toDoLists: PSetReplica<ClientList>
    const createdAt: int

    function Value(): ClientNotebook
      reads this, toDoLists
    {
      ClientNotebook(id, toDoLists.Value(), createdAt)
    }

    /** Every list is stored under its own id. */
    ghost predicate Valid()
      reads this, toDoLists
    {
      Crdt.Valid(toDoLists.Value(), ClientListKey)
    }

    /** The lists currently visible. */
    function LiveLists(): map<Uuid, ClientList>
      reads this, toDoLists
    {
      LiveViewOf(toDoLists.Value())
    }

    /** `Notebook.new`: an empty list set tagged "ToDoListPSet". */
    constructor (id: Uuid, createdAt: int)
      ensures Value() == ClientNotebook(id, NewPSet(ToDoListPSetIdentifier), createdAt)
      ensures Valid() && fresh(toDoLists)
    {
      this.id := id;
      toDoLists := new PSetReplica(ToDoListPSetIdentifier);
      this.createdAt := createdAt;
    }

    /** `getList`: the live list with that id, or undefined. */
    function GetList(listId: Uuid): (r: Option<ClientList>)
      reads this, toDoLists
      ensures r.Some? <==> listId in LiveLists()
      ensures r.Some? ==> r.value == LiveLists()[listId]
    {
      var view := LiveViewOf(toDoLists.Value());
      if listId in view then Some(view[listId]) else None
    }

    /** `addList`: a new empty list under the fresh id `newId`, which is
        returned and which `getList` then finds. */
    method AddList(title: string, newId: Uuid, titleUpdatedAt: int, listCreatedAt: int) returns (list: ClientList)
      requires newId !in toDoLists.liveSet && newId !in toDoLists.tombstoneSet
      modifies toDoLists
      ensures list == ClientList(newId, Title(title, titleUpdatedAt), NewPSet(ToDoItemPSetIdentifier), listCreatedAt)
      ensures toDoLists.liveSet == old(toDoLists.liveSet)[newId := list]
      ensures toDoLists.tombstoneSet == old(toDoLists.tombstoneSet)
      ensures GetList(newId) == Some(list)
      ensures old(Valid()) ==> Valid()
    {
      var created := new ClientListReplica(newId, title, titleUpdatedAt, listCreatedAt);
      list := created.Value();
      var err := toDoLists.Add(list, ClientListKey, MergeClientLists);
    }

    /** `removeList`: tombstones a live list and ignores an absent id. */
    method RemoveList(listId: Uuid)
      requires Valid()
      modifies toDoLists
      ensures toDoLists.liveSet == old(toDoLists.liveSet)
      ensures listId in old(LiveLists()) ==> toDoLists.tombstoneSet == old(toDoLists.tombstoneSet)[listId := old(LiveLists())[listId]]
      ensures listId !in old(LiveLists()) ==> toDoLists.tombstoneSet == old(toDoLists.tombstoneSet)
      ensures GetList(listId).None?
      ensures Valid()
    {
      var list := GetList(listId);
      if list.Some? {
        toDoLists.Remove(list.value, ClientListKey);
      }
    }

    /** `getLists`: the live lists, one per live id. */
    method GetLists() returns (lists: seq<ClientList>)
      ensures lists == MapValues(LiveLists(), Identity)
      ensures |lists| == |LiveLists()|
      ensures forall k | k in LiveLists() :: LiveLists()[k] in lists
    {
      var view := toDoLists.LiveView();
      lists := CollectValues(view, Identity);
      MapValuesEntries(view, Identity);
    }
  }
}
