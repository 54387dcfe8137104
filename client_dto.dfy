/** The browser client's converters (Dto.js) between its objects and the
    plain objects exchanged with the server. Order values and titles have
    the server's shape and use its converters; items carry their optional
    stamp; maps become arrays of their values and arrays become maps keyed
    by `id`. Unlike the server, the client restores each set's identifier
    when it decodes. */
module ClientDto {
  import opened Types
  import opened Collections
  import opened Crdt
  import opened Solvent
  import opened Client
  import opened Dto

  datatype ClientItemDto = ClientItemDto(id: Uuid, title: string, checked: bool, orderValue: OrderValueDto, updatedAt: Option<int>)

  datatype ClientItemPSetDto = ClientItemPSetDto(liveSet: seq<ClientItemDto>, tombstoneSet: seq<ClientItemDto>)

  /** `updatedAt` is written from a field the client's lists do not have,
      so it is always undefined. */
  datatype ClientListDto = ClientListDto(id: Uuid, title: TitleDto, toDoItems: ClientItemPSetDto, updatedAt: Option<int>, createdAt: int)

  datatype ClientListPSetDto = ClientListPSetDto(liveSet: seq<ClientListDto>, tombstoneSet: seq<ClientListDto>)

  datatype ClientNotebookDto = ClientNotebookDto(id: Uuid, toDoLists: ClientListPSetDto, createdAt: int)

  // ---------------------------------------------------------------------
  // Items
  // ---------------------------------------------------------------------

  function ClientItemToDto(item: ClientItem): (d: ClientItemDto)
    ensures d.id == item.id && d.title == item.title && d.checked == item.checked && d.updatedAt == item.updatedAt
    ensures OrderValueFromDto(d.orderValue) == item.orderValue
  {
    ClientItemDto(item.id, item.title, item.checked, OrderValueToDto(item.orderValue), item.updatedAt)
  }

  function ClientItemFromDto(d: ClientItemDto): (item: ClientItem)
    ensures item.id == d.id && item.title == d.title && item.checked == d.checked && item.updatedAt == d.updatedAt
    ensures OrderValueToDto(item.orderValue) == d.orderValue
  {
    ClientItem(d.id, d.title, d.checked, OrderValueFromDto(d.orderValue), d.updatedAt)
  }

  /** The item converters undo each other, the item stamp included. */
  lemma ClientItemRoundTrips(item: ClientItem, d: ClientItemDto)
    ensures ClientItemFromDto(ClientItemToDto(item)) == item
    ensures ClientItemToDto(ClientItemFromDto(d)) == d
  {
  }

  /** `toDoItemMapToDto`: one plain object per entry. */
  method ClientItemMapToDto(itemMap: map<Uuid, ClientItem>) returns (dtos: seq<ClientItemDto>)
    ensures dtos == MapValues(itemMap, ClientItemToDto)
    ensures |dtos| == |itemMap|
    ensures forall k | k in itemMap :: ClientItemToDto(itemMap[k]) in dtos
  {
    MapValuesEntries(itemMap, ClientItemToDto);
    dtos := CollectValues(itemMap, ClientItemToDto);
  }

  /** `toDoItemMapFromDto`: each item under its `id`, later duplicates
      overwriting earlier ones. */
  method ClientItemMapFromDto(dtos: seq<ClientItemDto>) returns (itemMap: map<Uuid, ClientItem>)
    ensures itemMap == KeyedBy(dtos, ClientItemFromDto, ClientItemKey)
    ensures forall k :: k in itemMap <==> exists i :: 0 <= i < |dtos| && dtos[i].id == k
    ensures WellKeyed(itemMap, ClientItemKey)
  {
    itemMap := BuildKeyedMap(dtos, ClientItemFromDto, ClientItemKey);
  }

  /** Of several objects with one id, the last decides the decoded item. */
  lemma ClientItemDtosLastWins(dtos: seq<ClientItemDto>, i: nat)
    requires i < |dtos|
    requires forall j | i < j < |dtos| :: dtos[j].id != dtos[i].id
    ensures KeyedBy(dtos, ClientItemFromDto, ClientItemKey)[dtos[i].id] == ClientItemFromDto(dtos[i])
  {
    KeyedByLastWins(dtos, ClientItemFromDto, ClientItemKey, i);
  }

  function ClientItemPSetToDto(p: ClientItemPSet): (d: ClientItemPSetDto)
    ensures |d.liveSet| == |p.liveSet| && |d.tombstoneSet| == |p.tombstoneSet|
  {
    ClientItemPSetDto(MapValues(p.liveSet, ClientItemToDto), MapValues(p.tombstoneSet, ClientItemToDto))
  }

  /** `toDoItemPSetFromDto`: both maps rebuilt, tagged "ToDoItemPSet". */
  function ClientItemPSetFromDto(d: ClientItemPSetDto): (p: ClientItemPSet)
    ensures p.identifier == ToDoItemPSetIdentifier
    ensures Valid(p, ClientItemKey)
    ensures forall k :: k in p.liveSet <==> exists i :: 0 <= i < |d.liveSet| && d.liveSet[i].id == k
    ensures forall k :: k in p.tombstoneSet <==> exists i :: 0 <= i < |d.tombstoneSet| && d.tombstoneSet[i].id == k
  {
    PSet(KeyedBy(d.liveSet, ClientItemFromDto, ClientItemKey), KeyedBy(d.tombstoneSet, ClientItemFromDto, ClientItemKey),
         ToDoItemPSetIdentifier)
  }

  /** An item set survives the wire exactly, identifier included. */
  lemma ClientItemSetRoundTrip(p: ClientItemPSet)
    requires Valid(p, ClientItemKey) && p.identifier == ToDoItemPSetIdentifier
    ensures ClientItemPSetFromDto(ClientItemPSetToDto(p)) == p
  {
    MapValuesRoundTrip(p.liveSet, ClientItemToDto, ClientItemFromDto, ClientItemKey);
    MapValuesRoundTrip(p.tombstoneSet, ClientItemToDto, ClientItemFromDto, ClientItemKey);
  }

  // ---------------------------------------------------------------------
  // Lists and notebooks
  // ---------------------------------------------------------------------

  function ClientListToDto(l: ClientList): (d: ClientListDto)
    ensures d.id == l.id && d.createdAt == l.createdAt && d.updatedAt.None?
    ensures TitleFromDto(d.title) == l.title
  {
    ClientListDto(l.id, TitleToDto(l.title), ClientItemPSetToDto(l.toDoItems), None, l.createdAt)
  }

  function ClientListFromDto(d: ClientListDto): (l: ClientList)
    ensures l.id == d.id && l.createdAt == d.createdAt && TitleToDto(l.title) == d.title
    ensures l.toDoItems.identifier == ToDoItemPSetIdentifier && Valid(l.toDoItems, ClientItemKey)
  {
    ClientList(d.id, TitleFromDto(d.title), ClientItemPSetFromDto(d.toDoItems), d.createdAt)
  }

  /** A list whose items sit under their ids in a set tagged "ToDoItemPSet". */
  ghost predicate ListReady(l: ClientList) {
    Valid(l.toDoItems, ClientItemKey) && l.toDoItems.identifier == ToDoItemPSetIdentifier
  }

  /** A list survives the wire: id, title, creation time and both item maps. */
  lemma ClientListRoundTrip(l: ClientList)
    requires ListReady(l)
    ensures ClientListFromDto(ClientListToDto(l)) == l
  {
    ClientItemSetRoundTrip(l.toDoItems);
  }

  /** A list decoded from its own encoding merges with it and gives it
      back, which the server's decoder does not allow. */
  lemma ClientDecodedListMerges(l: ClientList)
    requires ListReady(l)
    ensures MergeClientLists(l, ClientListFromDto(ClientListToDto(l))) == Ok(l)
  {
    ClientListRoundTrip(l);
    MergeClientListsIdempotent(l);
  }

  /** `toDoListMapToDto`: one plain object per entry. */
  method ClientListMapToDto(listMap: map<Uuid, ClientList>) returns (dtos: seq<ClientListDto>)
    ensures dtos == MapValues(listMap, ClientListToDto)
    ensures |dtos| == |listMap|
    ensures forall k | k in listMap :: ClientListToDto(listMap[k]) in dtos
  {
    MapValuesEntries(listMap, ClientListToDto);
    dtos := CollectValues(listMap, ClientListToDto);
  }

  /** `toDoListMapFromDto`: each list under its `id`, later duplicates
      overwriting earlier ones. */
  method ClientListMapFromDto(dtos: seq<ClientListDto>) returns (listMap: map<Uuid, ClientList>)
    ensures listMap == KeyedBy(dtos, ClientListFromDto, ClientListKey)
    ensures forall k :: k in listMap <==> exists i :: 0 <= i < |dtos| && dtos[i].id == k
    ensures WellKeyed(listMap, ClientListKey)
  {
    listMap := BuildKeyedMap(dtos, ClientListFromDto, ClientListKey);
  }

  function ClientListPSetToDto(p: ClientListPSet): (d: ClientListPSetDto)
    ensures |d.liveSet| == |p.liveSet| && |d.tombstoneSet| == |p.tombstoneSet|
  {
    ClientListPSetDto(MapValues(p.liveSet, ClientListToDto), MapValues(p.tombstoneSet, ClientListToDto))
  }

  /** `toDoListPSetFromDto`: both maps rebuilt, tagged "ToDoListPSet". */
  function ClientListPSetFromDto(d: ClientListPSetDto): (p: ClientListPSet)
    ensures p.identifier == ToDoListPSetIdentifier
    ensures Valid(p, ClientListKey)
    ensures forall k | k in p.liveSet :: ListReady(p.liveSet[k])
    ensures forall k | k in p.tombstoneSet :: ListReady(p.tombstoneSet[k])
  {
    var p := PSet(KeyedBy(d.liveSet, ClientListFromDto, ClientListKey), KeyedBy(d.tombstoneSet, ClientListFromDto, ClientListKey),
                  ToDoListPSetIdentifier);
    KeyedByImage(d.liveSet);
    KeyedByImage(d.tombstoneSet);
    p
  }

  /** Every list of a decoded map is one of the decoded objects. */
  lemma {:induction false} KeyedByImage(dtos: seq<ClientListDto>)
    ensures forall k | k in KeyedBy(dtos, ClientListFromDto, ClientListKey) :: ListReady(KeyedBy(dtos, ClientListFromDto, ClientListKey)[k])
    decreases |dtos|
  {
    if dtos != [] {
      KeyedByImage(dtos[..|dtos| - 1]);
    }
  }

  /** A list map survives the wire when each list sits under its id and
      survives it itself. */
  lemma ClientListMapRoundTrip(listMap: map<Uuid, ClientList>)
    requires WellKeyed(listMap, ClientListKey)
    requires forall k | k in listMap :: ListReady(listMap[k])
    ensures KeyedBy(MapValues(listMap, ClientListToDto), ClientListFromDto, ClientListKey) == listMap
  {
    forall k | k in listMap ensures ClientListFromDto(ClientListToDto(listMap[k])) == listMap[k] {
      ClientListRoundTrip(listMap[k]);
    }
    MapValuesRoundTrip(listMap, ClientListToDto, ClientListFromDto, ClientListKey);
  }

  function ClientNotebookToDto(n: ClientNotebook): (d: ClientNotebookDto)
    ensures d.id == n.id && d.createdAt == n.createdAt
  {
    ClientNotebookDto(n.id, ClientListPSetToDto(n.toDoLists), n.createdAt)
  }

  function ClientNotebookFromDto(d: ClientNotebookDto): (n: ClientNotebook)
    ensures n.id == d.id && n.createdAt == d.createdAt
    ensures ClientNotebookValid(n) && n.toDoLists.identifier == ToDoListPSetIdentifier
  {
    ClientNotebook(d.id, ClientListPSetFromDto(d.toDoLists), d.createdAt)
  }

  /** A notebook whose sets carry the identifiers the decoder writes. */
  ghost predicate NotebookReady(n: ClientNotebook) {
    Valid(n.toDoLists, ClientListKey) && n.toDoLists.identifier == ToDoListPSetIdentifier &&
    (forall k | k in n.toDoLists.liveSet :: ListReady(n.toDoLists.liveSet[k])) &&
    (forall k | k in n.toDoLists.tombstoneSet :: ListReady(n.toDoLists.tombstoneSet[k]))
  }

  /** A notebook survives the wire: id, creation time, and the live and
      tombstoned lists with their items. */
  lemma ClientNotebookRoundTrip(n: ClientNotebook)
    requires NotebookReady(n)
    ensures ClientNotebookFromDto(ClientNotebookToDto(n)) == n
  {
    ClientListMapRoundTrip(n.toDoLists.liveSet);
    ClientListMapRoundTrip(n.toDoLists.tombstoneSet);
  }

  /** Every decoded notebook is ready, so decoding then encoding then
      decoding again is stable. */
  lemma ClientNotebookDecodeStable(d: ClientNotebookDto)
    ensures NotebookReady(ClientNotebookFromDto(d))
    ensures ClientNotebookFromDto(ClientNotebookToDto(ClientNotebookFromDto(d))) == ClientNotebookFromDto(d)
  {
    ClientNotebookRoundTrip(ClientNotebookFromDto(d));
  }
}
