/** The server's wire format: list-shaped DTOs for order values, titles,
    items, item sets and lists, and the converters between them and the
    domain values. Maps become slices of their values; slices become maps
    keyed by each item's own id. */
module Dto {
  import opened Types
  import opened Collections
  import opened Crdt
  import opened Solvent

  datatype OrderValueDto = OrderValueDto(value: real, updatedAt: int)

  datatype TitleDto = TitleDto(value: string, updatedAt: int)

  datatype ToDoItemDto = ToDoItemDto(id: Uuid, title: string, checked: bool, orderValue: OrderValueDto)

  datatype ToDoItemPSetDto = ToDoItemPSetDto(liveSet: seq<ToDoItemDto>, tombstoneSet: seq<ToDoItemDto>)

  /** The `updatedAt` field exists on the wire but no converter fills it. */
  datatype ToDoListDto = ToDoListDto(id: Uuid, title: TitleDto, toDoItems: ToDoItemPSetDto, updatedAt: int, createdAt: int)

  // ---------------------------------------------------------------------
  // Field-by-field converters
  // ---------------------------------------------------------------------

  function OrderValueToDto(v: OrderValue): (d: OrderValueDto)
    ensures d.value == v.value && d.updatedAt == v.updatedAt
  {
    OrderValueDto(v.value, v.updatedAt)
  }

  function OrderValueFromDto(d: OrderValueDto): (v: OrderValue)
    ensures v.value == d.value && v.updatedAt == d.updatedAt
  {
    OrderValue(d.value, d.updatedAt)
  }

  function TitleToDto(t: Title): (d: TitleDto)
    ensures d.value == t.value && d.updatedAt == t.updatedAt
  {
    TitleDto(t.value, t.updatedAt)
  }

  function TitleFromDto(d: TitleDto): (t: Title)
    ensures t.value == d.value && t.updatedAt == d.updatedAt
  {
    Title(d.value, d.updatedAt)
  }

  function ToDoItemToDto(item: ToDoItem): (d: ToDoItemDto)
    ensures d.id == item.id && d.title == item.title && d.checked == item.checked
    ensures OrderValueFromDto(d.orderValue) == item.orderValue
  {
    ToDoItemDto(item.id, item.title, item.checked, OrderValueToDto(item.orderValue))
  }

  function ToDoItemFromDto(d: ToDoItemDto): (item: ToDoItem)
    ensures item.id == d.id && item.title == d.title && item.checked == d.checked
    ensures OrderValueToDto(item.orderValue) == d.orderValue
  {
    ToDoItem(d.id, d.title, d.checked, OrderValueFromDto(d.orderValue))
  }

  /** Each scalar converter pair is a bijection: decoding undoes encoding
      and encoding undoes decoding. */
  lemma ScalarRoundTrips(v: OrderValue, vd: OrderValueDto, t: Title, td: TitleDto, item: ToDoItem, d: ToDoItemDto)
    ensures OrderValueFromDto(OrderValueToDto(v)) == v && OrderValueToDto(OrderValueFromDto(vd)) == vd
    ensures TitleFromDto(TitleToDto(t)) == t && TitleToDto(TitleFromDto(td)) == td
    ensures ToDoItemFromDto(ToDoItemToDto(item)) == item && ToDoItemToDto(ToDoItemFromDto(d)) == d
  {
  }

  // ---------------------------------------------------------------------
  // Item maps and slices
  // ---------------------------------------------------------------------

  /** `itemMapToToDoItemDtos`: one DTO per entry, in enumeration order. */
  method ItemMapToToDoItemDtos(itemMap: map<Uuid, ToDoItem>) returns (dtos: seq<ToDoItemDto>)
    ensures dtos == MapValues(itemMap, ToDoItemToDto)
    ensures |dtos| == |itemMap|
    ensures forall k | k in itemMap :: ToDoItemToDto(itemMap[k]) in dtos
  {
    MapValuesEntries(itemMap, ToDoItemToDto);
    dtos := CollectValues(itemMap, ToDoItemToDto);
  }

  /** `itemMapFromToDoItemDtos`: each decoded item under its own id, the
      last of several with one id winning. */
  method ItemMapFromToDoItemDtos(dtos: seq<ToDoItemDto>) returns (itemMap: map<Uuid, ToDoItem>)
    ensures itemMap == KeyedBy(dtos, ToDoItemFromDto, ItemKey)
    ensures forall k :: k in itemMap <==> exists i :: 0 <= i < |dtos| && dtos[i].id == k
    ensures WellKeyed(itemMap, ItemKey)
  {
    itemMap := BuildKeyedMap(dtos, ToDoItemFromDto, ItemKey);
  }

  /** Of several DTOs with one id, the last decides the decoded item. */
  lemma ItemDtosLastWins(dtos: seq<ToDoItemDto>, i: nat)
    requires i < |dtos|
    requires forall j | i < j < |dtos| :: dtos[j].id != dtos[i].id
    ensures KeyedBy(dtos, ToDoItemFromDto, ItemKey)[dtos[i].id] == ToDoItemFromDto(dtos[i])
  {
    KeyedByLastWins(dtos, ToDoItemFromDto, ItemKey, i);
  }

  /** Map to slice to map gives back any map whose keys are its items' ids. */
  lemma ItemMapRoundTrip(itemMap: map<Uuid, ToDoItem>)
    requires WellKeyed(itemMap, ItemKey)
    ensures KeyedBy(MapValues(itemMap, ToDoItemToDto), ToDoItemFromDto, ItemKey) == itemMap
  {
    MapValuesRoundTrip(itemMap, ToDoItemToDto, ToDoItemFromDto, ItemKey);
  }

  // ---------------------------------------------------------------------
  // Item sets and lists
  // ---------------------------------------------------------------------

  function ToDoItemPSetToDto(p: ToDoItemPSet): (d: ToDoItemPSetDto)
    ensures |d.liveSet| == |p.liveSet| && |d.tombstoneSet| == |p.tombstoneSet|
  {
    ToDoItemPSetDto(MapValues(p.liveSet, ToDoItemToDto), MapValues(p.tombstoneSet, ToDoItemToDto))
  }

  /** `toDoItemPSetFromDto` as written: the maps are rebuilt but the set's
      identifier, an unexported field, is never assigned and stays empty. */
  function ToDoItemPSetFromDtoAsWritten(d: ToDoItemPSetDto): (p: ToDoItemPSet)
    ensures p.identifier == ""
    ensures Crdt.Valid(p, ItemKey)
    ensures forall k :: k in p.liveSet <==> exists i :: 0 <= i < |d.liveSet| && d.liveSet[i].id == k
    ensures forall k :: k in p.tombstoneSet <==> exists i :: 0 <= i < |d.tombstoneSet| && d.tombstoneSet[i].id == k
  {
    PSet(KeyedBy(d.liveSet, ToDoItemFromDto, ItemKey), KeyedBy(d.tombstoneSet, ToDoItemFromDto, ItemKey), "")
  }

  /** Through the wire as written, an item set keeps its contents exactly
      and loses only its identifier. */
  lemma AsWrittenItemSetRoundTrip(p: ToDoItemPSet)
    requires Crdt.Valid(p, ItemKey)
    ensures ToDoItemPSetFromDtoAsWritten(ToDoItemPSetToDto(p)) == p.(identifier := "")
  {
    ItemMapRoundTrip(p.liveSet);
    ItemMapRoundTrip(p.tombstoneSet);
  }

  /** An item set that went through the wire as written can no longer be
      merged with the set it came from: the identifiers differ. */
  lemma DecodedItemSetCannotBeMerged(p: ToDoItemPSet)
    requires p.identifier == ToDoItemPSetIdentifier
    ensures ItemSetMerge(p, ToDoItemPSetFromDtoAsWritten(ToDoItemPSetToDto(p))) == Err(CannotBeMerged)
  {
  }

  /** The same on a whole list: a list merged with its own decoded copy
      fails, so a stored list cannot absorb an update sent by a client. */
  lemma DecodedListCannotBeMerged(l: ToDoList)
    requires l.toDoItems.identifier == ToDoItemPSetIdentifier
    ensures var d := ToDoListToDto(l);
            var copy := ToDoList(d.id, TitleFromDto(d.title), ToDoItemPSetFromDtoAsWritten(d.toDoItems), d.createdAt);
            MergeLists(l, copy) == Err(CannotBeMerged)
  {
    var d := ToDoListToDto(l);
    var copy := ToDoList(d.id, TitleFromDto(d.title), ToDoItemPSetFromDtoAsWritten(d.toDoItems), d.createdAt);
    DecodedItemSetCannotBeMerged(l.toDoItems);
    assert ItemSetMerge(l.toDoItems, copy.toDoItems).Err?;
  }

  /** `toDoItemPSetFromDto` with the identifier restored, as the browser
      client's decoder does. */
  function ToDoItemPSetFromDto(d: ToDoItemPSetDto): (p: ToDoItemPSet)
    ensures p.identifier == ToDoItemPSetIdentifier
    ensures Crdt.Valid(p, ItemKey)
    ensures forall k :: k in p.liveSet <==> exists i :: 0 <= i < |d.liveSet| && d.liveSet[i].id == k
    ensures forall k :: k in p.tombstoneSet <==> exists i :: 0 <= i < |d.tombstoneSet| && d.tombstoneSet[i].id == k
  {
    PSet(KeyedBy(d.liveSet, ToDoItemFromDto, ItemKey), KeyedBy(d.tombstoneSet, ToDoItemFromDto, ItemKey), ToDoItemPSetIdentifier)
  }

  /** An item set survives the wire exactly, identifier included. */
  lemma ItemSetRoundTrip(p: ToDoItemPSet)
    requires Crdt.Valid(p, ItemKey) && p.identifier == ToDoItemPSetIdentifier
    ensures ToDoItemPSetFromDto(ToDoItemPSetToDto(p)) == p
  {
    ItemMapRoundTrip(p.liveSet);
    ItemMapRoundTrip(p.tombstoneSet);
  }

  /** A decoded item set merges with the set it came from and gives it
      back unchanged. */
  lemma DecodedItemSetMerges(p: ToDoItemPSet)
    requires Crdt.Valid(p, ItemKey) && p.identifier == ToDoItemPSetIdentifier
    ensures ItemSetMerge(p, ToDoItemPSetFromDto(ToDoItemPSetToDto(p))) == Ok(p)
  {
    ItemSetRoundTrip(p);
    ItemSetMergeIdempotent(p);
  }

  /** `ToDoListToDto`: the list's fields; `updatedAt` keeps Go's zero value. */
  function ToDoListToDto(l: ToDoList): (d: ToDoListDto)
    ensures d.id == l.id && d.createdAt == l.createdAt && d.updatedAt == 0
    ensures TitleFromDto(d.title) == l.title
  {
    ToDoListDto(l.id, TitleToDto(l.title), ToDoItemPSetToDto(l.toDoItems), 0, l.createdAt)
  }

  /** `ToDoListFromDto`, decoding the item set with its identifier. */
  function ToDoListFromDto(d: ToDoListDto): (l: ToDoList)
    ensures l.id == d.id && l.createdAt == d.createdAt && TitleToDto(l.title) == d.title
    ensures l.toDoItems.identifier == ToDoItemPSetIdentifier && Crdt.Valid(l.toDoItems, ItemKey)
  {
    ToDoList(d.id, TitleFromDto(d.title), ToDoItemPSetFromDto(d.toDoItems), d.createdAt)
  }

  /** A list survives the wire: id, title, creation time and both item maps. */
  lemma ListRoundTrip(l: ToDoList)
    requires Crdt.Valid(l.toDoItems, ItemKey) && l.toDoItems.identifier == ToDoItemPSetIdentifier
    ensures ToDoListFromDto(ToDoListToDto(l)) == l
  {
    ItemSetRoundTrip(l.toDoItems);
  }
}
