# solvent — a verified model of the to-do CRDT core

Solvent keeps to-do lists that several replicas edit independently and
reconcile later. Its core is a two-phase set (a *PSet*): a map of live
elements and a map of tombstones, both keyed by the element's UUID. An
element is visible when it is live and not tombstoned; a removed element
can never come back under the same id. Adding an element whose id is
already live merges the two versions; merging two sets is a key-wise union
of both maps in which colliding entries merge element by element, and is
refused when the two sets carry different identifiers.

On top of the set sit the domain entities:

- a **to-do item** (id, title, checked flag, fractional order value with a
  timestamp): merging keeps the receiver's id and title, ORs the checked
  flags and keeps the order value with the strictly newer timestamp;
- a **to-do list** (id, timestamped title, a PSet of items, creation
  time): titles are last-writer-wins, items merge through the set;
  unchecking an item replaces it by an unchecked copy under a new id,
  because a checked flag that is ORed on merge cannot be cleared in place;
  the browser client renames an item the same way, because the item merge
  keeps the receiver's title, so a new title would be lost on merge: the
  copy is made by adding a fresh (unchecked) item with the new title and
  giving it the old order value and stamp, so renaming a checked item
  also clears its check; moving an item gives it an order value halfway
  between its new neighbours;
- a **notebook** (id, a PSet of lists, creation time).

Both implementations of the core are modelled: the Go server
(`crdt/crdt.go`, `pset_wrappers.go`, `solvent.go`, `web/dto/dto.go`) and
the browser client (`react-client/src/solvent/*.js`), together with the
wire format that carries lists between them.

| file | module | contents |
|---|---|---|
| `types.dfy` | `Types` | UUIDs, errors, `Result`/`Outcome`/`Option`, order values and titles |
| `collections.dfy` | `Collections` | map enumeration in key order, map-to-slice and slice-to-map conversion, sorting, running maximum |
| `crdt.dfy` | `Crdt` | the PSet as a value, its merge with the proofs of its algebra, and the mutable `PSetReplica` |
| `solvent.dfy` | `Solvent` | server items, lists and notebooks, their merges, the reordering arithmetic |
| `solvent_state.dfy` | `SolventState` | the server's typed set wrappers and the mutable `ToDoListReplica` and `NotebookReplica` |
| `dto.dfy` | `Dto` | the server's wire format and its converters |
| `client.dfy` | `Client` | the browser client's items, lists, notebooks, merges and reordering, related to the server's |
| `client_state.dfy` | `ClientState` | the client's mutable `ClientListReplica` and `ClientNotebookReplica` |
| `client_dto.dfy` | `ClientDto` | the client's wire format and its converters |

Element-level merges are passed to the generic set as total functions
`mergeElem: (T, T) -> Result<T>` together with a key function `key: T ->
Uuid`. A set is `Valid` when every entry is stored under its element's own
key. Go ranges over maps in random order and JavaScript in insertion
order; the model enumerates maps in ascending id order, and every
property proved about an enumeration holds for any order (keys, contents,
merged results).

## Model

| member | source | states |
|---|---|---|
| `Crdt.NewPSet` | crdt/crdt.go:21-27 | a new set has an empty live view, no tombstones and the given identifier |
| `Crdt.LiveViewOf` | crdt/crdt.go:43-53 | the live view holds exactly the live keys that are not tombstoned, each with its live element |
| `Crdt.TombstoneHides` | crdt/crdt.go:29-53 | re-adding an element whose key is tombstoned leaves it invisible and the live view unchanged |
| `Crdt.AddToItemMap` | crdt/crdt.go:105-121 | an absent key is inserted; a present key gets the merge of stored and incoming element, or the merge's error; no other key changes; keys stay well placed; `PSet.js:56-68` does the same |
| `Crdt.MergeIntoStep` | crdt/crdt.go:89-103 | one step of the merge loop: an error stops the fold, success continues with the updated map |
| `Crdt.MergeIntoTotal` | crdt/crdt.go:89-103 | with an element merge that never fails the map merge never fails |
| `Crdt.MergeTotal` | crdt/crdt.go:59-87 | with an element merge that never fails, a set merge succeeds exactly when the identifiers match |
| `Crdt.MergeItemMapsLoop` | crdt/crdt.go:89-103 | the loop over the other map's entries computes the fold `MergeItemMaps`; `PSet.js:70-79` does the same |
| `Crdt.Merge` | crdt/crdt.go:59-87 | different identifiers give `CannotBeMerged`; a merged set carries the common identifier; `PSet.js:43-53` does the same |
| `Crdt.PointwiseKeys` | crdt/crdt.go:89-103 | the key-wise union has exactly the keys of both maps |
| `Crdt.PointwiseWellKeyed` | crdt/crdt.go:89-103 | the key-wise union of well-keyed maps is well keyed when element merges keep keys |
| `Crdt.AddStepPointwise` | crdt/crdt.go:105-121 | adding one entry then merging the rest equals merging everything at once |
| `Crdt.MergeIntoPointwise` | crdt/crdt.go:89-103 | folding distinct keys succeeds exactly when every collision merges, and then yields the key-wise union |
| `Crdt.RestrictToAll` | crdt/crdt.go:89-103 | restricting a map to all of its keys gives it back |
| `Crdt.MergeItemMapsPointwise` | crdt/crdt.go:89-103 | the map merge succeeds exactly when every collision merges, and its result is the key-wise union, independent of enumeration order |
| `Crdt.MergeContents` | crdt/crdt.go:59-87 | a set merge succeeds exactly when identifiers match and all collisions in both maps merge; its live and tombstone maps are the key-wise unions |
| `Crdt.MergeKeys` | crdt/crdt.go:59-87 | a merged set holds the union of both live key sets and of both tombstone key sets; its live view is the union minus all tombstones |
| `Crdt.MergePreservesValid` | crdt/crdt.go:59-87 | merging well-keyed sets with key-preserving element merges gives a well-keyed set |
| `Crdt.PointwiseSelf` | crdt/crdt.go:89-103 | the union of a map with itself is the map when element merge is idempotent |
| `Crdt.PointwiseSwap` | crdt/crdt.go:89-103 | the key-wise union is symmetric when element merge is |
| `Crdt.MergeIdempotent` | crdt/crdt.go:59-87 | a set merged with itself is unchanged when element merge is idempotent |
| `Crdt.MergeCommutative` | crdt/crdt.go:59-87 | set merge is commutative when element merge is commutative on colliding entries |
| `Crdt.PointwiseAssociative` | crdt/crdt.go:59-87 | the key-wise union of three maps is associative, and both groupings merge, when element merge is associative on keys in all three |
| `Crdt.MergeAssociative` | crdt/crdt.go:59-103 | set merge of three valid sets with one identifier is associative, and every merge involved succeeds, when element merge is associative on colliding entries |
| `Crdt.PSetReplica.constructor` | crdt/crdt.go:21-27 | a new replica holds the empty set with the given identifier |
| `Crdt.PSetReplica.Add` | crdt/crdt.go:29-31 | the live map becomes `AddToItemMap` of the old one, or stays and the error is returned; tombstones unchanged; validity kept; `PSet.js:13-15` does the same |
| `Crdt.PSetReplica.Remove` | crdt/crdt.go:33-41 | a visible element is recorded as tombstone; an invisible one changes nothing; the live map never changes; `PSet.js:17-25` does the same |
| `Crdt.PSetReplica.LiveView` | crdt/crdt.go:43-53 | the loop returns exactly `LiveViewOf` of the current set; `PSet.js:27-37` does the same |
| `Collections.SortedKeys` | solvent.go:205 | the enumeration of a map's keys lists each key once |
| `Collections.SortedKeysAscending` | solvent.go:205 | the enumeration is in strictly ascending id order |
| `Collections.CollectValues` | solvent.go:201-210 | the loop that collects a map's values computes `MapValues` |
| `Collections.MapValuesEntries` | solvent.go:201-210 | every map value appears in the collected slice and every slice element is a map value |
| `Collections.KeyedBy` | web/dto/dto.go:110-119 | the rebuilt map has exactly the ids found in the slice and is well keyed |
| `Collections.KeyedByLastWins` | web/dto/dto.go:110-119 | of several slice entries with one id, the last one is kept |
| `Collections.MapValuesRoundTrip` | web/dto/dto.go:100-119 | map to slice to map gives back a well-keyed map |
| `Collections.BuildKeyedMap` | web/dto/dto.go:110-119 | the loop that builds the map computes `KeyedBy` |
| `Collections.SortAscending` | solvent.go:222 | the sorted slice is ascending and a permutation of the input |
| `Collections.AscendingUnique` | solvent.go:222 | there is only one ascending permutation, so the unstable sort's result is determined |
| `Collections.MaxFromBounds` | solvent.go:397-406 | the running maximum bounds the start value and every element and is one of them |
| `Collections.MaxFromSnoc` | solvent.go:397-406 | one more loop iteration keeps the larger of the maximum so far and the new value |
| `Solvent.MergeItems` | solvent.go:40-68 | different ids give `CannotBeMerged`; otherwise id and title are the receiver's, checked is the OR, the order value is the one with the newer timestamp, ties keep the receiver's |
| `Solvent.MergeItemsIdempotent` | solvent.go:40-68 | an item merged with itself is unchanged |
| `Solvent.MergeItemsCommutative` | solvent.go:40-68 | item merge is commutative when titles agree and equal timestamps carry equal order values |
| `Solvent.MergeItemsTieKeepsReceiver` | solvent.go:40-68 | on equal timestamps with different order values the merge is not commutative |
| `Solvent.MergeItemsAssociative` | solvent.go:40-68 | item merge is associative |
| `Solvent.NewToDoItemPSet` | pset_wrappers.go:15-19 | a new item set is empty, named `ToDoItemPSet` and valid |
| `Solvent.NewToDoListPSet` | pset_wrappers.go:63-67 | a new list set is empty, named `ToDoListPSet` and valid |
| `Solvent.ItemSetMerge` | pset_wrappers.go:43-54 | different identifiers give `CannotBeMerged`; the result keeps the identifier |
| `Solvent.ItemCollisionsMerge` | pset_wrappers.go:43-54 | in well-keyed item maps every collision merges and keeps its key |
| `Solvent.ItemSetMergeSucceeds` | pset_wrappers.go:43-54 | valid item sets with one identifier always merge, into a valid set holding both key sets |
| `Solvent.ItemSetMergeIdempotent` | pset_wrappers.go:43-54 | an item set merged with itself is unchanged |
| `Solvent.ItemSetMergeCommutative` | pset_wrappers.go:43-54 | item-set merge is commutative when colliding items agree on title and stamped order value |
| `Solvent.ItemSetMergeAssociative` | pset_wrappers.go:43-54 | valid item sets with one identifier merge associatively, every merge succeeding |
| `Solvent.ItemsMergeAssociatively` | solvent.go:40-68 | in well-keyed item maps the item merge is associative on every key in all three |
| `Solvent.MergeLists` | solvent.go:262-292 | different ids give `CannotBeMerged`; otherwise the item sets merge or their error is returned; the title with the newer timestamp wins, ties keep the receiver's |
| `Solvent.MergeListsIdempotent` | solvent.go:262-292 | a list merged with itself is unchanged |
| `Solvent.MergeListsCommutative` | solvent.go:262-292 | list merge is commutative when the lists agree where timestamps tie |
| `Solvent.MergeListsAssociative` | solvent.go:262-292 | lists with one id and valid item sets of one identifier merge associatively, every merge succeeding |
| `Solvent.ListSetMerge` | pset_wrappers.go:91-102 | different identifiers give `CannotBeMerged`; the result keeps the identifier |
| `Solvent.MergeNotebooks` | solvent.go:360-383 | different ids give `CannotBeMerged`; otherwise the list sets merge and id and creation time are the receiver's |
| `Solvent.MergeNotebooksIdempotent` | solvent.go:360-383 | a notebook merged with itself is unchanged |
| `Solvent.ListsMergeAssociatively` | solvent.go:262-292 | in well-keyed maps of well-formed lists the list merge is associative on shared keys and keeps the key |
| `Solvent.ListSetMergeAssociative` | pset_wrappers.go:91-102 | well-formed list sets with one identifier merge associatively, every merge succeeding |
| `Solvent.ListSetMergeCommutative` | pset_wrappers.go:91-102 | well-formed list sets with one identifier merge commutatively when colliding lists agree where timestamps tie |
| `Solvent.MergeNotebooksAssociative` | solvent.go:360-383 | notebooks with one id and well-formed list sets merge associatively, every merge succeeding |
| `Solvent.MergeNotebooksCommutative` | solvent.go:360-383 | notebooks with one id and creation time merge commutatively when colliding lists agree where timestamps tie |
| `Solvent.NextOrderValueBounds` | solvent.go:397-406 | the next order value is at least 10, exceeds every live value by at least 10 and is 10 or some live value plus 10 |
| `Solvent.ValuesOfMapValues` | solvent.go:220-222 | projecting the collected items to order values equals collecting the order values |
| `Solvent.ClampIndex` | solvent.go:408-417 | in-range indices are kept, negative ones become 0, too large ones the last index |
| `Solvent.MoveTarget` | solvent.go:224-243 | no move when the target slot holds the item's value; moving up averages with the previous value or 0; moving down with the next value or the next order value |
| `Solvent.MoveValue` | solvent.go:220-243 | the move is skipped exactly when the clamped slot of the sorted live values holds the item's own value |
| `Solvent.MoveValueUnfold` | solvent.go:220-243 | the move value is `MoveTarget` on the sorted live values at the clamped index |
| `Solvent.MoveValueIn` | solvent.go:220-243 | the computation over the live view returns `MoveValue` |
| `Solvent.MidpointIn` | solvent.go:224-243 | the branch computation returns `MoveTarget` with the next order value as upper fallback |
| `Solvent.NextOrderValueIn` | solvent.go:397-406 | the loop computes the next order value of the live view |
| `Solvent.MoveTargetBetween` | solvent.go:224-243 | in an ascending slice of non-negative values the new value lies between the two neighbours it is placed between |
| `Solvent.ThreeItemsValues` | solvent.go:220-222 | the order values of three items with ids 1, 2, 3 are collected in id order |
| `Solvent.MoveValueOf` | solvent.go:220-243 | once the collected values and their ascending arrangement are known, the move value is `MoveTarget` on that arrangement with the maximum plus 10 as next value |
| `Solvent.MoveItemScenario` | solvent_test.go:93-120 | on a list of three items valued 10, 20, 30, `MoveValue` of the third to index 1 is 15; then to index -10 (clamped to the head) 5; then to index 10 (clamped to the tail) 25 |
| `SolventState.ItemSetAdd` | pset_wrappers.go:21-23 | an absent item is inserted, a present one merged with `MergeItems`; a mismatched stored id fails; validity kept |
| `SolventState.ItemSetReorder` | solvent.go:244-251 | re-adding a live item with a new order value stamped now replaces it exactly when now is newer than its stamp |
| `SolventState.ItemSetRemove` | pset_wrappers.go:25-27 | a visible item is tombstoned, an invisible one changes nothing |
| `SolventState.ItemSetLiveView` | pset_wrappers.go:29-37 | returns the live view of the item set |
| `SolventState.ListSetAdd` | pset_wrappers.go:69-71 | an absent list is inserted; a present one is merged with `MergeLists`, or its error returned |
| `SolventState.ListSetRemove` | pset_wrappers.go:73-75 | a visible list is tombstoned, an invisible one changes nothing |
| `SolventState.ListSetLiveView` | pset_wrappers.go:77-85 | returns the live view of the list set |
| `SolventState.ToDoListReplica.constructor` | solvent.go:80-98 | a new list has the given title and an empty, valid item set |
| `SolventState.ToDoListReplica.Rename` | solvent.go:103-111 | the title becomes the new text stamped now; the list's id is returned |
| `SolventState.ToDoListReplica.GetItem` | solvent.go:141-148 | a live item is returned, any other id gives `NotFound` |
| `SolventState.ToDoListReplica.NextOrderValue` | solvent.go:397-406 | returns the next order value of the live items |
| `SolventState.ToDoListReplica.GetItems` | solvent.go:201-210 | returns each live item exactly once and nothing else |
| `SolventState.ToDoListReplica.AddItem` | solvent.go:115-137 | inserts an unchecked item under the fresh id, ordered after every live item; nothing else changes |
| `SolventState.ToDoListReplica.RemoveItem` | solvent.go:153-158 | tombstones the live item; afterwards it is not found |
| `SolventState.ToDoListReplica.CheckItem` | solvent.go:162-170 | a live item becomes checked in place; an absent id gives `NotFound` and changes nothing |
| `SolventState.ToDoListReplica.UncheckItem` | solvent.go:175-195 | a live item is tombstoned and an unchecked copy inserted under the fresh id; an absent id gives `NotFound` |
| `SolventState.ToDoListReplica.MoveValueOf` | solvent.go:220-243 | returns `MoveValue` of the live items for the item and target index |
| `SolventState.ToDoListReplica.MoveItem` | solvent.go:214-252 | an absent id gives `NotFound`; otherwise the item's order value becomes the move value, stamped now, unless no move is needed or the stored stamp is not older |
| `SolventState.NotebookReplica.constructor` | solvent.go:300-312 | a new notebook has an empty, valid list set |
| `SolventState.NotebookReplica.GetList` | solvent.go:336-344 | a live list is returned, any other id gives `NotFound` |
| `SolventState.NotebookReplica.AddList` | solvent.go:314-326 | inserts the new empty list under the fresh id and returns it |
| `SolventState.NotebookReplica.RemoveList` | solvent.go:328-334 | tombstones the live list; afterwards it is not found |
| `SolventState.NotebookReplica.GetLists` | solvent.go:346-354 | returns each live list exactly once |
| `Dto.OrderValueToDto` | web/dto/dto.go:16-21 | copies value and timestamp |
| `Dto.OrderValueFromDto` | web/dto/dto.go:23-28 | copies value and timestamp |
| `Dto.TitleToDto` | web/dto/dto.go:35-40 | copies text and timestamp |
| `Dto.TitleFromDto` | web/dto/dto.go:42-47 | copies text and timestamp |
| `Dto.ToDoItemToDto` | web/dto/dto.go:58-65 | copies every field; the order value decodes back |
| `Dto.ToDoItemFromDto` | web/dto/dto.go:68-75 | copies every field; the order value encodes back |
| `Dto.ScalarRoundTrips` | web/dto/dto.go:16-75 | each scalar converter pair is a bijection in both directions |
| `Dto.ItemMapToToDoItemDtos` | web/dto/dto.go:100-108 | one DTO per map entry, each entry represented |
| `Dto.ItemMapFromToDoItemDtos` | web/dto/dto.go:110-119 | the map holds exactly the ids in the slice, each under its own id |
| `Dto.ItemDtosLastWins` | web/dto/dto.go:110-119 | the last DTO with a given id decides the decoded item |
| `Dto.ItemMapRoundTrip` | web/dto/dto.go:100-119 | a well-keyed item map survives map to slice to map |
| `Dto.ToDoItemPSetToDto` | web/dto/dto.go:82-87 | one DTO per live and per tombstoned item |
| `Dto.ToDoItemPSetFromDtoAsWritten` | web/dto/dto.go:89-98 | the decoded set is valid, holds exactly the ids of the two slices, and its identifier is empty |
| `Dto.AsWrittenItemSetRoundTrip` | web/dto/dto.go:82-98 | through the wire as written a valid item set keeps its live and tombstone maps exactly and loses only its identifier |
| `Dto.DecodedItemSetCannotBeMerged` | web/dto/dto.go:89-98 | an item set merged with its own decoded copy fails with `CannotBeMerged` |
| `Dto.DecodedListCannotBeMerged` | web/dto/dto.go:141-148 | a list merged with its own decoded copy fails with `CannotBeMerged` |
| `Dto.ToDoItemPSetFromDto` | web/dto/dto.go:89-98 | the decoded set is valid, named `ToDoItemPSet`, with exactly the ids of the slices |
| `Dto.ItemSetRoundTrip` | web/dto/dto.go:82-98 | a valid item set survives encoding and decoding, identifier included |
| `Dto.DecodedItemSetMerges` | service/service.go:48-66 | an item set merged with its decoded copy succeeds and is unchanged |
| `Dto.ToDoListToDto` | web/dto/dto.go:131-138 | copies id, creation time and title; the wire `updatedAt` stays 0 |
| `Dto.ToDoListFromDto` | web/dto/dto.go:141-148 | copies id, creation time and title; the item set is valid and named |
| `Dto.ListRoundTrip` | web/dto/dto.go:131-148 | a list with a valid item set survives encoding and decoding |
| `Client.MergeClientItems` | react-client/src/solvent/ToDoItem.js:11-22 | id and title are the receiver's, checked is the OR, order value and item stamp come together from one side, the other side only when its stamp is strictly greater |
| `Client.MergeClientItemsOk` | react-client/src/solvent/ToDoItem.js:11-22 | the client's item merge never fails |
| `Client.MergeClientItemsIdempotent` | react-client/src/solvent/ToDoItem.js:11-22 | an item merged with itself is unchanged |
| `Client.ClientMergeIgnoresIds` | react-client/src/solvent/ToDoItem.js:11-22 | items with different ids merge without complaint |
| `Client.ClientMergeIgnoresOrderStamp` | react-client/src/solvent/ToDoItem.js:11-22 | when one item stamp is undefined the client keeps the receiver's order value where the server takes the newer one |
| `Client.ServerItem` | react-client/src/solvent/ToDoItem.js:3-9 | the server's view of a client item keeps id, title, checked flag and order value |
| `Client.ClientMergeAgreesWithServer` | react-client/src/solvent/ToDoItem.js:11-22 | when item stamps equal order-value stamps, client and server item merges agree |
| `Client.MergeClientItemsCommutative` | react-client/src/solvent/ToDoItem.js:11-22 | the client's merge is commutative on defined stamps that agree on ties |
| `Client.MergeClientItemsNotCommutative` | react-client/src/solvent/ToDoItem.js:11-22 | two unstamped items valued 10 and 20 each keep their own order value as receiver, so the merge is not commutative |
| `Client.MergeClientItemsNotAssociative` | react-client/src/solvent/ToDoItem.js:11-22 | with stamps 5, undefined and 7 the two groupings keep different order values |
| `Client.MergeClientItemsAssociative` | react-client/src/solvent/ToDoItem.js:11-22 | the client's item merge is associative when the three stamps are all undefined or all defined |
| `Client.ClientItemSetMerge` | react-client/src/solvent/PSet.js:43-53 | succeeds exactly when identifiers match, else `CannotBeMerged` |
| `Client.ClientItemSetMergeKeys` | react-client/src/solvent/PSet.js:43-53 | a merged item set holds both live key sets and both tombstone key sets |
| `Client.ClientItemSetMergeIdempotent` | react-client/src/solvent/PSet.js:43-53 | an item set merged with itself is unchanged |
| `Client.ClientItemsMergeAssociatively` | react-client/src/solvent/ToDoItem.js:11-22 | on unstamped well-keyed maps the client item merge is associative on every key in all three |
| `Client.ClientItemSetMergeAssociative` | react-client/src/solvent/PSet.js:43-53 | valid unstamped item sets with one identifier merge associatively, every merge succeeding |
| `Client.ClientItemSetMergeNotCommutative` | react-client/src/solvent/PSet.js:43-53 | two one-item sets whose item differs only in order value each merge to themselves as receiver, so set merge is not commutative |
| `Client.MergeClientLists` | react-client/src/solvent/ToDoList.js:133-142 | succeeds exactly when item-set identifiers match, with no id check; the items merge; the title with the newer timestamp wins |
| `Client.MergeClientListsIdempotent` | react-client/src/solvent/ToDoList.js:133-142 | a list merged with itself is unchanged |
| `Client.MergeClientListsAssociative` | react-client/src/solvent/ToDoList.js:133-142 | lists with valid unstamped item sets named `ToDoItemPSet` merge associatively, every merge succeeding |
| `Client.ClientListSetMerge` | react-client/src/solvent/PSet.js:43-53 | different identifiers give `CannotBeMerged` |
| `Client.MergeClientNotebooks` | react-client/src/solvent/Notebook.js:46-55 | different ids are refused; otherwise the list sets merge under the receiver's id and creation time |
| `Client.MergeClientNotebooksIdempotent` | react-client/src/solvent/Notebook.js:46-55 | a notebook merged with itself is unchanged |
| `Client.ClientListsMergeAssociatively` | react-client/src/solvent/ToDoList.js:133-142 | in maps of such lists, well keyed in the middle one, the list merge is associative on shared keys and keeps the key |
| `Client.MergeClientNotebooksAssociative` | react-client/src/solvent/Notebook.js:46-55 | notebooks with one id and well-formed unstamped list sets merge associatively, every merge succeeding |
| `Client.AllCheckedIn` | react-client/src/solvent/ToDoList.js:120-127 | the loop answers true exactly when every live item is checked |
| `Client.ServerView` | react-client/src/solvent/ToDoList.js:144-153 | the server view of a client map has the same keys and each item's server form |
| `Client.ServerViewValues` | react-client/src/solvent/ToDoList.js:144-153 | the order values collected from both views are equal |
| `Client.ClientNextOrderValueAgrees` | react-client/src/solvent/ToDoList.js:144-153 | the client's next order value equals the server's on the same items |
| `Client.ClientNextOrderValueBounds` | react-client/src/solvent/ToDoList.js:144-153 | the next order value is at least 10 and at least 10 above every live value |
| `Client.ClientNextOrderValueIn` | react-client/src/solvent/ToDoList.js:144-153 | the loop computes the client's next order value |
| `Client.ClientMoveValue` | react-client/src/solvent/ToDoList.js:65-95 | the move is skipped exactly when the target slot of the sorted values holds the item's own value |
| `Client.ClientMoveAgreesWithServer` | react-client/src/solvent/ToDoList.js:65-95 | for an in-range index the client's move value is the server's |
| `Client.ClientMoveValueUnfold` | react-client/src/solvent/ToDoList.js:65-95 | the move value is `MoveTarget` on the sorted values at the given index |
| `Client.ClientMoveValueIn` | react-client/src/solvent/ToDoList.js:65-95 | the computation over the live view returns `ClientMoveValue` |
| `Client.ClientMidpointIn` | react-client/src/solvent/ToDoList.js:70-89 | the branch computation returns `MoveTarget` with the client's next order value |
| `Client.ClientValuesOfMapValues` | react-client/src/solvent/ToDoList.js:67 | projecting the collected items equals collecting their order values |
| `ClientState.ClientItemSetAdd` | react-client/src/solvent/PSet.js:13-15 | an absent item is inserted, a present one merged with the client's item merge |
| `ClientState.ClientItemSetWriteBack` | react-client/src/solvent/ToDoList.js:90-92 | writing into a stored item and adding it back, as `moveItem` does here and `renameItem` at lines 107-109, replaces exactly that entry and keeps tombstones and validity |
| `ClientState.ClientListReplica.constructor` | react-client/src/solvent/ToDoList.js:15-18 | a new list has the given title and an empty item set named `ToDoItemPSet` |
| `ClientState.ClientListReplica.Items` | react-client/src/solvent/ToDoList.js:20-25 | returns each live item exactly once |
| `ClientState.ClientListReplica.GetItem` | react-client/src/solvent/ToDoList.js:36-38 | a live item is returned, any other id gives nothing |
| `ClientState.ClientListReplica.NextOrderValue` | react-client/src/solvent/ToDoList.js:144-153 | returns the client's next order value of the live items |
| `ClientState.ClientListReplica.AddItem` | react-client/src/solvent/ToDoList.js:27-34 | inserts an unchecked item under the fresh id, ordered after every live item |
| `ClientState.ClientListReplica.RemoveItem` | react-client/src/solvent/ToDoList.js:40-45 | tombstones a live item; afterwards it is not found |
| `ClientState.ClientListReplica.CheckItem` | react-client/src/solvent/ToDoList.js:47-52 | the stored item becomes checked; nothing else changes |
| `ClientState.ClientListReplica.UncheckItem` | react-client/src/solvent/ToDoList.js:54-63 | the item is tombstoned and an unchecked copy inserted under the fresh id |
| `ClientState.ClientListReplica.MoveItem` | react-client/src/solvent/ToDoList.js:65-95 | the stored item's order value becomes the move value stamped now, unconditionally, unless no move is needed |
| `ClientState.ClientListReplica.RenameItem` | react-client/src/solvent/ToDoList.js:97-112 | an unchanged title returns the item's own id and changes nothing; otherwise the item is tombstoned and an unchecked item with the new title, the old order value and the old stamp is inserted under the fresh id, so a checked item loses its check |
| `ClientState.ClientListReplica.Rename` | react-client/src/solvent/ToDoList.js:114-118 | the title becomes the new text stamped now |
| `ClientState.ClientListReplica.IsChecked` | react-client/src/solvent/ToDoList.js:120-127 | true exactly when every live item is checked |
| `ClientState.ClientNotebookReplica.constructor` | react-client/src/solvent/Notebook.js:13-15 | a new notebook has an empty list set named `ToDoListPSet` |
| `ClientState.ClientNotebookReplica.GetList` | react-client/src/solvent/Notebook.js:31-33 | a live list is returned, any other id gives nothing |
| `ClientState.ClientNotebookReplica.AddList` | react-client/src/solvent/Notebook.js:17-22 | inserts the new empty list under the fresh id and returns it |
| `ClientState.ClientNotebookReplica.RemoveList` | react-client/src/solvent/Notebook.js:24-29 | tombstones a live list; afterwards it is not found |
| `ClientState.ClientNotebookReplica.GetLists` | react-client/src/solvent/Notebook.js:35-40 | returns each live list exactly once |
| `ClientDto.ClientItemToDto` | react-client/src/solvent/Dto.js:27-35 | copies every field, the item stamp included |
| `ClientDto.ClientItemFromDto` | react-client/src/solvent/Dto.js:17-25 | copies every field, the item stamp included |
| `ClientDto.ClientItemRoundTrips` | react-client/src/solvent/Dto.js:17-35 | the item converters are inverse bijections |
| `ClientDto.ClientItemMapToDto` | react-client/src/solvent/Dto.js:45-50 | one DTO per map entry, each entry represented |
| `ClientDto.ClientItemMapFromDto` | react-client/src/solvent/Dto.js:37-43 | the map holds exactly the ids in the slice, each under its own id |
| `ClientDto.ClientItemDtosLastWins` | react-client/src/solvent/Dto.js:37-43 | the last DTO with a given id decides the decoded item |
| `ClientDto.ClientItemPSetToDto` | react-client/src/solvent/Dto.js:60-65 | one DTO per live and per tombstoned item |
| `ClientDto.ClientItemPSetFromDto` | react-client/src/solvent/Dto.js:52-58 | the decoded set is valid, named `ToDoItemPSet`, with exactly the ids of the slices |
| `ClientDto.ClientItemSetRoundTrip` | react-client/src/solvent/Dto.js:52-65 | a valid item set survives encoding and decoding |
| `ClientDto.ClientListToDto` | react-client/src/solvent/Dto.js:87-95 | copies id, title and creation time; the wire `updatedAt` is undefined |
| `ClientDto.ClientListFromDto` | react-client/src/solvent/Dto.js:78-85 | copies id, title and creation time; the item set is valid and named |
| `ClientDto.ClientListRoundTrip` | react-client/src/solvent/Dto.js:78-95 | a list with a valid named item set survives encoding and decoding |
| `ClientDto.ClientDecodedListMerges` | react-client/src/solvent/Dto.js:78-95 | a list merged with its decoded copy is unchanged |
| `ClientDto.ClientListMapToDto` | react-client/src/solvent/Dto.js:105-110 | one DTO per list, each list represented |
| `ClientDto.ClientListMapFromDto` | react-client/src/solvent/Dto.js:97-103 | the map holds exactly the ids in the slice, each under its own id |
| `ClientDto.ClientListPSetToDto` | react-client/src/solvent/Dto.js:120-125 | one DTO per live and per tombstoned list |
| `ClientDto.ClientListPSetFromDto` | react-client/src/solvent/Dto.js:112-118 | the decoded set is valid, named `ToDoListPSet`, and every decoded list has a valid named item set |
| `ClientDto.KeyedByImage` | react-client/src/solvent/Dto.js:97-103 | every list rebuilt from DTOs has a valid named item set |
| `ClientDto.ClientListMapRoundTrip` | react-client/src/solvent/Dto.js:97-110 | a well-keyed map of such lists survives encoding and decoding |
| `ClientDto.ClientNotebookToDto` | react-client/src/solvent/Dto.js:135-141 | copies id and creation time |
| `ClientDto.ClientNotebookFromDto` | react-client/src/solvent/Dto.js:127-133 | copies id and creation time; the decoded notebook is valid with a `ToDoListPSet` |
| `ClientDto.ClientNotebookRoundTrip` | react-client/src/solvent/Dto.js:127-141 | a well-formed notebook survives encoding and decoding |
| `ClientDto.ClientNotebookDecodeStable` | react-client/src/solvent/Dto.js:127-141 | a decoded notebook is well formed, so encoding and decoding it again changes nothing |

## Left out

- HTTP handlers, persistence, the service layer and rendering are not modelled; only the merge the service performs on update is stated (`Dto.DecodedItemSetMerges`).
- UUID generation and its failure (`randomUUID`, the client's `uuid()`) are not modelled: fresh ids are parameters, required to be unused in the set, and the `Unknown` error that a failing generator produces is absent.
- Clocks (`time.Now`, `Date.now`) are parameters `now`.
- Order values are `real`, not IEEE doubles; rounding of repeated halving is not modelled.
- The `TypeMisMatch` error of the Go set is unreachable in the model, whose sets are typed.
- Error message strings are not modelled; errors are the constructors `CannotBeMerged` and `NotFound(id)`.
- Map iteration order is fixed as ascending ids; Go's random order and JavaScript's insertion order are not modelled, and order-dependent outputs (`GetItems`, `GetLists`, the DTO slices) are stated up to this choice.
- Aliasing is not modelled: Go's pointers into stored lists and JavaScript's shared objects between a replica and a list returned by `addList` are separate values here.
- The typed wrappers' `LiveView` conversion loops are the identity on values and are modelled by the generic live view.
- `ToDoItem.js` has no `identifier()` method and does not export `OrderValue`. As written, every `PSet.js` add, remove or merge that touches an item calls `item.identifier()` and throws a `TypeError`, and so does every `new OrderValue(...)` in `ToDoList.js` and `Dto.js`; the model keys client items by their `id` and builds order values directly, so it describes the client as evidently intended, not these throws.
- `Client.MergeClientLists`: no `CannotBeMerged` for different list ids, because `ToDoList.js:133-142` does not compare them.
- `ClientState.ClientListReplica.CheckItem`, `UncheckItem`, `MoveItem` and `RenameItem` require the item to be live: on an absent id the JavaScript code throws a `TypeError`, which is not modelled.
- `Client.MergeClientItemsCommutative` requires defined item stamps (`updatedAt`), which no client item carries: `addItem` and `uncheckItem` leave it undefined, `moveItem` sets only the order value's stamp, `renameItem` copies it and the server's DTO never sends one. With undefined stamps the client's item merge keeps the receiver's order value, so it is not commutative (`Client.MergeClientItemsNotCommutative`) and, with mixed stamps, not associative (`Client.MergeClientItemsNotAssociative`); item-set merge is not commutative either (`Client.ClientItemSetMergeNotCommutative`), nor, through it, list and notebook merge. Associativity of the client's item, item-set, list and notebook merges is proved for unstamped items only.
- `ClientState.ClientListReplica.MoveItem` requires an index in range: `ToDoList.js` does not clamp and an index out of range throws.
- `ClientState.ClientListReplica.Rename` does not return the list (`ToDoList.js:114-118` returns `this`).
- The browser client's order-value and title converters (`Dto.js:6-15`, `67-76`) are the same field copies as the server's and use `Dto.OrderValueToDto`, `Dto.OrderValueFromDto`, `Dto.TitleToDto` and `Dto.TitleFromDto`.
- `Dto.ToDoListFromDto` decodes items with the corrected `Dto.ToDoItemPSetFromDto` (see Findings).
- The server has no notebook wire format in `web/dto/dto.go`; `NotebookToDto` and `NotebookFromDto` are not part of this model.

## Findings

| source | as written | input that shows it | evidently intended | confidence | as-written member | corrected member |
|---|---|---|---|---|---|---|
| web/dto/dto.go:89-98 | `toDoItemPSetFromDto` rebuilds both maps but never sets the set's identifier, so a decoded item set is named `""` | any list whose item set is named `ToDoItemPSet` (every list the server creates), encoded and decoded, then merged with the stored list as the service's update does | restore the identifier `ToDoItemPSet`, as `web/dto/dto_test.go:10-21` expects of the list decoder and as `Dto.js:52-58` does | high, not executed | `Dto.ToDoItemPSetFromDtoAsWritten` with `Dto.DecodedItemSetCannotBeMerged` and `Dto.DecodedListCannotBeMerged` | `Dto.ToDoItemPSetFromDto` with `Dto.ItemSetRoundTrip`, `Dto.DecodedItemSetMerges` and `Dto.ListRoundTrip` |
